/** The editor's session state: the open files, the name of the active tab and the language
    selected for new files, changed in place by the five editor operations. */
module Session {
  import opened Wrappers
  import opened Text
  import opened Languages
  import opened Formatter
  import opened Requests

  /** One open file of the editor. */
  datatype SessionFile = SessionFile(id: nat, name: string, content: string, language: string)

  /** `files.find(f => f.name === name)`, as an index: the first file with that name. */
  function FindByName(files: seq<SessionFile>, name: string): (r: Option<nat>)
    ensures r.Some? ==> r.value < |files| && files[r.value].name == name
    ensures r.Some? ==> forall j :: 0 <= j < r.value ==> files[j].name != name
    ensures r.None? <==> forall j :: 0 <= j < |files| ==> files[j].name != name
  {
    if |files| == 0 then None
    else if files[0].name == name then Some(0)
    else match FindByName(files[1..], name)
      case None => None
      case Some(i) => Some(i + 1)
  }

  /** `files.filter(f => f.name !== name)`: exactly the files with another name. */
  function Without(files: seq<SessionFile>, name: string): (r: seq<SessionFile>)
    ensures |r| <= |files|
    ensures forall f :: f in r <==> f in files && f.name != name
  {
    if |files| == 0 then []
    else (if files[0].name == name then [] else [files[0]]) + Without(files[1..], name)
  }

  /** Filtering keeps order: it distributes over concatenation, so the kept files appear in
      their original relative order. */
  lemma {:induction false} WithoutAppend(a: seq<SessionFile>, b: seq<SessionFile>, name: string)
    ensures Without(a + b, name) == Without(a, name) + Without(b, name)
  {
    if |a| == 0 {
      assert a + b == b;
    } else {
      assert (a + b)[1..] == a[1..] + b;
      WithoutAppend(a[1..], b, name);
    }
  }

  /** Filtering a name no file carries changes nothing. */
  lemma {:induction false} WithoutAbsent(files: seq<SessionFile>, name: string)
    requires forall j :: 0 <= j < |files| ==> files[j].name != name
    ensures Without(files, name) == files
  {
    if |files| > 0 {
      WithoutAbsent(files[1..], name);
    }
  }

  predicate NamesDistinct(files: seq<SessionFile>) {
    forall i, j :: 0 <= i < j < |files| ==> files[i].name != files[j].name
  }

  /** With distinct names, filtering removes at most one file. */
  lemma {:induction false} WithoutDistinct(files: seq<SessionFile>, name: string)
    requires NamesDistinct(files)
    ensures |Without(files, name)| >= |files| - 1
  {
    if |files| > 0 {
      if files[0].name == name {
        WithoutAbsent(files[1..], name);
      } else {
        WithoutDistinct(files[1..], name);
      }
    }
  }

  /** The file `addNewFile` creates when `count` files are open. */
  function NewFile(count: nat, language: string, cfg: LanguageConfig): SessionFile {
    SessionFile(count + 1, "main" + DecimalString(count + 1) + cfg.extension, cfg.template, language)
  }

  /** Setting `language` on the first file named `name`: nothing else changes. */
  function WithLanguage(files: seq<SessionFile>, name: string, language: string): (r: seq<SessionFile>)
    ensures |r| == |files|
    ensures forall j :: 0 <= j < |files| ==>
      r[j].id == files[j].id && r[j].name == files[j].name && r[j].content == files[j].content &&
      r[j].language == if FindByName(files, name) == Some(j) then language else files[j].language
  {
    match FindByName(files, name)
    case None => files
    case Some(i) => files[i := files[i].(language := language)]
  }

  /** Setting `content` on the first file named `name`: nothing else changes. */
  function WithContent(files: seq<SessionFile>, name: string, content: string): (r: seq<SessionFile>)
    ensures |r| == |files|
    ensures forall j :: 0 <= j < |files| ==>
      r[j].id == files[j].id && r[j].name == files[j].name && r[j].language == files[j].language &&
      r[j].content == if FindByName(files, name) == Some(j) then content else files[j].content
  {
    match FindByName(files, name)
    case None => files
    case Some(i) => files[i := files[i].(content := content)]
  }

  /** A generated file name always has a dot, so a download keeps it as it is. */
  lemma {:induction false} GeneratedNameDownloadsAsIs(count: nat, tag: string, language: string)
    requires tag in Supported
    ensures DownloadName(NewFile(count, tag, Lookup(tag).value).name, language)
      == NewFile(count, tag, Lookup(tag).value).name
  {
    var f := NewFile(count, tag, Lookup(tag).value);
    var prefix := "main" + DecimalString(count + 1);
    assert f.name == prefix + Lookup(tag).value.extension;
    assert f.name[|prefix|] == '.';
  }

  /** The browser tab's editing session. `editorMounted` says whether the text widget has
      been created and `editorText` is the text it shows. */
  class EditorSession {
    var files: seq<SessionFile>
    var activeTab: string
    var currentLanguage: string
    var editorMounted: bool
    var editorText: string

    /** Every open file has a name. */
    ghost predicate NamedFiles()
      reads this
    {
      forall f :: f in files ==> f.name != ""
    }

    /** While the widget exists and a file has the active tab's name, the widget shows that
        file's content. */
    ghost predicate Synced()
      reads this
    {
      editorMounted && ActiveFile().Some? ==> editorText == ActiveFile().value.content
    }

    /** The session always has an open file, and the widget agrees with the active file. */
    ghost predicate Valid()
      reads this
    {
      |files| > 0 && NamedFiles() && Synced()
    }

    /** `files.find(file => file.name === activeTab)`. */
    function ActiveFile(): (r: Option<SessionFile>)
      reads this
      ensures r.Some? <==> FindByName(files, activeTab).Some?
      ensures r.Some? ==> r.value == files[FindByName(files, activeTab).value]
    {
      match FindByName(files, activeTab)
      case Some(i) => Some(files[i])
      case None => None
    }

    /** The page's initial state: one Python file `main.py`, active; no widget yet. */
    constructor ()
      ensures Valid()
      ensures files == [SessionFile(1, "main.py", PythonTemplate, "python3")]
      ensures activeTab == "main.py" && currentLanguage == "python3" && !editorMounted
    {
      files := [SessionFile(1, "main.py", PythonTemplate, "python3")];
      activeTab := "main.py";
      currentLanguage := "python3";
      editorMounted := false;
      editorText := "";
    }

    /** What `loadActiveFile` does to the widget: show the active file's content when the
        widget exists and a file has the active tab's name; otherwise keep its text. Setting
        the text fires the change handler, which writes that same text back into the file. */
    method LoadActiveFile()
      requires NamedFiles()
      modifies this`editorText
      ensures Synced()
      ensures editorText == if editorMounted && ActiveFile().Some? then ActiveFile().value.content else old(editorText)
    {
      var found := FindByName(files, activeTab);
      if found.Some? && editorMounted {
        editorText := files[found.value].content;
      }
    }

    /** Page start-up: `setupCodeEditor` creates the widget, then `loadActiveFile` fills it. */
    method MountEditor()
      requires Valid()
      modifies this`editorMounted, this`editorText
      ensures Valid()
      ensures editorMounted
      ensures editorText == if ActiveFile().Some? then ActiveFile().value.content else old(editorText)
    {
      editorMounted := true;
      LoadActiveFile();
    }

    /** `switchToFile`: the active tab becomes `name`, whether or not a file has it, and the
        widget loads that file if there is one. */
    method SwitchToFile(name: string)
      requires Valid()
      modifies this`activeTab, this`editorText
      ensures Valid()
      ensures activeTab == name
      ensures editorText == if editorMounted && ActiveFile().Some? then ActiveFile().value.content else old(editorText)
    {
      activeTab := name;
      LoadActiveFile();
    }

    /** `closeFile` as the source has it: with more than one file open, drop every file named
      `name`; if it was the active one, activate the new first file; then reload the
      widget. When every open file has that name the list is left empty; if that name was
      active, reading the first file fails (`thrown`) and nothing further happens. */
    method CloseFileAsWritten(name: string) returns (thrown: bool)
      requires Valid()
      modifies this`files, this`activeTab, this`editorText
      ensures NamedFiles() && Synced()
      ensures old(|files|) <= 1 ==>
        files == old(files) && activeTab == old(activeTab) && editorText == old(editorText) && !thrown
      ensures old(|files|) > 1 ==> files == Without(old(files), name)
      ensures thrown <==> old(|files|) > 1 && old(activeTab) == name && files == []
      ensures old(|files|) > 1 && files != [] ==>
        activeTab == if old(activeTab) == name then files[0].name else old(activeTab)
      ensures files == [] ==> activeTab == old(activeTab)
      ensures thrown ==> editorText == old(editorText)
      ensures old(|files|) > 1 && !thrown ==>
        editorText == if editorMounted && ActiveFile().Some? then ActiveFile().value.content else old(editorText)
    {
      thrown := false;
      if |files| > 1 {
        files := Without(files, name);
        if activeTab == name {
          if |files| == 0 {
            thrown := true;
            return;
          }
          activeTab := files[0].name;
        }
        LoadActiveFile();
      }
    }

    /** `closeFile`, refusing any close that would leave no file open: drop every file named
      `name`, activate the new first file if the active one was closed, and reload the
      widget. */
    method CloseFile(name: string)
      requires Valid()
      modifies this`files, this`activeTab, this`editorText
      ensures Valid()
      ensures old(|files|) > 1 && Without(old(files), name) != [] ==>
        files == Without(old(files), name) &&
        activeTab == (if old(activeTab) == name then files[0].name else old(activeTab)) &&
        editorText == if editorMounted && ActiveFile().Some? then ActiveFile().value.content else old(editorText)
      ensures !(old(|files|) > 1 && Without(old(files), name) != []) ==>
        files == old(files) && activeTab == old(activeTab) && editorText == old(editorText)
    {
      if |files| > 1 {
        var remaining := Without(files, name);
        if |remaining| > 0 {
          files := remaining;
          if activeTab == name {
            activeTab := files[0].name;
          }
          LoadActiveFile();
        }
      }
    }

    /** `addNewFile`: append a file for the selected language, named after the file count,
      seeded with that language's template, make it active and reload the widget (which
      shows the first file with that name). When the selected language has no table entry
      the source fails before changing anything (`ok` false). */
    method AddNewFile() returns (ok: bool)
      requires Valid()
      modifies this`files, this`activeTab, this`editorText
      ensures Valid()
      ensures ok <==> currentLanguage in Supported
      ensures !ok ==> files == old(files) && activeTab == old(activeTab) && editorText == old(editorText)
      ensures ok ==>
        var n := |old(files)|;
        var cfg := Lookup(currentLanguage).value;
        files == old(files) + [NewFile(n, currentLanguage, cfg)] &&
        activeTab == files[n].name &&
        ActiveFile().Some? &&
        editorText == if editorMounted then ActiveFile().value.content else old(editorText)
    {
      var found := Lookup(currentLanguage);
      if found.None? {
        return false;
      }
      var newFile := NewFile(|files|, currentLanguage, found.value);
      files := files + [newFile];
      activeTab := newFile.name;
      assert FindByName(files, activeTab).Some? by {
        assert files[|files| - 1].name == activeTab;
      }
      LoadActiveFile();
      ok := true;
    }

    /** `selectLanguage`: select `lang` for new files and runs; while the widget exists, the
      active file's language becomes `lang` too, and nothing else in any file changes. */
    method SelectLanguage(lang: string)
      requires Valid()
      modifies this`currentLanguage, this`files
      ensures Valid()
      ensures currentLanguage == lang
      ensures files == if editorMounted then WithLanguage(old(files), activeTab, lang) else old(files)
    {
      currentLanguage := lang;
      if editorMounted {
        files := WithLanguage(files, activeTab, lang);
        SameNamesSameFind(old(files), files, activeTab);
      }
    }

    /** An edit in the widget: its text becomes `value`, and the change handler copies that
      text into the active file. Without a widget there is nothing to edit. */
    method UpdateCurrentFileContent(value: string)
      requires Valid()
      modifies this`files, this`editorText
      ensures Valid()
      ensures editorText == if editorMounted then value else old(editorText)
      ensures files == if editorMounted && activeTab != "" then WithContent(old(files), activeTab, value) else old(files)
    {
      if editorMounted {
        editorText := value;
        if activeTab != "" {
          files := WithContent(files, activeTab, value);
          SameNamesSameFind(old(files), files, activeTab);
        }
      }
    }

    /** The request `runCode` sends: the widget's text ("" before the widget exists) under
      the selected language's provider name and version, whatever the active file's own
      language is. In a consistent session that text is the active file's content. */
    method RunCode(stdinText: string) returns (request: Option<RunRequest>)
      ensures request == BuildRunRequest(currentLanguage, if editorMounted then editorText else "", stdinText)
      ensures Synced() && editorMounted && ActiveFile().Some? && request.Some? ==>
        request.value.code == ActiveFile().value.content
    {
      var code := if editorMounted then editorText else "";
      request := BuildRunRequest(currentLanguage, code, stdinText);
    }

    /** `downloadCurrentFile`: nothing without an active file; otherwise the widget's text
      (the file's own content before the widget exists) reformatted under the file's own
      language, saved under its download name. In a consistent session that text is the
      file's content. */
    method DownloadCurrentFile() returns (r: Option<Download>)
      ensures r.None? <==> ActiveFile().None?
      ensures r.Some? ==>
        var f := ActiveFile().value;
        r.value == Download(DownloadName(f.name, f.language),
                            Formatted(if editorMounted then editorText else f.content, f.language))
      ensures Synced() && r.Some? ==>
        r.value.content == Formatted(ActiveFile().value.content, ActiveFile().value.language)
    {
      var found := FindByName(files, activeTab);
      if found.None? {
        return None;
      }
      var currentFile := files[found.value];
      var content := if editorMounted then editorText else currentFile.content;
      var formattedContent := FormatCode(content, currentFile.language);
      r := Some(Download(DownloadName(currentFile.name, currentFile.language), formattedContent));
    }
  }

  /** Lists with the same names, position by position, find the same first index. */
  lemma {:induction false} SameNamesSameFind(a: seq<SessionFile>, b: seq<SessionFile>, name: string)
    requires |a| == |b|
    requires forall j :: 0 <= j < |a| ==> a[j].name == b[j].name
    ensures FindByName(a, name) == FindByName(b, name)
  {
    if |a| > 0 && a[0].name != name {
      SameNamesSameFind(a[1..], b[1..], name);
    }
  }

  /** The corrected guard agrees with the source's `files.length > 1` whenever file names are
      distinct; they differ only when every open file shares the closed name. */
  lemma CloseGuardAgrees(files: seq<SessionFile>, name: string)
    requires NamesDistinct(files)
    ensures (|files| > 1 && Without(files, name) != []) <==> |files| > 1
  {
    WithoutDistinct(files, name);
  }

  /** The second file `addNewFile` opens from the initial page, named `main2.py`. */
  lemma SecondFileName()
    ensures NewFile(1, "python3", Lookup("python3").value).name == "main2.py"
  {
    assert DecimalString(2) == "2";
  }

  /** The initial page after one `addNewFile`: `main.py` and the new `main2.py`, the
      latter active. */
  method OpenSecondFile() returns (s: EditorSession, second: SessionFile)
    ensures fresh(s) && s.Valid() && !s.editorMounted && s.currentLanguage == "python3"
    ensures second == NewFile(1, "python3", Lookup("python3").value)
    ensures |s.files| == 2 && s.files[0].name == "main.py" && s.files[1] == second
    ensures s.activeTab == second.name && second.name != "main.py"
  {
    s := new EditorSession();
    var ok := s.AddNewFile();
    second := s.files[1];
  }

  /** Open a file (`main2.py`), close `main.py`, open another: it is again `main2.py`, and
      closing that name as the source does empties the session. */
  method DuplicateNameScenario() returns (remaining: nat, thrown: bool)
    ensures remaining == 0 && thrown
  {
    var s, f2 := OpenSecondFile();
    assert Without(s.files, "main.py") == [f2];
    thrown := s.CloseFileAsWritten("main.py");
    var ok := s.AddNewFile();
    assert s.files == [f2, f2] && s.activeTab == f2.name;
    assert Without(s.files, f2.name) == [];
    thrown := s.CloseFileAsWritten(f2.name);
    remaining := |s.files|;
  }

  /** The same steps with the corrected close: the last close is refused and both files stay. */
  method DuplicateNameScenarioCorrected() returns (remaining: nat)
    ensures remaining == 2
  {
    var s, f2 := OpenSecondFile();
    assert Without(s.files, "main.py") == [f2];
    s.CloseFile("main.py");
    var ok := s.AddNewFile();
    assert s.files == [f2, f2];
    assert Without(s.files, f2.name) == [];
    s.CloseFile(f2.name);
    remaining := |s.files|;
  }

  /** Switching to a tab no file has leaves the widget's text alone, so a run still sends
      the text last loaded: here the starter Python program. */
  method StaleWidgetScenario() returns (code: string)
    ensures code == PythonTemplate
  {
    var s := new EditorSession();
    s.MountEditor();
    s.SwitchToFile("x");
    var request := s.RunCode("");
    assert Lookup("python3").Some?;
    code := request.value.code;
  }
}
