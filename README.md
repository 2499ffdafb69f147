# CodeCloud editor session, modelled in Dafny

CodeCloud is a browser code playground. The user edits one or more files in a
tabbed editor, runs the active code on a remote execution service and downloads
files. All the logic of the page lives in `frontend/script.js`. This project
models that logic:

- **The language table** (`languageConfig`) is the `Languages` module. It is an
  immutable map from the four tags `python3`, `cpp17`, `java` and `nodejs` to
  records of highlighting mode, provider language, version index, extension and
  starter template.
- **The session state** is the class `Session.EditorSession`. It holds the open
  `files`, the name of the active tab, the language selected for new files,
  whether the editor widget exists, and the widget's text. Its methods are the
  page's operations:
  - open a file (`addNewFile`)
  - close a file (`closeFile`)
  - switch tabs (`switchToFile`)
  - select a language (`selectLanguage`)
  - the editor's change handler (`updateCurrentFileContent`)
  - building a run request (`runCode`)
  - preparing a download (`downloadCurrentFile`)

  Each method states the whole new state. `Valid()` is the invariant the
  operations keep:
  - at least one file is open
  - every file has a name
  - while the widget exists, it shows the content of the file named by the
    active tab, when there is one.
- **The reindenter** (`formatCode`) is `Formatter.FormatCode`. It is a loop
  with a bracket-depth counter. It is proved equal to a line-by-line
  specification (`Formatter.Formatted`). Lemmas about that specification give:
  - the output's line structure
  - the rules by which the counter moves
  - a bound on the counter
  - idempotence: formatting formatted text changes nothing.
- **The two pure derivations** are in `Requests`:
  - the download file name keeps the name when it contains a dot, and
    otherwise appends the language's extension or `.txt`
  - the run request carries `stdin` only when the trimmed input is non-empty.
- **JavaScript string operations** (`trim`, `split("\n")`, `join("\n")`,
  `" ".repeat`, and the decimal text of a number) are written out in `Text`,
  with their round-trip lemmas.

The CodeMirror widget's text is the field `editorText`. There are two ways it
changes:
- An edit sets it, and the change handler then copies it into the active file
  (lines 80-83 and 107-113).
- `loadActiveFile` sets it to the active file's content (lines 179-185). Start-up,
  switching, closing and adding a file all call it.

When no file carries the active tab's name, `loadActiveFile` leaves the widget
alone. A run then still sends the text the widget last showed; a download is
refused.

Some behaviour of the code worth stating:

- `switchToFile` assigns the active tab whether or not a file has that name.
- New names come from the number of open files, so they can repeat after a
  close.
- A run uses the language selected in the toolbar, not the active file's own
  language.
- The download is reformatted under the file's own language.
- After `addNewFile`, the widget shows the first file with the new name. That
  can be an older file when names repeat.

In Java and C++ a line ending in `{` raises the counter twice: once by the
generic trailing-bracket rule and once by the unmatched-`{` rule. A closing `}`
lowers it only once. This is the code's behaviour, and `Formatter.CounterStep`
states it as such.

## Model

| member | source | states |
|---|---|---|
| `Languages.Lookup` | frontend/script.js:2-33 | the table has an entry for exactly the four tags; each entry sends its own tag to the provider and has an extension starting with a dot |
| `Text.Trim` | frontend/script.js:496 | `trim()` over a fixed whitespace set: the result is the slice of the input between an all-blank prefix and an all-blank suffix, with no blank at either end; it is empty exactly for an all-blank text |
| `Text.SplitJoin` | frontend/script.js:490 | splitting lines joined by `"\n"`, none containing a line feed, gives the same lines back |
| `Text.JoinSplit` | frontend/script.js:529 | joining the pieces of `split("\n")` with `"\n"` gives the original text |
| `Text.DecimalString` | frontend/script.js:225 | the file id is rendered as decimal digits with no leading zero (a `0` first only for the number 0); with `DecimalStringValue` this fixes the text |
| `Text.DecimalStringValue` | frontend/script.js:225 | the number text in a generated name denotes the file id |
| `Formatter.FormatCode` | frontend/script.js:487-530 | the reindenting loop returns `Formatted(code, language)`; its counter never goes negative (loop invariant) |
| `Formatter.FormatLinesLength` | frontend/script.js:491-527 | the loop pushes exactly one output line per input line |
| `Formatter.FormatLinesAt` | frontend/script.js:495-527 | there is one output line per input line; output line i is input line i trimmed and printed at the counter level reached after lines 0..i-1 |
| `Formatter.OutputLine` | frontend/script.js:496-514 | output line i is `""` for a blank input line, and otherwise the trimmed line behind `level * indentSize` spaces, the level being the one line i is printed at |
| `Formatter.SplitFormatted` | frontend/script.js:488-529 | for text that is not all blank, splitting the formatted text on `"\n"` gives back exactly the formatted lines, since none of them contains a line feed |
| `Formatter.FormatShape` | frontend/script.js:488-529 | whitespace-only input comes back unchanged. Otherwise, after splitting on `"\n"`, the output has as many lines as the input. Blank lines become `""`. Every other line is `level * indentSize` spaces followed by the trimmed line, with indentSize 4 for `python3` and 2 otherwise |
| `Formatter.CounterStep` | frontend/script.js:503-526 | after a line, the counter is its printed level plus one for a trailing opening bracket, plus one for a trailing `:` in Python, plus one for a `{` without `}` in Java/C++. A leading `}`/`]`/`)` lowers the counter by one, floored at 0, before the line is printed. A trailing `{`/`[`/`(` raises it by one. A trailing `:` in Python adds one more. A `{` without `}` in Java/C++ adds one more, so a trailing `{` adds two. The counter moves up by at most two per line |
| `Formatter.LevelBound` | frontend/script.js:491-526 | after n lines the counter is at most 2n |
| `Formatter.SameTrimSameFormat` | frontend/script.js:496 | counter and output depend only on the trimmed lines |
| `Formatter.FormatIdempotent` | frontend/script.js:487-530 | formatting already formatted text returns it unchanged |
| `Requests.ExtensionFor` | frontend/script.js:463-464 | the extension is the table's for a supported language and `.txt` otherwise; it always starts with a dot |
| `Requests.DownloadName` | frontend/script.js:465-467 | the result starts with the file name and contains a dot. It equals the name exactly when the name has a dot; otherwise the language's extension follows the name |
| `Requests.BuildRunRequest` | frontend/script.js:396-409 | the request exists exactly for a supported selected language. It carries that language's provider name and version and the code unchanged. `stdin` is present exactly when the trimmed input is non-empty, and is then that trimmed text |
| `Session.FindByName` | frontend/script.js:109 | `files.find` by name yields the first file with that name, or nothing when no file has it |
| `Session.Without` | frontend/script.js:210 | the filter keeps exactly the files whose name differs from the closed name |
| `Session.WithoutAppend` | frontend/script.js:210 | the filter distributes over concatenation, so kept files stay in their relative order |
| `Session.WithoutAbsent` | frontend/script.js:210 | closing a name no file carries leaves the list as it was |
| `Session.WithoutDistinct` | frontend/script.js:209-210 | when names are distinct, the filter removes at most one file |
| `Session.CloseGuardAgrees` | frontend/script.js:209-210 | when names are distinct, the corrected guard acts exactly when the source's `files.length > 1` does |
| `Session.WithLanguage` | frontend/script.js:263-266 | only the `language` of the first file named like the active tab changes |
| `Session.WithContent` | frontend/script.js:109-112 | only the `content` of the first file named like the active tab changes |
| `Session.GeneratedNameDownloadsAsIs` | frontend/script.js:225 | a generated file name always contains a dot, so a download keeps it unchanged |
| `Session.SameNamesSameFind` | frontend/script.js:263 | rewriting a field other than the name does not change which file `find` picks |
| `Session.EditorSession.ActiveFile` | frontend/script.js:109 | the active file is the first file with the active tab's name, when there is one |
| `Session.EditorSession.constructor` | frontend/script.js:37-46 | the page starts with one Python file `main.py`, which is active; no widget exists yet |
| `Session.EditorSession.LoadActiveFile` | frontend/script.js:179-185 | when the widget exists and a file has the active tab's name, the widget shows that file's content; otherwise the widget keeps its text |
| `Session.EditorSession.MountEditor` | frontend/script.js:52-57 | after start-up the widget exists and shows the active file |
| `Session.EditorSession.SwitchToFile` | frontend/script.js:200-205 | the active tab becomes the given name, unconditionally. The widget loads that file if one has the name, and otherwise keeps its text |
| `Session.EditorSession.CloseFileAsWritten` | frontend/script.js:207-217 | with more than one file open, every file with the name is removed. If the active file was closed, the new first file becomes active, and the widget reloads. When every file had the name, the list is left empty and the active tab is unchanged. The failure happens exactly if that name was active, and then the widget is not touched |
| `Session.EditorSession.CloseFile` | frontend/script.js:207-217 | closing keeps at least one file open. It filters by name exactly when more than one file is open and some other name remains, then activates the new first file if the active one was closed and reloads the widget. Otherwise nothing changes |
| `Session.EditorSession.AddNewFile` | frontend/script.js:220-231 | with n files open, exactly one file is appended: id n+1, name `"main" + (n+1) + extension`, the selected language's template and tag. It becomes active, earlier files are untouched, and the widget shows the first file with that name. For an unsupported selected language nothing changes |
| `Session.EditorSession.SelectLanguage` | frontend/script.js:250-267 | the selected language becomes `lang`. While the editor exists, only the active file's language changes as well; otherwise the files are untouched |
| `Session.EditorSession.UpdateCurrentFileContent` | frontend/script.js:107-113 | while the widget exists, its text becomes the edited text. If the active tab is also non-empty, only the active file's content is set to that text. With no such file, or no widget, the files are unchanged |
| `Session.EditorSession.RunCode` | frontend/script.js:396-409 | the request is built from the selected language and the widget's text (`""` before the widget exists), not from the active file's language. In a `Synced` session with an active file, its code is that file's content |
| `Session.EditorSession.DownloadCurrentFile` | frontend/script.js:439-467 | there is no download exactly when no file has the active tab's name. Otherwise the download holds the widget's text (the file's content before the widget exists), reformatted under the file's own language and saved under its download name. In a `Synced` session that text is the file's content |
| `Session.SecondFileName` | frontend/script.js:221-225 | the file `addNewFile` opens next to the initial `main.py` is named `main2.py` |
| `Session.OpenSecondFile` | frontend/script.js:220-231 | from the initial page, `addNewFile` leaves `main.py` and a new Python file with a different name, the latter active |
| `Session.DuplicateNameScenario` | frontend/script.js:207-231 | open a file, close `main.py`, open another: the new file repeats the name `main2.py`, and closing that name as written leaves no file and throws |
| `Session.DuplicateNameScenarioCorrected` | frontend/script.js:207-231 | the same steps with the corrected close keep both files named `main2.py` open |
| `Session.StaleWidgetScenario` | frontend/script.js:181-185 | after switching to a tab that no file has, a run still sends the text the widget last showed (here the Python starter program) |

## Findings

| source | as written | input that shows it | evidently intended | confidence | as-written member | corrected member |
|---|---|---|---|---|---|---|
| frontend/script.js:209-212 | the only guard is `files.length > 1`; the filter then removes every file with the closed name, and `files[0].name` is read even when nothing is left | from the initial page: add a file (`main2.py`), close `main.py`, add a file (again named `main2.py`, from `files.length + 1`), close `main2.py`. The list becomes empty and reading `files[0].name` throws | closing is refused when it would leave no file open, so the session always keeps a file | high, not executed | `Session.EditorSession.CloseFileAsWritten` (with `Session.DuplicateNameScenario`) | `Session.EditorSession.CloseFile` (with `Session.DuplicateNameScenarioCorrected`) |

## Left out

- Rendering: `renderFiles`, `renderTabs`, the title, focus and refresh parts of `loadActiveFile`, the modal and dropdown functions, `updateAuthUI`, status-bar text and timers. They only change the page, not the session state.
- The widget's highlighting mode (`setOption("mode", …)`). The `mode` field is kept in the table, but no highlighting is modelled.
- `event.stopPropagation()` in `closeFile` and `alert` in `downloadCurrentFile`. These are browser event and dialog calls; a missing file is the `None` result.
- Network and storage: the `fetch` calls and response display of `runCode`, `handleSignIn`, `handleSignUp`, `handleLogout` and `localStorage`. The model stops at the request body.
- Disabling the run button while a request is in flight. This only serializes asynchronous runs, and there is no concurrency in the model.
- Blob, object URL and anchor creation in `downloadCurrentFile`. The model returns the file name and the formatted text.
- The backend (`backend/routes/*.js`, `backend/services/jdoodle.js`, `backend/db.js`, both `server.js`). It is routing, SQL, password hashing, token signing and an HTTP pass-through, none of which is visible logic.
- Text.Trim: removes a fixed set of whitespace characters (ASCII blanks, line terminators, U+00A0, U+FEFF, U+2028, U+2029). JavaScript's `trim` also removes the other Unicode space separators.
- Languages.Lookup: looks only at the table's own four keys. In JavaScript, `languageConfig[tag]` would also find inherited object properties such as `toString`.
- Unsupported language tags: reading a field of a missing table entry makes `addNewFile` and `runCode` throw. The model shows this as "no change" (`AddNewFile`) and as `None` (`BuildRunRequest`).
- Name uniqueness: no lemma claims that generated names are distinct, because the code does not keep them distinct (see Findings).
