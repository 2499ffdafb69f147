/** What leaves the editor: the name a downloaded file is saved under, and the request body
    sent to the code-execution endpoint. */
module Requests {
  import opened Wrappers
  import opened Text
  import opened Languages

  /** A file handed to the browser for download. */
  datatype Download = Download(filename: string, content: string)

  /** The body posted to the execution endpoint; `stdin` is absent when `None`. */
  datatype RunRequest = RunRequest(language: string, versionIndex: string, code: string, stdin: Option<string>)

  /** `cfg?.extension || ".txt"`: the table's extension, or ".txt" when the language has no
      entry (or, which the table never has, an empty extension). */
  function ExtensionFor(language: string): (ext: string)
    ensures |ext| >= 2 && ext[0] == '.'
    ensures language in Supported ==> ext == Lookup(language).value.extension
    ensures language !in Supported ==> ext == ".txt"
  {
    match Lookup(language)
    case Some(cfg) => if cfg.extension != "" then cfg.extension else ".txt"
    case None => ".txt"
  }

  /** The download file name: the file's own name when it already contains a dot, and
      otherwise that name followed by the language's extension. Either way the result
      starts with the name and contains a dot. */
  function DownloadName(name: string, language: string): (r: string)
    ensures |name| <= |r| && r[..|name|] == name
    ensures '.' in r
    ensures r == name <==> '.' in name
    ensures '.' !in name ==> r[|name|..] == ExtensionFor(language)
  {
    if '.' in name then name
    else
      var ext := ExtensionFor(language);
      assert (name + ext)[|name|] == '.';
      name + ext
  }

  /** The body `runCode` posts, built from the selected language's table entry: `None` when
      that language has no entry (the source then fails reading a field of `undefined`).
      `stdin` is present exactly when the trimmed input is non-empty, and then it is that
      trimmed, non-empty text. */
  function BuildRunRequest(currentLanguage: string, code: string, stdinText: string): (r: Option<RunRequest>)
    ensures r.Some? <==> currentLanguage in Supported
    ensures r.Some? ==> r.value.language == currentLanguage
    ensures r.Some? ==> r.value.versionIndex == Lookup(currentLanguage).value.versionIndex
    ensures r.Some? ==> r.value.code == code
    ensures r.Some? ==> (r.value.stdin.Some? <==> Trim(stdinText) != "")
    ensures r.Some? && r.value.stdin.Some? ==>
      r.value.stdin.value == Trim(stdinText) && r.value.stdin.value != "" &&
      Trim(r.value.stdin.value) == r.value.stdin.value
  {
    match Lookup(currentLanguage)
    case None => None
    case Some(cfg) =>
      var stdin := Trim(stdinText);
      TrimIdempotent(stdinText);
      Some(RunRequest(cfg.jdoodleLang, cfg.versionIndex, code, if |stdin| > 0 then Some(stdin) else None))
  }
}
