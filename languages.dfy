/** The static `languageConfig` table: for each supported language tag, the editor's
    highlighting mode, the execution provider's language name and version index, the
    file extension and the starter template of a new file. */
module Languages {
  import opened Wrappers

  datatype LanguageConfig = LanguageConfig(
    mode: string,
    jdoodleLang: string,
    versionIndex: string,
    extension: string,
    template: string)

  const Supported: set<string> := {"python3", "cpp17", "java", "nodejs"}

  const PythonTemplate: string := "print(\"Hello, World!\")"

  const Table: map<string, LanguageConfig> := map[
    "python3" := LanguageConfig("python", "python3", "3", ".py", PythonTemplate),
    "cpp17" := LanguageConfig(
      "text/x-c++src", "cpp17", "0", ".cpp",
      "#include <iostream>\nusing namespace std;\n\nint main() {\n    cout << \"Hello, World!\" << endl;\n    return 0;\n}"),
    "java" := LanguageConfig(
      "text/x-java", "java", "4", ".java",
      "public class Main {\n    public static void main(String[] args) {\n        System.out.println(\"Hello, World!\");\n    }\n}"),
    "nodejs" := LanguageConfig("javascript", "nodejs", "3", ".js", "console.log(\"Hello, World!\");")
  ]

  /** `languageConfig[tag]`: defined for exactly the four supported tags; every entry sends
      its own tag to the provider and has an extension that starts with a dot. */
  function Lookup(tag: string): (r: Option<LanguageConfig>)
    ensures r.Some? <==> tag in Supported
    ensures r.Some? ==> r.value.jdoodleLang == tag
    ensures r.Some? ==> |r.value.extension| >= 2 && r.value.extension[0] == '.'
  {
    if tag in Table then Some(Table[tag]) else None
  }
}
