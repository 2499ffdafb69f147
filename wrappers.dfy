/** The optional value used wherever the editor script reads a possibly missing entry
    (`files.find`, an indexing of `languageConfig`). */
module Wrappers {
  datatype Option<+T> = None | Some(value: T)
}
