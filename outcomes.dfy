/** Optional values, and results that either hold a value or name the
    exception the archiver's Python code would raise. */
module Outcomes {
  import opened Paths

  datatype Option<T> = None | Some(value: T)

  /** The exceptions of the archive and render passes. */
  datatype Failure =
    | FetchFailed(url: string)        // transport error raised by the HTTP client
    | RecursionLimit                  // Python's RecursionError on a CSS cycle
    | LookupError(id: string)         // `metadata[template_id]` misses (KeyError)
    | MissingVariable(id: string)     // `Template.substitute` without a value (KeyError)
    | InvalidPlaceholder              // `Template.substitute` on a bad `$$$` (ValueError)
    | InvalidSuffix(suffix: string)   // `with_suffix` refuses the suffix (ValueError)
    | FileMissing(path: FilePath)     // reading a file that is not there
    | DecodeError(path: FilePath)     // `read_text('utf-8')` on bytes that are not UTF-8

  datatype Result<T> = Ok(value: T) | Err(error: Failure)
}
