/** Failure-carrying values used across the model: Python's `None` and the
    exceptions or `exit(1)` calls that end a script. */
module Wrappers {

  datatype Option<T> = None | Some(value: T)

  /** Why a step of a script stopped early. */
  datatype Failure =
    | BadPath(path: string)          // lib/common.py: "Bad path" then exit 1
    | MissingKey(key: string)        // a KeyError on a dict lookup
    | NoCaptionFile(id: string)      // lib/youtube.py: "Found no caption for id"
    | UnboundName(name: string)      // a NameError on a variable never assigned
    | NullBody(number: int)          // a TypeError: `re.search` on an issue whose body is null
    | Exit(code: int)                // the script calls exit(code)

  datatype Result<T> = Ok(value: T) | Err(failure: Failure)
}
