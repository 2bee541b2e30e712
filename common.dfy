/** Shared value types: optional values, the errors the script can throw, and
    a result type for operations that may throw. */
module Common {

  datatype Option<+T> = None | Some(value: T)

  /** The errors that reach the script as a rejected promise or a thrown exception. */
  datatype Failure =
    | NoEntry(path: string)       // ENOENT: the path does not exist
    | EntryExists(path: string)   // EEXIST: the destination of a rename exists
    | SyntaxError                 // JSON.parse refused the text of package.json
    | TypeError                   // a property was assigned on a manifest that is not an object

  /** Either the value an operation produced or the error it threw. */
  datatype Result<+T> = Ok(value: T) | Err(error: Failure)
}
