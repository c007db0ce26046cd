/** Optional values and results for the places where the Python code either
    returns nothing (None, a falsy value) or raises. */
module Wrappers {

  datatype Option<+T> = None | Some(value: T)

  /** The Python exceptions the modelled code can raise on its own inputs. */
  datatype PyError =
    | IndexError   // indexing an empty str or list (`''[0]`, `[][0]`)
    | KeyError     // a missing dict key
    | TypeError    // subscripting a value of the wrong kind

  datatype Result<+T> = Ok(value: T) | Err(error: PyError)
}
