/** Optional values and failures, as the extraction code uses Python's `None`
    and exceptions. */
module Base {

  datatype Option<T> = None | Some(value: T)
  {
    /** Python's `x or default` on an optional value. */
    function OrElse(default: T): T
    {
      if Some? then value else default
    }
  }

  /** A Python exception that escapes an operation. */
  datatype PyError = IndexError | NameError(name: string) | TypeError(detail: string) | ImportError(name: string)

  datatype Result<T> = Ok(value: T) | Raise(error: PyError)
}
