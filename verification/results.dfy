/**
  Small value wrappers shared by the stores and the views: an optional value,
  a result that is either a value or an error message, and the state of a
  React context provider as seen from a hook that reads it.
*/
module Results {

  /** A value that may be absent (`null`/`undefined` in the application). */
  datatype Option<T> = None | Some(value: T) {
    /** The value, or `default` when absent (a destructuring default). */
    function GetOr(default: T): (r: T)
      ensures Some? ==> r == value
      ensures None? ==> r == default
    {
      match this
      case Some(v) => v
      case None => default
    }
  }

  /** Either a value or the message of a thrown `Error`. */
  datatype Result<T> = Ok(value: T) | Err(message: string)

  /** What a hook finds when it looks up its context: either no provider is
      mounted above the caller, or one is, holding the current value. */
  datatype Provider<T> = Unmounted | Mounted(current: T)

  /** Reading a context through its hook: the provider's current value, or
      the hook's error when no provider is mounted. The error is never
      replaced by a default value. */
  function UseContext<T>(p: Provider<T>, message: string): (r: Result<T>)
    ensures r.Err? <==> p.Unmounted?
    ensures r.Ok? ==> r.value == p.current
    ensures r.Err? ==> r.message == message
  {
    match p
    case Unmounted => Err(message)
    case Mounted(v) => Ok(v)
  }
}
