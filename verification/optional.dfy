/** A value that may be absent: stands for JavaScript's `undefined` and for
    default parameters that the caller did not pass. */
module Optional {

  datatype Option<T> = None | Some(value: T)

  /** What a JavaScript default parameter yields: the argument when one was
      passed, the default otherwise. */
  function OrDefault<T>(arg: Option<T>, fallback: T): (r: T)
    ensures arg.Some? ==> r == arg.value
    ensures arg.None? ==> r == fallback
  {
    if arg.Some? then arg.value else fallback
  }
}
