/** The guard every context hook of the application applies (`useReport`, `useToast`). */
module ReactContext {
  import opened Wrappers

  /**
   * `useContext(C)` followed by `if (!context) throw new Error(...)`: the value of
   * the nearest provider, or the hook's error when the component has no provider
   * above it. A provided value is always an object, hence truthy.
   */
  function UseContext<T>(provided: Option<T>, message: string): (r: Result<T>)
    ensures r.Ok? <==> provided.Some?
    ensures r.Ok? ==> r.value == provided.value
    ensures r.Err? ==> r.error == message
  {
    match provided
    case Some(v) => Ok(v)
    case None => Err(message)
  }
}
