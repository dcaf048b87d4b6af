/** Optional values: the model's stand-in for a JavaScript value that may be `undefined`. */
module Optional {

  datatype Option<T> = None | Some(value: T) {

    /** `x ?? default`: the wrapped value, or `default` when there is none. */
    function GetOr(default: T): T {
      if Some? then value else default
    }
  }
}
