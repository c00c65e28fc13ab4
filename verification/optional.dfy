/** A value that may be absent: JavaScript's `undefined` or `null` for an
    optional string, a missing key, a lookup that misses. */
module Optional {

  datatype Option<T> = None | Some(value: T) {

    /** JavaScript `v ?? fallback`: the held value when there is one. */
    function Else(fallback: T): T {
      if Some? then value else fallback
    }
  }
}
