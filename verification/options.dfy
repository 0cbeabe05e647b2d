/** The optional value used wherever the modelled code passes or returns `null`. */
module Options {

  datatype Option<+T> = None | Some(value: T)

  /** Number of values held: 0 or 1. */
  function Count<T>(o: Option<T>): (n: nat)
    ensures n <= 1
    ensures n == 0 <==> o.None?
  {
    if o.Some? then 1 else 0
  }
}
