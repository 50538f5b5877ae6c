// Optional values, for the places where the source returns `None`, raises,
// or panics on a condition that its callers are not asked to avoid; and
// the three-way comparison result of Rust's `Ordering`.
module Wrappers {

  datatype Option<T> = None | Some(value: T)
  {
    predicate IsSome() { Some? }
  }

  datatype Ordering = Less | Equal | Greater
  {
    /** The comparison seen from the other side. */
    function Reverse(): Ordering
    {
      match this
      case Less => Greater
      case Equal => Equal
      case Greater => Less
    }
  }

  /** The reversed answer of a partial comparison (`None` stays `None`). */
  function ReverseOpt(o: Option<Ordering>): Option<Ordering>
  {
    if o.None? then None else Some(o.value.Reverse())
  }
}
