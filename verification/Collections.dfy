/** Small values and predicates that several modules need. */
module Collections {

  datatype Option<+T> = None | Some(value: T)

  function SetOf(xs: seq<string>): set<string>
  {
    set x | x in xs
  }

  predicate Distinct(xs: seq<string>)
  {
    forall i, j :: 0 <= i < j < |xs| ==> xs[i] != xs[j]
  }

  /** order is one of the orders in which a Go map or a directory yields these keys. */
  predicate Enumerates(order: seq<string>, keys: set<string>)
  {
    && (forall i :: 0 <= i < |order| ==> order[i] in keys)
    && (forall k :: k in keys ==> k in order)
    && Distinct(order)
  }
}
