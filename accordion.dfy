/** The single-open accordion shared by the "about" sections of
    src/pages/Index.tsx, the drug list of
    src/components/pharmaceuticals/DrugList.tsx and the steps of
    src/components/CaseStudy.tsx: the state is the key of the open item, or
    none, and a click on an item runs `open === id ? null : id`. */
module Accordion {
  import opened Wrappers

  /** An item is shown open exactly when the state names it. */
  predicate IsOpen<K(==)>(open: Option<K>, id: K) {
    open == Some(id)
  }

  /** Clicking item `id`: the open item closes, any other item opens and
      whatever was open closes. */
  function Toggle<K(==)>(open: Option<K>, id: K): (r: Option<K>)
    ensures IsOpen(r, id) <==> !IsOpen(open, id)
    ensures r == None || r == Some(id)
  {
    if open == Some(id) then None else Some(id)
  }

  /** At most one item is open in any state. */
  lemma AtMostOneOpen<K>(open: Option<K>, a: K, b: K)
    requires IsOpen(open, a) && IsOpen(open, b)
    ensures a == b
  {
  }

  /** Clicking the same item twice from the closed state closes it again. */
  lemma ToggleTwiceFromClosed<K>(id: K)
    ensures Toggle(Toggle(None, id), id) == None
  {
  }
}
