/** The glossary of src/components/Terminology.tsx: its category list, the
    filtered term list and the bookmark toggle. */
module Terminology {
  import opened Wrappers
  import opened Text
  import opened Lists

  /** A glossary entry; the optional translations are display only. */
  datatype Term = Term(id: string, term: string, definition: string, category: string)

  predicate MatchesSearch(t: Term, searchTerm: string) {
    Contains(Lower(t.term), Lower(searchTerm)) || Contains(Lower(t.definition), Lower(searchTerm))
  }

  /** `filter ? term.category === filter : true` */
  predicate MatchesFilter(t: Term, filter: Option<string>) {
    IsTruthy(filter) ==> t.category == filter.value
  }

  predicate Keeps(t: Term, searchTerm: string, filter: Option<string>) {
    MatchesSearch(t, searchTerm) && MatchesFilter(t, filter)
  }

  /** `filteredTerms`: the terms that pass both tests, in glossary order. */
  function FilteredTerms(terms: seq<Term>, searchTerm: string, filter: Option<string>): (r: seq<Term>)
    ensures IsSubsequence(r, terms)
    ensures forall t :: t in r ==> t in terms && Keeps(t, searchTerm, filter)
    ensures forall t :: t in terms && Keeps(t, searchTerm, filter) ==> t in r
  {
    FilterIsSubsequence(terms, t => Keeps(t, searchTerm, filter));
    Filter(terms, t => Keeps(t, searchTerm, filter))
  }

  /** The initial state (empty search, "Todos") lists the whole glossary. */
  lemma NoFilterKeepsEveryTerm(terms: seq<Term>)
    ensures FilteredTerms(terms, "", None) == terms
  {
    forall t | t in terms ensures Keeps(t, "", None) {
      ContainsEmpty(Lower(t.term));
    }
    FilterKeepsAll(terms, t => Keeps(t, "", None));
  }

  /** Selecting a category lists exactly the searched terms of that
      category: the category filter is a further filter of the unfiltered
      list. */
  lemma CategoryNarrowsSearch(terms: seq<Term>, searchTerm: string, category: string)
    ensures forall t :: t in FilteredTerms(terms, searchTerm, Some(category)) ==>
      t in FilteredTerms(terms, searchTerm, None) && (category != "" ==> t.category == category)
  {
  }

  function CategoriesOf(terms: seq<Term>): (r: seq<string>)
    ensures |r| == |terms|
    ensures forall k :: 0 <= k < |terms| ==> r[k] == terms[k].category
  {
    seq(|terms|, k requires 0 <= k < |terms| => terms[k].category)
  }

  /** `categories`: each category once, in order of first appearance. */
  function Categories(terms: seq<Term>): (r: seq<string>)
    ensures NoDuplicates(r)
    ensures forall k :: 0 <= k < |terms| ==> terms[k].category in r
    ensures forall c :: c in r ==> c in CategoriesOf(terms)
    ensures forall i, j :: 0 <= i < j < |r| ==>
      FirstIndex(CategoriesOf(terms), r[i]) < FirstIndex(CategoriesOf(terms), r[j])
  {
    var cs := CategoriesOf(terms);
    DedupNoDuplicates(cs);
    DedupFirstAppearanceOrder(cs);
    assert forall k :: 0 <= k < |terms| ==> cs[k] in cs;
    Dedup(cs)
  }

  /** The component's state; `terms` is its prop. */
  class Glossary {
    const terms: seq<Term>
    var searchTerm: string
    var filter: Option<string>
    var bookmarked: seq<string>

    /** The bookmarks never hold an id twice. */
    predicate Valid()
      reads this
    {
      NoDuplicates(bookmarked)
    }

    constructor (terms: seq<Term>)
      ensures this.terms == terms
      ensures searchTerm == "" && filter == None && bookmarked == []
      ensures Valid()
      ensures Shown() == terms
    {
      this.terms := terms;
      searchTerm := "";
      filter := None;
      bookmarked := [];
      new;
      NoFilterKeepsEveryTerm(terms);
    }

    function Shown(): seq<Term>
      reads this
    {
      FilteredTerms(terms, searchTerm, filter)
    }

    predicate IsBookmarked(id: string)
      reads this
    {
      id in bookmarked
    }

    method SetSearchTerm(value: string)
      modifies this`searchTerm
      ensures searchTerm == value
      ensures Shown() == FilteredTerms(terms, value, filter)
    {
      searchTerm := value;
    }

    /** The "Todos" button passes `None`, a category button its category. */
    method SetFilter(f: Option<string>)
      modifies this`filter
      ensures filter == f
      ensures Shown() == FilteredTerms(terms, searchTerm, f)
    {
      filter := f;
    }

    /** `toggleBookmark`: a bookmarked id is removed, any other id is
        appended; no other bookmark changes. */
    method ToggleBookmark(id: string)
      requires Valid()
      modifies this`bookmarked
      ensures Valid()
      ensures bookmarked == Toggled(old(bookmarked), id)
      ensures IsBookmarked(id) <==> !old(IsBookmarked(id))
      ensures forall x :: x != id ==> (IsBookmarked(x) <==> old(IsBookmarked(x)))
      ensures |bookmarked| == if old(IsBookmarked(id)) then |old(bookmarked)| - 1 else |old(bookmarked)| + 1
    {
      ToggledNoDuplicates(bookmarked, id);
      ToggledLength(bookmarked, id);
      bookmarked := Toggled(bookmarked, id);
    }
  }
}
