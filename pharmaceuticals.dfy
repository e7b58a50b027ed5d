/** The drug reference of src/components/Pharmaceuticals.tsx: the class
    list offered as filters, the filtered drug list, and the component's
    filter state with `resetFilters`. */
module Pharmaceuticals {
  import opened Wrappers
  import opened Text
  import opened Content
  import opened Lists

  /** The text search looks at the name and the description only. */
  predicate MatchesSearch(d: Drug, term: string) {
    Contains(Lower(d.name), Lower(term)) || Contains(Lower(d.description), Lower(term))
  }

  predicate MatchesClass(d: Drug, selectedClass: Option<string>) {
    IsTruthy(selectedClass) ==> d.drugClass == selectedClass.value
  }

  /** Some dosage record is for the selected species. */
  predicate MatchesSpecies(d: Drug, selectedSpecies: Option<string>) {
    IsTruthy(selectedSpecies) ==>
      exists k :: 0 <= k < |d.dosages| && d.dosages[k].species == selectedSpecies.value
  }

  predicate Keeps(d: Drug, term: string, selectedClass: Option<string>, selectedSpecies: Option<string>) {
    MatchesSearch(d, term) && MatchesClass(d, selectedClass) && MatchesSpecies(d, selectedSpecies)
  }

  /** `filteredDrugs`: the drugs that pass all three tests, in list order. */
  function FilteredDrugs(drugList: seq<Drug>, term: string,
                         selectedClass: Option<string>, selectedSpecies: Option<string>): (r: seq<Drug>)
    ensures IsSubsequence(r, drugList)
    ensures forall d :: d in r ==> d in drugList && Keeps(d, term, selectedClass, selectedSpecies)
    ensures forall d :: d in drugList && Keeps(d, term, selectedClass, selectedSpecies) ==> d in r
    ensures IsTruthy(selectedClass) ==> forall d :: d in r ==> d.drugClass == selectedClass.value
  {
    FilterIsSubsequence(drugList, d => Keeps(d, term, selectedClass, selectedSpecies));
    Filter(drugList, d => Keeps(d, term, selectedClass, selectedSpecies))
  }

  /** With an empty term and no class or species filter every drug is
      listed. */
  lemma NoFilterKeepsEveryDrug(drugList: seq<Drug>)
    ensures FilteredDrugs(drugList, "", None, None) == drugList
  {
    forall d | d in drugList ensures Keeps(d, "", None, None) {
      ContainsEmpty(Lower(d.name));
    }
    FilterKeepsAll(drugList, d => Keeps(d, "", None, None));
  }

  /** The drug class takes no part in the text search: changing it never
      changes whether the term matches. */
  lemma ClassTextIgnoredBySearch(d: Drug, otherClass: string, term: string)
    ensures MatchesSearch(d.(drugClass := otherClass), term) == MatchesSearch(d, term)
  {
  }

  /** An empty-string class or species filter filters nothing, exactly as
      `null` does. */
  lemma EmptyFilterValueIsNoFilter(drugList: seq<Drug>, term: string, c: Option<string>, sp: Option<string>)
    ensures FilteredDrugs(drugList, term, Some(""), sp) == FilteredDrugs(drugList, term, None, sp)
    ensures FilteredDrugs(drugList, term, c, Some("")) == FilteredDrugs(drugList, term, c, None)
  {
    FilterAgreeing(drugList, d => Keeps(d, term, Some(""), sp), d => Keeps(d, term, None, sp));
    FilterAgreeing(drugList, d => Keeps(d, term, c, Some("")), d => Keeps(d, term, c, None));
  }

  function ClassesOf(drugList: seq<Drug>): (r: seq<string>)
    ensures |r| == |drugList|
    ensures forall k :: 0 <= k < |drugList| ==> r[k] == drugList[k].drugClass
  {
    seq(|drugList|, k requires 0 <= k < |drugList| => drugList[k].drugClass)
  }

  /** `drugClasses`: every drug's class exactly once, in order of first
      appearance. */
  function DrugClasses(drugList: seq<Drug>): (r: seq<string>)
    ensures NoDuplicates(r)
    ensures forall k :: 0 <= k < |drugList| ==> drugList[k].drugClass in r
    ensures forall c :: c in r ==> c in ClassesOf(drugList)
    ensures forall i, j :: 0 <= i < j < |r| ==>
      FirstIndex(ClassesOf(drugList), r[i]) < FirstIndex(ClassesOf(drugList), r[j])
  {
    var classes := ClassesOf(drugList);
    DedupNoDuplicates(classes);
    DedupFirstAppearanceOrder(classes);
    assert forall k :: 0 <= k < |drugList| ==> classes[k] in classes;
    Dedup(classes)
  }

  /** The component's state. `drugList` is its prop. */
  class PharmaceuticalsView {
    const drugList: seq<Drug>
    var searchTerm: string
    var selectedClass: Option<string>
    var selectedSpecies: Option<string>
    var expandedDrugId: Option<string>

    constructor (drugList: seq<Drug>)
      ensures this.drugList == drugList
      ensures searchTerm == "" && selectedClass == None && selectedSpecies == None && expandedDrugId == None
      ensures Shown() == drugList
    {
      this.drugList := drugList;
      searchTerm := "";
      selectedClass := None;
      selectedSpecies := None;
      expandedDrugId := None;
      new;
      NoFilterKeepsEveryDrug(drugList);
    }

    /** The list handed to the drug list. */
    function Shown(): seq<Drug>
      reads this
    {
      FilteredDrugs(drugList, searchTerm, selectedClass, selectedSpecies)
    }

    method SetSearchTerm(term: string)
      modifies this`searchTerm
      ensures searchTerm == term
      ensures Shown() == FilteredDrugs(drugList, term, selectedClass, selectedSpecies)
    {
      searchTerm := term;
    }

    method SetSelectedClass(c: Option<string>)
      modifies this`selectedClass
      ensures selectedClass == c
      ensures Shown() == FilteredDrugs(drugList, searchTerm, c, selectedSpecies)
    {
      selectedClass := c;
    }

    method SetSelectedSpecies(sp: Option<string>)
      modifies this`selectedSpecies
      ensures selectedSpecies == sp
      ensures Shown() == FilteredDrugs(drugList, searchTerm, selectedClass, sp)
    {
      selectedSpecies := sp;
    }

    method SetExpandedDrugId(id: Option<string>)
      modifies this`expandedDrugId
      ensures expandedDrugId == id
      ensures Shown() == old(Shown())
    {
      expandedDrugId := id;
    }

    /** `resetFilters`: the three filters cleared, so every drug is shown
        again; the expanded drug is kept. */
    method ResetFilters()
      modifies this`searchTerm, this`selectedClass, this`selectedSpecies
      ensures searchTerm == "" && selectedClass == None && selectedSpecies == None
      ensures Shown() == drugList
    {
      searchTerm := "";
      selectedClass := None;
      selectedSpecies := None;
      NoFilterKeepsEveryDrug(drugList);
    }
  }
}
