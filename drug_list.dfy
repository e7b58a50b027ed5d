/** src/components/pharmaceuticals/DrugList.tsx: the empty state when no
    drug passes the filters, otherwise one item per drug, expanded exactly
    when its id is the expanded id; the item's toggle is the single-open
    accordion rule. */
module DrugList {
  import opened Wrappers
  import opened Content
  import Accordion

  datatype Item = Item(drug: Drug, isExpanded: bool)

  datatype View = EmptyState | Items(items: seq<Item>)

  function Render(drugs: seq<Drug>, expandedDrugId: Option<string>): (v: View)
    ensures drugs == [] <==> v == EmptyState
    ensures v.Items? ==> |v.items| == |drugs|
    ensures v.Items? ==> forall i :: 0 <= i < |drugs| ==>
      v.items[i].drug == drugs[i] && (v.items[i].isExpanded <==> Accordion.IsOpen(expandedDrugId, drugs[i].id))
  {
    if |drugs| == 0 then EmptyState
    else Items(seq(|drugs|, i requires 0 <= i < |drugs| =>
      Item(drugs[i], expandedDrugId == Some(drugs[i].id))))
  }

  /** `onToggleExpand` of an item: the new expanded id. */
  function OnToggleExpand(expandedDrugId: Option<string>, drug: Drug): (r: Option<string>)
    ensures expandedDrugId == Some(drug.id) ==> r == None
    ensures expandedDrugId != Some(drug.id) ==> r == Some(drug.id)
  {
    Accordion.Toggle(expandedDrugId, drug.id)
  }

  predicate UniqueIds(drugs: seq<Drug>) {
    forall i, j :: 0 <= i < j < |drugs| ==> drugs[i].id != drugs[j].id
  }

  /** With distinct ids at most one item is expanded. */
  lemma AtMostOneExpanded(drugs: seq<Drug>, expandedDrugId: Option<string>)
    requires UniqueIds(drugs) && drugs != []
    ensures var v := Render(drugs, expandedDrugId);
      forall i, j :: 0 <= i < |drugs| && 0 <= j < |drugs| && v.items[i].isExpanded && v.items[j].isExpanded ==> i == j
  {
    var v := Render(drugs, expandedDrugId);
    forall i, j | 0 <= i < |drugs| && 0 <= j < |drugs| && v.items[i].isExpanded && v.items[j].isExpanded
      ensures i == j
    {
      Accordion.AtMostOneOpen(expandedDrugId, drugs[i].id, drugs[j].id);
    }
  }
}
