/** The search dialog of src/components/GlobalSearch.tsx as a state
    machine over `isOpen`, `searchTerm`, `selectedIndex` and `results`.
    The component's search effect recomputes `results` whenever
    `searchTerm` changes; here that recomputation is folded into every
    transition that sets the term, and it uses the search of
    src/hooks/useSearch.ts (the dialog's own copy of the search does not
    type-check against the content records). */
module GlobalSearch {
  import opened Wrappers
  import opened Text
  import opened Content
  import opened SearchEngine

  /** The keys the input's `onKeyDown` handler distinguishes. */
  datatype Key = ArrowDown | ArrowUp | Enter | Escape | OtherKey

  /** What a transition does outside the state: nothing, a navigation to a
      result's path, or the TypeError of reading `path` from `undefined`. */
  datatype Effect = NoEffect | Navigate(path: string) | TypeError

  datatype DialogState = DialogState(
    isOpen: bool, searchTerm: string, selectedIndex: int, results: seq<SearchResult>)

  /** The user-facing events. */
  datatype Event =
    | WindowKey(key: string, metaKey: bool, ctrlKey: bool)  // global keydown listener
    | InputKey(k: Key)                                       // keydown in the input
    | InputChange(value: string)                             // typing in the input
    | ClearClick                                             // the X button
    | ResultClick(index: nat)                                // a click on a listed result
    | OpenChange(open: bool)                                 // trigger button, overlay, close

  const Initial := DialogState(false, "", -1, [])

  /** The highlighted entry is a listed result, or none (-1). */
  predicate IndexInRange(s: DialogState) {
    -1 <= s.selectedIndex < |s.results|
  }

  /** The listed results are those of the current term. */
  predicate ResultsCurrent(topics: seq<Topic>, drugs: seq<Drug>, s: DialogState) {
    s.results == Search(s.searchTerm, topics, drugs)
  }

  predicate Consistent(topics: seq<Topic>, drugs: seq<Drug>, s: DialogState) {
    IndexInRange(s) && ResultsCurrent(topics, drugs, s)
  }

  /** Ctrl+K or Cmd+K opens the dialog; any other key leaves it alone. */
  function WindowKeyDown(s: DialogState, key: string, metaKey: bool, ctrlKey: bool): (r: DialogState)
    ensures r.isOpen <==> s.isOpen || ((metaKey || ctrlKey) && key == "k")
    ensures r.(isOpen := s.isOpen) == s
  {
    if (metaKey || ctrlKey) && key == "k" then s.(isOpen := true) else s
  }

  /** ArrowDown: one step down unless on the last result. */
  function StepDown(s: DialogState): (i: int)
    ensures IndexInRange(s) ==> -1 <= i < |s.results|
    ensures i > s.selectedIndex <==> s.selectedIndex < |s.results| - 1
    ensures i <= s.selectedIndex + 1 && i >= s.selectedIndex
  {
    if s.selectedIndex < |s.results| - 1 then s.selectedIndex + 1 else s.selectedIndex
  }

  /** ArrowUp: one step up while above the first result; never back to -1
      from a selected result. */
  function StepUp(s: DialogState): (i: int)
    ensures IndexInRange(s) ==> -1 <= i < |s.results|
    ensures s.selectedIndex >= 0 ==> i >= 0
    ensures i < s.selectedIndex <==> s.selectedIndex > 0
    ensures i >= s.selectedIndex - 1 && i <= s.selectedIndex
  {
    if s.selectedIndex > 0 then s.selectedIndex - 1 else s.selectedIndex
  }

  /** `handleResultClick` as written: navigate, close and clear the term;
      the highlighted index is left as it was. */
  function ChooseResult(topics: seq<Topic>, drugs: seq<Drug>, s: DialogState, result: SearchResult)
    : (r: (DialogState, Effect))
    ensures r.1 == Navigate(result.path)
    ensures !r.0.isOpen && r.0.searchTerm == "" && r.0.results == []
    ensures r.0.selectedIndex == s.selectedIndex
    ensures ResultsCurrent(topics, drugs, r.0)
  {
    (s.(isOpen := false, searchTerm := "", results := Search("", topics, drugs)), Navigate(result.path))
  }

  /** The input's key handler. */
  function InputKeyDown(topics: seq<Topic>, drugs: seq<Drug>, s: DialogState, key: Key)
    : (r: (DialogState, Effect))
    ensures key == Escape ==> r == (s.(isOpen := false), NoEffect)
    ensures key == OtherKey ==> r == (s, NoEffect)
    ensures key in {ArrowDown, ArrowUp, OtherKey} ==> r.1 == NoEffect && r.0.(selectedIndex := s.selectedIndex) == s
    ensures key == ArrowDown ==> r.0.selectedIndex == StepDown(s)
    ensures key == ArrowUp ==> r.0.selectedIndex == StepUp(s)
    ensures key == Enter && s.selectedIndex < 0 ==> r == (s, NoEffect)
    ensures key == Enter && 0 <= s.selectedIndex < |s.results| ==>
      r.1 == Navigate(s.results[s.selectedIndex].path) && !r.0.isOpen && r.0.searchTerm == ""
    ensures key == Enter && s.selectedIndex >= |s.results| ==> r == (s, TypeError)
  {
    match key
    case ArrowDown => (s.(selectedIndex := StepDown(s)), NoEffect)
    case ArrowUp => (s.(selectedIndex := StepUp(s)), NoEffect)
    case Enter =>
      if s.selectedIndex < 0 then (s, NoEffect)
      else if s.selectedIndex < |s.results| then ChooseResult(topics, drugs, s, s.results[s.selectedIndex])
      else (s, TypeError)  // results[selectedIndex] is undefined
    case Escape => (s.(isOpen := false), NoEffect)
    case OtherKey => (s, NoEffect)
  }

  /** Typing: the new term, its results, and no highlighted entry. */
  function EditTerm(topics: seq<Topic>, drugs: seq<Drug>, s: DialogState, value: string): (r: DialogState)
    ensures r.searchTerm == value && r.selectedIndex == -1 && r.isOpen == s.isOpen
    ensures Consistent(topics, drugs, r)
  {
    s.(searchTerm := value, selectedIndex := -1, results := Search(value, topics, drugs))
  }

  /** The X button as written: the term is cleared, the index is not. */
  function ClearInput(topics: seq<Topic>, drugs: seq<Drug>, s: DialogState): (r: DialogState)
    ensures r.searchTerm == "" && r.results == [] && r.selectedIndex == s.selectedIndex
    ensures r.isOpen == s.isOpen
  {
    s.(searchTerm := "", results := Search("", topics, drugs))
  }

  /** Whether the control an event comes from is on screen: the input, the
      results and the X button exist only while the dialog is open, and the
      X button only while the term is non-empty; the global shortcut and the
      open/close controls are always there. */
  predicate Rendered(s: DialogState, e: Event) {
    match e
    case WindowKey(_, _, _) => true
    case OpenChange(_) => true
    case ClearClick => s.isOpen && s.searchTerm != ""
    case _ => s.isOpen
  }

  /** One event, as the component handles it; an event from a control that
      is not on screen cannot happen and changes nothing. */
  function Step(topics: seq<Topic>, drugs: seq<Drug>, s: DialogState, e: Event): (r: (DialogState, Effect))
    ensures !Rendered(s, e) ==> r == (s, NoEffect)
    ensures r.1 != NoEffect ==> s.isOpen
    ensures r.1.Navigate? ==> !r.0.isOpen && r.0.searchTerm == ""
  {
    if !Rendered(s, e) then (s, NoEffect)
    else match e
    case WindowKey(key, meta, ctrl) => (WindowKeyDown(s, key, meta, ctrl), NoEffect)
    case InputKey(k) => InputKeyDown(topics, drugs, s, k)
    case InputChange(value) => (EditTerm(topics, drugs, s, value), NoEffect)
    case ClearClick => (ClearInput(topics, drugs, s), NoEffect)
    case ResultClick(i) =>
      if i < |s.results| then ChooseResult(topics, drugs, s, s.results[i]) else (s, NoEffect)
    case OpenChange(open) => (s.(isOpen := open), NoEffect)
  }

  /** Starting in range, the arrow keys keep the highlighted index in range. */
  lemma ArrowKeysKeepIndexInRange(topics: seq<Topic>, drugs: seq<Drug>, s: DialogState, k: Key)
    requires IndexInRange(s) && k in {ArrowDown, ArrowUp}
    ensures IndexInRange(InputKeyDown(topics, drugs, s, k).0)
  {
  }

  /** Every event except the X button and choosing a result keeps the
      dialog consistent. */
  lemma StepKeepsConsistency(topics: seq<Topic>, drugs: seq<Drug>, s: DialogState, e: Event)
    requires Consistent(topics, drugs, s)
    requires !e.ClearClick? && !e.ResultClick? && e != InputKey(Enter)
    ensures Consistent(topics, drugs, Step(topics, drugs, s, e).0)
    ensures Step(topics, drugs, s, e).1 != TypeError
  {
  }

  /** Finding: with a result highlighted, the X button empties the results
      but keeps the index, and Enter then reads past the end of the list. */
  lemma ClearLeavesStaleIndex(topics: seq<Topic>, drugs: seq<Drug>, s: DialogState)
    requires Consistent(topics, drugs, s) && s.isOpen && s.selectedIndex >= 0
    ensures var c := Step(topics, drugs, s, ClearClick).0;
      c.isOpen && !IndexInRange(c) && Step(topics, drugs, c, InputKey(Enter)).1 == TypeError
  {
  }

  /** Finding: choosing a result with Enter keeps the index; reopening with
      Ctrl+K and pressing Enter again reads past the end of the empty list.
      This takes the dialog to stay mounted across the navigation, so that
      its state survives. */
  lemma ReopenAfterChoosingCrashes(topics: seq<Topic>, drugs: seq<Drug>, s: DialogState)
    requires Consistent(topics, drugs, s) && s.isOpen && s.selectedIndex >= 0
    ensures var s1 := Step(topics, drugs, s, InputKey(Enter)).0;
      var s2 := Step(topics, drugs, s1, WindowKey("k", false, true)).0;
      s2.isOpen && Step(topics, drugs, s2, InputKey(Enter)).1 == TypeError
  {
  }

  // ---------------------------------------------------------------------
  // Corrected dialog: clearing the term and choosing a result also reset
  // the highlighted index.

  function ClearInputFixed(topics: seq<Topic>, drugs: seq<Drug>, s: DialogState): (r: DialogState)
    ensures r.searchTerm == "" && r.isOpen == s.isOpen
    ensures Consistent(topics, drugs, r)
  {
    ClearInput(topics, drugs, s).(selectedIndex := -1)
  }

  function ChooseResultFixed(topics: seq<Topic>, drugs: seq<Drug>, s: DialogState, result: SearchResult)
    : (r: (DialogState, Effect))
    ensures r.1 == Navigate(result.path) && !r.0.isOpen && r.0.searchTerm == ""
    ensures Consistent(topics, drugs, r.0)
  {
    var (c, eff) := ChooseResult(topics, drugs, s, result);
    (c.(selectedIndex := -1), eff)
  }

  function StepFixed(topics: seq<Topic>, drugs: seq<Drug>, s: DialogState, e: Event): (DialogState, Effect) {
    if !Rendered(s, e) then (s, NoEffect)
    else match e
    case ClearClick => (ClearInputFixed(topics, drugs, s), NoEffect)
    case ResultClick(i) =>
      if i < |s.results| then ChooseResultFixed(topics, drugs, s, s.results[i]) else (s, NoEffect)
    case InputKey(Enter) =>
      if 0 <= s.selectedIndex < |s.results|
      then ChooseResultFixed(topics, drugs, s, s.results[s.selectedIndex])
      else InputKeyDown(topics, drugs, s, Enter)
    case _ => Step(topics, drugs, s, e)
  }

  /** With the correction every event keeps the dialog consistent, so Enter
      never reads past the end of the list. */
  lemma StepFixedKeepsConsistency(topics: seq<Topic>, drugs: seq<Drug>, s: DialogState, e: Event)
    requires Consistent(topics, drugs, s)
    ensures Consistent(topics, drugs, StepFixed(topics, drugs, s, e).0)
    ensures StepFixed(topics, drugs, s, e).1 != TypeError
  {
    if e != InputKey(Enter) && !e.ClearClick? && !e.ResultClick? {
      StepKeepsConsistency(topics, drugs, s, e);
    }
  }

  /** The dialog starts closed, empty and consistent. */
  lemma InitialConsistent(topics: seq<Topic>, drugs: seq<Drug>)
    ensures Consistent(topics, drugs, Initial)
  {
  }

  /** The component: its state fields and its handlers, each proved to make
      the transition the functions above describe. */
  class Dialog {
    const topics: seq<Topic>
    const drugs: seq<Drug>
    var isOpen: bool
    var searchTerm: string
    var selectedIndex: int
    var results: seq<SearchResult>

    function State(): DialogState
      reads this
    {
      DialogState(isOpen, searchTerm, selectedIndex, results)
    }

    constructor (topics: seq<Topic>, drugs: seq<Drug>)
      ensures this.topics == topics && this.drugs == drugs
      ensures State() == Initial
    {
      this.topics := topics;
      this.drugs := drugs;
      isOpen := false;
      searchTerm := "";
      selectedIndex := -1;
      results := [];
    }

    /** The search effect: recompute the results for the current term. */
    method RefreshResults()
      modifies this
      ensures State() == old(State()).(results := Search(searchTerm, topics, drugs))
    {
      results := PerformSearch(searchTerm, topics, drugs);
    }

    method OnWindowKeyDown(key: string, metaKey: bool, ctrlKey: bool)
      modifies this
      ensures State() == WindowKeyDown(old(State()), key, metaKey, ctrlKey)
    {
      if (metaKey || ctrlKey) && key == "k" {
        isOpen := true;
      }
    }

    method HandleResultClick(result: SearchResult) returns (effect: Effect)
      modifies this
      ensures (State(), effect) == ChooseResult(topics, drugs, old(State()), result)
    {
      effect := Navigate(result.path);
      isOpen := false;
      searchTerm := "";
      RefreshResults();
    }

    method HandleKeyDown(key: Key) returns (effect: Effect)
      modifies this
      ensures (State(), effect) == InputKeyDown(topics, drugs, old(State()), key)
    {
      effect := NoEffect;
      if key == ArrowDown {
        selectedIndex := if selectedIndex < |results| - 1 then selectedIndex + 1 else selectedIndex;
      } else if key == ArrowUp {
        selectedIndex := if selectedIndex > 0 then selectedIndex - 1 else selectedIndex;
      } else if key == Enter && selectedIndex >= 0 {
        if selectedIndex < |results| {
          effect := HandleResultClick(results[selectedIndex]);
        } else {
          effect := TypeError;
        }
      } else if key == Escape {
        isOpen := false;
      }
    }

    method OnInputChange(value: string)
      modifies this
      ensures State() == EditTerm(topics, drugs, old(State()), value)
    {
      searchTerm := value;
      selectedIndex := -1;
      RefreshResults();
    }

    method OnClearClick()
      modifies this
      ensures State() == ClearInput(topics, drugs, old(State()))
    {
      searchTerm := "";
      RefreshResults();
    }

    method OnOpenChange(open: bool)
      modifies this
      ensures State() == old(State()).(isOpen := open)
    {
      isOpen := open;
    }
  }
}
