/** The search over topics, subtopics and drugs (`performSearch` in
    src/hooks/useSearch.ts). A query that is blank after trimming yields
    nothing; otherwise the lowered query is matched by substring
    containment against lowered fields, results are collected in traversal
    order and the first ten are kept. */
module SearchEngine {
  import opened Wrappers
  import opened Text
  import opened Content

  const MaxResults: nat := 10

  datatype ResultKind = TopicKind | SubtopicKind | DrugKind

  /** A search hit; `description` is always set by the search, `parentId`
      only for subtopic hits. */
  datatype SearchResult = SearchResult(
    id: string, title: string, kind: ResultKind, description: string,
    path: string, parentId: Option<string>)

  /** `field.toLowerCase().includes(q)` for an already lowered query `q`. */
  predicate Matches(field: string, q: string) {
    Contains(Lower(field), q)
  }

  predicate TopicMatches(q: string, t: Topic) {
    Matches(t.title, q) || Matches(t.description, q)
  }

  /** The content entries are joined with single spaces before matching. */
  predicate SubtopicMatches(q: string, s: Subtopic) {
    Matches(s.title, q) || Matches(Join(s.content, " "), q)
  }

  predicate DrugMatches(q: string, d: Drug) {
    Matches(d.name, q) || Matches(d.description, q) || Matches(d.drugClass, q)
  }

  function TopicHit(t: Topic): (r: SearchResult)
    ensures r.kind == TopicKind && r.parentId == None
    ensures r.path == "/topic/" + r.id && r.title == t.title
  {
    var id := IntToString(t.id);
    SearchResult(id, t.title, TopicKind, t.description, "/topic/" + id, None)
  }

  function SubtopicHit(t: Topic, i: nat): (r: SearchResult)
    requires i < |t.subtopics|
    ensures r.kind == SubtopicKind && r.parentId == Some(IntToString(t.id))
    ensures r.title == t.subtopics[i].title
    ensures r.path == "/topic/" + r.parentId.value + "#" + NatToString(i)
  {
    var id := IntToString(t.id);
    var s := t.subtopics[i];
    SearchResult(id + "-" + NatToString(i), s.title, SubtopicKind,
                 t.title + " > " + s.title, "/topic/" + id + "#" + NatToString(i), Some(id))
  }

  /** `class + " - " + description.substring(0, 60) + "..."`. */
  function DrugSummary(d: Drug): (r: string)
    ensures |d.drugClass| + 6 <= |r| <= |d.drugClass| + 66
    ensures r[..|d.drugClass|] == d.drugClass
    ensures r[|r| - 3..] == "..."
  {
    d.drugClass + " - " + Prefix(d.description, 60) + "..."
  }

  function DrugHit(d: Drug): (r: SearchResult)
    ensures r.kind == DrugKind && r.id == d.id && r.title == d.name && r.parentId == None
    ensures r.path == "/#pharmaceuticals-" + d.id
  {
    SearchResult(d.id, d.name, DrugKind, DrugSummary(d), "/#pharmaceuticals-" + d.id, None)
  }

  /** Hits among the first `n` subtopics of `t`, in index order. */
  function SubtopicHits(q: string, t: Topic, n: nat): seq<SearchResult>
    requires n <= |t.subtopics|
  {
    if n == 0 then []
    else SubtopicHits(q, t, n - 1)
         + (if SubtopicMatches(q, t.subtopics[n - 1]) then [SubtopicHit(t, n - 1)] else [])
  }

  /** A topic's own hit, then its subtopics' hits. */
  function TopicHits(q: string, t: Topic): (r: seq<SearchResult>)
    ensures |r| <= 1 + |t.subtopics|
    ensures TopicMatches(q, t) <==> r != [] && r[0].kind == TopicKind
  {
    SubtopicHitsKinds(q, t, |t.subtopics|);
    SubtopicHitsLength(q, t, |t.subtopics|);
    (if TopicMatches(q, t) then [TopicHit(t)] else []) + SubtopicHits(q, t, |t.subtopics|)
  }

  function TopicsPass(q: string, topics: seq<Topic>): seq<SearchResult>
    decreases |topics|
  {
    if topics == [] then []
    else TopicsPass(q, topics[..|topics| - 1]) + TopicHits(q, topics[|topics| - 1])
  }

  function DrugsPass(q: string, drugs: seq<Drug>): seq<SearchResult>
    decreases |drugs|
  {
    if drugs == [] then []
    else DrugsPass(q, drugs[..|drugs| - 1])
         + (if DrugMatches(q, drugs[|drugs| - 1]) then [DrugHit(drugs[|drugs| - 1])] else [])
  }

  /** Every hit, uncapped: all topic and subtopic hits, then all drug hits. */
  function Traversal(q: string, topics: seq<Topic>, drugs: seq<Drug>): seq<SearchResult> {
    TopicsPass(q, topics) + DrugsPass(q, drugs)
  }

  /** What `performSearch(term)` stores in `results`. */
  function Search(term: string, topics: seq<Topic>, drugs: seq<Drug>): (r: seq<SearchResult>)
    ensures |r| <= MaxResults
    ensures IsBlank(term) ==> r == []
    ensures !IsBlank(term) ==>
      var all := Traversal(Lower(term), topics, drugs);
      r <= all && (r == all || |r| == MaxResults)
  {
    if IsBlank(term) then []
    else
      var all := Traversal(Lower(term), topics, drugs);
      if |all| <= MaxResults then all else all[..MaxResults]
  }

  /** The body of the `topics.forEach` callback: push the topic's own hit,
      then one hit per matching subtopic, onto `acc`. */
  method PushTopicHits(q: string, topic: Topic, acc: seq<SearchResult>)
    returns (newResults: seq<SearchResult>)
    ensures newResults == acc + TopicHits(q, topic)
  {
    newResults := acc;
    if Matches(topic.title, q) || Matches(topic.description, q) {
      newResults := newResults + [TopicHit(topic)];
    }
    ghost var own := newResults;
    var j := 0;
    while j < |topic.subtopics|
      invariant 0 <= j <= |topic.subtopics|
      invariant newResults == own + SubtopicHits(q, topic, j)
    {
      var subtopic := topic.subtopics[j];
      var contentString := Join(subtopic.content, " ");
      if Matches(subtopic.title, q) || Matches(contentString, q) {
        newResults := newResults + [SubtopicHit(topic, j)];
      }
      j := j + 1;
    }
  }

  /** `performSearch`: the topic pass, the drug pass, then the first ten
      entries. */
  method PerformSearch(term: string, topics: seq<Topic>, drugs: seq<Drug>)
    returns (results: seq<SearchResult>)
    ensures results == Search(term, topics, drugs)
  {
    if IsBlank(term) {
      return [];
    }
    var q := Lower(term);
    var newResults: seq<SearchResult> := [];
    var i := 0;
    while i < |topics|
      invariant 0 <= i <= |topics|
      invariant newResults == TopicsPass(q, topics[..i])
    {
      newResults := PushTopicHits(q, topics[i], newResults);
      assert topics[..i + 1][..i] == topics[..i];
      i := i + 1;
    }
    assert topics[..i] == topics;
    var k := 0;
    while k < |drugs|
      invariant 0 <= k <= |drugs|
      invariant newResults == TopicsPass(q, topics) + DrugsPass(q, drugs[..k])
    {
      var drug := drugs[k];
      if Matches(drug.name, q) || Matches(drug.description, q) || Matches(drug.drugClass, q) {
        newResults := newResults + [DrugHit(drug)];
      }
      assert drugs[..k + 1][..k] == drugs[..k];
      k := k + 1;
    }
    assert drugs[..k] == drugs;
    results := if |newResults| <= MaxResults then newResults else newResults[..MaxResults];
  }

  // ---------------------------------------------------------------------
  // Ordering: every topic or subtopic hit precedes every drug hit.

  lemma {:induction false} SubtopicHitsKinds(q: string, t: Topic, n: nat)
    requires n <= |t.subtopics|
    ensures forall r :: r in SubtopicHits(q, t, n) ==> r.kind == SubtopicKind
  {
    if n > 0 {
      SubtopicHitsKinds(q, t, n - 1);
    }
  }

  lemma {:induction false} TopicsPassKinds(q: string, topics: seq<Topic>)
    ensures forall r :: r in TopicsPass(q, topics) ==> r.kind != DrugKind
    decreases |topics|
  {
    if topics != [] {
      TopicsPassKinds(q, topics[..|topics| - 1]);
      var t := topics[|topics| - 1];
      SubtopicHitsKinds(q, t, |t.subtopics|);
    }
  }

  lemma {:induction false} DrugsPassKinds(q: string, drugs: seq<Drug>)
    ensures forall r :: r in DrugsPass(q, drugs) ==> r.kind == DrugKind
    decreases |drugs|
  {
    if drugs != [] {
      DrugsPassKinds(q, drugs[..|drugs| - 1]);
    }
  }

  /** Once a drug hit appears, everything after it is a drug hit. */
  lemma TraversalOrder(q: string, topics: seq<Topic>, drugs: seq<Drug>)
    ensures var all := Traversal(q, topics, drugs);
      forall i, j :: 0 <= i < j < |all| && all[i].kind == DrugKind ==> all[j].kind == DrugKind
  {
    var tp, dp := TopicsPass(q, topics), DrugsPass(q, drugs);
    TopicsPassKinds(q, topics);
    DrugsPassKinds(q, drugs);
    var all := tp + dp;
    assert forall i :: 0 <= i < |tp| ==> all[i] == tp[i] && tp[i] in tp;
    assert forall j :: |tp| <= j < |all| ==> all[j] == dp[j - |tp|] && dp[j - |tp|] in dp;
  }

  /** The search results keep that order. */
  lemma SearchOrder(term: string, topics: seq<Topic>, drugs: seq<Drug>)
    ensures var r := Search(term, topics, drugs);
      forall i, j :: 0 <= i < j < |r| && r[i].kind == DrugKind ==> r[j].kind == DrugKind
  {
    if !IsBlank(term) {
      TraversalOrder(Lower(term), topics, drugs);
      var all := Traversal(Lower(term), topics, drugs);
      var r := Search(term, topics, drugs);
      assert forall i :: 0 <= i < |r| ==> r[i] == all[i];
    }
  }

  // ---------------------------------------------------------------------
  // Subtopics: the hits are those of the matching indices, in index order.

  /** The indices below `n` whose subtopic matches, ascending. */
  function MatchingSubtopics(q: string, t: Topic, n: nat): (idx: seq<nat>)
    requires n <= |t.subtopics|
    ensures forall m :: 0 <= m < |idx| ==> idx[m] < n && SubtopicMatches(q, t.subtopics[idx[m]])
    ensures forall a, b :: 0 <= a < b < |idx| ==> idx[a] < idx[b]
    ensures forall j :: 0 <= j < n && SubtopicMatches(q, t.subtopics[j]) ==> j in idx
  {
    if n == 0 then []
    else MatchingSubtopics(q, t, n - 1)
         + (if SubtopicMatches(q, t.subtopics[n - 1]) then [n - 1] else [])
  }

  lemma {:induction false} SubtopicHitsInIndexOrder(q: string, t: Topic, n: nat)
    requires n <= |t.subtopics|
    ensures var idx := MatchingSubtopics(q, t, n);
      |SubtopicHits(q, t, n)| == |idx|
      && forall m :: 0 <= m < |idx| ==> SubtopicHits(q, t, n)[m] == SubtopicHit(t, idx[m])
  {
    if n > 0 {
      SubtopicHitsInIndexOrder(q, t, n - 1);
    }
  }

  lemma {:induction false} SubtopicHitsLength(q: string, t: Topic, n: nat)
    requires n <= |t.subtopics|
    ensures |SubtopicHits(q, t, n)| <= n
  {
    if n > 0 {
      SubtopicHitsLength(q, t, n - 1);
    }
  }

  /** A topic contributes at most one hit of its own plus one per subtopic,
      a drug at most one. */
  lemma {:induction false} TraversalLength(q: string, topics: seq<Topic>, drugs: seq<Drug>)
    ensures |Traversal(q, topics, drugs)| <= |topics| + SubtopicCount(topics) + |drugs|
    decreases |topics| + |drugs|
  {
    if drugs != [] {
      TraversalLength(q, topics, drugs[..|drugs| - 1]);
    } else if topics != [] {
      var t := topics[|topics| - 1];
      TraversalLength(q, topics[..|topics| - 1], drugs);
      SubtopicHitsLength(q, t, |t.subtopics|);
    }
  }

  /** With at most ten possible hits nothing is cut off. */
  lemma SearchKeepsEveryHitWhenFew(term: string, topics: seq<Topic>, drugs: seq<Drug>)
    requires !IsBlank(term)
    requires |topics| + SubtopicCount(topics) + |drugs| <= MaxResults
    ensures Search(term, topics, drugs) == Traversal(Lower(term), topics, drugs)
  {
    TraversalLength(Lower(term), topics, drugs);
  }

  function SubtopicCount(topics: seq<Topic>): nat
    decreases |topics|
  {
    if topics == [] then 0
    else SubtopicCount(topics[..|topics| - 1]) + |topics[|topics| - 1].subtopics|
  }

  // ---------------------------------------------------------------------
  // Soundness and completeness of the traversal.

  ghost predicate IsTopicHitOf(q: string, topics: seq<Topic>, r: SearchResult) {
    exists k :: 0 <= k < |topics| && TopicMatches(q, topics[k]) && r == TopicHit(topics[k])
  }

  ghost predicate IsSubtopicHitOf(q: string, topics: seq<Topic>, r: SearchResult) {
    exists k, j :: 0 <= k < |topics| && 0 <= j < |topics[k].subtopics|
      && SubtopicMatches(q, topics[k].subtopics[j]) && r == SubtopicHit(topics[k], j)
  }

  ghost predicate IsDrugHitOf(q: string, drugs: seq<Drug>, r: SearchResult) {
    exists k :: 0 <= k < |drugs| && DrugMatches(q, drugs[k]) && r == DrugHit(drugs[k])
  }

  lemma {:induction false} TopicsPassSound(q: string, topics: seq<Topic>)
    ensures forall r :: r in TopicsPass(q, topics) ==>
      IsTopicHitOf(q, topics, r) || IsSubtopicHitOf(q, topics, r)
    decreases |topics|
  {
    if topics != [] {
      var init, k := topics[..|topics| - 1], |topics| - 1;
      var t := topics[k];
      TopicsPassSound(q, init);
      SubtopicHitsInIndexOrder(q, t, |t.subtopics|);
      var idx := MatchingSubtopics(q, t, |t.subtopics|);
      forall r | r in TopicsPass(q, topics)
        ensures IsTopicHitOf(q, topics, r) || IsSubtopicHitOf(q, topics, r)
      {
        if r in TopicsPass(q, init) {
          if IsTopicHitOf(q, init, r) {
            var k' :| 0 <= k' < |init| && TopicMatches(q, init[k']) && r == TopicHit(init[k']);
            assert topics[k'] == init[k'];
          } else {
            var k', j :| 0 <= k' < |init| && 0 <= j < |init[k'].subtopics|
              && SubtopicMatches(q, init[k'].subtopics[j]) && r == SubtopicHit(init[k'], j);
            assert topics[k'] == init[k'];
          }
        } else if TopicMatches(q, t) && r == TopicHit(t) {
          assert IsTopicHitOf(q, topics, r);
        } else {
          assert r in SubtopicHits(q, t, |t.subtopics|);
          var m :| 0 <= m < |idx| && SubtopicHits(q, t, |t.subtopics|)[m] == r;
          assert r == SubtopicHit(topics[k], idx[m]);
        }
      }
    }
  }

  lemma {:induction false} DrugsPassSound(q: string, drugs: seq<Drug>)
    ensures forall r :: r in DrugsPass(q, drugs) ==> IsDrugHitOf(q, drugs, r)
    decreases |drugs|
  {
    if drugs != [] {
      var init := drugs[..|drugs| - 1];
      DrugsPassSound(q, init);
      forall r | r in DrugsPass(q, drugs) ensures IsDrugHitOf(q, drugs, r) {
        if r in DrugsPass(q, init) {
          var k :| 0 <= k < |init| && DrugMatches(q, init[k]) && r == DrugHit(init[k]);
          assert drugs[k] == init[k];
        } else {
          assert r == DrugHit(drugs[|drugs| - 1]);
        }
      }
    }
  }

  /** Every search result is the hit of a topic, subtopic or drug that
      matches the lowered query. */
  lemma SearchSound(term: string, topics: seq<Topic>, drugs: seq<Drug>)
    ensures forall r :: r in Search(term, topics, drugs) ==>
      var q := Lower(term);
      IsTopicHitOf(q, topics, r) || IsSubtopicHitOf(q, topics, r) || IsDrugHitOf(q, drugs, r)
  {
    var q := Lower(term);
    TopicsPassSound(q, topics);
    DrugsPassSound(q, drugs);
    var all := Traversal(q, topics, drugs);
    var r := Search(term, topics, drugs);
    assert forall x :: x in r ==> x in all;
  }

  lemma {:induction false} TopicsPassComplete(q: string, topics: seq<Topic>)
    ensures forall k :: 0 <= k < |topics| && TopicMatches(q, topics[k]) ==>
      TopicHit(topics[k]) in TopicsPass(q, topics)
    ensures forall k, j ::
      (0 <= k < |topics| && 0 <= j < |topics[k].subtopics| && SubtopicMatches(q, topics[k].subtopics[j]))
      ==> SubtopicHit(topics[k], j) in TopicsPass(q, topics)
    decreases |topics|
  {
    if topics != [] {
      var init, last := topics[..|topics| - 1], |topics| - 1;
      var t := topics[last];
      var before, hits := TopicsPass(q, init), TopicHits(q, t);
      TopicsPassComplete(q, init);
      TopicHitsComplete(q, t);
      assert TopicsPass(q, topics) == before + hits;
      forall k | 0 <= k < |topics| && TopicMatches(q, topics[k])
        ensures TopicHit(topics[k]) in TopicsPass(q, topics)
      {
        if k < last {
          assert topics[k] == init[k];
          assert TopicHit(topics[k]) in before;
        } else {
          assert TopicHit(topics[k]) in hits;
        }
      }
      forall k, j | 0 <= k < |topics| && 0 <= j < |topics[k].subtopics|
          && SubtopicMatches(q, topics[k].subtopics[j])
        ensures SubtopicHit(topics[k], j) in TopicsPass(q, topics)
      {
        if k < last {
          assert topics[k] == init[k];
          assert SubtopicHit(topics[k], j) in before;
        } else {
          assert SubtopicHit(topics[k], j) in hits;
        }
      }
    }
  }

  /** A matching topic has its own hit among its hits, and so has every
      matching subtopic. */
  lemma TopicHitsComplete(q: string, t: Topic)
    ensures TopicMatches(q, t) ==> TopicHit(t) in TopicHits(q, t)
    ensures forall j :: 0 <= j < |t.subtopics| && SubtopicMatches(q, t.subtopics[j]) ==>
      SubtopicHit(t, j) in TopicHits(q, t)
  {
    SubtopicHitsInIndexOrder(q, t, |t.subtopics|);
    var idx := MatchingSubtopics(q, t, |t.subtopics|);
    var sh := SubtopicHits(q, t, |t.subtopics|);
    forall j | 0 <= j < |t.subtopics| && SubtopicMatches(q, t.subtopics[j])
      ensures SubtopicHit(t, j) in TopicHits(q, t)
    {
      var m :| 0 <= m < |idx| && idx[m] == j;
      assert sh[m] == SubtopicHit(t, j);
      assert sh[m] in TopicHits(q, t);
    }
  }

  lemma {:induction false} DrugsPassComplete(q: string, drugs: seq<Drug>)
    ensures forall k :: 0 <= k < |drugs| && DrugMatches(q, drugs[k]) ==>
      DrugHit(drugs[k]) in DrugsPass(q, drugs)
    decreases |drugs|
  {
    if drugs != [] {
      var init := drugs[..|drugs| - 1];
      DrugsPassComplete(q, init);
      forall k | 0 <= k < |drugs| - 1 && DrugMatches(q, drugs[k])
        ensures DrugHit(drugs[k]) in DrugsPass(q, drugs)
      {
        assert drugs[k] == init[k];
      }
    }
  }

  /** Every matching topic, subtopic and drug has its hit in the traversal;
      the search holds them all whenever there are at most ten hits. */
  lemma TraversalComplete(q: string, topics: seq<Topic>, drugs: seq<Drug>)
    ensures forall k :: 0 <= k < |topics| && TopicMatches(q, topics[k]) ==>
      TopicHit(topics[k]) in Traversal(q, topics, drugs)
    ensures forall k, j ::
      (0 <= k < |topics| && 0 <= j < |topics[k].subtopics| && SubtopicMatches(q, topics[k].subtopics[j]))
      ==> SubtopicHit(topics[k], j) in Traversal(q, topics, drugs)
    ensures forall k :: 0 <= k < |drugs| && DrugMatches(q, drugs[k]) ==>
      DrugHit(drugs[k]) in Traversal(q, topics, drugs)
  {
    TopicsPassComplete(q, topics);
    DrugsPassComplete(q, drugs);
  }

  // ---------------------------------------------------------------------
  // Shapes of the results.

  /** How `id`, `path`, `description` and `parentId` hang together for each
      kind of hit; only subtopic hits carry a parent id. */
  predicate WellShaped(r: SearchResult) {
    match r.kind
    case TopicKind =>
      r.parentId == None && r.path == "/topic/" + r.id
    case SubtopicKind =>
      r.parentId.Some? &&
      var p := r.parentId.value;
      |p| + 1 <= |r.id| && StartsWith(r.id, p + "-")
      && r.path == "/topic/" + p + "#" + r.id[|p| + 1..]
      && EndsWith(r.description, " > " + r.title)
    case DrugKind =>
      r.parentId == None && r.path == "/#pharmaceuticals-" + r.id
      && EndsWith(r.description, "...")
  }

  lemma HitsWellShaped(t: Topic, i: nat, d: Drug)
    requires i < |t.subtopics|
    ensures WellShaped(TopicHit(t)) && WellShaped(SubtopicHit(t, i)) && WellShaped(DrugHit(d))
  {
    var r := SubtopicHit(t, i);
    var p := IntToString(t.id);
    assert r.id == p + "-" + NatToString(i);
    assert r.id[..|p| + 1] == p + "-";
    assert r.id[|p| + 1..] == NatToString(i);
  }

  lemma SearchWellShaped(term: string, topics: seq<Topic>, drugs: seq<Drug>)
    ensures forall r :: r in Search(term, topics, drugs) ==> WellShaped(r)
  {
    SearchSound(term, topics, drugs);
    var q := Lower(term);
    forall r | r in Search(term, topics, drugs) ensures WellShaped(r) {
      if IsTopicHitOf(q, topics, r) {
        var k :| 0 <= k < |topics| && TopicMatches(q, topics[k]) && r == TopicHit(topics[k]);
        assert WellShaped(TopicHit(topics[k]));
      } else if IsSubtopicHitOf(q, topics, r) {
        var k, j :| 0 <= k < |topics| && 0 <= j < |topics[k].subtopics|
          && SubtopicMatches(q, topics[k].subtopics[j]) && r == SubtopicHit(topics[k], j);
        HitsWellShaped(topics[k], j, Drug("", "", "", "", []));
      } else {
        var k :| 0 <= k < |drugs| && DrugMatches(q, drugs[k]) && r == DrugHit(drugs[k]);
        assert WellShaped(DrugHit(drugs[k]));
      }
    }
  }

  /** The drug summary: the class, " - ", at most sixty characters of the
      description, and "..." whether or not anything was cut. */
  lemma DrugSummaryShape(d: Drug)
    ensures var s := DrugSummary(d);
      var n := if |d.description| <= 60 then |d.description| else 60;
      |s| == |d.drugClass| + 3 + n + 3
      && StartsWith(s, d.drugClass + " - ")
      && EndsWith(s, "...")
      && s[|d.drugClass| + 3..|s| - 3] == d.description[..n]
  {
    var s := DrugSummary(d);
    var n := if |d.description| <= 60 then |d.description| else 60;
    assert s == (d.drugClass + " - ") + d.description[..n] + "...";
    assert s[..|d.drugClass| + 3] == d.drugClass + " - ";
  }
}
