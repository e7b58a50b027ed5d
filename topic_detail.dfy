/** The topic page of src/pages/TopicDetail.tsx: the route parameter read
    with `parseInt`, the topic looked up by id (or the not-found view), and
    the per-subtopic collapsibles, open by default. */
module TopicDetail {
  import opened Wrappers
  import opened Text
  import opened Content

  /** Leading white space removed (`parseInt` step 1). */
  function TrimStart(s: string): (r: string)
    ensures |r| <= |s| && r == s[|s| - |r|..]
    ensures r == [] || !IsWhitespace(r[0])
    ensures forall i :: 0 <= i < |s| - |r| ==> IsWhitespace(s[i])
  {
    if s != [] && IsWhitespace(s[0]) then TrimStart(s[1..]) else s
  }

  /** The value of a digit in radices up to 36, or -1. */
  function DigitValue(c: char): int {
    if '0' <= c <= '9' then c as int - '0' as int
    else if 'a' <= c <= 'z' then c as int - 'a' as int + 10
    else if 'A' <= c <= 'Z' then c as int - 'A' as int + 10
    else -1
  }

  predicate IsDigitIn(c: char, radix: nat) {
    0 <= DigitValue(c) < radix
  }

  /** The length of the longest prefix made of digits of the radix. */
  function DigitsLength(s: string, radix: nat): (n: nat)
    ensures n <= |s|
    ensures forall i :: 0 <= i < n ==> IsDigitIn(s[i], radix)
    ensures n < |s| ==> !IsDigitIn(s[n], radix)
  {
    if s != [] && IsDigitIn(s[0], radix) then 1 + DigitsLength(s[1..], radix) else 0
  }

  /** The number a string of digits denotes, most significant first. */
  function DigitsValue(d: string, radix: nat): (v: int)
    requires forall i :: 0 <= i < |d| ==> IsDigitIn(d[i], radix)
    ensures 0 <= v
  {
    if d == [] then 0
    else
      var prev := DigitsValue(d[..|d| - 1], radix);
      NonNegativeProduct(prev, radix);
      assert IsDigitIn(d[|d| - 1], radix);
      prev * radix + DigitValue(d[|d| - 1])
  }

  lemma NonNegativeProduct(a: int, b: nat)
    requires 0 <= a
    ensures 0 <= a * b
  {
  }

  /** `parseInt` after the sign: a `0x`/`0X` prefix selects radix 16,
      then the longest run of digits is read; `None` when it is empty. */
  function ParseUnsigned(u: string): (r: Option<int>)
  {
    var hex := |u| >= 2 && u[0] == '0' && (u[1] == 'x' || u[1] == 'X');
    var radix := if hex then 16 else 10;
    var w := if hex then u[2..] else u;
    var n := DigitsLength(w, radix);
    if n == 0 then None else Some(DigitsValue(w[..n], radix))
  }

  /** `parseInt(s)` without a radix: leading white space skipped, an
      optional sign, then the unsigned part; `None` is NaN. */
  function ParseInt(s: string): (r: Option<int>)
    ensures TrimStart(s) == [] ==> r.None?
    ensures r.Some? && r.value < 0 ==> TrimStart(s)[0] == '-'
  {
    var t := TrimStart(s);
    var sign := if t != [] && t[0] == '-' then -1 else 1;
    var u := if t != [] && (t[0] == '-' || t[0] == '+') then t[1..] else t;
    var v := ParseUnsigned(u);
    if v.None? then None else Some(sign * v.value)
  }

  lemma {:induction false} DigitsLengthAll(s: string, radix: nat)
    requires forall i :: 0 <= i < |s| ==> IsDigitIn(s[i], radix)
    ensures DigitsLength(s, radix) == |s|
  {
    if s != [] {
      DigitsLengthAll(s[1..], radix);
    }
  }

  lemma {:induction false} DigitsValueOfNatString(n: nat)
    ensures forall i :: 0 <= i < |NatToString(n)| ==> IsDigitIn(NatToString(n)[i], 10)
    ensures DigitsValue(NatToString(n), 10) == n
  {
    var d := NatToString(n);
    assert forall i :: 0 <= i < |d| ==> IsDigitIn(d[i], 10);
    if n >= 10 {
      DigitsValueOfNatString(n / 10);
      assert d[..|d| - 1] == NatToString(n / 10);
    }
  }

  /** Without a `0x` prefix the unsigned part is read in radix 10. */
  lemma ParseUnsignedDecimal(u: string)
    requires !(|u| >= 2 && u[0] == '0' && (u[1] == 'x' || u[1] == 'X'))
    ensures var n := DigitsLength(u, 10);
      ParseUnsigned(u) == if n == 0 then None else Some(DigitsValue(u[..n], 10))
  {
  }

  /** With a `0x` prefix the rest is read in radix 16. */
  lemma ParseUnsignedHex(u: string)
    requires |u| >= 2 && u[0] == '0' && (u[1] == 'x' || u[1] == 'X')
    ensures var n := DigitsLength(u[2..], 16);
      ParseUnsigned(u) == if n == 0 then None else Some(DigitsValue(u[2..][..n], 16))
  {
  }

  lemma ParseUnsignedAllDigits(d: string)
    requires d != [] && forall i :: 0 <= i < |d| ==> '0' <= d[i] <= '9'
    ensures forall i :: 0 <= i < |d| ==> IsDigitIn(d[i], 10)
    ensures ParseUnsigned(d) == Some(DigitsValue(d, 10))
  {
    ParseUnsignedDecimal(d);
    DigitsLengthAll(d, 10);
    assert d[..|d|] == d;
  }

  lemma ParseUnsignedOfNatString(n: nat)
    ensures ParseUnsigned(NatToString(n)) == Some(n)
  {
    ParseUnsignedAllDigits(NatToString(n));
    DigitsValueOfNatString(n);
  }

  /** `parseInt` on a string that starts with neither white space nor a
      plus sign. */
  lemma ParseIntUntrimmed(s: string)
    requires s != [] && !IsWhitespace(s[0]) && s[0] != '+'
    ensures s[0] == '-' ==> ParseInt(s).None? == ParseUnsigned(s[1..]).None?
    ensures s[0] == '-' && ParseInt(s).Some? ==> ParseInt(s).value == 0 - ParseUnsigned(s[1..]).value as int
    ensures s[0] != '-' ==> ParseInt(s).None? == ParseUnsigned(s).None?
    ensures s[0] != '-' && ParseInt(s).Some? ==> ParseInt(s).value == ParseUnsigned(s).value
  {
    assert TrimStart(s) == s;
  }

  lemma ParseIntOfNatString(n: nat)
    ensures ParseInt(NatToString(n)) == Some(n)
  {
    var d := NatToString(n);
    ParseUnsignedOfNatString(n);
    assert '0' <= d[0] <= '9';
    ParseIntUntrimmed(d);
  }

  lemma ParseIntOfNegativeString(n: nat)
    requires n > 0
    ensures ParseInt("-" + NatToString(n)) == Some(0 - n)
  {
    var s := "-" + NatToString(n);
    ParseUnsignedOfNatString(n);
    assert s[1..] == NatToString(n);
    ParseIntUntrimmed(s);
  }

  /** `parseInt` reads back what `toString` writes. */
  lemma ParseIntRoundTrip(i: int)
    ensures ParseInt(IntToString(i)) == Some(i)
  {
    if i < 0 {
      var n: nat := -i;
      assert IntToString(i) == "-" + NatToString(n);
      ParseIntOfNegativeString(n);
    } else {
      assert IntToString(i) == NatToString(i);
      ParseIntOfNatString(i);
    }
  }

  /** `toString` never maps two numbers to the same text. */
  lemma NatToStringInjective(a: nat, b: nat)
    requires NatToString(a) == NatToString(b)
    ensures a == b
  {
    DigitsValueOfNatString(a);
    DigitsValueOfNatString(b);
  }

  /** `parseInt(id || '1')`: a missing or empty parameter reads as "1",
      which opens topic 1. */
  function TopicId(param: Option<string>): (r: Option<int>)
    ensures param.None? || param == Some("") ==> r == Some(1)
  {
    ParseIntRoundTrip(1);
    ParseInt(if param.None? || param.value == "" then "1" else param.value)
  }

  /** Leading white space is skipped. */
  lemma ParseIntSkipsBlank(s: string)
    requires s != [] && IsWhitespace(s[0])
    ensures ParseInt(s) == ParseInt(s[1..])
  {
    assert TrimStart(s) == TrimStart(s[1..]);
  }

  /** Reading stops at the first character that is not a digit. */
  lemma ParseIntStopsAtJunk()
    ensures ParseInt("12abc") == Some(12)
  {
    ParseIntUntrimmed("12abc");
    ParseUnsignedDecimal("12abc");
    assert DigitsLength("12abc", 10) == 2 by {
      assert "12abc"[1..] == "2abc";
      assert "2abc"[1..] == "abc";
    }
    assert "12abc"[..2] == "12";
    assert DigitsValue("12", 10) == 12 by {
      assert "12"[..1] == "1";
      assert "1"[..0] == "";
    }
  }

  /** Leading blanks are skipped and trailing junk ignored. */
  lemma TopicIdLenient()
    ensures TopicId(Some(" 12abc")) == Some(12)
  {
    ParseIntSkipsBlank(" 12abc");
    assert " 12abc"[1..] == "12abc";
    ParseIntStopsAtJunk();
  }

  /** A hexadecimal parameter is read in radix 16. */
  lemma TopicIdHex()
    ensures TopicId(Some("0x1A")) == Some(26)
  {
    var u := "0x1A";
    ParseIntUntrimmed(u);
    ParseUnsignedHex(u);
    assert u[2..] == "1A";
    assert DigitsLength("1A", 16) == 2 by {
      assert "1A"[1..] == "A";
      assert "A"[1..] == "";
    }
    assert "1A"[..2] == "1A";
    assert DigitsValue("1A", 16) == 26 by {
      assert "1A"[..1] == "1";
      assert "1"[..0] == "";
    }
  }

  /** A parameter without digits is NaN, which matches no topic. */
  lemma TopicIdNaN(topics: seq<Topic>)
    ensures TopicId(Some("abc")) == None
    ensures Route(topics, Some("abc")) == NotFound
  {
    assert TrimStart("abc") == "abc";
    assert DigitsLength("abc", 10) == 0;
  }

  /** The index of the first topic with the id; NaN matches nothing. */
  function FindIndex(topics: seq<Topic>, id: Option<int>): (r: Option<nat>)
    ensures r.None? <==> (id.None? || forall k :: 0 <= k < |topics| ==> topics[k].id != id.value)
    ensures r.Some? ==> (&& r.value < |topics| && id.Some? && topics[r.value].id == id.value
                         && forall k :: 0 <= k < r.value ==> topics[k].id != id.value)
  {
    if id.None? || topics == [] then None
    else if topics[0].id == id.value then Some(0)
    else
      var rest := FindIndex(topics[1..], id);
      assert forall k :: 1 <= k < |topics| ==> topics[k] == topics[1..][k - 1];
      if rest.None? then None else Some(rest.value + 1)
  }

  /** What the page shows. */
  datatype Page = NotFound | TopicPage(topic: Topic)

  /** `anesthesiaTopics.find(t => t.id === topicId)` and the not-found
      branch: the first topic with the parsed id, if any. */
  function Route(topics: seq<Topic>, param: Option<string>): (p: Page)
    ensures p.TopicPage? ==> (exists k :: 0 <= k < |topics| && topics[k] == p.topic) && TopicId(param) == Some(p.topic.id)
    ensures p.NotFound? <==> TopicId(param).None? || forall k :: 0 <= k < |topics| ==> topics[k].id != TopicId(param).value
  {
    var k := FindIndex(topics, TopicId(param));
    if k.None? then NotFound else TopicPage(topics[k.value])
  }

  /** A topic is reachable at the path its search hit links to. */
  lemma RouteFindsTopicById(topics: seq<Topic>, k: nat)
    requires k < |topics|
    requires forall j :: 0 <= j < |topics| && j != k ==> topics[j].id != topics[k].id
    ensures Route(topics, Some(IntToString(topics[k].id))) == TopicPage(topics[k])
  {
    ParseIntRoundTrip(topics[k].id);
    assert IntToString(topics[k].id) != "" by { assert |IntToString(topics[k].id)| >= 1; }
  }

  /** `subtopic-${index}` */
  function SubtopicKey(index: nat): string {
    "subtopic-" + NatToString(index)
  }

  /** Distinct subtopics have distinct keys. */
  lemma SubtopicKeysDistinct(i: nat, j: nat)
    requires i != j
    ensures SubtopicKey(i) != SubtopicKey(j)
  {
    if SubtopicKey(i) == SubtopicKey(j) {
      assert SubtopicKey(i)[9..] == NatToString(i);
      assert SubtopicKey(j)[9..] == NatToString(j);
      NatToStringInjective(i, j);
    }
  }

  /** `expanded[k] !== false`: a subtopic never toggled is open. */
  predicate IsExpanded(expanded: map<string, bool>, k: string)
    ensures k !in expanded ==> IsExpanded(expanded, k)
    ensures k in expanded ==> (IsExpanded(expanded, k) <==> expanded[k])
  {
    !(k in expanded && expanded[k] == false)
  }

  /** `toggleSubtopic` as written: `{...prev, [k]: !prev[k]}`, where a
      missing entry is `undefined` and its negation `true`. */
  function ToggleSubtopic(expanded: map<string, bool>, k: string): (r: map<string, bool>)
    ensures k in r && r[k] == !(k in expanded && expanded[k])
    ensures forall j :: j != k ==> (j in r <==> j in expanded)
    ensures forall j :: j != k && j in expanded ==> r[j] == expanded[j]
  {
    expanded[k := !(k in expanded && expanded[k])]
  }

  /** Toggling one subtopic leaves every other one as it was shown. */
  lemma ToggleSubtopicOnlyThatKey(expanded: map<string, bool>, k: string, j: string)
    requires j != k
    ensures IsExpanded(ToggleSubtopic(expanded, k), j) == IsExpanded(expanded, j)
  {
  }

  /** Once a subtopic has an entry, every click flips it. */
  lemma ToggleSubtopicFlipsRecorded(expanded: map<string, bool>, k: string)
    requires k in expanded
    ensures IsExpanded(ToggleSubtopic(expanded, k), k) == !IsExpanded(expanded, k)
  {
  }

  /** The first click on a subtopic shown open leaves it open: it records
      `true`; only the second click closes it. */
  lemma FirstClickKeepsSubtopicOpen(k: string)
    ensures IsExpanded(map[], k)
    ensures IsExpanded(ToggleSubtopic(map[], k), k)
    ensures !IsExpanded(ToggleSubtopic(ToggleSubtopic(map[], k), k), k)
  {
  }

  /** The toggle negating what is shown: `!(prev[k] !== false)`. */
  function ToggleSubtopicFixed(expanded: map<string, bool>, k: string): (r: map<string, bool>)
    ensures IsExpanded(r, k) == !IsExpanded(expanded, k)
    ensures forall j :: j != k ==> (j in r <==> j in expanded)
    ensures forall j :: j != k && j in expanded ==> r[j] == expanded[j]
  {
    expanded[k := !IsExpanded(expanded, k)]
  }

  /** With the fix, every click flips what is shown, the first included. */
  lemma FixedClicksAlternate(expanded: map<string, bool>, k: string)
    ensures IsExpanded(ToggleSubtopicFixed(expanded, k), k) != IsExpanded(expanded, k)
    ensures IsExpanded(ToggleSubtopicFixed(ToggleSubtopicFixed(expanded, k), k), k) == IsExpanded(expanded, k)
  {
  }

  /** The page for one route. */
  class TopicDetailPage {
    const page: Page
    var expandedSubtopics: map<string, bool>

    constructor (topics: seq<Topic>, param: Option<string>)
      ensures page == Route(topics, param)
      ensures expandedSubtopics == map[]
    {
      page := Route(topics, param);
      expandedSubtopics := map[];
    }

    /** Whether subtopic `index` is shown open. */
    predicate SubtopicOpen(index: nat)
      reads this
    {
      IsExpanded(expandedSubtopics, SubtopicKey(index))
    }

    /** `onOpenChange` of subtopic `index`. */
    method ToggleSubtopicAt(index: nat)
      modifies this
      ensures expandedSubtopics == ToggleSubtopic(old(expandedSubtopics), SubtopicKey(index))
      ensures forall j: nat :: j != index ==> (SubtopicOpen(j) <==> old(SubtopicOpen(j)))
    {
      var k := SubtopicKey(index);
      forall j: nat | j != index ensures SubtopicKey(j) != k {
        SubtopicKeysDistinct(j, index);
      }
      expandedSubtopics := expandedSubtopics[k := !(k in expandedSubtopics && expandedSubtopics[k])];
    }
  }
}
