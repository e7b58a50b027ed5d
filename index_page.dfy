/** The home page of src/pages/Index.tsx: the topic cards narrowed by the
    search box and the three single-open "about" sections. */
module IndexPage {
  import opened Wrappers
  import opened Text
  import opened Lists
  import opened Content
  import SearchEngine
  import Accordion

  /** `filteredTopics`: the topics whose title or description contains the
      lowered term, in catalogue order. */
  function FilteredTopics(topics: seq<Topic>, searchTerm: string): (r: seq<Topic>)
    ensures IsSubsequence(r, topics)
    ensures forall t :: t in r ==> t in topics && SearchEngine.TopicMatches(Lower(searchTerm), t)
    ensures forall t :: t in topics && SearchEngine.TopicMatches(Lower(searchTerm), t) ==> t in r
  {
    FilterIsSubsequence(topics, t => SearchEngine.TopicMatches(Lower(searchTerm), t));
    Filter(topics, t => SearchEngine.TopicMatches(Lower(searchTerm), t))
  }

  /** An empty search box shows every topic. */
  lemma EmptySearchShowsEveryTopic(topics: seq<Topic>)
    ensures FilteredTopics(topics, "") == topics
  {
    forall t | t in topics ensures SearchEngine.TopicMatches(Lower(""), t) {
      ContainsEmpty(Lower(t.title));
    }
    FilterKeepsAll(topics, t => SearchEngine.TopicMatches(Lower(""), t));
  }

  /** The cards and the global search agree on topics: a catalogue topic
      gets a card exactly when the search's topic pass lists that topic's
      own hit (before the ten-result cap). */
  lemma CardsAgreeWithSearch(topics: seq<Topic>, searchTerm: string, t: Topic)
    requires t in topics
    ensures t in FilteredTopics(topics, searchTerm) <==>
      SearchEngine.TopicHit(t) in SearchEngine.TopicsPass(Lower(searchTerm), topics)
  {
    var q := Lower(searchTerm);
    var r := SearchEngine.TopicHit(t);
    SearchEngine.TopicsPassComplete(q, topics);
    if r in SearchEngine.TopicsPass(q, topics) {
      SearchEngine.TopicsPassSound(q, topics);
      assert !SearchEngine.IsSubtopicHitOf(q, topics, r);
      var k :| 0 <= k < |topics| && SearchEngine.TopicMatches(q, topics[k]) && r == SearchEngine.TopicHit(topics[k]);
      assert topics[k].title == t.title && topics[k].description == t.description;
    }
  }

  class HomePage {
    const topics: seq<Topic>
    var searchTerm: string
    var expandedSection: Option<int>

    constructor (topics: seq<Topic>)
      ensures this.topics == topics
      ensures searchTerm == "" && expandedSection == None
      ensures Shown() == topics
    {
      this.topics := topics;
      searchTerm := "";
      expandedSection := None;
      new;
      EmptySearchShowsEveryTopic(topics);
    }

    function Shown(): seq<Topic>
      reads this
    {
      FilteredTopics(topics, searchTerm)
    }

    method SetSearchTerm(value: string)
      modifies this`searchTerm
      ensures searchTerm == value
      ensures Shown() == FilteredTopics(topics, value)
    {
      searchTerm := value;
    }

    /** `toggleSection`: the open section closes, any other opens alone. */
    method ToggleSection(id: int)
      modifies this`expandedSection
      ensures expandedSection == Accordion.Toggle(old(expandedSection), id)
      ensures Accordion.IsOpen(expandedSection, id) <==> !Accordion.IsOpen(old(expandedSection), id)
    {
      if expandedSection == Some(id) {
        expandedSection := None;
      } else {
        expandedSection := Some(id);
      }
    }
  }
}
