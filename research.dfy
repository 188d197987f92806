/**
 * The research-article agent: the state it threads through its five stages
 * (search, curate, write, critique, revise), the routing predicate and the
 * state channel's reducer. Every stage is a pure function from the current
 * state and the collaborator's answer to the next state.
 */
module Research {
  import opened Results
  import opened JsText
  import opened JsonValues

  /** One retrieved document: the `metadata.source` URL and the page content. */
  datatype Document = Document(source: string, content: string)

  /** The agent state; `None` is a field that is undefined. */
  datatype AgentState = AgentState(
    topic: string,
    searchResults: Option<seq<Document>>,
    article: Option<string>,
    critique: Option<string>)

  /** Queries shorter than this (in UTF-16 code units) are padded before retrieval. */
  const MinQueryLength: nat := 5
  const QueryPrefix: string := "topic: "
  /** Number of documents requested from the retriever. */
  const RetrievalCount: nat := 10
  /** The critic's acceptance token. */
  const DoneSentinel: string := "[DONE]"
  const EndRoute: string := "end"
  const ContinueRoute: string := "continue"
  /** Wording around the previous critique in the critic's feedback instructions. */
  const FeedbackLead: string := "The writer has revised the article based on your previous critique: "
  const FeedbackTail: string := " The writer might have left feedback for you encoded between <FEEDBACK> tags. The feedback is only for you to see and will be removed from the final article. "

  lemma PrefixLength()
    ensures Utf16Length(QueryPrefix) == 7
  {
    Utf16LengthBmp(QueryPrefix);
  }

  // ---------------------------------------------------------------- Search

  /** The query sent to the retriever: short topics get the fixed prefix, others go unchanged. */
  function SearchQuery(topic: string): (q: string)
    ensures Utf16Length(topic) < MinQueryLength ==> q == QueryPrefix + topic
    ensures Utf16Length(topic) >= MinQueryLength ==> q == topic
    ensures IsSuffix(topic, q) && |topic| <= |q|
    ensures Utf16Length(q) >= MinQueryLength
  {
    if Utf16Length(topic) < MinQueryLength then
      PrefixLength();
      Utf16LengthConcat(QueryPrefix, topic);
      QueryPrefix + topic
    else
      topic
  }

  /** Search: asks the retriever for the normalised query and stores the answer; nothing else changes. */
  function Search(s: AgentState, retrieve: (string, nat) -> seq<Document>): (r: AgentState)
    ensures r.searchResults == Some(retrieve(SearchQuery(s.topic), RetrievalCount))
    ensures r.topic == s.topic && r.article == s.article && r.critique == s.critique
  {
    s.(searchResults := Some(retrieve(SearchQuery(s.topic), RetrievalCount)))
  }

  // ---------------------------------------------------------------- Curate

  /** Why curation throws. */
  datatype CurateError =
    | ReplyNotJson       // `JSON.parse` of the editor's reply throws
    | ReplyIsNull        // the reply parses to null, so reading `.urls` throws
    | NoSearchResults    // `searchResults` is undefined, so parsing it throws
    | UrlsNotSearchable  // `urls` has no `includes` method (undefined, number, object, ...)

  /** `urls.includes` exists: only arrays and strings have it among JSON values. */
  predicate Searchable(urls: Option<Json>): (r: bool)
    ensures urls.None? || urls.value.JNull? || urls.value.JBool? || urls.value.JNum? || urls.value.JObj? ==> !r
    ensures urls.Some? && (urls.value.JArr? || urls.value.JStr?) ==> r
  {
    urls.Some? && (urls.value.JArr? || urls.value.JStr?)
  }

  /** `urls.includes(source)`: element equality on an array, substring search on a string. */
  predicate Listed(urls: Option<Json>, source: string): (r: bool)
    ensures r ==> Searchable(urls)
    ensures urls.Some? && urls.value.JArr? ==> (r <==> JStr(source) in urls.value.items)
    ensures urls.Some? && urls.value.JStr? ==> (r <==> IsSubstring(source, urls.value.s))
  {
    match urls
    case Some(JArr(items)) => JStr(source) in items
    case Some(JStr(text)) => Includes(text, source)
    case _ => false
  }

  /** `a` is `b` with some elements dropped and the rest kept in order. */
  ghost predicate IsSubsequence<T>(a: seq<T>, b: seq<T>)
    decreases |b|
  {
    a == [] || (b != [] && ((a[0] == b[0] && IsSubsequence(a[1..], b[1..])) || IsSubsequence(a, b[1..])))
  }

  lemma {:induction false} SubsequenceLength<T>(a: seq<T>, b: seq<T>)
    requires IsSubsequence(a, b)
    ensures |a| <= |b|
    decreases |b|
  {
    if a != [] {
      if a[0] == b[0] && IsSubsequence(a[1..], b[1..]) {
        SubsequenceLength(a[1..], b[1..]);
      } else {
        SubsequenceLength(a, b[1..]);
      }
    }
  }

  /** The documents whose source `urls.includes`, in their original order and multiplicity. */
  function KeepListed(docs: seq<Document>, urls: Option<Json>): (kept: seq<Document>)
    ensures forall d :: multiset(kept)[d] == if Listed(urls, d.source) then multiset(docs)[d] else 0
    ensures forall d :: d in kept <==> d in docs && Listed(urls, d.source)
    ensures IsSubsequence(kept, docs)
    ensures (forall d :: d in docs ==> Listed(urls, d.source)) ==> kept == docs
  {
    if docs == [] then []
    else
      assert docs == [docs[0]] + docs[1..];
      if Listed(urls, docs[0].source) then [docs[0]] + KeepListed(docs[1..], urls)
      else KeepListed(docs[1..], urls)
  }

  /** Curate: keeps the retrieved documents whose source the editor listed; nothing else changes. */
  function Curate(s: AgentState, reply: Option<Json>): (r: Result<AgentState, CurateError>)
    ensures reply.None? ==> r == Failure(ReplyNotJson)
    ensures reply == Some(JNull) ==> r == Failure(ReplyIsNull)
    ensures reply.Some? && reply.value != JNull && s.searchResults.None? ==> r == Failure(NoSearchResults)
    ensures reply.Some? && reply.value != JNull && s.searchResults.Some? ==>
      (r == Failure(UrlsNotSearchable) <==>
         s.searchResults.value != [] && !Searchable(Urls(reply.value)))
    ensures r.Success? <==>
      && reply.Some? && reply.value != JNull && s.searchResults.Some?
      && (s.searchResults.value == [] || Searchable(Urls(reply.value)))
    ensures r.Success? ==> r.value.searchResults == Some(KeepListed(s.searchResults.value, Urls(reply.value)))
    ensures r.Success? ==>
      var urls := Urls(reply.value);
      var docs := s.searchResults.value;
      && r.value.topic == s.topic && r.value.article == s.article && r.value.critique == s.critique
      && r.value.searchResults.Some?
      && IsSubsequence(r.value.searchResults.value, docs)
      && |r.value.searchResults.value| <= |docs|
      && (forall d :: d in r.value.searchResults.value <==> d in docs && Listed(urls, d.source))
  {
    match reply
    case None => Failure(ReplyNotJson)
    case Some(parsed) =>
      if parsed == JNull then Failure(ReplyIsNull)
      else
        var urls := Urls(parsed);
        match s.searchResults
        case None => Failure(NoSearchResults)
        case Some(docs) =>
          if docs != [] && !Searchable(urls) then Failure(UrlsNotSearchable)
          else
            var kept := KeepListed(docs, urls);
            SubsequenceLength(kept, docs);
            Success(s.(searchResults := Some(kept)))
  }

  // ---------------------------------------------------------------- Write and Revise

  /** Write: the writer's reply becomes the article; nothing else changes. */
  function Write(s: AgentState, reply: string): (r: AgentState)
    ensures r.article == Some(reply)
    ensures r.topic == s.topic && r.searchResults == s.searchResults && r.critique == s.critique
  {
    s.(article := Some(reply))
  }

  /** Revise: the editor's reply replaces the article; the critique it answered stays. */
  function Revise(s: AgentState, reply: string): (r: AgentState)
    ensures r.article == Some(reply)
    ensures r.topic == s.topic && r.searchResults == s.searchResults && r.critique == s.critique
  {
    s.(article := Some(reply))
  }

  // ---------------------------------------------------------------- Critique

  /** JavaScript truthiness of an optional string: defined and non-empty. */
  predicate Truthy(v: Option<string>): (r: bool)
    ensures v.None? ==> !r
    ensures v == Some("") ==> !r
    ensures v.Some? && |v.value| > 0 ==> r
  {
    v.Some? && v.value != ""
  }

  /** The extra instructions given to the critic: empty unless a truthy previous critique exists. */
  function FeedbackInstructions(previous: Option<string>): (text: string)
    ensures text != "" <==> Truthy(previous)
    ensures Truthy(previous) ==> IsSubstring(previous.value, text)
  {
    if Truthy(previous) then
      InfixIsSubstring(FeedbackLead, previous.value, FeedbackTail);
      FeedbackLead + previous.value + FeedbackTail
    else
      ""
  }

  /** Critique: the critic's reply becomes the critique, which is cleared when the reply contains the sentinel. */
  function Critique(s: AgentState, reply: string): (r: AgentState)
    ensures r.critique.None? <==> IsSubstring(DoneSentinel, reply)
    ensures r.critique.Some? ==> r.critique.value == reply
    ensures r.topic == s.topic && r.searchResults == s.searchResults && r.article == s.article
  {
    s.(critique := if Includes(reply, DoneSentinel) then None else Some(reply))
  }

  // ---------------------------------------------------------------- Routing and the state channel

  /** The loop predicate: "end" exactly when there is no critique. */
  function ShouldContinue(s: AgentState): (route: string)
    ensures route == EndRoute <==> s.critique.None?
    ensures route == ContinueRoute <==> s.critique.Some?
  {
    if s.critique.None? then EndRoute else ContinueRoute
  }

  /** The channel's reducer: the newer state replaces the older one. */
  function Reduce(current: AgentState, update: AgentState): (r: AgentState)
    ensures r == update
  {
    update
  }

  /** The channel's default: an empty topic and every optional field undefined. */
  function DefaultState(): (r: AgentState)
    ensures r.topic == "" && r.searchResults.None? && r.article.None? && r.critique.None?
  {
    AgentState("", None, None, None)
  }

  /** The channel's value after a series of node updates, each folded in with the reducer. */
  function ApplyUpdates(current: AgentState, updates: seq<AgentState>): AgentState
    decreases |updates|
  {
    if updates == [] then current else ApplyUpdates(Reduce(current, updates[0]), updates[1..])
  }

  /** Last writer wins: the channel holds the latest update, or its start value when there was none. */
  lemma {:induction false} LastWriterWins(current: AgentState, updates: seq<AgentState>)
    ensures ApplyUpdates(current, updates) == if updates == [] then current else updates[|updates| - 1]
    decreases |updates|
  {
    if updates != [] {
      LastWriterWins(Reduce(current, updates[0]), updates[1..]);
    }
  }

  // ---------------------------------------------------------------- Properties across stages

  /** The critique stage and the loop predicate agree: "end" exactly when the reply holds the sentinel. */
  lemma CritiqueDecidesRoute(s: AgentState, reply: string)
    ensures ShouldContinue(Critique(s, reply)) == EndRoute <==> Includes(reply, DoneSentinel)
    ensures ShouldContinue(Critique(s, reply)) == ContinueRoute <==> !Includes(reply, DoneSentinel)
  {
  }

  /** An empty critic reply is kept as a critique: the loop continues, yet the next critic gets no instructions. */
  lemma EmptyCritiqueContinuesUninstructed(s: AgentState)
    ensures Critique(s, "").critique == Some("")
    ensures ShouldContinue(Critique(s, "")) == ContinueRoute
    ensures FeedbackInstructions(Critique(s, "").critique) == ""
  {
  }

  /** Critiquing again replaces the earlier verdict: only the latest reply matters. */
  lemma CritiqueLatestReplyWins(s: AgentState, first: string, second: string)
    ensures Critique(Critique(s, first), second) == Critique(s, second)
  {
  }

  /** Revising never changes the routing decision. */
  lemma ReviseKeepsRoute(s: AgentState, reply: string)
    ensures ShouldContinue(Revise(s, reply)) == ShouldContinue(s)
  {
  }

  /** A two-character topic is sent as "topic: " followed by the topic. */
  lemma ShortTopicQuery()
    ensures SearchQuery("AI") == "topic: AI"
  {
    Utf16LengthBmp("AI");
  }

  /** A five-character topic is sent unchanged. */
  lemma LongTopicQuery()
    ensures SearchQuery("Dafny") == "Dafny"
  {
    Utf16LengthBmp("Dafny");
  }

  /** Three characters outside the Basic Multilingual Plane count six code units, so the topic is not padded. */
  lemma AstralTopicQuery()
    ensures SearchQuery("\U{1F600}\U{1F600}\U{1F600}") == "\U{1F600}\U{1F600}\U{1F600}"
  {
    var t := "\U{1F600}\U{1F600}\U{1F600}";
    assert Utf16Length(t) == 6;
  }
}
