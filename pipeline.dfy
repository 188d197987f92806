/**
 * A driver for the research agent: search, curate, write, then critique and
 * revise until the critic accepts or a revision bound is reached. The
 * repository's own graph wiring never expresses this loop (every node name
 * maps to the start node and no conditional edge exists), so this driver and
 * its bound are an addition built on the stage functions, not a port.
 */
module Pipeline {
  import opened Results
  import opened JsText
  import opened JsonValues
  import opened Research

  /** What the external services answer, in call order. */
  datatype Collaborators = Collaborators(
    retrieve: (string, nat) -> seq<Document>,  // the retriever, given a query and a count
    editor: Option<Json>,                      // the parsed reply to the curation request
    writer: string,                            // the first draft
    critic: nat -> string,                     // the reply to the k-th critique call, from 0
    reviser: nat -> string)                    // the reply to the k-th revise call, from 0

  /** How a run ends. */
  datatype RunOutcome =
    | Finished(state: AgentState, revisions: nat)
    | RevisionLimitExceeded(state: AgentState)
    | Aborted(error: CurateError)

  /** The critic accepts the article. */
  predicate Accepts(reply: string) {
    Includes(reply, DoneSentinel)
  }

  /** Critique, then revise while the route says "continue", allowing at most `bound` revisions in all. */
  function ReviewLoop(s: AgentState, c: Collaborators, done: nat, bound: nat): (o: RunOutcome)
    requires done <= bound
    ensures !o.Aborted?
    ensures o.state.topic == s.topic && o.state.searchResults == s.searchResults
    ensures o.Finished? ==>
      && done <= o.revisions <= bound
      && o.state.critique.None?
      && Accepts(c.critic(o.revisions))
      && (forall k :: done <= k < o.revisions ==> !Accepts(c.critic(k)))
    ensures o.RevisionLimitExceeded? ==>
      && o.state.critique == Some(c.critic(bound))
      && (forall k :: done <= k <= bound ==> !Accepts(c.critic(k)))
    decreases bound - done
  {
    var judged := Critique(s, c.critic(done));
    CritiqueDecidesRoute(s, c.critic(done));
    if ShouldContinue(judged) == EndRoute then Finished(judged, done)
    else if done == bound then RevisionLimitExceeded(judged)
    else ReviewLoop(Revise(judged, c.reviser(done)), c, done + 1, bound)
  }

  /** A whole run on a topic, starting from the default state with that topic. */
  function Run(topic: string, c: Collaborators, bound: nat): (o: RunOutcome)
    ensures o.Aborted? <==> Curate(Search(DefaultState().(topic := topic), c.retrieve), c.editor).Failure?
    ensures !o.Aborted? ==> o.state.topic == topic
  {
    var searched := Search(DefaultState().(topic := topic), c.retrieve);
    match Curate(searched, c.editor)
    case Failure(e) => Aborted(e)
    case Success(curated) => ReviewLoop(Write(curated, c.writer), c, 0, bound)
  }

  /** The loop stops at the first accepting critique, with the article of the last revision before it. */
  lemma {:induction false} ReviewLoopStopsAtFirstAccept(s: AgentState, c: Collaborators, done: nat, bound: nat, n: nat)
    requires done <= n <= bound
    requires forall k :: done <= k < n ==> !Accepts(c.critic(k))
    requires Accepts(c.critic(n))
    ensures ReviewLoop(s, c, done, bound).Finished?
    ensures ReviewLoop(s, c, done, bound).revisions == n
    ensures ReviewLoop(s, c, done, bound).state.article == if n == done then s.article else Some(c.reviser(n - 1))
    decreases n - done
  {
    CritiqueDecidesRoute(s, c.critic(done));
    if done < n {
      var next := Revise(Critique(s, c.critic(done)), c.reviser(done));
      ReviewLoopStopsAtFirstAccept(next, c, done + 1, bound, n);
    }
  }

  /** A critic that never accepts stops the loop after exactly `bound` revisions. */
  lemma {:induction false} ReviewLoopReachesBound(s: AgentState, c: Collaborators, done: nat, bound: nat)
    requires done <= bound
    requires forall k :: done <= k <= bound ==> !Accepts(c.critic(k))
    ensures ReviewLoop(s, c, done, bound).RevisionLimitExceeded?
    ensures ReviewLoop(s, c, done, bound).state.article == if bound == done then s.article else Some(c.reviser(bound - 1))
    decreases bound - done
  {
    CritiqueDecidesRoute(s, c.critic(done));
    if done < bound {
      var next := Revise(Critique(s, c.critic(done)), c.reviser(done));
      ReviewLoopReachesBound(next, c, done + 1, bound);
    }
  }

  /** A draft the critic accepts at once is the result, with no revision. */
  lemma RunAcceptsFirstDraft(topic: string, c: Collaborators, bound: nat)
    requires Curate(Search(DefaultState().(topic := topic), c.retrieve), c.editor).Success?
    requires Accepts(c.critic(0))
    ensures Run(topic, c, bound).Finished?
    ensures Run(topic, c, bound).revisions == 0
    ensures Run(topic, c, bound).state.article == Some(c.writer)
  {
    var curated := Curate(Search(DefaultState().(topic := topic), c.retrieve), c.editor).value;
    ReviewLoopStopsAtFirstAccept(Write(curated, c.writer), c, 0, bound, 0);
  }

  /** Two rejecting critiques and then an accepting one make exactly two revisions. */
  lemma RunTwoRevisions(topic: string, c: Collaborators, bound: nat)
    requires bound >= 2
    requires Curate(Search(DefaultState().(topic := topic), c.retrieve), c.editor).Success?
    requires !Accepts(c.critic(0)) && !Accepts(c.critic(1)) && Accepts(c.critic(2))
    ensures Run(topic, c, bound).Finished?
    ensures Run(topic, c, bound).revisions == 2
    ensures Run(topic, c, bound).state.article == Some(c.reviser(1))
  {
    var curated := Curate(Search(DefaultState().(topic := topic), c.retrieve), c.editor).value;
    forall k | 0 <= k < 2 ensures !Accepts(c.critic(k)) {
      assert k == 0 || k == 1;
    }
    assert Run(topic, c, bound) == ReviewLoop(Write(curated, c.writer), c, 0, bound);
    ReviewLoopStopsAtFirstAccept(Write(curated, c.writer), c, 0, bound, 2);
  }

  /** A critic that never accepts ends the run with the revision limit, after `bound` revisions. */
  lemma RunNeverAccepted(topic: string, c: Collaborators, bound: nat)
    requires Curate(Search(DefaultState().(topic := topic), c.retrieve), c.editor).Success?
    requires forall k :: 0 <= k <= bound ==> !Accepts(c.critic(k))
    ensures Run(topic, c, bound).RevisionLimitExceeded?
    ensures Run(topic, c, bound).state.article == if bound == 0 then Some(c.writer) else Some(c.reviser(bound - 1))
  {
    var curated := Curate(Search(DefaultState().(topic := topic), c.retrieve), c.editor).value;
    ReviewLoopReachesBound(Write(curated, c.writer), c, 0, bound);
  }

  /** The documents a finished run holds are the retrieved ones the editor listed, in retrieval order. */
  lemma RunKeepsCuratedDocuments(topic: string, c: Collaborators, bound: nat)
    requires Run(topic, c, bound).Finished?
    ensures
      var docs := c.retrieve(SearchQuery(topic), RetrievalCount);
      var kept := Run(topic, c, bound).state.searchResults;
      && kept.Some?
      && IsSubsequence(kept.value, docs)
      && forall d :: d in kept.value ==> d in docs && Listed(Urls(c.editor.value), d.source)
  {
  }
}
