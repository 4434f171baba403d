/** What holds of every run of the builder. */
module BuilderTheorems {
  import opened Wrappers
  import opened Json
  import opened Workflow
  import Text
  import opened ModelPick
  import opened Flow
  import opened BuilderSpec
  import opened BuilderRuns
  import opened BuilderInvariant
  import BuilderLaws

  // ----- the theorems about whole runs

  /** The turn's end stored and asked the question to test exactly this copy, and the next reply was yes. */
  ghost predicate AskedAndAnswered(end: End, next: Start, n: Node) {
    && end.stored.Some? && end.ask.Some? && Fits(end.stored.value, end.ask.value)
    && var q := end.stored.value;
    && !q.modelPick && !q.skipOnly && q.nodeId == n.id && q.nodeId != FINISH && q.hash == NodeHash(n)
    && next.asked == end.stored && next.reply == Yes
  }

  /**
   * A write node reaches the backend only in the turn right after a question about exactly that
   * node and hash was stored and sent, and only on a plain yes; no yes pays for two tests.
   */
  lemma WriteTestsAreConsented(rules: Rules, steps: seq<Step>, i: nat)
    requires i < |Run(rules, steps).sends| && NeedsYes(rules, Run(rules, steps).sends[i].node)
    ensures var w := Run(rules, steps);
      var s := w.sends[i];
      && 0 < s.turn < |w.starts| && s.turn - 1 < |w.ends|
      && AskedAndAnswered(w.ends[s.turn - 1], w.starts[s.turn], s.node)
      && forall j | 0 <= j < |w.sends| && j != i && NeedsYes(rules, w.sends[j].node) :: w.sends[j].turn != s.turn
  {
    hide NodeHash, KindOf, NeedsYes, Fits;
    InvHolds(rules, steps);
    var w := Run(rules, steps);
    forall j | 0 <= j < |w.sends| { KindTable(rules, w.sends[j].node); }
    assert Consents(w.starts[w.sends[i].turn], w.sends[i].node.id, NodeHash(w.sends[i].node));
  }

  /**
   * Step k is a finish call in the turn before t. At that call the validator had no finding and every
   * node was done, for a reason that was on record by then; and the nodes, by id and hash, and the
   * edges were those turn t came with.
   */
  ghost predicate FinishedAt(rules: Rules, steps: seq<Step>, k: nat, t: nat)
    requires t < |Run(rules, steps).starts|
  {
    && k < |steps| && steps[k] == CallFinish
    && var before, start := Run(rules, steps[..k]), Run(rules, steps).starts[t];
    && before.turn.Some? && Current(before) == t - 1
    && var now := before.turn.value;
    && HashedNodes(now.nodes) == HashedNodes(start.nodes) && HashedEdges(now.edges) == HashedEdges(start.edges)
    && rules.validate(now.nodes, now.edges) == []
    && (forall n | n in now.nodes ::
        NodeStatus(n, before.session) in {Success, Skipped, Passed} && !Unkeyed(n) && Earned(rules, before, n))
  }

  /**
   * A turn completes the workflow only on a yes to a finish call in the turn right before that found
   * no finding and every node done: tested with success, for a write node after the user's yes to that
   * very copy; skipped, for a write node by the user; or unchanged since the last completion or the first turn.
   */
  lemma DoneWasFinished(rules: Rules, steps: seq<Step>, t: nat)
    requires t < |Run(rules, steps).starts| && Run(rules, steps).starts[t].done
    ensures Run(rules, steps).starts[t].reply == Yes && exists k: nat :: FinishedAt(rules, steps, k, t)
  {
    hide NodeHash, HashedNodes, HashedEdges, Run;
    InvHolds(rules, steps);
    var w := Run(rules, steps);
    assert Completes(w.starts[t]);
    var q := w.starts[t].asked.value;
    assert w.ends[t - 1].stored == Some(q) && q.hash.WorkflowDigest?;
    var i :| 0 <= i < |w.passings| && w.passings[i].turn == t - 1
      && WorkflowHash(w.passings[i].nodes, w.passings[i].edges) == q.hash;
    var p := w.passings[i];
    assert WorkflowHash(p.nodes, p.edges) == WorkflowHash(w.starts[t].nodes, w.starts[t].edges);
    var k := CallOf(rules, steps, i);
    FinishedHere(rules, steps, k, t, p);
  }

  ghost predicate Logged(rules: Rules, steps: seq<Step>, k: nat, p: Passing) {
    && k < |steps| && steps[k] == CallFinish
    && var w := Run(rules, steps[..k]);
    && w.turn.Some? && p == Passing(Current(w), w.turn.value.nodes, w.turn.value.edges)
    && Finish(rules, w.turn.value, w.session).1.AskedToFinish?
  }

  lemma PassingsAfter(rules: Rules, w: World, step: Step)
    requires Frame(w)
    ensures var w' := Apply(rules, w, step);
      || w'.passings == w.passings
      || (step == CallFinish && w.turn.Some? && Finish(rules, w.turn.value, w.session).1.AskedToFinish?
          && w'.passings == w.passings + [Passing(Current(w), w.turn.value.nodes, w.turn.value.edges)])
  {
    hide StartTest, FinishTest, Finish, Close, Judge, NodeHash, WorkflowHash, AttemptOf;
  }

  /** Every passing finish call on record was a step of the run. */
  lemma {:induction false} CallOf(rules: Rules, steps: seq<Step>, i: nat) returns (k: nat)
    requires i < |Run(rules, steps).passings|
    ensures Logged(rules, steps, k, Run(rules, steps).passings[i])
  {
    if steps == [] { NoRun(rules); }
    hide Apply, Finish, Run;
    var init := steps[..|steps| - 1];
    RunFrame(rules, init);
    LastStep(rules, steps);
    PassingsAfter(rules, Run(rules, init), steps[|init|]);
    if i < |Run(rules, init).passings| {
      k := CallOf(rules, init, i);
      assert steps[..k] == init[..k];
    } else {
      k := |init|;
      assert steps[..k] == init;
    }
  }

  lemma FinishedHere(rules: Rules, steps: seq<Step>, k: nat, t: nat, p: Passing)
    requires t < |Run(rules, steps).starts| && Logged(rules, steps, k, p) && p.turn == t - 1
    requires HashedNodes(p.nodes) == HashedNodes(Run(rules, steps).starts[t].nodes)
    requires HashedEdges(p.edges) == HashedEdges(Run(rules, steps).starts[t].edges)
    ensures FinishedAt(rules, steps, k, t)
  {
    hide NodeHash, HashedNodes, HashedEdges, Run, Finish, Earned, Unkeyed, NodeStatus, ExcusedAt,
      SkipAnswered, NeedsYes, Listens;
    var w := Run(rules, steps[..k]);
    FinishFacts(rules, w.turn.value, w.session);
    forall n | n in w.turn.value.nodes ensures Earned(rules, w, n) {
      StatusesAreEarned(rules, steps[..k], n);
    }
  }

  /** Status and evidence depend on id and hash alone. */
  lemma SameHashSameStatus(rules: Rules, w: World, n: Node, m: Node)
    requires n.id == m.id && NodeHash(n) == NodeHash(m) && Earned(rules, w, n)
    ensures NodeStatus(m, w.session) == NodeStatus(n, w.session) && Earned(rules, w, m)
  {
    hide NodeHash, SuccessSeen, SkipAnswered, MissingSeen, NeedsYes, Listens, BaseTurn;
    SameHashSameTable(rules, m, n);
  }

  /** So each node of a completed workflow, in the shape the user completed, was done at that finish call. */
  lemma EveryNodeWasDone(rules: Rules, steps: seq<Step>, t: nat, m: Node)
    requires t < |Run(rules, steps).starts| && Run(rules, steps).starts[t].done
    requires m in Run(rules, steps).starts[t].nodes
    ensures exists k: nat :: FinishedAt(rules, steps, k, t) && DoneIn(rules, Run(rules, steps[..k]), m)
  {
    hide NodeHash, HashedNodes, HashedEdges, Run, Earned, NodeStatus, Unkeyed;
    DoneWasFinished(rules, steps, t);
    var k: nat :| FinishedAt(rules, steps, k, t);
    var w := Run(rules, steps[..k]);
    HashedNodesHas(Run(rules, steps).starts[t].nodes, m);
    HashedNodesFrom(w.turn.value.nodes, m.id, NodeHash(m));
    var n :| n in w.turn.value.nodes && n.id == m.id && NodeHash(n) == NodeHash(m);
    SameHashSameStatus(rules, w, n, m);
    assert DoneIn(rules, w, m);
  }

  ghost predicate DoneIn(rules: Rules, w: World, n: Node) {
    NodeStatus(n, w.session) in {Success, Skipped, Passed} && Earned(rules, w, n)
  }

  /**
   * Step k is the backend's answer to a test of a copy of n: samples of some nodes were missing, and
   * every one of them was in the working copy at that moment, and skipped.
   */
  ghost predicate ExcusedAt(rules: Rules, steps: seq<Step>, k: nat, n: Node) {
    && k < |steps| && steps[k].EndTest? && steps[k].answer.SampleMissing? && steps[k].answer.missing != []
    && var before, sent := Run(rules, steps[..k]), steps[k].send;
    && before.turn.Some? && sent in before.flying && sent < |before.sends|
    && before.sends[sent].node.id == n.id && NodeHash(before.sends[sent].node) == NodeHash(n)
    && forall m | m in steps[k].answer.missing :: WasSkipped(before.turn.value.nodes, before.session, m)
  }

  /**
   * At any moment: a success was answered by the backend, for a write node after the user's yes; a
   * passed node is unchanged; a skipped node was skipped by the user, or is a listening trigger, or is
   * no write node and was excused by skipped nodes upstream in some step of the run.
   */
  lemma StatusesAreEarned(rules: Rules, steps: seq<Step>, n: Node)
    ensures Earned(rules, Run(rules, steps), n)
    ensures var w := Run(rules, steps);
      NodeStatus(n, w.session) == Skipped && !SkipAnswered(w, n.id, NodeHash(n)) && !Listens(rules, n) ==>
        !NeedsYes(rules, n) && exists k: nat :: ExcusedAt(rules, steps, k, n)
  {
    hide NodeHash, NeedsYes, Listens, SkipAnswered, Run, WasSkipped, Unchanged, SuccessSeen;
    InvHolds(rules, steps);
    var w := Run(rules, steps);
    EarnedFromTests(rules, w, n);
    if NodeStatus(n, w.session) == Skipped && !SkipAnswered(w, n.id, NodeHash(n)) && !Listens(rules, n) {
      var i: nat :| AnsweredAt(w, i, n.id, NodeHash(n)) && Excused(w.seen[i]);
      var k := AnswerOf(rules, steps, i);
      ExcusedHere(rules, steps, i, k, n);
    }
  }

  /** Step k brought answer i. */
  ghost predicate Brought(rules: Rules, steps: seq<Step>, k: nat, seen: Seen) {
    && k < |steps| && steps[k] == EndTest(seen.send, seen.answer)
    && var w := Run(rules, steps[..k]);
    && w.turn.Some? && seen.send in w.flying && seen.send < |w.sends|
    && seen.nodes == w.turn.value.nodes && seen.session == w.session
    && w.sends <= Run(rules, steps).sends
  }

  lemma SeenAfter(rules: Rules, w: World, step: Step)
    requires Frame(w)
    ensures var w' := Apply(rules, w, step);
      && w.sends <= w'.sends
      && (|| w'.seen == w.seen
          || (step.EndTest? && w.turn.Some? && step.send in w.flying && step.send < |w.sends|
              && w'.seen == w.seen + [Seen(step.send, step.answer, w.turn.value.nodes, w.session)]))
  {
    hide StartTest, FinishTest, Finish, Close, Judge, NodeHash, WorkflowHash, Attempts;
  }

  lemma NoRun(rules: Rules)
    ensures Run(rules, []) == INITIAL
  {
  }

  /** Every answer on record was a step of the run. */
  lemma {:induction false} AnswerOf(rules: Rules, steps: seq<Step>, i: nat) returns (k: nat)
    requires i < |Run(rules, steps).seen|
    ensures Brought(rules, steps, k, Run(rules, steps).seen[i])
  {
    if steps == [] { NoRun(rules); }
    hide Apply, Run;
    var init := steps[..|steps| - 1];
    RunFrame(rules, init);
    LastStep(rules, steps);
    SeenAfter(rules, Run(rules, init), steps[|init|]);
    if i < |Run(rules, init).seen| {
      k := AnswerOf(rules, init, i);
      assert steps[..k] == init[..k];
    } else {
      k := |init|;
      assert steps[..k] == init;
    }
  }

  lemma ExcusedHere(rules: Rules, steps: seq<Step>, i: nat, k: nat, n: Node)
    requires var w := Run(rules, steps);
      AnsweredAt(w, i, n.id, NodeHash(n)) && Excused(w.seen[i]) && Brought(rules, steps, k, w.seen[i])
    ensures ExcusedAt(rules, steps, k, n)
  {
    hide NodeHash, Run, WasSkipped;
  }

  /** A node without a record that has the hash it was sent with in the baseline's turn is passed. */
  lemma UnchangedIsPassed(rules: Rules, steps: seq<Step>, n: Node, b: nat, i: nat)
    requires var w := Run(rules, steps);
      && n.id !in w.session.tests && BaseTurn(w, b)
      && BuilderLaws.LastOf(w.starts[b].nodes, i, n.id) && NodeHash(w.starts[b].nodes[i]) == NodeHash(n)
    ensures NodeStatus(n, Run(rules, steps).session) == Passed
  {
    hide NodeHash, Run, BaselineOf;
    InvHolds(rules, steps);
    var w := Run(rules, steps);
    var c: nat :| BasedOn(w, c);
    assert b == c;
    BuilderLaws.BaselineHolds(w.starts[b].nodes, n.id);
  }

  /** At most three tests and five lookups a turn, and every backend call is over before the deadline. */
  lemma TurnsStayWithinLimits(rules: Rules, steps: seq<Step>)
    ensures var w := Run(rules, steps);
      && (forall i, j | 0 <= i && i + 3 <= j < |w.sends| :: w.sends[i].turn < w.sends[j].turn)
      && (forall i, j | 0 <= i && i + 5 <= j < |w.lookups| :: w.lookups[i] < w.lookups[j])
      && (forall i | 0 <= i < |w.calls| ::
           w.calls[i].turn < |w.starts| && w.calls[i].at + w.calls[i].bound < w.starts[w.calls[i].turn].deadline)
  {
    InvHolds(rules, steps);
  }

  /**
   * A stored question has its sentence in the response of that turn, and a sentence its stored
   * question unless the session was gone when the turn ended; a stored card carries the hash of the
   * node the user was shown; a question is judged in the next turn or never.
   */
  lemma QuestionsReachTheUser(rules: Rules, steps: seq<Step>, t: nat)
    requires t < |Run(rules, steps).ends|
    ensures var w := Run(rules, steps);
      && (w.ends[t].stored.Some? ==> w.ends[t].ask.Some? && Fits(w.ends[t].stored.value, w.ends[t].ask.value))
      && (!w.ends[t].lost ==> Paired(w.ends[t].stored, w.ends[t].ask))
      && CardOnNode(w.ends[t])
      && (t + 1 < |w.starts| ==> w.starts[t + 1].asked in {None, w.ends[t].stored})
      && (w.turn.Some? ==> Paired(w.turn.value.pending, w.turn.value.ask))
  {
    hide CardOnNode, Fits;
    InvHolds(rules, steps);
  }

  // ----- a card waits

  /** Whatever else is called in the turn, a card that waits keeps waiting until the turn ends. */
  lemma CardStays(rules: Rules, w: World, step: Step)
    requires Frame(w) && w.turn.Some? && w.turn.value.pending.Some? && w.turn.value.pending.value.modelPick
    requires !step.CloseTurn?
    ensures var w' := Apply(rules, w, step);
      w'.turn.Some? && w'.turn.value.pending == w.turn.value.pending && w'.turn.value.ask == w.turn.value.ask
  {
    hide Attempts, NodeHash, WorkflowHash, Upstream, HowToTest, Unkeyed, NodeStatus, OwnErrors, SkippedUpstream;
  }

  // ----- answering a card

  /** The first node with the id has got the choice, the others are as before. */
  ghost predicate PickWritten(nodes: seq<Node>, id: Json, c: Choice, nodes': seq<Node>) {
    exists k: nat :: PickWrittenAt(nodes, id, c, nodes', k)
  }

  ghost predicate PickWrittenAt(nodes: seq<Node>, id: Json, c: Choice, nodes': seq<Node>, k: nat) {
    && k < |nodes| == |nodes'| && nodes[k].id == id && nodes'[k] == ApplyChoice(nodes[k], c)
    && (forall i | 0 <= i < k :: nodes[i].id != id)
    && (forall i | 0 <= i < |nodes| && i != k :: nodes'[i] == nodes[i])
  }

  lemma WrittenHere(nodes: seq<Node>, id: Json, c: Choice)
    requires nodes != [] && nodes[0].id == id
    ensures PickWritten(nodes, id, c, [ApplyChoice(nodes[0], c)] + nodes[1..])
  {
    hide ApplyChoice;
    assert PickWrittenAt(nodes, id, c, [ApplyChoice(nodes[0], c)] + nodes[1..], 0);
  }

  lemma WrittenLater(nodes: seq<Node>, id: Json, c: Choice, rest': seq<Node>)
    requires nodes != [] && nodes[0].id != id && PickWritten(nodes[1..], id, c, rest')
    ensures PickWritten(nodes, id, c, [nodes[0]] + rest')
  {
    var k: nat :| PickWrittenAt(nodes[1..], id, c, rest', k);
    WrittenLaterAt(nodes, id, c, rest', k);
  }

  lemma WrittenLaterAt(nodes: seq<Node>, id: Json, c: Choice, rest': seq<Node>, k: nat)
    requires nodes != [] && nodes[0].id != id && PickWrittenAt(nodes[1..], id, c, rest', k)
    ensures PickWrittenAt(nodes, id, c, [nodes[0]] + rest', k + 1)
  {
    hide ApplyChoice;
    var rest, nodes' := nodes[1..], [nodes[0]] + rest';
    forall i | 0 < i < |nodes| ensures nodes[i] == rest[i - 1] && nodes'[i] == rest'[i - 1] {}
  }

  lemma {:induction false} WithChoiceWrites(nodes: seq<Node>, id: Json, c: Choice)
    requires HasNode(nodes, id)
    ensures PickWritten(nodes, id, c, WithChoice(nodes, id, c))
  {
    hide ApplyChoice, PickWritten;
    if nodes[0].id == id {
      WrittenHere(nodes, id, c);
    } else {
      WithChoiceWrites(nodes[1..], id, c);
      WrittenLater(nodes, id, c, WithChoice(nodes[1..], id, c));
    }
  }

  /**
   * A reply to a card writes the choice it picks into the card's node, if that still has the hash of
   * the card, and changes nothing otherwise.
   */
  lemma ReplyToCard(rules: Rules, s: Session, p: Pending, prompt: string, nodes: seq<Node>, edges: seq<Edge>)
    requires s.pending == Some(p) && p.modelPick
    ensures var j := Judge(rules, s, prompt, nodes, edges);
      var choice, n := MatchChoice(prompt, p.choices), NodeAt(nodes, p.nodeId);
      if choice.Some? && n.Some? && NodeHash(n.value) == p.hash
      then PickWritten(nodes, p.nodeId, choice.value, j.nodes)
      else j.nodes == nodes
  {
    hide NodeHash, WorkflowHash, MatchChoice, ApplyChoice, BaselineOf, IdsOf, PickWritten;
    var choice := MatchChoice(prompt, p.choices);
    if choice.Some? && HasNode(nodes, p.nodeId) { WithChoiceWrites(nodes, p.nodeId, choice.value); }
  }

  /**
   * In any run: a card waits, the user answers with the number of an option, and the card's node
   * still has the hash that was stored. Then the new turn works on the client's nodes with the three
   * model fields of that node set to the option, and nothing else changed. If the node has another
   * hash by now, or is gone, the nodes stay as they are.
   */
  lemma NumberAnswersCard(
    rules: Rules, steps: seq<Step>, i: nat, nodes: seq<Node>, edges: seq<Edge>, now: int)
    requires var w := Run(rules, steps);
      w.turn.None? && w.session.pending.Some? && w.session.pending.value.modelPick
      && i < |w.session.pending.value.choices|
    ensures var w := Run(rules, steps);
      var card := w.session.pending.value;
      var t := Apply(rules, w, Begin(Text.Decimal(card.choices[i].n), nodes, edges, now)).turn;
      var n := NodeAt(nodes, card.nodeId);
      && t.Some?
      && if n.Some? && NodeHash(n.value) == card.hash
         then PickWritten(nodes, card.nodeId, card.choices[i], t.value.nodes)
         else t.value.nodes == nodes
  {
    hide NodeHash, WorkflowHash, MatchChoice, ApplyChoice, Numbered, Frame, Budget, OnTime, Consent, Chained, Tested,
      Based,
      FinishBacked, Questions, Text.Decimal;
    InvHolds(rules, steps);
    var w := Run(rules, steps);
    var card := w.session.pending.value;
    OptionPicksItsChoice(card.choices, i);
    if HasNode(nodes, card.nodeId) {
      WithChoiceWrites(nodes, card.nodeId, card.choices[i]);
    }
  }
}
