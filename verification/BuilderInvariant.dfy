/** The invariant of the builder's runs, kept by every step. */
module BuilderInvariant {
  import opened Wrappers
  import opened Json
  import opened Workflow
  import Text
  import opened ModelPick
  import opened Flow
  import opened BuilderSpec
  import opened BuilderRuns

  // ----- the invariant

  ghost predicate Frame(w: World) {
    && |w.ends| <= |w.starts| && w.first <= |w.starts| && (w.turn.Some? ==> w.first < |w.starts|)
    && (w.turn.None? ==> |w.starts| == |w.ends| && w.flying == {})
    && (w.turn.Some? ==>
        && |w.starts| == |w.ends| + 1 && w.session.pending == None
        && !w.starts[|w.starts| - 1].done && w.turn.value.deadline == w.starts[|w.starts| - 1].deadline)
    && (forall i | 0 <= i < |w.sends| :: w.sends[i].turn < |w.starts|)
    && (forall k | k in w.flying :: k < |w.sends| && w.sends[k].turn == |w.starts| - 1)
  }

  ghost predicate Budget(w: World)
    requires Frame(w)
  {
    && (forall i, j | 0 <= i <= j < |w.sends| :: w.sends[i].turn <= w.sends[j].turn)
    && (forall i, j | 0 <= i && i + MAX_TESTS_PER_TURN <= j < |w.sends| :: w.sends[i].turn < w.sends[j].turn)
    && (forall i | 0 <= i < |w.lookups| :: w.lookups[i] < |w.starts|)
    && (forall i, j | 0 <= i && i + MAX_LOOKUPS_PER_TURN <= j < |w.lookups| :: w.lookups[i] < w.lookups[j])
    && (w.turn.Some? ==>
        var t, cur := w.turn.value, Current(w);
        && t.testRuns <= MAX_TESTS_PER_TURN && t.lookups <= MAX_LOOKUPS_PER_TURN
        && t.testRuns <= |w.sends| && t.lookups <= |w.lookups|
        && (forall i | 0 <= i < |w.sends| :: w.sends[i].turn == cur <==> i >= |w.sends| - t.testRuns)
        && (forall i | 0 <= i < |w.lookups| :: w.lookups[i] == cur <==> i >= |w.lookups| - t.lookups))
  }

  ghost predicate OnTime(w: World) {
    forall i | 0 <= i < |w.calls| ::
      w.calls[i].turn < |w.starts| && w.calls[i].at + w.calls[i].bound < w.starts[w.calls[i].turn].deadline
  }

  ghost predicate Consent(rules: Rules, w: World)
    requires Frame(w)
  {
    && (forall i | 0 <= i < |w.sends| :: w.sends[i].kind == KindOf(rules, w.sends[i].node))
    && (forall i | 0 <= i < |w.sends| && w.sends[i].kind == Write ::
        Consents(w.starts[w.sends[i].turn], w.sends[i].node.id, NodeHash(w.sends[i].node)))
    && (forall i, j | 0 <= i < j < |w.sends| && w.sends[i].kind == Write && w.sends[j].kind == Write ::
        w.sends[i].turn != w.sends[j].turn)
    && (w.turn.Some? ==>
        var t, cur := w.turn.value, Current(w);
        && (t.confirmed.Some? ==> Consents(w.starts[cur], t.confirmed.value.nodeId, t.confirmed.value.hash))
        && (!t.confirmUsed ==> forall i | 0 <= i < |w.sends| && w.sends[i].kind == Write :: w.sends[i].turn != cur))
  }

  /** A question is answered only in the turn right after the one that stored it. */
  ghost predicate Chained(w: World)
    requires Frame(w)
  {
    && (forall t | 0 <= t < |w.starts| && w.starts[t].asked.Some? :: t > 0 && w.ends[t - 1].stored == w.starts[t].asked)
    && (w.turn.None? && w.session.pending.Some? ==> w.ends != [] && w.ends[|w.ends| - 1].stored == w.session.pending)
  }

  ghost predicate Tested(rules: Rules, w: World) {
    forall id | id in w.session.tests :: Backed(rules, w, id, w.session.tests[id])
  }

  /** Where the baseline comes from. */
  ghost predicate Based(w: World) {
    if |w.starts| == w.first then w.session.baseline == None && w.turn.None?
    else exists b: nat :: BasedOn(w, b)
  }

  ghost predicate BasedOn(w: World, b: nat) {
    BaseTurn(w, b) && w.session.baseline == Some(BaselineOf(w.starts[b].nodes))
  }

  ghost predicate PassedIn(w: World, turn: int, h: Digest) {
    exists i ::
      0 <= i < |w.passings| && w.passings[i].turn == turn && WorkflowHash(w.passings[i].nodes, w.passings[i].edges) == h
  }

  /** A stored or held question about a whole workflow comes from a finish call of the same turn. */
  ghost predicate FinishBacked(w: World)
    requires Frame(w)
  {
    && (w.turn.Some? && w.turn.value.pending.Some? && w.turn.value.pending.value.hash.WorkflowDigest? ==>
        PassedIn(w, Current(w), w.turn.value.pending.value.hash))
    && (forall t | 0 <= t < |w.ends| && w.ends[t].stored.Some? && w.ends[t].stored.value.hash.WorkflowDigest? ::
        PassedIn(w, t, w.ends[t].stored.value.hash))
    && (forall t | 0 <= t < |w.starts| && w.starts[t].done :: Completes(w.starts[t]))
  }

  predicate Completes(start: Start) {
    match start.asked
    case None => false
    case Some(p) =>
      && !p.modelPick && p.nodeId == FINISH && start.reply == Yes
      && p.hash == WorkflowHash(start.nodes, start.edges)
  }

  predicate Paired(pending: Option<Pending>, ask: Option<Question>) {
    (pending.Some? <==> ask.Some?) && (pending.Some? ==> Fits(pending.value, ask.value))
  }

  /** Without its session a turn asks a question that nothing stores. */
  predicate PairedEnd(end: End) {
    if end.lost then end.stored == None else Paired(end.stored, end.ask)
  }

  predicate CardOnNode(end: End) {
    end.stored.Some? && end.stored.value.modelPick ==>
      var n := NodeAt(end.nodes, end.stored.value.nodeId);
      n.Some? && NodeHash(n.value) == end.stored.value.hash
  }

  ghost predicate Questions(w: World) {
    && (w.turn.Some? ==> Paired(w.turn.value.pending, w.turn.value.ask))
    && (forall t | 0 <= t < |w.ends| :: PairedEnd(w.ends[t]) && CardOnNode(w.ends[t]))
  }

  ghost predicate GoodCard(p: Option<Pending>) {
    p.Some? && p.value.modelPick ==> 0 < |p.value.choices| <= 9 && Numbered(p.value.choices)
  }

  ghost predicate Cards(w: World) {
    && (w.turn.Some? ==> GoodCard(w.turn.value.pending))
    && GoodCard(w.session.pending)
  }

  ghost predicate Inv(rules: Rules, w: World) {
    && Frame(w) && Budget(w) && OnTime(w) && Consent(rules, w) && Chained(w) && Tested(rules, w)
    && Based(w) && FinishBacked(w) && Questions(w) && Cards(w)
  }

  // ----- what the functions of one turn contribute

  /** A hold changes nothing but the question, and never displaces a card. */
  ghost predicate OnlyHolds(t: TurnState, t': TurnState) {
    && t' == t.(pending := t'.pending, ask := t'.ask)
    && (Paired(t.pending, t.ask) ==> Paired(t'.pending, t'.ask))
  }

  lemma StartTestFacts(rules: Rules, t: TurnState, s: Session, id: Json, now: int)
    ensures var r := StartTest(rules, t, s, id, now);
      && r.session.pending == s.pending && r.session.baseline == s.baseline
      && match r.sent
         case None =>
           && OnlyHolds(t, r.turn)
           && (r.turn.pending == t.pending || (r.turn.pending.Some? && r.turn.pending.value.hash.NodeDigest?))
           && (r.session.tests == s.tests || exists n ::
                n in t.nodes && n.id == id && KindOf(rules, n) == Listen
                && r.session == Record(s, id, Skipped, NodeHash(n)))
         case Some(sent) =>
           && t.testRuns < MAX_TESTS_PER_TURN && now + TEST_TIMEOUT_SECONDS < t.deadline
           && sent.node in t.nodes && sent.node.id == id && sent.kind == KindOf(rules, sent.node) && !Unkeyed(sent.node)
           && r.session.tests == s.tests
           && r.turn == t.(testRuns := t.testRuns + 1, confirmUsed := r.turn.confirmUsed)
           && (if sent.kind == Write
               then t.confirmed == Some(Confirm(id, NodeHash(sent.node))) && !t.confirmUsed && r.turn.confirmUsed
               else r.turn.confirmUsed == t.confirmUsed)
  {
    hide NodeHash, IdsOf, Upstream, KindOf, Unkeyed, NodeStatus, OwnErrors, SkippedUpstream, Hold, OnlyHolds, Paired;
    HoldingNothing(t);
    var n := NodeAt(t.nodes, id);
    if n.Some? {
      HoldingTest(t, id, NodeHash(n.value), true);
      HoldingTest(t, id, NodeHash(n.value), false);
      assert NodeHash(n.value).NodeDigest?;
    }
  }

  lemma HoldingNothing(t: TurnState)
    ensures OnlyHolds(t, t)
  {
  }

  lemma HoldingTest(t: TurnState, id: Json, h: Digest, skipOnly: bool)
    requires h.NodeDigest?
    ensures var p := Pending(false, id, h, skipOnly, []);
      var t' := Hold(t, p, if skipOnly then AskSkip(id) else AskTest(id)).0;
      OnlyHolds(t, t') && (t'.pending == t.pending || t'.pending == Some(p))
  {
  }

  lemma FinishTestFacts(t: TurnState, s: Session, sent: Sending, answer: Answer)
    ensures var r := FinishTest(t, s, sent, answer);
      && OnlyHolds(t, r.turn)
      && (r.turn.pending == t.pending || (r.turn.pending.Some? && r.turn.pending.value.hash.NodeDigest?))
      && (r.session == s
          || (r.session == Record(s, sent.node.id, Skipped, NodeHash(sent.node)) && sent.kind != Write
              && answer.SampleMissing? && answer.missing != []
              && forall m | m in answer.missing :: WasSkipped(t.nodes, s, m))
          || (r.session == Record(s, sent.node.id, Success, NodeHash(sent.node)) && answer == Ran(true))
          || (r.session == Record(s, sent.node.id, Failed, NodeHash(sent.node)) && answer == Ran(false)))
  {
  }

  lemma FinishFacts(rules: Rules, t: TurnState, s: Session)
    ensures var (t', reply) := Finish(rules, t, s);
      && OnlyHolds(t, t')
      && (t' != t ==> reply.AskedToFinish? && t'.pending.value.hash == WorkflowHash(t.nodes, t.edges))
      && (reply.AskedToFinish? ==>
          && rules.validate(t.nodes, t.edges) == []
          && (forall n | n in t.nodes :: Done(NodeStatus(n, s)) && !Unkeyed(n)))
  {
    hide NodeHash, WorkflowHash, NodeStatus, Unkeyed;
  }

  lemma CloseFacts(t: TurnState, s: Session, nodes: seq<Node>, edges: seq<Edge>, failed: bool, lost: bool)
    requires s.pending == None
    ensures var c := Close(t, s, nodes, edges, failed, lost);
      && c.session.tests == s.tests && c.session.baseline == s.baseline
      && (c.response.None? ==> c.session == s)
      && (c.response.Some? ==>
          && c.response.value.nodes == t.nodes
          && (Paired(t.pending, t.ask) ==>
              PairedEnd(End(c.session.pending, c.response.value.ask, t.nodes, failed, lost)))
          && CardOnNode(End(c.session.pending, c.response.value.ask, t.nodes, failed, lost))
          && (c.session.pending.Some? ==> t.pending.Some?)
          && (c.session.pending.Some? ==>
              (c.session.pending == t.pending || c.session.pending.value.hash.NodeDigest?)))
  {
    hide SameShape, SameEdges;
  }

  lemma JudgeFacts(rules: Rules, s: Session, prompt: string, nodes: seq<Node>, edges: seq<Edge>)
    ensures var j := Judge(rules, s, prompt, nodes, edges);
      var start := Start(s.pending, rules.classify(prompt), nodes, edges, j.done, 0);
      && (j.done ==> Completes(start) && j.confirmed == None)
      && (j.confirmed.Some? ==> Consents(start, j.confirmed.value.nodeId, j.confirmed.value.hash))
      && (forall id | id in j.tests ::
          (id in s.tests && j.tests[id] == s.tests[id])
          || (j.tests[id].status == Skipped && Skips(start, id, j.tests[id].hash)))
  {
    hide NodeHash, WorkflowHash, IdsOf, PickedNodes, BaselineOf;
  }

  // ----- every step keeps the invariant

  lemma FrameKept(rules: Rules, w: World, step: Step)
    requires Frame(w)
    ensures Frame(Apply(rules, w, step))
  {
    hide Attempts, StartTest, FinishTest, Finish, Close, Judge, NodeHash, WorkflowHash;
    if w.turn.Some? {
      match step {
        case BeginTest(id, at) => StartTestFacts(rules, w.turn.value, w.session, id, at);
        case EndTest(k, answer) =>
          if k in w.flying {
            FinishTestFacts(w.turn.value, w.session, Sending(w.sends[k].node, w.sends[k].kind), answer);
          }
        case CallFinish => FinishFacts(rules, w.turn.value, w.session);
        case _ =>
      }
    }
  }

  /** Nothing that Budget or Consent speaks about has moved. */
  ghost predicate Idle(w: World, w': World) {
    && w'.sends == w.sends && w'.lookups == w.lookups && w'.starts == w.starts && w'.calls == w.calls
    && (w'.turn.Some? ==>
        && w.turn.Some? && w'.turn.value.testRuns == w.turn.value.testRuns
        && w'.turn.value.lookups == w.turn.value.lookups
        && w'.turn.value.confirmed == w.turn.value.confirmed && w'.turn.value.confirmUsed == w.turn.value.confirmUsed
        && w'.turn.value.deadline == w.turn.value.deadline)
  }

  predicate Moves(step: Step) {
    step.Begin? || step.Lookup? || step.BeginTest? || step.CheckConnection? || step.FetchChoices?
  }

  lemma MostlyIdle(rules: Rules, w: World, step: Step)
    requires Frame(w) && !Moves(step)
    ensures Idle(w, Apply(rules, w, step))
  {
    hide Attempts, StartTest, FinishTest, Finish, Close, Judge, NodeHash, WorkflowHash;
    if w.turn.Some? {
      match step {
        case EndTest(k, answer) =>
          if k in w.flying {
            FinishTestFacts(w.turn.value, w.session, Sending(w.sends[k].node, w.sends[k].kind), answer);
          }
        case CallFinish => FinishFacts(rules, w.turn.value, w.session);
        case _ =>
      }
    }
  }

  lemma BudgetIdle(w: World, w': World)
    requires Frame(w) && Budget(w) && Frame(w') && Idle(w, w')
    ensures Budget(w')
  {
  }

  lemma BudgetTest(w: World, w': World, s: Send)
    requires Frame(w) && Budget(w) && Frame(w') && w.turn.Some? && w'.turn.Some?
    requires w'.starts == w.starts && w'.lookups == w.lookups && w'.turn.value.lookups == w.turn.value.lookups
    requires s.turn == Current(w) && w'.sends == w.sends + [s]
    requires w.turn.value.testRuns < MAX_TESTS_PER_TURN && w'.turn.value.testRuns == w.turn.value.testRuns + 1
    ensures Budget(w')
  {
  }

  lemma BudgetKept(rules: Rules, w: World, step: Step)
    requires Frame(w) && Budget(w)
    ensures Frame(Apply(rules, w, step)) && Budget(Apply(rules, w, step))
  {
    hide StartTest, FinishTest, Finish, Close, Judge, NodeHash, WorkflowHash, Budget;
    var w' := Apply(rules, w, step);
    FrameKept(rules, w, step);
    if !Moves(step) {
      MostlyIdle(rules, w, step);
      BudgetIdle(w, w');
    } else if step.BeginTest? && w.turn.Some? {
      StartTestFacts(rules, w.turn.value, w.session, step.id, step.at);
      var r := StartTest(rules, w.turn.value, w.session, step.id, step.at);
      if r.sent.Some? {
        BudgetTest(w, w', Send(Current(w), r.sent.value.node, r.sent.value.kind));
      } else {
        BudgetIdle(w, w');
      }
    } else {
      BudgetOther(rules, w, step);
    }
  }

  lemma BudgetOther(rules: Rules, w: World, step: Step)
    requires Frame(w) && Budget(w) && Moves(step) && (step.BeginTest? ==> w.turn.None?)
    ensures Frame(Apply(rules, w, step)) && Budget(Apply(rules, w, step))
  {
    hide StartTest, FinishTest, Finish, Close, Judge, NodeHash, WorkflowHash, Budget;
    FrameKept(rules, w, step);
    var w' := Apply(rules, w, step);
    if w.turn.None? {
      if step.Begin? { BudgetBegin(w, w'); }
    } else if step.Lookup? && SpendLookup(w.turn.value, step.at).1 {
      BudgetLookup(w, w');
    } else {
      BudgetIdle(w, Budgeted(w, w'));
      BudgetSame(Budgeted(w, w'), w');
    }
  }

  /** w' with the calls of w: the budget does not look at calls. */
  ghost function Budgeted(w: World, w': World): World {
    w'.(calls := w.calls)
  }

  lemma BudgetSame(w: World, w': World)
    requires Frame(w) && Budget(w) && w' == w.(calls := w'.calls)
    ensures Frame(w') && Budget(w')
  {
  }

  lemma BudgetBegin(w: World, w': World)
    requires Frame(w) && Budget(w) && Frame(w') && w.turn.None? && |w'.starts| == |w.starts| + 1
    requires w'.sends == w.sends && w'.lookups == w.lookups
    requires w'.turn.Some? ==> w'.turn.value.testRuns == 0 && w'.turn.value.lookups == 0
    ensures Budget(w')
  {
  }

  lemma BudgetLookup(w: World, w': World)
    requires Frame(w) && Budget(w) && Frame(w') && w.turn.Some? && w'.turn.Some?
    requires w'.starts == w.starts && w'.sends == w.sends && w'.turn.value.testRuns == w.turn.value.testRuns
    requires w'.lookups == w.lookups + [Current(w)]
    requires w.turn.value.lookups < MAX_LOOKUPS_PER_TURN && w'.turn.value.lookups == w.turn.value.lookups + 1
    ensures Budget(w')
  {
  }

  lemma OnTimeKept(rules: Rules, w: World, step: Step)
    requires Frame(w) && OnTime(w)
    ensures OnTime(Apply(rules, w, step))
  {
    hide Attempts, StartTest, FinishTest, Finish, Close, Judge, NodeHash, WorkflowHash;
    if w.turn.Some? && step.BeginTest? {
      StartTestFacts(rules, w.turn.value, w.session, step.id, step.at);
    }
  }

  lemma ConsentIdle(rules: Rules, w: World, w': World)
    requires Frame(w) && Consent(rules, w) && Frame(w')
    requires w'.sends == w.sends && w'.starts == w.starts
    requires w'.turn.Some? ==>
      && w.turn.Some?
      && w'.turn.value.confirmed == w.turn.value.confirmed && w'.turn.value.confirmUsed == w.turn.value.confirmUsed
    ensures Consent(rules, w')
  {
  }

  lemma ConsentTest(rules: Rules, w: World, w': World, s: Send)
    requires Frame(w) && Consent(rules, w) && Frame(w') && w.turn.Some? && w'.turn.Some?
    requires w'.starts == w.starts && w'.sends == w.sends + [s]
    requires s.turn == Current(w) && s.kind == KindOf(rules, s.node)
    requires w'.turn.value.confirmed == w.turn.value.confirmed
    requires if s.kind == Write
      then w.turn.value.confirmed == Some(Confirm(s.node.id, NodeHash(s.node)))
        && !w.turn.value.confirmUsed && w'.turn.value.confirmUsed
      else w'.turn.value.confirmUsed == w.turn.value.confirmUsed
    ensures Consent(rules, w')
  {
    hide NodeHash, KindOf;
  }

  lemma ConsentBegin(rules: Rules, w: World, step: Step)
    requires Frame(w) && Consent(rules, w) && w.turn.None? && step.Begin?
    ensures Frame(Apply(rules, w, step)) && Consent(rules, Apply(rules, w, step))
  {
    hide Judge, NodeHash, WorkflowHash, KindOf;
    FrameKept(rules, w, step);
    JudgeFacts(rules, w.session, step.prompt, step.nodes, step.edges);
  }

  lemma ConsentKept(rules: Rules, w: World, step: Step)
    requires Frame(w) && Consent(rules, w)
    ensures Frame(Apply(rules, w, step)) && Consent(rules, Apply(rules, w, step))
  {
    hide StartTest, FinishTest, Finish, Close, Judge, NodeHash, WorkflowHash, KindOf, Consent;
    var w' := Apply(rules, w, step);
    FrameKept(rules, w, step);
    if w.turn.None? && step.Begin? {
      ConsentBegin(rules, w, step);
    } else if w.turn.Some? && step.BeginTest? {
      StartTestFacts(rules, w.turn.value, w.session, step.id, step.at);
      var r := StartTest(rules, w.turn.value, w.session, step.id, step.at);
      if r.sent.Some? {
        ConsentTest(rules, w, w', Send(Current(w), r.sent.value.node, r.sent.value.kind));
      } else {
        ConsentIdle(rules, w, w');
      }
    } else {
      if !Moves(step) { MostlyIdle(rules, w, step); }
      ConsentIdle(rules, w, w');
    }
  }

  lemma ChainedKept(rules: Rules, w: World, step: Step)
    requires Frame(w) && Chained(w)
    ensures Frame(Apply(rules, w, step)) && Chained(Apply(rules, w, step))
  {
    hide Attempts, StartTest, FinishTest, Finish, Close, Judge, NodeHash, WorkflowHash;
    FrameKept(rules, w, step);
    if w.turn.Some? && step.CloseTurn? {
      var start := w.starts[Current(w)];
      CloseFacts(w.turn.value, w.session, start.nodes, start.edges, step.failed, step.lost);
    }
  }

  lemma QuestionsKept(rules: Rules, w: World, step: Step)
    requires Frame(w) && Questions(w)
    ensures Questions(Apply(rules, w, step))
  {
    hide Attempts, StartTest, FinishTest, Finish, Close, Judge, NodeHash, WorkflowHash, Fits;
    if w.turn.Some? {
      match step {
        case BeginTest(id, at) => StartTestFacts(rules, w.turn.value, w.session, id, at);
        case EndTest(k, answer) =>
          if k in w.flying {
            FinishTestFacts(w.turn.value, w.session, Sending(w.sends[k].node, w.sends[k].kind), answer);
          }
        case CallFinish => FinishFacts(rules, w.turn.value, w.session);
        case ShowCard(node, provider, keys, models) =>
          CardHeld(w.turn.value, node, ModelCard(provider, keys, models, rules.defaultModel));
        case CloseTurn(failed, lost) =>
          var start := w.starts[Current(w)];
          CloseFacts(w.turn.value, w.session, start.nodes, start.edges, failed, lost);
        case _ =>
      }
    }
  }

  lemma CardsKept(rules: Rules, w: World, step: Step)
    requires Frame(w) && Cards(w)
    ensures Cards(Apply(rules, w, step))
  {
    hide Attempts, StartTest, FinishTest, Finish, Judge, NodeHash, WorkflowHash, Numbered, ModelCard;
    if w.turn.Some? {
      var t, s := w.turn.value, w.session;
      match step {
        case BeginTest(id, at) =>
          StartTestFacts(rules, t, s, id, at);
          NewQuestionIsNoCard(rules, t, s, step, Sending(Node(Null, Null, Null, Null, Null), Read));
        case EndTest(k, answer) =>
          if k in w.flying {
            FinishTestFacts(t, s, Sending(w.sends[k].node, w.sends[k].kind), answer);
            NewQuestionIsNoCard(rules, t, s, step, Sending(w.sends[k].node, w.sends[k].kind));
          }
        case CallFinish => NewQuestionIsNoCard(rules, t, s, step, Sending(Node(Null, Null, Null, Null, Null), Read));
        case ShowCard(node, provider, keys, models) =>
          ModelCardNumbered(provider, keys, models, rules.defaultModel);
        case _ =>
      }
    }
  }

  lemma ModelCardNumbered(
    provider: string, keys: map<string, Named>, models: map<string, seq<Named>>, default: string -> string)
    ensures Numbered(ModelCard(provider, keys, models, default))
  {
    var chat := Text.Upper(provider);
    CardNumbered(Order(chat), chat, keys, models, default);
  }

  /** Only showing a card makes a card. */
  lemma NewQuestionIsNoCard(rules: Rules, t: TurnState, s: Session, step: Step, sent: Sending)
    requires step.BeginTest? || step.EndTest? || step.CallFinish?
    ensures var t' := match step
        case BeginTest(id, at) => StartTest(rules, t, s, id, at).turn
        case EndTest(k, answer) => FinishTest(t, s, sent, answer).turn
        case _ => Finish(rules, t, s).0;
      t'.pending == t.pending || (t'.pending.Some? && !t'.pending.value.modelPick)
  {
    hide NodeHash, WorkflowHash, IdsOf, Upstream, HowToTest, Unkeyed, NodeStatus, OwnErrors, SkippedUpstream;
  }

  lemma CardHeld(t: TurnState, n: Node, card: seq<Choice>)
    ensures OnlyHolds(t, HoldCard(t, n, card))
    ensures var t' := HoldCard(t, n, card);
      t'.pending == t.pending || (t'.pending.Some? && t'.pending.value.hash.NodeDigest?)
  {
  }

  // ----- the logs only grow, and what they prove stays proved

  ghost predicate Grows(w: World, w': World) {
    w.sends <= w'.sends && w.seen <= w'.seen && w.starts <= w'.starts && w.passings <= w'.passings
  }

  lemma StepGrows(rules: Rules, w: World, step: Step)
    requires Frame(w)
    ensures Grows(w, Apply(rules, w, step))
  {
    hide Attempts, StartTest, FinishTest, Finish, Close, Judge, NodeHash, WorkflowHash;
  }

  lemma SuccessKept(rules: Rules, w: World, w': World, id: Json, h: Digest)
    requires Grows(w, w') && w'.first == w.first && SuccessSeen(rules, w, id, h)
    ensures SuccessSeen(rules, w', id, h)
  {
    hide AnsweredAt, IsWrite, Consents;
    var i: nat :| SuccessAt(rules, w, i, id, h);
    AnswerKept(w, w', i, id, h);
    assert SuccessAt(rules, w', i, id, h);
  }

  lemma SkipKept(w: World, w': World, id: Json, h: Digest)
    requires Grows(w, w') && w'.first == w.first && SkipAnswered(w, id, h)
    ensures SkipAnswered(w', id, h)
  {
    var t :| w.first <= t < |w.starts| && Skips(w.starts[t], id, h);
    assert w'.starts[t] == w.starts[t];
  }

  lemma AnswerKept(w: World, w': World, i: nat, id: Json, h: Digest)
    requires Grows(w, w') && w'.first == w.first && AnsweredAt(w, i, id, h)
    ensures AnsweredAt(w', i, id, h) && w'.seen[i] == w.seen[i]
    ensures var t := w.sends[w.seen[i].send].turn; w'.sends[w.seen[i].send].turn == t && w'.starts[t] == w.starts[t]
  {
    hide NodeHash;
    assert w'.seen[i] == w.seen[i] && w'.sends[w.seen[i].send] == w.sends[w.seen[i].send];
  }

  lemma MissingKept(w: World, w': World, id: Json, h: Digest)
    requires Grows(w, w') && w'.first == w.first && MissingSeen(w, id, h)
    ensures MissingSeen(w', id, h)
  {
    hide NodeHash;
    var i: nat :| AnsweredAt(w, i, id, h) && Excused(w.seen[i]);
    AnswerKept(w, w', i, id, h);
  }

  lemma BackedKept(rules: Rules, w: World, w': World, id: Json, test: Test)
    requires Grows(w, w') && w'.first == w.first && Backed(rules, w, id, test)
    ensures Backed(rules, w', id, test)
  {
    hide SuccessSeen, SkipAnswered, MissingSeen, IsListening, IsWrite;
    if test.status == Success { SuccessKept(rules, w, w', id, test.hash); }
    if SkipAnswered(w, id, test.hash) { SkipKept(w, w', id, test.hash); }
    if MissingSeen(w, id, test.hash) { MissingKept(w, w', id, test.hash); }
  }

  lemma EarnedFromTests(rules: Rules, w: World, n: Node)
    requires Tested(rules, w) && Based(w)
    ensures Earned(rules, w, n)
  {
    hide SuccessSeen, SkipAnswered, MissingSeen, NodeHash, KindOf, Unchanged, Based;
    if n.id in w.session.tests { assert Backed(rules, w, n.id, w.session.tests[n.id]); }
    if NodeStatus(n, w.session) == Passed { PassedIsUnchanged(w, n); }
    if n.id in w.session.tests && w.session.tests[n.id].hash == NodeHash(n) {
      assert Backed(rules, w, n.id, w.session.tests[n.id]);
      if NeedsYes(rules, n) { assert IsWrite(rules, NodeHash(n)); }
      if IsListening(rules, NodeHash(n)) {
        var m :| NodeHash(m) == NodeHash(n) && Listens(rules, m);
        SameHashSameTable(rules, m, n);
      }
    }
  }

  lemma NotWrite(rules: Rules, n: Node)
    requires KindOf(rules, n) != Write
    ensures !IsWrite(rules, NodeHash(n))
  {
    hide NodeHash, KindOf;
    KindTable(rules, n);
    forall m | NodeHash(m) == NodeHash(n) ensures !NeedsYes(rules, m) {
      SameHashSameTable(rules, m, n);
    }
  }

  lemma SameHashSameTable(rules: Rules, m: Node, n: Node)
    requires NodeHash(m) == NodeHash(n)
    ensures NeedsYes(rules, m) <==> NeedsYes(rules, n)
    ensures Listens(rules, m) <==> Listens(rules, n)
  {
    SameHashSameKind(rules, m, n);
    KindTable(rules, m);
    KindTable(rules, n);
  }

  /** One record more, and it is backed: the rest still is. */
  lemma TestedWith(rules: Rules, w: World, w': World, id: Json, status: Status, h: Digest)
    requires Tested(rules, w) && Grows(w, w') && w'.first == w.first && w'.session == Record(w.session, id, status, h)
    requires Backed(rules, w', id, Test(status, h))
    ensures Tested(rules, w')
  {
    hide Backed;
    forall k | k in w'.session.tests ensures Backed(rules, w', k, w'.session.tests[k]) {
      if k != id { BackedKept(rules, w, w', k, w.session.tests[k]); }
    }
  }

  lemma TestedSame(rules: Rules, w: World, w': World)
    requires Tested(rules, w) && Grows(w, w') && w'.first == w.first && w'.session.tests == w.session.tests
    ensures Tested(rules, w')
  {
    hide Backed;
    forall k | k in w'.session.tests ensures Backed(rules, w', k, w'.session.tests[k]) {
      BackedKept(rules, w, w', k, w.session.tests[k]);
    }
  }

  lemma TestedBegin(rules: Rules, w: World, step: Step)
    requires Frame(w) && Tested(rules, w) && w.turn.None? && step.Begin?
    ensures Tested(rules, Apply(rules, w, step))
  {
    hide Judge, NodeHash, WorkflowHash, IsWrite, SuccessSeen;
    StepGrows(rules, w, step);
    JudgeFacts(rules, w.session, step.prompt, step.nodes, step.edges);
    var w' := Apply(rules, w, step);
    forall k | k in w'.session.tests ensures Backed(rules, w', k, w'.session.tests[k]) {
      if k in w.session.tests && w'.session.tests[k] == w.session.tests[k] {
        BackedKept(rules, w, w', k, w.session.tests[k]);
      } else {
        assert Skips(w'.starts[|w.starts|], k, w'.session.tests[k].hash);
        assert SkipAnswered(w', k, w'.session.tests[k].hash);
      }
    }
  }

  lemma TestedEnd(rules: Rules, w: World, k: nat, answer: Answer)
    requires Frame(w) && Consent(rules, w) && Tested(rules, w) && w.turn.Some? && k in w.flying
    ensures Tested(rules, Apply(rules, w, EndTest(k, answer)))
  {
    hide FinishTest, NodeHash, WorkflowHash, KindOf, IsWrite, SkipAnswered, Tested;
    var w' := Apply(rules, w, EndTest(k, answer));
    var n := w.sends[k].node;
    StepGrows(rules, w, EndTest(k, answer));
    FinishTestFacts(w.turn.value, w.session, Sending(n, w.sends[k].kind), answer);
    if w'.session == w.session {
      TestedSame(rules, w, w');
    } else if w'.session == Record(w.session, n.id, Skipped, NodeHash(n)) && w.sends[k].kind != Write {
      NotWrite(rules, n);
      assert w'.seen[|w.seen|] == Seen(k, answer, w.turn.value.nodes, w.session);
      assert Excused(w'.seen[|w.seen|]);
      assert AnsweredAt(w', |w.seen|, n.id, NodeHash(n));
      TestedWith(rules, w, w', n.id, Skipped, NodeHash(n));
    } else if answer == Ran(true) {
      SuccessHere(rules, w, w', k);
      TestedWith(rules, w, w', n.id, Success, NodeHash(n));
    } else {
      TestedWith(rules, w, w', n.id, Failed, NodeHash(n));
    }
  }

  lemma SuccessHere(rules: Rules, w: World, w': World, k: nat)
    requires Frame(w) && Consent(rules, w) && w.turn.Some? && k in w.flying
    requires w'.first == w.first && w'.sends == w.sends && w'.starts == w.starts
    requires w'.seen == w.seen + [Seen(k, Ran(true), w.turn.value.nodes, w.session)]
    ensures SuccessSeen(rules, w', w.sends[k].node.id, NodeHash(w.sends[k].node))
  {
    hide NodeHash, IsWrite, Consents, KindOf;
    var n := w.sends[k].node;
    if IsWrite(rules, NodeHash(n)) && KindOf(rules, n) != Write { NotWrite(rules, n); }
    assert SuccessAt(rules, w', |w.seen|, n.id, NodeHash(n));
  }

  lemma TestedStart(rules: Rules, w: World, step: Step)
    requires Frame(w) && Tested(rules, w) && w.turn.Some? && step.BeginTest?
    ensures Tested(rules, Apply(rules, w, step))
  {
    hide StartTest, NodeHash, WorkflowHash, KindOf, Tested, IsWrite, SuccessSeen, SkipAnswered, MissingSeen, Attempts;
    var w' := Apply(rules, w, step);
    StepGrows(rules, w, step);
    StartTestFacts(rules, w.turn.value, w.session, step.id, step.at);
    if w'.session.tests == w.session.tests {
      TestedSame(rules, w, w');
    } else {
      var n :| n in w.turn.value.nodes && n.id == step.id && KindOf(rules, n) == Listen
        && w'.session == Record(w.session, step.id, Skipped, NodeHash(n));
      assert IsListening(rules, NodeHash(n)) by { KindTable(rules, n); }
      TestedWith(rules, w, w', step.id, Skipped, NodeHash(n));
    }
  }

  lemma TestedClose(rules: Rules, w: World, step: Step)
    requires Frame(w) && Tested(rules, w) && w.turn.Some? && step.CloseTurn?
    ensures Tested(rules, Apply(rules, w, step))
  {
    hide Close, NodeHash, WorkflowHash, Tested, Attempts;
    var w', start := Apply(rules, w, step), w.starts[Current(w)];
    StepGrows(rules, w, step);
    CloseFacts(w.turn.value, w.session, start.nodes, start.edges, step.failed, step.lost);
    if step.lost { NothingTested(rules, w'); } else { TestedSame(rules, w, w'); }
  }

  lemma TestedKept(rules: Rules, w: World, step: Step)
    requires Frame(w) && Consent(rules, w) && Tested(rules, w)
    ensures Tested(rules, Apply(rules, w, step))
  {
    hide Finish, Judge, NodeHash, WorkflowHash, KindOf, Tested, Consent, StartTest, FinishTest, Close, AttemptOf;
    var w' := Apply(rules, w, step);
    StepGrows(rules, w, step);
    if w.turn.None? && step.Begin? {
      TestedBegin(rules, w, step);
    } else if w.turn.None? && step.ForgetSession? {
      NothingTested(rules, w');
    } else if w.turn.Some? && step.EndTest? && step.send in w.flying {
      TestedEnd(rules, w, step.send, step.answer);
    } else if w.turn.Some? && step.BeginTest? {
      TestedStart(rules, w, step);
    } else if w.turn.Some? && step.CloseTurn? {
      TestedClose(rules, w, step);
    } else {
      TestedSame(rules, w, w');
    }
  }

  lemma NothingTested(rules: Rules, w: World)
    requires w.session.tests == map[]
    ensures Tested(rules, w)
  {
  }

  lemma PassedIsUnchanged(w: World, n: Node)
    requires Based(w) && NodeStatus(n, w.session) == Passed
    requires n.id in w.session.tests ==> w.session.tests[n.id].status != Passed
    ensures Unchanged(w, n)
  {
    hide NodeHash, BaselineOf;
    var b: nat :| BasedOn(w, b);
    var m :| m in w.starts[b].nodes && m.id == n.id && BaselineOf(w.starts[b].nodes)[n.id] == NodeHash(m);
  }

  lemma BaseStays(w: World, w': World, b: nat)
    requires BasedOn(w, b) && w'.first == w.first && w.starts <= w'.starts && w'.session.baseline == w.session.baseline
    requires forall u | |w.starts| <= u < |w'.starts| :: !w'.starts[u].done
    ensures BasedOn(w', b)
  {
    hide BaselineOf;
    assert forall u | 0 <= u < |w.starts| :: w'.starts[u] == w.starts[u];
  }

  lemma BasedKept(rules: Rules, w: World, step: Step)
    requires Frame(w) && Based(w)
    ensures Based(Apply(rules, w, step))
  {
    hide StartTest, FinishTest, Finish, Close, Judge, NodeHash, WorkflowHash, BaselineOf, BasedOn, AttemptOf;
    var w' := Apply(rules, w, step);
    if w.turn.None? && step.Begin? {
      BasedBegin(rules, w, step);
    } else if w.turn.None? {
      if step != ForgetSession { assert w'.session == w.session; }
      if step != ForgetSession && |w.starts| != w.first {
        var b: nat :| BasedOn(w, b);
        BaseStays(w, w', b);
      }
    } else if !(step.CloseTurn? && step.lost) {
      BaselineInTurn(rules, w, step);
      var b: nat :| BasedOn(w, b);
      BaseStays(w, w', b);
    }
  }

  lemma BaselineInTurn(rules: Rules, w: World, step: Step)
    requires Frame(w) && w.turn.Some? && !(step.CloseTurn? && step.lost)
    ensures var w' := Apply(rules, w, step);
      w'.session.baseline == w.session.baseline && w'.starts == w.starts && w'.first == w.first
  {
    hide StartTest, FinishTest, Finish, Close, NodeHash, WorkflowHash, AttemptOf;
    match step {
      case BeginTest(id, at) => StartTestFacts(rules, w.turn.value, w.session, id, at);
      case EndTest(k, answer) =>
        if k in w.flying {
          FinishTestFacts(w.turn.value, w.session, Sending(w.sends[k].node, w.sends[k].kind), answer);
        }
      case CloseTurn(failed, lost) =>
        var start := w.starts[Current(w)];
        CloseFacts(w.turn.value, w.session, start.nodes, start.edges, failed, lost);
      case _ =>
    }
  }

  lemma JudgedBaseline(rules: Rules, s: Session, prompt: string, nodes: seq<Node>, edges: seq<Edge>)
    ensures Judge(rules, s, prompt, nodes, edges).baseline ==
      if s.baseline.Some? then s.baseline.value else BaselineOf(nodes)
  {
    hide BaselineOf, IdsOf, NodeHash, WorkflowHash, PickedNodes;
  }

  lemma BasedBegin(rules: Rules, w: World, step: Step)
    requires Frame(w) && Based(w) && w.turn.None? && step.Begin?
    ensures Based(Apply(rules, w, step))
  {
    hide Judge, NodeHash, WorkflowHash, BaselineOf;
    JudgedBaseline(rules, w.session, step.prompt, step.nodes, step.edges);
    var w' := Apply(rules, w, step);
    if |w.starts| == w.first || w'.starts[|w.starts|].done {
      assert BasedOn(w', |w.starts|);
    } else {
      var b: nat :| BasedOn(w, b);
      BaseStays(w, w', b);
    }
  }

  lemma PassedInKept(w: World, w': World, turn: int, h: Digest)
    requires Grows(w, w') && PassedIn(w, turn, h)
    ensures PassedIn(w', turn, h)
  {
    hide WorkflowHash;
    var i :| 0 <= i < |w.passings| && w.passings[i].turn == turn
      && WorkflowHash(w.passings[i].nodes, w.passings[i].edges) == h;
    assert w'.passings[i] == w.passings[i];
  }

  /** The question a tool may leave behind: the old one, one about a single node, or one a finish call backs. */
  lemma PendingBacked(rules: Rules, w: World, step: Step)
    requires Frame(w) && FinishBacked(w) && w.turn.Some?
    ensures var w' := Apply(rules, w, step);
      w'.turn.Some? && w'.turn.value.pending.Some? && w'.turn.value.pending.value.hash.WorkflowDigest?
      ==> PassedIn(w', |w.starts| - 1, w'.turn.value.pending.value.hash)
  {
    hide Attempts, StartTest, FinishTest, Finish, Close, HoldCard, NodeHash, WorkflowHash, PassedIn;
    var w' := Apply(rules, w, step);
    StepGrows(rules, w, step);
    match step {
      case BeginTest(id, at) => StartTestFacts(rules, w.turn.value, w.session, id, at);
      case EndTest(k, answer) =>
        if k in w.flying {
          FinishTestFacts(w.turn.value, w.session, Sending(w.sends[k].node, w.sends[k].kind), answer);
        }
      case CallFinish =>
        FinishFacts(rules, w.turn.value, w.session);
        if w'.turn.value != w.turn.value {
          NewPassing(w, w');
        }
      case ShowCard(node, provider, keys, models) =>
          CardHeld(w.turn.value, node, ModelCard(provider, keys, models, rules.defaultModel));
      case _ =>
    }
    if w'.turn.Some? && w'.turn.value.pending.Some? && w'.turn.value.pending == w.turn.value.pending
      && w.turn.value.pending.value.hash.WorkflowDigest? {
      PassedInKept(w, w', |w.starts| - 1, w.turn.value.pending.value.hash);
    }
  }

  lemma NewPassing(w: World, w': World)
    requires w.turn.Some? && Frame(w)
    requires w'.passings == w.passings + [Passing(Current(w), w.turn.value.nodes, w.turn.value.edges)]
    ensures PassedIn(w', Current(w), WorkflowHash(w.turn.value.nodes, w.turn.value.edges))
  {
    hide WorkflowHash;
    assert w'.passings[|w.passings|].turn == Current(w);
  }

  lemma FinishBackedKept(rules: Rules, w: World, step: Step)
    requires Frame(w) && FinishBacked(w)
    ensures Frame(Apply(rules, w, step)) && FinishBacked(Apply(rules, w, step))
  {
    hide Attempts, StartTest, FinishTest, Finish, Close, Judge, HoldCard, NodeHash, WorkflowHash, PassedIn;
    var w' := Apply(rules, w, step);
    FrameKept(rules, w, step);
    StepGrows(rules, w, step);
    forall t | 0 <= t < |w.ends| && w.ends[t].stored.Some? && w.ends[t].stored.value.hash.WorkflowDigest?
      ensures PassedIn(w', t, w.ends[t].stored.value.hash)
    {
      PassedInKept(w, w', t, w.ends[t].stored.value.hash);
    }
    if w.turn.Some? {
      PendingBacked(rules, w, step);
      if step.CloseTurn? {
        StoredBacked(rules, w, step.failed, step.lost);
      }
    } else if step.Begin? {
      JudgeFacts(rules, w.session, step.prompt, step.nodes, step.edges);
    }
  }

  /** What the end of a turn stores about a whole workflow was held in the turn. */
  lemma StoredBacked(rules: Rules, w: World, failed: bool, lost: bool)
    requires Frame(w) && FinishBacked(w) && w.turn.Some?
    ensures var w' := Apply(rules, w, CloseTurn(failed, lost));
      var end := w'.ends[|w.ends|];
      && |w'.ends| == |w.ends| + 1
      && (end.stored.Some? && end.stored.value.hash.WorkflowDigest? ==> PassedIn(w', |w.ends|, end.stored.value.hash))
  {
    hide Close, NodeHash, WorkflowHash, PassedIn;
    var t, start, w' := w.turn.value, w.starts[Current(w)], Apply(rules, w, CloseTurn(failed, lost));
    CloseFacts(t, w.session, start.nodes, start.edges, failed, lost);
    if t.pending.Some? && t.pending.value.hash.WorkflowDigest? {
      PassedInKept(w, w', Current(w), t.pending.value.hash);
    }
  }

  lemma {:induction false} InvHolds(rules: Rules, steps: seq<Step>)
    ensures Inv(rules, Run(rules, steps))
  {
    if steps != [] {
      var w, step := Run(rules, steps[..|steps| - 1]), steps[|steps| - 1];
      InvHolds(rules, steps[..|steps| - 1]);
      StepKeeps(rules, w, step);
    }
  }

  lemma RunFrame(rules: Rules, steps: seq<Step>)
    ensures Frame(Run(rules, steps))
  {
    hide Run, Frame;
    InvHolds(rules, steps);
  }

  lemma LastStep(rules: Rules, steps: seq<Step>)
    requires steps != []
    ensures Run(rules, steps) == Apply(rules, Run(rules, steps[..|steps| - 1]), steps[|steps| - 1])
  {
    hide Apply;
  }

  lemma StepKeeps(rules: Rules, w: World, step: Step)
    requires Inv(rules, w)
    ensures Inv(rules, Apply(rules, w, step))
  {
    hide Frame, Budget, OnTime, Consent, Chained, Tested, Based, FinishBacked, Questions, Cards, Apply;
    BudgetKept(rules, w, step);
    OnTimeKept(rules, w, step);
    ConsentKept(rules, w, step);
    ChainedKept(rules, w, step);
    TestedKept(rules, w, step);
    BasedKept(rules, w, step);
    FinishBackedKept(rules, w, step);
    QuestionsKept(rules, w, step);
    CardsKept(rules, w, step);
  }
}
