/**
 * Which question a turn leaves behind, out of all its tools tried to put; and how long the result
 * of a test stays on record.
 */
module BuilderQuestions {
  import opened Wrappers
  import opened Json
  import opened Workflow
  import opened ModelPick
  import opened BuilderSpec
  import opened BuilderRuns
  import opened BuilderInvariant

  // ----- the first card wins, otherwise the last question

  lemma {:induction false} FirstCardSnoc(attempts: seq<Attempt>, a: Attempt)
    ensures FirstCard(attempts + [a]) ==
      if FirstCard(attempts) < |attempts| || a.pending.modelPick then FirstCard(attempts) else |attempts| + 1
  {
    if attempts != [] {
      FirstCardSnoc(attempts[1..], a);
      assert (attempts + [a])[1..] == attempts[1..] + [a];
    }
  }

  /** One attempt more: it wins unless a card has won already. */
  lemma WinnerSnoc(attempts: seq<Attempt>, a: Attempt)
    ensures var was, now := Winner(attempts), Winner(attempts + [a]);
      now == if was.Some? && was.value.pending.modelPick then was else Some(a)
  {
    FirstCardSnoc(attempts, a);
  }

  /** What a tool's step does to the question of the turn: it puts its attempt, if it makes one. */
  ghost predicate Puts(t: TurnState, attempt: Option<Attempt>, t': TurnState) {
    match attempt
    case None => t'.pending == t.pending && t'.ask == t.ask
    case Some(a) => var held := Hold(t, a.pending, a.ask).0; t'.pending == held.pending && t'.ask == held.ask
  }

  lemma TestPuts(rules: Rules, w: World, id: Json, at: int)
    requires Frame(w) && w.turn.Some?
    ensures var t := w.turn.value;
      Puts(t, AttemptOf(rules, w, t, BeginTest(id, at)), StartTest(rules, t, w.session, id, at).turn)
  {
    hide NodeHash, KindOf, Unkeyed, OwnErrors, SkippedUpstream;
  }

  lemma AnswerPuts(rules: Rules, w: World, k: nat, answer: Answer)
    requires Frame(w) && w.turn.Some? && k in w.flying
    ensures var t := w.turn.value;
      Puts(t, AttemptOf(rules, w, t, EndTest(k, answer)),
           FinishTest(t, w.session, Sending(w.sends[k].node, w.sends[k].kind), answer).turn)
  {
    hide NodeHash;
  }

  lemma FinishPuts(rules: Rules, w: World)
    requires w.turn.Some?
    ensures var t := w.turn.value; Puts(t, AttemptOf(rules, w, t, CallFinish), Finish(rules, t, w.session).0)
  {
    hide NodeHash, WorkflowHash, Unkeyed, NodeStatus;
  }

  lemma StepPuts(rules: Rules, w: World, step: Step)
    requires Frame(w) && w.turn.Some? && !step.CloseTurn?
    ensures var w' := Apply(rules, w, step);
      && w'.turn.Some? && w'.starts == w.starts && w'.ends == w.ends
      && Puts(w.turn.value, AttemptOf(rules, w, w.turn.value, step), w'.turn.value)
  {
    hide StartTest, FinishTest, Finish, NodeHash, WorkflowHash, ModelCard;
    match step {
      case BeginTest(id, at) => TestPuts(rules, w, id, at);
      case EndTest(k, answer) => if k in w.flying { AnswerPuts(rules, w, k, answer); }
      case CallFinish => FinishPuts(rules, w);
      case _ =>
    }
  }

  /** Question and sentence of the turn are those of the winner; what a turn stored is what was kept of it. */
  ghost predicate Asked(w: World) {
    && |w.attempts| == |w.starts| && |w.ends| <= |w.starts|
    && (w.turn.Some? ==>
        w.starts != [] && Stands(Winner(w.attempts[|w.starts| - 1]), w.turn.value.pending, w.turn.value.ask))
    && (forall t | 0 <= t < |w.ends| :: AskedAt(w.attempts[t], w.ends[t]))
  }

  predicate AskedAt(attempts: seq<Attempt>, end: End) {
    EndsWith(Kept(Winner(attempts), end.nodes, end.failed), end)
  }

  lemma ClosedKeeps(
    t: TurnState, s: Session, nodes: seq<Node>, edges: seq<Edge>, failed: bool, lost: bool, winner: Option<Attempt>)
    requires s.pending == None && Stands(winner, t.pending, t.ask)
    ensures var c := Close(t, s, nodes, edges, failed, lost);
      match c.response
      case None => failed
      case Some(r) =>
        && r.nodes == t.nodes
        && EndsWith(Kept(winner, t.nodes, failed), End(c.session.pending, r.ask, t.nodes, failed, lost))
  {
    hide NodeHash, SameShape, SameEdges;
  }

  lemma TurnAsked(rules: Rules, w: World, step: Step)
    requires Frame(w) && Asked(w) && w.turn.Some? && !step.CloseTurn?
    ensures Asked(Apply(rules, w, step))
  {
    StepPuts(rules, w, step);
    var last := |w.starts| - 1;
    var w', attempt := Apply(rules, w, step), AttemptOf(rules, w, w.turn.value, step);
    assert w'.attempts == Attempts(rules, w, step);
    if attempt.Some? { WinnerSnoc(w.attempts[last], attempt.value); }
    hide Apply, AttemptOf, Winner, AskedAt;
    assert w'.attempts[last] == if attempt.Some? then w.attempts[last] + [attempt.value] else w.attempts[last];
  }

  lemma StepAsked(rules: Rules, w: World, step: Step)
    requires Frame(w) && Asked(w)
    ensures Asked(Apply(rules, w, step))
  {
    hide StartTest, FinishTest, Finish, Close, Judge, NodeHash, WorkflowHash, Winner, Kept, AttemptOf;
    if w.turn.Some? {
      if step.CloseTurn? {
        var start := w.starts[Current(w)];
        NoAttempt(rules, w, step);
        var winner := Winner(w.attempts[|w.starts| - 1]);
        ClosedKeeps(w.turn.value, w.session, start.nodes, start.edges, step.failed, step.lost, winner);
        FailedKeepsNothing(winner, w.turn.value.nodes);
      } else {
        TurnAsked(rules, w, step);
      }
    } else if step.Begin? {
      NothingAsked(step.nodes);
    }
  }

  lemma NoAttempt(rules: Rules, w: World, step: Step)
    requires w.turn.Some? && step.CloseTurn?
    ensures AttemptOf(rules, w, w.turn.value, step) == None
  {
  }

  lemma FailedKeepsNothing(winner: Option<Attempt>, nodes: seq<Node>)
    ensures Kept(winner, nodes, true) == None
  {
  }

  lemma NothingAsked(nodes: seq<Node>)
    ensures Winner([]) == None && Kept(None, nodes, false) == None
  {
  }

  lemma NoRunAsked(rules: Rules)
    ensures Asked(Run(rules, []))
  {
  }

  lemma {:induction false} RunAsked(rules: Rules, steps: seq<Step>)
    ensures Asked(Run(rules, steps))
  {
    hide Run, Apply, Asked;
    if steps == [] {
      NoRunAsked(rules);
    } else {
      var init := steps[..|steps| - 1];
      RunFrame(rules, init);
      RunAsked(rules, init);
      StepAsked(rules, Run(rules, init), steps[|init|]);
      LastStep(rules, steps);
    }
  }

  /**
   * Of all questions the tools of a turn tried to put, the first card is asked, and if there is none
   * the last question. It is dropped when the turn ends in an error, or when it is a card whose node
   * is gone; a card that is stored carries the hash its node has in the response. If the session is
   * gone by the end of the turn, the question is asked but not stored.
   */
  lemma FirstCardElseLast(rules: Rules, steps: seq<Step>, t: nat)
    requires t < |Run(rules, steps).ends|
    ensures var w := Run(rules, steps);
      && t < |w.attempts|
      && EndsWith(Kept(Winner(w.attempts[t]), w.ends[t].nodes, w.ends[t].failed), w.ends[t])
  {
    hide Run, EndsWith, Kept, Winner;
    RunAsked(rules, steps);
    assert AskedAt(Run(rules, steps).attempts[t], Run(rules, steps).ends[t]);
  }

  // ----- how long a test result stays

  /**
   * The step writes or prunes the record of the node: another answer for the same id, a test of a
   * listening trigger of this id, a new turn whose nodes do not have it or whose reply skips it, or
   * the loss of the session.
   */
  predicate Touches(rules: Rules, w: World, step: Step, id: Json) {
    match step
    case EndTest(k, _) => w.turn.Some? && k in w.flying && k < |w.sends| && w.sends[k].node.id == id
    case BeginTest(x, _) =>
      && w.turn.Some? && x == id
      && HasNode(w.turn.value.nodes, id) && KindOf(rules, NodeAt(w.turn.value.nodes, id).value) == Listen
    case Begin(prompt, nodes, edges, _) =>
      w.turn.None? && (!HasNode(nodes, id) || SkipsNow(w.session.pending, rules.classify(prompt), id))
    case ForgetSession => w.turn.None?
    case CloseTurn(_, lost) => w.turn.Some? && lost
    case _ => false
  }

  predicate SkipsNow(asked: Option<Pending>, reply: Reply, id: Json) {
    asked.Some? && Skips(Start(asked, reply, [], [], false, 0), id, asked.value.hash)
  }

  lemma TestTouches(rules: Rules, t: TurnState, s: Session, id: Json, at: int, x: Json)
    requires x != id || !HasNode(t.nodes, id) || KindOf(rules, NodeAt(t.nodes, id).value) != Listen
    requires x in s.tests
    ensures var tests := StartTest(rules, t, s, id, at).session.tests; x in tests && tests[x] == s.tests[x]
  {
    hide NodeHash, KindOf, Unkeyed, OwnErrors, SkippedUpstream;
  }

  lemma JudgeTouches(rules: Rules, s: Session, prompt: string, nodes: seq<Node>, edges: seq<Edge>, x: Json)
    requires x in s.tests && HasNode(nodes, x) && !SkipsNow(s.pending, rules.classify(prompt), x)
    ensures var tests := Judge(rules, s, prompt, nodes, edges).tests; x in tests && tests[x] == s.tests[x]
  {
    hide NodeHash, WorkflowHash, PickedNodes, BaselineOf;
  }

  lemma RecordStays(rules: Rules, w: World, step: Step, id: Json)
    requires Frame(w) && !Touches(rules, w, step, id) && id in w.session.tests
    ensures var tests := Apply(rules, w, step).session.tests; id in tests && tests[id] == w.session.tests[id]
  {
    hide StartTest, FinishTest, Finish, Close, Judge, NodeHash, WorkflowHash, AttemptOf, KindOf, SkipsNow;
    if w.turn.None? {
      if step.Begin? { JudgeTouches(rules, w.session, step.prompt, step.nodes, step.edges, id); }
    } else {
      match step {
        case BeginTest(x, at) => TestTouches(rules, w.turn.value, w.session, x, at, id);
        case EndTest(k, answer) =>
          if k in w.flying {
            FinishTestFacts(w.turn.value, w.session, Sending(w.sends[k].node, w.sends[k].kind), answer);
          }
        case CloseTurn(failed, lost) =>
          var start := w.starts[Current(w)];
          CloseFacts(w.turn.value, w.session, start.nodes, start.edges, failed, lost);
        case _ =>
      }
    }
  }

  lemma AnswerRecorded(rules: Rules, w: World, k: nat, ok: bool)
    requires Frame(w) && w.turn.Some? && k in w.flying
    ensures var n, tests := w.sends[k].node, Apply(rules, w, EndTest(k, Ran(ok))).session.tests;
      n.id in tests && tests[n.id] == Test(if ok then Success else Failed, NodeHash(n))
  {
    hide NodeHash, AttemptOf;
  }

  /**
   * In any run, the result of an answered test stays on record until a step touches the record of
   * its node; steps of other nodes, overlapping tests among them, never do.
   */
  lemma {:induction false} ResultStays(rules: Rules, steps: seq<Step>, m: nat, ok: bool)
    requires m < |steps| && steps[m].EndTest? && steps[m].answer == Ran(ok)
    requires var w := Run(rules, steps[..m]); w.turn.Some? && steps[m].send in w.flying && steps[m].send < |w.sends|
    requires var id := Run(rules, steps[..m]).sends[steps[m].send].node.id;
      forall q | m < q < |steps| :: !Touches(rules, Run(rules, steps[..q]), steps[q], id)
    ensures var n, tests := Run(rules, steps[..m]).sends[steps[m].send].node, Run(rules, steps).session.tests;
      n.id in tests && tests[n.id] == Test(if ok then Success else Failed, NodeHash(n))
  {
    hide Apply, Touches, NodeHash, Inv, Run;
    var init, step, id := steps[..|steps| - 1], steps[|steps| - 1], Run(rules, steps[..m]).sends[steps[m].send].node.id;
    RunFrame(rules, init);
    LastStep(rules, steps);
    assert steps[..|init|] == init;
    if m == |init| {
      AnswerRecorded(rules, Run(rules, init), step.send, ok);
    } else {
      assert init[..m] == steps[..m];
      forall q | m < q < |init| ensures !Touches(rules, Run(rules, init[..q]), init[q], id) {
        assert init[..q] == steps[..q];
      }
      ResultStays(rules, init, m, ok);
      RecordStays(rules, Run(rules, init), step, id);
    }
  }
}
