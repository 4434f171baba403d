/**
 * A run that goes all the way: a write node is asked about, confirmed, tested, and the workflow is
 * finished and completed. It shows that the theorems about runs speak of something.
 */
module BuilderExample {
  import opened Wrappers
  import opened Json
  import opened Workflow
  import opened Flow
  import opened BuilderSpec
  import opened BuilderRuns
  import opened BuilderInvariant

  const YES := "yes"

  function Classify(s: string): Reply {
    if s == YES then Yes else Other
  }

  /** Nothing is in the catalog, so every node is a write node; the validator is content. */
  function ExampleRules(): Rules {
    Rules(s => None, Classify, (nodes, edges) => [], p => "")
  }

  const NODE := Node(Str("n1"), Str("ACTION"), Str("app.write"), Null, Obj([]))

  lemma RunThen(rules: Rules, steps: seq<Step>, step: Step) returns (more: seq<Step>)
    ensures more == steps + [step] && Run(rules, more) == Apply(rules, Run(rules, steps), step)
  {
    more := steps + [step];
    assert more[..|more| - 1] == steps;
  }

  lemma NoPath(ids: set<Json>, p: seq<Json>)
    ensures !FlowPath(ids, [], p)
  {
    if |p| >= 2 { assert !Linked([], p[0], p[0 + 1]); }
  }

  lemma NothingUpstream(t: TurnState, s: Session, id: Json)
    requires t.edges == []
    ensures !SkippedUpstream(t, s, id)
  {
    forall a ensures !Upstream(IdsOf(t.nodes), t.edges, a, id) {
      forall p { NoPath(IdsOf(t.nodes), p); }
    }
  }

  lemma NoSteps(rules: Rules)
    ensures Run(rules, []) == INITIAL
  {
  }

  /** The test of the write node is asked for. */
  lemma Asked(rules: Rules) returns (steps: seq<Step>)
    requires rules == ExampleRules()
    ensures var w := Run(rules, steps);
      && w.turn.Some? && |w.starts| == 1 && w.sends == [] && w.flying == {} && w.session.tests == map[]
      && w.session.baseline == Some(map[]) && w.turn.value.nodes == [NODE]
      && Paired(w.turn.value.pending, w.turn.value.ask)
      && w.turn.value.pending == Some(Pending(false, NODE.id, NodeHash(NODE), false, []))
  {
    hide Run, NodeHash, WorkflowHash, IdsOf, SkippedUpstream, SameShape, SameEdges;
    var s1 := Opened(rules);
    var s2 := RunThen(rules, s1, Edit([NODE], []));
    var w := Run(rules, s2);
    NothingUpstream(w.turn.value, w.session, NODE.id);
    assert NodeAt([NODE], NODE.id) == Some(NODE) && KindOf(rules, NODE) == Write;
    steps := RunThen(rules, s2, BeginTest(NODE.id, 0));
  }

  lemma Opened(rules: Rules) returns (steps: seq<Step>)
    requires rules == ExampleRules()
    ensures var w := Run(rules, steps);
      && |w.starts| == 1 && w.sends == [] && w.flying == {}
      && w.session.tests == map[] && w.session.baseline == Some(map[])
      && w.turn == Some(TurnState([], [], None, false, 0, 0, None, None, None, 540))
  {
    hide Run, NodeHash, WorkflowHash, IdsOf, SkippedUpstream, SameShape, SameEdges;
    assert Run(rules, []) == INITIAL by { NoSteps(rules); }
    assert BaselineOf([]) == map[];
    steps := RunThen(rules, [], Begin("", [], [], 0));
  }

  /** The first turn: the question is stored. */
  lemma FirstTurn(rules: Rules) returns (steps: seq<Step>)
    requires rules == ExampleRules()
    ensures var w := Run(rules, steps);
      && w.turn.None? && |w.starts| == 1 && w.sends == [] && w.flying == {} && w.session.tests == map[]
      && w.session.baseline == Some(map[])
      && w.session.pending == Some(Pending(false, NODE.id, NodeHash(NODE), false, []))
  {
    hide Run, NodeHash, WorkflowHash, IdsOf, SkippedUpstream, SameShape, SameEdges;
    steps := Asked(rules);
    steps := RunThen(rules, steps, CloseTurn(false, false));
  }

  lemma Confirmed(rules: Rules) returns (steps: seq<Step>)
    requires rules == ExampleRules()
    ensures var w := Run(rules, steps);
      && |w.starts| == 2 && w.sends == [] && w.flying == {} && w.session.tests == map[]
      && w.turn ==
          Some(TurnState([NODE], [], Some(Confirm(NODE.id, NodeHash(NODE))), false, 0, 0, None, None, None, 1140))
  {
    hide Run, NodeHash, WorkflowHash, IdsOf;
    steps := FirstTurn(rules);
    assert Classify(YES) == Yes;
    steps := RunThen(rules, steps, Begin(YES, [NODE], [], 600));
  }

  lemma Sent(rules: Rules) returns (steps: seq<Step>)
    requires rules == ExampleRules()
    ensures var w := Run(rules, steps);
      && |w.starts| == 2 && w.sends == [Send(1, NODE, Write)] && w.flying == {0} && w.session.tests == map[]
      && w.turn.Some? && w.turn.value.nodes == [NODE] && w.turn.value.edges == [] && w.turn.value.pending == None
  {
    hide Run, NodeHash, WorkflowHash, IdsOf, SkippedUpstream;
    steps := Confirmed(rules);
    var t := Run(rules, steps).turn.value;
    assert NodeAt(t.nodes, NODE.id) == Some(NODE) && KindOf(rules, NODE) == Write && !Unkeyed(NODE);
    steps := RunThen(rules, steps, BeginTest(NODE.id, 600));
  }

  lemma Tested(rules: Rules) returns (steps: seq<Step>)
    requires rules == ExampleRules()
    ensures var w := Run(rules, steps);
      && |w.starts| == 2 && |w.sends| == 1 && w.sends[0] == Send(1, NODE, Write)
      && w.turn.Some? && w.turn.value.nodes == [NODE] && w.turn.value.edges == [] && w.turn.value.pending == None
      && w.session.tests == map[NODE.id := Test(Success, NodeHash(NODE))]
  {
    hide Run, NodeHash, WorkflowHash, StartTest, Attempts;
    steps := Sent(rules);
    steps := RunThen(rules, steps, EndTest(0, Ran(true)));
  }

  lemma Finished(rules: Rules) returns (steps: seq<Step>)
    requires rules == ExampleRules()
    ensures var w := Run(rules, steps);
      && |w.starts| == 2 && |w.sends| == 1 && w.sends[0] == Send(1, NODE, Write)
      && w.turn.Some? && w.turn.value.nodes == [NODE]
      && w.turn.value.pending == Some(Pending(false, FINISH, WorkflowHash([NODE], []), false, []))
  {
    hide Run, NodeHash, WorkflowHash, StartTest, FinishTest, Attempts;
    steps := Tested(rules);
    var w := Run(rules, steps);
    assert NodeStatus(NODE, w.session) == Success && !Unkeyed(NODE);
    assert Remaining([NODE], w.session) == [] && FirstUnkeyed([NODE]) == None;
    steps := RunThen(rules, steps, CallFinish);
  }

  /** The second: the user says yes, the node is tested with success, and finish asks to complete. */
  lemma SecondTurn(rules: Rules) returns (steps: seq<Step>)
    requires rules == ExampleRules()
    ensures var w := Run(rules, steps);
      && w.turn.None? && |w.starts| == 2 && |w.sends| == 1 && w.sends[0] == Send(1, NODE, Write)
      && w.session.pending == Some(Pending(false, FINISH, WorkflowHash([NODE], []), false, []))
  {
    hide Run, NodeHash, WorkflowHash, SameShape, SameEdges, Attempts;
    steps := Finished(rules);
    steps := RunThen(rules, steps, CloseTurn(false, false));
  }

  /** The third: the user says yes to the same nodes, and the workflow is complete. */
  lemma SomeRunCompletes() returns (rules: Rules, steps: seq<Step>)
    ensures var w := Run(rules, steps);
      |w.starts| == 3 && w.starts[2].done && |w.sends| == 1 && w.sends[0].kind == Write
  {
    hide Run, NodeHash, WorkflowHash, IdsOf;
    rules := ExampleRules();
    steps := SecondTurn(rules);
    steps := RunThen(rules, steps, Begin(YES, [NODE], [], 1200));
  }
}
