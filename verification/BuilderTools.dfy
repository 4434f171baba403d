/**
 * The builder as the program runs it: two objects updated in place, the session state and the
 * working copy of a turn. Every method is proved to do to them what BuilderSpec says.
 */
module BuilderTools {
  import opened Wrappers
  import opened Json
  import opened Workflow
  import opened Flow
  import opened ModelPick
  import Spec = BuilderSpec
  import Edit = GraphEdit

  class SessionState {
    var tests: map<Json, Spec.Test>
    var baseline: Option<map<Json, Digest>>
    var pending: Option<Spec.Pending>
    var confirmed: Option<Spec.Confirm>

    constructor ()
      ensures View() == Spec.Session(map[], None, None, None)
    {
      tests, baseline, pending, confirmed := map[], None, None, None;
    }

    function View(): Spec.Session
      reads this
    {
      Spec.Session(tests, baseline, pending, confirmed)
    }

    /** `_record`: the whole value is put back, so no other record is lost. */
    method Record(id: Json, status: Spec.Status, h: Digest)
      modifies this`tests
      ensures View() == Spec.Record(old(View()), id, status, h)
    {
      tests := tests[id := Spec.Test(status, h)];
    }

    /**
     * `judge_turn_start`: reads the reply to the waiting question, forgets the question, and hands
     * the nodes of the new turn on, with a chosen model written in.
     */
    method JudgeTurnStart(rules: Spec.Rules, prompt: string, nodes: seq<Node>, edges: seq<Edge>)
      returns (newNodes: seq<Node>, done: bool)
      modifies this
      ensures var j := Spec.Judge(rules, old(View()), prompt, nodes, edges);
        && newNodes == j.nodes && done == j.done
        && View() == Spec.Session(j.tests, Some(j.baseline), None, j.confirmed)
    {
      var ids := IdsOf(nodes);
      tests := map k | k in tests && k in ids :: tests[k];
      if baseline.None? {
        baseline := Some(BaselineOf(nodes));
      }
      newNodes, done := nodes, false;
      var asked := pending;
      pending, confirmed := None, None;
      if asked.Some? {
        var p := asked.value;
        if p.modelPick {
          newNodes := Spec.PickedNodes(p, prompt, nodes);
        } else {
          var reply := rules.classify(prompt);
          if p.nodeId == Spec.FINISH {
            done := reply == Spec.Yes && WorkflowHash(nodes, edges) == p.hash;
          } else if reply == Spec.No || (reply == Spec.Yes && p.skipOnly) {
            Record(p.nodeId, Spec.Skipped, p.hash);
          } else if reply == Spec.Yes {
            confirmed := Some(Spec.Confirm(p.nodeId, p.hash));
          }
        }
      }
    }
  }

  class Turn {
    var nodes: seq<Node>
    var edges: seq<Edge>
    const confirmed: Option<Spec.Confirm>
    var confirmUsed: bool
    var lookups: nat
    var testRuns: nat
    var pending: Option<Spec.Pending>
    var ask: Option<Spec.Question>
    var choices: Option<seq<Choice>>
    const deadline: int

    constructor (nodes: seq<Node>, edges: seq<Edge>, confirmed: Option<Spec.Confirm>, deadline: int)
      ensures View() == Spec.TurnState(nodes, edges, confirmed, false, 0, 0, None, None, None, deadline)
    {
      this.nodes, this.edges, this.confirmed, this.deadline := nodes, edges, confirmed, deadline;
      confirmUsed, lookups, testRuns := false, 0, 0;
      pending, ask, choices := None, None, None;
    }

    function View(): Spec.TurnState
      reads this
    {
      Spec.TurnState(nodes, edges, confirmed, confirmUsed, lookups, testRuns, pending, ask, choices, deadline)
    }

    function GraphView(): Edit.Graph
      reads this
    {
      Edit.Graph(nodes, edges)
    }

    /** `add_node`, after the connection and key checks gave their verdict. id is a fresh name. */
    method AddNode(
      rules: Spec.Rules, item: Option<Edit.MenuItem>, id: string, title: string,
      after: string, branch: string, admitted: bool)
      returns (reply: Edit.EditReply)
      modifies this`nodes, this`edges
      ensures (GraphView(), reply) == Edit.AddNode(rules, old(GraphView()), item, id, title, after, branch, admitted)
    {
      if item.None? || !Edit.Offered(rules, item.value) {
        return Edit.Declined;
      }
      if after != "" {
        var source := NodeAt(nodes, Str(after));
        if source.None? || item.value.nodeType == "TRIGGER" || Edit.BranchRefused(source.value, branch) {
          return Edit.Declined;
        }
      } else if branch != "" {
        return Edit.Declined;
      }
      if !admitted {
        return Edit.Declined;
      }
      nodes := nodes + [Node(Str(id), Str(item.value.nodeType), Str(item.value.event),
                             Str(if title != "" then title else item.value.title), item.value.config)];
      if after != "" {
        edges := edges + [Edit.NewEdge(Str(after), Str(id), branch)];
      }
      return Edit.Edited;
    }

    /** `connect` */
    method Connect(rules: Spec.Rules, source: string, target: string, branch: string) returns (reply: Edit.EditReply)
      modifies this`edges
      ensures (GraphView(), reply) == Edit.Connect(rules, old(GraphView()), source, target, branch)
    {
      var src, dst := NodeAt(nodes, Str(source)), NodeAt(nodes, Str(target));
      if src.None? || dst.None? || source == target ||
        Edit.ActsAsTrigger(rules, dst.value) || Edit.BranchRefused(src.value, branch) {
        return Edit.Declined;
      }
      if !Edit.HasEdge(edges, Str(source), Str(target), branch) {
        edges := edges + [Edit.NewEdge(Str(source), Str(target), branch)];
      }
      return Edit.Edited;
    }

    /** `remove_node` */
    method RemoveNode(id: string) returns (reply: Edit.EditReply)
      modifies this`nodes, this`edges
      ensures (GraphView(), reply) == Edit.RemoveNode(old(GraphView()), id)
    {
      if !HasNode(nodes, Str(id)) || |nodes| == 1 {
        return Edit.Declined;
      }
      nodes := Edit.Without(nodes, Str(id));
      edges := Edit.Detached(edges, Str(id));
      return Edit.Edited;
    }

    /** `_prune_branch_edges` */
    method PruneBranchEdges(n: Node)
      modifies this`edges
      ensures edges == Edit.Pruned(old(edges), n)
    {
      hide Edit.Pruned, Edit.StillAllowed;
      var kept := [];
      Edit.PrunedNone(n);
      for i := 0 to |edges|
        invariant edges == old(edges) && kept == Edit.Pruned(edges[..i], n)
      {
        assert edges[..i + 1] == edges[..i] + [edges[i]];
        Edit.PrunedSnoc(edges[..i], edges[i], n);
        if Edit.StillAllowed(n, edges[i]) {
          kept := kept + [edges[i]];
        }
      }
      assert edges[..|edges|] == edges;
      edges := kept;
    }

    /** `set_fields`, with the config its writes leave behind. */
    method SetFields(id: string, config: Json) returns (reply: Edit.EditReply)
      modifies this`nodes, this`edges
      ensures (GraphView(), reply) == Edit.SetConfig(old(GraphView()), id, config)
    {
      var found := NodeAt(nodes, Str(id));
      if found.None? {
        return Edit.Declined;
      }
      var n := found.value.(config := config);
      nodes := Edit.Replaced(nodes, Str(id), n);
      if n.event == BRANCH_IF {
        PruneBranchEdges(n);
      }
      return Edit.Edited;
    }

    /** `rename_node` */
    method RenameNode(id: string, title: string) returns (reply: Edit.EditReply)
      modifies this`nodes
      ensures (GraphView(), reply) == Edit.Rename(old(GraphView()), id, title)
    {
      var found := NodeAt(nodes, Str(id));
      if found.None? || title == "" {
        return Edit.Declined;
      }
      nodes := Edit.Replaced(nodes, Str(id), found.value.(title := Str(title)));
      return Edit.Edited;
    }

    /** `_hold` */
    method Hold(p: Spec.Pending, question: Spec.Question) returns (held: bool)
      modifies this`pending, this`ask
      ensures (View(), held) == Spec.Hold(old(View()), p, question)
    {
      if pending.Some? && pending.value.modelPick {
        return false;
      }
      pending, ask := Some(p), Some(question);
      return true;
    }

    /** `_ask_model`, once the choices are there. */
    method ShowCard(n: Node, card: seq<Choice>)
      modifies this`pending, this`ask
      ensures View() == Spec.HoldCard(old(View()), n, card)
    {
      if card != [] {
        var _ := Hold(Spec.CardFor(n, card), Spec.AskModel(card));
      }
    }

    /** `_spend_lookup` */
    method SpendLookup(now: int) returns (ok: bool)
      modifies this`lookups
      ensures (View(), ok) == Spec.SpendLookup(old(View()), now)
    {
      if deadline - now < Spec.MIN_LOOKUP_SECONDS || lookups >= Spec.MAX_LOOKUPS_PER_TURN {
        return false;
      }
      lookups := lookups + 1;
      return true;
    }

    /** Whether some node upstream was skipped: the search, then a pass over what it found. */
    method AnySkippedUpstream(state: SessionState, id: Json) returns (any: bool)
      requires HasNode(nodes, id)
      ensures any == Spec.SkippedUpstream(View(), state.View(), id)
    {
      hide Upstream, NodeHash;
      var above := BuilderAncestors(nodes, edges, id);
      for i := 0 to |above|
        invariant forall k | 0 <= k < i ::
          !(HasNode(nodes, above[k]) && Spec.NodeStatus(NodeAt(nodes, above[k]).value, state.View()) == Spec.Skipped)
      {
        var n := NodeAt(nodes, above[i]);
        if n.Some? && Spec.NodeStatus(n.value, state.View()) == Spec.Skipped {
          assert above[i] in above;
          return true;
        }
      }
      return false;
    }

    /** `test_node` up to the await. */
    method StartTest(rules: Spec.Rules, state: SessionState, id: Json, now: int)
      returns (reply: Spec.TestReply, sent: Option<Spec.Sending>)
      modifies this, state
      ensures Spec.Started(View(), state.View(), reply, sent) ==
        Spec.StartTest(rules, old(View()), old(state.View()), id, now)
    {
      hide Upstream, NodeHash, WorkflowHash, IdsOf, Spec.HowToTest, Spec.SkippedUpstream, Spec.OwnErrors,
        Spec.Unkeyed, Spec.NodeStatus;
      sent := None;
      var found := NodeAt(nodes, id);
      if found.None? {
        return Spec.NoSuchNode, None;
      }
      var n := found.value;
      var kind, h := Spec.KindOf(rules, n), NodeHash(n);
      if kind == Spec.Listen {
        state.Record(id, Spec.Skipped, h);
        return Spec.SkippedListen, None;
      }
      var own := Spec.OwnErrors(rules.validate(nodes, edges), id);
      if own != [] {
        return Spec.Blocked(own), None;
      }
      if kind == Spec.Write {
        var isConfirmed := confirmed == Some(Spec.Confirm(id, h));
        if isConfirmed && confirmUsed {
          return Spec.AlreadyTested, None;
        }
        if !isConfirmed {
          var skipOnly := AnySkippedUpstream(state, id);
          var held := Hold(Spec.Pending(false, id, h, skipOnly, []),
            if skipOnly then Spec.AskSkip(id) else Spec.AskTest(id));
          return if held then Spec.Awaiting else Spec.ModelFirst, None;
        }
      }
      if Spec.Unkeyed(n) {
        return Spec.NeedsCard, None;
      }
      if testRuns >= Spec.MAX_TESTS_PER_TURN {
        return Spec.LimitReached, None;
      }
      if deadline - now < Spec.MIN_TEST_SECONDS {
        return Spec.ShortOnTime, None;
      }
      if kind == Spec.Write {
        confirmUsed := true;
        state.confirmed := None;
      }
      testRuns := testRuns + 1;
      return Spec.Running, Some(Spec.Sending(n, kind));
    }

    /** `test_node` after the await. */
    method FinishTest(state: SessionState, sent: Spec.Sending, answer: Spec.Answer) returns (reply: Spec.TestReply)
      modifies this`pending, this`ask, state`tests
      ensures Spec.Finished(View(), state.View(), reply) ==
        Spec.FinishTest(old(View()), old(state.View()), sent, answer)
    {
      hide NodeHash;
      var id, h := sent.node.id, NodeHash(sent.node);
      match answer {
        case SampleMissing(missing) =>
          if sent.kind != Spec.Write && missing != [] && Spec.AllSkipped(View(), state.View(), missing) {
            state.Record(id, Spec.Skipped, h);
            return Spec.SkippedToo;
          }
          return Spec.MissingUpstream;
        case OtherError =>
          return Spec.Refused;
        case Ran(true) =>
          state.Record(id, Spec.Success, h);
          return Spec.Succeeded;
        case Ran(false) =>
          state.Record(id, Spec.Failed, h);
          if sent.kind == Spec.AppTrigger {
            var _ := Hold(Spec.Pending(false, id, h, false, []), Spec.AskRetry(id));
          }
          return Spec.RunFailed;
      }
    }

    /** `finish` */
    method Finish(rules: Spec.Rules, state: SessionState) returns (reply: Spec.FinishReply)
      modifies this`pending, this`ask
      ensures (View(), reply) == Spec.Finish(rules, old(View()), state.View())
    {
      hide NodeHash, WorkflowHash, Spec.Unkeyed, Spec.NodeStatus;
      var unkeyed := Spec.FirstUnkeyed(nodes);
      if unkeyed.Some? {
        return Spec.CardFirst(unkeyed.value);
      }
      var left, errors := Spec.Remaining(nodes, state.View()), rules.validate(nodes, edges);
      if left != [] || errors != [] {
        return Spec.NotYet(left, errors);
      }
      var held := Hold(Spec.Pending(false, Spec.FINISH, WorkflowHash(nodes, edges), false, []), Spec.AskFinish);
      return if held then Spec.AskedToFinish else Spec.AskLater;
    }

    /** The end of `build_turn`: only now is the question stored, together with the response that asks it. */
    method Close(state: SessionState, sentNodes: seq<Node>, sentEdges: seq<Edge>, failed: bool, lost: bool)
      returns (response: Option<Spec.Response>)
      modifies this`pending, this`ask, state`pending, state`confirmed
      ensures Spec.Closed(state.View(), response) ==
        Spec.Close(old(View()), old(state.View()), sentNodes, sentEdges, failed, lost)
    {
      hide NodeHash, Spec.SameShape, Spec.SameEdges;
      var changed := !(Spec.SameShape(nodes, sentNodes) && Spec.SameEdges(edges, sentEdges));
      if failed {
        if !changed {
          return None;
        }
        pending, ask := None, None;
      }
      var options := [];
      if pending.Some? && pending.value.modelPick {
        var target := NodeAt(nodes, pending.value.nodeId);
        if target.None? {
          pending, ask := None, None;
        } else {
          pending := Some(pending.value.(hash := NodeHash(target.value)));
          options := pending.value.choices;
        }
      }
      if !lost {
        state.pending, state.confirmed := pending, None;
      }
      return Some(Spec.Response(changed, nodes, ask, options));
    }
  }
}
