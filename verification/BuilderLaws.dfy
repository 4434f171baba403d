/**
 * What each operation of a turn must do, case by case, said of the reply, the catalog, the findings,
 * the hashes and the records, and not of how the operation is written.
 */
module BuilderLaws {
  import opened Wrappers
  import Text
  import opened Json
  import opened Workflow
  import opened ModelPick
  import opened Flow
  import opened BuilderSpec
  import opened BuilderRuns

  // ----- the judgement of a reply

  /** A question about a node waits. */
  predicate AsksAbout(s: Session, p: Pending) {
    s.pending == Some(p) && !p.modelPick && p.nodeId != FINISH
  }

  /** A no, or a yes where only skipping was offered. */
  predicate MeansSkip(reply: Reply, p: Pending) {
    reply == No || (reply == Yes && p.skipOnly)
  }

  /**
   * A reply that means skip puts the skip of the copy asked about on record; a plain yes confirms
   * exactly that copy; anything else does neither.
   */
  lemma ReplyToTest(rules: Rules, s: Session, p: Pending, prompt: string, nodes: seq<Node>, edges: seq<Edge>)
    requires AsksAbout(s, p)
    ensures var j, reply := Judge(rules, s, prompt, nodes, edges), rules.classify(prompt);
      && (MeansSkip(reply, p) ==> p.nodeId in j.tests && j.tests[p.nodeId] == Test(Skipped, p.hash))
      && j.confirmed == (if reply == Yes && !p.skipOnly then Some(Confirm(p.nodeId, p.hash)) else None)
      && !j.done && j.nodes == nodes
  {
    hide IdsOf, BaselineOf, NodeHash;
  }

  /** A question whether to complete: done exactly on a yes to the nodes and edges asked about. */
  lemma ReplyToFinish(rules: Rules, s: Session, p: Pending, prompt: string, nodes: seq<Node>, edges: seq<Edge>)
    requires s.pending == Some(p) && !p.modelPick && p.nodeId == FINISH
    ensures var j := Judge(rules, s, prompt, nodes, edges);
      && (j.done <==>
          rules.classify(prompt) == Yes && p.hash == WorkflowDigest(HashedNodes(nodes), HashedEdges(edges)))
      && j.confirmed == None && j.nodes == nodes
  {
    hide IdsOf, BaselineOf, HashedNodes, HashedEdges;
  }

  /** Without a waiting question, and with a card, nothing is confirmed and nothing completes. */
  lemma NothingToConfirm(rules: Rules, s: Session, prompt: string, nodes: seq<Node>, edges: seq<Edge>)
    requires s.pending.None? || s.pending.value.modelPick
    ensures var j := Judge(rules, s, prompt, nodes, edges);
      && !j.done && j.confirmed == None
      && (s.pending.None? ==> j.nodes == nodes)
  {
    hide IdsOf, BaselineOf, PickedNodes;
  }

  /** Every other record is kept exactly if its node was sent, and as it was. */
  lemma RecordsPruned(rules: Rules, s: Session, prompt: string, nodes: seq<Node>, edges: seq<Edge>, id: Json)
    requires forall p :: AsksAbout(s, p) && MeansSkip(rules.classify(prompt), p) ==> id != p.nodeId
    ensures var tests := Judge(rules, s, prompt, nodes, edges).tests;
      && (id in tests <==> id in s.tests && exists n :: n in nodes && n.id == id)
      && (id in tests ==> tests[id] == s.tests[id])
  {
    hide BaselineOf, PickedNodes, NodeHash, WorkflowHash;
    if s.pending.Some? && !s.pending.value.modelPick && s.pending.value.nodeId != FINISH {
      assert AsksAbout(s, s.pending.value);
    }
  }

  /** Place i is the last with this id. */
  predicate LastOf(nodes: seq<Node>, i: nat, id: Json) {
    i < |nodes| && nodes[i].id == id && forall j | i < j < |nodes| :: nodes[j].id != id
  }

  /** The baseline holds each id sent, with the hash of the later node where an id is sent twice. */
  lemma BaselineHolds(nodes: seq<Node>, id: Json)
    ensures id in BaselineOf(nodes) <==> exists n :: n in nodes && n.id == id
    ensures forall i: nat | LastOf(nodes, i, id) ::
      id in BaselineOf(nodes) && BaselineOf(nodes)[id] == NodeHash(nodes[i])
  {
    hide NodeHash, BaselineOf;
    BaselineKeys(nodes, id);
    forall i: nat | LastOf(nodes, i, id)
      ensures id in BaselineOf(nodes) && BaselineOf(nodes)[id] == NodeHash(nodes[i])
    {
      BaselineAt(nodes, i, id);
    }
  }

  lemma {:induction false} BaselineKeys(nodes: seq<Node>, id: Json)
    ensures id in BaselineOf(nodes) <==> exists n :: n in nodes && n.id == id
  {
    hide NodeHash;
    if nodes != [] {
      var init, last := nodes[..|nodes| - 1], nodes[|nodes| - 1];
      assert nodes == init + [last];
      BaselineKeys(init, id);
    }
  }

  lemma {:induction false} BaselineAt(nodes: seq<Node>, i: nat, id: Json)
    requires LastOf(nodes, i, id)
    ensures id in BaselineOf(nodes) && BaselineOf(nodes)[id] == NodeHash(nodes[i])
  {
    hide NodeHash;
    var init, last := nodes[..|nodes| - 1], nodes[|nodes| - 1];
    if i < |init| {
      assert last.id != id;
      assert forall j | 0 <= j < |init| :: init[j] == nodes[j];
      BaselineAt(init, i, id);
    }
  }

  /** The baseline of the session stays; a session without one takes that of the nodes sent. */
  lemma BaselineKept(rules: Rules, s: Session, prompt: string, nodes: seq<Node>, edges: seq<Edge>)
    ensures Judge(rules, s, prompt, nodes, edges).baseline ==
      match s.baseline case Some(b) => b case None => BaselineOf(nodes)
  {
    hide IdsOf, BaselineOf, NodeHash, WorkflowHash, PickedNodes;
  }

  // ----- the status of a node

  /** A record of the copy decides; without any record, the baseline; else the node is untested. */
  lemma StatusTable(n: Node, s: Session, status: Status)
    ensures NodeStatus(n, s) == status <==>
      || (n.id in s.tests && s.tests[n.id] == Test(status, NodeHash(n)))
      || (n.id !in s.tests && status == Passed && s.baseline.Some? && n.id in s.baseline.value
          && s.baseline.value[n.id] == NodeHash(n))
      || (status == Untested && n.id in s.tests && s.tests[n.id].hash != NodeHash(n))
      || (status == Untested && n.id !in s.tests
          && (s.baseline.None? || n.id !in s.baseline.value || s.baseline.value[n.id] != NodeHash(n)))
  {
    hide NodeHash;
  }

  /** A missing key of an AI node: nothing there, or nothing but space. */
  lemma KeyMissing(n: Node)
    ensures Unkeyed(n) <==> n.event == Str("ai.reasoning") && match Get(n.config, "credentialId")
      case Null => true
      case Bool(b) => !b
      case Int(i) => i == 0
      case Float(r) => r == 0.0
      case Str(text) => forall i | 0 <= i < |text| :: Text.IsSpace(text[i])
      case Arr(items) => |items| == 0
      case Obj(fields) => |fields| == 0
  {
  }

  // ----- the start of a node test

  /** The finding is the node's own: it names the node and is not about the graph. */
  predicate OwnFinding(e: Error, id: Json) {
    && (match id case Str(s) => e.nodeId == Some(s) case Null => e.nodeId == None case _ => false)
    && e.code != TRIGGER_COUNT && e.code != ORPHAN_NODE && e.code != EDGE_INVALID
  }

  lemma {:induction false} OwnErrorsAre(errors: seq<Error>, id: Json)
    ensures forall e :: e in OwnErrors(errors, id) <==> e in errors && OwnFinding(e, id)
  {
    if errors != [] {
      OwnErrorsAre(errors[1..], id);
      assert errors == [errors[0]] + errors[1..];
    }
  }

  /** n is the node of the id, not one that listens, and the validator has nothing to say about it. */
  ghost predicate Testable(rules: Rules, t: TurnState, id: Json, n: Node) {
    && NodeAt(t.nodes, id) == Some(n) && !Listens(rules, n)
    && !(exists e :: e in rules.validate(t.nodes, t.edges) && OwnFinding(e, id))
  }

  predicate ConfirmedCopy(t: TurnState, n: Node) {
    t.confirmed == Some(Confirm(n.id, NodeHash(n)))
  }

  /** The node may be run: it needs no yes, or has one that is not used up. */
  predicate Allowed(rules: Rules, t: TurnState, n: Node) {
    NeedsYes(rules, n) ==> ConfirmedCopy(t, n) && !t.confirmUsed
  }

  lemma NoOwnErrors(errors: seq<Error>, id: Json)
    ensures OwnErrors(errors, id) == [] <==> !(exists e :: e in errors && OwnFinding(e, id))
  {
    OwnErrorsAre(errors, id);
    var own := OwnErrors(errors, id);
    if own != [] { assert own[0] in own; }
  }

  /** A node that is not there, a listening trigger, and a node with findings of its own. */
  lemma TestRefused(rules: Rules, t: TurnState, s: Session, id: Json, now: int)
    ensures var r := StartTest(rules, t, s, id, now);
      && (r.reply == NoSuchNode <==> forall n | n in t.nodes :: n.id != id)
      && (r.reply == SkippedListen <==> exists n :: NodeAt(t.nodes, id) == Some(n) && Listens(rules, n))
      && (r.reply == SkippedListen ==>
          r.session == s.(tests := s.tests[id := Test(Skipped, NodeHash(NodeAt(t.nodes, id).value))]))
      && (r.reply.Blocked? <==>
          && HasNode(t.nodes, id) && !Listens(rules, NodeAt(t.nodes, id).value)
          && exists e :: e in rules.validate(t.nodes, t.edges) && OwnFinding(e, id))
      && (r.reply.Blocked? ==>
          forall e :: e in r.reply.errors <==> e in rules.validate(t.nodes, t.edges) && OwnFinding(e, id))
      && (r.reply in {NoSuchNode, SkippedListen} || r.reply.Blocked? ==> r.turn == t && r.sent == None)
      && (r.reply == NoSuchNode || r.reply.Blocked? ==> r.session == s)
  {
    hide NodeHash, KindOf, Listens, NeedsYes, Unkeyed, OwnErrors, SkippedUpstream, Hold, OwnFinding;
    var found := NodeAt(t.nodes, id);
    if found.Some? {
      KindTable(rules, found.value);
      assert found.value in t.nodes;
    }
    NoOwnErrors(rules.validate(t.nodes, t.edges), id);
    OwnErrorsAre(rules.validate(t.nodes, t.edges), id);
  }

  /** The user is asked first exactly if the node needs a yes and this copy has none. */
  lemma TestAsks(rules: Rules, t: TurnState, s: Session, id: Json, now: int)
    ensures var r := StartTest(rules, t, s, id, now);
      && (r.reply in {Awaiting, ModelFirst} <==>
          exists n :: Testable(rules, t, id, n) && NeedsYes(rules, n) && !ConfirmedCopy(t, n))
      && (r.reply in {Awaiting, ModelFirst} ==> Asks(rules, t, s, id, r))
  {
    hide NodeHash, KindOf, Listens, NeedsYes, Unkeyed, OwnErrors, SkippedUpstream, Hold, OwnFinding, Asks;
    var found := NodeAt(t.nodes, id);
    NoOwnErrors(rules.validate(t.nodes, t.edges), id);
    if found.Some? {
      KindTable(rules, found.value);
      AsksSo(rules, t, s, id, now);
    }
  }

  /**
   * The question is about this copy and offers only to skip where some node with a path to it is
   * skipped; a card that waits is not displaced, and nothing else changes.
   */
  ghost predicate Asks(rules: Rules, t: TurnState, s: Session, id: Json, r: Started)
    requires HasNode(t.nodes, id)
  {
    var skip := exists a, m ::
      Upstream(IdsOf(t.nodes), t.edges, a, id) && NodeAt(t.nodes, a) == Some(m) && NodeStatus(m, s) == Skipped;
    var p := Pending(false, id, NodeHash(NodeAt(t.nodes, id).value), skip, []);
    var card := t.pending.Some? && t.pending.value.modelPick;
    && r.session == s && r.sent == None && (r.reply == ModelFirst <==> card)
    && r.turn == if card then t else t.(pending := Some(p), ask := Some(if skip then AskSkip(id) else AskTest(id)))
  }

  lemma AsksSo(rules: Rules, t: TurnState, s: Session, id: Json, now: int)
    requires HasNode(t.nodes, id)
    ensures StartTest(rules, t, s, id, now).reply in {Awaiting, ModelFirst} ==>
      Asks(rules, t, s, id, StartTest(rules, t, s, id, now))
  {
    hide NodeHash, KindOf, Unkeyed, OwnErrors, NodeStatus, Upstream, IdsOf;
    var skip := exists a, m ::
      Upstream(IdsOf(t.nodes), t.edges, a, id) && NodeAt(t.nodes, a) == Some(m) && NodeStatus(m, s) == Skipped;
    assert SkippedUpstream(t, s, id) <==> skip by {
      if SkippedUpstream(t, s, id) {
        var a :| Upstream(IdsOf(t.nodes), t.edges, a, id) && HasNode(t.nodes, a)
          && NodeStatus(NodeAt(t.nodes, a).value, s) == Skipped;
        assert NodeAt(t.nodes, a) == Some(NodeAt(t.nodes, a).value);
      }
    }
  }

  /** A test is sent exactly if nothing stands in its way: findings, the user's yes, a key, budget, time. */
  lemma TestSent(rules: Rules, t: TurnState, s: Session, id: Json, now: int)
    ensures var r := StartTest(rules, t, s, id, now);
      && (r.sent.Some? <==>
          exists n :: Testable(rules, t, id, n) && Allowed(rules, t, n) && !Unkeyed(n) && t.testRuns < 3
            && now + 200 <= t.deadline)
      && (r.sent.Some? <==> r.reply == Running)
      && (r.sent.Some? ==>
          var n := NodeAt(t.nodes, id);
          && n == Some(r.sent.value.node) && r.sent.value.kind == KindOf(rules, n.value)
          && r.turn == t.(testRuns := t.testRuns + 1, confirmUsed := t.confirmUsed || NeedsYes(rules, n.value))
          && r.session == if NeedsYes(rules, n.value) then s.(confirmed := None) else s)
  {
    hide NodeHash, KindOf, Listens, NeedsYes, Unkeyed, OwnErrors, SkippedUpstream, Hold, OwnFinding;
    var found := NodeAt(t.nodes, id);
    NoOwnErrors(rules.validate(t.nodes, t.edges), id);
    if found.Some? { KindTable(rules, found.value); }
  }

  /** What else holds a test back, in the order of the checks; nothing changes then. */
  lemma TestHeldBack(rules: Rules, t: TurnState, s: Session, id: Json, now: int)
    ensures var r := StartTest(rules, t, s, id, now);
      && (r.reply == AlreadyTested <==>
          exists n :: Testable(rules, t, id, n) && NeedsYes(rules, n) && ConfirmedCopy(t, n) && t.confirmUsed)
      && (r.reply == NeedsCard <==> exists n :: Testable(rules, t, id, n) && Allowed(rules, t, n) && Unkeyed(n))
      && (r.reply == LimitReached <==>
          exists n :: Testable(rules, t, id, n) && Allowed(rules, t, n) && !Unkeyed(n) && t.testRuns >= 3)
      && (r.reply == ShortOnTime <==>
          exists n :: Testable(rules, t, id, n) && Allowed(rules, t, n) && !Unkeyed(n) && t.testRuns < 3
            && now + 200 > t.deadline)
      && (r.reply in {AlreadyTested, NeedsCard, LimitReached, ShortOnTime} ==>
          r.turn == t && r.session == s && r.sent == None)
  {
    hide NodeHash, KindOf, Listens, NeedsYes, Unkeyed, OwnErrors, SkippedUpstream, Hold, OwnFinding;
    var found := NodeAt(t.nodes, id);
    NoOwnErrors(rules.validate(t.nodes, t.edges), id);
    if found.Some? { KindTable(rules, found.value); }
  }

  // ----- the answer to a node test

  /**
   * Samples are missing: the node is skipped too exactly if it is no write node and all those nodes
   * are there and skipped.
   */
  lemma SamplesMissing(t: TurnState, s: Session, sent: Sending, missing: seq<Json>)
    ensures var r := FinishTest(t, s, sent, SampleMissing(missing));
      var excused := sent.kind != Write && missing != [] && forall m | m in missing :: WasSkipped(t.nodes, s, m);
      && r.turn == t
      && r.reply == (if excused then SkippedToo else MissingUpstream)
      && r.session ==
         if excused then s.(tests := s.tests[sent.node.id := Test(Skipped, NodeHash(sent.node))]) else s
  {
    hide NodeHash;
  }

  /** The test ran: its result is on record for the copy that was sent; another error leaves no trace. */
  lemma ResultRecorded(t: TurnState, s: Session, sent: Sending)
    ensures FinishTest(t, s, sent, OtherError) == Finished(t, s, Refused)
    ensures FinishTest(t, s, sent, Ran(true)) ==
      Finished(t, s.(tests := s.tests[sent.node.id := Test(Success, NodeHash(sent.node))]), Succeeded)
    ensures var r := FinishTest(t, s, sent, Ran(false));
      && r.session == s.(tests := s.tests[sent.node.id := Test(Failed, NodeHash(sent.node))]) && r.reply == RunFailed
      && (sent.kind != AppTrigger || (t.pending.Some? && t.pending.value.modelPick) ==> r.turn == t)
      && (sent.kind == AppTrigger && !(t.pending.Some? && t.pending.value.modelPick) ==>
          r.turn == t.(pending := Some(Pending(false, sent.node.id, NodeHash(sent.node), false, [])),
                       ask := Some(AskRetry(sent.node.id))))
  {
    hide NodeHash;
  }

  // ----- the finish call

  predicate FirstUnkeyedAt(nodes: seq<Node>, i: nat) {
    i < |nodes| && Unkeyed(nodes[i]) && forall j | 0 <= j < i :: !Unkeyed(nodes[j])
  }

  lemma {:induction false} FirstUnkeyedIs(nodes: seq<Node>)
    ensures FirstUnkeyed(nodes).Some? ==>
      exists i: nat :: FirstUnkeyedAt(nodes, i) && FirstUnkeyed(nodes) == Some(nodes[i])
  {
    hide Unkeyed;
    if nodes != [] && !Unkeyed(nodes[0]) && FirstUnkeyed(nodes[1..]).Some? {
      FirstUnkeyedIs(nodes[1..]);
      var rest := nodes[1..];
      var i: nat :| FirstUnkeyedAt(rest, i) && FirstUnkeyed(rest) == Some(rest[i]);
      assert nodes[i + 1] == rest[i];
      forall j | 0 <= j < i + 1 ensures !Unkeyed(nodes[j]) {
        if j > 0 { assert nodes[j] == rest[j - 1]; }
      }
      assert FirstUnkeyedAt(nodes, i + 1);
    } else if nodes != [] && Unkeyed(nodes[0]) {
      assert FirstUnkeyedAt(nodes, 0);
    }
  }

  predicate Settles(status: Status) {
    status in {Success, Skipped, Passed}
  }

  lemma {:induction false} RemainingAre(nodes: seq<Node>, s: Session)
    ensures forall n :: n in Remaining(nodes, s) <==> n in nodes && !Settles(NodeStatus(n, s))
  {
    hide NodeStatus;
    if nodes != [] {
      RemainingAre(nodes[1..], s);
      assert nodes == [nodes[0]] + nodes[1..];
    }
  }

  /** A card comes first, then what is left to do; else the user is asked, unless a card waits. */
  lemma FinishCall(rules: Rules, t: TurnState, s: Session)
    ensures var (t', reply) := Finish(rules, t, s);
      var keyed := forall n | n in t.nodes :: !Unkeyed(n);
      var clear := (forall n | n in t.nodes :: Settles(NodeStatus(n, s))) && rules.validate(t.nodes, t.edges) == [];
      var card := t.pending.Some? && t.pending.value.modelPick;
      && (reply.CardFirst? <==> !keyed)
      && (reply.CardFirst? ==> exists i: nat :: FirstUnkeyedAt(t.nodes, i) && reply.node == t.nodes[i])
      && (reply.NotYet? <==> keyed && !clear)
      && (reply.NotYet? ==>
          && reply.errors == rules.validate(t.nodes, t.edges)
          && forall n :: n in reply.left <==> n in t.nodes && !Settles(NodeStatus(n, s)))
      && (reply.AskLater? <==> keyed && clear && card)
      && (reply.AskedToFinish? <==> keyed && clear && !card)
      && t' == if reply.AskedToFinish?
               then t.(pending := Some(Pending(false, Str("__finish__"),
                                               WorkflowDigest(HashedNodes(t.nodes), HashedEdges(t.edges)), false, [])),
                       ask := Some(AskFinish))
               else t
  {
    hide NodeStatus, Unkeyed, HashedNodes, HashedEdges;
    RemainingAre(t.nodes, s);
    FirstUnkeyedIs(t.nodes);
    var left := Remaining(t.nodes, s);
    if left != [] { assert left[0] in left; }
  }

  // ----- the end of a turn

  /** A node or edge as a dump shows it: the order of keys inside a config does not show. */
  function Shown(n: Node): (Canonical, Canonical, Canonical, Canonical, Canonical) {
    (Canon(n.id), Canon(n.typ), Canon(n.event), Canon(n.title), Canon(n.config))
  }

  function ShownEdge(e: Edge): (Canonical, Canonical, Canonical) {
    (Canon(e.source), Canon(e.target), Canon(e.branch))
  }

  /** Some node or edge was added, dropped, moved or is shown otherwise. */
  ghost predicate Differs(a: seq<Node>, b: seq<Node>, ea: seq<Edge>, eb: seq<Edge>) {
    || |a| != |b| || |ea| != |eb|
    || (exists i :: 0 <= i < |a| && Shown(a[i]) != Shown(b[i]))
    || (exists i :: 0 <= i < |ea| && ShownEdge(ea[i]) != ShownEdge(eb[i]))
  }

  lemma DiffersIff(a: seq<Node>, b: seq<Node>, ea: seq<Edge>, eb: seq<Edge>)
    ensures Differs(a, b, ea, eb) <==> !(SameShape(a, b) && SameEdges(ea, eb))
  {
    hide Canon;
    if !Differs(a, b, ea, eb) {
      assert forall i | 0 <= i < |a| :: Shown(a[i]) == Shown(b[i]);
      assert forall i | 0 <= i < |ea| :: ShownEdge(ea[i]) == ShownEdge(eb[i]);
    }
    if SameShape(a, b) && SameEdges(ea, eb) {
      forall i | 0 <= i < |a| ensures Shown(a[i]) == Shown(b[i]) {}
      forall i | 0 <= i < |ea| ensures ShownEdge(ea[i]) == ShownEdge(eb[i]) {}
    }
  }

  function Waiting(t: TurnState): Option<Attempt>
    requires t.pending.Some? <==> t.ask.Some?
  {
    if t.pending.Some? then Some(Attempt(t.pending.value, t.ask.value)) else None
  }

  function OptionsOf(kept: Option<Attempt>): seq<Choice> {
    if kept.Some? && kept.value.pending.modelPick then kept.value.pending.choices else []
  }

  /**
   * An error is raised exactly if nothing changed; otherwise the nodes go out as they are, with the
   * question that is kept, and the options are those of a card that is kept.
   */
  lemma TurnCloses(t: TurnState, s: Session, nodes: seq<Node>, edges: seq<Edge>, failed: bool, lost: bool)
    requires t.pending.Some? <==> t.ask.Some?
    ensures var c, changed := Close(t, s, nodes, edges, failed, lost), Differs(t.nodes, nodes, t.edges, edges);
      var kept := Kept(Waiting(t), t.nodes, failed);
      match c.response
      case None => failed && !changed && c.session == s
      case Some(r) =>
        && (!failed || changed) && r.changed == changed && r.nodes == t.nodes && r.options == OptionsOf(kept)
        && c.session == s.(pending := c.session.pending, confirmed := c.session.confirmed)
        && (if lost then c.session == s && Stands(kept, if kept.Some? then Some(kept.value.pending) else None, r.ask)
            else c.session.confirmed == None && Stands(kept, c.session.pending, r.ask))
  {
    hide NodeHash, SameShape, SameEdges, Differs;
    DiffersIff(t.nodes, nodes, t.edges, edges);
  }

  // ----- cards and lookups

  /** A card is put for this copy of the node with these choices, unless there are none or a card waits. */
  lemma CardPut(t: TurnState, n: Node, choices: seq<Choice>)
    ensures HoldCard(t, n, choices) ==
      if choices == [] || (t.pending.Some? && t.pending.value.modelPick) then t
      else t.(pending := Some(Pending(true, n.id, NodeHash(n), false, choices)), ask := Some(AskModel(choices)))
  {
    hide NodeHash;
  }

  /** A lookup goes through exactly while 35 seconds and one of five are left, and takes one. */
  lemma LookupSpent(t: TurnState, now: int)
    ensures var (t', ok) := SpendLookup(t, now);
      && (ok <==> now + 35 <= t.deadline && t.lookups < 5)
      && t' == if ok then t.(lookups := t.lookups + 1) else t
  {
  }

  /**
   * A connection check needs 35 seconds, a new list of choices twice as much; a list that is there is
   * not fetched again.
   */
  lemma CallsStart(rules: Rules, w: World, at: int)
    requires w.turn.Some? && w.starts != []
    ensures var t := w.turn.value;
      var check, fetch := Apply(rules, w, CheckConnection(at)), Apply(rules, w, FetchChoices(at));
      && check.calls == (if at + 35 <= t.deadline then w.calls + [Call(|w.starts| - 1, at, 30)] else w.calls)
      && fetch.calls ==
         (if t.choices.None? && at + 70 <= t.deadline then w.calls + [Call(|w.starts| - 1, at, 60)] else w.calls)
      && check.turn == fetch.turn == w.turn
  {
    hide Attempts;
  }

  // ----- what a hash sees

  lemma {:induction false} CanonOfPut(fields: seq<(string, Json)>, k: string, v: Json)
    ensures CanonFields(Put(fields, k, v)) == CanonFields(fields)[k := Canon(v)]
  {
    hide Canon;
    if fields != [] {
      var rest := fields[1..];
      if fields[0].0 == k {
        assert Put(fields, k, v)[1..] == rest;
      } else {
        assert Put(fields, k, v)[1..] == Put(rest, k, v) && Put(fields, k, v)[0] == fields[0];
        CanonOfPut(rest, k, v);
      }
    }
  }

  /** Id, type and title do not show in the hash, nor does brand; any other config field does. */
  lemma HashSees(n: Node, k: string, v: Json)
    ensures forall id, typ, title :: NodeHash(n.(id := id, typ := typ, title := title)) == NodeHash(n)
    ensures forall event :: NodeHash(n.(event := event)) == NodeHash(n) <==> Canon(event) == Canon(n.event)
    ensures var m := n.(config := Obj(Put(ConfigFields(n), k, v)));
      NodeHash(m) == NodeHash(n) <==>
        k == "brand" || (k in CanonFields(ConfigFields(n)) && CanonFields(ConfigFields(n))[k] == Canon(v))
  {
    hide Canon, CanonFields;
    CanonOfPut(ConfigFields(n), k, v);
    var was := CanonFields(ConfigFields(n));
    var now := was[k := Canon(v)];
    if k == "brand" {
      assert now - {"brand"} == was - {"brand"};
    } else {
      assert k in now - {"brand"} && (now - {"brand"})[k] == Canon(v);
      if k in was && was[k] == Canon(v) { assert now == was; }
      if k in was { assert (was - {"brand"})[k] == was[k]; }
    }
  }

  lemma Regrouped<T>(x: multiset<T>, a: multiset<T>, b: multiset<T>)
    ensures x + a + b == x + (a + b)
  {
  }

  lemma FirstNodeCounted(n: Node, rest: seq<Node>)
    ensures HashedNodes([n] + rest) == multiset{(n.id, NodeHash(n))} + HashedNodes(rest)
  {
    hide NodeHash;
    assert ([n] + rest)[1..] == rest;
  }

  /** The hash of a workflow counts every node with its id and hash. */
  lemma {:induction false} NodesCounted(a: seq<Node>, b: seq<Node>)
    ensures HashedNodes(a + b) == HashedNodes(a) + HashedNodes(b)
  {
    if a == [] {
      assert a + b == b && HashedNodes([]) == multiset{};
      hide HashedNodes;
    } else {
      hide HashedNodes, NodeHash;
      var n, rest := a[0], a[1..];
      assert a == [n] + rest && a + b == [n] + (rest + b);
      NodesCounted(rest, b);
      FirstNodeCounted(n, rest);
      FirstNodeCounted(n, rest + b);
      Regrouped(multiset{(n.id, NodeHash(n))}, HashedNodes(rest), HashedNodes(b));
    }
  }

  lemma OneNodeCounted(n: Node)
    ensures HashedNodes([n]) == multiset{(n.id, NodeHash(n))}
  {
    hide NodeHash;
    assert [n][1..] == [];
  }

  lemma FirstEdgeCounted(e: Edge, rest: seq<Edge>)
    ensures HashedEdges([e] + rest) == multiset{(e.source, e.target, e.branch)} + HashedEdges(rest)
  {
    assert ([e] + rest)[1..] == rest;
  }

  /** And every edge with its ends and its branch value. */
  lemma {:induction false} EdgesCounted(a: seq<Edge>, b: seq<Edge>)
    ensures HashedEdges(a + b) == HashedEdges(a) + HashedEdges(b)
  {
    if a == [] {
      assert a + b == b && HashedEdges([]) == multiset{};
      hide HashedEdges;
    } else {
      hide HashedEdges;
      var e, rest := a[0], a[1..];
      assert a == [e] + rest && a + b == [e] + (rest + b);
      EdgesCounted(rest, b);
      FirstEdgeCounted(e, rest);
      FirstEdgeCounted(e, rest + b);
      Regrouped(multiset{(e.source, e.target, e.branch)}, HashedEdges(rest), HashedEdges(b));
    }
  }

  lemma OneEdgeCounted(e: Edge)
    ensures HashedEdges([e]) == multiset{(e.source, e.target, e.branch)}
  {
    assert [e][1..] == [];
  }
}
