/**
 * One turn of the conversational builder: what the start-of-turn judgement, each tool and the end
 * of the turn do to the working copy and to the session, as functions from old to new state.
 */
module BuilderSpec {
  import opened Wrappers
  import opened Json
  import opened Workflow
  import opened ModelPick
  import opened Flow

  const MAX_LOOKUPS_PER_TURN := 5
  const MAX_TESTS_PER_TURN := 3
  const TURN_SECONDS := 540
  const MIN_TEST_SECONDS := 200
  const MIN_LOOKUP_SECONDS := 35
  const MIN_PICK_SECONDS := 2 * MIN_LOOKUP_SECONDS
  /** Longest time one backend round trip takes. */
  const TEST_TIMEOUT_SECONDS := 190
  const LOOKUP_TIMEOUT_SECONDS := 30

  /** Stands for a node id in the question that asks to finish. */
  const FINISH := Str("__finish__")

  // ----- how a node is tested

  datatype Kind = Write | Read | AppTrigger | Free | Listen

  datatype EventEntry = EventEntry(
    event: string, nodeType: string, kind: string, triggerType: string, provider: Option<string>)

  datatype Reply = Yes | No | Other

  /** What the model takes from outside: the event catalog, the reply word lists, the validator,
      the default model of a provider. */
  datatype Rules = Rules(
    entry: string -> Option<EventEntry>,
    classify: string -> Reply,
    validate: (seq<Node>, seq<Edge>) -> seq<Error>,
    defaultModel: string -> string)

  function HowToTest(rules: Rules, event: Json): Kind {
    if event == Str("http.request") then Write
    else if !event.Str? then Write
    else match rules.entry(event.s)
      case None => Write
      case Some(e) =>
        if e.event == "ai.agent" then Write
        else if e.nodeType == "ACTION" then (if e.kind == "action" then Write else Read)
        else if e.nodeType == "TRIGGER" then
          if e.triggerType == "WEBHOOK" then Listen
          else if e.provider.Some? && e.provider != Some("ieum") then AppTrigger else Free
        else Free
  }

  function KindOf(rules: Rules, n: Node): Kind {
    HowToTest(rules, n.event)
  }

  /** What the catalog says of the node's event. */
  function EntryOf(rules: Rules, n: Node): Option<EventEntry> {
    if n.event.Str? then rules.entry(n.event.s) else None
  }

  /** Whose test may have an effect outside: a request, an unknown event, an agent with tools, a writing action. */
  predicate NeedsYes(rules: Rules, n: Node) {
    var entry := EntryOf(rules, n);
    || n.event == Str("http.request")
    || entry.None?
    || entry.value.event == "ai.agent"
    || (entry.value.nodeType == "ACTION" && entry.value.kind == "action")
  }

  predicate IsTriggerNode(rules: Rules, n: Node) {
    !NeedsYes(rules, n) && EntryOf(rules, n).value.nodeType == "TRIGGER"
  }

  /** A trigger that waits for a call from outside. */
  predicate Listens(rules: Rules, n: Node) {
    IsTriggerNode(rules, n) && EntryOf(rules, n).value.triggerType == "WEBHOOK"
  }

  /** A trigger whose test fetches recent items of a foreign app. */
  predicate FetchesItems(rules: Rules, n: Node) {
    && IsTriggerNode(rules, n) && EntryOf(rules, n).value.triggerType != "WEBHOOK"
    && EntryOf(rules, n).value.provider !in {None, Some("ieum")}
  }

  /** The kinds by the catalog. */
  lemma KindTable(rules: Rules, n: Node)
    ensures KindOf(rules, n) == Write <==> NeedsYes(rules, n)
    ensures KindOf(rules, n) == Listen <==> Listens(rules, n)
    ensures KindOf(rules, n) == AppTrigger <==> FetchesItems(rules, n)
    ensures KindOf(rules, n) == Read <==> !NeedsYes(rules, n) && EntryOf(rules, n).value.nodeType == "ACTION"
  {
  }

  /** The hash of a node fixes how it is tested. */
  lemma SameHashSameKind(rules: Rules, m: Node, n: Node)
    requires NodeHash(m) == NodeHash(n)
    ensures KindOf(rules, m) == KindOf(rules, n)
  {
    assert Canon(m.event) == Canon(n.event);
  }

  /** An AI node without a key; it gets a model card instead of a test. */
  predicate Unkeyed(n: Node) {
    n.event == REASONING && !Filled(ConfigValue(n, "credentialId"))
  }

  function FirstUnkeyed(nodes: seq<Node>): (r: Option<Node>)
    ensures r.None? ==> forall n | n in nodes :: !Unkeyed(n)
    ensures r.Some? ==> r.value in nodes && Unkeyed(r.value)
  {
    if nodes == [] then None
    else if Unkeyed(nodes[0]) then Some(nodes[0])
    else FirstUnkeyed(nodes[1..])
  }

  // ----- session and turn

  datatype Status = Success | Failed | Skipped | Passed | Untested

  predicate Done(s: Status) {
    s == Success || s == Skipped || s == Passed
  }

  datatype Test = Test(status: Status, hash: Digest)

  /** The question that waits for the user's next message. */
  datatype Pending = Pending(modelPick: bool, nodeId: Json, hash: Digest, skipOnly: bool, choices: seq<Choice>)

  /** The sentence that puts a pending question to the user. */
  datatype Question = AskTest(id: Json) | AskSkip(id: Json) | AskRetry(id: Json)
    | AskFinish | AskModel(choices: seq<Choice>)

  /** The sentence asks what the pending entry will be judged as. */
  predicate Fits(p: Pending, q: Question) {
    match q
    case AskTest(id) => !p.modelPick && p.nodeId == id && !p.skipOnly
    case AskSkip(id) => !p.modelPick && p.nodeId == id && p.skipOnly
    case AskRetry(id) => !p.modelPick && p.nodeId == id && !p.skipOnly
    case AskFinish => !p.modelPick && p.nodeId == FINISH
    case AskModel(choices) => p.modelPick && p.choices == choices
  }

  datatype Confirm = Confirm(nodeId: Json, hash: Digest)

  datatype Session = Session(
    tests: map<Json, Test>, baseline: Option<map<Json, Digest>>, pending: Option<Pending>, confirmed: Option<Confirm>)

  datatype TurnState = TurnState(
    nodes: seq<Node>, edges: seq<Edge>, confirmed: Option<Confirm>, confirmUsed: bool, lookups: nat, testRuns: nat,
    pending: Option<Pending>, ask: Option<Question>, choices: Option<seq<Choice>>, deadline: int)

  function NodeStatus(n: Node, s: Session): Status {
    if n.id in s.tests then
      (if s.tests[n.id].hash == NodeHash(n) then s.tests[n.id].status else Untested)
    else if s.baseline.Some? && n.id in s.baseline.value && s.baseline.value[n.id] == NodeHash(n) then Passed
    else Untested
  }

  function Record(s: Session, id: Json, status: Status, h: Digest): Session {
    s.(tests := s.tests[id := Test(status, h)])
  }

  // ----- the start of a turn

  datatype Judged = Judged(
    tests: map<Json, Test>, baseline: map<Json, Digest>, confirmed: Option<Confirm>, done: bool, nodes: seq<Node>)

  /** The first node with the id gets the chosen model. */
  function WithChoice(nodes: seq<Node>, id: Json, c: Choice): seq<Node> {
    if nodes == [] then []
    else if nodes[0].id == id then [ApplyChoice(nodes[0], c)] + nodes[1..]
    else [nodes[0]] + WithChoice(nodes[1..], id, c)
  }

  function PickedNodes(p: Pending, prompt: string, nodes: seq<Node>): seq<Node> {
    var choice, target := MatchChoice(prompt, p.choices), NodeAt(nodes, p.nodeId);
    if choice.Some? && target.Some? && NodeHash(target.value) == p.hash then WithChoice(nodes, p.nodeId, choice.value)
    else nodes
  }

  function Judge(rules: Rules, s: Session, prompt: string, nodes: seq<Node>, edges: seq<Edge>): Judged {
    var ids := IdsOf(nodes);
    var tests := map k | k in s.tests && k in ids :: s.tests[k];
    var baseline := if s.baseline.Some? then s.baseline.value else BaselineOf(nodes);
    var plain := Judged(tests, baseline, None, false, nodes);
    match s.pending
    case None => plain
    case Some(p) =>
      var reply := rules.classify(prompt);
      if p.modelPick then plain.(nodes := PickedNodes(p, prompt, nodes))
      else if p.nodeId == FINISH then plain.(done := reply == Yes && WorkflowHash(nodes, edges) == p.hash)
      else if reply == No || (reply == Yes && p.skipOnly) then plain.(tests := tests[p.nodeId := Test(Skipped, p.hash)])
      else if reply == Yes then plain.(confirmed := Some(Confirm(p.nodeId, p.hash)))
      else plain
  }

  // ----- tools

  /** At most one question waits; a model card is never displaced. */
  function Hold(t: TurnState, p: Pending, ask: Question): (TurnState, bool) {
    if t.pending.Some? && t.pending.value.modelPick then (t, false)
    else (t.(pending := Some(p), ask := Some(ask)), true)
  }

  function CardFor(n: Node, choices: seq<Choice>): Pending {
    Pending(true, n.id, NodeHash(n), false, choices)
  }

  function HoldCard(t: TurnState, n: Node, choices: seq<Choice>): TurnState {
    if choices == [] then t else Hold(t, CardFor(n, choices), AskModel(choices)).0
  }

  /** One of the lookups of the turn; refused when time or budget is short. */
  function SpendLookup(t: TurnState, now: int): (TurnState, bool) {
    if t.deadline - now < MIN_LOOKUP_SECONDS || t.lookups >= MAX_LOOKUPS_PER_TURN then (t, false)
    else (t.(lookups := t.lookups + 1), true)
  }

  function NodeIdJson(id: Option<string>): Json {
    match id
    case None => Null
    case Some(s) => Str(s)
  }

  /** A node's own findings: those of the whole workflow that name it, without the graph's. */
  function OwnErrors(errors: seq<Error>, id: Json): (own: seq<Error>)
    ensures forall e | e in own :: e in errors && NodeIdJson(e.nodeId) == id
  {
    if errors == [] then []
    else
      var e := errors[0];
      (if NodeIdJson(e.nodeId) == id && e.code !in {TRIGGER_COUNT, ORPHAN_NODE, EDGE_INVALID} then [e] else [])
      + OwnErrors(errors[1..], id)
  }

  ghost predicate SkippedUpstream(t: TurnState, s: Session, id: Json) {
    exists a :: Upstream(IdsOf(t.nodes), t.edges, a, id) && HasNode(t.nodes, a)
      && NodeStatus(NodeAt(t.nodes, a).value, s) == Skipped
  }

  datatype TestReply =
    | NoSuchNode | SkippedListen | Blocked(errors: seq<Error>) | AlreadyTested | ModelFirst | Awaiting
    | NeedsCard | LimitReached | ShortOnTime | Running
    | Succeeded | RunFailed | SkippedToo | MissingUpstream | Refused

  /** What goes to the backend: the copy whose hash was taken. */
  datatype Sending = Sending(node: Node, kind: Kind)

  datatype Started = Started(turn: TurnState, session: Session, reply: TestReply, sent: Option<Sending>)

  /** `test_node` up to its await. */
  ghost function StartTest(rules: Rules, t: TurnState, s: Session, id: Json, now: int): Started {
    match NodeAt(t.nodes, id)
    case None => Started(t, s, NoSuchNode, None)
    case Some(n) =>
      var kind, h := KindOf(rules, n), NodeHash(n);
      var own := OwnErrors(rules.validate(t.nodes, t.edges), id);
      if kind == Listen then Started(t, Record(s, id, Skipped, h), SkippedListen, None)
      else if own != [] then Started(t, s, Blocked(own), None)
      else
        var confirmed := t.confirmed == Some(Confirm(id, h));
        if kind == Write && confirmed && t.confirmUsed then Started(t, s, AlreadyTested, None)
        else if kind == Write && !confirmed then
          var skipOnly := SkippedUpstream(t, s, id);
          var (t', held) := Hold(t, Pending(false, id, h, skipOnly, []), if skipOnly then AskSkip(id) else AskTest(id));
          Started(t', s, if held then Awaiting else ModelFirst, None)
        else if Unkeyed(n) then Started(t, s, NeedsCard, None)
        else if t.testRuns >= MAX_TESTS_PER_TURN then Started(t, s, LimitReached, None)
        else if t.deadline - now < MIN_TEST_SECONDS then Started(t, s, ShortOnTime, None)
        else
          var t' := t.(testRuns := t.testRuns + 1);
          if kind == Write then
            Started(t'.(confirmUsed := true), s.(confirmed := None), Running, Some(Sending(n, kind)))
          else Started(t', s, Running, Some(Sending(n, kind)))
  }

  /** What the backend answers to a test. */
  datatype Answer = SampleMissing(missing: seq<Json>) | OtherError | Ran(success: bool)

  datatype Finished = Finished(turn: TurnState, session: Session, reply: TestReply)

  predicate AllSkipped(t: TurnState, s: Session, ids: seq<Json>) {
    forall m | m in ids :: HasNode(t.nodes, m) && NodeStatus(NodeAt(t.nodes, m).value, s) == Skipped
  }

  /** `test_node` after its await; the working copy may have changed meanwhile. */
  function FinishTest(t: TurnState, s: Session, sent: Sending, answer: Answer): Finished {
    var id, h := sent.node.id, NodeHash(sent.node);
    match answer
    case SampleMissing(missing) =>
      if sent.kind != Write && missing != [] && AllSkipped(t, s, missing) then
        Finished(t, Record(s, id, Skipped, h), SkippedToo)
      else Finished(t, s, MissingUpstream)
    case OtherError => Finished(t, s, Refused)
    case Ran(true) => Finished(t, Record(s, id, Success, h), Succeeded)
    case Ran(false) =>
      var t' := if sent.kind == AppTrigger then Hold(t, Pending(false, id, h, false, []), AskRetry(id)).0 else t;
      Finished(t', Record(s, id, Failed, h), RunFailed)
  }

  function Remaining(nodes: seq<Node>, s: Session): (left: seq<Node>)
    ensures left == [] <==> forall n | n in nodes :: Done(NodeStatus(n, s))
  {
    if nodes == [] then []
    else (if Done(NodeStatus(nodes[0], s)) then [] else [nodes[0]]) + Remaining(nodes[1..], s)
  }

  datatype FinishReply = CardFirst(node: Node) | NotYet(left: seq<Node>, errors: seq<Error>) | AskLater | AskedToFinish

  function Finish(rules: Rules, t: TurnState, s: Session): (TurnState, FinishReply) {
    var unkeyed, left, errors := FirstUnkeyed(t.nodes), Remaining(t.nodes, s), rules.validate(t.nodes, t.edges);
    if unkeyed.Some? then (t, CardFirst(unkeyed.value))
    else if left != [] || errors != [] then (t, NotYet(left, errors))
    else
      var (t', held) := Hold(t, Pending(false, FINISH, WorkflowHash(t.nodes, t.edges), false, []), AskFinish);
      (t', if held then AskedToFinish else AskLater)
  }

  // ----- the end of a turn

  predicate SameShape(a: seq<Node>, b: seq<Node>) {
    |a| == |b| && forall i | 0 <= i < |a| ::
      && Canon(a[i].id) == Canon(b[i].id) && Canon(a[i].typ) == Canon(b[i].typ)
      && Canon(a[i].event) == Canon(b[i].event)
      && Canon(a[i].title) == Canon(b[i].title) && Canon(a[i].config) == Canon(b[i].config)
  }

  predicate SameEdges(a: seq<Edge>, b: seq<Edge>) {
    |a| == |b| && forall i | 0 <= i < |a| ::
      Canon(a[i].source) == Canon(b[i].source) && Canon(a[i].target) == Canon(b[i].target)
      && Canon(a[i].branch) == Canon(b[i].branch)
  }

  /** A question whose card lost its node is dropped; a card is measured on the node the user gets to see. */
  function Settled(t: TurnState): TurnState {
    if t.pending.Some? && t.pending.value.modelPick then
      match NodeAt(t.nodes, t.pending.value.nodeId)
      case None => t.(pending := None, ask := None)
      case Some(n) => t.(pending := Some(t.pending.value.(hash := NodeHash(n))))
    else t
  }

  datatype Response = Response(changed: bool, nodes: seq<Node>, ask: Option<Question>, options: seq<Choice>)

  /** None: the error is raised. A session that is gone by then stores nothing, but the answer goes out. */
  datatype Closed = Closed(session: Session, response: Option<Response>)

  function Close(
    t: TurnState, s: Session, nodes: seq<Node>, edges: seq<Edge>, failed: bool, lost: bool): Closed
  {
    var changed := !(SameShape(t.nodes, nodes) && SameEdges(t.edges, edges));
    if failed && !changed then Closed(s, None)
    else
      var t' := Settled(if failed then t.(pending := None, ask := None) else t);
      var options := if t'.pending.Some? && t'.pending.value.modelPick then t'.pending.value.choices else [];
      var stored := if lost then s else s.(pending := t'.pending, confirmed := None);
      Closed(stored, Some(Response(changed, t.nodes, t'.ask, options)))
  }
}
