/**
 * Whole runs of the builder: any number of turns, in each of which the language model calls tools
 * in any order and any overlap, the backend answers anything, and the client sends any nodes.
 * The logs only grow; they are what the theorems talk about.
 */
module BuilderRuns {
  import opened Wrappers
  import opened Json
  import opened Workflow
  import opened ModelPick
  import opened BuilderSpec

  /** A turn as it began: the question it answered, the reply, the nodes sent along. */
  datatype Start = Start(
    asked: Option<Pending>, reply: Reply, nodes: seq<Node>, edges: seq<Edge>, done: bool, deadline: int)

  /** A turn as it ended: the question stored, the sentence in the response, the nodes of the response,
      whether it was cut off by an error, whether the session was gone by then. */
  datatype End = End(
    stored: Option<Pending>, ask: Option<Question>, nodes: seq<Node>, failed: bool, lost: bool)

  /** A question a tool tried to put. */
  datatype Attempt = Attempt(pending: Pending, ask: Question)

  /** A test request that reached the backend. */
  datatype Send = Send(turn: nat, node: Node, kind: Kind)

  /** The answer to the request with the given number, and the nodes and the session it found. */
  datatype Seen = Seen(send: nat, answer: Answer, nodes: seq<Node>, session: Session)

  /** A finish call that found nothing left to do. */
  datatype Passing = Passing(turn: nat, nodes: seq<Node>, edges: seq<Edge>)

  /** A backend call (or two in a row) and the longest time it takes. */
  datatype Call = Call(turn: nat, at: int, bound: int)

  /** first: the number of the session's first turn. attempts: of every turn, in order. */
  datatype World = World(
    first: nat, attempts: seq<seq<Attempt>>, session: Session, turn: Option<TurnState>, flying: set<nat>,
    starts: seq<Start>, ends: seq<End>, sends: seq<Send>, seen: seq<Seen>, passings: seq<Passing>,
    calls: seq<Call>, lookups: seq<nat>)

  const EMPTY_SESSION := Session(map[], None, None, None)
  const INITIAL := World(0, [], EMPTY_SESSION, None, {}, [], [], [], [], [], [], [])

  datatype Step =
    | Begin(prompt: string, nodes: seq<Node>, edges: seq<Edge>, now: int)
    | Edit(newNodes: seq<Node>, newEdges: seq<Edge>)
    | Lookup(at: int)
    | CheckConnection(at: int)
    | FetchChoices(at: int)
    | ChoicesArrive(provider: string, keys: map<string, Named>, models: map<string, seq<Named>>)
    | ShowCard(node: Node, provider: string, keys: map<string, Named>, models: map<string, seq<Named>>)
    | BeginTest(id: Json, at: int)
    | EndTest(send: nat, answer: Answer)
    | CallFinish
    | CloseTurn(failed: bool, lost: bool)
    | ForgetSession

  function Current(w: World): nat
    requires w.turn.Some? ==> w.starts != []
  {
    if w.turn.Some? then |w.starts| - 1 else 0
  }

  function BeginTurn(rules: Rules, w: World, prompt: string, nodes: seq<Node>, edges: seq<Edge>, now: int): World {
    var j := Judge(rules, w.session, prompt, nodes, edges);
    var start := Start(w.session.pending, rules.classify(prompt), nodes, edges, j.done, now + TURN_SECONDS);
    if j.done then
      w.(session := Session(j.tests, Some(BaselineOf(nodes)), None, None),
         starts := w.starts + [start], ends := w.ends + [End(None, None, nodes, false, false)])
    else
      w.(session := Session(j.tests, Some(j.baseline), None, j.confirmed),
         turn := Some(TurnState(j.nodes, edges, j.confirmed, false, 0, 0, None, None, None, now + TURN_SECONDS)),
         starts := w.starts + [start])
  }

  /** The question the tool tries to put in this step; its reply tells whether it came to that. */
  ghost function AttemptOf(rules: Rules, w: World, t: TurnState, step: Step): Option<Attempt> {
    match step
    case ShowCard(node, provider, keys, models) =>
      var card := ModelCard(provider, keys, models, rules.defaultModel);
      if card == [] then None else Some(Attempt(CardFor(node, card), AskModel(card)))
    case BeginTest(id, at) =>
      var n, skipOnly := NodeAt(t.nodes, id), SkippedUpstream(t, w.session, id);
      if n.Some? && StartTest(rules, t, w.session, id, at).reply in {Awaiting, ModelFirst} then
        Some(Attempt(Pending(false, id, NodeHash(n.value), skipOnly, []),
          if skipOnly then AskSkip(id) else AskTest(id)))
      else None
    case EndTest(k, answer) =>
      if k in w.flying && k < |w.sends| && w.sends[k].kind == AppTrigger && answer == Ran(false) then
        var n := w.sends[k].node;
        Some(Attempt(Pending(false, n.id, NodeHash(n), false, []), AskRetry(n.id)))
      else None
    case CallFinish =>
      if Finish(rules, t, w.session).1 in {AskedToFinish, AskLater} then
        Some(Attempt(Pending(false, FINISH, WorkflowHash(t.nodes, t.edges), false, []), AskFinish))
      else None
    case _ => None
  }

  ghost function Attempts(rules: Rules, w: World, step: Step): seq<seq<Attempt>> {
    if w.turn.None? then (if step.Begin? then w.attempts + [[]] else w.attempts)
    else
      var attempt := AttemptOf(rules, w, w.turn.value, step);
      if attempt.None? || w.attempts == [] then w.attempts
      else
        var last := |w.attempts| - 1;
        w.attempts[last := w.attempts[last] + [attempt.value]]
  }

  ghost function Apply(rules: Rules, w: World, step: Step): World
    requires w.turn.Some? ==> w.starts != []
  {
    Move(rules, w, step).(attempts := Attempts(rules, w, step))
  }

  ghost function Move(rules: Rules, w: World, step: Step): World
    requires w.turn.Some? ==> w.starts != []
  {
    if w.turn.None? then
      match step
      case Begin(prompt, nodes, edges, now) => BeginTurn(rules, w, prompt, nodes, edges, now)
      case ForgetSession => w.(session := EMPTY_SESSION, first := |w.starts|)
      case _ => w
    else
      var t, s, cur := w.turn.value, w.session, Current(w);
      match step
      case Edit(nodes, edges) => w.(turn := Some(t.(nodes := nodes, edges := edges)))
      case Lookup(at) =>
        var (t', ok) := SpendLookup(t, at);
        if ok then w.(turn := Some(t'), lookups := w.lookups + [cur],
              calls := w.calls + [Call(cur, at, LOOKUP_TIMEOUT_SECONDS)])
        else w
      case CheckConnection(at) =>
        if t.deadline - at < MIN_LOOKUP_SECONDS then w
        else w.(calls := w.calls + [Call(cur, at, LOOKUP_TIMEOUT_SECONDS)])
      case FetchChoices(at) =>
        if t.choices.Some? || t.deadline - at < MIN_PICK_SECONDS then w
        else w.(calls := w.calls + [Call(cur, at, 2 * LOOKUP_TIMEOUT_SECONDS)])
      case ChoicesArrive(provider, keys, models) =>
        w.(turn := Some(t.(choices := Some(ModelCard(provider, keys, models, rules.defaultModel)))))
      case ShowCard(node, provider, keys, models) =>
        w.(turn := Some(HoldCard(t, node, ModelCard(provider, keys, models, rules.defaultModel))))
      case BeginTest(id, at) =>
        var r := StartTest(rules, t, s, id, at);
        if r.sent.None? then w.(turn := Some(r.turn), session := r.session)
        else w.(turn := Some(r.turn), session := r.session, flying := w.flying + {|w.sends|},
                sends := w.sends + [Send(cur, r.sent.value.node, r.sent.value.kind)],
                calls := w.calls + [Call(cur, at, TEST_TIMEOUT_SECONDS)])
      case EndTest(k, answer) =>
        if k !in w.flying || k >= |w.sends| then w
        else
          var r := FinishTest(t, s, Sending(w.sends[k].node, w.sends[k].kind), answer);
          w.(turn := Some(r.turn), session := r.session, flying := w.flying - {k}, 
            seen := w.seen + [Seen(k, answer, t.nodes, s)])
      case CallFinish =>
        var (t', reply) := Finish(rules, t, s);
        w.(turn := Some(t'),
           passings := if reply.AskedToFinish? then w.passings + [Passing(cur, t.nodes, t.edges)] else w.passings)
      case CloseTurn(failed, lost) =>
        var start := w.starts[cur];
        var c := Close(t, s, start.nodes, start.edges, failed, lost);
        var end := match c.response
          case None => End(None, None, t.nodes, failed, lost)
          case Some(r) => End(c.session.pending, r.ask, r.nodes, failed, lost);
        w.(turn := None, session := if lost then EMPTY_SESSION else c.session,
           first := if lost then |w.starts| else w.first, flying := {}, ends := w.ends + [end])
      case _ => w
  }

  ghost function Run(rules: Rules, steps: seq<Step>): (w: World)
    ensures w.turn.Some? ==> w.starts != []
  {
    if steps == [] then INITIAL else Apply(rules, Run(rules, steps[..|steps| - 1]), steps[|steps| - 1])
  }

  // ----- what the logs can prove

  /** The user answered the question about this node and hash, and the answer meant: skip it. */
  predicate Skips(start: Start, id: Json, h: Digest) {
    match start.asked
    case None => false
    case Some(p) =>
      && !p.modelPick && p.nodeId == id && p.nodeId != FINISH && p.hash == h
      && (start.reply == No || (start.reply == Yes && p.skipOnly))
  }

  /** In a turn of the session, that is. */
  ghost predicate SkipAnswered(w: World, id: Json, h: Digest) {
    exists t :: w.first <= t < |w.starts| && Skips(w.starts[t], id, h)
  }

  /** The user's reply at the start of the turn was a yes to testing exactly this node and hash. */
  predicate Consents(start: Start, id: Json, h: Digest) {
    match start.asked
    case None => false
    case Some(p) =>
      && !p.modelPick && p.nodeId == id && p.nodeId != FINISH
      && p.hash == h && !p.skipOnly && start.reply == Yes
  }

  ghost predicate IsWrite(rules: Rules, h: Digest) {
    exists n :: NodeHash(n) == h && NeedsYes(rules, n)
  }

  ghost predicate IsListening(rules: Rules, h: Digest) {
    exists n :: NodeHash(n) == h && Listens(rules, n)
  }

  /** Answer i came, in the session, for a copy of the node with this hash. */
  ghost predicate AnsweredAt(w: World, i: nat, id: Json, h: Digest) {
    && i < |w.seen| && w.seen[i].send < |w.sends|
    && var s := w.sends[w.seen[i].send];
    s.node.id == id && NodeHash(s.node) == h && w.first <= s.turn < |w.starts|
  }

  /**
   * Answer i is a SUCCESS for a copy of the node with this hash; if that is a write node, the user
   * had said yes to testing exactly this copy.
   */
  ghost predicate SuccessAt(rules: Rules, w: World, i: nat, id: Json, h: Digest) {
    && AnsweredAt(w, i, id, h) && w.seen[i].answer == Ran(true)
    && (IsWrite(rules, h) ==> Consents(w.starts[w.sends[w.seen[i].send].turn], id, h))
  }

  ghost predicate SuccessSeen(rules: Rules, w: World, id: Json, h: Digest) {
    exists i: nat :: SuccessAt(rules, w, i, id, h)
  }

  /** The node was there, and skipped. */
  predicate WasSkipped(nodes: seq<Node>, s: Session, id: Json) {
    HasNode(nodes, id) && NodeStatus(NodeAt(nodes, id).value, s) == Skipped
  }

  /** The backend missed samples of some nodes upstream, all of them there and skipped when it answered. */
  predicate Excused(seen: Seen) {
    && seen.answer.SampleMissing? && seen.answer.missing != []
    && forall m | m in seen.answer.missing :: WasSkipped(seen.nodes, seen.session, m)
  }

  ghost predicate MissingSeen(w: World, id: Json, h: Digest) {
    exists i: nat :: AnsweredAt(w, i, id, h) && Excused(w.seen[i])
  }

  /**
   * A skip is the user's, or the node is a listening trigger, or it writes nothing and the samples
   * that were missing upstream are of skipped nodes.
   */
  ghost predicate SkipSeen(rules: Rules, w: World, id: Json, h: Digest) {
    || SkipAnswered(w, id, h)
    || IsListening(rules, h)
    || (!IsWrite(rules, h) && MissingSeen(w, id, h))
  }

  /** Turn b is the one the session's baseline was taken in: its last completed one, or its first. */
  ghost predicate BaseTurn(w: World, b: nat) {
    && w.first <= b < |w.starts| && (b == w.first || w.starts[b].done)
    && (forall u | b < u < |w.starts| :: !w.starts[u].done)
  }

  /** The node has the hash it had when the client sent it at the start of the baseline's turn. */
  ghost predicate Unchanged(w: World, n: Node) {
    exists b: nat, m :: BaseTurn(w, b) && m in w.starts[b].nodes && m.id == n.id && NodeHash(m) == NodeHash(n)
  }

  /** What a recorded test result rests on. */
  ghost predicate Backed(rules: Rules, w: World, id: Json, test: Test) {
    && (test.status == Success ==> SuccessSeen(rules, w, id, test.hash))
    && (test.status == Skipped ==> SkipSeen(rules, w, id, test.hash))
    && test.status in {Success, Failed, Skipped}
  }

  /** What a node's status rests on. */
  ghost predicate Earned(rules: Rules, w: World, n: Node) {
    match NodeStatus(n, w.session)
    case Success => SuccessSeen(rules, w, n.id, NodeHash(n))
    case Skipped =>
      || SkipAnswered(w, n.id, NodeHash(n))
      || Listens(rules, n)
      || (!NeedsYes(rules, n) && MissingSeen(w, n.id, NodeHash(n)))
    case Passed => Unchanged(w, n)
    case _ => true
  }

  // ----- which of the questions of a turn is asked

  function FirstCard(attempts: seq<Attempt>): (k: nat)
    ensures k <= |attempts|
    ensures k < |attempts| ==> attempts[k].pending.modelPick
    ensures forall i | 0 <= i < k :: !attempts[i].pending.modelPick
  {
    if attempts == [] then 0 else if attempts[0].pending.modelPick then 0 else 1 + FirstCard(attempts[1..])
  }

  /** The first card, if there is none the last question. */
  function Winner(attempts: seq<Attempt>): Option<Attempt> {
    var k := FirstCard(attempts);
    if attempts == [] then None
    else if k < |attempts| then Some(attempts[k])
    else Some(attempts[|attempts| - 1])
  }

  /**
   * What of it is stored when the turn ends: nothing after an error; a card only while its node is
   * there, with the hash the node has now.
   */
  function Kept(winner: Option<Attempt>, nodes: seq<Node>, failed: bool): Option<Attempt> {
    if winner.None? || failed then None
    else if !winner.value.pending.modelPick then winner
    else
      var p := winner.value.pending;
      match NodeAt(nodes, p.nodeId)
      case None => None
      case Some(n) => Some(winner.value.(pending := p.(hash := NodeHash(n))))
  }

  /** A turn that ends so asks the sentence of the attempt and stores its question, unless the session is gone. */
  predicate EndsWith(attempt: Option<Attempt>, end: End) {
    match attempt
    case None => end.stored.None? && end.ask.None?
    case Some(a) => end.ask == Some(a.ask) && end.stored == if end.lost then None else Some(a.pending)
  }

  /** The pair of question and sentence that stands for an attempt. */
  predicate Stands(attempt: Option<Attempt>, pending: Option<Pending>, ask: Option<Question>) {
    match attempt
    case None => pending.None? && ask.None?
    case Some(a) => pending == Some(a.pending) && ask == Some(a.ask)
  }
}
