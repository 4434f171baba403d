/**
 * Any number of requests at work on the collection at once. A step is what happens between two
 * awaits of one request; faults, cancellations, crashes and expiry may strike at each of them.
 */
module IdempotencyRuns {
  import opened Wrappers
  import opened IdempotencyGuard

  /** Where a request stands. Storing and Removing are claimants about to write the outcome. */
  datatype Phase =
    | Arrived
    | Collided
    | Running(guarded: bool)
    | Storing
    | Removing(shielded: bool)
    | Returned(response: Response)
    | Raised
    | Dead

  /** ran: what its run produced; claimed: its insert won at the given time. */
  datatype Request = Request(key: string, phase: Phase, ran: Option<NodeResult>, claimed: Option<int>)

  /** owner: the request whose insert made the record of a key. */
  datatype World = World(docs: Docs, now: int, requests: seq<Request>, owner: map<string, nat>)

  const INITIAL := World(map[], 0, [], map[])

  datatype Step =
    | Arrive(key: string)
    | DoInsert(i: nat, fate: Fate)
    | DoFind(i: nat, fate: Fate, decodes: bool)
    | RunEnds(i: nat, run: RunEnd)
    | DoComplete(i: nat, fate: Fate)
    | DoRelease(i: nat, fate: Fate)
    | Crash(i: nat, applied: bool)
    | Expire(expired: string)
    | Tick(to: int)

  /** A claimant that still has work to do. */
  predicate Live(r: Request) {
    r.phase == Running(true) || r.phase.Storing? || r.phase.Removing?
  }

  function With(w: World, i: nat, phase: Phase): World
    requires i < |w.requests|
  {
    w.(requests := w.requests[i := w.requests[i].(phase := phase)])
  }

  function InsertStep(w: World, i: nat, fate: Fate): World
    requires i < |w.requests|
  {
    var r := w.requests[i];
    var (docs', c) := TryInsert(w.docs, r.key, w.now, fate);
    var w1 := w.(docs := docs', owner := if docs' != w.docs then w.owner[r.key := i] else w.owner);
    match c
    case Execute(true) => w1.(requests := w.requests[i := r.(phase := Running(true), claimed := Some(w.now))])
    case Execute(false) => With(w1, i, Running(false))
    case Look => With(w1, i, Collided)
    case _ => With(w1, i, Raised)
  }

  function FindStep(w: World, i: nat, fate: Fate, decodes: bool): World
    requires i < |w.requests|
  {
    match Read(w.docs, w.requests[i].key, fate, decodes)
    case Execute(guarded) => With(w, i, Running(false))
    case Replay(response) => With(w, i, Returned(response))
    case _ => With(w, i, Raised)
  }

  /** The run returns, raises, or is cancelled; only a claimant has a record to look after. */
  function RunStep(w: World, i: nat, run: RunEnd): World
    requires i < |w.requests| && w.requests[i].phase.Running?
  {
    var r := w.requests[i];
    match run
    case Throws => With(w, i, if r.phase.guarded then Removing(true) else Raised)
    case Returns(result) =>
      var phase :=
        if !r.phase.guarded then Returned(Given(result))
        else if result.success then Storing
        else Removing(false);
      w.(requests := w.requests[i := r.(phase := phase, ran := Some(result))])
  }

  /** The write of a claimant is carried out. */
  function Outcome(w: World, i: nat): Docs
    requires i < |w.requests|
  {
    var r := w.requests[i];
    if r.phase.Storing? && r.ran.Some? then MarkCompleted(w.docs, r.key, r.ran.value, w.now)
    else if r.phase.Removing? then Delete(w.docs, r.key)
    else w.docs
  }

  function Written(w: World, i: nat, fate: Fate): World
    requires i < |w.requests|
  {
    if Happens(fate) then w.(docs := Outcome(w, i)) else w
  }

  function Answered(r: Request): Phase {
    if r.ran.Some? then Returned(Given(r.ran.value)) else Raised
  }

  function Apply(w: World, step: Step): World {
    match step
    case Arrive(key) => w.(requests := w.requests + [Request(key, Arrived, None, None)])
    case DoInsert(i, fate) => if i < |w.requests| && w.requests[i].phase.Arrived? then InsertStep(w, i, fate) else w
    case DoFind(i, fate, decodes) =>
      if i < |w.requests| && w.requests[i].phase.Collided? then FindStep(w, i, fate, decodes) else w
    case RunEnds(i, run) => if i < |w.requests| && w.requests[i].phase.Running? then RunStep(w, i, run) else w
    case DoComplete(i, fate) =>
      if i < |w.requests| && w.requests[i].phase.Storing?
      then With(Written(w, i, fate), i, if fate.Cancelled? then Raised else Answered(w.requests[i])) else w
    case DoRelease(i, fate) =>
      if i < |w.requests| && w.requests[i].phase.Removing? then
        // a cancellation does not reach a shielded release: it goes on
        if fate.Cancelled? && w.requests[i].phase.shielded then w
        else With(Written(w, i, fate), i,
                  if fate.Cancelled? || w.requests[i].phase.shielded then Raised else Answered(w.requests[i]))
      else w
    case Crash(i, applied) =>
      if i < |w.requests| && !w.requests[i].phase.Returned? && !w.requests[i].phase.Raised?
      then With(Written(w, i, Cancelled(applied)), i, Dead) else w
    case Expire(key) =>
      if key in w.docs && w.docs[key].expiresAt <= w.now then w.(docs := w.docs - {key}) else w
    case Tick(to) => if w.now <= to && InTime(w, to) then w.(now := to) else w
  }

  /** The one assumption about time: a live claimant is done before its record may expire. */
  predicate InTime(w: World, to: int) {
    forall i | 0 <= i < |w.requests| ::
      Live(w.requests[i]) && w.requests[i].claimed.Some? ==> to < w.requests[i].claimed.value + IN_FLIGHT_TTL_SECONDS
  }

  function Run(steps: seq<Step>): World {
    if steps == [] then INITIAL else Apply(Run(steps[..|steps| - 1]), steps[|steps| - 1])
  }

  // ----- any run, any faults

  /** What holds of a single request and the record of its key. */
  predicate Holds(w: World, i: nat)
    requires i < |w.requests|
  {
    var r := w.requests[i];
    && (Live(r) ==>
        && r.key != "" && r.claimed.Some? && w.now < r.claimed.value + IN_FLIGHT_TTL_SECONDS
        && r.key in w.docs && w.docs[r.key] == InProgress(r.claimed.value + IN_FLIGHT_TTL_SECONDS)
        && r.key in w.owner && w.owner[r.key] == i)
    && (r.phase.Storing? ==> r.ran.Some? && r.ran.value.success)
    && (r.phase.Removing? ==> (r.phase.shielded <==> r.ran.None?))
    && (r.ran.Some? && r.phase.Returned? ==> r.phase.response == Given(r.ran.value))
    && (r.ran.None? && r.phase.Returned? && r.phase.response.Given? ==>
        ProducedBy(w, r.key, r.phase.response.result))
    && (r.phase.Arrived? || r.phase.Collided? || r.phase.Running? ==> r.ran.None?)
    && (r.phase.Arrived? || r.phase.Collided? || r.phase == Running(false) ==> r.claimed.None?)
  }

  /** Some claimant of the key ran and got this result. */
  predicate ProducedBy(w: World, key: string, result: NodeResult) {
    exists j :: 0 <= j < |w.requests| && w.requests[j].key == key && w.requests[j].claimed.Some?
      && w.requests[j].ran == Some(result) && result.success
  }

  /** A completed record holds the success of the request that made the record. */
  predicate RecordSound(w: World, key: string)
    requires key in w.docs
  {
    && key != "" && key in w.owner && w.owner[key] < |w.requests| && w.requests[w.owner[key]].key == key
    && (w.docs[key].Completed? ==>
        var r := w.requests[w.owner[key]];
        && r.claimed.Some? && r.ran == Some(w.docs[key].result) && w.docs[key].result.success
        && (r.phase == Returned(Given(w.docs[key].result)) || r.phase == Raised || r.phase == Dead))
  }

  predicate Inv(w: World) {
    && (forall i | 0 <= i < |w.requests| :: Holds(w, i))
    && (forall key | key in w.docs :: RecordSound(w, key))
  }

  /** The step is request i's: other requests, other keys and the clock stay. */
  predicate StepOf(w: World, w': World, i: nat)
    requires i < |w.requests|
  {
    var r := w.requests[i];
    && |w'.requests| == |w.requests| && w'.now == w.now
    && (forall j | 0 <= j < |w.requests| && j != i :: w'.requests[j] == w.requests[j])
    && w'.requests[i].key == r.key
    && (r.ran.Some? ==> w'.requests[i].ran == r.ran) && (r.claimed.Some? ==> w'.requests[i].claimed == r.claimed)
    && w'.docs - {r.key} == w.docs - {r.key} && w'.owner - {r.key} == w.owner - {r.key}
  }

  ghost predicate SameAt<K, V>(m: map<K, V>, m': map<K, V>, k: K) {
    (k in m <==> k in m') && (k in m ==> m[k] == m'[k])
  }

  lemma ProducedKept(w: World, w': World, i: nat, key: string, result: NodeResult)
    requires i < |w.requests| && StepOf(w, w', i) && ProducedBy(w, key, result)
    ensures ProducedBy(w', key, result)
  {
    var j :| 0 <= j < |w.requests| && w.requests[j].key == key && w.requests[j].claimed.Some?
      && w.requests[j].ran == Some(result) && result.success;
    assert w'.requests[j].ran == Some(result);
  }

  lemma OthersKept(w: World, w': World, i: nat)
    requires Inv(w) && i < |w.requests| && StepOf(w, w', i)
    requires var key := w.requests[i].key;
      Live(w.requests[i]) || key !in w.docs || (SameAt(w.docs, w'.docs, key) && SameAt(w.owner, w'.owner, key))
    ensures forall j | 0 <= j < |w.requests| && j != i :: Holds(w', j)
    ensures forall k | k in w'.docs && k != w.requests[i].key :: RecordSound(w', k)
  {
    var key := w.requests[i].key;
    forall k | k != key ensures SameAt(w.docs, w'.docs, k) && SameAt(w.owner, w'.owner, k) {
      SameOff(w.docs, w'.docs, key, k);
      SameOff(w.owner, w'.owner, key, k);
    }
    forall j | 0 <= j < |w.requests| && j != i ensures Holds(w', j) {
      assert Holds(w, j) && Holds(w, i);
      var r := w.requests[j];
      if r.key != key { assert SameAt(w.docs, w'.docs, r.key) && SameAt(w.owner, w'.owner, r.key); }
      if r.ran.None? && r.phase.Returned? && r.phase.response.Given? {
        ProducedKept(w, w', i, r.key, r.phase.response.result);
      }
    }
    forall k | k in w'.docs && k != key ensures RecordSound(w', k) {
      assert SameAt(w.docs, w'.docs, k);
      assert RecordSound(w, k);
    }
  }

  lemma SameOff<K, V>(m: map<K, V>, m': map<K, V>, key: K, k: K)
    requires m - {key} == m' - {key} && k != key
    ensures SameAt(m, m', k)
  {
    assert k in m <==> k in m - {key};
    assert k in m' <==> k in m' - {key};
    if k in m { assert (m - {key})[k] == m[k]; assert (m' - {key})[k] == m'[k]; }
  }

  lemma InvFrom(w: World, w': World, i: nat)
    requires i < |w.requests| && |w'.requests| == |w.requests|
    requires forall j | 0 <= j < |w.requests| && j != i :: Holds(w', j)
    requires forall k | k in w'.docs && k != w.requests[i].key :: RecordSound(w', k)
    requires Holds(w', i) && (w.requests[i].key in w'.docs ==> RecordSound(w', w.requests[i].key))
    ensures Inv(w')
  {
  }

  lemma InsertHolds(w: World, i: nat, fate: Fate)
    requires i < |w.requests| && w.requests[i].phase.Arrived? && Holds(w, i)
    requires w.requests[i].key in w.docs ==> RecordSound(w, w.requests[i].key)
    ensures var w', key := InsertStep(w, i, fate), w.requests[i].key;
      && StepOf(w, w', i) && Holds(w', i)
      && (key in w'.docs ==> RecordSound(w', key))
      && (key in w.docs ==> SameAt(w.docs, w'.docs, key) && SameAt(w.owner, w'.owner, key))
  {
  }

  lemma InsertKeeps(w: World, i: nat, fate: Fate)
    requires Inv(w) && i < |w.requests| && w.requests[i].phase.Arrived?
    ensures Inv(InsertStep(w, i, fate))
  {
    var w', key := InsertStep(w, i, fate), w.requests[i].key;
    assert Holds(w, i) && (key in w.docs ==> RecordSound(w, key));
    InsertHolds(w, i, fate);
    assert SameAt(w.docs, w'.docs, key) || key !in w.docs;
    hide Holds, StepOf, InsertStep, RecordSound, Inv;
    OthersKept(w, w', i);
    InvFrom(w, w', i);
  }

  lemma FindKeeps(w: World, i: nat, fate: Fate, decodes: bool)
    requires Inv(w) && i < |w.requests| && w.requests[i].phase.Collided?
    ensures Inv(FindStep(w, i, fate, decodes))
  {
    var w', key := FindStep(w, i, fate, decodes), w.requests[i].key;
    assert Holds(w, i) && (key in w.docs ==> RecordSound(w, key));
    assert StepOf(w, w', i);
    var phase := w'.requests[i].phase;
    if phase.Returned? && phase.response.Given? {
      assert w.requests[w.owner[key]].ran == Some(phase.response.result);
      assert ProducedBy(w, key, phase.response.result);
      ProducedKept(w, w', i, key, phase.response.result);
    }
    assert Holds(w', i);
    hide Holds;
    OthersKept(w, w', i);
    InvFrom(w, w', i);
  }

  lemma RunKeeps(w: World, i: nat, run: RunEnd)
    requires Inv(w) && i < |w.requests| && w.requests[i].phase.Running?
    ensures Inv(RunStep(w, i, run))
  {
    var w', key := RunStep(w, i, run), w.requests[i].key;
    assert Holds(w, i) && (key in w.docs ==> RecordSound(w, key));
    assert StepOf(w, w', i) && Holds(w', i);
    hide Holds;
    OthersKept(w, w', i);
    InvFrom(w, w', i);
  }

  /** The last write of a claimant, carried out or not, followed by an end that is not live. */
  lemma WriteKeeps(w: World, i: nat, fate: Fate, end: Phase)
    requires Inv(w) && i < |w.requests| && (Live(w.requests[i]) || Outcome(w, i) == w.docs)
    requires end.Raised? || end.Dead?
      || (Live(w.requests[i]) && w.requests[i].ran.Some? && end == Answered(w.requests[i]))
    requires !w.requests[i].phase.Returned? && !w.requests[i].phase.Raised?
    ensures Inv(With(Written(w, i, fate), i, end))
  {
    var w', r := With(Written(w, i, fate), i, end), w.requests[i];
    assert Holds(w, i) && (r.key in w.docs ==> RecordSound(w, r.key));
    assert StepOf(w, w', i) && Holds(w', i);
    assert Live(r) || SameAt(w.docs, w'.docs, r.key);
    hide Holds;
    OthersKept(w, w', i);
    InvFrom(w, w', i);
  }

  lemma StepKeeps(w: World, step: Step)
    requires Inv(w)
    ensures Inv(Apply(w, step))
  {
    var w' := Apply(w, step);
    match step {
      case Arrive(key) => ArriveKeeps(w, key);
      case DoInsert(i, fate) => if i < |w.requests| && w.requests[i].phase.Arrived? { InsertKeeps(w, i, fate); }
      case DoFind(i, fate, decodes) =>
        if i < |w.requests| && w.requests[i].phase.Collided? { FindKeeps(w, i, fate, decodes); }
      case RunEnds(i, run) => if i < |w.requests| && w.requests[i].phase.Running? { RunKeeps(w, i, run); }
      case DoComplete(i, fate) =>
        if i < |w.requests| && w.requests[i].phase.Storing? {
          assert Holds(w, i);
          hide Inv, Holds;
          WriteKeeps(w, i, fate, if fate.Cancelled? then Raised else Answered(w.requests[i]));
        }
      case DoRelease(i, fate) =>
        if i < |w.requests| && w.requests[i].phase.Removing? {
          assert Holds(w, i);
          hide Inv;
          if !(fate.Cancelled? && w.requests[i].phase.shielded) {
            WriteKeeps(w, i, fate,
              if fate.Cancelled? || w.requests[i].phase.shielded then Raised else Answered(w.requests[i]));
          }
        }
      case Crash(i, applied) =>
        if i < |w.requests| {
          hide Inv, Holds;
          if !w.requests[i].phase.Returned? && !w.requests[i].phase.Raised? {
            WriteKeeps(w, i, Cancelled(applied), Dead);
          }
        }
      case Expire(key) => ExpireKeeps(w, key);
      case Tick(to) => TickKeeps(w, to);
    }
  }

  lemma ArriveKeeps(w: World, key: string)
    requires Inv(w)
    ensures Inv(Apply(w, Arrive(key)))
  {
    var w' := Apply(w, Arrive(key));
    forall i | 0 <= i < |w'.requests| ensures Holds(w', i) {
      if i < |w.requests| {
        assert Holds(w, i);
        AppendKeepsProduced(w, w', i);
      }
    }
    forall k | k in w'.docs ensures RecordSound(w', k) {
      assert RecordSound(w, k);
    }
  }

  lemma AppendKeepsProduced(w: World, w': World, i: nat)
    requires i < |w.requests| && w.requests <= w'.requests && Holds(w, i)
    ensures var r := w.requests[i];
      r.ran.None? && r.phase.Returned? && r.phase.response.Given? ==> ProducedBy(w', r.key, r.phase.response.result)
  {
    var r := w.requests[i];
    if r.ran.None? && r.phase.Returned? && r.phase.response.Given? {
      var j :| 0 <= j < |w.requests| && w.requests[j].key == r.key && w.requests[j].claimed.Some?
        && w.requests[j].ran == Some(r.phase.response.result) && r.phase.response.result.success;
      assert w'.requests[j] == w.requests[j];
    }
  }

  lemma ExpireKeeps(w: World, key: string)
    requires Inv(w)
    ensures Inv(Apply(w, Expire(key)))
  {
    var w' := Apply(w, Expire(key));
    forall i | 0 <= i < |w.requests| ensures Holds(w', i) {
      assert Holds(w, i);
      AppendKeepsProduced(w, w', i);
    }
    forall k | k in w'.docs ensures RecordSound(w', k) {
      assert RecordSound(w, k);
    }
  }

  lemma TickKeeps(w: World, to: int)
    requires Inv(w)
    ensures Inv(Apply(w, Tick(to)))
  {
    var w' := Apply(w, Tick(to));
    forall i | 0 <= i < |w.requests| ensures Holds(w', i) {
      assert Holds(w, i);
      AppendKeepsProduced(w, w', i);
    }
    forall k | k in w'.docs ensures RecordSound(w', k) {
      assert RecordSound(w, k);
    }
  }

  lemma {:induction false} InvHolds(steps: seq<Step>)
    ensures Inv(Run(steps))
  {
    if steps != [] {
      hide Inv, Apply;
      InvHolds(steps[..|steps| - 1]);
      StepKeeps(Run(steps[..|steps| - 1]), steps[|steps| - 1]);
    } else {
      assert Inv(INITIAL);
    }
  }

  // ----- what follows for every run

  /** Two live claimants of one key are the same request, and its record is there and in progress. */
  lemma OneLiveClaimant(steps: seq<Step>, i: nat, j: nat)
    requires i < |Run(steps).requests| && Live(Run(steps).requests[i])
    ensures var w := Run(steps);
      var r := w.requests[i];
      && r.key in w.docs && w.docs[r.key].InProgress? && w.now < w.docs[r.key].expiresAt
      && (j < |w.requests| && Live(w.requests[j]) && w.requests[j].key == r.key ==> j == i)
  {
    InvHolds(steps);
    var w := Run(steps);
    assert Holds(w, i);
    if j < |w.requests| { assert Holds(w, j); }
  }

  /**
   * A completed record holds a success, namely what the one request that made the record got from
   * its run; if that request answered at all, it answered with this very result.
   */
  lemma CompletedIsGenuine(steps: seq<Step>, key: string)
    requires key in Run(steps).docs && Run(steps).docs[key].Completed?
    ensures var w := Run(steps);
      var result := w.docs[key].result;
      && key in w.owner && w.owner[key] < |w.requests|
      && var r := w.requests[w.owner[key]];
      && r.key == key && r.claimed.Some? && r.ran == Some(result) && result.success
      && (r.phase.Returned? ==> r.phase.response == Given(result))
  {
    InvHolds(steps);
    assert RecordSound(Run(steps), key);
  }

  /** Every answer is the request's own result, a refusal, or the success of a claimant of the same key. */
  lemma AnswersAreGenuine(steps: seq<Step>, i: nat)
    requires i < |Run(steps).requests| && Run(steps).requests[i].phase.Returned?
    ensures var w := Run(steps);
      var r := w.requests[i];
      match r.phase.response
      case DuplicateRequest => r.ran.None?
      case Given(result) => if r.ran.Some? then r.ran == Some(result) else ProducedBy(w, r.key, result)
  {
    InvHolds(steps);
    assert Holds(Run(steps), i);
  }

  // ----- undisturbed runs over one key

  /** No fault, cancellation, crash or expiry, and no run of a claimant fails. */
  predicate Clean(key: string, step: Step) {
    match step
    case Arrive(k) => k == key
    case DoInsert(_, fate) => fate.Good?
    case DoFind(_, fate, decodes) => fate.Good? && decodes
    case RunEnds(_, run) => run.Returns? && run.result.success
    case DoComplete(_, fate) => fate.Good?
    case DoRelease(_, fate) => fate.Good?
    case Crash(_, _) => false
    case Expire(_) => false
    case Tick(_) => true
  }

  predicate AllClean(key: string, steps: seq<Step>) {
    forall i | 0 <= i < |steps| :: Clean(key, steps[i])
  }

  /** The only request that runs, if any does. */
  predicate CleanInv(w: World, key: string) {
    && (forall i | 0 <= i < |w.requests| :: w.requests[i].key == key)
    && if key !in w.docs
       then forall i | 0 <= i < |w.requests| :: w.requests[i].phase.Arrived? && w.requests[i].ran.None?
       else
         && key in w.owner && w.owner[key] < |w.requests|
         && Owns(w.docs[key], w.requests[w.owner[key]])
         && (forall i | 0 <= i < |w.requests| && i != w.owner[key] :: Waits(w.docs[key], w.requests[i]))
  }

  /** The request that made the record: at work on it, or done with the stored result as its answer. */
  predicate Owns(doc: Doc, r: Request) {
    match doc
    case InProgress(_) => (r.phase == Running(true) && r.ran.None?) || (r.phase.Storing? && r.ran.Some?)
    case Completed(result, _) => r.phase == Returned(Given(result)) && r.ran == Some(result)
  }

  /** Any other request: not yet looked, or answered without running. */
  predicate Waits(doc: Doc, r: Request) {
    && r.ran.None?
    && (r.phase.Arrived? || r.phase.Collided? || r.phase == Returned(DuplicateRequest)
        || (doc.Completed? && r.phase == Returned(Given(doc.result))))
  }

  lemma {:induction false} CleanHolds(key: string, steps: seq<Step>)
    requires key != "" && AllClean(key, steps)
    ensures CleanInv(Run(steps), key)
  {
    if steps != [] {
      var init := steps[..|steps| - 1];
      assert AllClean(key, init) && Clean(key, steps[|steps| - 1]);
      CleanHolds(key, init);
      CleanStep(key, Run(init), steps[|steps| - 1]);
    }
  }

  lemma CleanStep(key: string, w: World, step: Step)
    requires key != "" && Clean(key, step) && CleanInv(w, key)
    ensures CleanInv(Apply(w, step), key)
  {
    match step {
      case DoInsert(i, fate) => if i < |w.requests| && w.requests[i].phase.Arrived? { CleanInsert(key, w, i); }
      case DoFind(i, fate, decodes) => if i < |w.requests| && w.requests[i].phase.Collided? { CleanFind(key, w, i); }
      case RunEnds(i, run) => if i < |w.requests| && w.requests[i].phase.Running? { CleanRun(key, w, i, run); }
      case DoComplete(i, fate) => if i < |w.requests| && w.requests[i].phase.Storing? { CleanComplete(key, w, i); }
      case DoRelease(i, fate) => if i < |w.requests| { NoneRemoving(key, w, i); }
      case Arrive(k) =>
      case Tick(to) =>
    }
  }

  lemma NoneRemoving(key: string, w: World, i: nat)
    requires CleanInv(w, key) && i < |w.requests|
    ensures !w.requests[i].phase.Removing?
  {
  }

  lemma CleanInsert(key: string, w: World, i: nat)
    requires key != "" && CleanInv(w, key) && i < |w.requests| && w.requests[i].phase.Arrived?
    ensures CleanInv(InsertStep(w, i, Good), key)
  {
  }

  lemma CleanFind(key: string, w: World, i: nat)
    requires key != "" && CleanInv(w, key) && i < |w.requests| && w.requests[i].phase.Collided?
    ensures CleanInv(FindStep(w, i, Good, true), key)
  {
  }

  lemma CleanRun(key: string, w: World, i: nat, run: RunEnd)
    requires key != "" && CleanInv(w, key) && i < |w.requests| && w.requests[i].phase.Running?
    requires run.Returns? && run.result.success
    ensures CleanInv(RunStep(w, i, run), key)
  {
  }

  lemma CleanComplete(key: string, w: World, i: nat)
    requires key != "" && CleanInv(w, key) && i < |w.requests| && w.requests[i].phase.Storing?
    ensures CleanInv(With(Written(w, i, Good), i, Answered(w.requests[i])), key)
  {
  }

  /**
   * Undisturbed requests with one key: no two ever run; once all have been answered exactly one has
   * run, its result is stored, and everyone else got that result or the refusal.
   */
  lemma ExactlyOneRuns(key: string, steps: seq<Step>)
    requires key != "" && AllClean(key, steps)
    ensures var w := Run(steps);
      && (forall i, j | 0 <= i < j < |w.requests| ::
           !((w.requests[i].ran.Some? || w.requests[i].phase.Running?)
             && (w.requests[j].ran.Some? || w.requests[j].phase.Running?)))
      && (w.requests != [] && (forall i | 0 <= i < |w.requests| :: w.requests[i].phase.Returned?) ==> OneRan(w, key))
  {
    CleanHolds(key, steps);
    var w := Run(steps);
    if key in w.docs {
      var c := w.owner[key];
      assert forall i | 0 <= i < |w.requests| && i != c :: Waits(w.docs[key], w.requests[i]);
      if forall i | 0 <= i < |w.requests| :: w.requests[i].phase.Returned? {
        assert w.requests[c].phase.Returned?;
        assert OneRanAt(w, key, c);
      }
    } else if w.requests != [] {
      assert w.requests[0].phase.Arrived?;
    }
  }

  predicate OneRanAt(w: World, key: string, c: nat) {
    && key in w.docs && w.docs[key].Completed? && c < |w.requests|
    && var result := w.docs[key].result;
    && w.requests[c].ran == Some(result) && w.requests[c].phase == Returned(Given(result))
    && forall i | 0 <= i < |w.requests| && i != c ::
         w.requests[i].ran.None? && w.requests[i].phase in {Returned(Given(result)), Returned(DuplicateRequest)}
  }

  predicate OneRan(w: World, key: string) {
    exists c: nat :: c < |w.requests| && OneRanAt(w, key, c)
  }
}
