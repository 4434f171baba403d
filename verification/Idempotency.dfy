/**
 * The duplicate-execution guard: one record per key in a shared collection, claimed by an insert
 * that can succeed only once. First the single operations with all their outcomes, then the guard
 * as the program runs it for one request.
 */
module IdempotencyGuard {
  const IN_FLIGHT_TTL_SECONDS := 600
  const COMPLETED_TTL_SECONDS := 3600

  /** What a run of the node or action produced. */
  datatype NodeResult = NodeResult(success: bool, body: string)

  datatype Response = Given(result: NodeResult) | DuplicateRequest

  datatype Doc = InProgress(expiresAt: int) | Completed(result: NodeResult, expiresAt: int)

  type Docs = map<string, Doc>

  /** How one call to the database ends. A failed or cancelled call may have been carried out all the same. */
  datatype Fate = Good | Fault(applied: bool) | Cancelled(applied: bool)

  predicate Happens(fate: Fate) {
    fate.Good? || fate.applied
  }

  function Insert(docs: Docs, key: string, now: int): Docs {
    if key in docs then docs else docs[key := InProgress(now + IN_FLIGHT_TTL_SECONDS)]
  }

  /** `update_one`: a key without a record stays without one. */
  function MarkCompleted(docs: Docs, key: string, result: NodeResult, now: int): Docs {
    if key in docs then docs[key := Completed(result, now + COMPLETED_TTL_SECONDS)] else docs
  }

  function Delete(docs: Docs, key: string): Docs {
    docs - {key}
  }

  /** What a claim decides; Gone: the request was cancelled while it waited for the database. */
  datatype Claimed = Execute(guarded: bool) | Replay(response: Response) | Look | Gone

  /** The first half of `claim`: the insert race. */
  function TryInsert(docs: Docs, key: string, now: int, fate: Fate): (Docs, Claimed) {
    if key == "" then (docs, Execute(false))
    else
      var docs' := if Happens(fate) then Insert(docs, key, now) else docs;
      match fate
      case Good => (docs', if key in docs then Look else Execute(true))
      case Fault(_) => (docs', Execute(false))
      case Cancelled(_) => (docs', Gone)
  }

  /** The second half of `claim`, after a collision. decodes: the stored response still fits the response model. */
  function Read(docs: Docs, key: string, fate: Fate, decodes: bool): Claimed {
    match fate
    case Fault(_) => Execute(false)
    case Cancelled(_) => Gone
    case Good =>
      if key !in docs then Execute(false)
      else match docs[key]
        case Completed(result, _) => if decodes then Replay(Given(result)) else Execute(false)
        case InProgress(_) => Replay(DuplicateRequest)
  }

  // ----- one request by itself

  datatype RunEnd = Returns(result: NodeResult) | Throws

  datatype RouteEnd = Reply(response: Response) | Raise

  /** What the database does to the calls of one request: insert, look, and the write at the end. */
  datatype Luck = Luck(insert: Fate, look: Fate, decodes: bool, last: Fate)

  const FINE := Luck(Good, Good, true, Good)

  /** After an exception the release is shielded: a cancellation does not reach it. */
  function Shielded(fate: Fate): Fate {
    if fate.Cancelled? then Good else fate
  }

  /** The route with nobody else at work. */
  function ExecuteAlone(docs: Docs, key: string, now: int, later: int, run: RunEnd, luck: Luck): (Docs, RouteEnd) {
    var (docs1, c) := TryInsert(docs, key, now, luck.insert);
    match if c.Look? then Read(docs1, key, luck.look, luck.decodes) else c
    case Replay(response) => (docs1, Reply(response))
    case Execute(guarded) =>
      var last := if run.Throws? then Shielded(luck.last) else luck.last;
      var writes := guarded && Happens(last);
      (match run
       case Throws => (if writes then Delete(docs1, key) else docs1, Raise)
       case Returns(result) =>
         (if !writes then docs1
          else if result.success then MarkCompleted(docs1, key, result, later)
          else Delete(docs1, key),
          if guarded && last.Cancelled? then Raise else Reply(Given(result))))
    case _ => (docs1, Raise)
  }

  /** Without a key the node runs and its result is the answer; an exception is passed on. */
  lemma NoKeyNoGuard(docs: Docs, now: int, later: int, run: RunEnd, luck: Luck)
    ensures ExecuteAlone(docs, "", now, later, run, luck) ==
      (docs, match run case Returns(result) => Reply(Given(result)) case Throws => Raise)
  {
  }

  /** The insert fails: the request runs all the same, and at most a record in progress is left behind. */
  lemma InsertFails(docs: Docs, key: string, now: int, later: int, run: RunEnd, luck: Luck)
    requires key != "" && luck.insert.Fault?
    ensures ExecuteAlone(docs, key, now, later, run, luck) ==
      (if luck.insert.applied && key !in docs then docs[key := InProgress(now + 600)] else docs,
       match run case Returns(result) => Reply(Given(result)) case Throws => Raise)
  {
  }

  /** Cancelled while it waits for the insert, the request ends without running. */
  lemma InsertCancelled(docs: Docs, key: string, now: int, later: int, run: RunEnd, luck: Luck)
    requires key != "" && luck.insert.Cancelled?
    ensures ExecuteAlone(docs, key, now, later, run, luck) ==
      (if luck.insert.applied && key !in docs then docs[key := InProgress(now + 600)] else docs, Raise)
  {
  }

  /**
   * The key was free: the request runs. A success is answered and stored for an hour; a failure is
   * answered and an exception passed on, and both free the key, the exception even when cancelled. A
   * last write that fails leaves the record in progress; one that is cancelled ends in an exception.
   */
  lemma KeyWasFree(docs: Docs, key: string, now: int, later: int, run: RunEnd, luck: Luck)
    requires key != "" && key !in docs && luck.insert.Good?
    ensures var (docs', end) := ExecuteAlone(docs, key, now, later, run, luck);
      var written := luck.last.Good? || luck.last.applied || (run.Throws? && luck.last.Cancelled?);
      && docs' == (if !written then docs[key := InProgress(now + 600)]
                   else if run.Returns? && run.result.success then docs[key := Completed(run.result, later + 3600)]
                   else docs)
      && end == (if run.Throws? || luck.last.Cancelled? then Raise else Reply(Given(run.result)))
  {
    assert docs[key := InProgress(now + 600)] - {key} == docs;
  }

  /**
   * The key was taken: the stored response or the refusal is the answer, and nothing runs; the
   * request runs beside the record exactly if the look fails or the stored response is unreadable.
   */
  lemma KeyWasTaken(docs: Docs, key: string, now: int, later: int, run: RunEnd, luck: Luck)
    requires key != "" && key in docs && luck.insert.Good?
    ensures var (docs', end) := ExecuteAlone(docs, key, now, later, run, luck);
      && docs' == docs
      && end == (if luck.look.Cancelled? then Raise
                 else if luck.look.Good? && docs[key].InProgress? then Reply(DuplicateRequest)
                 else if luck.look.Good? && luck.decodes then Reply(Given(docs[key].result))
                 else match run case Returns(result) => Reply(Given(result)) case Throws => Raise)
  {
  }

  /** A retry after a success gets the identical response and leaves the record alone, whatever its own run would do. */
  lemma RetryAfterSuccess(
    docs: Docs, key: string, now: int, later: int, result: NodeResult, again: int, again2: int, run: RunEnd)
    requires key != "" && key !in docs && result.success
    ensures var (docs1, first) := ExecuteAlone(docs, key, now, later, Returns(result), FINE);
      var (docs2, second) := ExecuteAlone(docs1, key, again, again2, run, FINE);
      first == second == Reply(Given(result)) && docs2 == docs1
  {
  }

  /** A failure or an exception leaves no trace: the retry runs for real. */
  lemma RetryAfterFailure(
    docs: Docs, key: string, now: int, later: int, failed: RunEnd, again: int, again2: int, run: RunEnd, luck: Luck)
    requires key != "" && key !in docs && (failed.Returns? ==> !failed.result.success)
    ensures var (docs1, first) := ExecuteAlone(docs, key, now, later, failed, FINE);
      && docs1 == docs
      && ExecuteAlone(docs1, key, again, again2, run, luck) ==
        ExecuteAlone(docs, key, again, again2, run, luck)
  {
  }

  /** The collection, updated in place. Fates are what the database does to each call. */
  class RecordStore {
    var docs: Docs

    constructor ()
      ensures docs == map[]
    {
      docs := map[];
    }

    /** `claim`; a cancellation leaves it as an exception (Gone). */
    method Claim(key: string, now: int, insertFate: Fate, findFate: Fate, decodes: bool) returns (c: Claimed)
      modifies this
      ensures var (docs', c') := TryInsert(old(docs), key, now, insertFate);
        docs == docs' && c == if c'.Look? then Read(docs', key, findFate, decodes) else c'
    {
      if key == "" {
        return Execute(false);
      }
      var taken := key in docs;
      if Happens(insertFate) && !taken {
        docs := docs[key := InProgress(now + IN_FLIGHT_TTL_SECONDS)];
      }
      match insertFate {
        case Good =>
          if !taken {
            return Execute(true);
          }
        case Fault(_) => return Execute(false);
        case Cancelled(_) => return Gone;
      }
      match findFate {
        case Fault(_) => return Execute(false);
        case Cancelled(_) => return Gone;
        case Good =>
      }
      if key !in docs {
        return Execute(false);
      }
      var doc := docs[key];
      if doc.InProgress? {
        return Replay(DuplicateRequest);
      }
      return if decodes then Replay(Given(doc.result)) else Execute(false);
    }

    /** `complete`; an error is swallowed. */
    method Complete(key: string, result: NodeResult, now: int, fate: Fate)
      modifies this
      ensures docs == if Happens(fate) then MarkCompleted(old(docs), key, result, now) else old(docs)
    {
      if Happens(fate) && key in docs {
        docs := docs[key := Completed(result, now + COMPLETED_TTL_SECONDS)];
      }
    }

    /** `release`; an error is swallowed. */
    method Release(key: string, fate: Fate)
      modifies this
      ensures docs == if Happens(fate) then Delete(old(docs), key) else old(docs)
    {
      if Happens(fate) {
        docs := docs - {key};
      }
    }
  }

  /** `execute` and `execute_action`: claim, run, then complete or release. */
  method ExecuteRoute(store: RecordStore, key: string, now: int, later: int, run: RunEnd, luck: Luck)
    returns (end: RouteEnd, ran: bool)
    modifies store
    ensures (store.docs, end) == ExecuteAlone(old(store.docs), key, now, later, run, luck)
    ensures ran <==>
      || key == "" || luck.insert.Fault?
      || (luck.insert.Good? &&
          (key !in old(store.docs) || luck.look.Fault?
           || (luck.look.Good? && old(store.docs)[key].Completed? && !luck.decodes)))
  {
    var c := store.Claim(key, now, luck.insert, luck.look, luck.decodes);
    if c.Gone? {
      return Raise, false;
    }
    if c.Replay? {
      return Reply(c.response), false;
    }
    match run {
      case Throws =>
        if c == Execute(true) {
          store.Release(key, Shielded(luck.last));
        }
        return Raise, true;
      case Returns(result) =>
        if c == Execute(true) {
          if result.success {
            store.Complete(key, result, later, luck.last);
          } else {
            store.Release(key, luck.last);
          }
          if luck.last.Cancelled? {
            return Raise, true;
          }
        }
        return Reply(Given(result)), true;
    }
  }
}
