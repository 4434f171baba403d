/**
 * How far the guard carries: exactly when a request runs without it, what holds of a key while
 * nobody does, and what becomes of a record once it is completed.
 */
module IdempotencyWindow {
  import opened Wrappers
  import opened IdempotencyGuard
  import opened IdempotencyRuns

  // ----- runs without the guard

  /** A request without a key, an insert that fails. */
  predicate SlipsAtInsert(w: World, i: nat, fate: Fate) {
    i < |w.requests| && w.requests[i].phase.Arrived? && (w.requests[i].key == "" || fate.Fault?)
  }

  /** A look that fails, that finds no record, or whose record cannot be read any more. */
  predicate SlipsAtLook(w: World, i: nat, fate: Fate, decodes: bool) {
    && i < |w.requests| && w.requests[i].phase.Collided?
    && var key := w.requests[i].key;
    && (fate.Fault? || (fate.Good? && (key !in w.docs || (w.docs[key].Completed? && !decodes))))
  }

  /** The step lets a request run unguarded. */
  predicate Slips(w: World, step: Step) {
    match step
    case DoInsert(i, fate) => SlipsAtInsert(w, i, fate)
    case DoFind(i, fate, decodes) => SlipsAtLook(w, i, fate, decodes)
    case _ => false
  }

  predicate SomeUnguarded(w: World) {
    exists i :: 0 <= i < |w.requests| && w.requests[i].phase == Running(false)
  }

  /** At some moment of the run a request runs unguarded. */
  predicate EverUnguarded(steps: seq<Step>) {
    exists q :: 0 <= q <= |steps| && SomeUnguarded(Run(steps[..q]))
  }

  predicate NoSlip(steps: seq<Step>) {
    forall q | 0 <= q < |steps| :: !Slips(Run(steps[..q]), steps[q])
  }

  lemma SlipRuns(w: World, step: Step)
    requires Slips(w, step)
    ensures SomeUnguarded(Apply(w, step))
  {
    assert Apply(w, step).requests[step.i].phase == Running(false);
  }

  lemma OnlySlipsRun(w: World, step: Step)
    requires !SomeUnguarded(w) && SomeUnguarded(Apply(w, step))
    ensures Slips(w, step)
  {
    var i :| 0 <= i < |Apply(w, step).requests| && Apply(w, step).requests[i].phase == Running(false);
  }

  lemma {:induction false} NoSlipNoRun(steps: seq<Step>)
    requires NoSlip(steps)
    ensures !SomeUnguarded(Run(steps))
  {
    hide Slips, SomeUnguarded, Apply;
    if steps == [] {
      NobodyRuns();
    } else {
      var init, step := steps[..|steps| - 1], steps[|steps| - 1];
      assert !Slips(Run(init), step);
      forall q | 0 <= q < |init| ensures !Slips(Run(init[..q]), init[q]) {
        assert init[..q] == steps[..q];
      }
      NoSlipNoRun(init);
      if SomeUnguarded(Apply(Run(init), step)) { OnlySlipsRun(Run(init), step); }
    }
  }

  lemma NobodyRuns()
    ensures !SomeUnguarded(Run([]))
  {
  }

  /**
   * In any run, with any faults, cancellations, crashes and expiry: no request ever runs unguarded if
   * and only if each of them has a key, no insert fails, and no look fails, misses the record, or
   * meets one that cannot be read.
   */
  lemma UnguardedIffSlip(steps: seq<Step>)
    ensures !EverUnguarded(steps) <==> NoSlip(steps)
  {
    hide Slips, SomeUnguarded, Apply, Run;
    if NoSlip(steps) {
      forall q | 0 <= q <= |steps| ensures !SomeUnguarded(Run(steps[..q])) {
        forall p | 0 <= p < q ensures !Slips(Run(steps[..q][..p]), steps[..q][p]) {
          assert steps[..q][..p] == steps[..p];
        }
        NoSlipNoRun(steps[..q]);
      }
    } else {
      var q :| 0 <= q < |steps| && Slips(Run(steps[..q]), steps[q]);
      SlipRuns(Run(steps[..q]), steps[q]);
      assert steps[..q + 1][..q] == steps[..q];
      RunLast(steps[..q + 1]);
      assert SomeUnguarded(Run(steps[..q + 1]));
    }
  }

  lemma RunLast(steps: seq<Step>)
    requires steps != []
    ensures Run(steps) == Apply(Run(steps[..|steps| - 1]), steps[|steps| - 1])
  {
    hide Apply;
  }

  /** A collided request looks and finds a record. */
  predicate Met(key: string, w: World, step: Step) {
    step.DoFind? && step.i < |w.requests| && w.requests[step.i].phase.Collided? ==> key in w.docs
  }

  lemma {:induction false} OneKey(key: string, steps: seq<Step>)
    requires Undisturbed(key, steps)
    ensures forall i | 0 <= i < |Run(steps).requests| :: Run(steps).requests[i].key == key
  {
    if steps != [] {
      var init, step := steps[..|steps| - 1], steps[|steps| - 1];
      assert Undisturbed(key, init);
      assert Clean(key, step) || (step.RunEnds? && step.run.Returns?);
      OneKey(key, init);
    }
  }

  lemma SlipIsMiss(key: string, w: World, step: Step)
    requires key != "" && (Clean(key, step) || (step.RunEnds? && step.run.Returns?))
    requires forall i | 0 <= i < |w.requests| :: w.requests[i].key == key
    ensures Slips(w, step) <==> !Met(key, w, step)
  {
  }

  /**
   * Requests with one key, undisturbed but for runs that may fail: no request ever runs unguarded if
   * and only if every collided request finds a record when it looks.
   */
  lemma UnguardedIffMiss(key: string, steps: seq<Step>)
    requires key != "" && Undisturbed(key, steps)
    ensures !EverUnguarded(steps) <==> forall q | 0 <= q < |steps| :: Met(key, Run(steps[..q]), steps[q])
  {
    hide Slips, Met, Run, EverUnguarded;
    UnguardedIffSlip(steps);
    forall q | 0 <= q < |steps| ensures Slips(Run(steps[..q]), steps[q]) <==> !Met(key, Run(steps[..q]), steps[q]) {
      OneKey(key, steps[..q]);
      SlipIsMiss(key, Run(steps[..q]), steps[q]);
    }
  }

  /**
   * As long as nobody runs unguarded, at no moment are two requests of one key at work; two that are
   * at work together are therefore never both guarded, in any run.
   */
  lemma GuardedRunsExclude(steps: seq<Step>, q: nat, i: nat, j: nat)
    requires q <= |steps| && i < |Run(steps[..q]).requests| && j < |Run(steps[..q]).requests|
    requires var w := Run(steps[..q]);
      w.requests[i].phase.Running? && w.requests[j].phase.Running? && w.requests[i].key == w.requests[j].key
    ensures var w := Run(steps[..q]);
      i == j || w.requests[i].phase == Running(false) || w.requests[j].phase == Running(false)
    ensures !EverUnguarded(steps) ==> i == j
  {
    hide Run;
    var w := Run(steps[..q]);
    if Live(w.requests[i]) && Live(w.requests[j]) { OneLiveClaimant(steps[..q], i, j); }
    assert w.requests[i].phase == Running(false) || w.requests[j].phase == Running(false) ==> SomeUnguarded(w);
  }

  // ----- a completed record

  /** Beside a completed record no request of its key has anything left to write. */
  lemma NobodyLive(w: World, key: string, i: nat)
    requires Inv(w) && key in w.docs && w.docs[key].Completed? && i < |w.requests| && w.requests[i].key == key
    ensures !Live(w.requests[i]) && (w.requests[i].phase.Collided? ==> w.requests[i].ran.None?)
  {
    assert Holds(w, i);
  }

  /** Only expiry takes a completed record away. */
  lemma RecordStays(w: World, step: Step, key: string)
    requires Inv(w) && key in w.docs && w.docs[key].Completed? && step != Expire(key)
    ensures var docs := Apply(w, step).docs; key in docs && docs[key] == w.docs[key]
    ensures |w.requests| <= |Apply(w, step).requests|
  {
    if (step.DoComplete? || step.DoRelease? || step.Crash?) && step.i < |w.requests| && w.requests[step.i].key == key {
      NobodyLive(w, key, step.i);
    }
    hide Inv, InTime;
  }

  lemma AnswerStays(w: World, step: Step, key: string, i: nat)
    requires Inv(w) && key in w.docs && w.docs[key].Completed?
    requires i < |Apply(w, step).requests| && Apply(w, step).requests[i].key == key
    ensures var w' := Apply(w, step);
      && |w.requests| <= |w'.requests| && (i < |w.requests| ==> w.requests[i].key == key)
      && if i < |w.requests| && w.requests[i].phase.Returned? then w'.requests[i] == w.requests[i]
         else Answers(w'.requests[i], w.docs[key].result)
  {
    if i < |w.requests| && w.requests[i].key == key { NobodyLive(w, key, i); }
    hide Inv, InTime, Holds, Outcome, Happens;
  }

  predicate AnsweredIn(steps: seq<Step>, i: nat) {
    i < |Run(steps).requests| && Run(steps).requests[i].phase.Returned?
  }

  /** If answered, then with its own result or the stored one. */
  predicate Answers(r: Request, stored: NodeResult) {
    r.phase.Returned? ==> r.phase.response == Given(if r.ran.Some? then r.ran.value else stored)
  }

  /**
   * Once a record is completed it stays as it is until it expires, through any faults, crashes and
   * cancellations; whoever is answered after that gets the stored result, or its own when its look
   * went wrong, but never the refusal.
   */
  lemma {:induction false} CompletedLasts(pre: seq<Step>, post: seq<Step>, key: string)
    requires key in Run(pre).docs && Run(pre).docs[key].Completed? && Expire(key) !in post
    ensures var docs := Run(pre + post).docs; key in docs && docs[key] == Run(pre).docs[key]
    ensures |Run(pre).requests| <= |Run(pre + post).requests|
    ensures forall i | 0 <= i < |Run(pre + post).requests| && Run(pre + post).requests[i].key == key ::
      if AnsweredIn(pre, i) then Run(pre + post).requests[i] == Run(pre).requests[i]
      else Answers(Run(pre + post).requests[i], Run(pre).docs[key].result)
  {
    hide Run, Apply, Inv;
    if post == [] {
      assert pre + post == pre;
    } else {
      var init, step := post[..|post| - 1], post[|post| - 1];
      CompletedLasts(pre, init, key);
      assert (pre + post)[..|pre + post| - 1] == pre + init;
      RunLast(pre + post);
      InvHolds(pre + init);
      var w, w' := Run(pre + init), Run(pre + post);
      RecordStays(w, step, key);
      forall i | 0 <= i < |w'.requests| && w'.requests[i].key == key
        ensures if AnsweredIn(pre, i) then w'.requests[i] == Run(pre).requests[i]
          else Answers(w'.requests[i], Run(pre).docs[key].result)
      {
        AnswerStays(w, step, key, i);
      }
    }
  }

  /** Undisturbed: from then on everyone who is answered gets the stored result, never the refusal. */
  lemma CompletedIsReplayed(key: string, pre: seq<Step>, post: seq<Step>, i: nat)
    requires key != "" && AllClean(key, pre + post)
    requires key in Run(pre).docs && Run(pre).docs[key].Completed?
    requires !AnsweredIn(pre, i) && AnsweredIn(pre + post, i)
    ensures var w, doc := Run(pre + post), Run(pre).docs[key];
      key in w.docs && w.docs[key] == doc && w.requests[i].phase == Returned(Given(doc.result))
  {
    hide Run, Answers;
    forall k | 0 <= k < |post| ensures post[k] != Expire(key) {
      assert Clean(key, (pre + post)[|pre| + k]);
    }
    CompletedLasts(pre, post, key);
    CleanHolds(key, pre + post);
    StoredAnswer(Run(pre + post), key, Run(pre).docs[key], i);
  }

  lemma StoredAnswer(w: World, key: string, doc: Doc, i: nat)
    requires CleanInv(w, key) && key in w.docs && w.docs[key] == doc && doc.Completed?
    requires i < |w.requests| && w.requests[i].phase.Returned? && Answers(w.requests[i], doc.result)
    ensures w.requests[i].phase == Returned(Given(doc.result))
  {
  }

  // ----- the window

  /**
   * The limit of the guard: between a collision and the look that follows it the record may be
   * released. Then the look finds nothing, the request runs unguarded, and a third one may claim
   * the key at the same time. No fault, cancellation, crash or expiry is needed.
   */
  lemma UnguardedWindow(key: string)
    requires key != ""
    ensures exists steps, i: nat, j: nat :: Undisturbed(key, steps) && BothRun(Run(steps), key, i, j)
  {
    hide Run, BothRun, Phases;
    var s3 := ThreeArrived(key);
    var s5 := OneCollided(key, s3);
    var s7 := OneReleased(key, s5);
    var s9 := TwoAtWork(key, s7);
    assert BothRun(Run(s9), key, 1, 2);
  }

  const FAILED := NodeResult(false, "")

  /** Three requests of the key in these phases, with or without a record of it. */
  predicate Phases(w: World, key: string, a: Phase, b: Phase, c: Phase, recorded: bool) {
    && |w.requests| == 3 && (forall i | 0 <= i < 3 :: w.requests[i].key == key)
    && w.requests[0].phase == a && w.requests[1].phase == b && w.requests[2].phase == c
    && (key in w.docs <==> recorded)
  }

  lemma ThreeArrived(key: string) returns (steps: seq<Step>)
    ensures Undisturbed(key, steps) && Phases(Run(steps), key, Arrived, Arrived, Arrived, false)
  {
    hide Run;
    assert Run([]) == INITIAL by { NoSteps(); }
    var s1 := Then(key, [], Arrive(key));
    var s2 := Then(key, s1, Arrive(key));
    steps := Then(key, s2, Arrive(key));
  }

  lemma OneCollided(key: string, before: seq<Step>) returns (steps: seq<Step>)
    requires key != "" && Undisturbed(key, before) && Phases(Run(before), key, Arrived, Arrived, Arrived, false)
    ensures Undisturbed(key, steps) && Phases(Run(steps), key, Running(true), Collided, Arrived, true)
  {
    hide Run;
    var s4 := Then(key, before, DoInsert(0, Good));
    assert Phases(Run(s4), key, Running(true), Arrived, Arrived, true);
    steps := Then(key, s4, DoInsert(1, Good));
  }

  lemma OneReleased(key: string, before: seq<Step>) returns (steps: seq<Step>)
    requires Undisturbed(key, before) && Phases(Run(before), key, Running(true), Collided, Arrived, true)
    ensures Undisturbed(key, steps) && Phases(Run(steps), key, Returned(Given(FAILED)), Collided, Arrived, false)
  {
    hide Run;
    var s6 := Then(key, before, RunEnds(0, Returns(FAILED)));
    assert Phases(Run(s6), key, Removing(false), Collided, Arrived, true) && Run(s6).requests[0].ran == Some(FAILED);
    steps := Then(key, s6, DoRelease(0, Good));
  }

  lemma TwoAtWork(key: string, before: seq<Step>) returns (steps: seq<Step>)
    requires key != "" && Undisturbed(key, before)
    requires Phases(Run(before), key, Returned(Given(FAILED)), Collided, Arrived, false)
    ensures Undisturbed(key, steps) && BothRun(Run(steps), key, 1, 2)
  {
    hide Run;
    var s8 := Then(key, before, DoFind(1, Good, true));
    assert Phases(Run(s8), key, Returned(Given(FAILED)), Running(false), Arrived, false);
    steps := Then(key, s8, DoInsert(2, Good));
  }

  predicate BothRun(w: World, key: string, i: nat, j: nat) {
    && i < j < |w.requests| && w.requests[i].key == key && w.requests[j].key == key
    && w.requests[i].phase == Running(false) && w.requests[j].phase == Running(true)
  }

  lemma NoSteps()
    ensures Run([]) == INITIAL
  {
  }

  lemma Then(key: string, steps: seq<Step>, step: Step) returns (more: seq<Step>)
    requires Undisturbed(key, steps) && (Clean(key, step) || (step.RunEnds? && step.run.Returns?))
    ensures Undisturbed(key, more) && Run(more) == Apply(Run(steps), step)
  {
    more := steps + [step];
    assert more[..|more| - 1] == steps;
  }

  /** Clean, except that runs may fail. */
  predicate Undisturbed(key: string, steps: seq<Step>) {
    forall k | 0 <= k < |steps| :: Clean(key, steps[k]) || (steps[k].RunEnds? && steps[k].run.Returns?)
  }
}
