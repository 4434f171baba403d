/** The route taken by one request alone is a run of the protocol with that one request. */
module IdempotencyRoute {
  import opened Wrappers
  import opened IdempotencyGuard
  import opened IdempotencyRuns

  /** The steps of one request; those that its phase does not allow change nothing. */
  function StepsOf(run: RunEnd, later: int, luck: Luck): seq<Step> {
    [DoInsert(0, luck.insert), DoFind(0, luck.look, luck.decodes), RunEnds(0, run), Tick(later),
     DoComplete(0, luck.last), DoRelease(0, luck.last), DoRelease(0, Good)]
  }

  function From(w: World, steps: seq<Step>): World
    decreases |steps|
  {
    if steps == [] then w else From(Apply(w, steps[0]), steps[1..])
  }

  predicate EndsAs(phase: Phase, end: RouteEnd) {
    match end
    case Reply(response) => phase == Returned(response)
    case Raise => phase == Raised
  }

  /**
   * Records and answer of the route are those of the protocol's steps, whatever the fate of each
   * call, as long as a claimant is done before its record may expire.
   */
  lemma RouteIsARun(
    docs: Docs, owner: map<string, nat>, key: string, now: int, later: int, run: RunEnd, luck: Luck)
    requires now <= later < now + IN_FLIGHT_TTL_SECONDS
    ensures var w := From(World(docs, now, [Request(key, Arrived, None, None)], owner), StepsOf(run, later, luck));
      var (docs', end) := ExecuteAlone(docs, key, now, later, run, luck);
      && w.docs == docs' && |w.requests| == 1 && EndsAs(w.requests[0].phase, end)
  {
    var w0, steps := World(docs, now, [Request(key, Arrived, None, None)], owner), StepsOf(run, later, luck);
    SevenSteps(w0, steps);
    var (docs1, c) := TryInsert(docs, key, now, luck.insert);
    var c1 := if c.Look? then Read(docs1, key, luck.look, luck.decodes) else c;
    var w2 := Apply(Apply(w0, steps[0]), steps[1]);
    ClaimSteps(docs, owner, key, now, luck);
    if c1.Execute? {
      RunSteps(w2, run, later, luck, c1.guarded);
    } else {
      IdleSteps(w2, run, later, luck);
    }
    hide Apply, From, TryInsert, Read;
  }

  /** One request, alone in the world. */
  predicate Alone(w: World, docs: Docs, key: string, now: int, phase: Phase) {
    && w.docs == docs && w.now == now && |w.requests| == 1
    && w.requests[0].key == key && w.requests[0].phase == phase
  }

  lemma ClaimSteps(docs: Docs, owner: map<string, nat>, key: string, now: int, luck: Luck)
    ensures var w0 := World(docs, now, [Request(key, Arrived, None, None)], owner);
      var w := Apply(Apply(w0, DoInsert(0, luck.insert)), DoFind(0, luck.look, luck.decodes));
      var (docs1, c) := TryInsert(docs, key, now, luck.insert);
      var c1 := if c.Look? then Read(docs1, key, luck.look, luck.decodes) else c;
      var phase := match c1
        case Execute(guarded) => Running(guarded)
        case Replay(response) => Returned(response)
        case _ => Raised;
      && Alone(w, docs1, key, now, phase)
      && (c1 == Execute(true) ==> w.requests[0].claimed == Some(now))
  {
  }

  /** A request that has its answer, or ended in an exception, is left alone by all that follows. */
  lemma IdleSteps(w: World, run: RunEnd, later: int, luck: Luck)
    requires |w.requests| == 1 && (w.requests[0].phase.Returned? || w.requests[0].phase.Raised?) && w.now <= later
    ensures var s := StepsOf(run, later, luck);
      var w' := Apply(Apply(Apply(Apply(Apply(w, s[2]), s[3]), s[4]), s[5]), s[6]);
      w'.docs == w.docs && w'.requests == w.requests
  {
  }

  lemma RunSteps(w: World, run: RunEnd, later: int, luck: Luck, guarded: bool)
    requires |w.requests| == 1 && w.requests[0].phase == Running(guarded)
    requires w.now <= later < w.now + IN_FLIGHT_TTL_SECONDS && (guarded ==> w.requests[0].claimed == Some(w.now))
    ensures var s, r := StepsOf(run, later, luck), w.requests[0];
      var w' := Apply(Apply(Apply(Apply(Apply(w, s[2]), s[3]), s[4]), s[5]), s[6]);
      var last := if run.Throws? then Shielded(luck.last) else luck.last;
      && |w'.requests| == 1
      && w'.docs == (if !guarded || !Happens(last) then w.docs
                     else if run.Returns? && run.result.success then MarkCompleted(w.docs, r.key, run.result, later)
                     else Delete(w.docs, r.key))
      && EndsAs(w'.requests[0].phase,
                if run.Throws? || (guarded && luck.last.Cancelled?) then Raise else Reply(Given(run.result)))
  {
    var s := StepsOf(run, later, luck);
    var w3 := Apply(w, s[2]);
    var w4 := Apply(w3, s[3]);
    assert w4 == w3.(now := later);
    hide MarkCompleted, Delete, InTime, RunStep;
    if w4.requests[0].phase.Storing? {
      assert Apply(Apply(Apply(w4, s[4]), s[5]), s[6]) == Apply(w4, s[4]);
    } else {
      assert Apply(w4, s[4]) == w4;
    }
  }

  lemma SevenSteps(w: World, s: seq<Step>)
    requires |s| == 7
    ensures From(w, s) ==
      Apply(Apply(Apply(Apply(Apply(Apply(Apply(w, s[0]), s[1]), s[2]), s[3]), s[4]), s[5]), s[6])
  {
    hide Apply;
    var w1, s1 := Apply(w, s[0]), s[1..];
    var w2, s2 := Apply(w1, s1[0]), s1[1..];
    var w3, s3 := Apply(w2, s2[0]), s2[1..];
    var w4, s4 := Apply(w3, s3[0]), s3[1..];
    var w5, s5 := Apply(w4, s4[0]), s4[1..];
    var w6, s6 := Apply(w5, s5[0]), s5[1..];
    assert From(w, s) == From(w1, s1) == From(w2, s2) == From(w3, s3);
    assert From(w3, s3) == From(w4, s4) == From(w5, s5) == From(w6, s6);
    assert s6[1..] == [] && From(w6, s6) == Apply(w6, s6[0]);
  }
}
