/** `ElapsedRealtimeEstimator` of gps/core/LocApiBase.cpp, proved against what it means: an
    answer read off the history of fixes, which never mentions the wall clock. */
module RealtimeEstimator {
  import opened Wrappers

  /** One sample of the clocks: wall-clock time and time since boot. */
  datatype Clock = Clock(utc: int, boot: int)

  /** One call: the sample taken (`None` when reading the clocks fails), the fix's own time,
      whether that time is trusted, and the expected distance to the fix before. */
  datatype Fix = Fix(clock: Option<Clock>, data: int, trusted: bool, tbf: int)

  datatype Event = Asked(fix: Fix) | Reset

  /** Trusted fixes to wait for before the modem's time is believed to be stable. */
  const SETTLING := 5

  // ---------- the meaning of a history ----------

  /** Fixes that the estimator learns from. */
  predicate Learns(f: Fix) {
    f.trusted && f.clock.Some?
  }

  /** The fix's time is not where the fix before it and the time between fixes put it. */
  predicate Jumps(steady: seq<Fix>, f: Fix) {
    steady != [] && f.tbf > 0 && f.tbf != f.data - steady[|steady| - 1].data
  }

  function Extend(steady: seq<Fix>, e: Event): seq<Fix> {
    match e
    case Reset => []
    case Asked(f) => if !Learns(f) then steady else if Jumps(steady, f) then [f] else steady + [f]
  }

  /** The fixes learnt from since the last reset or jump, the jumping fix included. */
  function Steady(es: seq<Event>): (steady: seq<Fix>)
    ensures forall i | 0 <= i < |steady| :: Learns(steady[i])
  {
    if es == [] then [] else Extend(Steady(es[..|es| - 1]), es[|es| - 1])
  }

  /** The elapsed realtime at which the modem's clock read zero, as the calibrating fix has it. */
  function Origin(steady: seq<Fix>, travel: int): int
    requires |steady| > SETTLING && Learns(steady[SETTLING])
  {
    var f := steady[SETTLING];
    f.clock.value.boot - f.data - travel
  }

  /** What a fix `f` is answered after the events `es`, with initial travel time `travel`. */
  function Answer(es: seq<Event>, f: Fix, travel: int): int {
    if f.clock.None? then -1
    else
      var steady := Steady(es + [Asked(f)]);
      if f.trusted && |steady| > SETTLING + 1 then f.data + Origin(steady, travel)
      else f.clock.value.boot - travel
  }

  /** What one more fix does to the fixes learnt from, seen from outside. */
  lemma ExtendShows(steady: seq<Fix>, f: Fix, travel: int)
    requires forall i | 0 <= i < |steady| :: Learns(steady[i])
    ensures var steady' := Extend(steady, Asked(f));
            if !Learns(f) then steady' == steady
            else
              && |steady'| == (if Jumps(steady, f) then 1 else |steady| + 1)
              && steady'[|steady'| - 1] == f
              && (|steady'| == SETTLING + 1 ==> Origin(steady', travel) == f.clock.value.boot - f.data - travel)
              && (|steady'| > SETTLING + 1 ==> Origin(steady', travel) == Origin(steady, travel))
  {
  }

  // ---------- the estimator ----------

  class ElapsedRealtimeEstimator {
    var mCurrentClockDiff: int
    var mPrevUtcTimeNanos: int
    var mPrevBootTimeNanos: int
    var mFixTimeStablizationThreshold: int
    var mPrevDataTimeNanos: int
    const mInitialTravelTime: int
    ghost var events: seq<Event>

    ghost predicate Valid()
      reads this
    {
      var steady := Steady(events);
      && mFixTimeStablizationThreshold == SETTLING - |steady|
      && (steady != [] ==>
        var last := steady[|steady| - 1];
        && mPrevDataTimeNanos == last.data
        && mPrevUtcTimeNanos == last.clock.value.utc && mPrevBootTimeNanos == last.clock.value.boot)
      && (|steady| > SETTLING ==>
        mCurrentClockDiff - mPrevUtcTimeNanos + mPrevBootTimeNanos == Origin(steady, mInitialTravelTime))
    }

    constructor (travelTimeNanosEstimate: int)
      ensures Valid() && events == [] && mInitialTravelTime == travelTimeNanosEstimate
    {
      mInitialTravelTime := travelTimeNanosEstimate;
      mCurrentClockDiff, mPrevDataTimeNanos, mPrevUtcTimeNanos, mPrevBootTimeNanos := 0, 0, 0, 0;
      mFixTimeStablizationThreshold := SETTLING;
      events := [];
    }

    /** An untrusted fix or a failing clock leaves the estimator as it is. */
    method GetElapsedRealtimeEstimateNanos(clock: Option<Clock>, curDataTimeNanos: int,
            isCurDataTimeTrustable: bool, tbf: int)
      returns (nanos: int)
      requires Valid()
      modifies this
      ensures Valid()
      ensures events == old(events) + [Asked(Fix(clock, curDataTimeNanos, isCurDataTimeTrustable, tbf))]
      ensures nanos
        == Answer(old(events), Fix(clock, curDataTimeNanos, isCurDataTimeTrustable, tbf), mInitialTravelTime)
      ensures !isCurDataTimeTrustable || clock.None? ==>
        unchanged(`mCurrentClockDiff) && unchanged(`mPrevUtcTimeNanos) && unchanged(`mPrevBootTimeNanos)
        && unchanged(`mPrevDataTimeNanos) && unchanged(`mFixTimeStablizationThreshold)
    {
      ghost var fix := Fix(clock, curDataTimeNanos, isCurDataTimeTrustable, tbf);
      SteadySnoc(events, Asked(fix));
      ExtendShows(Steady(events), fix, mInitialTravelTime);
      events := events + [Asked(fix)];
      var currentTravelTimeNanos := mInitialTravelTime;
      if clock.None? {
        return -1;
      }
      var currentTimeNanos, sinceBootTimeNanos := clock.value.utc, clock.value.boot;
      if isCurDataTimeTrustable {
        if tbf > 0 && tbf != curDataTimeNanos - mPrevDataTimeNanos {
          mFixTimeStablizationThreshold := SETTLING;
        }
        if mFixTimeStablizationThreshold == 0 {
          currentTravelTimeNanos := mInitialTravelTime;
          mCurrentClockDiff := currentTimeNanos - curDataTimeNanos - currentTravelTimeNanos;
        } else if mFixTimeStablizationThreshold < 0 {
          mCurrentClockDiff := mCurrentClockDiff + (currentTimeNanos - sinceBootTimeNanos)
                             - (mPrevUtcTimeNanos - mPrevBootTimeNanos);
          currentTravelTimeNanos := currentTimeNanos - curDataTimeNanos - mCurrentClockDiff;
        }
        mPrevUtcTimeNanos, mPrevBootTimeNanos := currentTimeNanos, sinceBootTimeNanos;
        mPrevDataTimeNanos := curDataTimeNanos;
        mFixTimeStablizationThreshold := mFixTimeStablizationThreshold - 1;
      }
      nanos := sinceBootTimeNanos - currentTravelTimeNanos;
    }

    method Reset()
      modifies this
      ensures Valid() && events == old(events) + [Event.Reset]
    {
      SteadySnoc(events, Event.Reset);
      mCurrentClockDiff, mPrevDataTimeNanos, mPrevUtcTimeNanos, mPrevBootTimeNanos := 0, 0, 0, 0;
      mFixTimeStablizationThreshold := SETTLING;
      events := events + [Event.Reset];
    }
  }

  lemma SteadySnoc(es: seq<Event>, e: Event)
    ensures Steady(es + [e]) == Extend(Steady(es), e)
  {
    assert (es + [e])[..|es|] == es;
  }

  // ---------- what the answers have in common ----------

  /** Two fixes that differ in the wall-clock reading alone. */
  predicate SameFix(f: Fix, g: Fix) {
    && f.data == g.data && f.trusted == g.trusted && f.tbf == g.tbf
    && f.clock.Some? == g.clock.Some?
    && (f.clock.Some? ==> f.clock.value.boot == g.clock.value.boot)
  }

  predicate SameEvent(d: Event, e: Event) {
    if d.Asked? && e.Asked? then SameFix(d.fix, e.fix) else d == e
  }

  predicate SameEvents(ds: seq<Event>, es: seq<Event>) {
    |ds| == |es| && forall i | 0 <= i < |ds| :: SameEvent(ds[i], es[i])
  }

  lemma {:induction false} SameSteady(ds: seq<Event>, es: seq<Event>)
    requires SameEvents(ds, es)
    ensures |Steady(ds)| == |Steady(es)|
    ensures forall i | 0 <= i < |Steady(ds)| :: SameFix(Steady(ds)[i], Steady(es)[i])
  {
    if ds != [] {
      SameSteady(ds[..|ds| - 1], es[..|es| - 1]);
    }
  }

  /** A fix that is not trusted is answered with the default, calibrated or not; without a clock
      there is no answer; and neither is learnt from. */
  lemma UntrustedIsDefault(es: seq<Event>, f: Fix, travel: int)
    requires !Learns(f)
    ensures Answer(es, f, travel) == if f.clock.Some? then f.clock.value.boot - travel else -1
    ensures Steady(es + [Asked(f)]) == Steady(es)
  {
    SteadySnoc(es, Asked(f));
  }

  /** Moving the wall clock about, in any way and at any time, changes no answer. */
  lemma WallClockIrrelevant(ds: seq<Event>, f: Fix, es: seq<Event>, g: Fix, travel: int)
    requires SameEvents(ds, es) && SameFix(f, g)
    ensures Answer(ds, f, travel) == Answer(es, g, travel)
  {
    SameSteady(ds + [Asked(f)], es + [Asked(g)]);
  }

  /** The events after which the modem's time counts as unstable again. */
  predicate Breaks(steady: seq<Fix>, e: Event) {
    e.Reset? || (Learns(e.fix) && Jumps(steady, e.fix))
  }

  predicate Unbroken(steady: seq<Fix>, es: seq<Event>)
    decreases |es|
  {
    es == [] || (!Breaks(steady, es[0]) && Unbroken(Extend(steady, es[0]), es[1..]))
  }

  lemma {:induction false} UnbrokenExtends(es: seq<Event>, more: seq<Event>)
    requires Unbroken(Steady(es), more)
    ensures Steady(es) <= Steady(es + more)
    decreases |more|
  {
    if more == [] {
      assert es + more == es;
    } else {
      SteadySnoc(es, more[0]);
      UnbrokenExtends(es + [more[0]], more[1..]);
      assert es + [more[0]] + more[1..] == es + more;
    }
  }

  /** Once calibrated, every trusted fix is answered with its own time plus one constant,
      fixed by the calibrating fix, whatever happens until the next jump or reset. */
  lemma ConstantOnceCalibrated(es: seq<Event>, more: seq<Event>, f: Fix, travel: int)
    requires |Steady(es)| > SETTLING && Learns(f)
    requires Unbroken(Steady(es), more) && !Jumps(Steady(es + more), f)
    ensures var calibrating := Steady(es)[SETTLING];
            Answer(es + more, f, travel) == f.data + (calibrating.clock.value.boot - calibrating.data - travel)
  {
    UnbrokenExtends(es, more);
    SteadySnoc(es + more, Asked(f));
    assert Steady(es) <= Steady(es + more + [Asked(f)]);
  }

  /** A jump or a reset leaves at most the jumping fix to learn from. */
  lemma BreakingForgets(es: seq<Event>, e: Event)
    requires Breaks(Steady(es), e)
    ensures |Steady(es + [e])| <= 1
  {
    SteadySnoc(es, e);
  }

  /** The fixes among the events that the estimator learns from. */
  function Learnt(es: seq<Event>): nat {
    if es == [] then 0
    else Learnt(es[..|es| - 1]) + (if es[|es| - 1].Asked? && Learns(es[|es| - 1].fix) then 1 else 0)
  }

  /** As long as no more than five fixes have been learnt from, since the start or the last
      break, the next fix, which may be the sixth, is answered with the current time less the
      initial travel time, however many untrusted or failing ones came between. */
  lemma DefaultUntilCalibrated(es: seq<Event>, more: seq<Event>, f: Fix, travel: int)
    requires |Steady(es)| + Learnt(more) <= SETTLING && f.clock.Some?
    ensures Answer(es + more, f, travel) == f.clock.value.boot - travel
  {
    SlowGrowth(es, more);
    SteadySnoc(es + more, Asked(f));
  }

  lemma {:induction false} SlowGrowth(es: seq<Event>, more: seq<Event>)
    ensures |Steady(es + more)| <= |Steady(es)| + Learnt(more)
    decreases |more|
  {
    if more == [] {
      assert es + more == es;
    } else {
      var n := |more| - 1;
      SlowGrowth(es, more[..n]);
      SteadySnoc(es + more[..n], more[n]);
      assert es + more[..n] + [more[n]] == es + more;
    }
  }

  /** Fixes that come without an expected distance never count as jumps: after calibration all of
      them are answered with their own time plus the constant, wherever they lie. */
  lemma FreeFixesNeverBreak(es: seq<Event>, more: seq<Event>, f: Fix, travel: int)
    requires |Steady(es)| > SETTLING && Learns(f) && f.tbf <= 0
    requires forall e <- more :: e.Asked? && e.fix.tbf <= 0
    ensures Answer(es + more, f, travel) == Answer(es, f, travel) == f.data + Origin(Steady(es), travel)
  {
    FreeIsUnbroken(Steady(es), more);
    ConstantOnceCalibrated(es, more, f, travel);
    ConstantOnceCalibrated(es, [], f, travel);
    assert es + [] == es;
  }

  lemma {:induction false} FreeIsUnbroken(steady: seq<Fix>, more: seq<Event>)
    requires forall e <- more :: e.Asked? && e.fix.tbf <= 0
    ensures Unbroken(steady, more)
    decreases |more|
  {
    if more != [] {
      assert more[0] in more;
      FreeIsUnbroken(Extend(steady, more[0]), more[1..]);
    }
  }

  /** A fix off the beat is answered with the default, and the ones after it start all over. */
  lemma OffBeatBreaks(es: seq<Event>, f: Fix, travel: int)
    requires Steady(es) != [] && Learns(f) && f.tbf > 0
    requires f.data != Steady(es)[|Steady(es)| - 1].data + f.tbf
    ensures Answer(es, f, travel) == f.clock.value.boot - travel && Steady(es + [Asked(f)]) == [f]
  {
    SteadySnoc(es, Asked(f));
  }

  /** Two trusted fixes in a row, both after calibration, are answered exactly the expected
      time between fixes apart. */
  lemma AnswersSpacedByTbf(es: seq<Event>, f: Fix, g: Fix, travel: int)
    requires |Steady(es)| > SETTLING && Learns(f) && Learns(g) && g.tbf > 0
    requires Unbroken(Steady(es), [Asked(f), Asked(g)])
    ensures Answer(es + [Asked(f)], g, travel) - Answer(es, f, travel) == g.tbf
  {
    assert es + [] == es;
    assert [Asked(f), Asked(g)][1..] == [Asked(g)];
    SteadySnoc(es, Asked(f));
    ConstantOnceCalibrated(es, [], f, travel);
    assert Unbroken(Steady(es), [Asked(f)]) by {
      assert [Asked(f)][1..] == [];
    }
    ConstantOnceCalibrated(es, [Asked(f)], g, travel);
  }
}
