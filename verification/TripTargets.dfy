/** When the modem speaks up: it runs one batch up to one target distance, and trips are only
    looked at when it gets there.  This is in time for every trip as long as the batch ends no
    later than any of them; here is what each operation does to that. */
module TripTargets {
  import opened TripAdapter
  import opened TripRuns

  /** What the trip still has to cover when the batch has accumulated `acc`. */
  function Left(t: TripSessionStatus, acc: Uint32): int {
    t.tripDistance - Distance(t, acc)
  }

  /** The batch has not run past its target, and no trip ends before it; what was last counted
      for a trip is not more than what it has covered. */
  ghost predicate InTime(a: Adapter, acc: Uint32) {
    a.trips != [] ==>
      && acc <= a.ongoingDistance
      && forall s <- a.trips :: Covers(s.status, acc, a.ongoingDistance - acc)
  }

  predicate Covers(t: TripSessionStatus, acc: Uint32, left: int) {
    t.accumulatedDistanceThisTrip <= Distance(t, acc) && left <= Left(t, acc)
  }

  /** The batch's reading once an operation is done. */
  function Afterwards(o: Outcome, acc: Uint32): Uint32 {
    if o.restarted then 0 else acc
  }

  /** A trip that is complete is so just as the batch ends, and not by a metre more. */
  lemma CompleteAtTheTarget(a: Adapter, acc: Uint32, s: Session)
    requires InTime(a, acc) && s in a.trips
    ensures Completed(s, acc) ==> acc == a.ongoingDistance && Distance(s.status, acc) == s.status.tripDistance
  {
  }

  // ---------- driving ----------

  lemma DistanceGrows(t: TripSessionStatus, acc: Uint32, acc': Uint32)
    ensures Distance(t, acc') == (Distance(t, acc) + (acc' - acc)) % WRAP
  {
    var r, b := t.accumulatedDistanceOnTripRestart, t.accumulatedDistanceOngoingBatch;
    ModOfMod(acc' - b, r);
    ModOfMod(acc - b, r);
    ModOfMod(acc - b + r, acc' - acc);
  }

  /** Driving is in time exactly up to the target. */
  lemma DriveKeepsIff(a: Adapter, acc: Uint32, acc': Uint32)
    requires InTime(a, acc) && acc <= acc'
    ensures InTime(a, acc') <==> a.trips == [] || acc' <= a.ongoingDistance
  {
    if acc' <= a.ongoingDistance {
      forall s | s in a.trips
        ensures Covers(s.status, acc', a.ongoingDistance - acc')
      {
        DistanceGrows(s.status, acc, acc');
        SmallMod(Distance(s.status, acc) + (acc' - acc));
      }
    }
  }

  // ---------- starting ----------

  lemma FirstKeeps(a: Adapter, id: Uint32, distance: Uint32, tbf: Uint32, ok: bool, acc: Uint32)
    requires a.trips == []
    ensures InTime(StartFirst(a, id, distance, tbf, ok).a, Afterwards(StartFirst(a, id, distance, tbf, ok), acc))
  {
  }

  /** A session that starts over from what was last counted. */
  lemma RebasedCovers(s: Session, left: Uint32)
    requires s.status.accumulatedDistanceThisTrip <= s.status.tripDistance
    ensures Covers(Rebased(s).status, 0, left) <==> left <= Remaining(s.status)
  {
  }

  /** A joining trip keeps the target in time for all, except when its query fails and it still
      makes the batch restart: then exactly if the new target, the smaller of its distance and
      the old target, is no more than what remained for every trip when last counted. */
  lemma JoinKeepsIff(a: Adapter, id: Uint32, distance: Uint32, tbf: Uint32, ok: bool, acc: Uint32)
    requires Sorted(a.trips) && a.trips != [] && InTime(a, acc)
    ensures var o := Join(a, id, distance, tbf, ok, acc);
            InTime(o.a, Afterwards(o, acc)) <==> JoinsInTime(a, distance, tbf, ok, acc)
  {
    if ok {
      JoinKeeps(a, id, distance, tbf, acc);
    } else if JoinRestarts(a, distance, tbf, ok, acc) {
      RebasedInTime(a.trips, Smaller(distance, a.ongoingDistance), acc);
    }
  }

  predicate JoinsInTime(a: Adapter, distance: Uint32, tbf: Uint32, ok: bool, acc: Uint32) {
    ok || !JoinRestarts(a, distance, tbf, ok, acc)
    || forall s <- a.trips :: Smaller(distance, a.ongoingDistance) <= Remaining(s.status)
  }

  function Smaller(x: Uint32, y: Uint32): Uint32 {
    if x < y then x else y
  }

  lemma RebasedInTime(trips: seq<Session>, target: Uint32, acc: Uint32)
    requires forall s <- trips :: s.status.accumulatedDistanceThisTrip <= s.status.tripDistance
    ensures (forall x <- RebaseAll(trips) :: Covers(x.status, 0, target))
       <==> (forall s <- trips :: target <= Remaining(s.status))
  {
    RebaseAllHas(trips);
    if forall s <- trips :: target <= Remaining(s.status) {
      forall x | x in RebaseAll(trips)
        ensures Covers(x.status, 0, target)
      {
        var s :| s in trips && x == Rebased(s);
        RebasedCovers(s, target);
      }
    }
    if forall x <- RebaseAll(trips) :: Covers(x.status, 0, target) {
      forall s | s in trips
        ensures target <= Remaining(s.status)
      {
        assert Rebased(s) in RebaseAll(trips);
        RebasedCovers(s, target);
      }
    }
  }

  lemma {:induction false} RebaseAllHas(trips: seq<Session>)
    ensures forall x :: x in RebaseAll(trips) <==> exists s <- trips :: x == Rebased(s)
  {
    if trips != [] {
      assert trips == [trips[0]] + trips[1..];
      RebaseAllHas(trips[1..]);
    }
  }

  lemma {:induction false} UpdateAllHas(trips: seq<Session>, acc: Uint32)
    ensures forall x :: x in UpdateAndRebaseAll(trips, acc) <==> exists s <- trips :: x == Rebased(Updated(s, acc))
  {
    if trips != [] {
      assert trips == [trips[0]] + trips[1..];
      UpdateAllHas(trips[1..], acc);
    }
  }

  /** What a join whose query succeeds does to the batch. */
  lemma JoinShows(a: Adapter, id: Uint32, distance: Uint32, tbf: Uint32, acc: Uint32)
    requires a.trips != [] && acc <= a.ongoingDistance
    ensures var o := Join(a, id, distance, tbf, true, acc);
            var trips := Put(a.trips, Session(id, TripSessionStatus(acc, 0, 0, distance, tbf)));
            if o.restarted
            then o.a.trips == RebaseAll(trips) && o.a.ongoingDistance == Smaller(distance, a.ongoingDistance - acc)
            else o.a.trips == trips && o.a.ongoingDistance == a.ongoingDistance && a.ongoingDistance - acc <= distance
  {
    SmallMod(a.ongoingDistance - acc);
  }

  lemma JoinKeeps(a: Adapter, id: Uint32, distance: Uint32, tbf: Uint32, acc: Uint32)
    requires Sorted(a.trips) && a.trips != [] && InTime(a, acc)
    ensures var o := Join(a, id, distance, tbf, true, acc);
            InTime(o.a, Afterwards(o, acc))
  {
    var o := Join(a, id, distance, tbf, true, acc);
    var s := Session(id, TripSessionStatus(acc, 0, 0, distance, tbf));
    var trips := Put(a.trips, s);
    PutFacts(a.trips, s);
    JoinShows(a, id, distance, tbf, acc);
    NewcomerCovers(s, acc, distance);
    var left := a.ongoingDistance - acc;
    if o.restarted {
      forall x | x in trips
        ensures x.status.accumulatedDistanceThisTrip <= x.status.tripDistance
        ensures Smaller(distance, left) <= Remaining(x.status)
      {
        if x != s {
          CoveredRemains(x.status, acc, left);
        }
      }
      RebasedInTime(trips, Smaller(distance, left), acc);
    } else {
      forall x | x in trips
        ensures Covers(x.status, acc, left)
      {
      }
    }
  }

  lemma NewcomerCovers(s: Session, acc: Uint32, distance: Uint32)
    requires s.status.accumulatedDistanceOngoingBatch == acc && s.status.tripDistance == distance
    requires s.status.accumulatedDistanceThisTrip == 0 && s.status.accumulatedDistanceOnTripRestart == 0
    ensures Remaining(s.status) == distance && Left(s.status, acc) == distance && Distance(s.status, acc) == 0
  {
  }

  lemma CoveredRemains(t: TripSessionStatus, acc: Uint32, left: nat)
    requires Covers(t, acc, left)
    ensures t.accumulatedDistanceThisTrip <= t.tripDistance && left <= Remaining(t)
  {
    SmallMod(t.tripDistance - t.accumulatedDistanceThisTrip);
  }

  // ---------- stopping and reporting ----------

  /** The plan's guard.  A restart for the interval alone sets off the whole old target anew, so
      every trip must have that much left.  A restart for the distance goes by what remained
      when last counted, so a trip that ends first must have just been counted. */
  predicate PlansInTime(a: Adapter, acc: Uint32, granted: bool) {
    granted && a.trips != [] ==>
      if ByDistance(a, acc) then exists u <- a.trips :: EndsFirst(u, a.trips, acc) && JustCounted(u, acc)
      else ByTbf(a) ==> forall s <- a.trips :: a.ongoingDistance <= Left(s.status, acc)
  }

  /** The trip is not complete, and none has less left. */
  predicate EndsFirst(u: Session, trips: seq<Session>, acc: Uint32) {
    0 < Left(u.status, acc) && forall s <- trips :: Left(u.status, acc) <= Left(s.status, acc)
  }

  predicate JustCounted(u: Session, acc: Uint32) {
    u.status.accumulatedDistanceThisTrip == Distance(u.status, acc)
  }

  /** Re-planning keeps the target in time exactly under its guard. */
  lemma RestartKeepsIff(a: Adapter, acc: Uint32, granted: bool)
    requires InTime(a, acc)
    ensures var o := Restart(a, acc, granted);
            InTime(o.a, Afterwards(o, acc)) <==> PlansInTime(a, acc, granted)
  {
    var o := Restart(a, acc, granted);
    if o.restarted {
      assert o.a.trips == UpdateAndRebaseAll(a.trips, acc);
      ReplannedInTime(a.trips, o.a.ongoingDistance, acc);
      if ByDistance(a, acc) {
        LeastIsLeftIff(a, acc);
      }
    }
  }

  /** The least of what remained when last counted is within what every trip has left exactly
      if a trip that ends first has just been counted. */
  lemma LeastIsLeftIff(a: Adapter, acc: Uint32)
    requires InTime(a, acc) && a.trips != [] && ByDistance(a, acc)
    ensures (forall s <- a.trips :: MinRemaining(0, a.trips) <= Left(s.status, acc))
       <==> exists u <- a.trips :: EndsFirst(u, a.trips, acc) && JustCounted(u, acc)
  {
    var m := MinRemaining(0, a.trips);
    RemainingLeft(a, acc);
    if forall s <- a.trips :: m <= Left(s.status, acc) {
      assert forall s <- a.trips :: 0 < Remaining(s.status) by {
        forall s | s in a.trips
          ensures 0 < Remaining(s.status)
        {
          if Left(s.status, acc) == 0 {
            SmallMod(a.ongoingDistance - acc);
          }
        }
      }
      MinRemainingIsLeast(0, a.trips);
      MinRemainingIsSome(0, a.trips);
      var u :| u in a.trips && Remaining(u.status) == m;
      assert EndsFirst(u, a.trips, acc) && JustCounted(u, acc);
    }
    if u :| u in a.trips && EndsFirst(u, a.trips, acc) && JustCounted(u, acc) {
      MinRemainingIsLeast(0, a.trips);
    }
  }

  lemma RemainingLeft(a: Adapter, acc: Uint32)
    requires InTime(a, acc)
    ensures forall s <- a.trips ::
      Remaining(s.status) == s.status.tripDistance - s.status.accumulatedDistanceThisTrip
      && 0 <= a.ongoingDistance - acc <= Left(s.status, acc) <= Remaining(s.status)
      && (JustCounted(s, acc) <==> Left(s.status, acc) == Remaining(s.status))
  {
    forall s | s in a.trips
      ensures Remaining(s.status) == s.status.tripDistance - s.status.accumulatedDistanceThisTrip
    {
      SmallMod(s.status.tripDistance - s.status.accumulatedDistanceThisTrip);
    }
  }

  lemma {:induction false} MinRemainingIsSome(least: Uint32, trips: seq<Session>)
    ensures var m := MinRemaining(least, trips);
            (m == least && (least > 0 || trips == [])) || exists u <- trips :: Remaining(u.status) == m
    decreases |trips|
  {
    if trips != [] {
      assert trips == [trips[0]] + trips[1..];
      MinRemainingIsSome(MinOrFirst(least, Remaining(trips[0].status)), trips[1..]);
    }
  }

  lemma ReplannedInTime(trips: seq<Session>, target: Uint32, acc: Uint32)
    requires forall s <- trips :: Left(s.status, acc) >= 0
    ensures (forall x <- UpdateAndRebaseAll(trips, acc) :: Covers(x.status, 0, target))
       <==> (forall s <- trips :: target <= Left(s.status, acc))
  {
    UpdateAllHas(trips, acc);
    forall s | s in trips
      ensures Rebased(Updated(s, acc)) in UpdateAndRebaseAll(trips, acc)
      ensures Covers(Rebased(Updated(s, acc)).status, 0, target) <==> target <= Left(s.status, acc)
    {
      RebasedCovers(Updated(s, acc), target);
    }
  }

  /** Stopping a trip keeps the target in time for the others exactly under the guard of the
      plan made for them. */
  lemma StopKeepsIff(a: Adapter, id: Uint32, acc: Uint32, granted: bool)
    requires Sorted(a.trips) && InTime(a, acc)
    ensures var o := Stop(a, id, acc, granted);
            InTime(o.a, Afterwards(o, acc)) <==> !HasTrip(a.trips, id) || PlansInTime(Stopped(a, id), acc, granted)
  {
    if HasTrip(a.trips, id) {
      EraseFacts(a.trips, id);
      RestartKeepsIff(Stopped(a, id), acc, granted);
    }
  }

  lemma {:induction false} MinRemainingIsLeast(least: Uint32, trips: seq<Session>)
    requires forall s <- trips :: Remaining(s.status) > 0
    ensures var m := MinRemaining(least, trips);
            && (m == 0 ==> least == 0 && trips == [])
            && (least > 0 ==> m <= least)
            && forall s <- trips :: m <= Remaining(s.status)
    decreases |trips|
  {
    if trips != [] {
      assert trips[0] in trips && trips == [trips[0]] + trips[1..];
      MinRemainingIsLeast(MinOrFirst(least, Remaining(trips[0].status)), trips[1..]);
    }
  }

  lemma {:induction false} UnfinishedHas(trips: seq<Session>, acc: Uint32)
    ensures forall x <- Unfinished(trips, acc) :: exists s <- trips :: !Completed(s, acc) && x == Updated(s, acc)
    ensures CompletedIds(trips, acc) != [] ==> exists s <- trips :: Completed(s, acc)
  {
    if trips != [] {
      assert trips == [trips[0]] + trips[1..];
      UnfinishedHas(trips[1..], acc);
    }
  }

  /** After the report loop everybody who is left is in time, incomplete and just counted. */
  lemma ReportedUpToDate(a: Adapter, acc: Uint32)
    requires InTime(a, acc)
    ensures InTime(Reported(a, acc), acc)
    ensures forall x <- Reported(a, acc).trips :: 0 < Left(x.status, acc) && JustCounted(x, acc)
  {
    UnfinishedHas(a.trips, acc);
    forall x | x in Reported(a, acc).trips
      ensures Covers(x.status, acc, a.ongoingDistance - acc) && 0 < Left(x.status, acc) && JustCounted(x, acc)
    {
      var s :| s in a.trips && !Completed(s, acc) && x == Updated(s, acc);
    }
  }

  /** A plan made just as the batch ends, for trips that are all just counted, is in time. */
  lemma UpToDatePlan(a: Adapter, acc: Uint32, granted: bool)
    requires InTime(a, acc) && acc == a.ongoingDistance
    requires forall x <- a.trips :: 0 < Left(x.status, acc) && JustCounted(x, acc)
    ensures PlansInTime(a, acc, granted)
  {
    if a.trips != [] {
      RemainingLeft(a, acc);
      MinRemainingIsLeast(0, a.trips);
      assert ByDistance(a, acc);
      LeastIsLeftIff(a, acc);
    }
  }

  /** A report always leaves a target that is in time. */
  lemma ReportKeeps(a: Adapter, acc: Uint32, granted: bool)
    requires InTime(a, acc)
    ensures var o := Report(a, acc, granted); InTime(o.a, Afterwards(o, acc))
  {
    ReportedUpToDate(a, acc);
    if CompletedIds(a.trips, acc) != [] {
      UnfinishedHas(a.trips, acc);
      var s :| s in a.trips && Completed(s, acc);
      CompleteAtTheTarget(a, acc, s);
      UpToDatePlan(Reported(a, acc), acc, granted);
      RestartKeepsIff(Reported(a, acc), acc, granted);
    }
  }

  // ---------- whole runs ----------

  ghost predicate Timely(w: World) {
    InTime(w.a, Reading(w))
  }

  /** What an event must observe: a drive ends at the target at the latest, where the modem
      speaks up; a join whose query fails, and a stop, have their conditions; nothing is
      asked of a first trip, of a join whose query succeeds, and of a report. */
  predicate Keeps(w: World, e: Happening) {
    match e
    case Drive(driven) => w.a.trips == [] || Reading(w) + driven <= w.a.ongoingDistance
    case StartTrip(_, distance, tbf, ok) => w.a.trips == [] || JoinsInTime(w.a, distance, tbf, ok, Reading(w))
    case StopTrip(id, granted) => !HasTrip(w.a.trips, id) || PlansInTime(Stopped(w.a, id), Reading(w), granted)
    case ReportTrips(_) => true
  }

  /** The drive does not wrap the batch's reading. */
  predicate Fits(w: World, e: Happening) {
    w.a.trips == [] || Reading(w) + Driven(e) < WRAP
  }

  lemma ReadingAfter(w: World, e: Happening)
    requires w.origin <= w.odometer
    ensures !e.Drive? ==> Reading(Step(w, e)) == Afterwards(Operate(w, e), Reading(w))
    ensures e.Drive? && Reading(w) + e.driven < WRAP ==> Reading(Step(w, e)) == Reading(w) + e.driven
  {
    if e.Drive? && Reading(w) + e.driven < WRAP {
      ModOfMod(w.odometer - w.origin, e.driven);
      SmallMod(Reading(w) + e.driven);
    }
  }

  /** Every event keeps the target in time exactly if it observes its condition. */
  lemma TimelyStepIff(w: World, e: Happening)
    requires Honest(w) && Timely(w) && Fits(w, e)
    ensures Timely(Step(w, e)) <==> Keeps(w, e)
  {
    ReadingAfter(w, e);
    match e
    case Drive(driven) =>
      if w.a.trips != [] {
        DriveKeepsIff(w.a, Reading(w), Reading(w) + driven);
      }
    case StartTrip(id, distance, tbf, ok) =>
      if w.a.trips == [] {
        FirstKeeps(w.a, id, distance, tbf, ok, Reading(w));
      } else {
        JoinKeepsIff(w.a, id, distance, tbf, ok, Reading(w));
      }
    case StopTrip(id, granted) => StopKeepsIff(w.a, id, Reading(w), granted);
    case ReportTrips(granted) => ReportKeeps(w.a, Reading(w), granted);
  }

  ghost predicate TimelyThroughout(w: World, es: seq<Happening>)
    decreases |es|
  {
    Timely(w) && (es != [] ==> TimelyThroughout(Step(w, es[0]), es[1..]))
  }

  predicate AllKeep(w: World, es: seq<Happening>)
    decreases |es|
  {
    es != [] ==> Keeps(w, es[0]) && AllKeep(Step(w, es[0]), es[1..])
  }

  predicate AllFit(w: World, es: seq<Happening>)
    decreases |es|
  {
    es != [] ==> Fits(w, es[0]) && AllFit(Step(w, es[0]), es[1..])
  }

  /** From the start, the target is in time throughout a run exactly if every event observes
      its condition. */
  lemma TimelyFromTheStart(es: seq<Happening>)
    requires AllFit(HOME, es)
    ensures TimelyThroughout(HOME, es) <==> AllKeep(HOME, es)
  {
    TimelyRunIff(HOME, es);
  }

  lemma {:induction false} TimelyRunIff(w: World, es: seq<Happening>)
    requires Honest(w) && Timely(w) && AllFit(w, es)
    ensures TimelyThroughout(w, es) <==> AllKeep(w, es)
    decreases |es|
  {
    if es != [] {
      HonestStep(w, es[0]);
      TimelyStepIff(w, es[0]);
      if Keeps(w, es[0]) {
        TimelyRunIff(Step(w, es[0]), es[1..]);
      }
    }
  }

  // ---------- runs that end with a target beyond a trip ----------

  /** A long trip with short intervals, a shorter one with long intervals, 60 driven, and the
      first one stopped: the batch restarts for the interval alone, with all of its target. */
  function IntervalRun(first: Uint32, second: Uint32): seq<Happening> {
    [StartTrip(first, 500, 5, true)] + ([StartTrip(second, 100, 10, true)] + ([Drive(60)] + [StopTrip(first, true)]))
  }

  /** Two trips, 40 driven, and the shorter one stopped: the batch restarts for what remained
      of the other when last counted, which was before the drive. */
  function StaleRun(first: Uint32, second: Uint32): seq<Happening> {
    [StartTrip(first, 50, 10, true)] + ([StartTrip(second, 100, 10, true)] + ([Drive(40)] + [StopTrip(first, true)]))
  }

  /** In either run the second trip ends before the batch does. */
  lemma StoppingDelays(first: Uint32, second: Uint32)
    requires first < second
    ensures !Timely(Run(HOME, IntervalRun(first, second)))
    ensures !Timely(Run(HOME, StaleRun(first, second)))
  {
    var w1 := Step(HOME, StartTrip(first, 500, 5, true));
    FourSteps(HOME, StartTrip(first, 500, 5, true), StartTrip(second, 100, 10, true), Drive(60), StopTrip(first, true));
    FirstStarts(w1, first, 500, 5);
    SecondStarts(w1, Step(w1, StartTrip(second, 100, 10, true)), first, second, 500, 5);
    StopsLate(Step(w1, StartTrip(second, 100, 10, true)), first, second, 500, 5, 60);

    var v1 := Step(HOME, StartTrip(first, 50, 10, true));
    FourSteps(HOME, StartTrip(first, 50, 10, true), StartTrip(second, 100, 10, true), Drive(40), StopTrip(first, true));
    FirstStarts(v1, first, 50, 10);
    SecondStarts(v1, Step(v1, StartTrip(second, 100, 10, true)), first, second, 50, 10);
    StopsLate(Step(v1, StartTrip(second, 100, 10, true)), first, second, 50, 10, 40);
  }

  /** The second trip joins where the first one starts. */
  lemma SecondStarts(w1: World, w2: World, first: Uint32, second: Uint32, distance: Uint32, tbf: Uint32)
    requires first < second && tbf <= 10 && w2 == Step(w1, StartTrip(second, 100, 10, true))
    requires w1.a == Adapter([Session(first, TripSessionStatus(0, 0, 0, distance, tbf))], distance, tbf, false, false)
    requires w1.odometer == w1.origin == 0
    ensures w2.odometer == w2.origin == 0
    ensures w2.a == Adapter([Uncounted(first, distance, tbf), Uncounted(second, 100, 10)],
                            Smaller(100, distance), tbf, false, false)
  {
    TwoSessions(w1.a.trips[0], Session(second, TripSessionStatus(0, 0, 0, 100, 10)));
  }

  lemma StopsLate(w2: World, first: Uint32, second: Uint32, distance: Uint32, tbf: Uint32, driven: nat)
    requires first < second && w2.odometer == w2.origin == 0
    requires w2.a == Adapter([Uncounted(first, distance, tbf), Uncounted(second, 100, 10)],
                             Smaller(100, distance), tbf, false, false)
    requires (distance == 500 && tbf == 5 && driven == 60) || (distance == 50 && tbf == 10 && driven == 40)
    ensures !Timely(Step(Step(w2, Drive(driven)), StopTrip(first, true)))
  {
    var w3 := Step(w2, Drive(driven));
    assert w3.a == w2.a && Reading(w3) == driven;
    var a := Stopped(w2.a, first);
    var s := Session(second, TripSessionStatus(0, 0, 0, 100, 10));
    assert a.trips == [s];
    OneRemaining(s);
    assert Left(s.status, driven) == 100 - driven && !JustCounted(s, driven);
    StopKeepsIff(w3.a, first, driven, true);
    assert s in a.trips;
    ReadingAfter(w3, StopTrip(first, true));
  }

  /** A trip of 100 of which 60 are counted, joined by one that wants fixes more often and whose
      query fails: the batch restarts with all of its target. */
  function BlindRun(first: Uint32, second: Uint32): seq<Happening> {
    [StartTrip(first, 100, 10, true)] + ([Drive(60)] + ([ReportTrips(true)] + [StartTrip(second, 500, 5, false)]))
  }

  lemma BlindJoinDelays(first: Uint32, second: Uint32)
    ensures !Timely(Run(HOME, BlindRun(first, second)))
  {
    var e := StartTrip(second, 500, 5, false);
    var w1 := Step(HOME, StartTrip(first, 100, 10, true));
    var w3 := Step(Step(w1, Drive(60)), ReportTrips(true));
    FourSteps(HOME, StartTrip(first, 100, 10, true), Drive(60), ReportTrips(true), e);
    FirstStarts(w1, first, 100, 10);
    var s := Session(first, TripSessionStatus(0, 60, 0, 100, 10));
    CountsSixty(Step(w1, Drive(60)), w3, first);
    assert !JoinsInTime(w3.a, 500, 5, false, 60) by {
      assert s in w3.a.trips && Remaining(s.status) == 40;
    }
    JoinKeepsIff(w3.a, second, 500, 5, false, 60);
    ReadingAfter(w3, e);
  }

  lemma CountsSixty(w2: World, w3: World, first: Uint32)
    requires w3 == Step(w2, ReportTrips(true)) && w2.odometer == 60 && w2.origin == 0
    requires w2.a == Adapter([Session(first, TripSessionStatus(0, 0, 0, 100, 10))], 100, 10, false, false)
    ensures w3.a == Adapter([Session(first, TripSessionStatus(0, 60, 0, 100, 10))], 100, 10, false, false)
    ensures w3.odometer == 60 && w3.origin == 0
  {
    var s := Session(first, TripSessionStatus(0, 0, 0, 100, 10));
    assert w2.a.trips == [s] && [s][1..] == [] && !Completed(s, 60);
    assert Unfinished([s], 60) == [Updated(s, 60)] + Unfinished([], 60);
    assert CompletedIds([s], 60) == [] + CompletedIds([], 60);
    assert !CompletesTbf([s], 60, 10) && !CompletesDistance([s], 60, 100);
  }

  lemma OneRemaining(s: Session)
    requires Remaining(s.status) > 0 && s.status.tripTbfInterval > 0
    ensures MinRemaining(0, [s]) == Remaining(s.status) && MinTbf(0, [s]) == s.status.tripTbfInterval
  {
    assert [s][1..] == [];
  }
}
