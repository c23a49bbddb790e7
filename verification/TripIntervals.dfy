/** What the trips have asked for, and how often the modem takes fixes for them: the sessions
    keep the terms they started on, the two dropped flags say what has gone, and the batch runs
    at the least interval any trip has asked for. */
module TripIntervals {
  import opened TripAdapter
  import opened TripRuns
  import opened TripTargets

  // ---------- the terms of the sessions ----------

  /** What a trip was started with. */
  datatype Terms = Terms(id: Uint32, distance: Uint32, tbf: Uint32)

  function TermsOf(s: Session): Terms {
    Terms(s.id, s.status.tripDistance, s.status.tripTbfInterval)
  }

  ghost predicate Has(trips: seq<Session>, t: Terms) {
    exists s <- trips :: TermsOf(s) == t
  }

  lemma HasRebased(trips: seq<Session>, t: Terms)
    ensures Has(RebaseAll(trips), t) <==> Has(trips, t)
  {
    RebaseAllHas(trips);
    if s :| s in trips && TermsOf(s) == t {
      assert Rebased(s) in RebaseAll(trips) && TermsOf(Rebased(s)) == t;
    }
  }

  lemma HasReplanned(trips: seq<Session>, acc: Uint32, t: Terms)
    ensures Has(UpdateAndRebaseAll(trips, acc), t) <==> Has(trips, t)
  {
    UpdateAllHas(trips, acc);
    if s :| s in trips && TermsOf(s) == t {
      var x := Rebased(Updated(s, acc));
      assert x in UpdateAndRebaseAll(trips, acc) && TermsOf(x) == t;
    }
  }

  lemma HasPut(trips: seq<Session>, s: Session, t: Terms)
    requires Sorted(trips)
    ensures Has(Put(trips, s), t) <==> if t.id == s.id then t == TermsOf(s) else Has(trips, t)
  {
    PutFacts(trips, s);
    if t == TermsOf(s) {
      assert s in Put(trips, s);
    }
    if x :| x in trips && TermsOf(x) == t && t.id != s.id {
      assert x in Put(trips, s);
    }
  }

  /** A trip that starts, alone or beside others, is listed on its own terms, in place of one of
      the same id; the others keep theirs.  One whose start or query fails changes nothing. */
  lemma StartTerms(a: Adapter, id: Uint32, distance: Uint32, tbf: Uint32, ok: bool, acc: Uint32, t: Terms)
    requires Sorted(a.trips)
    ensures Has(Start(a, id, distance, tbf, ok, acc).a.trips, t)
       <==> if ok && t.id == id then t == Terms(id, distance, tbf) else Has(a.trips, t)
  {
    var s := Session(id, TripSessionStatus(if a.trips == [] then 0 else acc, 0, 0, distance, tbf));
    HasPut(a.trips, s, t);
    StartLists(a, s, distance, tbf, ok, acc);
    HasRebased(if ok then Put(a.trips, s) else a.trips, t);
  }

  lemma StartLists(a: Adapter, s: Session, distance: Uint32, tbf: Uint32, ok: bool, acc: Uint32)
    requires s.status == TripSessionStatus(if a.trips == [] then 0 else acc, 0, 0, distance, tbf)
    ensures var trips := if ok then Put(a.trips, s) else a.trips;
            var trips' := Start(a, s.id, distance, tbf, ok, acc).a.trips;
            trips' == trips || trips' == RebaseAll(trips)
  {
  }

  /** Stopping takes out that trip and no other, whatever the plan made after it. */
  lemma StopTerms(a: Adapter, id: Uint32, acc: Uint32, granted: bool, t: Terms)
    requires Sorted(a.trips)
    ensures Has(Stop(a, id, acc, granted).a.trips, t) <==> Has(a.trips, t) && t.id != id
  {
    EraseFacts(a.trips, id);
    HasReplanned(Erase(a.trips, id), acc, t);
  }

  /** A report takes out exactly the trips it lists, which are those that have their distance. */
  lemma ReportTerms(a: Adapter, acc: Uint32, granted: bool, t: Terms)
    requires Sorted(a.trips)
    ensures var o := Report(a, acc, granted);
            && (t.id in o.completed <==> exists s <- a.trips :: s.id == t.id && Done(s, acc))
            && (Has(o.a.trips, t) <==> Has(a.trips, t) && t.id !in o.completed)
  {
    CompletedFacts(a.trips, acc, t.id);
    UnfinishedExactly(a.trips, acc);
    HasReplanned(Unfinished(a.trips, acc), acc, t);
    if s :| s in a.trips && TermsOf(s) == t && !Completed(s, acc) {
      OneSession(a.trips, s);
      assert Updated(s, acc) in Unfinished(a.trips, acc);
    }
  }

  lemma {:induction false} UnfinishedExactly(trips: seq<Session>, acc: Uint32)
    requires Sorted(trips)
    ensures forall x :: x in Unfinished(trips, acc) <==> exists s <- trips :: !Completed(s, acc) && x == Updated(s, acc)
    ensures forall x <- Unfinished(trips, acc) :: x.id !in CompletedIds(trips, acc)
  {
    if trips != [] {
      HeadLeast(trips);
      UnfinishedExactly(trips[1..], acc);
      CompletedFacts(trips[1..], acc, trips[0].id);
      forall x | x in Unfinished(trips[1..], acc)
        ensures x.id > trips[0].id
      {
        var s :| s in trips[1..] && x == Updated(s, acc);
      }
    }
  }

  // ---------- the dropped flags ----------

  /** A stop notes whether the trip had the batch's interval, or its distance; notes stay. */
  lemma StopNotes(a: Adapter, s: Session, acc: Uint32, granted: bool)
    requires Sorted(a.trips) && s in a.trips
    ensures var a' := Stop(a, s.id, acc, granted).a;
            && a'.tbfDropped == (a.tbfDropped || s.status.tripTbfInterval == a.ongoingTbf)
            && a'.distanceDropped == (a.distanceDropped || s.status.tripDistance == a.ongoingDistance)
  {
    OneSession(a.trips, s);
  }

  /** A report notes whether any completed trip had the batch's interval, or its distance. */
  lemma ReportNotes(a: Adapter, acc: Uint32, granted: bool)
    ensures var a' := Report(a, acc, granted).a;
            && a'.tbfDropped
               == (a.tbfDropped
                   || exists s <- a.trips :: Done(s, acc) && s.status.tripTbfInterval == a.ongoingTbf)
            && a'.distanceDropped
               == (a.distanceDropped
                   || exists s <- a.trips :: Done(s, acc) && s.status.tripDistance == a.ongoingDistance)
  {
    CompletesMeaning(a.trips, acc, a.ongoingTbf, a.ongoingDistance);
  }

  predicate Done(s: Session, acc: Uint32) {
    s.status.tripDistance <= Distance(s.status, acc)
  }

  lemma {:induction false} CompletesMeaning(trips: seq<Session>, acc: Uint32, tbf: Uint32, distance: Uint32)
    ensures CompletesTbf(trips, acc, tbf)
       <==> exists s <- trips :: Completed(s, acc) && s.status.tripTbfInterval == tbf
    ensures CompletesDistance(trips, acc, distance)
       <==> exists s <- trips :: Completed(s, acc) && s.status.tripDistance == distance
  {
    if trips != [] {
      assert trips == [trips[0]] + trips[1..];
      CompletesMeaning(trips[1..], acc, tbf, distance);
    }
  }

  // ---------- the interval ----------

  /** Every trip has asked for some time between fixes. */
  ghost predicate Positive(trips: seq<Session>) {
    forall s <- trips :: s.status.tripTbfInterval > 0
  }

  /** The batch takes fixes at least as often as every trip has asked for. */
  ghost predicate Often(a: Adapter) {
    forall s <- a.trips :: a.ongoingTbf <= s.status.tripTbfInterval
  }

  /** And no more often than one of them has. */
  ghost predicate Least(a: Adapter) {
    Often(a) && (a.trips != [] ==> Asks(a.trips, a.ongoingTbf))
  }

  ghost predicate Asks(trips: seq<Session>, tbf: Uint32) {
    exists s <- trips :: s.status.tripTbfInterval == tbf
  }

  lemma {:induction false} MinTbfIsLeast(least: Uint32, trips: seq<Session>)
    requires Positive(trips)
    ensures var m := MinTbf(least, trips);
            && (least > 0 ==> m <= least)
            && (forall s <- trips :: m <= s.status.tripTbfInterval)
            && ((m == least && (least > 0 || trips == [])) || Asks(trips, m))
    decreases |trips|
  {
    if trips != [] {
      assert trips[0] in trips && trips == [trips[0]] + trips[1..];
      MinTbfIsLeast(MinOrFirst(least, trips[0].status.tripTbfInterval), trips[1..]);
    }
  }

  lemma ReplannedIntervals(trips: seq<Session>, acc: Uint32)
    ensures forall tbf :: Asks(UpdateAndRebaseAll(trips, acc), tbf) <==> Asks(trips, tbf)
    ensures forall a: Adapter :: Often(a.(trips := UpdateAndRebaseAll(trips, acc))) <==> Often(a.(trips := trips))
  {
    UpdateAllHas(trips, acc);
    forall s | s in trips
      ensures Rebased(Updated(s, acc)) in UpdateAndRebaseAll(trips, acc)
    {
    }
    forall tbf
      ensures Asks(UpdateAndRebaseAll(trips, acc), tbf) <==> Asks(trips, tbf)
    {
      if s :| s in trips && s.status.tripTbfInterval == tbf {
        assert Rebased(Updated(s, acc)).status.tripTbfInterval == tbf;
      }
    }
  }

  // ---------- what a plan does ----------

  predicate LeastInterval(trips: seq<Session>, tbf: Uint32) {
    (exists s <- trips :: s.status.tripTbfInterval == tbf) && forall s <- trips :: tbf <= s.status.tripTbfInterval
  }

  predicate LeastRemaining(trips: seq<Session>, distance: Uint32) {
    (exists s <- trips :: Remaining(s.status) == distance) && forall s <- trips :: distance <= Remaining(s.status)
  }

  /** The plan for the trips that are left, by the least interval and the least remaining
      distance among them: a shorter interval is always taken, a longer one only if a trip with
      the old one has gone; a nearer target is always taken, a farther one only if a trip with
      the old distance has gone or the old target has been reached. */
  lemma RestartPlans(a: Adapter, acc: Uint32, granted: bool, tbf: Uint32, distance: Uint32)
    requires Positive(a.trips) && LeastInterval(a.trips, tbf)
    requires LeastRemaining(a.trips, distance) && distance > 0
    ensures var o := Restart(a, acc, granted);
            var newTbf := tbf < a.ongoingTbf || (tbf > a.ongoingTbf && a.tbfDropped);
            var nearer := distance < Sub32(a.ongoingDistance, acc);
            var newDistance := nearer || a.distanceDropped || a.ongoingDistance == acc;
            && (o.restarted <==> granted && (newTbf || newDistance))
            && o.a.ongoingTbf == (if granted && newTbf then tbf else a.ongoingTbf)
            && o.a.ongoingDistance == (if granted && newDistance then distance else a.ongoingDistance)
  {
    MinTbfIsLeast(0, a.trips);
    MinRemainingIsLeast(0, a.trips);
    MinRemainingIsSome(0, a.trips);
    assert a.trips != [] && MinTbf(0, a.trips) == tbf && MinRemaining(0, a.trips) == distance;
    SmallOrWrapped(a.ongoingDistance, acc);
  }

  lemma SmallOrWrapped(x: Uint32, y: Uint32)
    ensures Sub32(x, y) == 0 <==> x == y
  {
  }

  /** The first trip sets the batch up on its own terms; the last one to go leaves none. */
  lemma FirstPlans(a: Adapter, id: Uint32, distance: Uint32, tbf: Uint32, ok: bool, acc: Uint32)
    requires a.trips == []
    ensures var o := Start(a, id, distance, tbf, ok, acc);
            && o.restarted == ok
            && o.a.ongoingDistance == (if ok then distance else a.ongoingDistance)
            && o.a.ongoingTbf == (if ok then tbf else a.ongoingTbf)
    ensures var o := Restart(a, acc, ok);
            !o.restarted && o.a.ongoingDistance == 0 && o.a.ongoingTbf == 0
  {
  }

  /** A joining trip makes the batch run at the shorter of the two intervals, whether or not its
      query succeeds; a query that fails counts the batch as just begun. */
  lemma JoinPlans(a: Adapter, id: Uint32, distance: Uint32, tbf: Uint32, ok: bool, acc: Uint32)
    requires a.trips != []
    ensures var o := Start(a, id, distance, tbf, ok, acc);
            var left := if ok then Sub32(a.ongoingDistance, acc) else a.ongoingDistance;
            && o.a.ongoingTbf == Smaller(tbf, a.ongoingTbf)
            && (o.restarted <==> tbf < a.ongoingTbf || distance < left)
            && o.a.ongoingDistance == (if o.restarted then Smaller(distance, left) else a.ongoingDistance)
  {
  }

  // ---------- often enough, and no more than that ----------

  /** Zero stands for "none yet" in the running minimum, so an interval of zero counts only in
      the last place: a plan that may lengthen the interval then overlooks it elsewhere. */
  predicate OverlooksZero(a: Adapter, granted: bool) {
    granted && a.tbfDropped && a.trips != [] && a.trips[|a.trips| - 1].status.tripTbfInterval != 0
    && exists s <- a.trips :: s.status.tripTbfInterval == 0
  }

  lemma {:induction false} MinTbfZeroIff(least: Uint32, trips: seq<Session>)
    requires trips != []
    ensures MinTbf(least, trips) == 0 <==> trips[|trips| - 1].status.tripTbfInterval == 0
    decreases |trips|
  {
    if |trips| > 1 {
      MinTbfZeroIff(MinOrFirst(least, trips[0].status.tripTbfInterval), trips[1..]);
    } else {
      assert trips[1..] == [];
    }
  }

  /** A plan keeps the batch often enough unless it overlooks an interval of zero. */
  lemma PlannedOftenIff(a: Adapter, acc: Uint32, granted: bool)
    requires Often(a)
    ensures Often(Restart(a, acc, granted).a) <==> !OverlooksZero(a, granted)
  {
    var o := Restart(a, acc, granted);
    ReplannedIntervals(a.trips, acc);
    if o.restarted {
      assert o.a.trips == UpdateAndRebaseAll(a.trips, acc);
      assert Often(o.a) <==> Often(o.a.(trips := a.trips));
    }
    if a.trips != [] {
      MinTbfZeroIff(0, a.trips);
      if forall s <- a.trips :: s.status.tripTbfInterval > 0 {
        MinTbfIsLeast(0, a.trips);
      }
    }
  }

  lemma PlannedInterval(a: Adapter, acc: Uint32, granted: bool)
    requires Positive(a.trips) && Often(a)
    ensures Often(Restart(a, acc, granted).a)
    ensures Least(Restart(a, acc, granted).a)
       <==> a.trips == [] || Asks(a.trips, a.ongoingTbf) || (granted && a.tbfDropped)
  {
    PlannedOftenIff(a, acc, granted);
    MinTbfIsLeast(0, a.trips);
    ReplannedIntervals(a.trips, acc);
    var o := Restart(a, acc, granted);
    if o.restarted {
      assert o.a.trips == UpdateAndRebaseAll(a.trips, acc);
    }
  }

  lemma StartOften(a: Adapter, id: Uint32, distance: Uint32, tbf: Uint32, ok: bool, acc: Uint32)
    requires Sorted(a.trips) && Often(a)
    ensures Often(Start(a, id, distance, tbf, ok, acc).a)
  {
    var a' := Start(a, id, distance, tbf, ok, acc).a;
    forall s | s in a'.trips
      ensures a'.ongoingTbf <= s.status.tripTbfInterval
    {
      StartTerms(a, id, distance, tbf, ok, acc, TermsOf(s));
    }
  }

  /** Starting keeps the batch often enough for everybody.  It is no more than that exactly if
      the new trip has the batch's interval or a shorter one, or replaces none that had; or, if
      its query fails, does not want a shorter one. */
  lemma StartLeastIff(a: Adapter, id: Uint32, distance: Uint32, tbf: Uint32, ok: bool, acc: Uint32)
    requires Sorted(a.trips) && Least(a)
    ensures var a' := Start(a, id, distance, tbf, ok, acc).a;
            Often(a') && (Least(a') <==> StartsLeast(a, id, tbf, ok))
  {
    StartOften(a, id, distance, tbf, ok, acc);
    StartAsks(a, id, distance, tbf, ok, acc, Start(a, id, distance, tbf, ok, acc).a.ongoingTbf);
  }

  predicate StartsLeast(a: Adapter, id: Uint32, tbf: Uint32, ok: bool) {
    a.trips == []
    || if ok then tbf <= a.ongoingTbf || exists s <- a.trips :: s.id != id && s.status.tripTbfInterval == a.ongoingTbf
       else a.ongoingTbf <= tbf
  }

  lemma StartAsks(a: Adapter, id: Uint32, distance: Uint32, tbf: Uint32, ok: bool, acc: Uint32, t: Uint32)
    requires Sorted(a.trips)
    ensures Asks(Start(a, id, distance, tbf, ok, acc).a.trips, t)
       <==> (ok && tbf == t) || exists s <- a.trips :: !(ok && s.id == id) && s.status.tripTbfInterval == t
  {
    var trips' := Start(a, id, distance, tbf, ok, acc).a.trips;
    if s :| s in trips' && s.status.tripTbfInterval == t {
      StartTerms(a, id, distance, tbf, ok, acc, TermsOf(s));
    }
    if ok && tbf == t {
      StartTerms(a, id, distance, tbf, ok, acc, Terms(id, distance, tbf));
    }
    if s :| s in a.trips && !(ok && s.id == id) && s.status.tripTbfInterval == t {
      StartTerms(a, id, distance, tbf, ok, acc, TermsOf(s));
    }
  }

  /** Stopping keeps the batch often enough for everybody who is left.  It is no more than that
      exactly if the restart is granted, or somebody left has the batch's interval. */
  lemma StopLeastIff(a: Adapter, s: Session, acc: Uint32, granted: bool)
    requires Sorted(a.trips) && Positive(a.trips) && Least(a) && s in a.trips
    ensures var a', rest := Stop(a, s.id, acc, granted).a, Erase(a.trips, s.id);
            Often(a') && (Least(a') <==> granted || rest == [] || Asks(rest, a.ongoingTbf))
  {
    EraseFacts(a.trips, s.id);
    OneSession(a.trips, s);
    var stopped := Stopped(a, s.id);
    PlannedInterval(stopped, acc, granted);
    if u :| u in a.trips && u.status.tripTbfInterval == a.ongoingTbf {
      assert u == s || u in stopped.trips;
    }
  }

  /** The same for a report and the trips that are not complete. */
  lemma ReportLeastIff(a: Adapter, acc: Uint32, granted: bool)
    requires Sorted(a.trips) && Positive(a.trips) && Least(a)
    ensures var a', rest := Report(a, acc, granted).a, Unfinished(a.trips, acc);
            Often(a') && (Least(a') <==> granted || rest == [] || Asks(rest, a.ongoingTbf))
  {
    var reported := Reported(a, acc);
    UnfinishedExactly(a.trips, acc);
    CompletesMeaning(a.trips, acc, a.ongoingTbf, a.ongoingDistance);
    PlannedInterval(reported, acc, granted);
    if u :| u in a.trips && u.status.tripTbfInterval == a.ongoingTbf {
      CompletedFacts(a.trips, acc, u.id);
      assert !Completed(u, acc) ==> Updated(u, acc) in reported.trips;
    }
  }

  // ---------- whole runs ----------

  /** The event does not make a plan that overlooks an interval of zero. */
  predicate SeesZero(w: World, e: Happening) {
    match e
    case StopTrip(id, granted) => HasTrip(w.a.trips, id) ==> !OverlooksZero(Stopped(w.a, id), granted)
    case ReportTrips(granted) =>
      CompletedIds(w.a.trips, Reading(w)) != [] ==> !OverlooksZero(Reported(w.a, Reading(w)), granted)
    case _ => true
  }

  lemma OftenStepIff(w: World, e: Happening)
    requires Honest(w) && Often(w.a)
    ensures Often(Step(w, e).a) <==> SeesZero(w, e)
  {
    match e
    case Drive(_) =>
    case StartTrip(id, distance, tbf, ok) => StartOften(w.a, id, distance, tbf, ok, Reading(w));
    case StopTrip(id, granted) =>
      if HasTrip(w.a.trips, id) {
        EraseFacts(w.a.trips, id);
        PlannedOftenIff(Stopped(w.a, id), Reading(w), granted);
      }
    case ReportTrips(granted) =>
      UnfinishedExactly(w.a.trips, Reading(w));
      PlannedOftenIff(Reported(w.a, Reading(w)), Reading(w), granted);
  }

  ghost predicate OftenThroughout(w: World, es: seq<Happening>)
    decreases |es|
  {
    Often(w.a) && (es != [] ==> OftenThroughout(Step(w, es[0]), es[1..]))
  }

  predicate AllSeeZero(w: World, es: seq<Happening>)
    decreases |es|
  {
    es != [] ==> SeesZero(w, es[0]) && AllSeeZero(Step(w, es[0]), es[1..])
  }

  /** Over any run, refused restarts and failed queries included, the batch takes fixes at least
      as often as every listed trip has asked for, all along, exactly if no plan overlooks an
      interval of zero. */
  lemma {:induction false} OftenRunIff(w: World, es: seq<Happening>)
    requires Honest(w) && Often(w.a)
    ensures OftenThroughout(w, es) <==> AllSeeZero(w, es)
    decreases |es|
  {
    if es != [] {
      HonestStep(w, es[0]);
      OftenStepIff(w, es[0]);
      if SeesZero(w, es[0]) {
        OftenRunIff(Step(w, es[0]), es[1..]);
      }
    }
  }

  /** What an event must be for the batch to take fixes no more often than some trip has asked
      for: a start as in `StartsLeast`, and a restart that is granted where it is needed. */
  ghost predicate KeepsLeast(w: World, e: Happening) {
    match e
    case Drive(_) => true
    case StartTrip(id, _, tbf, ok) => StartsLeast(w.a, id, tbf, ok)
    case StopTrip(id, granted) =>
      var rest := Erase(w.a.trips, id);
      granted || rest == [] || Asks(rest, w.a.ongoingTbf)
    case ReportTrips(granted) =>
      var rest := Unfinished(w.a.trips, Reading(w));
      granted || rest == [] || Asks(rest, w.a.ongoingTbf)
  }

  lemma LeastStepIff(w: World, e: Happening)
    requires Honest(w) && Positive(w.a.trips) && Least(w.a)
    ensures Least(Step(w, e).a) <==> KeepsLeast(w, e)
  {
    match e
    case Drive(_) =>
    case StartTrip(id, distance, tbf, ok) => StartLeastIff(w.a, id, distance, tbf, ok, Reading(w));
    case StopTrip(id, granted) =>
      if HasTrip(w.a.trips, id) {
        StopLeastIff(w.a, Get(w.a.trips, id), Reading(w), granted);
      } else {
        EraseNothing(w.a.trips, id);
      }
    case ReportTrips(granted) => ReportLeastIff(w.a, Reading(w), granted);
  }

  /** Every trip that starts asks for some time between fixes. */
  predicate AllAskTime(es: seq<Happening>) {
    forall e <- es :: e.StartTrip? ==> e.tbf > 0
  }

  lemma PositiveStep(w: World, e: Happening)
    requires Honest(w) && Positive(w.a.trips) && (e.StartTrip? ==> e.tbf > 0)
    ensures Positive(Step(w, e).a.trips)
  {
    forall s | s in Step(w, e).a.trips
      ensures s.status.tripTbfInterval > 0
    {
      match e
      case Drive(_) =>
      case StartTrip(id, distance, tbf, ok) => StartTerms(w.a, id, distance, tbf, ok, Reading(w), TermsOf(s));
      case StopTrip(id, granted) => StopTerms(w.a, id, Reading(w), granted, TermsOf(s));
      case ReportTrips(granted) => ReportTerms(w.a, Reading(w), granted, TermsOf(s));
    }
  }

  lemma PositiveSeesZero(w: World, e: Happening)
    requires Honest(w) && Positive(w.a.trips)
    ensures SeesZero(w, e)
  {
    match e
    case Drive(_) =>
    case StartTrip(_, _, _, _) =>
    case StopTrip(id, _) => EraseFacts(w.a.trips, id);
    case ReportTrips(_) => UnfinishedExactly(w.a.trips, Reading(w));
  }

  /** From the start, trips that ask for some time between fixes always get their fixes at least
      as often as that, whatever the modem refuses and whatever queries fail. */
  lemma OftenFromTheStart(es: seq<Happening>)
    requires AllAskTime(es)
    ensures OftenThroughout(HOME, es)
  {
    PositiveAllSee(HOME, es);
    OftenRunIff(HOME, es);
  }

  lemma {:induction false} PositiveAllSee(w: World, es: seq<Happening>)
    requires Honest(w) && Positive(w.a.trips) && AllAskTime(es)
    ensures AllSeeZero(w, es)
    decreases |es|
  {
    if es != [] {
      assert es[0] in es && forall e <- es[1..] :: e in es;
      HonestStep(w, es[0]);
      PositiveSeesZero(w, es[0]);
      PositiveStep(w, es[0]);
      PositiveAllSee(Step(w, es[0]), es[1..]);
    }
  }

  ghost predicate LeastThroughout(w: World, es: seq<Happening>)
    decreases |es|
  {
    Least(w.a) && (es != [] ==> LeastThroughout(Step(w, es[0]), es[1..]))
  }

  ghost predicate AllKeepLeast(w: World, es: seq<Happening>)
    decreases |es|
  {
    es != [] ==> KeepsLeast(w, es[0]) && AllKeepLeast(Step(w, es[0]), es[1..])
  }

  /** Over any run of trips that ask for some time between fixes, the batch runs all along at
      exactly the least interval of the listed trips if and only if every event keeps it so. */
  lemma {:induction false} LeastRunIff(w: World, es: seq<Happening>)
    requires Honest(w) && Positive(w.a.trips) && Least(w.a) && AllAskTime(es)
    ensures LeastThroughout(w, es) <==> AllKeepLeast(w, es)
    decreases |es|
  {
    if es != [] {
      assert es[0] in es && forall e <- es[1..] :: e in es;
      HonestStep(w, es[0]);
      PositiveStep(w, es[0]);
      LeastStepIff(w, es[0]);
      if KeepsLeast(w, es[0]) {
        LeastRunIff(Step(w, es[0]), es[1..]);
      }
    }
  }
}
