/** The trip multiplexer of gps/batching/BatchingAdapter.cpp: several trips share the one
    distance-based batch the modem can run.  Functions on `Adapter` values say what each
    operation does; the object's methods do it in place, loop by loop. */
module TripAdapter {

  const WRAP := 0x1_0000_0000

  type Uint32 = x: int | 0 <= x < WRAP

  function Add32(a: Uint32, b: Uint32): Uint32 {
    (a + b) % WRAP
  }

  /** Unsigned subtraction: a negative difference wraps round. */
  function Sub32(a: Uint32, b: Uint32): Uint32 {
    (a - b) % WRAP
  }

  datatype TripSessionStatus = TripSessionStatus(
    accumulatedDistanceOngoingBatch: Uint32,
    accumulatedDistanceThisTrip: Uint32,
    accumulatedDistanceOnTripRestart: Uint32,
    tripDistance: Uint32,
    tripTbfInterval: Uint32)

  datatype Session = Session(id: Uint32, status: TripSessionStatus)

  datatype Adapter = Adapter(
    trips: seq<Session>,
    ongoingDistance: Uint32,
    ongoingTbf: Uint32,
    tbfDropped: bool,
    distanceDropped: bool)

  const START := Adapter([], 0, 0, false, false)

  // ---------- the session table, kept in order of session id ----------

  predicate Sorted(trips: seq<Session>) {
    forall i, j | 0 <= i < j < |trips| :: trips[i].id < trips[j].id
  }

  predicate HasTrip(trips: seq<Session>, id: Uint32) {
    exists s <- trips :: s.id == id
  }

  function Put(trips: seq<Session>, s: Session): seq<Session> {
    if trips == [] then [s]
    else if s.id < trips[0].id then [s] + trips
    else if s.id == trips[0].id then [s] + trips[1..]
    else [trips[0]] + Put(trips[1..], s)
  }

  function Erase(trips: seq<Session>, id: Uint32): seq<Session> {
    if trips == [] then []
    else if trips[0].id == id then trips[1..]
    else [trips[0]] + Erase(trips[1..], id)
  }

  function Get(trips: seq<Session>, id: Uint32): (s: Session)
    requires HasTrip(trips, id)
    ensures s in trips && s.id == id
  {
    if trips[0].id == id then trips[0]
    else
      assert trips == [trips[0]] + trips[1..];
      Get(trips[1..], id)
  }

  // ---------- one session ----------

  /** The session's own distance when the modem's batch has accumulated `acc`. */
  function Distance(t: TripSessionStatus, acc: Uint32): Uint32 {
    Add32(t.accumulatedDistanceOnTripRestart, Sub32(acc, t.accumulatedDistanceOngoingBatch))
  }

  function Updated(s: Session, acc: Uint32): Session {
    s.(status := s.status.(accumulatedDistanceThisTrip := Distance(s.status, acc)))
  }

  predicate Completed(s: Session, acc: Uint32) {
    s.status.tripDistance <= Distance(s.status, acc)
  }

  /** A session as a new batch begins: what it has so far is what it starts from. */
  function Rebased(s: Session): Session {
    s.(status := s.status.(
      accumulatedDistanceOngoingBatch := 0,
      accumulatedDistanceOnTripRestart := s.status.accumulatedDistanceThisTrip))
  }

  function Remaining(t: TripSessionStatus): Uint32 {
    Sub32(t.tripDistance, t.accumulatedDistanceThisTrip)
  }

  // ---------- all sessions ----------

  function RebaseAll(trips: seq<Session>): seq<Session> {
    if trips == [] then [] else [Rebased(trips[0])] + RebaseAll(trips[1..])
  }

  function UpdateAndRebaseAll(trips: seq<Session>, acc: Uint32): seq<Session> {
    if trips == [] then [] else [Rebased(Updated(trips[0], acc))] + UpdateAndRebaseAll(trips[1..], acc)
  }

  function CompletedIds(trips: seq<Session>, acc: Uint32): seq<Uint32> {
    if trips == [] then []
    else (if Completed(trips[0], acc) then [trips[0].id] else []) + CompletedIds(trips[1..], acc)
  }

  function Unfinished(trips: seq<Session>, acc: Uint32): seq<Session> {
    if trips == [] then []
    else (if Completed(trips[0], acc) then [] else [Updated(trips[0], acc)]) + Unfinished(trips[1..], acc)
  }

  /** Whether a completed session was the one that set the batch's TBF, or its distance. */
  predicate CompletesTbf(trips: seq<Session>, acc: Uint32, tbf: Uint32) {
    trips != []
    && ((Completed(trips[0], acc) && trips[0].status.tripTbfInterval == tbf) || CompletesTbf(trips[1..], acc, tbf))
  }

  predicate CompletesDistance(trips: seq<Session>, acc: Uint32, distance: Uint32) {
    trips != []
    && ((Completed(trips[0], acc) && trips[0].status.tripDistance == distance)
        || CompletesDistance(trips[1..], acc, distance))
  }

  /** The running minimum, where zero means "none yet". */
  function MinOrFirst(least: Uint32, x: Uint32): Uint32 {
    if least == 0 || least > x then x else least
  }

  function MinRemaining(least: Uint32, trips: seq<Session>): Uint32
    decreases |trips|
  {
    if trips == [] then least else MinRemaining(MinOrFirst(least, Remaining(trips[0].status)), trips[1..])
  }

  function MinTbf(least: Uint32, trips: seq<Session>): Uint32
    decreases |trips|
  {
    if trips == [] then least else MinTbf(MinOrFirst(least, trips[0].status.tripTbfInterval), trips[1..])
  }

  // ---------- operations; `restarted` is whether the modem begins a new batch ----------

  datatype Outcome = Outcome(a: Adapter, completed: seq<Uint32>, restarted: bool)

  /** The first trip: the modem starts a batch for it, or refuses. */
  function StartFirst(a: Adapter, id: Uint32, distance: Uint32, tbf: Uint32, ok: bool): Outcome {
    if ok then
      Outcome(a.(trips := [Session(id, TripSessionStatus(0, 0, 0, distance, tbf))],
                 ongoingDistance := distance, ongoingTbf := tbf), [], true)
    else
      Outcome(a, [], false)
  }

  /** Whether a further trip makes the batch restart: it wants fixes more often, or ends before
      the batch does as far as the query could tell. */
  predicate JoinRestarts(a: Adapter, distance: Uint32, tbf: Uint32, ok: bool, acc: Uint32) {
    tbf < a.ongoingTbf || distance < if ok then Sub32(a.ongoingDistance, acc) else a.ongoingDistance
  }

  /** A further trip; `ok` and `acc` are the modem's answer to the distance query. */
  function Join(a: Adapter, id: Uint32, distance: Uint32, tbf: Uint32, ok: bool, acc: Uint32): Outcome {
    var lowerTbf := a.ongoingTbf > tbf;
    var remaining := Sub32(a.ongoingDistance, acc);
    var shorter := distance < if ok then remaining else a.ongoingDistance;
    var distance' := if shorter then distance else if ok && lowerTbf then remaining else a.ongoingDistance;
    var trips := if ok then Put(a.trips, Session(id, TripSessionStatus(acc, 0, 0, distance, tbf))) else a.trips;
    if JoinRestarts(a, distance, tbf, ok, acc) then
      Outcome(a.(trips := RebaseAll(trips), ongoingDistance := distance',
                 ongoingTbf := if lowerTbf then tbf else a.ongoingTbf), [], true)
    else
      Outcome(a.(trips := trips), [], false)
  }

  function Start(a: Adapter, id: Uint32, distance: Uint32, tbf: Uint32, ok: bool, acc: Uint32): Outcome {
    if a.trips == [] then StartFirst(a, id, distance, tbf, ok) else Join(a, id, distance, tbf, ok, acc)
  }

  /** Whether the batch is to end at another distance than it does. */
  predicate ByDistance(a: Adapter, acc: Uint32) {
    var minRemaining, remaining := MinRemaining(0, a.trips), Sub32(a.ongoingDistance, acc);
    if !a.distanceDropped && remaining != 0 then minRemaining < remaining else minRemaining != 0
  }

  /** Whether the batch is to take its fixes at another interval than it does. */
  predicate ByTbf(a: Adapter) {
    var minTbf := MinTbf(0, a.trips);
    minTbf < a.ongoingTbf || (minTbf != a.ongoingTbf && a.tbfDropped)
  }

  /** Plans the batch anew; `granted` is whether the modem carries out a restart. */
  function Restart(a: Adapter, acc: Uint32, granted: bool): Outcome {
    if a.trips == [] then
      Outcome(a.(ongoingDistance := 0, ongoingTbf := 0), [], false)
    else if (ByDistance(a, acc) || ByTbf(a)) && granted then
      Outcome(a.(trips := UpdateAndRebaseAll(a.trips, acc),
                 ongoingDistance := if ByDistance(a, acc) then MinRemaining(0, a.trips) else a.ongoingDistance,
                 ongoingTbf := if ByTbf(a) then MinTbf(0, a.trips) else a.ongoingTbf), [], true)
    else
      Outcome(a, [], false)
  }

  /** Without a trip, but before the batch is planned anew. */
  function Stopped(a: Adapter, id: Uint32): Adapter
    requires HasTrip(a.trips, id)
  {
    var t := Get(a.trips, id).status;
    a.(trips := Erase(a.trips, id),
       tbfDropped := a.tbfDropped || t.tripTbfInterval == a.ongoingTbf,
       distanceDropped := a.distanceDropped || t.tripDistance == a.ongoingDistance)
  }

  function Stop(a: Adapter, id: Uint32, acc: Uint32, granted: bool): Outcome {
    if !HasTrip(a.trips, id) then Outcome(a, [], false) else Restart(Stopped(a, id), acc, granted)
  }

  /** Without the completed trips, but before the batch is planned anew. */
  function Reported(a: Adapter, acc: Uint32): Adapter {
    a.(trips := Unfinished(a.trips, acc),
       tbfDropped := a.tbfDropped || CompletesTbf(a.trips, acc, a.ongoingTbf),
       distanceDropped := a.distanceDropped || CompletesDistance(a.trips, acc, a.ongoingDistance))
  }

  function Report(a: Adapter, acc: Uint32, granted: bool): Outcome {
    var completed := CompletedIds(a.trips, acc);
    if completed == [] then Outcome(Reported(a, acc), [], false)
    else
      var o := Restart(Reported(a, acc), acc, granted);
      Outcome(o.a, completed, o.restarted)
  }

  /** One turn of the report loop: `kept` sessions still run and `completed` ones do not,
      among those before `rest`. */
  lemma ReportTurn(kept: seq<Session>, completed: seq<Uint32>, rest: seq<Session>, acc: Uint32)
    requires rest != []
    ensures kept + Unfinished(rest, acc)
         == (if Completed(rest[0], acc) then kept else kept + [Updated(rest[0], acc)]) + Unfinished(rest[1..], acc)
    ensures completed + CompletedIds(rest, acc)
         == (if Completed(rest[0], acc) then completed + [rest[0].id] else completed) + CompletedIds(rest[1..], acc)
  {
  }

  // ---------- the object ----------

  class BatchingAdapter {
    var mTripSessions: seq<Session>
    var mOngoingTripDistance: Uint32
    var mOngoingTripTBFInterval: Uint32
    var mTripWithOngoingTBFDropped: bool
    var mTripWithOngoingTripDistanceDropped: bool

    constructor ()
      ensures View() == START
    {
      mTripSessions, mOngoingTripDistance, mOngoingTripTBFInterval := [], 0, 0;
      mTripWithOngoingTBFDropped, mTripWithOngoingTripDistanceDropped := false, false;
    }

    function View(): Adapter
      reads this
    {
      Adapter(mTripSessions, mOngoingTripDistance, mOngoingTripTBFInterval,
              mTripWithOngoingTBFDropped, mTripWithOngoingTripDistanceDropped)
    }

    method StartTripBatchingMultiplex(id: Uint32, minDistance: Uint32, minInterval: Uint32, ok: bool, acc: Uint32)
      returns (restarted: bool)
      modifies this
      ensures Start(old(View()), id, minDistance, minInterval, ok, acc) == Outcome(View(), [], restarted)
    {
      if mTripSessions == [] {
        mTripSessions := [Session(id, TripSessionStatus(0, 0, 0, minDistance, minInterval))];
        if ok {
          mOngoingTripDistance, mOngoingTripTBFInterval := minDistance, minInterval;
        } else {
          mTripSessions := [];
        }
        return ok;
      }
      var ongoingTripDistance, ongoingTripInterval := mOngoingTripDistance, mOngoingTripTBFInterval;
      var needsRestart := false;
      if ongoingTripInterval > minInterval {
        ongoingTripInterval := minInterval;
        needsRestart := true;
      }
      if !ok {
        if minDistance < ongoingTripDistance {
          ongoingTripDistance := minDistance;
          needsRestart := true;
        }
      } else {
        var ongoingTripRemainingDistance := Sub32(ongoingTripDistance, acc);
        if minDistance < ongoingTripRemainingDistance {
          ongoingTripDistance := minDistance;
          needsRestart := true;
        } else if needsRestart {
          ongoingTripDistance := ongoingTripRemainingDistance;
        }
        mTripSessions := Put(mTripSessions, Session(id, TripSessionStatus(acc, 0, 0, minDistance, minInterval)));
      }
      if needsRestart {
        mOngoingTripDistance, mOngoingTripTBFInterval := ongoingTripDistance, ongoingTripInterval;
        RebaseSessions();
      }
      return needsRestart;
    }

    /** The loop over all sessions when a joining trip makes the batch restart. */
    method RebaseSessions()
      modifies this`mTripSessions
      ensures mTripSessions == RebaseAll(old(mTripSessions))
    {
      ghost var was, done := mTripSessions, [];
      var i := 0;
      while i < |mTripSessions|
        invariant 0 <= i <= |was| && |mTripSessions| == |was|
        invariant done == mTripSessions[..i] && mTripSessions[i..] == was[i..]
        invariant RebaseAll(was) == done + RebaseAll(was[i..])
      {
        var s := mTripSessions[i];
        assert was[i..][1..] == was[i + 1..];
        mTripSessions := mTripSessions[i := Rebased(s)];
        done := done + [Rebased(s)];
        i := i + 1;
      }
    }

    /** The loop over all sessions once the modem has confirmed a restart. */
    method UpdateAndRebaseSessions(acc: Uint32)
      modifies this`mTripSessions
      ensures mTripSessions == UpdateAndRebaseAll(old(mTripSessions), acc)
    {
      ghost var was, done := mTripSessions, [];
      var i := 0;
      while i < |mTripSessions|
        invariant 0 <= i <= |was| && |mTripSessions| == |was|
        invariant done == mTripSessions[..i] && mTripSessions[i..] == was[i..]
        invariant UpdateAndRebaseAll(was, acc) == done + UpdateAndRebaseAll(was[i..], acc)
      {
        var s := mTripSessions[i];
        assert was[i..][1..] == was[i + 1..];
        var updated := s.(status := s.status.(accumulatedDistanceThisTrip :=
          Add32(s.status.accumulatedDistanceOnTripRestart, Sub32(acc, s.status.accumulatedDistanceOngoingBatch))));
        mTripSessions := mTripSessions[i := Rebased(updated)];
        done := done + [Rebased(updated)];
        i := i + 1;
      }
    }

    method RestartTripBatching(acc: Uint32, granted: bool) returns (restarted: bool)
      modifies this
      ensures Restart(old(View()), acc, granted) == Outcome(View(), [], restarted)
    {
      if mTripSessions == [] {
        mOngoingTripDistance, mOngoingTripTBFInterval := 0, 0;
        return false;
      }
      var minRemainingDistance: Uint32, minTBFInterval: Uint32 := 0, 0;
      for i := 0 to |mTripSessions|
        invariant MinRemaining(0, mTripSessions) == MinRemaining(minRemainingDistance, mTripSessions[i..])
        invariant MinTbf(0, mTripSessions) == MinTbf(minTBFInterval, mTripSessions[i..])
      {
        var t := mTripSessions[i].status;
        assert mTripSessions[i..][1..] == mTripSessions[i + 1..];
        if minRemainingDistance == 0 || minRemainingDistance > Sub32(t.tripDistance, t.accumulatedDistanceThisTrip) {
          minRemainingDistance := Sub32(t.tripDistance, t.accumulatedDistanceThisTrip);
        }
        if minTBFInterval == 0 || minTBFInterval > t.tripTbfInterval {
          minTBFInterval := t.tripTbfInterval;
        }
      }
      restarted := false;
      var ongoingTripDistance, ongoingTripInterval := mOngoingTripDistance, mOngoingTripTBFInterval;
      if !mTripWithOngoingTripDistanceDropped && Sub32(ongoingTripDistance, acc) != 0 {
        if minRemainingDistance < Sub32(ongoingTripDistance, acc) {
          ongoingTripDistance := minRemainingDistance;
          restarted := true;
        }
      } else if minRemainingDistance != 0 {
        ongoingTripDistance := minRemainingDistance;
        restarted := true;
      }
      if minTBFInterval < ongoingTripInterval || (minTBFInterval != ongoingTripInterval && mTripWithOngoingTBFDropped) {
        ongoingTripInterval := minTBFInterval;
        restarted := true;
      }
      restarted := restarted && granted;
      if restarted {
        UpdateAndRebaseSessions(acc);
        mOngoingTripDistance, mOngoingTripTBFInterval := ongoingTripDistance, ongoingTripInterval;
      }
    }

    method StopTripBatchingMultiplex(id: Uint32, acc: Uint32, granted: bool) returns (restarted: bool)
      modifies this
      ensures Stop(old(View()), id, acc, granted) == Outcome(View(), [], restarted)
    {
      if !HasTrip(mTripSessions, id) {
        return false;
      }
      var tripSess := Get(mTripSessions, id).status;
      if tripSess.tripTbfInterval == mOngoingTripTBFInterval {
        mTripWithOngoingTBFDropped := true;
      }
      if tripSess.tripDistance == mOngoingTripDistance {
        mTripWithOngoingTripDistanceDropped := true;
      }
      mTripSessions := Erase(mTripSessions, id);
      if mTripSessions == [] {
        mOngoingTripDistance, mOngoingTripTBFInterval := 0, 0;
        restarted := false;
      } else {
        restarted := RestartTripBatching(acc, granted);
      }
    }

    /** One turn of the report loop: brings the session at `i` up to date, and takes it out
        if it is completed.  The sessions are `kept`, walked over already, and `rest`. */
    method ReportOne(i: nat, acc: Uint32, ghost kept: seq<Session>, ghost rest: seq<Session>)
      returns (done: bool, id: Uint32)
      requires mTripSessions == kept + rest && i == |kept| && rest != []
      modifies this`mTripSessions, this`mTripWithOngoingTBFDropped, this`mTripWithOngoingTripDistanceDropped
      ensures done == Completed(rest[0], acc) && id == rest[0].id
      ensures mTripSessions == (if done then kept else kept + [Updated(rest[0], acc)]) + rest[1..]
      ensures mTripWithOngoingTBFDropped
        == (old(mTripWithOngoingTBFDropped) || (done && rest[0].status.tripTbfInterval == mOngoingTripTBFInterval))
      ensures mTripWithOngoingTripDistanceDropped
        == (old(mTripWithOngoingTripDistanceDropped) || (done && rest[0].status.tripDistance == mOngoingTripDistance))
    {
      var s := mTripSessions[i];
      id := s.id;
      s := s.(status := s.status.(accumulatedDistanceThisTrip :=
        Add32(s.status.accumulatedDistanceOnTripRestart, Sub32(acc, s.status.accumulatedDistanceOngoingBatch))));
      done := s.status.tripDistance <= s.status.accumulatedDistanceThisTrip;
      if done {
        mTripSessions := mTripSessions[..i] + mTripSessions[i + 1..];
        if s.status.tripTbfInterval == mOngoingTripTBFInterval {
          mTripWithOngoingTBFDropped := true;
        }
        if s.status.tripDistance == mOngoingTripDistance {
          mTripWithOngoingTripDistanceDropped := true;
        }
      } else {
        mTripSessions := mTripSessions[i := s];
      }
    }

    /** The report loop: completed trips go, the others are brought up to date. */
    method UpdateSessions(acc: Uint32) returns (completed: seq<Uint32>)
      modifies this`mTripSessions, this`mTripWithOngoingTBFDropped, this`mTripWithOngoingTripDistanceDropped
      ensures mTripSessions == Unfinished(old(mTripSessions), acc)
      ensures completed == CompletedIds(old(mTripSessions), acc)
      ensures mTripWithOngoingTBFDropped
        == (old(mTripWithOngoingTBFDropped) || CompletesTbf(old(mTripSessions), acc, mOngoingTripTBFInterval))
      ensures mTripWithOngoingTripDistanceDropped
        == (old(mTripWithOngoingTripDistanceDropped)
            || CompletesDistance(old(mTripSessions), acc, mOngoingTripDistance))
    {
      ghost var was, kept, rest := mTripSessions, [], mTripSessions;
      completed := [];
      assert kept + Unfinished(was, acc) == Unfinished(was, acc);
      assert completed + CompletedIds(was, acc) == CompletedIds(was, acc);
      var i := 0;
      while i < |mTripSessions|
        invariant mTripSessions == kept + rest && i == |kept|
        invariant kept + Unfinished(rest, acc) == Unfinished(was, acc)
        invariant completed + CompletedIds(rest, acc) == CompletedIds(was, acc)
        invariant (mTripWithOngoingTBFDropped || CompletesTbf(rest, acc, mOngoingTripTBFInterval))
          == (old(mTripWithOngoingTBFDropped) || CompletesTbf(was, acc, mOngoingTripTBFInterval))
        invariant (mTripWithOngoingTripDistanceDropped || CompletesDistance(rest, acc, mOngoingTripDistance))
          == (old(mTripWithOngoingTripDistanceDropped) || CompletesDistance(was, acc, mOngoingTripDistance))
        decreases |rest|
      {
        ReportTurn(kept, completed, rest, acc);
        var done, id := ReportOne(i, acc, kept, rest);
        if done {
          completed := completed + [id];
        } else {
          i, kept := i + 1, kept + [Updated(rest[0], acc)];
        }
        rest := rest[1..];
      }
      assert kept + [] == kept && completed + [] == completed;
    }

    method ReportCompletedTrips(acc: Uint32, granted: bool) returns (completed: seq<Uint32>, restarted: bool)
      modifies this
      ensures Report(old(View()), acc, granted) == Outcome(View(), completed, restarted)
    {
      completed := UpdateSessions(acc);
      restarted := false;
      if completed != [] {
        restarted := RestartTripBatching(acc, granted);
      }
    }
  }
}
