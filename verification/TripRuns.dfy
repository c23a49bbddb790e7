/** The trip multiplexer on the road: an odometer, the place where the modem's current
    batch began, and for every listed trip the distance its counters stand for. */
module TripRuns {
  import opened TripAdapter

  /** What has happened to one trip, in odometer readings: where it started, where its
      share of the current batch begins, the reading its last counted distance stands for,
      and the distance that restarts by joining trips have taken away from it. */
  datatype Account = Account(start: nat, base: nat, seen: nat, lost: nat)

  datatype World = World(a: Adapter, odometer: nat, origin: nat, accounts: map<Uint32, Account>)

  datatype Happening =
    | Drive(driven: nat)
    | StartTrip(id: Uint32, distance: Uint32, tbf: Uint32, ok: bool)
    | StopTrip(id: Uint32, granted: bool)
    | ReportTrips(granted: bool)

  const HOME := World(START, 0, 0, map[])

  /** What the modem says its batch has accumulated: an unsigned 32-bit reading. */
  function Reading(w: World): Uint32 {
    (w.odometer - w.origin) % WRAP
  }

  function Operate(w: World, e: Happening): Outcome {
    match e
    case Drive(_) => Outcome(w.a, [], false)
    case StartTrip(id, distance, tbf, ok) => Start(w.a, id, distance, tbf, ok, Reading(w))
    case StopTrip(id, granted) => Stop(w.a, id, Reading(w), granted)
    case ReportTrips(granted) => Report(w.a, Reading(w), granted)
  }

  /** A joining trip that makes the batch restart: the others then go on from what was last
      counted for them, not from now. */
  predicate Forgets(w: World, e: Happening) {
    e.StartTrip? && w.a.trips != [] && JoinRestarts(w.a, e.distance, e.tbf, e.ok, Reading(w))
  }

  function Settled(account: Account, w: World, e: Happening, restarted: bool): Account {
    if !restarted then
      if e.ReportTrips? then account.(seen := w.odometer) else account
    else if Forgets(w, e) then
      var missed := if w.odometer < account.seen then 0 else w.odometer - account.seen;
      Account(account.start, w.odometer, w.odometer, account.lost + missed)
    else
      account.(base := w.odometer, seen := w.odometer)
  }

  function Driven(e: Happening): nat {
    if e.Drive? then e.driven else 0
  }

  /** The accounts once an accepted trip has been entered. */
  function Listed(w: World, e: Happening): map<Uint32, Account> {
    if e.StartTrip? && e.ok
    then w.accounts[e.id := Account(w.odometer, w.odometer, w.odometer, 0)]
    else w.accounts
  }

  function Accounts(w: World, e: Happening): map<Uint32, Account> {
    var listed, restarted := Listed(w, e), Operate(w, e).restarted;
    map id | id in listed :: Settled(listed[id], w, e, restarted)
  }

  function Step(w: World, e: Happening): World {
    var o := Operate(w, e);
    World(o.a,
          w.odometer + Driven(e),
          if o.restarted then w.odometer else w.origin,
          Accounts(w, e))
  }

  function Run(w: World, es: seq<Happening>): World
    decreases |es|
  {
    if es == [] then w else Run(Step(w, es[0]), es[1..])
  }

  // ---------- the invariant ----------

  /** A trip's counters are its account, modulo the width of the counters. */
  predicate Tracks(t: TripSessionStatus, c: Account, odometer: nat, origin: nat) {
    && origin <= c.base && c.start + c.lost <= c.base <= c.seen <= odometer
    && t.accumulatedDistanceOngoingBatch == (c.base - origin) % WRAP
    && t.accumulatedDistanceOnTripRestart == (c.base - c.start - c.lost) % WRAP
    && t.accumulatedDistanceThisTrip == (c.seen - c.start - c.lost) % WRAP
  }

  /** The sessions of a table all track their accounts. */
  ghost predicate AllTrack(trips: seq<Session>, accounts: map<Uint32, Account>, odometer: nat, origin: nat) {
    && origin <= odometer && Sorted(trips)
    && forall s <- trips :: s.id in accounts && Tracks(s.status, accounts[s.id], odometer, origin)
  }

  ghost predicate Honest(w: World) {
    AllTrack(w.a.trips, w.accounts, w.odometer, w.origin)
  }

  // ---------- modular arithmetic ----------

  lemma ModAdd(x: int, y: int)
    ensures (x % WRAP + y % WRAP) % WRAP == (x + y) % WRAP
  {
    var q := x / WRAP + y / WRAP;
    assert x + y == q * WRAP + (x % WRAP + y % WRAP);
    ModShift(x % WRAP + y % WRAP, q);
  }

  lemma ModSub(x: int, y: int)
    ensures (x % WRAP - y % WRAP) % WRAP == (x - y) % WRAP
  {
    var q := x / WRAP - y / WRAP;
    assert x - y == q * WRAP + (x % WRAP - y % WRAP);
    ModShift(x % WRAP - y % WRAP, q);
  }

  lemma ModShift(x: int, q: int)
    ensures (q * WRAP + x) % WRAP == x % WRAP
  {
    assert (q * WRAP + x) / WRAP == q + x / WRAP;
  }

  /** Whatever has wrapped round, a trip's distance is what its account says. */
  lemma DistanceIsAccount(t: TripSessionStatus, c: Account, odometer: nat, origin: nat)
    requires Tracks(t, c, odometer, origin)
    ensures Distance(t, (odometer - origin) % WRAP) == (odometer - c.start - c.lost) % WRAP
  {
    ModSub(odometer - origin, c.base - origin);
    ModAdd(c.base - c.start - c.lost, odometer - c.base);
  }

  // ---------- the session table ----------

  lemma ConsSorted(s: Session, rest: seq<Session>)
    requires Sorted(rest) && forall x <- rest :: s.id < x.id
    ensures Sorted([s] + rest)
  {
    forall j | 0 < j < |rest| + 1
      ensures s.id < ([s] + rest)[j].id
    {
      assert ([s] + rest)[j] == rest[j - 1] && rest[j - 1] in rest;
    }
  }

  lemma HeadLeast(trips: seq<Session>)
    requires trips != [] && Sorted(trips)
    ensures Sorted(trips[1..]) && forall x <- trips[1..] :: trips[0].id < x.id
    ensures trips == [trips[0]] + trips[1..]
  {
  }

  lemma {:induction false} PutFacts(trips: seq<Session>, s: Session)
    requires Sorted(trips)
    ensures Sorted(Put(trips, s))
    ensures forall x :: x in Put(trips, s) <==> x == s || (x in trips && x.id != s.id)
  {
    if trips != [] {
      HeadLeast(trips);
      if s.id < trips[0].id {
        ConsSorted(s, trips);
      } else if s.id == trips[0].id {
        ConsSorted(s, trips[1..]);
      } else {
        PutFacts(trips[1..], s);
        ConsSorted(trips[0], Put(trips[1..], s));
      }
    }
  }

  lemma {:induction false} EraseFacts(trips: seq<Session>, id: Uint32)
    requires Sorted(trips)
    ensures Sorted(Erase(trips, id))
    ensures forall x :: x in Erase(trips, id) <==> x in trips && x.id != id
  {
    if trips != [] {
      HeadLeast(trips);
      if trips[0].id != id {
        EraseFacts(trips[1..], id);
        ConsSorted(trips[0], Erase(trips[1..], id));
      }
    }
  }

  lemma {:induction false} UnfinishedFacts(trips: seq<Session>, acc: Uint32)
    requires Sorted(trips)
    ensures Sorted(Unfinished(trips, acc))
    ensures forall x <- Unfinished(trips, acc) :: exists y <- trips :: !Completed(y, acc) && x == Updated(y, acc)
  {
    if trips != [] {
      HeadLeast(trips);
      UnfinishedFacts(trips[1..], acc);
      if !Completed(trips[0], acc) {
        ConsSorted(Updated(trips[0], acc), Unfinished(trips[1..], acc));
      }
    }
  }

  lemma {:induction false} RebaseAllFacts(trips: seq<Session>)
    requires Sorted(trips)
    ensures Sorted(RebaseAll(trips))
    ensures forall x <- RebaseAll(trips) :: exists y <- trips :: x == Rebased(y)
  {
    if trips != [] {
      HeadLeast(trips);
      RebaseAllFacts(trips[1..]);
      ConsSorted(Rebased(trips[0]), RebaseAll(trips[1..]));
    }
  }

  lemma {:induction false} UpdateAllFacts(trips: seq<Session>, acc: Uint32)
    requires Sorted(trips)
    ensures Sorted(UpdateAndRebaseAll(trips, acc))
    ensures forall x <- UpdateAndRebaseAll(trips, acc) :: exists y <- trips :: x == Rebased(Updated(y, acc))
  {
    if trips != [] {
      HeadLeast(trips);
      UpdateAllFacts(trips[1..], acc);
      ConsSorted(Rebased(Updated(trips[0], acc)), UpdateAndRebaseAll(trips[1..], acc));
    }
  }

  lemma {:induction false} CompletedFacts(trips: seq<Session>, acc: Uint32, id: Uint32)
    ensures id in CompletedIds(trips, acc) <==> exists s <- trips :: s.id == id && Completed(s, acc)
  {
    if trips != [] {
      assert trips == [trips[0]] + trips[1..];
      CompletedFacts(trips[1..], acc, id);
    }
  }

  // ---------- one step ----------

  lemma TracksUpdated(s: Session, c: Account, odometer: nat, origin: nat)
    requires Tracks(s.status, c, odometer, origin)
    ensures Tracks(Updated(s, (odometer - origin) % WRAP).status, c.(seen := odometer), odometer, origin)
  {
    DistanceIsAccount(s.status, c, odometer, origin);
  }

  lemma TracksRestart(s: Session, c: Account, odometer: nat, origin: nat)
    requires Tracks(s.status, c, odometer, origin)
    ensures Tracks(Rebased(Updated(s, (odometer - origin) % WRAP)).status, c.(base := odometer, seen := odometer),
                   odometer, odometer)
  {
    DistanceIsAccount(s.status, c, odometer, origin);
  }

  lemma TracksForget(s: Session, c: Account, odometer: nat, origin: nat)
    requires Tracks(s.status, c, odometer, origin)
    ensures Tracks(Rebased(s).status, Account(c.start, odometer, odometer, c.lost + odometer - c.seen),
                   odometer, odometer)
  {
  }

  lemma RebaseTracks(trips: seq<Session>, accounts: map<Uint32, Account>, accounts': map<Uint32, Account>,
                     odometer: nat, origin: nat)
    requires AllTrack(trips, accounts, odometer, origin)
    requires forall id <- accounts :: id in accounts' && var c := accounts[id];
               c.seen <= odometer ==> accounts'[id] == Account(c.start, odometer, odometer, c.lost + odometer - c.seen)
    ensures AllTrack(RebaseAll(trips), accounts', odometer, odometer)
  {
    RebaseAllFacts(trips);
    forall x | x in RebaseAll(trips)
      ensures x.id in accounts' && Tracks(x.status, accounts'[x.id], odometer, odometer)
    {
      var y :| y in trips && x == Rebased(y);
      assert x.id == y.id && accounts[y.id].seen <= odometer;
      TracksForget(y, accounts[y.id], odometer, origin);
    }
  }

  lemma RestartTracks(trips: seq<Session>, accounts: map<Uint32, Account>, accounts': map<Uint32, Account>,
                      odometer: nat, origin: nat, acc: Uint32)
    requires acc == (odometer - origin) % WRAP
    requires AllTrack(trips, accounts, odometer, origin)
    requires forall id <- accounts ::
               id in accounts' && accounts'[id] == accounts[id].(base := odometer, seen := odometer)
    ensures AllTrack(UpdateAndRebaseAll(trips, acc), accounts', odometer, odometer)
  {
    UpdateAllFacts(trips, acc);
    forall x | x in UpdateAndRebaseAll(trips, acc)
      ensures x.id in accounts' && Tracks(x.status, accounts'[x.id], odometer, odometer)
    {
      var y :| y in trips && x == Rebased(Updated(y, acc));
      TracksRestart(y, accounts[y.id], odometer, origin);
    }
  }

  lemma UnfinishedTracks(trips: seq<Session>, accounts: map<Uint32, Account>, accounts': map<Uint32, Account>,
                         odometer: nat, origin: nat, acc: Uint32)
    requires acc == (odometer - origin) % WRAP
    requires AllTrack(trips, accounts, odometer, origin)
    requires forall id <- accounts :: id in accounts' && accounts'[id] == accounts[id].(seen := odometer)
    ensures AllTrack(Unfinished(trips, acc), accounts', odometer, origin)
  {
    UnfinishedFacts(trips, acc);
    forall x | x in Unfinished(trips, acc)
      ensures x.id in accounts' && Tracks(x.status, accounts'[x.id], odometer, origin)
    {
      var y :| y in trips && !Completed(y, acc) && x == Updated(y, acc);
      TracksUpdated(y, accounts[y.id], odometer, origin);
    }
  }

  /** A new session joins the table with nothing counted yet. */
  lemma PutTracks(trips: seq<Session>, accounts: map<Uint32, Account>, s: Session, odometer: nat, origin: nat)
    requires AllTrack(trips, accounts, odometer, origin)
    requires s.status.accumulatedDistanceOngoingBatch == (odometer - origin) % WRAP
    requires s.status.accumulatedDistanceThisTrip == 0 && s.status.accumulatedDistanceOnTripRestart == 0
    ensures AllTrack(Put(trips, s), accounts[s.id := Account(odometer, odometer, odometer, 0)], odometer, origin)
  {
    PutFacts(trips, s);
  }

  lemma HonestFirst(w: World, e: Happening)
    requires Honest(w) && e.StartTrip? && w.a.trips == []
    ensures Honest(Step(w, e))
  {
    if e.ok {
      assert e.id in Listed(w, e);
      assert Accounts(w, e)[e.id] == Account(w.odometer, w.odometer, w.odometer, 0);
    }
  }

  /** What joining does to the session table. */
  lemma JoinShape(w: World, e: Happening, trips: seq<Session>)
    requires e.StartTrip? && w.a.trips != []
    requires trips == if e.ok then Put(w.a.trips, Session(e.id, TripSessionStatus(Reading(w), 0, 0, e.distance, e.tbf)))
                      else w.a.trips
    ensures Operate(w, e).a.trips == if Operate(w, e).restarted then RebaseAll(trips) else trips
  {
  }

  lemma JoinKeepsHonest(w: World, w': World, trips: seq<Session>, listed: map<Uint32, Account>, restarted: bool)
    requires AllTrack(trips, listed, w.odometer, w.origin) && w'.odometer == w.odometer
    requires w'.origin == (if restarted then w.odometer else w.origin)
    requires w'.a.trips == (if restarted then RebaseAll(trips) else trips)
    requires !restarted ==> w'.accounts == listed
    requires restarted ==> forall id <- listed :: id in w'.accounts && var c := listed[id];
               c.seen <= w.odometer ==>
                 w'.accounts[id] == Account(c.start, w.odometer, w.odometer, c.lost + w.odometer - c.seen)
    ensures Honest(w')
  {
    if restarted {
      RebaseTracks(trips, listed, w'.accounts, w.odometer, w.origin);
      Conclude(w', RebaseAll(trips), w'.accounts, w.odometer, w.odometer);
    } else {
      Conclude(w', trips, listed, w.odometer, w.origin);
    }
  }

  /** What joining does to the accounts. */
  lemma JoinAccounts(w: World, e: Happening)
    requires e.StartTrip? && w.a.trips != []
    ensures !Operate(w, e).restarted ==> Accounts(w, e) == Listed(w, e)
    ensures Operate(w, e).restarted ==> forall id <- Listed(w, e) :: id in Accounts(w, e) && var c := Listed(w, e)[id];
              c.seen <= w.odometer ==>
                Accounts(w, e)[id] == Account(c.start, w.odometer, w.odometer, c.lost + w.odometer - c.seen)
  {
  }

  lemma HonestJoin(w: World, e: Happening)
    requires Honest(w) && e.StartTrip? && w.a.trips != []
    ensures Honest(Step(w, e))
  {
    var s := Session(e.id, TripSessionStatus(Reading(w), 0, 0, e.distance, e.tbf));
    var trips := if e.ok then Put(w.a.trips, s) else w.a.trips;
    PutTracks(w.a.trips, w.accounts, s, w.odometer, w.origin);
    JoinShape(w, e, trips);
    JoinAccounts(w, e);
    JoinKeepsHonest(w, Step(w, e), trips, Listed(w, e), Operate(w, e).restarted);
  }

  lemma Conclude(w: World, trips: seq<Session>, accounts: map<Uint32, Account>, odometer: nat, origin: nat)
    requires AllTrack(trips, accounts, odometer, origin)
    requires w.a.trips == trips && w.accounts == accounts && w.odometer == odometer && w.origin == origin
    ensures Honest(w)
  {
  }

  /** What stopping does to the session table. */
  lemma StopShape(w: World, e: Happening)
    requires e.StopTrip? && Honest(w)
    ensures Operate(w, e).a.trips
            == (if Operate(w, e).restarted then UpdateAndRebaseAll(Erase(w.a.trips, e.id), Reading(w))
                else Erase(w.a.trips, e.id))
  {
    if !HasTrip(w.a.trips, e.id) {
      EraseNothing(w.a.trips, e.id);
    }
  }

  lemma {:induction false} EraseNothing(trips: seq<Session>, id: Uint32)
    requires !HasTrip(trips, id)
    ensures Erase(trips, id) == trips
  {
    if trips != [] {
      assert trips == [trips[0]] + trips[1..];
      EraseNothing(trips[1..], id);
    }
  }

  lemma StopKeeps(w: World, w': World, id: Uint32, restarted: bool, acc: Uint32)
    requires Honest(w) && acc == Reading(w) && w'.odometer == w.odometer
    requires w'.origin == if restarted then w.odometer else w.origin
    requires var trips := Erase(w.a.trips, id);
             w'.a.trips == if restarted then UpdateAndRebaseAll(trips, acc) else trips
    requires !restarted ==> w'.accounts == w.accounts
    requires restarted ==>
               forall id <- w.accounts ::
                 id in w'.accounts && w'.accounts[id] == w.accounts[id].(base := w.odometer, seen := w.odometer)
    ensures Honest(w')
  {
    var trips := Erase(w.a.trips, id);
    EraseFacts(w.a.trips, id);
    if restarted {
      RestartTracks(trips, w.accounts, w'.accounts, w.odometer, w.origin, acc);
      Conclude(w', UpdateAndRebaseAll(trips, acc), w'.accounts, w.odometer, w.odometer);
    } else {
      Conclude(w', trips, w.accounts, w.odometer, w.origin);
    }
  }

  /** What stopping does to the accounts. */
  lemma StopAccounts(w: World, e: Happening)
    requires e.StopTrip?
    ensures !Operate(w, e).restarted ==> Accounts(w, e) == w.accounts
    ensures Operate(w, e).restarted ==>
              forall id <- w.accounts ::
                id in Accounts(w, e) && Accounts(w, e)[id] == w.accounts[id].(base := w.odometer, seen := w.odometer)
  {
  }

  lemma HonestStop(w: World, e: Happening)
    requires Honest(w) && e.StopTrip?
    ensures Honest(Step(w, e))
  {
    StopShape(w, e);
    StopAccounts(w, e);
    StopKeeps(w, Step(w, e), e.id, Operate(w, e).restarted, Reading(w));
  }

  /** What reporting does to the session table. */
  lemma ReportShape(w: World, e: Happening)
    requires e.ReportTrips?
    ensures var trips := Unfinished(w.a.trips, Reading(w));
            Operate(w, e).a.trips == if Operate(w, e).restarted then UpdateAndRebaseAll(trips, Reading(w)) else trips
  {
  }

  /** What reporting does to the accounts. */
  lemma ReportAccounts(w: World, e: Happening, seen: map<Uint32, Account>)
    requires e.ReportTrips? && seen == map id | id in w.accounts :: w.accounts[id].(seen := w.odometer)
    ensures !Operate(w, e).restarted ==> Accounts(w, e) == seen
    ensures Operate(w, e).restarted ==>
              forall id <- seen ::
                id in Accounts(w, e) && Accounts(w, e)[id] == seen[id].(base := w.odometer, seen := w.odometer)
  {
  }

  lemma ReportKeeps(w: World, w': World, restarted: bool, acc: Uint32, seen: map<Uint32, Account>)
    requires Honest(w) && acc == Reading(w) && w'.odometer == w.odometer
    requires w'.origin == if restarted then w.odometer else w.origin
    requires var trips := Unfinished(w.a.trips, acc);
             w'.a.trips == if restarted then UpdateAndRebaseAll(trips, acc) else trips
    requires seen == map id | id in w.accounts :: w.accounts[id].(seen := w.odometer)
    requires !restarted ==> w'.accounts == seen
    requires restarted ==>
               forall id <- seen ::
                 id in w'.accounts && w'.accounts[id] == seen[id].(base := w.odometer, seen := w.odometer)
    ensures Honest(w')
  {
    var trips := Unfinished(w.a.trips, acc);
    UnfinishedTracks(w.a.trips, w.accounts, seen, w.odometer, w.origin, acc);
    if restarted {
      RestartTracks(trips, seen, w'.accounts, w.odometer, w.origin, acc);
      Conclude(w', UpdateAndRebaseAll(trips, acc), w'.accounts, w.odometer, w.odometer);
    } else {
      Conclude(w', trips, seen, w.odometer, w.origin);
    }
  }

  lemma HonestReport(w: World, e: Happening)
    requires Honest(w) && e.ReportTrips?
    ensures Honest(Step(w, e))
  {
    var seen := map id | id in w.accounts :: w.accounts[id].(seen := w.odometer);
    ReportShape(w, e);
    ReportAccounts(w, e, seen);
    ReportKeeps(w, Step(w, e), Operate(w, e).restarted, Reading(w), seen);
  }

  lemma HonestStep(w: World, e: Happening)
    requires Honest(w)
    ensures Honest(Step(w, e))
  {
    match e
    case Drive(_) =>
    case StartTrip(_, _, _, _) =>
      if w.a.trips == [] {
        HonestFirst(w, e);
      } else {
        HonestJoin(w, e);
      }
    case StopTrip(_, _) => HonestStop(w, e);
    case ReportTrips(_) => HonestReport(w, e);
  }

  lemma {:induction false} HonestRun(w: World, es: seq<Happening>)
    requires Honest(w)
    ensures Honest(Run(w, es))
    decreases |es|
  {
    if es != [] {
      HonestStep(w, es[0]);
      HonestRun(Step(w, es[0]), es[1..]);
    }
  }

  // ---------- what a client can rely on ----------

  /** A report made now, whether or not the modem grants a restart after it, lists this trip. */
  predicate Lists(w: World, granted: bool, id: Uint32) {
    id in Operate(w, ReportTrips(granted)).completed
  }

  /** After any run a report lists exactly the trips whose distance the odometer has
      covered since they started, less what joining trips took away, modulo the width of
      the counters. */
  lemma ReportedExactly(es: seq<Happening>, s: Session, granted: bool)
    requires s in Run(HOME, es).a.trips
    ensures var w := Run(HOME, es);
            s.id in w.accounts && Exactly(w, s, w.accounts[s.id], granted)
  {
    HonestRun(HOME, es);
    ReportedExactlyNow(Run(HOME, es), s, granted);
  }

  predicate Exactly(w: World, s: Session, c: Account, granted: bool) {
    && c.start + c.lost <= w.odometer
    && (Lists(w, granted, s.id) <==> s.status.tripDistance <= (w.odometer - c.start - c.lost) % WRAP)
  }

  lemma ReportedExactlyNow(w: World, s: Session, granted: bool)
    requires Honest(w) && s in w.a.trips
    ensures Exactly(w, s, w.accounts[s.id], granted)
  {
    DistanceIsAccount(s.status, w.accounts[s.id], w.odometer, w.origin);
    ListsIff(w, s, granted);
  }

  /** A report goes by the distance it computes for the trip. */
  lemma ListsIff(w: World, s: Session, granted: bool)
    requires Sorted(w.a.trips) && s in w.a.trips
    ensures Lists(w, granted, s.id) <==> s.status.tripDistance <= Distance(s.status, Reading(w))
  {
    CompletedFacts(w.a.trips, Reading(w), s.id);
    OneSession(w.a.trips, s);
    assert Operate(w, ReportTrips(granted)).completed == CompletedIds(w.a.trips, Reading(w));
  }

  lemma OneSession(trips: seq<Session>, s: Session)
    requires Sorted(trips) && s in trips
    ensures forall x <- trips :: x.id == s.id ==> x == s
  {
  }

  /** No trip is reported before the odometer has advanced by its distance since it
      started, wrapped counters or not. */
  lemma NeverEarly(es: seq<Happening>, s: Session, granted: bool)
    requires s in Run(HOME, es).a.trips && Lists(Run(HOME, es), granted, s.id)
    ensures var w := Run(HOME, es);
            s.id in w.accounts && w.odometer - w.accounts[s.id].start >= s.status.tripDistance
  {
    ReportedExactly(es, s, granted);
    var w := Run(HOME, es);
    var c := w.accounts[s.id];
    ModAtMost(w.odometer - c.start - c.lost);
  }

  lemma ModAtMost(x: nat)
    ensures x % WRAP <= x
  {
  }

  /** The subtraction of a session's share of the batch never wraps while the batch's own
      distance fits its counter. */
  lemma NoUnderflow(es: seq<Happening>, s: Session)
    requires s in Run(HOME, es).a.trips
    requires Run(HOME, es).odometer - Run(HOME, es).origin < WRAP
    ensures s.status.accumulatedDistanceOngoingBatch <= Reading(Run(HOME, es))
  {
    HonestRun(HOME, es);
  }

  // ---------- what joining costs the others ----------

  /** The event enters this trip, anew if it was listed. */
  predicate Enters(e: Happening, id: Uint32) {
    e.StartTrip? && e.ok && e.id == id
  }

  /** What a step does to the account of a trip that stays listed. */
  lemma AccountStep(w: World, e: Happening, s: Session)
    requires Honest(w) && s in w.a.trips && !Enters(e, s.id)
    ensures s.id in Step(w, e).accounts
    ensures var c, c' := w.accounts[s.id], Step(w, e).accounts[s.id];
            c'.start == c.start && c'.lost == c.lost + if Forgets(w, e) then w.odometer - c.seen else 0
  {
    assert s.id in Listed(w, e) && Listed(w, e)[s.id] == w.accounts[s.id];
    assert Tracks(s.status, w.accounts[s.id], w.odometer, w.origin);
  }

  /** Two readings of one trip's counters, from its accounts then and now. */
  lemma DistanceMoves(t: TripSessionStatus, c: Account, odometer: nat, origin: nat,
                      t': TripSessionStatus, c': Account, origin': nat, driven: nat, forgets: bool)
    requires Tracks(t, c, odometer, origin) && Tracks(t', c', odometer + driven, origin')
    requires c'.start == c.start && c'.lost == c.lost + (if forgets then odometer - c.seen else 0)
    requires forgets ==> driven == 0
    ensures Distance(t', (odometer + driven - origin') % WRAP)
         == if forgets then t.accumulatedDistanceThisTrip else (Distance(t, (odometer - origin) % WRAP) + driven) % WRAP
  {
    DistanceIsAccount(t, c, odometer, origin);
    DistanceIsAccount(t', c', odometer + driven, origin');
    if forgets {
      assert odometer - c'.start - c'.lost == c.seen - c.start - c.lost;
    } else {
      ModOfMod(odometer - c.start - c.lost, driven);
    }
  }

  /** The distance the code computes for a listed trip grows by what is driven, and nothing
      else changes it, except that a joining trip that makes the batch restart sets it back
      to what was last counted. */
  lemma DistanceStep(w: World, e: Happening, s: Session, s': Session)
    requires Honest(w) && s in w.a.trips && s' in Step(w, e).a.trips && s'.id == s.id && !Enters(e, s.id)
    ensures Distance(s'.status, Reading(Step(w, e)))
         == if Forgets(w, e) then s.status.accumulatedDistanceThisTrip
            else (Distance(s.status, Reading(w)) + Driven(e)) % WRAP
  {
    HonestStep(w, e);
    AccountStep(w, e, s);
    DistanceBetween(w, Step(w, e), s, s', Driven(e), Forgets(w, e));
  }

  lemma DistanceBetween(w: World, w': World, s: Session, s': Session, driven: nat, forgets: bool)
    requires Honest(w) && Honest(w') && s in w.a.trips && s' in w'.a.trips && s'.id == s.id
    requires w'.odometer == w.odometer + driven && (forgets ==> driven == 0)
    requires w'.accounts[s.id].start == w.accounts[s.id].start
    requires w'.accounts[s.id].lost
             == w.accounts[s.id].lost + (if forgets then w.odometer - w.accounts[s.id].seen else 0)
    ensures Distance(s'.status, Reading(w'))
         == if forgets then s.status.accumulatedDistanceThisTrip else (Distance(s.status, Reading(w)) + driven) % WRAP
  {
    DistanceMoves(s.status, w.accounts[s.id], w.odometer, w.origin,
                  s'.status, w'.accounts[s.id], w'.origin, driven, forgets);
  }

  lemma ModOfMod(x: int, y: int)
    ensures (x % WRAP + y) % WRAP == (x + y) % WRAP
  {
    var q := x / WRAP;
    assert x + y == q * WRAP + (x % WRAP + y);
    ModShift(x % WRAP + y, q);
  }

  /** A joining trip leaves the distance of another one as it is exactly when it does not
      make the batch restart, or the other's distance had just been counted. */
  lemma JoinCostsIff(w: World, e: Happening, s: Session, s': Session)
    requires Honest(w) && e.StartTrip? && w.a.trips != [] && !Enters(e, s.id)
    requires s in w.a.trips && s' in Step(w, e).a.trips && s'.id == s.id
    ensures Distance(s'.status, Reading(Step(w, e))) == Distance(s.status, Reading(w))
      <==> !JoinRestarts(w.a, e.distance, e.tbf, e.ok, Reading(w))
           || s.status.accumulatedDistanceThisTrip == Distance(s.status, Reading(w))
  {
    DistanceStep(w, e, s, s');
  }

  /** The event sets this trip back. */
  predicate SetsBack(w: World, e: Happening, id: Uint32) {
    && Forgets(w, e) && !Enters(e, id) && HasTrip(w.a.trips, id)
    && var t := Get(w.a.trips, id).status;
       t.accumulatedDistanceThisTrip != Distance(t, Reading(w))
  }

  /** Whether this trip has never been set back since it last started; `before` is the answer
      up to `w`. */
  predicate Unharmed(w: World, es: seq<Happening>, id: Uint32, before: bool)
    decreases |es|
  {
    if es == [] then before
    else Unharmed(Step(w, es[0]), es[1..], id, Enters(es[0], id) || (before && !SetsBack(w, es[0], id)))
  }

  /** A trip that was never set back has lost nothing that shows, one that was has lost something. */
  ghost predicate Losses(w: World, id: Uint32, unharmed: bool) {
    HasTrip(w.a.trips, id) && id in w.accounts ==>
      if unharmed then w.accounts[id].lost % WRAP == 0 else w.accounts[id].lost > 0
  }

  /** After any run, as long as the distance driven since the trip's start fits the counters:
      the distance the code computes is the distance driven exactly when no joining trip has
      set the trip back since; and that distance is what a report goes by. */
  lemma OnTime(es: seq<Happening>, s: Session, granted: bool)
    requires s in Run(HOME, es).a.trips
    ensures var w := Run(HOME, es);
            && s.id in w.accounts
            && var driven, distance := w.odometer - w.accounts[s.id].start, Distance(s.status, Reading(w));
            && (0 <= driven < WRAP ==> (distance == driven <==> Unharmed(HOME, es, s.id, true)))
            && (Lists(w, granted, s.id) <==> s.status.tripDistance <= distance)
  {
    var w := Run(HOME, es);
    HonestRun(HOME, es);
    LossesRun(HOME, es, s.id, true);
    OneSession(w.a.trips, s);
    var c := w.accounts[s.id];
    if w.odometer - c.start < WRAP {
      DistanceIsDriven(s.status, c, w.odometer, w.origin, Unharmed(HOME, es, s.id, true));
    }
    ListsIff(w, s, granted);
  }

  lemma DistanceIsDriven(t: TripSessionStatus, c: Account, odometer: nat, origin: nat, unharmed: bool)
    requires Tracks(t, c, odometer, origin) && odometer - c.start < WRAP
    requires if unharmed then c.lost % WRAP == 0 else c.lost > 0
    ensures Distance(t, (odometer - origin) % WRAP) == odometer - c.start <==> unharmed
  {
    DistanceIsAccount(t, c, odometer, origin);
    SmallMod(odometer - c.start - c.lost);
    SmallMod(c.lost);
  }

  lemma SmallMod(x: nat)
    requires x < WRAP
    ensures x % WRAP == x
  {
  }

  lemma {:induction false} LossesRun(w: World, es: seq<Happening>, id: Uint32, before: bool)
    requires Honest(w) && Losses(w, id, before)
    ensures Losses(Run(w, es), id, Unharmed(w, es, id, before))
    decreases |es|
  {
    if es != [] {
      HonestStep(w, es[0]);
      LossesStep(w, es[0], id, before);
      LossesRun(Step(w, es[0]), es[1..], id, Enters(es[0], id) || (before && !SetsBack(w, es[0], id)));
    }
  }

  lemma LossesStep(w: World, e: Happening, id: Uint32, before: bool)
    requires Honest(w) && Losses(w, id, before)
    ensures Losses(Step(w, e), id, Enters(e, id) || (before && !SetsBack(w, e, id)))
  {
    if Enters(e, id) {
      EnteredAnew(w, e);
    } else if HasTrip(Step(w, e).a.trips, id) {
      StaysListed(w, e, id);
      var s := Get(w.a.trips, id);
      AccountStep(w, e, s);
      LossShows(s.status, w.accounts[id], w.odometer, w.origin);
    }
  }

  lemma EnteredAnew(w: World, e: Happening)
    requires e.StartTrip? && e.ok
    ensures e.id in Step(w, e).accounts && Step(w, e).accounts[e.id].lost == 0
  {
    assert e.id in Listed(w, e) && Listed(w, e)[e.id] == Account(w.odometer, w.odometer, w.odometer, 0);
  }

  /** What a restarting join takes from a trip is a multiple of the counters' range exactly
      when the trip had just been counted. */
  lemma LossShows(t: TripSessionStatus, c: Account, odometer: nat, origin: nat)
    requires Tracks(t, c, odometer, origin)
    ensures t.accumulatedDistanceThisTrip == Distance(t, (odometer - origin) % WRAP)
       <==> (odometer - c.seen) % WRAP == 0
    ensures (odometer - c.seen) % WRAP == 0 ==> (c.lost + (odometer - c.seen)) % WRAP == c.lost % WRAP
    ensures (odometer - c.seen) % WRAP != 0 ==> c.lost + (odometer - c.seen) > 0
  {
    DistanceIsAccount(t, c, odometer, origin);
    SameResidue(odometer - c.start - c.lost, odometer - c.seen);
    assert odometer - c.start - c.lost - (odometer - c.seen) == c.seen - c.start - c.lost;
    ModOfMod(odometer - c.seen, c.lost);
  }

  lemma SameResidue(x: int, d: int)
    ensures (x - d) % WRAP == x % WRAP <==> d % WRAP == 0
  {
    ModSub(x, d);
    if (x - d) % WRAP == x % WRAP {
      ModSub(x, x - d);
    }
  }

  /** Only an event that enters a trip puts it on the list. */
  lemma StaysListed(w: World, e: Happening, id: Uint32)
    requires Honest(w) && !Enters(e, id) && HasTrip(Step(w, e).a.trips, id)
    ensures HasTrip(w.a.trips, id)
  {
    match e
    case Drive(_) =>
    case StartTrip(_, distance, tbf, ok) =>
      if w.a.trips != [] {
        var s := Session(e.id, TripSessionStatus(Reading(w), 0, 0, distance, tbf));
        var trips := if ok then Put(w.a.trips, s) else w.a.trips;
        PutFacts(w.a.trips, s);
        JoinShape(w, e, trips);
        RebaseAllFacts(trips);
      }
    case StopTrip(gone, _) =>
      EraseFacts(w.a.trips, gone);
      StopShape(w, e);
      UpdateAllFacts(Erase(w.a.trips, gone), Reading(w));
    case ReportTrips(_) =>
      UnfinishedFacts(w.a.trips, Reading(w));
      ReportShape(w, e);
      UpdateAllFacts(Unfinished(w.a.trips, Reading(w)), Reading(w));
  }

  /** A trip at the start of a batch. */
  function Uncounted(id: Uint32, distance: Uint32, tbf: Uint32): Session {
    Session(id, TripSessionStatus(0, 0, 0, distance, tbf))
  }

  /** A trip of 100, another of 30 that joins after 40, and 60 more. */
  function Overtaking(first: Uint32, second: Uint32): seq<Happening> {
    [StartTrip(first, 100, 10, true)] + ([Drive(40)] + ([StartTrip(second, 30, 10, true)] + [Drive(60)]))
  }

  /** The first trip has covered its 100 and is still not listed, because the 40 driven
      before the second one joined were never counted. */
  lemma JoiningDelays(first: Uint32, second: Uint32, granted: bool)
    requires first < second
    ensures var w := Run(HOME, Overtaking(first, second));
            && first in w.accounts && w.odometer - w.accounts[first].start == 100
            && !Lists(w, granted, first) && Lists(w, granted, second)
  {
    var e1, e2, e3, e4 := StartTrip(first, 100, 10, true), Drive(40), StartTrip(second, 30, 10, true), Drive(60);
    var w1 := Step(HOME, e1);
    var w2 := Step(w1, e2);
    var w3 := Step(w2, e3);
    var w := Step(w3, e4);
    FourSteps(HOME, e1, e2, e3, e4);
    FirstStarts(w1, first, 100, 10);
    SecondJoins(w2, w3, first, second);
    BothTravel(w3, w, first, second, granted);
  }

  lemma FirstStarts(w1: World, first: Uint32, distance: Uint32, tbf: Uint32)
    requires w1 == Step(HOME, StartTrip(first, distance, tbf, true))
    ensures w1.a == Adapter([Session(first, TripSessionStatus(0, 0, 0, distance, tbf))], distance, tbf, false, false)
    ensures w1.odometer == w1.origin == 0 && first in w1.accounts && w1.accounts[first].start == 0
  {
  }

  lemma SecondJoins(w2: World, w3: World, first: Uint32, second: Uint32)
    requires first < second && w3 == Step(w2, StartTrip(second, 30, 10, true))
    requires w2.a == Adapter([Session(first, TripSessionStatus(0, 0, 0, 100, 10))], 100, 10, false, false)
    requires w2.odometer == 40 && w2.origin == 0 && first in w2.accounts && w2.accounts[first].start == 0
    ensures w3.a.trips == [Uncounted(first, 100, 10), Uncounted(second, 30, 10)]
    ensures w3.odometer == w3.origin == 40 && first in w3.accounts && w3.accounts[first].start == 0
  {
    TwoSessions(w2.a.trips[0], Session(second, TripSessionStatus(40, 0, 0, 30, 10)));
  }

  lemma BothTravel(w3: World, w: World, first: Uint32, second: Uint32, granted: bool)
    requires first < second && w == Step(w3, Drive(60))
    requires w3.a.trips == [Uncounted(first, 100, 10), Uncounted(second, 30, 10)]
    requires w3.odometer == w3.origin == 40 && first in w3.accounts && w3.accounts[first].start == 0
    ensures first in w.accounts && w.odometer - w.accounts[first].start == 100
    ensures !Lists(w, granted, first) && Lists(w, granted, second)
  {
    ListsIff(w, w.a.trips[0], granted);
    ListsIff(w, w.a.trips[1], granted);
  }

  lemma RunOne(w: World, e: Happening, es: seq<Happening>)
    ensures Run(w, [e] + es) == Run(Step(w, e), es)
  {
    assert ([e] + es)[1..] == es;
  }

  lemma FourSteps(w: World, e1: Happening, e2: Happening, e3: Happening, e4: Happening)
    ensures Run(w, [e1] + ([e2] + ([e3] + [e4]))) == Step(Step(Step(Step(w, e1), e2), e3), e4)
  {
    RunOne(w, e1, [e2] + ([e3] + [e4]));
    RunOne(Step(w, e1), e2, [e3] + [e4]);
    RunOne(Step(Step(w, e1), e2), e3, [e4]);
    RunOne(Step(Step(Step(w, e1), e2), e3), e4, []);
    assert [e4] + [] == [e4];
  }

  lemma TwoSessions(s1: Session, s2: Session)
    requires s1.id < s2.id
    ensures Put([s1], s2) == [s1, s2] && RebaseAll([s1, s2]) == [Rebased(s1), Rebased(s2)]
  {
    assert Put([s1], s2) == [s1] + Put([], s2);
    assert RebaseAll([s1, s2]) == [Rebased(s1)] + RebaseAll([s2]) && RebaseAll([s2]) == [Rebased(s2)] + RebaseAll([]);
  }
}
