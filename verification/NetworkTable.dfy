/** The table of connected networks that `SystemStatusNetworkInfo::collate` in
    gps/core/SystemStatus.h carries from report to report, and the cached reports that
    `SystemStatus::setIteminReport` in gps/core/SystemStatus.cpp keeps. */
module NetworkTable {

  type Handle = h: int | 0 <= h < 0x1_0000_0000_0000_0000

  /** `~0` widened to 64 bits. */
  const UNKNOWN: Handle := 0xFFFF_FFFF_FFFF_FFFF
  const TYPE_MOBILE := 0
  const TYPE_UNKNOWN := 10
  const MAX_NETWORK_HANDLES := 10
  const MAX_ITEM := 5

  datatype Entry = Entry(networkHandle: Handle, networkType: int)

  const FREE := Entry(UNKNOWN, TYPE_UNKNOWN)

  /** A connectivity event as it comes from the platform. */
  datatype Event = Event(networkType: int, connected: bool, networkHandle: Handle, apn: string, time: int) {
    function Pair(): Entry {
      Entry(networkHandle, networkType)
    }
  }

  /** A type with a bit in the mask of all types. */
  predicate KnownType(networkType: int) {
    TYPE_MOBILE <= networkType < TYPE_UNKNOWN
  }

  type Table = t: seq<Entry> | |t| == MAX_NETWORK_HANDLES witness seq(MAX_NETWORK_HANDLES, _ => FREE)

  /** A report as the cache keeps it; `reported` is its last time stamp. */
  datatype Report = Report(table: Table, connected: bool, apn: string, reported: int)

  // ---------- the table as a set of pairs ----------

  /** The number of slots in front of the first free one. */
  function Used(t: seq<Entry>): (n: nat)
    ensures n <= |t| && (n < |t| ==> t[n].networkHandle == UNKNOWN)
    ensures forall i | 0 <= i < n :: t[i].networkHandle != UNKNOWN
  {
    if t == [] || t[0].networkHandle == UNKNOWN then 0 else 1 + Used(t[1..])
  }

  lemma {:induction false} UsedFrom(t: seq<Entry>, n: nat)
    requires n <= |t| && forall i | 0 <= i < n :: t[i].networkHandle != UNKNOWN
    ensures n <= Used(t)
  {
    if n > 0 {
      UsedFrom(t[1..], n - 1);
    }
  }

  lemma UsedIs(t: seq<Entry>, n: nat)
    requires n <= |t| && (n < |t| ==> t[n].networkHandle == UNKNOWN)
    requires forall i | 0 <= i < n :: t[i].networkHandle != UNKNOWN
    ensures Used(t) == n
  {
    UsedFrom(t, n);
  }

  /** No gaps, and no handle twice. */
  predicate Compact(t: seq<Entry>) {
    && (forall i | Used(t) <= i < |t| :: t[i].networkHandle == UNKNOWN)
    && (forall i, j | 0 <= i < j < Used(t) :: t[i].networkHandle != t[j].networkHandle)
  }

  function Pairs(t: seq<Entry>): set<Entry> {
    set i | 0 <= i < Used(t) :: t[i]
  }

  predicate Lists(pairs: set<Entry>, h: Handle) {
    exists p <- pairs :: p.networkHandle == h
  }

  // ---------- the table slot by slot ----------

  /** A new pair goes into the first free slot. */
  function Connected(t: Table, p: Entry): Table {
    if p.networkHandle == UNKNOWN || Used(t) == |t|
       || (exists i | 0 <= i < Used(t) :: t[i].networkHandle == p.networkHandle)
    then t
    else t[Used(t) := p]
  }

  /** The index of the last `p`, or -1. */
  function LastOf(s: seq<Entry>, p: Entry): (i: int)
    ensures -1 <= i < |s|
    ensures i >= 0 ==> s[i] == p
    ensures i < 0 ==> p !in s
  {
    if s == [] then -1 else if s[|s| - 1] == p then |s| - 1 else LastOf(s[..|s| - 1], p)
  }

  /** The last pair moves into the hole. */
  function Disconnected(t: Table, p: Entry): Table {
    var n := Used(t);
    var i := LastOf(t[..n], p);
    if i < 0 then t else t[i := t[n - 1]][n - 1 := FREE]
  }

  function Collated(t: Table, connected: bool, p: Entry): Table {
    if connected then Connected(t, p)
    else if KnownType(p.networkType) then Disconnected(t, p)
    else t
  }

  function FirstTable(e: Event): Table {
    seq(MAX_NETWORK_HANDLES, i => if i == 0 then e.Pair() else FREE)
  }

  /** What an event does to the pairs: a connection adds its pair when the handle is known and
      new and there is room; a disconnection removes its pair, if the type has a mask bit. */
  function Collect(pairs: set<Entry>, e: Event): set<Entry> {
    if e.connected then
      if e.networkHandle == UNKNOWN || Lists(pairs, e.networkHandle) || |pairs| >= MAX_NETWORK_HANDLES then pairs
      else pairs + {e.Pair()}
    else if KnownType(e.networkType) then pairs - {e.Pair()}
    else pairs
  }

  // ---------- the event object ----------

  class SystemStatusNetworkInfo {
    const mAllNetworkHandles: array<Entry>
    const mType: int
    const mConnected: bool
    const mNetworkHandle: Handle
    var mApn: string

    ghost predicate Valid()
      reads mAllNetworkHandles
    {
      mAllNetworkHandles.Length == MAX_NETWORK_HANDLES
    }

    /** The event alone, its own pair in the first slot even for a disconnection. */
    constructor (e: Event)
      ensures Valid() && fresh(mAllNetworkHandles)
      ensures mAllNetworkHandles[..] == FirstTable(e)
      ensures mType == e.networkType && mConnected == e.connected && mNetworkHandle == e.networkHandle && mApn == e.apn
    {
      mType, mConnected, mNetworkHandle, mApn := e.networkType, e.connected, e.networkHandle, e.apn;
      mAllNetworkHandles := new Entry[MAX_NETWORK_HANDLES](_ => FREE);
      new;
      mAllNetworkHandles[0] := e.Pair();
    }

    method Equals(peer: Report) returns (same: bool)
      requires Valid()
      ensures same <==> peer.connected == mConnected && mAllNetworkHandles[..] == peer.table && mApn == peer.apn
    {
      same := peer.connected == mConnected;
      for i := 0 to MAX_NETWORK_HANDLES
        invariant same <==> peer.connected == mConnected && mAllNetworkHandles[..i] == peer.table[..i]
      {
        same := same && mAllNetworkHandles[i] == peer.table[i];
      }
      same := same && mApn == peer.apn;
    }

    /** Takes over the cached table and applies this event to it, in place. */
    method Collate(curInfo: Report)
      requires Valid()
      modifies mAllNetworkHandles, this`mApn
      ensures mAllNetworkHandles[..] == Collated(curInfo.table, mConnected, Entry(mNetworkHandle, mType))
      ensures mApn == if mType != TYPE_MOBILE && curInfo.apn != "" then curInfo.apn else old(mApn)
    {
      forall i | 0 <= i < MAX_NETWORK_HANDLES {
        mAllNetworkHandles[i] := curInfo.table[i];
      }
      assert mAllNetworkHandles[..] == curInfo.table;
      if mType != TYPE_MOBILE && curInfo.apn != "" {
        mApn := curInfo.apn;
      }
      if mConnected {
        Connect();
      } else if TYPE_MOBILE <= mType < TYPE_UNKNOWN {
        Disconnect();
      }
    }

    method Connect()
      requires Valid()
      modifies mAllNetworkHandles
      ensures mAllNetworkHandles[..] == Connected(old(mAllNetworkHandles[..]), Entry(mNetworkHandle, mType))
    {
      ghost var was := mAllNetworkHandles[..];
      var i := 0;
      while i < MAX_NETWORK_HANDLES
        invariant 0 <= i <= MAX_NETWORK_HANDLES && mAllNetworkHandles[..] == was
        invariant forall j | 0 <= j < i :: was[j].networkHandle != mNetworkHandle && was[j].networkHandle != UNKNOWN
      {
        if mNetworkHandle == mAllNetworkHandles[i].networkHandle {
          break;
        }
        if mAllNetworkHandles[i].networkHandle == UNKNOWN {
          UsedIs(was, i);
          mAllNetworkHandles[i] := Entry(mNetworkHandle, mType);
          assert mAllNetworkHandles[..] == was[i := Entry(mNetworkHandle, mType)];
          return;
        }
        i := i + 1;
      }
      if i == MAX_NETWORK_HANDLES {
        UsedIs(was, i);
      } else if mNetworkHandle != UNKNOWN {
        UsedFrom(was, i + 1);
      }
    }

    method Disconnect()
      requires Valid()
      modifies mAllNetworkHandles
      ensures mAllNetworkHandles[..] == Disconnected(old(mAllNetworkHandles[..]), Entry(mNetworkHandle, mType))
    {
      ghost var was := mAllNetworkHandles[..];
      var deletedIndex, lastValidIndex := MAX_NETWORK_HANDLES, 0;
      while lastValidIndex < MAX_NETWORK_HANDLES && mAllNetworkHandles[lastValidIndex].networkHandle != UNKNOWN
        invariant 0 <= lastValidIndex <= MAX_NETWORK_HANDLES
        invariant forall j | 0 <= j < lastValidIndex :: was[j].networkHandle != UNKNOWN
        invariant 0 <= deletedIndex
        invariant LastOf(was[..lastValidIndex], Entry(mNetworkHandle, mType)) ==
                  if deletedIndex == MAX_NETWORK_HANDLES then -1 else deletedIndex
      {
        assert was[..lastValidIndex + 1][..lastValidIndex] == was[..lastValidIndex];
        if mType == mAllNetworkHandles[lastValidIndex].networkType
           && mNetworkHandle == mAllNetworkHandles[lastValidIndex].networkHandle {
          deletedIndex := lastValidIndex;
        }
        lastValidIndex := lastValidIndex + 1;
      }
      UsedIs(was, lastValidIndex);
      if lastValidIndex > 0 {
        lastValidIndex := lastValidIndex - 1;
      }
      if deletedIndex != MAX_NETWORK_HANDLES {
        mAllNetworkHandles[deletedIndex] := mAllNetworkHandles[lastValidIndex];
        mAllNetworkHandles[lastValidIndex] := FREE;
      }
    }
  }

  // ---------- the cache ----------

  function Last(reports: seq<Report>): Report
    requires reports != []
  {
    reports[|reports| - 1]
  }

  /** The report an event amounts to after the report `cur`. */
  function Next(cur: Report, e: Event): Report {
    Report(Collated(cur.table, e.connected, e.Pair()), e.connected,
           if e.networkType != TYPE_MOBILE && cur.apn != "" then cur.apn else e.apn, e.time)
  }

  /** An event that changes nothing renews the time stamp of the report before it; the first
      event is reported as it comes. */
  function Logged(log: seq<Report>, e: Event): (log': seq<Report>)
    ensures |log| <= |log'| <= |log| + 1 && log' != []
  {
    if log == [] then [Report(FirstTable(e), e.connected, e.apn, e.time)]
    else
      var cur, next := Last(log), Next(Last(log), e);
      if next.(reported := cur.reported) == cur then log[|log| - 1 := next] else log + [next]
  }

  /** Every report there ever was. */
  function Log(es: seq<Event>): (log: seq<Report>)
    ensures log == [] <==> es == []
  {
    if es == [] then [] else Logged(Log(es[..|es| - 1]), es[|es| - 1])
  }

  function Recent(log: seq<Report>): seq<Report> {
    if |log| <= MAX_ITEM then log else log[|log| - MAX_ITEM..]
  }

  lemma RecentRenewed(log: seq<Report>, r: Report)
    requires log != []
    ensures Recent(log) != [] && Last(Recent(log)) == Last(log)
    ensures Recent(log[|log| - 1 := r]) == Recent(log)[|Recent(log)| - 1 := r]
  {
  }

  lemma RecentExtended(log: seq<Report>, r: Report)
    ensures Recent(log + [r]) ==
      var more := Recent(log) + [r];
      if |more| > MAX_ITEM then more[1..] else more
  {
  }

  /** What an event does to the cached reports.  The first one is kept as it comes.  A later one
      is news exactly if it differs from the last report in its connectedness, its table or its
      access point name; then it is added, and the oldest report goes if there are too many.
      Otherwise the last report's time stamp moves, and nothing else. */
  predicate Cached(was: seq<Report>, e: Event, changed: bool, now: seq<Report>) {
    if was == [] then changed && now == [Report(FirstTable(e), e.connected, e.apn, e.time)]
    else
      var cur, next, n := Last(was), Next(Last(was), e), |was| - 1;
      && (changed <==> next.connected != cur.connected || next.table != cur.table || next.apn != cur.apn)
      && now == if changed then (if |was| < MAX_ITEM then was else was[1..]) + [next]
                else was[..n] + [Report(cur.table, cur.connected, cur.apn, e.time)]
  }

  /** What the report after `cur` says: the event's connectedness and time, the pairs as the event
      changes them, and the access point name kept for types other than mobile. */
  lemma NextReport(cur: Report, e: Event)
    requires Compact(cur.table)
    ensures var next := Next(cur, e);
            && next.connected == e.connected && next.reported == e.time
            && Compact(next.table) && Pairs(next.table) == Collect(Pairs(cur.table), e)
            && (e.networkType == 0 || cur.apn == "" ==> next.apn == e.apn)
            && (e.networkType != 0 && cur.apn != "" ==> next.apn == cur.apn)
  {
    CollatedPairs(cur.table, e);
  }

  /** Keeping the cache this way keeps in it the most recent of all reports there ever were. */
  lemma CachedIsRecent(log: seq<Report>, e: Event, was: seq<Report>, changed: bool, now: seq<Report>)
    requires was == Recent(log) && Cached(was, e, changed, now)
    ensures now == Recent(Logged(log, e)) && (changed <==> |Logged(log, e)| > |log|)
  {
    if log != [] {
      var cur := Last(log);
      RecentRenewed(log, cur.(reported := e.time));
      RecentExtended(log, Next(cur, e));
    }
  }

  class SystemStatus {
    var mNetworkInfo: seq<Report>
    ghost var events: seq<Event>

    /** The cache holds the most recent reports. */
    ghost predicate Valid()
      reads this
    {
      mNetworkInfo == Recent(Log(events))
    }

    constructor ()
      ensures Valid() && events == []
    {
      mNetworkInfo, events := [], [];
    }

    /** Whether the event is news is returned. */
    method SetItemInReport(e: Event) returns (changed: bool)
      requires Valid()
      modifies this
      ensures Valid() && events == old(events) + [e]
      ensures changed <==> |Log(events)| > |Log(old(events))|
      ensures Cached(old(mNetworkInfo), e, changed, mNetworkInfo)
    {
      assert (events + [e])[..|events|] == events;
      ghost var was := mNetworkInfo;
      changed := Remember(e);
      CachedIsRecent(Log(events), e, was, changed, mNetworkInfo);
      events := events + [e];
    }

    method Remember(e: Event) returns (changed: bool)
      modifies this`mNetworkInfo
      ensures Cached(old(mNetworkInfo), e, changed, mNetworkInfo)
    {
      var report, same := ReportOf(e);
      if same {
        mNetworkInfo := mNetworkInfo[|mNetworkInfo| - 1 := mNetworkInfo[|mNetworkInfo| - 1].(reported := e.time)];
        return false;
      }
      mNetworkInfo := mNetworkInfo + [report];
      if |mNetworkInfo| > MAX_ITEM {
        mNetworkInfo := mNetworkInfo[1..];
      }
      return true;
    }

    /** The event, collated with the last report if there is one, and whether it equals that
        report but for the time stamp. */
    method ReportOf(e: Event) returns (report: Report, same: bool)
      ensures mNetworkInfo == [] ==> !same && report == Report(FirstTable(e), e.connected, e.apn, e.time)
      ensures mNetworkInfo != [] ==>
        var cur := Last(mNetworkInfo);
        report == Next(cur, e) && (same <==> report.(reported := cur.reported) == cur)
    {
      var s := new SystemStatusNetworkInfo(e);
      same := false;
      if mNetworkInfo != [] {
        var back := mNetworkInfo[|mNetworkInfo| - 1];
        s.Collate(back);
        same := s.Equals(back);
      }
      report := Report(s.mAllNetworkHandles[..], s.mConnected, s.mApn, e.time);
    }
  }

  // ---------- what the table means ----------

  lemma {:induction false} PairsCount(t: seq<Entry>, n: nat)
    requires n <= |t| && forall i, j | 0 <= i < j < n :: t[i] != t[j]
    ensures |set i | 0 <= i < n :: t[i]| == n
  {
    if n > 0 {
      PairsCount(t, n - 1);
      assert (set i | 0 <= i < n :: t[i]) == (set i | 0 <= i < n - 1 :: t[i]) + {t[n - 1]};
    }
  }

  lemma ListsAt(t: seq<Entry>, h: Handle)
    ensures Lists(Pairs(t), h) <==> exists i | 0 <= i < Used(t) :: t[i].networkHandle == h
  {
    if i :| 0 <= i < Used(t) && t[i].networkHandle == h {
      assert t[i] in Pairs(t);
    }
  }

  lemma ConnectedPairs(t: Table, e: Event)
    requires Compact(t) && e.connected
    ensures Compact(Connected(t, e.Pair())) && Pairs(Connected(t, e.Pair())) == Collect(Pairs(t), e)
  {
    assert |Pairs(t)| == Used(t) by {
      PairsCount(t, Used(t));
    }
    ListsAt(t, e.networkHandle);
    if e.networkHandle != UNKNOWN && !Lists(Pairs(t), e.networkHandle) && Used(t) < |t| {
      FilledPairs(t, e.Pair());
    }
  }

  lemma FilledPairs(t: seq<Entry>, p: Entry)
    requires Used(t) < |t| && p.networkHandle != UNKNOWN && Compact(t)
    requires forall i | 0 <= i < Used(t) :: t[i].networkHandle != p.networkHandle
    ensures Compact(t[Used(t) := p])
    ensures Pairs(t[Used(t) := p]) == Pairs(t) + {p}
  {
    var n := Used(t);
    var t' := t[n := p];
    UsedIs(t', n + 1);
    forall q | q in Pairs(t) + {p} ensures q in Pairs(t') {
      if q == p {
        assert t'[n] == q;
      } else {
        var i :| 0 <= i < n && t[i] == q;
        assert t'[i] == q;
      }
    }
  }

  lemma DisconnectedPairs(t: Table, p: Entry)
    requires Compact(t)
    ensures Compact(Disconnected(t, p)) && Pairs(Disconnected(t, p)) == Pairs(t) - {p}
  {
    var n, t' := Used(t), Disconnected(t, p);
    var i := LastOf(t[..n], p);
    if i < 0 {
      assert forall j | 0 <= j < n :: t[j] == t[..n][j];
    } else {
      assert t[i] == p;
      UsedIs(t', n - 1);
      forall q | q in Pairs(t) - {p} ensures q in Pairs(t') {
        var j :| 0 <= j < n && t[j] == q;
        assert t'[if j == n - 1 then i else j] == q;
      }
    }
  }

  /** A gap-free table without duplicates stays one, and its pairs change as the event says. */
  lemma CollatedPairs(t: Table, e: Event)
    requires Compact(t)
    ensures var t' := Collated(t, e.connected, e.Pair());
            Compact(t') && Pairs(t') == Collect(Pairs(t), e)
  {
    if e.connected {
      ConnectedPairs(t, e);
    } else {
      DisconnectedPairs(t, e.Pair());
    }
  }

  lemma FirstPairs(e: Event)
    ensures Compact(FirstTable(e))
    ensures Pairs(FirstTable(e)) == if e.networkHandle == UNKNOWN then {} else {e.Pair()}
  {
    var t := FirstTable(e);
    if e.networkHandle == UNKNOWN {
      UsedIs(t, 0);
    } else {
      UsedIs(t, 1);
      assert t[0] == e.Pair();
    }
  }

  /** The pairs after a run of events: the first one counts as a connection, whatever it is. */
  function Listed(es: seq<Event>): set<Entry>
    requires es != []
  {
    var n := |es| - 1;
    if n == 0 then (if es[0].networkHandle == UNKNOWN then {} else {es[0].Pair()})
    else Collect(Listed(es[..n]), es[n])
  }

  /** In every run the last report's table is gap-free, without duplicates, and holds exactly
      the pairs the events add up to, whether or not the last event was news. */
  lemma {:induction false} TableRun(es: seq<Event>)
    requires es != []
    ensures Compact(Last(Log(es)).table) && Pairs(Last(Log(es)).table) == Listed(es)
  {
    if |es| == 1 {
      FirstPairs(es[0]);
    } else {
      var n := |es| - 1;
      TableRun(es[..n]);
      CollatedPairs(Last(Log(es[..n])).table, es[n]);
      LogStep(es);
    }
  }

  lemma LogStep(es: seq<Event>)
    requires |es| > 1
    ensures Last(Log(es)).table ==
      var e := es[|es| - 1];
      Collated(Last(Log(es[..|es| - 1])).table, e.connected, e.Pair())
  {
  }

  // ---------- the networks that are connected ----------

  /** Connecting adds the pair and disconnecting removes it, whatever the table can hold. */
  function UpStep(up: set<Entry>, e: Event): set<Entry> {
    if e.connected then up + {e.Pair()} else up - {e.Pair()}
  }

  /** The networks that are connected after a run of events. */
  function Online(es: seq<Event>): set<Entry> {
    if es == [] then {} else UpStep(Online(es[..|es| - 1]), es[|es| - 1])
  }

  /** What an event must be for a table that lists the connected networks `up` to follow it.
      A connection that is not just repeated needs a known handle, not listed under any type,
      and a free slot; a disconnection of a listed network needs a type with a mask bit. */
  predicate Follows(up: set<Entry>, e: Event) {
    if e.connected then
      e.Pair() in up
      || (e.networkHandle != UNKNOWN && !Lists(up, e.networkHandle) && |up| < MAX_NETWORK_HANDLES)
    else KnownType(e.networkType) || e.Pair() !in up
  }

  /** The first event goes into the table as it comes. */
  predicate StartsWell(e: Event) {
    e.connected <==> e.networkHandle != UNKNOWN
  }

  predicate AllFollow(es: seq<Event>) {
    es == [] ||
      var n := |es| - 1;
      AllFollow(es[..n]) && if n == 0 then StartsWell(es[0]) else Follows(Online(es[..n]), es[n])
  }

  /** After every event so far, the last report's table listed exactly the connected networks. */
  ghost predicate TableOnlineThroughout(es: seq<Event>) {
    es == [] || (TableOnlineThroughout(es[..|es| - 1]) && Pairs(Last(Log(es)).table) == Online(es))
  }

  lemma FollowsIff(up: set<Entry>, e: Event)
    ensures Collect(up, e) == UpStep(up, e) <==> Follows(up, e)
  {
    if e.connected {
      assert e.Pair() in UpStep(up, e);
    } else if e.Pair() in up {
      assert e.Pair() !in UpStep(up, e);
    }
  }

  lemma StartsWellIff(e: Event)
    ensures Listed([e]) == Online([e]) <==> StartsWell(e)
  {
    assert [e][..0] == [];
    assert Online([e]) == UpStep({}, e);
    if e.connected {
      assert e.Pair() in Online([e]);
    } else if e.networkHandle != UNKNOWN {
      assert e.Pair() in Listed([e]);
    }
  }

  /** Over any run, the table lists exactly the connected networks after every event if and
      only if every event is one that the table can follow. */
  lemma {:induction false} ListedIsOnline(es: seq<Event>)
    ensures TableOnlineThroughout(es) <==> AllFollow(es)
  {
    if es != [] {
      var n := |es| - 1;
      ListedIsOnline(es[..n]);
      TableRun(es);
      if n == 0 {
        assert es == [es[0]];
        StartsWellIff(es[0]);
      } else if TableOnlineThroughout(es[..n]) {
        TableRun(es[..n]);
        FollowsIff(Online(es[..n]), es[n]);
      }
    }
  }

  /** A network of a type without a mask bit connects and disconnects, and stays listed. */
  lemma UnmaskedStaysListed(on: Event, off: Event)
    requires on.connected && !off.connected && on.Pair() == off.Pair()
    requires on.networkHandle != UNKNOWN && !KnownType(on.networkType)
    ensures on.Pair() in Pairs(Last(Log([on, off])).table) && on.Pair() !in Online([on, off])
  {
    TwoEvents(on, off);
  }

  /** A network that comes back under another type stays listed under the old one alone. */
  lemma RetypedIsMissed(first: Event, again: Event)
    requires first.connected && again.connected && first.networkHandle == again.networkHandle != UNKNOWN
    requires first.networkType != again.networkType
    ensures again.Pair() !in Pairs(Last(Log([first, again])).table) && again.Pair() in Online([first, again])
  {
    TwoEvents(first, again);
    assert first.Pair() in Listed([first]);
  }

  lemma TwoEvents(e1: Event, e2: Event)
    requires StartsWell(e1) && e1.connected
    ensures Pairs(Last(Log([e1, e2])).table) == Collect({e1.Pair()}, e2)
    ensures Listed([e1]) == {e1.Pair()} && Online([e1, e2]) == UpStep({e1.Pair()}, e2)
  {
    assert [e1, e2][..1] == [e1] && [e1][..0] == [];
    TableRun([e1, e2]);
    assert Online([e1]) == UpStep({}, e1);
  }
}
