/** What each event of the AGPS state machine means for the people on its list and for the
    framework: who hears what, who stays, and when a command goes out. */
module AgpsEvents {
  import opened AgpsMachine
  import opened AgpsNetwork

  /** What one client has asked and been told, in order. */
  function Heard(log: seq<Entry>, handle: int): seq<Entry> {
    if log == [] then []
    else (if log[0].handle == handle then [log[0]] else []) + Heard(log[1..], handle)
  }

  lemma {:induction false} HeardConcat(a: seq<Entry>, b: seq<Entry>, handle: int)
    ensures Heard(a + b, handle) == Heard(a, handle) + Heard(b, handle)
  {
    if a == [] {
      assert a + b == b;
    } else {
      assert (a + b)[1..] == a[1..] + b;
      HeardConcat(a[1..], b, handle);
      Assoc(if a[0].handle == handle then [a[0]] else [], Heard(a[1..], handle), Heard(b, handle));
    }
  }

  lemma HeardOne(log: seq<Entry>, e: Entry, handle: int)
    ensures Heard(log + [e], handle) == Heard(log, handle) + if e.handle == handle then [e] else []
  {
    HeardConcat(log, [e], handle);
    assert [e][1..] == [];
  }

  /** A round of callbacks is heard once by each subscriber it is for, and by nobody else. */
  lemma {:induction false} HeardRound(subs: seq<Subscriber>, event: Event, handle: int)
    requires Distinct(subs) && event != SubscribeEvent
    ensures Heard(Callbacks(subs, event), handle) == if Listed(subs, handle) then Callback(event, handle) else []
  {
    if subs != [] {
      assert subs == [subs[0]] + subs[1..];
      HeadUnlisted(subs);
      HeardRound(subs[1..], event, handle);
      HeardConcat(Callback(event, subs[0].handle), Callbacks(subs[1..], event), handle);
      var e := Callback(event, subs[0].handle)[0];
      assert Callback(event, subs[0].handle) == [] + [e] && Heard([], handle) == [];
      HeardOne([], e, handle);
    }
  }

  lemma HeardNotification(m: Machine, event: Event, deletePost: bool, kind: NotificationType, handle: int)
    requires Distinct(m.subs) && event != SubscribeEvent
    ensures Heard(NotifyAll(m, event, deletePost, kind).log, handle)
         == Heard(m.log, handle)
            + if exists s <- m.subs :: s.handle == handle && Matches(s, kind) then Callback(event, handle) else []
  {
    SelectSkip(m.subs, kind);
    SelectSkipDistinct(m.subs, kind);
    HeardConcat(m.log, Callbacks(Select(m.subs, kind), event), handle);
    HeardRound(Select(m.subs, kind), event, handle);
  }

  /** Whether this client is on the list, and active there or not. */
  predicate ListedAs(subs: seq<Subscriber>, handle: int, inactive: bool) {
    exists s <- subs :: s.handle == handle && s.isInactive == inactive
  }

  lemma ListedOnce(subs: seq<Subscriber>, handle: int)
    requires Distinct(subs)
    ensures Listed(subs, handle) <==> ListedAs(subs, handle, true) || ListedAs(subs, handle, false)
    ensures !(ListedAs(subs, handle, true) && ListedAs(subs, handle, false))
  {
    SameSubscriber(subs, handle);
  }

  // ---------- replies ----------

  /** A grant matters to a pending machine only: the connection is there, every active
      subscriber hears of it once, nobody else does, and the list and the commands stay. */
  lemma GrantTellsActive(m: Machine, handle: int)
    requires Distinct(m.subs)
    ensures var m' := Granted(m);
            if m.state != Pending then m' == m
            else
              && m'.state == Acquired && m'.subs == m.subs && m'.commands == m.commands
              && Heard(m'.log, handle)
                 == Heard(m.log, handle) + if ListedAs(m.subs, handle, false) then [Opened(handle)] else []
  {
    HeardNotification(m.(state := Acquired), GrantedEvent, false, ActiveSubscribers, handle);
  }

  /** A denial of a pending request: everybody hears that the opening failed, and goes. */
  lemma DenialFailsAll(m: Machine, handle: int)
    requires Distinct(m.subs) && m.state != Releasing
    ensures var m' := Denied(m);
            if m.state != Pending then m' == m
            else
              && m'.state == Released && m'.subs == [] && m'.commands == m.commands
              && Heard(m'.log, handle)
                 == Heard(m.log, handle) + if Listed(m.subs, handle) then [OpenFailed(handle)] else []
  {
    SkipAll(m.subs);
    HeardNotification(m.(state := Released), DeniedEvent, true, AllSubscribers, handle);
  }

  /** The connection is lost: everybody hears of the close, and goes. */
  lemma LossClosesAll(m: Machine, handle: int)
    requires Distinct(m.subs) && m.state != Releasing
    ensures var m' := ConnReleased(m);
            if m.state != Acquired then m' == m
            else
              && m'.state == Released && m'.subs == [] && m'.commands == m.commands
              && Heard(m'.log, handle)
                 == Heard(m.log, handle) + if Listed(m.subs, handle) then [Closed(handle)] else []
  {
    SkipAll(m.subs);
    HeardNotification(m.(state := Released), ReleasedEvent, true, AllSubscribers, handle);
  }

  /** A release that is over, whether by a close or a failure: exactly those who were leaving
      hear of the close and go; the others stay as they are, and a new request goes out for
      them, if there are any. */
  lemma ReleaseOver(m: Machine, reply: Reply, handle: int)
    requires Distinct(m.subs) && m.state == Releasing && reply != OpenReply
    ensures var m' := Processed(m, reply);
            && (forall s :: s in m'.subs <==> s in m.subs && !s.isInactive)
            && Heard(m'.log, handle)
               == Heard(m.log, handle) + (if ListedAs(m.subs, handle, true) then [Closed(handle)] else [])
            && if exists s <- m.subs :: !s.isInactive
               then m'.state == Pending && m'.commands == m.commands + [RequestConn]
               else m'.state == Released && m'.commands == m.commands
  {
    SelectSkip(m.subs, InactiveSubscribers);
    HeardNotification(m, ReleasedEvent, true, InactiveSubscribers, handle);
    var rest := Skip(m.subs, InactiveSubscribers);
    assert AnyActive(rest) <==> exists s <- m.subs :: !s.isInactive;
  }

  // ---------- clients ----------

  /** A request by somebody not on the list: he is listed as active behind the others, a
      released machine sends a request, and an acquired one tells him of the opening. */
  lemma RequestEnters(n: Net, e: Happening)
    requires Sound(n) && e.RequestAtl? && !Listed(n.m.subs, e.handle)
    ensures var m' := Step(n, e).m;
            && m'.subs == n.m.subs + [Subscriber(e.handle, e.waitForClose, false)]
            && m'.log == n.m.log + [Requested(e.handle)] + (if n.m.state == Acquired then [Opened(e.handle)] else [])
            && (if n.m.state == Released
                then m'.state == Pending && m'.commands == n.m.commands + [RequestConn]
                else m'.state == n.m.state && m'.commands == n.m.commands)
  {
  }

  /** A request by somebody on the list, or a release by somebody not on it: the list, the state
      and the commands stay, and at most an acquired machine tells of an opening. */
  lemma NothingToDo(n: Net, e: Happening)
    requires Sound(n)
    requires (e.RequestAtl? && Listed(n.m.subs, e.handle)) || (e.ReleaseAtl? && !Listed(n.m.subs, e.handle))
    ensures var told := if e.ReleaseAtl? then []
                        else [Requested(e.handle)] + if n.m.state == Acquired then [Opened(e.handle)] else [];
            Step(n, e) == n.(m := n.m.(log := n.m.log + told))
  {
    SendsNothing(n, e);
    assert n.m.log + [Requested(e.handle)] + [Opened(e.handle)] == n.m.log + [Requested(e.handle), Opened(e.handle)];
    assert n.m.log + [] == n.m.log;
  }

  /** The others on the list are as they were. */
  ghost predicate OthersStay(was: seq<Subscriber>, now: seq<Subscriber>, handle: int) {
    forall s: Subscriber :: s.handle != handle ==> (s in now <==> s in was)
  }

  /** Somebody leaves.  If he is to wait for the close he stays, inactive, and hears nothing;
      otherwise he hears of the close and goes.  The others are as they were. */
  lemma LeavingAffectsOne(n: Net, e: Happening, s: Subscriber, handle: int)
    requires Sound(n) && e.ReleaseAtl? && s in n.m.subs && s.handle == e.handle
    ensures var m' := Step(n, e).m;
            && OthersStay(n.m.subs, m'.subs, s.handle)
            && (forall x <- m'.subs :: x.handle == s.handle ==> s.waitForClose && x == s.(isInactive := true))
            && (s.waitForClose ==> s.(isInactive := true) in m'.subs)
            && Heard(m'.log, handle)
               == Heard(n.m.log, handle)
                  + if handle == s.handle && !s.waitForClose then [Closed(s.handle)] else []
  {
    var i := IndexOf(n.m.subs, e.handle);
    SameSubscriber(n.m.subs, s.handle);
    assert n.m.subs[i] in n.m.subs && n.m.subs[i] == s;
    LeaveAffectsOne(n.m, i);
    HeardOne(n.m.log, Closed(s.handle), handle);
    assert Unsubscribe(n.m, i).subs == Leave(n.m, i).subs && Unsubscribe(n.m, i).log == Leave(n.m, i).log;
  }

  lemma LeaveAffectsOne(m: Machine, i: nat)
    requires i < |m.subs| && Distinct(m.subs)
    ensures var s, m' := m.subs[i], Leave(m, i);
            && OthersStay(m.subs, m'.subs, s.handle)
            && (forall x <- m'.subs :: x.handle == s.handle ==> s.waitForClose && x == s.(isInactive := true))
            && (s.waitForClose ==> s.(isInactive := true) in m'.subs)
            && m'.log == m.log + if s.waitForClose then [] else [Closed(s.handle)]
  {
    var s, m' := m.subs[i], Leave(m, i);
    if s.waitForClose {
      assert m'.subs[i] == s.(isInactive := true);
      forall x: Subscriber | x.handle != s.handle && x in m.subs
        ensures x in m'.subs
      {
        var j :| 0 <= j < |m.subs| && m.subs[j] == x;
        assert m'.subs[j] == x;
      }
    } else {
      WithoutFacts(m.subs, s.handle);
    }
  }

  /** Whether anybody else on the list is active. */
  predicate OthersActive(subs: seq<Subscriber>, handle: int) {
    exists s <- subs :: s.handle != handle && !s.isInactive
  }

  /** Somebody leaves a machine that has, or waits for, a connection: it is given up exactly
      if nobody else is active; otherwise the machine goes on as it was.  A machine that is
      giving up already sends nothing more. */
  lemma LeavingDecides(n: Net, e: Happening, s: Subscriber)
    requires Sound(n) && e.ReleaseAtl? && s in n.m.subs && s.handle == e.handle
    ensures var m' := Step(n, e).m;
            if n.m.state == Releasing then
              m'.commands == n.m.commands && m'.state == if m'.subs == [] then Released else Releasing
            else if OthersActive(n.m.subs, s.handle) then
              m'.state == n.m.state && m'.commands == n.m.commands
            else
              m'.commands == n.m.commands + [ReleaseConn] && m'.state == if m'.subs == [] then Released else Releasing
  {
    LeavingAffectsOne(n, e, s, s.handle);
    var i := IndexOf(n.m.subs, e.handle);
    var m' := Leave(n.m, i);
    assert Step(n, e).m.subs == m'.subs;
    assert AnyActive(m'.subs) <==> OthersActive(n.m.subs, s.handle) by {
      if x :| x in m'.subs && !x.isInactive {
        assert x.handle != s.handle && x in n.m.subs;
      }
      if x :| x in n.m.subs && x.handle != s.handle && !x.isInactive {
        assert x in m'.subs;
      }
    }
  }

  /** A modem restart: nobody is left, nobody is told, and the machine does not move. */
  lemma RestartDropsAll(n: Net, handle: int)
    requires Distinct(n.m.subs)
    ensures var n' := Step(n, ModemSsr);
            && n'.m.subs == [] && n'.m.state == n.m.state && n'.m.commands == n.m.commands && n'.replies == n.replies
            && Heard(n'.m.log, handle)
               == Heard(n.m.log, handle) + if Listed(n.m.subs, handle) then [Dropped(handle)] else []
  {
    HeardConcat(n.m.log, Drops(n.m.subs), handle);
    HeardDrops(n.m.subs, handle);
    SendsNothing(n, ModemSsr);
  }

  lemma {:induction false} HeardDrops(subs: seq<Subscriber>, handle: int)
    requires Distinct(subs)
    ensures Heard(Drops(subs), handle) == if Listed(subs, handle) then [Dropped(handle)] else []
  {
    if subs != [] {
      assert subs == [subs[0]] + subs[1..];
      HeadUnlisted(subs);
      HeardDrops(subs[1..], handle);
      HeardConcat([Dropped(subs[0].handle)], Drops(subs[1..]), handle);
      HeardOne([], Dropped(subs[0].handle), handle);
      assert [] + [Dropped(subs[0].handle)] == [Dropped(subs[0].handle)];
    }
  }
}
