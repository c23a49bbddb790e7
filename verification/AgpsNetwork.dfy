/** The AGPS state machine together with the framework that answers it: NativeAgpsHandler
    turns every command into one reply, and replies wait in the adapter's message queue
    until the state machine processes them. */
module AgpsNetwork {
  import opened AgpsMachine

  datatype Reply = OpenReply | FailedReply | ClosedReply

  /** How the native handler answers a command, given whether mobile data is up. */
  function Answer(command: Command, connected: bool): Reply {
    match command
    case RequestConn => if connected then OpenReply else FailedReply
    case ReleaseConn => ClosedReply
  }

  /** The state machine and the replies it has not processed yet, oldest first. */
  datatype Net = Net(m: Machine, replies: seq<Reply>)

  /** Everything that can happen next.  `connected` is what the native handler knows of
      the mobile network when a command reaches it, which can be anything each time. */
  datatype Happening =
    | RequestAtl(handle: int, waitForClose: bool, connected: bool)
    | ReleaseAtl(handle: int, connected: bool)
    | Deliver(connected: bool)
    | ModemSsr

  function IndexOf(subs: seq<Subscriber>, handle: int): (i: nat)
    ensures i <= |subs|
    ensures i == |subs| <==> !Listed(subs, handle)
    ensures i < |subs| ==> subs[i].handle == handle
    ensures forall j | 0 <= j < i :: subs[j].handle != handle
  {
    if subs == [] then 0
    else if subs[0].handle == handle then 0
    else
      assert subs == [subs[0]] + subs[1..];
      1 + IndexOf(subs[1..], handle)
  }

  function Processed(m: Machine, reply: Reply): Machine {
    match reply
    case OpenReply => Granted(m)
    case FailedReply => Denied(m)
    case ClosedReply => ConnReleased(m)
  }

  /** The state machine's part of a happening; a delivery needs a waiting reply. */
  function React(n: Net, e: Happening): Machine {
    match e
    case RequestAtl(handle, wait, _) =>
      Subscribe(n.m.(log := n.m.log + [Requested(handle)]), Subscriber(handle, wait, false))
    case ReleaseAtl(handle, _) =>
      var i := IndexOf(n.m.subs, handle);
      if i == |n.m.subs| then n.m else Unsubscribe(n.m, i)
    case Deliver(_) =>
      if n.replies == [] then n.m else Processed(n.m, n.replies[0])
    case ModemSsr => DropAll(n.m)
  }

  function Answers(commands: seq<Command>, connected: bool): seq<Reply> {
    seq(|commands|, i requires 0 <= i < |commands| => Answer(commands[i], connected))
  }

  /** The replies that go on waiting. */
  function StillQueued(n: Net, e: Happening): seq<Reply> {
    if e.Deliver? && n.replies != [] then n.replies[1..] else n.replies
  }

  function Step(n: Net, e: Happening): Net {
    var m := React(n, e);
    var connected := if e.ModemSsr? then false else e.connected;
    var sent := if |n.m.commands| <= |m.commands| then m.commands[|n.m.commands|..] else [];
    Net(m, StillQueued(n, e) + Answers(sent, connected))
  }

  function Run(n: Net, es: seq<Happening>): Net
    decreases |es|
  {
    if es == [] then n else Run(Step(n, es[0]), es[1..])
  }

  const IDLE := Net(START, [])

  // ---------- what every run keeps ----------

  ghost predicate Distinct(subs: seq<Subscriber>) {
    forall i, j | 0 <= i < j < |subs| :: subs[i].handle != subs[j].handle
  }

  /** RELEASE is never the first command and never follows another RELEASE. */
  ghost predicate GoodCommands(commands: seq<Command>) {
    forall i | 0 <= i < |commands| :: commands[i] == ReleaseConn ==> i > 0 && commands[i - 1] == RequestConn
  }

  predicate EndsIn<T(==)>(s: seq<T>, t: T) {
    s != [] && s[|s| - 1] == t
  }

  ghost predicate Sound(n: Net) {
    && Distinct(n.m.subs)
    && GoodCommands(n.m.commands)
    && match n.m.state
       case Released => n.m.subs == []
       case Pending =>
         && (n.m.subs == [] || AnyActive(n.m.subs))
         && EndsIn(n.m.commands, RequestConn)
         && (EndsIn(n.replies, OpenReply) || EndsIn(n.replies, FailedReply))
       case Acquired =>
         && (n.m.subs == [] || AnyActive(n.m.subs))
         && EndsIn(n.m.commands, RequestConn)
       case Releasing => EndsIn(n.replies, ClosedReply)
  }

  // ---------- facts about subscriber lists ----------

  lemma ConsDistinct(s: Subscriber, rest: seq<Subscriber>)
    requires Distinct(rest) && !Listed(rest, s.handle)
    ensures Distinct([s] + rest)
  {
    forall j | 0 < j < |rest| + 1
      ensures ([s] + rest)[j].handle != s.handle
    {
      assert ([s] + rest)[j] == rest[j - 1] && rest[j - 1] in rest;
    }
  }

  lemma HeadUnlisted(subs: seq<Subscriber>)
    requires subs != [] && Distinct(subs)
    ensures !Listed(subs[1..], subs[0].handle) && Distinct(subs[1..])
  {
  }

  lemma {:induction false} SelectSkip(subs: seq<Subscriber>, kind: NotificationType)
    ensures forall s :: s in Select(subs, kind) <==> s in subs && Matches(s, kind)
    ensures forall s :: s in Skip(subs, kind) <==> s in subs && !Matches(s, kind)
  {
    if subs != [] {
      assert subs == [subs[0]] + subs[1..];
      SelectSkip(subs[1..], kind);
    }
  }

  lemma {:induction false} SelectSkipDistinct(subs: seq<Subscriber>, kind: NotificationType)
    requires Distinct(subs)
    ensures Distinct(Select(subs, kind)) && Distinct(Skip(subs, kind))
  {
    if subs != [] {
      HeadUnlisted(subs);
      SelectSkip(subs[1..], kind);
      SelectSkipDistinct(subs[1..], kind);
      if Matches(subs[0], kind) {
        ConsDistinct(subs[0], Select(subs[1..], kind));
      } else {
        ConsDistinct(subs[0], Skip(subs[1..], kind));
      }
    }
  }

  lemma {:induction false} WithoutFacts(subs: seq<Subscriber>, handle: int)
    requires Distinct(subs)
    ensures forall s :: s in Without(subs, handle) <==> s in subs && s.handle != handle
    ensures Distinct(Without(subs, handle))
  {
    if subs != [] {
      assert subs == [subs[0]] + subs[1..];
      HeadUnlisted(subs);
      WithoutFacts(subs[1..], handle);
      if subs[0].handle != handle {
        ConsDistinct(subs[0], Without(subs[1..], handle));
      }
    }
  }

  lemma LeaveFacts(m: Machine, i: nat)
    requires i < |m.subs| && Distinct(m.subs)
    ensures var m' := Leave(m, i);
            && Distinct(m'.subs) && m'.commands == m.commands && m'.state == m.state
            && (m.subs[i].waitForClose ==> m'.subs != [])
  {
    WithoutFacts(m.subs, m.subs[i].handle);
  }

  // ---------- the state invariant ----------

  /** Settling leaves only active subscribers, and a new request if there are any. */
  lemma SettleSends(m: Machine)
    requires Distinct(m.subs)
    ensures var m' := Settle(m);
            && Distinct(m'.subs)
            && if m'.subs == [] then m'.state == Released && m'.commands == m.commands
               else m'.state == Pending && AnyActive(m'.subs) && m'.commands == m.commands + [RequestConn]
  {
    SelectSkip(m.subs, InactiveSubscribers);
    SelectSkipDistinct(m.subs, InactiveSubscribers);
    var r := Skip(m.subs, InactiveSubscribers);
    if r != [] {
      assert r[0] in r && !r[0].isInactive;
    }
  }

  lemma SendsNothing(n: Net, e: Happening)
    requires React(n, e).commands == n.m.commands
    ensures Step(n, e) == Net(React(n, e), StillQueued(n, e))
  {
  }

  lemma SendsOne(n: Net, e: Happening, c: Command)
    requires React(n, e).commands == n.m.commands + [c] && !e.ModemSsr?
    ensures Step(n, e) == Net(React(n, e), StillQueued(n, e) + [Answer(c, e.connected)])
  {
    assert React(n, e).commands[|n.m.commands|..] == [c];
  }

  lemma GoodSend(commands: seq<Command>, c: Command)
    requires GoodCommands(commands) && (c == ReleaseConn ==> EndsIn(commands, RequestConn))
    ensures GoodCommands(commands + [c])
  {
  }

  /** A subscription sends a request exactly when it finds the machine released. */
  lemma SubscribeSends(m: Machine, s: Subscriber)
    requires Distinct(m.subs) && !s.isInactive
    ensures var m' := Subscribe(m, s);
            && Distinct(m'.subs)
            && (m.subs == [] || AnyActive(m.subs) ==> AnyActive(m'.subs))
            && m'.state == (if m.state == Released then Pending else m.state)
            && m'.commands == if m.state == Released then m.commands + [RequestConn] else m.commands
  {
    if !Listed(m.subs, s.handle) {
      assert s in m.subs + [s];
      forall i | 0 <= i < |m.subs|
        ensures m.subs[i].handle != s.handle
      {
        assert m.subs[i] in m.subs;
      }
      if AnyActive(m.subs) {
        var x :| x in m.subs && !x.isInactive;
        assert x in m.subs + [s];
      }
    }
  }

  lemma SoundRequest(n: Net, e: Happening)
    requires Sound(n) && e.RequestAtl?
    ensures Sound(Step(n, e))
  {
    SubscribeSends(n.m.(log := n.m.log + [Requested(e.handle)]), Subscriber(e.handle, e.waitForClose, false));
    if n.m.state == Released {
      SendsOne(n, e, RequestConn);
      GoodSend(n.m.commands, RequestConn);
    } else {
      SendsNothing(n, e);
    }
  }

  /** An unsubscription either sends nothing or ends by sending RELEASE. */
  lemma UnsubscribeSends(m: Machine, i: nat)
    requires Distinct(m.subs) && i < |m.subs| && m.state != Released
    ensures var m' := Unsubscribe(m, i);
            && Distinct(m'.subs)
            && (m'.state == Released ==> m'.subs == [])
            && ((m'.state == Pending || m'.state == Acquired) ==> m'.state == m.state && AnyActive(m'.subs))
            && if m.state != Releasing && (m'.state == Released || m'.state == Releasing)
               then m'.commands == m.commands + [ReleaseConn]
               else m'.commands == m.commands && (m'.state == m.state || m'.state == Released)
  {
    LeaveFacts(m, i);
  }

  lemma SoundRelease(n: Net, e: Happening)
    requires Sound(n) && e.ReleaseAtl?
    ensures Sound(Step(n, e))
  {
    var i := IndexOf(n.m.subs, e.handle);
    if i < |n.m.subs| && n.m.state != Released {
      UnsubscribeSends(n.m, i);
      if React(n, e).commands == n.m.commands {
        SendsNothing(n, e);
      } else {
        SendsOne(n, e, ReleaseConn);
        GoodSend(n.m.commands, ReleaseConn);
      }
    } else {
      SendsNothing(n, e);
    }
  }

  /** A reply sends nothing, except that settling may send a new request. */
  lemma ProcessedSends(m: Machine, reply: Reply)
    requires Distinct(m.subs) && (m.state == Released ==> m.subs == [])
    requires (m.state == Pending || m.state == Acquired) ==> m.subs == [] || AnyActive(m.subs)
    ensures var m' := Processed(m, reply);
            && Distinct(m'.subs)
            && (m'.state == Released ==> m'.subs == [])
            && ((m'.state == Pending || m'.state == Acquired) ==> m'.subs == [] || AnyActive(m'.subs))
            && if m.state == Releasing && m'.state == Pending
               then m'.commands == m.commands + [RequestConn]
               else m'.commands == m.commands
    ensures var m' := Processed(m, reply);
            match m'.state
            case Released => true
            case Pending => (m.state == Releasing && reply != OpenReply) || (m.state == Pending && reply == ClosedReply)
            case Acquired => m.state == Acquired || (m.state == Pending && reply == OpenReply)
            case Releasing => m.state == Releasing && reply == OpenReply
  {
    SettleSends(m);
    SkipAll(m.subs);
  }

  lemma {:induction false} SkipAll(subs: seq<Subscriber>)
    ensures Skip(subs, AllSubscribers) == []
  {
    if subs != [] {
      SkipAll(subs[1..]);
    }
  }

  lemma SoundDeliver(n: Net, e: Happening)
    requires Sound(n) && e.Deliver? && n.replies != []
    ensures Sound(Step(n, e))
  {
    ProcessedSends(n.m, n.replies[0]);
    if React(n, e).commands == n.m.commands {
      SendsNothing(n, e);
    } else {
      SendsOne(n, e, RequestConn);
      GoodSend(n.m.commands, RequestConn);
    }
  }

  lemma SoundStep(n: Net, e: Happening)
    requires Sound(n)
    ensures Sound(Step(n, e))
  {
    match e
    case RequestAtl(_, _, _) => SoundRequest(n, e);
    case ReleaseAtl(_, _) => SoundRelease(n, e);
    case Deliver(_) =>
      if n.replies != [] {
        SoundDeliver(n, e);
      }
    case ModemSsr =>
  }

  lemma {:induction false} SoundRun(n: Net, es: seq<Happening>)
    requires Sound(n)
    ensures Sound(Run(n, es))
    decreases |es|
  {
    if es != [] {
      SoundStep(n, es[0]);
      SoundRun(Step(n, es[0]), es[1..]);
    }
  }

  lemma PeopledStep(n: Net, e: Happening)
    requires Sound(n) && (n.m.state != Released ==> n.m.subs != []) && !e.ModemSsr?
    ensures var m' := Step(n, e).m; m'.state != Released ==> m'.subs != []
  {
    match e
    case RequestAtl(_, _, _) =>
    case ReleaseAtl(handle, _) =>
      var i := IndexOf(n.m.subs, handle);
      if i < |n.m.subs| {
        LeaveFacts(n.m, i);
      }
    case Deliver(_) =>
      SettleSends(n.m);
  }

  /** Unless the modem restarts, somebody is listed in every state but RELEASED. */
  lemma {:induction false} NobodyOnlyAfterSsr(n: Net, es: seq<Happening>)
    requires Sound(n) && (n.m.state != Released ==> n.m.subs != [])
    requires forall e <- es :: !e.ModemSsr?
    ensures Run(n, es).m.state == Released <==> Run(n, es).m.subs == []
    decreases |es|
  {
    if es != [] {
      SoundStep(n, es[0]);
      PeopledStep(n, es[0]);
      NobodyOnlyAfterSsr(Step(n, es[0]), es[1..]);
    }
  }

  // ---------- draining the mailbox ----------

  function Pendings(n: Net): nat {
    |n.replies| + if n.m.state == Releasing then 1 else 0
  }

  function Deliveries(es: seq<Happening>): nat {
    if es == [] then 0 else (if es[0].Deliver? then 1 else 0) + Deliveries(es[1..])
  }

  lemma DeliveryShrinks(n: Net, connected: bool)
    requires n.replies != []
    ensures Pendings(Step(n, Deliver(connected))) < Pendings(n)
  {
    var m' := React(n, Deliver(connected));
    assert |m'.commands| - |n.m.commands| <= if n.m.state == Releasing && m'.state == Pending then 1 else 0;
  }

  /** Without client calls the mailbox runs empty after at most |replies| + 1 deliveries,
      modem restarts and stale replies included, and the machine rests. */
  lemma {:induction false} Drains(n: Net, es: seq<Happening>)
    requires Sound(n)
    requires forall e <- es :: e.Deliver? || e.ModemSsr?
    requires Deliveries(es) >= Pendings(n)
    ensures Run(n, es).replies == []
    ensures Run(n, es).m.state in {Released, Acquired}
    decreases |es|
  {
    if es != [] {
      var e := es[0];
      SoundStep(n, e);
      if e.Deliver? && n.replies != [] {
        DeliveryShrinks(n, e.connected);
      }
      Drains(Step(n, e), es[1..]);
    }
  }

  // ---------- does the machine agree with the framework? ----------

  /** Whether the framework holds the connection after an event, if it did so before: it does
      after a request it answers open, and not after any other command. */
  function Held(held: bool, n: Net, e: Happening): bool {
    var m := React(n, e);
    if |m.commands| <= |n.m.commands| || e.ModemSsr? then held
    else Answer(m.commands[|m.commands| - 1], e.connected) == OpenReply
  }

  /** The last reply still waiting says whether the framework holds the connection; only an
      acquired machine may think it settled, and it must be right. */
  ghost predicate Agrees(n: Net, held: bool) {
    && (n.replies != [] ==> (held <==> EndsIn(n.replies, OpenReply)))
    && (n.m.state == Acquired ==> held && n.replies == [])
    && (n.m.state == Released ==> !held)
  }

  /** A machine at rest that agrees is right about the connection. */
  lemma RestingAgrees(n: Net, held: bool)
    requires Sound(n) && Agrees(n, held) && n.replies == []
    ensures n.m.state == Acquired <==> held
  {
  }

  /** A pending machine takes a stale reply for the answer to its own request: an open one
      that others follow, or a failed one when the last one to follow is open. */
  predicate OutOfTurn(n: Net, e: Happening) {
    && e.Deliver? && n.m.state == Pending && |n.replies| > 1
    && (n.replies[0] == OpenReply || (n.replies[0] == FailedReply && EndsIn(n.replies, OpenReply)))
  }

  /** Every event keeps the machine in agreement exactly if it is not such a reply. */
  lemma AgreesStepIff(n: Net, e: Happening, held: bool)
    requires Sound(n) && Agrees(n, held)
    ensures Agrees(Step(n, e), Held(held, n, e)) <==> !OutOfTurn(n, e)
  {
    match e
    case RequestAtl(handle, wait, _) =>
      SubscribeSends(n.m.(log := n.m.log + [Requested(handle)]), Subscriber(handle, wait, false));
      if n.m.state == Released { SendsOne(n, e, RequestConn); } else { SendsNothing(n, e); }
    case ReleaseAtl(_, _) => AgreesRelease(n, e, held);
    case Deliver(_) => if n.replies != [] { AgreesDeliver(n, e, held); }
    case ModemSsr => SendsNothing(n, e);
  }

  lemma AgreesRelease(n: Net, e: Happening, held: bool)
    requires Sound(n) && Agrees(n, held) && e.ReleaseAtl?
    ensures Agrees(Step(n, e), Held(held, n, e))
  {
    var i := IndexOf(n.m.subs, e.handle);
    if i < |n.m.subs| && n.m.state != Released {
      UnsubscribeSends(n.m, i);
      if React(n, e).commands == n.m.commands {
        SendsNothing(n, e);
      } else {
        SendsOne(n, e, ReleaseConn);
      }
    } else {
      SendsNothing(n, e);
    }
  }

  lemma AgreesDeliver(n: Net, e: Happening, held: bool)
    requires Sound(n) && Agrees(n, held) && e.Deliver? && n.replies != []
    ensures Agrees(Step(n, e), Held(held, n, e)) <==> !OutOfTurn(n, e)
  {
    ProcessedSends(n.m, n.replies[0]);
    if React(n, e).commands == n.m.commands {
      SendsNothing(n, e);
      assert n.replies[1..] != [] ==> n.replies[1..][|n.replies| - 2] == n.replies[|n.replies| - 1];
    } else {
      SendsOne(n, e, RequestConn);
    }
  }

  ghost predicate AgreesThroughout(n: Net, held: bool, es: seq<Happening>)
    decreases |es|
  {
    Agrees(n, held) && (es != [] ==> AgreesThroughout(Step(n, es[0]), Held(held, n, es[0]), es[1..]))
  }

  predicate AllInTurn(n: Net, es: seq<Happening>)
    decreases |es|
  {
    es != [] ==> !OutOfTurn(n, es[0]) && AllInTurn(Step(n, es[0]), es[1..])
  }

  /** Over any run the machine agrees with the framework all along exactly if no stale reply
      is taken for an answer. */
  lemma {:induction false} AgreesRunIff(n: Net, held: bool, es: seq<Happening>)
    requires Sound(n) && Agrees(n, held)
    ensures AgreesThroughout(n, held, es) <==> AllInTurn(n, es)
    decreases |es|
  {
    if es != [] {
      SoundStep(n, es[0]);
      AgreesStepIff(n, es[0], held);
      if !OutOfTurn(n, es[0]) {
        AgreesRunIff(Step(n, es[0]), Held(held, n, es[0]), es[1..]);
      }
    }
  }

  /** A run together with whether the framework holds the connection. */
  function Follow(n: Net, held: bool, es: seq<Happening>): (Net, bool)
    decreases |es|
  {
    if es == [] then (n, held) else Follow(Step(n, es[0]), Held(held, n, es[0]), es[1..])
  }

  lemma {:induction false} FollowIsRun(n: Net, held: bool, es: seq<Happening>)
    ensures Follow(n, held, es).0 == Run(n, es)
    decreases |es|
  {
    if es != [] {
      FollowIsRun(Step(n, es[0]), Held(held, n, es[0]), es[1..]);
    }
  }

  lemma {:induction false} FollowAgrees(n: Net, held: bool, es: seq<Happening>)
    requires AgreesThroughout(n, held, es)
    ensures Agrees(Follow(n, held, es).0, Follow(n, held, es).1)
    decreases |es|
  {
    if es != [] {
      FollowAgrees(Step(n, es[0]), Held(held, n, es[0]), es[1..]);
    }
  }

  /** A run from the start in which no stale reply is taken for an answer, and which ends with
      an empty queue, rests in ACQUIRED if and only if the framework holds the connection. */
  lemma RestsRight(es: seq<Happening>)
    requires AllInTurn(IDLE, es) && Run(IDLE, es).replies == []
    ensures Run(IDLE, es).m.state == Acquired <==> Follow(IDLE, false, es).1
  {
    SoundRun(IDLE, es);
    AgreesRunIff(IDLE, false, es);
    FollowAgrees(IDLE, false, es);
    FollowIsRun(IDLE, false, es);
    RestingAgrees(Run(IDLE, es), Follow(IDLE, false, es).1);
  }

  // ---------- a run that strands a connection ----------

  /** A client asks, gives up, and the next reply is processed. */
  function GivesUp(handle: int, connected: bool): seq<Happening> {
    [RequestAtl(handle, true, connected), ReleaseAtl(handle, connected), Deliver(connected)]
  }

  /** It asks once more, and the queue is emptied. */
  function AsksOnce(handle: int): seq<Happening> {
    [RequestAtl(handle, true, true), Deliver(true), Deliver(true), Deliver(true)]
  }

  /** Giving up twice, first without mobile data and then with it, leaves a stale open reply in
      the queue.  The next request takes it for its own: the client is told of the opening and
      of a close it did not ask for, the machine rests in RELEASED, and the framework holds a
      connection that nobody will release. */
  lemma StaleReplyStrands(n: Net, handle: int)
    requires n.m.state == Released && n.m.subs == [] && n.replies == []
    ensures var (n', held) := Follow(n, false, GivesUp(handle, false) + (GivesUp(handle, true) + AsksOnce(handle)));
            && n'.m.state == Released && n'.replies == [] && EndsIn(n'.m.commands, RequestConn) && held
            && n'.m.log == n.m.log + [Requested(handle), Closed(handle), Requested(handle), Closed(handle),
                                      Requested(handle), Opened(handle), Closed(handle)]
  {
    GaveUpTwice(n, handle);
    var n1 := GaveUp(n, handle, false);
    var n2 := GaveUp(n1, handle, true);
    GivingUp(n, false, handle, false, GivesUp(handle, true) + AsksOnce(handle));
    GivingUp(n1, false, handle, true, AsksOnce(handle));
    AskingOnce(n2, false, handle);
  }

  lemma FollowOne(n: Net, held: bool, e: Happening, es: seq<Happening>)
    ensures Follow(n, held, [e] + es) == Follow(Step(n, e), Held(held, n, e), es)
  {
    assert ([e] + es)[1..] == es;
  }

  lemma Asking(n: Net, held: bool, handle: int, connected: bool, es: seq<Happening>)
    requires n.m.state == Released && n.m.subs == []
    ensures Follow(n, held, [RequestAtl(handle, true, connected)] + es)
         == Follow(Net(Machine(Pending, [Subscriber(handle, true, false)], n.m.log + [Requested(handle)],
                               n.m.commands + [RequestConn]),
                       n.replies + [Answer(RequestConn, connected)]), connected, es)
  {
    FollowOne(n, held, RequestAtl(handle, true, connected), es);
    AskingStep(n, handle, connected);
  }

  lemma AskingStep(n: Net, handle: int, connected: bool)
    requires n.m.state == Released && n.m.subs == []
    ensures Step(n, RequestAtl(handle, true, connected))
         == Net(Machine(Pending, [Subscriber(handle, true, false)], n.m.log + [Requested(handle)],
                        n.m.commands + [RequestConn]), n.replies + [Answer(RequestConn, connected)])
    ensures forall held :: Held(held, n, RequestAtl(handle, true, connected)) == connected
  {
    var s := Subscriber(handle, true, false);
    assert n.m.subs + [s] == [s];
    SendsOne(n, RequestAtl(handle, true, connected), RequestConn);
  }

  lemma Giving(n: Net, held: bool, handle: int, connected: bool, es: seq<Happening>)
    requires n.m.state == Pending && n.m.subs == [Subscriber(handle, true, false)]
    ensures Follow(n, held, [ReleaseAtl(handle, connected)] + es)
         == Follow(Net(Machine(Releasing, [Subscriber(handle, true, true)], n.m.log, n.m.commands + [ReleaseConn]),
                       n.replies + [ClosedReply]), false, es)
  {
    FollowOne(n, held, ReleaseAtl(handle, connected), es);
    assert IndexOf(n.m.subs, handle) == 0;
    assert n.m.subs[0 := Subscriber(handle, true, true)] == [Subscriber(handle, true, true)];
    SendsOne(n, ReleaseAtl(handle, connected), ReleaseConn);
  }

  /** What a reply does when there is at most one subscriber. */
  function Replied(m: Machine, reply: Reply): Machine {
    if m.subs == [] then m
    else
      var s := m.subs[0];
      if (m.state == Releasing && s.isInactive && reply != OpenReply) || (m.state == Acquired && reply == ClosedReply)
      then Machine(Released, [], m.log + [Closed(s.handle)], m.commands)
      else if m.state == Pending && reply == OpenReply
      then Machine(Acquired, [s], m.log + [Opened(s.handle)], m.commands)
      else m
  }

  /** The replies that the run meets. */
  predicate Meets(m: Machine, reply: Reply) {
    if m.subs == [] then m.state == Released
    else
      |m.subs| == 1
      && ((m.state == Releasing && m.subs[0].isInactive && reply != OpenReply)
          || (m.state == Acquired && reply == ClosedReply)
          || (m.state == Pending && !m.subs[0].isInactive && reply == OpenReply))
  }

  lemma ProcessedAlone(m: Machine, reply: Reply)
    requires Meets(m, reply)
    ensures Processed(m, reply) == Replied(m, reply)
  {
    if m.subs != [] {
      var s := m.subs[0];
      assert m.subs == [s];
      OneSubscriber(s);
    }
  }

  lemma Replying(n: Net, held: bool, connected: bool, es: seq<Happening>)
    requires n.replies != [] && Meets(n.m, n.replies[0])
    ensures Follow(n, held, [Deliver(connected)] + es)
         == Follow(Net(Replied(n.m, n.replies[0]), n.replies[1..]), held, es)
  {
    FollowOne(n, held, Deliver(connected), es);
    ProcessedAlone(n.m, n.replies[0]);
    RepliedSendsNothing(n, connected);
  }

  lemma RepliedSendsNothing(n: Net, connected: bool)
    requires n.replies != [] && Processed(n.m, n.replies[0]) == Replied(n.m, n.replies[0])
    ensures Step(n, Deliver(connected)) == Net(Replied(n.m, n.replies[0]), n.replies[1..])
    ensures forall held :: Held(held, n, Deliver(connected)) == held
  {
    SendsNothing(n, Deliver(connected));
  }

  lemma OneSubscriber(s: Subscriber)
    ensures forall kind :: Select([s], kind) == if Matches(s, kind) then [s] else []
    ensures forall kind :: Skip([s], kind) == if Matches(s, kind) then [] else [s]
    ensures forall event :: Callbacks([s], event) == Callback(event, s.handle)
  {
    assert [s][1..] == [];
  }

  /** The machine after giving up. */
  function GaveUp(n: Net, handle: int, connected: bool): Net {
    Net(Machine(Released, [], n.m.log + [Requested(handle)] + [Closed(handle)],
                n.m.commands + [RequestConn] + [ReleaseConn]),
        (n.replies + [Answer(RequestConn, connected)] + [ClosedReply])[1..])
  }

  lemma GivingUp(n: Net, held: bool, handle: int, connected: bool, es: seq<Happening>)
    requires n.m.state == Released && n.m.subs == []
    requires (n.replies + [Answer(RequestConn, connected)] + [ClosedReply])[0] != OpenReply
    ensures Follow(n, held, GivesUp(handle, connected) + es) == Follow(GaveUp(n, handle, connected), false, es)
  {
    var e1, e2, e3 := RequestAtl(handle, true, connected), ReleaseAtl(handle, connected), Deliver(connected);
    var log, commands := n.m.log + [Requested(handle)], n.m.commands + [RequestConn];
    var n1 := Net(Machine(Pending, [Subscriber(handle, true, false)], log, commands),
                  n.replies + [Answer(RequestConn, connected)]);
    var n2 := Net(Machine(Releasing, [Subscriber(handle, true, true)], log, commands + [ReleaseConn]),
                  n1.replies + [ClosedReply]);
    assert GivesUp(handle, connected) + es == [e1] + ([e2] + ([e3] + es));
    Asking(n, held, handle, connected, [e2] + ([e3] + es));
    Giving(n1, connected, handle, connected, [e3] + es);
    Replying(n2, false, connected, es);
  }

  lemma AskingOnce(n: Net, held: bool, handle: int)
    requires n.m.state == Released && n.m.subs == [] && n.replies == [OpenReply, ClosedReply]
    ensures Follow(n, held, AsksOnce(handle))
         == (Net(Machine(Released, [], n.m.log + [Requested(handle)] + [Opened(handle)] + [Closed(handle)],
                         n.m.commands + [RequestConn]), []), true)
  {
    var d, s := Deliver(true), Subscriber(handle, true, false);
    var log, commands := n.m.log + [Requested(handle)], n.m.commands + [RequestConn];
    var n1 := Net(Machine(Pending, [s], log, commands), n.replies + [OpenReply]);
    var n2 := Net(Machine(Acquired, [s], log + [Opened(handle)], commands), n1.replies[1..]);
    var n3 := Net(Machine(Released, [], log + [Opened(handle)] + [Closed(handle)], commands), n2.replies[1..]);
    assert AsksOnce(handle) == [RequestAtl(handle, true, true)] + ([d] + ([d] + ([d] + [])));
    Asking(n, held, handle, true, [d] + ([d] + ([d] + [])));
    Replying(n1, true, true, [d] + ([d] + []));
    Replying(n2, true, true, [d] + []);
    Replying(n3, true, true, []);
  }

  lemma GaveUpTwice(n: Net, handle: int)
    requires n.replies == []
    ensures GaveUp(n, handle, false).replies == [ClosedReply]
    ensures var n2 := GaveUp(GaveUp(n, handle, false), handle, true);
            && n2.replies == [OpenReply, ClosedReply]
            && n2.m.log + [Requested(handle)] + [Opened(handle)] + [Closed(handle)]
               == n.m.log + [Requested(handle), Closed(handle), Requested(handle), Closed(handle),
                             Requested(handle), Opened(handle), Closed(handle)]
  {
  }

  // ---------- what a client is told ----------

  /** Where a handle stands, judged only by what its client observes. */
  datatype Phase = Idle | Waiting | HasConn | Broken

  function Next(p: Phase, e: Entry, handle: int): Phase {
    if e.handle != handle then p
    else match e
      case Requested(_) => if p == Idle then Waiting else p
      case Opened(_) => if p == Waiting then HasConn else Broken
      case OpenFailed(_) => if p == Waiting then Idle else Broken
      case Closed(_) => if p == Waiting || p == HasConn then Idle else Broken
      case Dropped(_) => if p == Waiting || p == HasConn then Idle else Broken
  }

  function Advance(p: Phase, log: seq<Entry>, handle: int): Phase
    decreases |log|
  {
    if log == [] then p else Advance(Next(p, log[0], handle), log[1..], handle)
  }

  function PhaseOf(log: seq<Entry>, handle: int): Phase {
    Advance(Idle, log, handle)
  }

  /** What the machine's own state says about where a listed subscriber must stand. */
  predicate Fits(state: State, s: Subscriber, p: Phase) {
    match state
    case Released => false
    case Pending => p == Waiting
    case Acquired => if s.isInactive then p == Waiting || p == HasConn else p == HasConn
    case Releasing => if s.isInactive then p == Waiting || p == HasConn else p == Waiting
  }

  ghost predicate Told(m: Machine, handle: int) {
    var p := PhaseOf(m.log, handle);
    && (p == Idle || p == Waiting || p == HasConn)
    && (p == Idle <==> !Listed(m.subs, handle))
    && forall s <- m.subs :: s.handle == handle ==> Fits(m.state, s, p)
  }

  lemma {:induction false} AdvanceConcat(p: Phase, a: seq<Entry>, b: seq<Entry>, handle: int)
    ensures Advance(p, a + b, handle) == Advance(Advance(p, a, handle), b, handle)
    decreases |a|
  {
    if a == [] {
      assert a + b == b;
    } else {
      assert (a + b)[1..] == a[1..] + b;
      AdvanceConcat(Next(p, a[0], handle), a[1..], b, handle);
    }
  }

  /** A round of callbacks reaches each selected handle once and no other. */
  lemma {:induction false} RoundOfCallbacks(p: Phase, subs: seq<Subscriber>, event: Event, handle: int)
    requires Distinct(subs)
    ensures Advance(p, Callbacks(subs, event), handle)
            == if Listed(subs, handle) then Advance(p, Callback(event, handle), handle) else p
    decreases |subs|
  {
    if subs != [] {
      assert subs == [subs[0]] + subs[1..];
      HeadUnlisted(subs);
      AdvanceConcat(p, Callback(event, subs[0].handle), Callbacks(subs[1..], event), handle);
      RoundOfCallbacks(Advance(p, Callback(event, subs[0].handle), handle), subs[1..], event, handle);
    }
  }

  lemma {:induction false} RoundOfDrops(p: Phase, subs: seq<Subscriber>, handle: int)
    requires Distinct(subs)
    ensures Advance(p, Drops(subs), handle) == if Listed(subs, handle) then Next(p, Dropped(handle), handle) else p
    decreases |subs|
  {
    if subs != [] {
      assert subs == [subs[0]] + subs[1..];
      HeadUnlisted(subs);
      AdvanceConcat(p, [Dropped(subs[0].handle)], Drops(subs[1..]), handle);
      RoundOfDrops(Next(p, Dropped(subs[0].handle), handle), subs[1..], handle);
    }
  }

  /** How a notification of one kind moves a handle. */
  lemma NotifyAllPhase(m: Machine, event: Event, deletePost: bool, kind: NotificationType, handle: int)
    requires Distinct(m.subs)
    ensures var m' := NotifyAll(m, event, deletePost, kind);
            PhaseOf(m'.log, handle)
            == if Listed(Select(m.subs, kind), handle)
               then Advance(PhaseOf(m.log, handle), Callback(event, handle), handle)
               else PhaseOf(m.log, handle)
  {
    SelectSkipDistinct(m.subs, kind);
    AdvanceConcat(Idle, m.log, Callbacks(Select(m.subs, kind), event), handle);
    RoundOfCallbacks(PhaseOf(m.log, handle), Select(m.subs, kind), event, handle);
  }

  lemma LogGrows(log: seq<Entry>, e: Entry, handle: int)
    ensures PhaseOf(log + [e], handle) == Next(PhaseOf(log, handle), e, handle)
  {
    AdvanceConcat(Idle, log, [e], handle);
  }

  /** A client asks again for a handle that already has its connection. */
  predicate AsksTwice(n: Net, e: Happening, handle: int) {
    e.RequestAtl? && e.handle == handle && n.m.state == Acquired && PhaseOf(n.m.log, handle) == HasConn
  }

  lemma ToldRequest(n: Net, e: Happening, handle: int)
    requires Sound(n) && Told(n.m, handle) && e.RequestAtl?
    ensures Told(Step(n, e).m, handle) <==> !AsksTwice(n, e, handle)
  {
    LogGrows(n.m.log, Requested(e.handle), handle);
    LogGrows(n.m.log + [Requested(e.handle)], Opened(e.handle), handle);
    var m' := Step(n, e).m;
    var s := Subscriber(e.handle, e.waitForClose, false);
    if !Listed(n.m.subs, e.handle) {
      assert m'.subs == n.m.subs + [s] && s in m'.subs;
      assert Listed(m'.subs, handle) <==> Listed(n.m.subs, handle) || handle == e.handle;
    } else {
      assert m'.subs == n.m.subs;
    }
  }

  lemma Inactivated(subs: seq<Subscriber>, i: nat, handle: int)
    requires i < |subs| && Distinct(subs)
    ensures var s' := subs[i].(isInactive := true);
            var subs' := subs[i := s'];
            && (Listed(subs', handle) <==> Listed(subs, handle))
            && forall x <- subs' :: x == s' || (x in subs && x.handle != s'.handle)
  {
    var s' := subs[i].(isInactive := true);
    var subs' := subs[i := s'];
    forall s | s in subs && s.handle == handle
      ensures Listed(subs', handle)
    {
      var j :| 0 <= j < |subs| && subs[j] == s;
      assert subs'[j] in subs';
    }
    assert subs[i] in subs;
  }

  lemma ToldInactive(m: Machine, i: nat, handle: int)
    requires Distinct(m.subs) && Told(m, handle) && i < |m.subs| && m.subs[i].waitForClose && m.state != Released
    requires (m.state == Pending || m.state == Acquired) ==> AnyActive(m.subs)
    ensures Told(Unsubscribe(m, i), handle)
  {
    Inactivated(m.subs, i, handle);
    assert m.subs[i] in m.subs;
    var m' := Unsubscribe(m, i);
    assert m'.subs == m.subs[i := m.subs[i].(isInactive := true)] && m'.log == m.log;
  }

  lemma ToldGone(m: Machine, i: nat, handle: int)
    requires Distinct(m.subs) && Told(m, handle) && i < |m.subs| && !m.subs[i].waitForClose && m.state != Released
    ensures Told(Unsubscribe(m, i), handle)
  {
    var gone := m.subs[i].handle;
    assert m.subs[i] in m.subs;
    LogGrows(m.log, Closed(gone), handle);
    WithoutFacts(m.subs, gone);
    var m' := Unsubscribe(m, i);
    assert m'.subs == Without(m.subs, gone) && m'.log == m.log + [Closed(gone)];
  }

  lemma ToldRelease(n: Net, e: Happening, handle: int)
    requires Sound(n) && Told(n.m, handle) && e.ReleaseAtl?
    ensures Told(Step(n, e).m, handle)
  {
    var i := IndexOf(n.m.subs, e.handle);
    if i < |n.m.subs| {
      if n.m.subs[i].waitForClose {
        ToldInactive(n.m, i, handle);
      } else {
        ToldGone(n.m, i, handle);
      }
    }
  }

  lemma ToldSettle(m: Machine, handle: int)
    requires Distinct(m.subs) && m.state == Releasing && Told(m, handle)
    ensures Told(Settle(m), handle)
  {
    SelectSkip(m.subs, InactiveSubscribers);
    NotifyAllPhase(m, ReleasedEvent, true, InactiveSubscribers, handle);
    var m1 := NotifyAll(m, ReleasedEvent, true, InactiveSubscribers);
    SameSubscriber(m.subs, handle);
    if m1.subs != [] {
      assert m1.subs[0] in m1.subs;
    }
  }

  lemma SameSubscriber(subs: seq<Subscriber>, handle: int)
    requires Distinct(subs)
    ensures forall a, b :: a in subs && b in subs && a.handle == handle && b.handle == handle ==> a == b
  {
  }

  lemma ToldGranted(m: Machine, handle: int)
    requires Distinct(m.subs) && Told(m, handle)
    ensures Told(Granted(m), handle)
  {
    if m.state == Pending {
      SameSubscriber(m.subs, handle);
      SelectSkip(m.subs, ActiveSubscribers);
      NotifyAllPhase(m.(state := Acquired), GrantedEvent, false, ActiveSubscribers, handle);
    }
  }

  /** Telling everybody that it is over, and deleting everybody. */
  lemma ToldAll(m: Machine, event: Event, handle: int)
    requires Distinct(m.subs) && Told(m, handle)
    requires (event == DeniedEvent && m.state == Pending) || (event == ReleasedEvent && m.state == Acquired)
    ensures Told(NotifyAll(m.(state := Released), event, true, AllSubscribers), handle)
  {
    SelectSkip(m.subs, AllSubscribers);
    NotifyAllPhase(m.(state := Released), event, true, AllSubscribers, handle);
  }

  lemma ToldDeliver(m: Machine, reply: Reply, handle: int)
    requires Distinct(m.subs) && Told(m, handle)
    ensures Told(Processed(m, reply), handle)
  {
    if m.state == Releasing {
      ToldSettle(m, handle);
    }
    match reply
    case OpenReply => ToldGranted(m, handle);
    case FailedReply => if m.state == Pending { ToldAll(m, DeniedEvent, handle); }
    case ClosedReply => if m.state == Acquired { ToldAll(m, ReleasedEvent, handle); }
  }

  /** One happening keeps a client properly informed exactly when it is not a second
      request for a handle that already has its connection. */
  lemma ToldStep(n: Net, e: Happening, handle: int)
    requires Sound(n) && Told(n.m, handle)
    ensures Told(Step(n, e).m, handle) <==> !AsksTwice(n, e, handle)
  {
    match e
    case RequestAtl(_, _, _) => ToldRequest(n, e, handle);
    case ReleaseAtl(_, _) => ToldRelease(n, e, handle);
    case Deliver(_) =>
      if n.replies != [] {
        ToldDeliver(n.m, n.replies[0], handle);
      }
    case ModemSsr =>
      AdvanceConcat(Idle, n.m.log, Drops(n.m.subs), handle);
      RoundOfDrops(PhaseOf(n.m.log, handle), n.m.subs, handle);
  }

  // ---------- whole runs, seen by one client ----------

  /** At no point of the run does the client ask again while it has its connection. */
  predicate Careful(n: Net, es: seq<Happening>, handle: int)
    decreases |es|
  {
    es != [] ==> !AsksTwice(n, es[0], handle) && Careful(Step(n, es[0]), es[1..], handle)
  }

  lemma {:induction false} BrokenStays(log: seq<Entry>, handle: int)
    ensures Advance(Broken, log, handle) == Broken
  {
    if log != [] {
      BrokenStays(log[1..], handle);
    }
  }

  lemma {:induction false} CallbacksKinds(subs: seq<Subscriber>, event: Event)
    ensures forall x <- Callbacks(subs, event) :: !x.Dropped? && !x.Requested?
  {
    if subs != [] {
      CallbacksKinds(subs[1..], event);
    }
  }

  /** `now` is `was` with entries added, none of them a drop or a request. */
  ghost predicate OnlyTells(was: seq<Entry>, now: seq<Entry>) {
    was <= now && forall x <- now[|was|..] :: !x.Dropped? && !x.Requested?
  }

  lemma NotifyAllTells(m: Machine, event: Event, deletePost: bool, kind: NotificationType)
    ensures OnlyTells(m.log, NotifyAll(m, event, deletePost, kind).log)
  {
    CallbacksKinds(Select(m.subs, kind), event);
  }

  lemma DeliveryTells(m: Machine, reply: Reply)
    ensures OnlyTells(m.log, Processed(m, reply).log)
  {
    NotifyAllTells(m.(state := Acquired), GrantedEvent, false, ActiveSubscribers);
    NotifyAllTells(m, ReleasedEvent, true, InactiveSubscribers);
    NotifyAllTells(m.(state := Released), ReleasedEvent, true, AllSubscribers);
    NotifyAllTells(m.(state := Released), DeniedEvent, true, AllSubscribers);
  }

  /** What a happening adds to the log: it never rewrites the past, only a modem restart
      drops anyone, and only requests count as requests. */
  lemma LogOnlyGrows(n: Net, e: Happening)
    ensures n.m.log <= Step(n, e).m.log
    ensures forall x <- Step(n, e).m.log[|n.m.log|..] ::
              (x.Dropped? ==> e.ModemSsr?) && (x.Requested? ==> e.RequestAtl? && x.handle == e.handle)
  {
    match e
    case Deliver(_) => if n.replies != [] { DeliveryTells(n.m, n.replies[0]); }
    case ModemSsr => DropsKinds(n.m.subs);
    case RequestAtl(_, _, _) =>
    case ReleaseAtl(handle, _) =>
      var i := IndexOf(n.m.subs, handle);
      if i < |n.m.subs| { UnsubscribeTells(n.m, i); }
  }

  lemma UnsubscribeTells(m: Machine, i: nat)
    requires i < |m.subs|
    ensures OnlyTells(m.log, Unsubscribe(m, i).log)
  {
  }

  lemma {:induction false} DropsKinds(subs: seq<Subscriber>)
    ensures forall x <- Drops(subs) :: x.Dropped?
  {
    if subs != [] {
      DropsKinds(subs[1..]);
    }
  }

  lemma {:induction false} OnceBroken(n: Net, es: seq<Happening>, handle: int)
    requires PhaseOf(n.m.log, handle) == Broken
    ensures PhaseOf(Run(n, es).m.log, handle) == Broken
    decreases |es|
  {
    if es != [] {
      var n' := Step(n, es[0]);
      LogOnlyGrows(n, es[0]);
      assert n'.m.log == n.m.log + n'.m.log[|n.m.log|..];
      AdvanceConcat(Idle, n.m.log, n'.m.log[|n.m.log|..], handle);
      BrokenStays(n'.m.log[|n.m.log|..], handle);
      OnceBroken(n', es[1..], handle);
    }
  }

  /** Over any run whatever, a client is properly informed at the end exactly when it was
      careful throughout; what the other clients do does not matter. */
  lemma {:induction false} ToldRun(n: Net, es: seq<Happening>, handle: int)
    requires Sound(n) && Told(n.m, handle)
    ensures Told(Run(n, es).m, handle) <==> Careful(n, es, handle)
    decreases |es|
  {
    if es != [] {
      var n' := Step(n, es[0]);
      SoundStep(n, es[0]);
      ToldStep(n, es[0], handle);
      if AsksTwice(n, es[0], handle) {
        AskingTwiceBreaks(n, es[0], handle);
        OnceBroken(n', es[1..], handle);
      } else {
        ToldRun(n', es[1..], handle);
      }
    }
  }

  lemma {:induction false} QuietIsCareful(n: Net, es: seq<Happening>, handle: int)
    requires forall e <- es :: e.Deliver? || e.ModemSsr?
    ensures Careful(n, es, handle)
    decreases |es|
  {
    if es != [] {
      QuietIsCareful(Step(n, es[0]), es[1..], handle);
    }
  }

  /** Nobody active waits for ever: once the clients are quiet and the queue has run empty,
      everybody still listed as active has the connection. */
  lemma NobodyActiveWaits(n: Net, es: seq<Happening>, s: Subscriber)
    requires Sound(n) && Told(n.m, s.handle)
    requires (forall e <- es :: e.Deliver? || e.ModemSsr?) && Deliveries(es) >= Pendings(n)
    requires s in Run(n, es).m.subs && !s.isInactive
    ensures PhaseOf(Run(n, es).m.log, s.handle) == HasConn
  {
    SoundRun(n, es);
    QuietIsCareful(n, es, s.handle);
    ToldRun(n, es, s.handle);
    Drains(n, es);
  }

  /** A request for a handle that is still listed as inactive, in whatever state, leaves the
      subscriber inactive and asks the framework for nothing; in ACQUIRED the client is even
      told of an opening. */
  lemma RequestWhileInactive(n: Net, e: Happening, s: Subscriber)
    requires Sound(n) && s in n.m.subs && s.isInactive && e.RequestAtl? && e.handle == s.handle
    ensures var told := [Requested(s.handle)] + if n.m.state == Acquired then [Opened(s.handle)] else [];
            Step(n, e) == n.(m := n.m.(log := n.m.log + told))
  {
    assert Listed(n.m.subs, s.handle);
    SendsNothing(n, e);
    if n.m.state == Acquired {
      assert n.m.log + [Requested(s.handle)] + [Opened(s.handle)] == n.m.log + [Requested(s.handle), Opened(s.handle)];
    }
  }

  /** A request for a handle that is still listed, because its close is outstanding, is
      dropped: nothing but the request itself is recorded, and once the connection is gone
      the client is told of the close and is not listed. */
  lemma RequestDuringCloseIsDropped(n: Net, e: Happening, s: Subscriber, reply: Reply)
    requires Sound(n) && Told(n.m, s.handle) && n.m.state == Releasing
    requires s in n.m.subs && s.isInactive && e.RequestAtl? && e.handle == s.handle
    requires reply != OpenReply
    ensures Step(n, e) == n.(m := n.m.(log := n.m.log + [Requested(e.handle)]))
    ensures var m' := Processed(Step(n, e).m, reply);
            !Listed(m'.subs, s.handle) && PhaseOf(m'.log, s.handle) == Idle
  {
    var n' := Step(n, e);
    SendsNothing(n, e);
    ToldStep(n, e, s.handle);
    ToldSettle(n'.m, s.handle);
    SelectSkip(n'.m.subs, InactiveSubscribers);
    SameSubscriber(n'.m.subs, s.handle);
  }

  lemma AskingTwiceBreaks(n: Net, e: Happening, handle: int)
    requires AsksTwice(n, e, handle)
    ensures PhaseOf(Step(n, e).m.log, handle) == Broken
  {
    LogGrows(n.m.log, Requested(handle), handle);
    LogGrows(n.m.log + [Requested(handle)], Opened(handle), handle);
  }

  /** An entry that ends a subscription. */
  predicate Ends(x: Entry) {
    x.OpenFailed? || x.Closed? || x.Dropped?
  }

  predicate Asks(log: seq<Entry>, handle: int) {
    Requested(handle) in log
  }

  lemma {:induction false} NoRequestNoWait(p: Phase, log: seq<Entry>, handle: int)
    requires p != Waiting && !Asks(log, handle)
    ensures Advance(p, log, handle) != Waiting
    ensures p != HasConn ==> Advance(p, log, handle) != HasConn
    decreases |log|
  {
    if log != [] {
      NoRequestNoWait(Next(p, log[0], handle), log[1..], handle);
    }
  }

  /** What an unbroken log means: between two openings, between an opening and a failure,
      and between two endings of one handle, the client has asked again. */
  lemma UnbrokenMeaning(log: seq<Entry>, handle: int, i: nat, j: nat)
    requires PhaseOf(log, handle) != Broken
    requires i < j < |log| && log[i].handle == handle && log[j].handle == handle
    requires (log[i].Opened? && (log[j].Opened? || log[j].OpenFailed?))
             || (Ends(log[i]) && (Ends(log[j]) || log[j].Opened?))
    ensures Asks(log[i + 1..j], handle)
  {
    if !Asks(log[i + 1..j], handle) {
      var before, between, after := log[..i], log[i + 1..j], log[j + 1..];
      assert log == (before + [log[i]]) + (between + ([log[j]] + after));
      AdvanceConcat(Idle, before + [log[i]], between + ([log[j]] + after), handle);
      AdvanceConcat(Idle, before, [log[i]], handle);
      var p := Advance(Idle, before + [log[i]], handle);
      AdvanceConcat(p, between, [log[j]] + after, handle);
      NoRequestNoWait(p, between, handle);
      AdvanceConcat(Advance(p, between, handle), [log[j]], after, handle);
      BrokenStays(after, handle);
      assert false;
    }
  }

  function Endings(log: seq<Entry>, handle: int): nat {
    if log == [] then 0
    else (if Ends(log[0]) && log[0].handle == handle then 1 else 0) + Endings(log[1..], handle)
  }

  lemma {:induction false} EndingsToIdle(p: Phase, log: seq<Entry>, handle: int)
    requires !Asks(log, handle) && Advance(p, log, handle) == Idle
    ensures Endings(log, handle) == if p == Idle then 0 else 1
    decreases |log|
  {
    if log != [] {
      if Next(p, log[0], handle) == Broken {
        BrokenStays(log[1..], handle);
      }
      EndingsToIdle(Next(p, log[0], handle), log[1..], handle);
    }
  }

  lemma RequestRemovesNobody(n: Net, e: Happening, handle: int)
    ensures e.RequestAtl? && Listed(n.m.subs, handle) ==> Listed(Step(n, e).m.subs, handle)
  {
    if e.RequestAtl? {
      assert forall s :: s in n.m.subs ==> s in Step(n, e).m.subs;
    }
  }

  /** Whoever leaves the list other than by a modem restart is told so exactly once. */
  lemma LeavingIsToldOnce(n: Net, e: Happening, handle: int)
    requires Sound(n) && Told(n.m, handle) && !e.ModemSsr?
    requires Listed(n.m.subs, handle) && !Listed(Step(n, e).m.subs, handle)
    ensures var said := Step(n, e).m.log[|n.m.log|..];
            Endings(said, handle) == 1 && forall x <- said :: !x.Dropped?
  {
    var m' := Step(n, e).m;
    var said := m'.log[|n.m.log|..];
    RequestRemovesNobody(n, e, handle);
    ToldStep(n, e, handle);
    LogOnlyGrows(n, e);
    assert m'.log == n.m.log + said;
    AdvanceConcat(Idle, n.m.log, said, handle);
    EndingsToIdle(PhaseOf(n.m.log, handle), said, handle);
  }

  /** Every run from the start keeps the state invariant, and every careful client is
      properly informed throughout. */
  lemma FromTheStart(es: seq<Happening>, handle: int)
    ensures Sound(Run(IDLE, es))
    ensures Told(Run(IDLE, es).m, handle) <==> Careful(IDLE, es, handle)
  {
    SoundRun(IDLE, es);
    ToldRun(IDLE, es, handle);
  }
}
