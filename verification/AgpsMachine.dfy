/** The AGPS state machine of gps/gnss/Agps.cpp: first what each event does to the visible
    state, as functions on `Machine` values, then the object whose methods do it in place. */
module AgpsMachine {

  datatype State = Released | Pending | Acquired | Releasing

  datatype Event = SubscribeEvent | UnsubscribeEvent | GrantedEvent | ReleasedEvent | DeniedEvent

  datatype NotificationType = AllSubscribers | InactiveSubscribers | ActiveSubscribers

  /** One entry of the subscriber list. */
  datatype Subscriber = Subscriber(handle: int, waitForClose: bool, isInactive: bool)

  datatype Command = RequestConn | ReleaseConn

  /** What a client can observe about a handle: its own request, the status callbacks it is
      sent, and being dropped without a callback when the modem restarts. */
  datatype Entry =
    | Requested(handle: int)
    | Opened(handle: int)
    | OpenFailed(handle: int)
    | Closed(handle: int)
    | Dropped(handle: int)

  datatype Machine = Machine(state: State, subs: seq<Subscriber>, log: seq<Entry>, commands: seq<Command>)

  const START := Machine(Released, [], [], [])

  // ---------- lists of subscribers ----------

  predicate Matches(s: Subscriber, kind: NotificationType) {
    match kind
    case AllSubscribers => true
    case InactiveSubscribers => s.isInactive
    case ActiveSubscribers => !s.isInactive
  }

  /** The subscribers a notification of this kind is for, in list order. */
  function Select(subs: seq<Subscriber>, kind: NotificationType): seq<Subscriber> {
    if subs == [] then []
    else if Matches(subs[0], kind) then [subs[0]] + Select(subs[1..], kind)
    else Select(subs[1..], kind)
  }

  /** The subscribers a notification of this kind passes over, in list order. */
  function Skip(subs: seq<Subscriber>, kind: NotificationType): seq<Subscriber> {
    if subs == [] then []
    else if Matches(subs[0], kind) then Skip(subs[1..], kind)
    else [subs[0]] + Skip(subs[1..], kind)
  }

  /** The list a notification leaves behind. */
  function Kept(subs: seq<Subscriber>, deletePost: bool, kind: NotificationType): seq<Subscriber> {
    if deletePost then Skip(subs, kind) else subs
  }

  function Without(subs: seq<Subscriber>, handle: int): seq<Subscriber> {
    if subs == [] then []
    else if subs[0].handle == handle then Without(subs[1..], handle)
    else [subs[0]] + Without(subs[1..], handle)
  }

  predicate Listed(subs: seq<Subscriber>, handle: int) {
    exists s <- subs :: s.handle == handle
  }

  predicate AnyActive(subs: seq<Subscriber>) {
    exists s <- subs :: !s.isInactive
  }

  /** The callback an event turns into. */
  function Callback(event: Event, handle: int): seq<Entry> {
    match event
    case GrantedEvent => [Opened(handle)]
    case DeniedEvent => [OpenFailed(handle)]
    case UnsubscribeEvent => [Closed(handle)]
    case ReleasedEvent => [Closed(handle)]
    case SubscribeEvent => []
  }

  function Callbacks(subs: seq<Subscriber>, event: Event): seq<Entry> {
    if subs == [] then []
    else Callback(event, subs[0].handle) + Callbacks(subs[1..], event)
  }

  /** Erasing the element an iterator stands on. */
  lemma Erase(kept: seq<Subscriber>, s: Subscriber, rest: seq<Subscriber>)
    ensures var list := kept + ([s] + rest);
            list[|kept|] == s && list[..|kept|] + list[|kept| + 1..] == kept + rest
    ensures kept + ([s] + rest) == (kept + [s]) + rest
  {
  }

  /** The log and list once the notification loop has walked over `rest`. */
  function Walk(log: seq<Entry>, kept: seq<Subscriber>, rest: seq<Subscriber>,
                event: Event, deletePost: bool, kind: NotificationType): (seq<Entry>, seq<Subscriber>)
    decreases |rest|
  {
    if rest == [] then (log, kept)
    else
      var s := rest[0];
      Walk(if Matches(s, kind) then log + Callback(event, s.handle) else log,
           if deletePost && Matches(s, kind) then kept else kept + [s],
           rest[1..], event, deletePost, kind)
  }

  lemma {:induction false} WalkMeaning(log: seq<Entry>, kept: seq<Subscriber>, rest: seq<Subscriber>,
                                       event: Event, deletePost: bool, kind: NotificationType)
    ensures Walk(log, kept, rest, event, deletePost, kind).0 == log + Callbacks(Select(rest, kind), event)
    ensures Walk(log, kept, rest, event, deletePost, kind).1 == kept + Kept(rest, deletePost, kind)
    decreases |rest|
  {
    if rest != [] {
      var s, rest' := rest[0], rest[1..];
      var told := Callbacks(Select(rest', kind), event);
      Assoc(kept, [s], Kept(rest', deletePost, kind));
      assert rest == [s] + rest';
      if Matches(s, kind) {
        assert Select(rest, kind)[1..] == Select(rest', kind);
        Assoc(log, Callback(event, s.handle), told);
        var kept' := if deletePost then kept else kept + [s];
        WalkMeaning(log + Callback(event, s.handle), kept', rest', event, deletePost, kind);
      } else {
        WalkMeaning(log, kept + [s], rest', event, deletePost, kind);
      }
    }
  }

  lemma Assoc<T>(a: seq<T>, b: seq<T>, c: seq<T>)
    ensures (a + b) + c == a + (b + c)
  {
  }

  function Drops(subs: seq<Subscriber>): seq<Entry> {
    if subs == [] then [] else [Dropped(subs[0].handle)] + Drops(subs[1..])
  }

  // ---------- building blocks ----------

  function Notify(m: Machine, event: Event, handle: int): Machine {
    m.(log := m.log + Callback(event, handle))
  }

  function NotifyAll(m: Machine, event: Event, deletePost: bool, kind: NotificationType): Machine {
    m.(log := m.log + Callbacks(Select(m.subs, kind), event),
       subs := Kept(m.subs, deletePost, kind))
  }

  function Add(m: Machine, s: Subscriber): Machine {
    if Listed(m.subs, s.handle) then m else m.(subs := m.subs + [s])
  }

  function Send(m: Machine, state: State, command: Command): Machine {
    m.(state := state, commands := m.commands + [command])
  }

  /** A subscriber that waits for the close turns inactive; any other is told at once and
      deleted. */
  function Leave(m: Machine, i: nat): Machine
    requires i < |m.subs|
  {
    var s := m.subs[i];
    if s.waitForClose then
      m.(subs := m.subs[i := s.(isInactive := true)])
    else
      Notify(m, UnsubscribeEvent, s.handle).(subs := Without(m.subs, s.handle))
  }

  /** The connection is gone: whoever was leaving is told, whoever still waits gets a new
      request. */
  function Settle(m: Machine): Machine {
    var m' := NotifyAll(m, ReleasedEvent, true, InactiveSubscribers);
    if AnyActive(m'.subs) then Send(m', Pending, RequestConn) else m'.(state := Released)
  }

  // ---------- the events ----------

  function Subscribe(m: Machine, s: Subscriber): Machine {
    match m.state
    case Released => Send(Add(m, s), Pending, RequestConn)
    case Pending => Add(m, s)
    case Acquired => Add(Notify(m, GrantedEvent, s.handle), s)
    case Releasing => Add(m, s)
  }

  /** `i` is where the current subscriber stands in the list. */
  function Unsubscribe(m: Machine, i: nat): Machine
    requires i < |m.subs|
  {
    match m.state
    case Released => Notify(m, UnsubscribeEvent, m.subs[i].handle)
    case Releasing =>
      var m' := Leave(m, i);
      if m'.subs == [] then m'.(state := Released) else m'
    case _ =>
      var m' := Leave(m, i);
      if m'.subs == [] then Send(m', Released, ReleaseConn)
      else if !AnyActive(m'.subs) then Send(m', Releasing, ReleaseConn)
      else m'
  }

  function Granted(m: Machine): Machine {
    if m.state == Pending then
      NotifyAll(m.(state := Acquired), GrantedEvent, false, ActiveSubscribers)
    else m
  }

  function ConnReleased(m: Machine): Machine {
    match m.state
    case Acquired => NotifyAll(m.(state := Released), ReleasedEvent, true, AllSubscribers)
    case Releasing => Settle(m)
    case _ => m
  }

  function Denied(m: Machine): Machine {
    match m.state
    case Pending => NotifyAll(m.(state := Released), DeniedEvent, true, AllSubscribers)
    case Releasing => Settle(m)
    case _ => m
  }

  function DropAll(m: Machine): Machine {
    m.(subs := [], log := m.log + Drops(m.subs))
  }

  // ---------- the object ----------

  class AgpsStateMachine {
    var mState: State
    var mSubscriberList: seq<Subscriber>
    /** Calls made to the ATL status callbacks, with the client-side marks of `Entry`. */
    var log: seq<Entry>
    /** Calls made to the framework status callback. */
    var commands: seq<Command>

    constructor ()
      ensures View() == START
    {
      mState, mSubscriberList, log, commands := Released, [], [], [];
    }

    function View(): Machine
      reads this
    {
      Machine(mState, mSubscriberList, log, commands)
    }

    method TransitionState(newState: State)
      modifies this`mState
      ensures mState == newState
    {
      mState := newState;
    }

    method RequestOrReleaseDataConn(request: bool)
      modifies this`commands
      ensures commands == old(commands) + [if request then RequestConn else ReleaseConn]
    {
      commands := commands + [if request then RequestConn else ReleaseConn];
    }

    method AnyActiveSubscribers() returns (any: bool)
      ensures any <==> AnyActive(mSubscriberList)
    {
      for i := 0 to |mSubscriberList|
        invariant forall s <- mSubscriberList[..i] :: s.isInactive
      {
        if !mSubscriberList[i].isInactive {
          return true;
        }
      }
      return false;
    }

    /** The position of the first subscriber with this handle, or the list's length. */
    method GetSubscriber(handle: int) returns (i: nat)
      ensures i <= |mSubscriberList|
      ensures i == |mSubscriberList| <==> !Listed(mSubscriberList, handle)
      ensures i < |mSubscriberList| ==> mSubscriberList[i].handle == handle
      ensures forall j | 0 <= j < i :: mSubscriberList[j].handle != handle
    {
      i := 0;
      while i < |mSubscriberList|
        invariant i <= |mSubscriberList|
        invariant forall j | 0 <= j < i :: mSubscriberList[j].handle != handle
      {
        if mSubscriberList[i].handle == handle {
          return;
        }
        i := i + 1;
      }
    }

    method AddSubscriber(s: Subscriber)
      modifies this`mSubscriberList
      ensures View() == Add(old(View()), s)
    {
      for i := 0 to |mSubscriberList|
        invariant !Listed(mSubscriberList[..i], s.handle)
        invariant mSubscriberList == old(mSubscriberList)
      {
        if mSubscriberList[i].handle == s.handle {
          return;
        }
      }
      mSubscriberList := mSubscriberList + [s];
    }

    method DeleteSubscriber(handle: int)
      modifies this`mSubscriberList
      ensures mSubscriberList == Without(old(mSubscriberList), handle)
    {
      ghost var was, kept, rest := mSubscriberList, [], mSubscriberList;
      var it := 0;
      while it < |mSubscriberList|
        invariant mSubscriberList == kept + rest && it == |kept|
        invariant Without(was, handle) == kept + Without(rest, handle)
        decreases |rest|
      {
        Erase(kept, rest[0], rest[1..]);
        assert rest == [rest[0]] + rest[1..];
        if mSubscriberList[it].handle == handle {
          mSubscriberList := mSubscriberList[..it] + mSubscriberList[it + 1..];
        } else {
          it, kept := it + 1, kept + [rest[0]];
        }
        rest := rest[1..];
      }
    }

    method NotifyEventToSubscriber(event: Event, handle: int, deletePostNotify: bool)
      modifies this`log, this`mSubscriberList
      ensures log == old(log) + Callback(event, handle)
      ensures mSubscriberList
        == if deletePostNotify then Without(old(mSubscriberList), handle) else old(mSubscriberList)
    {
      match event {
        case GrantedEvent => log := log + [Opened(handle)];
        case DeniedEvent => log := log + [OpenFailed(handle)];
        case UnsubscribeEvent => log := log + [Closed(handle)];
        case ReleasedEvent => log := log + [Closed(handle)];
        case SubscribeEvent =>
      }
      if deletePostNotify {
        DeleteSubscriber(handle);
      }
    }

    /** One turn of the notification loop: tells the subscriber at `it` if it is meant, and
        returns where the iterator stands next.  The list is `kept`, walked over already, and
        `rest`. */
    method NotifyOne(it: nat, event: Event, deletePost: bool, kind: NotificationType,
                     ghost kept: seq<Subscriber>, ghost rest: seq<Subscriber>)
      returns (next: nat, ghost kept': seq<Subscriber>)
      requires mSubscriberList == kept + rest && it == |kept| && rest != []
      modifies this`log, this`mSubscriberList
      ensures mSubscriberList == kept' + rest[1..] && next == |kept'|
      ensures Walk(old(log), kept, rest, event, deletePost, kind)
           == Walk(log, kept', rest[1..], event, deletePost, kind)
    {
      kept' := if deletePost && Matches(rest[0], kind) then kept else kept + [rest[0]];
      Erase(kept, rest[0], rest[1..]);
      assert rest == [rest[0]] + rest[1..];
      var subscriber := mSubscriberList[it];
      next := it + 1;
      if kind == AllSubscribers
        || (kind == InactiveSubscribers && subscriber.isInactive)
        || (kind == ActiveSubscribers && !subscriber.isInactive)
      {
        NotifyEventToSubscriber(event, subscriber.handle, false);
        if deletePost {
          mSubscriberList := mSubscriberList[..it] + mSubscriberList[it + 1..];
          next := it;
        }
      }
    }

    method NotifyAllSubscribers(event: Event, deletePost: bool, kind: NotificationType)
      modifies this`log, this`mSubscriberList
      ensures View() == NotifyAll(old(View()), event, deletePost, kind)
    {
      ghost var was, kept, rest := mSubscriberList, [], mSubscriberList;
      WalkMeaning(log, [], was, event, deletePost, kind);
      var it := 0;
      while it < |mSubscriberList|
        invariant mSubscriberList == kept + rest && it == |kept|
        invariant Walk(old(log), [], was, event, deletePost, kind) == Walk(log, kept, rest, event, deletePost, kind)
        decreases |rest|
      {
        it, kept := NotifyOne(it, event, deletePost, kind, kept, rest);
        rest := rest[1..];
      }
    }

    method ProcessAgpsEventSubscribe(current: Subscriber)
      modifies this
      ensures View() == Subscribe(old(View()), current)
    {
      match mState
      case Released =>
        AddSubscriber(current);
        RequestOrReleaseDataConn(true);
        TransitionState(Pending);
      case Pending =>
        AddSubscriber(current);
      case Acquired =>
        NotifyEventToSubscriber(GrantedEvent, current.handle, false);
        AddSubscriber(current);
      case Releasing =>
        AddSubscriber(current);
    }

    method ProcessAgpsEventUnsubscribe(i: nat)
      requires i < |mSubscriberList|
      modifies this
      ensures View() == Unsubscribe(old(View()), i)
    {
      var current := mSubscriberList[i];
      if mState == Released {
        NotifyEventToSubscriber(UnsubscribeEvent, current.handle, false);
        return;
      }
      if current.waitForClose {
        mSubscriberList := mSubscriberList[i := current.(isInactive := true)];
      } else {
        NotifyEventToSubscriber(UnsubscribeEvent, current.handle, true);
      }
      if mState == Releasing {
        if mSubscriberList == [] {
          TransitionState(Released);
        }
      } else {
        var any := AnyActiveSubscribers();
        if mSubscriberList == [] {
          TransitionState(Released);
          RequestOrReleaseDataConn(false);
        } else if !any {
          TransitionState(Releasing);
          RequestOrReleaseDataConn(false);
        }
      }
    }

    method ProcessAgpsEventGranted()
      modifies this
      ensures View() == Granted(old(View()))
    {
      if mState == Pending {
        TransitionState(Acquired);
        NotifyAllSubscribers(GrantedEvent, false, ActiveSubscribers);
      }
    }

    /** The common tail of RELEASED and DENIED in the releasing state. */
    method FinishReleasing()
      modifies this
      ensures View() == Settle(old(View()))
    {
      NotifyAllSubscribers(ReleasedEvent, true, InactiveSubscribers);
      var any := AnyActiveSubscribers();
      if any {
        TransitionState(Pending);
        RequestOrReleaseDataConn(true);
      } else {
        TransitionState(Released);
      }
    }

    method ProcessAgpsEventReleased()
      modifies this
      ensures View() == ConnReleased(old(View()))
    {
      match mState
      case Released =>
      case Pending =>
      case Acquired =>
        TransitionState(Released);
        NotifyAllSubscribers(ReleasedEvent, true, AllSubscribers);
      case Releasing =>
        FinishReleasing();
    }

    method ProcessAgpsEventDenied()
      modifies this
      ensures View() == Denied(old(View()))
    {
      match mState
      case Released =>
      case Acquired =>
      case Pending =>
        TransitionState(Released);
        NotifyAllSubscribers(DeniedEvent, true, AllSubscribers);
      case Releasing =>
        FinishReleasing();
    }

    method DropAllSubscribers()
      modifies this
      ensures View() == DropAll(old(View()))
    {
      ghost var was, k := mSubscriberList, 0;
      while mSubscriberList != []
        invariant 0 <= k <= |was| && mSubscriberList == was[k..]
        invariant log + Drops(mSubscriberList) == old(log) + Drops(was)
        invariant mState == old(mState) && commands == old(commands)
      {
        log := log + [Dropped(mSubscriberList[0].handle)];
        mSubscriberList := mSubscriberList[1..];
        k := k + 1;
      }
    }
  }
}
