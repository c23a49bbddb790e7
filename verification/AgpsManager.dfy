/** The objects around the AGPS state machine: the manager that turns client calls and
    framework replies into events, and the native handler that replies.  Each call is
    proved to be one `Step` of AgpsNetwork.dfy. */
module AgpsManager {
  import opened AgpsMachine
  import opened AgpsNetwork

  const TYPE_MOBILE: nat := 0

  /** An item of the platform's report; `allTypes` has a bit for each type that is connected. */
  datatype DataItem = NetworkInfo(allTypes: bv64) | OtherItem

  /** The lowest bit is that of the mobile type. */
  predicate HasMobile(allTypes: bv64) {
    allTypes % 2 == 1
  }

  /** Whether mobile data is up after a report: what the last network item says, if there is one. */
  function MobileAfter(was: bool, items: seq<DataItem>): bool {
    if items == [] then was
    else
      var n := |items| - 1;
      if items[n].NetworkInfo? then HasMobile(items[n].allTypes) else MobileAfter(was, items[..n])
  }

  /** The last network item decides, whatever the others and the state before say. */
  lemma {:induction false} LastNetworkDecides(was: bool, before: seq<DataItem>, allTypes: bv64, others: seq<DataItem>)
    requires forall d <- others :: d.OtherItem?
    ensures MobileAfter(was, before + [NetworkInfo(allTypes)] + others) == HasMobile(allTypes)
    ensures MobileAfter(was, others) == was
  {
    var items := before + [NetworkInfo(allTypes)] + others;
    var n := |others| - 1;
    if others == [] {
      assert items == before + [NetworkInfo(allTypes)];
    } else {
      assert others[n] in others;
      assert items[..|items| - 1] == before + [NetworkInfo(allTypes)] + others[..n];
      LastNetworkDecides(was, before, allTypes, others[..n]);
    }
  }

  lemma MobileBit(allTypes: bv64)
    ensures var mobileBit := 1 as bv64 << TYPE_MOBILE;
            allTypes & mobileBit == mobileBit <==> HasMobile(allTypes)
  {
  }

  class NativeAgpsHandler {
    var mConnected: bool
    /** Replies posted to the adapter's message queue and not yet processed. */
    var mailbox: seq<Reply>

    constructor ()
      ensures !mConnected && mailbox == []
    {
      mConnected, mailbox := false, [];
    }

    method Notify(items: seq<DataItem>)
      modifies this`mConnected
      ensures mConnected == MobileAfter(old(mConnected), items)
    {
      for k := 0 to |items|
        invariant mConnected == MobileAfter(old(mConnected), items[..k])
      {
        assert items[..k + 1][..k] == items[..k];
        if items[k].NetworkInfo? {
          var allTypes := items[k].allTypes;
          var mobileBit := 1 as bv64 << TYPE_MOBILE;
          MobileBit(allTypes);
          mConnected := allTypes & mobileBit == mobileBit;
        }
      }
      assert items[..|items|] == items;
    }

    method ProcessAtlRequestRelease(command: Command)
      modifies this`mailbox
      ensures mailbox == old(mailbox) + [Answer(command, mConnected)]
    {
      match command
      case RequestConn =>
        if mConnected {
          mailbox := mailbox + [OpenReply];
        } else {
          mailbox := mailbox + [FailedReply];
        }
      case ReleaseConn =>
        mailbox := mailbox + [ClosedReply];
    }
  }

  class AgpsManager {
    const mInternetNif: AgpsStateMachine
    const mNative: NativeAgpsHandler

    constructor ()
      ensures View() == IDLE && fresh(mInternetNif) && fresh(mNative)
    {
      mInternetNif := new AgpsStateMachine();
      mNative := new NativeAgpsHandler();
    }

    function View(): Net
      reads mInternetNif, mNative
    {
      Net(mInternetNif.View(), mNative.mailbox)
    }

    /** Hands the native handler the commands the state machine has issued since `from`. */
    method Relay(from: nat)
      requires from <= |mInternetNif.commands|
      modifies mNative`mailbox
      ensures mNative.mailbox == old(mNative.mailbox) + Answers(mInternetNif.commands[from..], mNative.mConnected)
    {
      var commands := mInternetNif.commands;
      var i := from;
      while i < |commands|
        invariant from <= i <= |commands|
        invariant mNative.mailbox == old(mNative.mailbox) + Answers(commands[from..i], mNative.mConnected)
      {
        mNative.ProcessAtlRequestRelease(commands[i]);
        assert commands[from..i + 1] == commands[from..i] + [commands[i]];
        i := i + 1;
      }
      assert commands[from..i] == commands[from..];
    }

    method RequestATL(connHandle: int)
      modifies mInternetNif, mNative
      ensures View() == Step(old(View()), RequestAtl(connHandle, true, mNative.mConnected))
      ensures mNative.mConnected == old(mNative.mConnected)
    {
      var sent := |mInternetNif.commands|;
      mInternetNif.log := mInternetNif.log + [Requested(connHandle)];
      mInternetNif.ProcessAgpsEventSubscribe(Subscriber(connHandle, true, false));
      Relay(sent);
    }

    method ReleaseATL(connHandle: int)
      modifies mInternetNif, mNative
      ensures View() == Step(old(View()), ReleaseAtl(connHandle, mNative.mConnected))
      ensures mNative.mConnected == old(mNative.mConnected)
    {
      var sent := |mInternetNif.commands|;
      var i := mInternetNif.GetSubscriber(connHandle);
      if i == |mInternetNif.mSubscriberList| {
        return;
      }
      mInternetNif.ProcessAgpsEventUnsubscribe(i);
      Relay(sent);
    }

    /** Processes the oldest waiting reply, if there is one. */
    method ProcessReply()
      modifies mInternetNif, mNative
      ensures View() == Step(old(View()), Deliver(mNative.mConnected))
      ensures mNative.mConnected == old(mNative.mConnected)
    {
      if mNative.mailbox == [] {
        return;
      }
      var sent := |mInternetNif.commands|;
      var reply := mNative.mailbox[0];
      mNative.mailbox := mNative.mailbox[1..];
      match reply {
        case OpenReply => mInternetNif.ProcessAgpsEventGranted();
        case FailedReply => mInternetNif.ProcessAgpsEventDenied();
        case ClosedReply => mInternetNif.ProcessAgpsEventReleased();
      }
      Relay(sent);
    }

    method HandleModemSSR()
      modifies mInternetNif
      ensures View() == Step(old(View()), ModemSsr)
    {
      mInternetNif.DropAllSubscribers();
    }
  }
}
