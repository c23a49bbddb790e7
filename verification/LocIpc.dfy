/** The two loops of `Sock` in gps/utils/LocIpc.cpp over a lossless, ordered datagram
    queue.  The kernel may accept any part of what it is given, or fail, at every call. */
module LocIpc {
  import opened IpcFraming
  import opened Wrappers

  class Channel {
    var queue: seq<Message>
    /** What the kernel will do at the coming sends: fail if negative, else accept at most
        that many bytes; once the list is used up it accepts everything. */
    var plan: seq<int>

    constructor (plan: seq<int>)
      ensures queue == [] && this.plan == plan
    {
      this.plan, queue := plan, [];
    }

    /** `::sendto`: the number of bytes accepted, or -1. */
    method Send(data: Message) returns (rtv: int)
      modifies this
      ensures -1 <= rtv <= |data|
      ensures queue == if rtv > 0 then old(queue) + [data[..rtv]] else old(queue)
      ensures old(plan) == [] ==> rtv == |data|
      ensures plan == if old(plan) == [] then [] else old(plan)[1..]
    {
      rtv := |data|;
      if plan != [] {
        rtv := if plan[0] < 0 then -1 else if plan[0] < rtv then plan[0] else rtv;
        plan := plan[1..];
      }
      if rtv > 0 {
        queue := queue + [data[..rtv]];
      }
    }

    /** `::recvfrom` into a buffer of `size` bytes: what was read, or -1 when there is
        nothing to read.  A datagram that does not fit loses its tail. */
    method Recv(size: nat) returns (nBytes: int, data: Message)
      modifies this`queue
      ensures old(queue) == [] ==> nBytes == -1 && data == "" && queue == []
      ensures old(queue) != [] ==> data == Cut(old(queue)[0], size) && nBytes == |data| && queue == old(queue)[1..]
    {
      if queue == [] {
        return -1, "";
      }
      data := if |queue[0]| <= size then queue[0] else queue[0][..size];
      queue := queue[1..];
      nBytes := |data|;
    }
  }

  class Sock {
    const mMaxTxSize: nat
    const channel: Channel

    constructor (channel: Channel, maxTxSize: nat)
      ensures this.channel == channel && mMaxTxSize == maxTxSize
    {
      this.channel, mMaxTxSize := channel, maxTxSize;
    }

    /** Refuses an empty buffer, else sends. */
    method Send(buf: Message) returns (rtv: int, ghost ds: seq<Message>)
      modifies channel
      ensures channel.queue == old(channel.queue) + ds
      ensures buf == "" ==> rtv == -1 && ds == []
      ensures buf != "" ==> Sends(buf, rtv, ds)
      ensures old(channel.plan) == [] ==> channel.plan == []
      ensures old(channel.plan) == [] && buf != "" && mMaxTxSize > 0 ==> GoesOut(buf, rtv, ds)
    {
      if buf == "" {
        return -1, [];
      }
      rtv, ds := SendTo(buf);
    }

    /** What a send of `buf` that put the datagrams `ds` on the channel must report: a short
        message, the bytes accepted; a long one, header and message when and only when all
        of the message is on the channel, in pieces neither empty nor too large. */
    ghost predicate Sends(buf: Message, rtv: int, ds: seq<Message>) {
      if |buf| <= mMaxTxSize then
        rtv <= |buf| && ds == if rtv > 0 then [buf[..rtv]] else []
      else if ds == [] then
        rtv <= 0
      else
        && ds[0] <= Header(buf)
        && Pieces(ds[1..], mMaxTxSize) && Concat(ds[1..]) <= buf
        && rtv == if Concat(ds[1..]) == buf then |Header(buf)| + |buf| else -1
    }

    /** The send reports success, and a long message's header went out whole. */
    ghost predicate GoesOut(buf: Message, rtv: int, ds: seq<Message>) {
      if |buf| <= mMaxTxSize then rtv == |buf|
      else rtv == |Header(buf)| + |buf| && ds != [] && ds[0] == Header(buf)
    }

    lemma OutIsFramed(buf: Message, rtv: int, ds: seq<Message>)
      requires buf != "" && Sends(buf, rtv, ds) && GoesOut(buf, rtv, ds)
      ensures Frames(ds, buf, mMaxTxSize)
    {
      assert buf[..|buf|] == buf;
    }

    ghost predicate AllSent(ms: seq<Message>, rtvs: seq<int>, framed: seq<seq<Message>>) {
      |rtvs| == |framed| == |ms| && forall j | 0 <= j < |ms| :: Sends(ms[j], rtvs[j], framed[j])
    }

    ghost predicate AllOut(ms: seq<Message>, rtvs: seq<int>, framed: seq<seq<Message>>) {
      |rtvs| == |framed| == |ms| && forall j | 0 <= j < |ms| :: GoesOut(ms[j], rtvs[j], framed[j])
    }

    lemma OneMoreSent(ms: seq<Message>, rtvs: seq<int>, framed: seq<seq<Message>>,
                      m: Message, rtv: int, ds: seq<Message>)
      requires AllSent(ms, rtvs, framed) && Sends(m, rtv, ds)
      ensures AllSent(ms + [m], rtvs + [rtv], framed + [ds])
      ensures AllOut(ms, rtvs, framed) && GoesOut(m, rtv, ds) ==> AllOut(ms + [m], rtvs + [rtv], framed + [ds])
    {
    }

    lemma AllOutArrives(ms: seq<Message>, rtvs: seq<int>, framed: seq<seq<Message>>)
      requires forall m <- ms :: Carries(mMaxTxSize, m)
      requires AllSent(ms, rtvs, framed) && AllOut(ms, rtvs, framed)
      ensures ReceiveMany(Flatten(framed), mMaxTxSize, |ms|) == ([], ms)
    {
      forall j | 0 <= j < |ms|
        ensures Carries(mMaxTxSize, ms[j]) && Frames(framed[j], ms[j], mMaxTxSize)
      {
        assert ms[j] in ms;
        OutIsFramed(ms[j], rtvs[j], framed[j]);
      }
      ListArrives(ms, framed, mMaxTxSize);
    }

    /** A send that reports success, whatever the kernel did in between, delivers the message
        exactly when framing carries it and the header went out whole. */
    lemma SuccessArrivesIff(buf: Message, rtv: int, ds: seq<Message>)
      requires buf != "" && Sends(buf, rtv, ds)
      requires rtv == if |buf| <= mMaxTxSize then |buf| else |Header(buf)| + |buf|
      ensures Receive(ds, mMaxTxSize) == ([], Some(buf)) <==>
        Carries(mMaxTxSize, buf) && (|buf| > mMaxTxSize ==> ds[0] == Header(buf))
    {
      if |buf| <= mMaxTxSize {
        assert buf[..|buf|] == buf;
        ArrivesIff(ds, buf, mMaxTxSize);
      } else if ds[0] == Header(buf) {
        ArrivesIff(ds, buf, mMaxTxSize);
      } else {
        CutHeaderFails(ds, buf, mMaxTxSize);
      }
    }

    method SendTo(buf: Message) returns (rtv: int, ghost ds: seq<Message>)
      requires buf != ""
      modifies channel
      ensures channel.queue == old(channel.queue) + ds
      ensures Sends(buf, rtv, ds)
      ensures old(channel.plan) == [] ==> channel.plan == []
      ensures old(channel.plan) == [] && mMaxTxSize > 0 ==> GoesOut(buf, rtv, ds)
    {
      var len := |buf|;
      ds := [];
      if len <= mMaxTxSize {
        rtv := channel.Send(buf);
        assert buf[..len] == buf;
        if rtv > 0 {
          ds := [buf[..rtv]];
        }
      } else {
        var head := Header(buf);
        rtv := channel.Send(head);
        if rtv > 0 {
          assert head[..|head|] == head;
          ghost var first := head[..rtv];
          ghost var pieces;
          rtv, pieces := SendPieces(buf, rtv);
          ds := [first] + pieces;
          assert ds[1..] == pieces;
          rtv := if rtv > 0 then |head| + len else -1;
        }
      }
    }

    /** The sending loop, entered once the header went out with `rtv0` bytes. */
    method SendPieces(buf: Message, rtv0: int) returns (rtv: int, ghost pieces: seq<Message>)
      requires buf != "" && rtv0 > 0
      modifies channel
      ensures channel.queue == old(channel.queue) + pieces
      ensures Pieces(pieces, mMaxTxSize) && Concat(pieces) <= buf
      ensures rtv > 0 <==> Concat(pieces) == buf
      ensures old(channel.plan) == [] ==> channel.plan == [] && (mMaxTxSize > 0 ==> rtv > 0)
    {
      rtv, pieces := rtv0, [];
      var offset := 0;
      while offset < |buf| && rtv > 0
        invariant 0 <= offset <= |buf|
        invariant rtv <= 0 ==> offset < |buf|
        invariant channel.queue == old(channel.queue) + pieces
        invariant Pieces(pieces, mMaxTxSize) && Concat(pieces) == buf[..offset]
        invariant old(channel.plan) == [] ==> channel.plan == [] && (mMaxTxSize > 0 ==> rtv > 0)
        decreases |buf| - offset, rtv
      {
        ghost var more;
        rtv, more := SendPiece(buf, offset, pieces);
        if rtv > 0 {
          pieces, offset := pieces + more, offset + rtv;
        }
      }
      assert buf[..|buf|] == buf;
    }

    /** One turn of the sending loop; `pieces` have gone out so far. */
    method SendPiece(buf: Message, offset: nat, ghost pieces: seq<Message>) returns (rtv: int, ghost more: seq<Message>)
      requires offset < |buf| && Pieces(pieces, mMaxTxSize) && Concat(pieces) == buf[..offset]
      modifies channel
      ensures rtv <= |buf| - offset && channel.queue == old(channel.queue) + more
      ensures Pieces(pieces + more, mMaxTxSize)
      ensures if rtv > 0 then Concat(pieces + more) == buf[..offset + rtv] else more == []
      ensures old(channel.plan) == [] ==> channel.plan == [] && (mMaxTxSize > 0 ==> rtv > 0)
    {
      var size := if |buf| - offset < mMaxTxSize then |buf| - offset else mMaxTxSize;
      var data := buf[offset..offset + size];
      rtv := channel.Send(data);
      more := [];
      if rtv > 0 {
        more := [data[..rtv]];
        ConcatSnoc(pieces, data[..rtv]);
        assert buf[..offset] + data[..rtv] == buf[..offset + rtv];
      }
    }

    /** Receives one message and hands it to the listener, if it is complete. */
    method RecvFrom() returns (nBytes: int, delivered: Option<Message>)
      modifies channel`queue
      ensures (channel.queue, delivered) == Receive(old(channel.queue), mMaxTxSize)
      ensures if delivered.Some? then nBytes == |delivered.value| else nBytes <= 0
    {
      delivered := None;
      var msg: Message;
      nBytes, msg := channel.Recv(mMaxTxSize);
      if nBytes > 0 {
        if IsAbort(msg) {
          nBytes := 0;
        } else if !IsHead(msg) {
          delivered := Some(msg);
        } else {
          var msgLen := ParseLen(msg[|LOC_IPC_HEAD|..]);
          var buffer := "";
          ghost var queue := channel.queue;
          while |buffer| < msgLen && nBytes > 0
            invariant |buffer| <= msgLen && nBytes >= -1
            invariant nBytes > 0 ==> Gather(queue, msgLen, "") == Gather(channel.queue, msgLen - |buffer|, buffer)
            invariant nBytes <= 0 ==> Gather(queue, msgLen, "") == (channel.queue, None)
            decreases msgLen - |buffer|, nBytes
          {
            var data;
            nBytes, data := channel.Recv(msgLen - |buffer|);
            buffer := buffer + data;
          }
          if nBytes > 0 {
            nBytes := msgLen;
            delivered := Some(buffer);
          }
        }
      }
    }
  }

  lemma {:induction false} ConcatSnoc(pieces: seq<Message>, p: Message)
    ensures Concat(pieces + [p]) == Concat(pieces) + p
  {
    if pieces == [] {
      assert pieces + [p] == [p] && [p][1..] == [];
    } else {
      assert (pieces + [p])[1..] == pieces[1..] + [p];
      ConcatSnoc(pieces[1..], p);
    }
  }

  /** Sends the whole list, over a kernel that may do as it likes. */
  method SendAll(sock: Sock, ms: seq<Message>) returns (rtvs: seq<int>, ghost framed: seq<seq<Message>>)
    requires sock.channel.queue == [] && forall m <- ms :: m != ""
    modifies sock.channel
    ensures sock.AllSent(ms, rtvs, framed) && sock.channel.queue == Flatten(framed)
    ensures old(sock.channel.plan) == [] && sock.mMaxTxSize > 0 ==> sock.AllOut(ms, rtvs, framed)
  {
    rtvs, framed := [], [];
    for i := 0 to |ms|
      invariant sock.AllSent(ms[..i], rtvs, framed) && sock.channel.queue == Flatten(framed)
      invariant old(sock.channel.plan) == [] ==> sock.channel.plan == []
      invariant old(sock.channel.plan) == [] && sock.mMaxTxSize > 0 ==> sock.AllOut(ms[..i], rtvs, framed)
    {
      var rtv;
      ghost var ds;
      assert ms[i] in ms && ms[..i + 1] == ms[..i] + [ms[i]];
      rtv, ds := sock.Send(ms[i]);
      FlattenSnoc(framed, ds);
      sock.OneMoreSent(ms[..i], rtvs, framed, ms[i], rtv, ds);
      rtvs, framed := rtvs + [rtv], framed + [ds];
    }
    assert ms[..|ms|] == ms;
  }

  /** Receives `n` times and collects what is delivered. */
  method ReceiveAll(sock: Sock, n: nat) returns (received: seq<Message>)
    modifies sock.channel`queue
    ensures (sock.channel.queue, received) == ReceiveMany(old(sock.channel.queue), sock.mMaxTxSize, n)
  {
    received := [];
    ghost var total := ReceiveMany(sock.channel.queue, sock.mMaxTxSize, n);
    for i := 0 to n
      invariant total.0 == ReceiveMany(sock.channel.queue, sock.mMaxTxSize, n - i).0
      invariant total.1 == received + ReceiveMany(sock.channel.queue, sock.mMaxTxSize, n - i).1
    {
      var nBytes, delivered := sock.RecvFrom();
      if delivered.Some? {
        received := received + [delivered.value];
      }
    }
    assert received + [] == received;
  }

  /** Both ends together: sending any list of carried messages and receiving as often delivers
      the list, in order, and empties the channel, provided every send reports success and
      every header goes out whole; how the kernel cuts the pieces up does not matter.  A
      kernel that accepts what it is given provides that. */
  method Exchange(sock: Sock, ms: seq<Message>)
    returns (rtvs: seq<int>, received: seq<Message>, ghost framed: seq<seq<Message>>)
    requires sock.channel.queue == []
    requires forall m <- ms :: Carries(sock.mMaxTxSize, m)
    modifies sock.channel
    ensures sock.AllSent(ms, rtvs, framed)
    ensures sock.AllOut(ms, rtvs, framed) ==> received == ms && sock.channel.queue == []
    ensures old(sock.channel.plan) == [] ==> sock.AllOut(ms, rtvs, framed)
  {
    assert ms != [] ==> Carries(sock.mMaxTxSize, ms[0]);
    rtvs, framed := SendAll(sock, ms);
    if sock.AllOut(ms, rtvs, framed) {
      sock.AllOutArrives(ms, rtvs, framed);
    }
    received := ReceiveAll(sock, |ms|);
  }

  lemma {:induction false} FlattenSnoc(framed: seq<seq<Message>>, ds: seq<Message>)
    ensures Flatten(framed + [ds]) == Flatten(framed) + ds
  {
    if framed == [] {
      assert framed + [ds] == [ds] && [ds][1..] == [];
    } else {
      assert (framed + [ds])[1..] == framed[1..] + [ds];
      FlattenSnoc(framed[1..], ds);
    }
  }
}
