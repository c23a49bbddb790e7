/** Message framing of gps/utils/LocIpc.cpp: a message that fits one datagram travels as it
    is, a longer one as a header naming its length followed by pieces of it. */
module IpcFraming {
  import opened Wrappers

  /** The bytes of a message or datagram. */
  type Message = string

  const MSG_ABORT := "LocIpc::Sock::ABORT"
  const LOC_IPC_HEAD := "$MSGLEN$"

  // ---------- decimal lengths ----------

  predicate IsDigit(c: char) {
    '0' <= c <= '9'
  }

  function DigitOf(n: nat): char
    requires n < 10
  {
    '0' + n as char
  }

  function ValueOf(c: char): nat
    requires IsDigit(c)
  {
    c as int - '0' as int
  }

  /** `to_string`. */
  function Decimal(n: nat): string {
    if n < 10 then [DigitOf(n)] else Decimal(n / 10) + [DigitOf(n % 10)]
  }

  /** The decimal number at the front of `s`, continuing from `acc`. */
  function ParseFrom(acc: nat, s: string): nat
    decreases |s|
  {
    if s == "" || !IsDigit(s[0]) then acc else ParseFrom(10 * acc + ValueOf(s[0]), s[1..])
  }

  /** What `sscanf` with `%zu` makes of the text behind the header. */
  function ParseLen(s: string): nat {
    ParseFrom(0, s)
  }

  predicate AllDigits(s: string) {
    forall c <- s :: IsDigit(c)
  }

  lemma {:induction false} ParseConcat(acc: nat, a: string, b: string)
    requires AllDigits(a)
    ensures ParseFrom(acc, a + b) == ParseFrom(ParseFrom(acc, a), b)
    decreases |a|
  {
    if a == "" {
      assert a + b == b;
    } else {
      assert (a + b)[1..] == a[1..] + b;
      ParseConcat(10 * acc + ValueOf(a[0]), a[1..], b);
    }
  }

  lemma ParseDigit(acc: nat, n: nat)
    requires n < 10
    ensures ParseFrom(acc, [DigitOf(n)]) == 10 * acc + n
  {
    var s := [DigitOf(n)];
    assert ValueOf(s[0]) == n && s[1..] == "";
    assert ParseFrom(10 * acc + n, s[1..]) == 10 * acc + n;
  }

  /** Reading back a printed length gives the length. */
  lemma {:induction false} DecimalRoundTrip(n: nat)
    ensures AllDigits(Decimal(n)) && Decimal(n) != ""
    ensures ParseLen(Decimal(n)) == n
  {
    if n < 10 {
      ParseDigit(0, n);
    } else {
      DecimalRoundTrip(n / 10);
      ParseConcat(0, Decimal(n / 10), [DigitOf(n % 10)]);
      ParseDigit(n / 10, n % 10);
    }
  }

  /** A printed length that is cut short reads as something smaller. */
  lemma {:induction false} DecimalCut(n: nat, k: nat)
    requires k < |Decimal(n)|
    ensures ParseLen(Decimal(n)[..k]) <= n / 10
  {
    if n < 10 {
      assert Decimal(n)[..k] == "";
    } else {
      var front := Decimal(n / 10);
      if k == |front| {
        assert Decimal(n)[..k] == front;
        DecimalRoundTrip(n / 10);
      } else {
        assert Decimal(n)[..k] == front[..k];
        DecimalCut(n / 10, k);
      }
    }
  }

  function Pow10(k: nat): nat {
    if k == 0 then 1 else 10 * Pow10(k - 1)
  }

  lemma {:induction false} DecimalLength(n: nat, k: nat)
    requires k > 0 && n < Pow10(k)
    ensures |Decimal(n)| <= k
  {
    if n >= 10 {
      DecimalLength(n / 10, k - 1);
    }
  }

  // ---------- datagrams ----------

  function Header(m: Message): Message {
    LOC_IPC_HEAD + Decimal(|m|)
  }

  /** The receiver's buffer is zero-filled, so the text must be followed by a zero or by
      the end of the datagram. */
  predicate IsAbort(d: Message) {
    && |d| >= |MSG_ABORT| && d[..|MSG_ABORT|] == MSG_ABORT
    && (|d| > |MSG_ABORT| ==> d[|MSG_ABORT|] == '\0')
  }

  predicate IsHead(d: Message) {
    |d| >= |LOC_IPC_HEAD| && d[..|LOC_IPC_HEAD|] == LOC_IPC_HEAD
  }

  function Concat(pieces: seq<Message>): Message {
    if pieces == [] then "" else pieces[0] + Concat(pieces[1..])
  }

  /** Pieces that a sender with this datagram size may emit. */
  predicate Pieces(pieces: seq<Message>, max: nat) {
    forall p <- pieces :: 0 < |p| <= max
  }

  /** The datagrams a message may travel as. */
  predicate Frames(ds: seq<Message>, m: Message, max: nat) {
    if |m| <= max then ds == [m]
    else ds != [] && ds[0] == Header(m) && Pieces(ds[1..], max) && Concat(ds[1..]) == m
  }

  // ---------- the receiver ----------

  /** Reading a datagram into a buffer of `size` bytes loses what does not fit. */
  function Cut(d: Message, size: nat): Message {
    if |d| <= size then d else d[..size]
  }

  /** Collects `need` more bytes; a failed or empty read gives up. */
  function Gather(queue: seq<Message>, need: nat, got: Message): (seq<Message>, Option<Message>)
    decreases |queue|
  {
    if need == 0 then (queue, Some(got))
    else if queue == [] then (queue, None)
    else
      var p := Cut(queue[0], need);
      if p == "" then (queue[1..], None) else Gather(queue[1..], need - |p|, got + p)
  }

  /** One receive on a channel: what is left of it, and the message delivered, if any. */
  function Receive(queue: seq<Message>, max: nat): (seq<Message>, Option<Message>) {
    if queue == [] then (queue, None)
    else
      var d := Cut(queue[0], max);
      if d == "" || IsAbort(d) then (queue[1..], None)
      else if !IsHead(d) then (queue[1..], Some(d))
      else Gather(queue[1..], ParseLen(d[|LOC_IPC_HEAD|..]), "")
  }

  /** Receiving `n` times; stops counting when a receive delivers nothing. */
  function ReceiveMany(queue: seq<Message>, max: nat, n: nat): (seq<Message>, seq<Message>)
    decreases n
  {
    if n == 0 then (queue, [])
    else
      var (rest, m) := Receive(queue, max);
      var (rest', ms) := ReceiveMany(rest, max, n - 1);
      (rest', (if m.Some? then [m.value] else []) + ms)
  }

  // ---------- what arrives ----------

  /** The messages framing can carry: a short one must not look like a header or be the
      abort text, and for a long one the header itself must fit a datagram. */
  predicate Carries(max: nat, m: Message) {
    && m != ""
    && if |m| <= max then !IsHead(m) && !IsAbort(m) else |Header(m)| <= max
  }

  /** A message that fits a datagram is carried unless it starts with the header text, is the
      abort text, or starts with that and a zero. */
  lemma ShortCarriedIff(m: Message, max: nat)
    requires 0 < |m| <= max
    ensures Carries(max, m) <==>
      !("$MSGLEN$" <= m) && m != "LocIpc::Sock::ABORT" && !("LocIpc::Sock::ABORT" + "\0" <= m)
  {
    var abort := "LocIpc::Sock::ABORT";
    if |m| > |abort| {
      assert m[..|abort| + 1] == m[..|abort|] + [m[|abort|]];
    }
  }

  lemma HeaderReads(m: Message)
    ensures IsHead(Header(m)) && !IsAbort(Header(m))
    ensures ParseLen(Header(m)[|LOC_IPC_HEAD|..]) == |m|
  {
    DecimalRoundTrip(|m|);
    assert Header(m)[|LOC_IPC_HEAD|..] == Decimal(|m|);
    assert Header(m)[0] == '$' && MSG_ABORT[0] == 'L';
  }

  /** Whatever the sizes of the pieces, the remaining buffer always fits the next one, and
      together they fill it. */
  lemma {:induction false} GatherAll(pieces: seq<Message>, rest: seq<Message>, max: nat, got: Message)
    requires Pieces(pieces, max)
    ensures Gather(pieces + rest, |Concat(pieces)|, got) == (rest, Some(got + Concat(pieces)))
    decreases |pieces|
  {
    if pieces == [] {
      assert pieces + rest == rest && got + "" == got;
    } else {
      var p := pieces[0];
      assert p in pieces;
      assert (pieces + rest)[0] == p && (pieces + rest)[1..] == pieces[1..] + rest;
      GatherAll(pieces[1..], rest, max, got + p);
      assert (got + p) + Concat(pieces[1..]) == got + Concat(pieces);
    }
  }

  /** A carried message arrives whole, and only its own datagrams are consumed. */
  lemma FramedArrives(ds: seq<Message>, rest: seq<Message>, m: Message, max: nat)
    requires Carries(max, m) && Frames(ds, m, max)
    ensures Receive(ds + rest, max) == (rest, Some(m))
  {
    if |m| <= max {
      assert (ds + rest)[1..] == rest;
    } else {
      HeaderReads(m);
      assert (ds + rest)[0] == Header(m) && (ds + rest)[1..] == ds[1..] + rest;
      GatherAll(ds[1..], rest, max, "");
      assert "" + m == m;
    }
  }

  function Flatten(framed: seq<seq<Message>>): seq<Message> {
    if framed == [] then [] else framed[0] + Flatten(framed[1..])
  }

  /** Any list of carried messages, each framed in any way the sender may, is received
      as the same list in the same order, and nothing is left over. */
  lemma {:induction false} ListArrives(ms: seq<Message>, framed: seq<seq<Message>>, max: nat)
    requires |framed| == |ms|
    requires forall i | 0 <= i < |ms| :: Carries(max, ms[i]) && Frames(framed[i], ms[i], max)
    ensures ReceiveMany(Flatten(framed), max, |ms|) == ([], ms)
  {
    if ms != [] {
      FramedArrives(framed[0], Flatten(framed[1..]), ms[0], max);
      ListArrives(ms[1..], framed[1..], max);
      assert [ms[0]] + ms[1..] == ms;
    }
  }

  lemma {:induction false} GatheredLength(queue: seq<Message>, need: nat, got: Message)
    ensures Gather(queue, need, got).1.Some? ==> |Gather(queue, need, got).1.value| == |got| + need
    decreases |queue|
  {
    if need > 0 && queue != [] {
      var p := Cut(queue[0], need);
      if p != "" {
        GatheredLength(queue[1..], need - |p|, got + p);
      }
    }
  }

  /** A message sent on an empty channel arrives as itself, leaving nothing behind, exactly
      when framing carries it. */
  lemma ArrivesIff(ds: seq<Message>, m: Message, max: nat)
    requires m != "" && Frames(ds, m, max)
    ensures Receive(ds, max) == ([], Some(m)) <==> Carries(max, m)
  {
    assert ds + [] == ds;
    if Carries(max, m) {
      FramedArrives(ds, [], m, max);
    } else if |m| <= max {
      assert ds[0] == m && ds[1..] == [];
    } else {
      CutHeaderFails(ds, m, max);
    }
  }

  /** When only part of the header is accepted by the sender's kernel, or fits the receiver's
      datagram, what arrives is never the message, although the sender reports success. */
  lemma CutHeaderFails(ds: seq<Message>, m: Message, max: nat)
    requires max < |m| && ds != [] && ds[0] <= Header(m)
    requires |ds[0]| < |Header(m)| || max < |Header(m)|
    ensures Receive(ds, max).1 != Some(m)
  {
    var d := Cut(ds[0], max);
    assert d == Header(m)[..|d|];
    if IsHead(d) {
      assert d[|LOC_IPC_HEAD|..] == Decimal(|m|)[..|d| - |LOC_IPC_HEAD|];
      DecimalCut(|m|, |d| - |LOC_IPC_HEAD|);
      GatheredLength(ds[1..], ParseLen(d[|LOC_IPC_HEAD|..]), "");
    }
  }

  lemma {:induction false} GatherShort(pieces: seq<Message>, need: nat, max: nat, got: Message)
    requires Pieces(pieces, max) && |Concat(pieces)| < need
    ensures Gather(pieces, need, got) == ([], None)
    decreases |pieces|
  {
    if pieces != [] {
      var p := pieces[0];
      assert p in pieces && Cut(p, need) == p;
      GatherShort(pieces[1..], need - |p|, max, got + p);
    }
  }

  lemma {:induction false} ConcatSplit(a: seq<Message>, b: seq<Message>)
    ensures Concat(a + b) == Concat(a) + Concat(b)
  {
    if a == [] {
      assert a + b == b;
    } else {
      assert (a + b)[1..] == a[1..] + b;
      ConcatSplit(a[1..], b);
    }
  }

  /** A long message of which the last pieces are missing is dropped whole, and what there is of
      it is used up. */
  lemma CutShortIsDropped(ds: seq<Message>, m: Message, max: nat, k: nat)
    requires Carries(max, m) && Frames(ds, m, max) && max < |m| && 1 <= k < |ds|
    ensures Receive(ds[..k], max) == ([], None)
  {
    HeaderReads(m);
    var kept, lost := ds[1..k], ds[k..];
    assert ds[1..] == kept + lost && ds[..k][1..] == kept;
    ConcatSplit(kept, lost);
    assert lost[0] in ds[1..] && |Concat(lost)| >= |lost[0]| > 0;
    assert forall p <- kept :: p in ds[1..];
    GatherShort(kept, |m|, max, "");
  }

  const DEFAULT_MAX := 8192

  /** With the default datagram size every header of a 32-bit length fits. */
  lemma DefaultHeaderFits(m: Message)
    requires |m| < 0x1_0000_0000
    ensures |Header(m)| <= DEFAULT_MAX
  {
    assert Pow10(10) == 10_000_000_000 by {
      assert Pow10(5) == 100_000;
    }
    DecimalLength(|m|, 10);
  }
}
