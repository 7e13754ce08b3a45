/**
 Message framing over a byte stream, common/net.cpp: a 12-byte header in network
 byte order, then the payload. The kernel may move any non-empty part of a buffer
 per call and may interrupt a call; `SendAll` and `RecvAll` loop until done.
 */
module Net {
  import opened Bytes
  import opened Codec

  const PROTO_MAGIC: U32 := 0x50325046
  const PIECE_SIZE: U32 := 512 * 1024
  const MAX_PAYLOAD: U32 := PIECE_SIZE + 8192
  const HEADER: nat := 12

  datatype Message = Message(kind: U16, status: U16, payload: Str)

  function Header(m: Message): (h: Str)
    ensures |h| == HEADER
  {
    BE(PROTO_MAGIC, 4) + BE(m.kind, 2) + BE(m.status, 2) + BE(|m.payload|, 4)
  }

  /** The bytes `send_msg` puts on the wire; the length field keeps 32 bits. */
  function Frame(m: Message): Str { Header(m) + m.payload }

  function FrameAll(ms: seq<Message>): Str {
    if ms == [] then [] else Frame(ms[0]) + FrameAll(ms[1..])
  }

  /** What `recv_msg` makes of all the bytes a peer will ever send. */
  datatype Reception = Closed | Rejected | Delivered(msg: Message, rest: Str)

  function Receive(s: Str): Reception {
    Bounds();
    if |s| < HEADER then Closed
    else if FromBE(s[0..4]) != PROTO_MAGIC then Rejected
    else
      var n := FromBE(s[8..12]);
      if n > MAX_PAYLOAD then Rejected
      else if |s| - HEADER < n then Closed
      else Delivered(Message(FromBE(s[4..6]), FromBE(s[6..8]), s[HEADER..HEADER + n]), s[HEADER + n..])
  }

  /** The messages a session loop handles, and the code `recv_msg` ends it with. */
  datatype Transcript = Transcript(msgs: seq<Message>, code: int)

  function ReceiveAll(s: Str): Transcript
    decreases |s|
  {
    match Receive(s)
    case Closed => Transcript([], 0)
    case Rejected => Transcript([], -1)
    case Delivered(m, rest) => var t := ReceiveAll(rest); Transcript([m] + t.msgs, t.code)
  }

  // ----- properties of the framing ------------------------------------------

  lemma HeaderFields(m: Message, tail: Str)
    ensures var s := Header(m) + tail;
      && s[0..4] == BE(PROTO_MAGIC, 4) && s[4..6] == BE(m.kind, 2) && s[6..8] == BE(m.status, 2)
      && s[8..12] == BE(|m.payload|, 4) && s[HEADER..] == tail
  {
  }

  lemma DeliveryConsumes(s: Str)
    requires Receive(s).Delivered?
    ensures |Receive(s).rest| < |s|
  {
  }

  lemma DeliveredFits(s: Str)
    ensures Receive(s).Delivered? ==> |Receive(s).msg.payload| <= MAX_PAYLOAD
  {
    hide FromBE;
  }

  /** A frame comes back as it was sent exactly when its payload is within the limit. */
  lemma FrameExact(m: Message, rest: Str)
    ensures Receive(Frame(m) + rest) == Delivered(m, rest) <==> |m.payload| <= MAX_PAYLOAD
  {
    var s := Frame(m) + rest;
    DeliveredFits(s);
    hide Header, BE, FromBE, Bound;
    assert s == Header(m) + (m.payload + rest);
    HeaderFields(m, m.payload + rest);
    Bounds();
    FromBEInverts(PROTO_MAGIC, 4);
    FromBEInverts(m.kind, 2);
    FromBEInverts(m.status, 2);
    if |m.payload| <= MAX_PAYLOAD {
      FromBEInverts(|m.payload|, 4);
      assert s[HEADER..HEADER + |m.payload|] == m.payload;
      assert s[HEADER + |m.payload|..] == rest;
    }
  }

  /**
   And nothing else is received: whatever is handed over was framed just so, with the magic number
   in front, and the bytes behind the frame are what is left.
   */
  lemma DeliveredIsFrame(s: Str)
    ensures Receive(s).Delivered? ==> s == Frame(Receive(s).msg) + Receive(s).rest
  {
    if Receive(s).Delivered? {
      BEInverts(s[0..4]);
      BEInverts(s[4..6]);
      BEInverts(s[6..8]);
      BEInverts(s[8..12]);
      hide BE, FromBE, Bound;
      var m, rest := Receive(s).msg, Receive(s).rest;
      assert Header(m) == s[0..4] + s[4..6] + s[6..8] + s[8..12] == s[..HEADER];
      assert m.payload + rest == s[HEADER..];
      assert Frame(m) + rest == Header(m) + (m.payload + rest);
    }
  }

  /** A payload over the limit whose length still fits 32 bits ends the session. */
  lemma OversizedRejected(m: Message, rest: Str)
    requires MAX_PAYLOAD < |m.payload| < 0x1_0000_0000
    ensures Receive(Frame(m) + rest) == Rejected
  {
    hide Header, BE, FromBE, Bound;
    assert Frame(m) + rest == Header(m) + (m.payload + rest);
    HeaderFields(m, m.payload + rest);
    Bounds();
    FromBEInverts(PROTO_MAGIC, 4);
    FromBEInverts(|m.payload|, 4);
  }

  /** A session reads back exactly the messages sent, then sees the close. */
  lemma {:induction false} AllDelivered(ms: seq<Message>)
    requires forall m | m in ms :: |m.payload| <= MAX_PAYLOAD
    ensures ReceiveAll(FrameAll(ms)) == Transcript(ms, 0)
  {
    hide Frame, Receive, Header;
    if ms == [] {
      NothingCut([]);
    }
    if ms != [] {
      FrameExact(ms[0], FrameAll(ms[1..]));
      AllDelivered(ms[1..]);
      assert ms == [ms[0]] + ms[1..];
    }
  }

  /** Messages before an oversized one arrive; nothing after it does. */
  lemma {:induction false} DeliveredUpToOversized(ms: seq<Message>, bad: Message, more: seq<Message>)
    requires forall m | m in ms :: |m.payload| <= MAX_PAYLOAD
    requires MAX_PAYLOAD < |bad.payload| < 0x1_0000_0000
    ensures ReceiveAll(FrameAll(ms + [bad] + more)) == Transcript(ms, -1)
  {
    hide Frame, Receive, Header;
    var all := ms + [bad] + more;
    if ms == [] {
      assert all[0] == bad;
      OversizedRejected(bad, FrameAll(all[1..]));
    } else {
      assert all[0] == ms[0] && all[1..] == ms[1..] + [bad] + more;
      FrameExact(ms[0], FrameAll(all[1..]));
      DeliveredUpToOversized(ms[1..], bad, more);
      assert ms == [ms[0]] + ms[1..];
    }
  }

  /** A connection cut at any byte delivers a prefix of the messages, and reads as a clean close. */
  lemma {:induction false} CutDeliversPrefix(ms: seq<Message>, s: Str) returns (k: nat)
    requires forall m | m in ms :: |m.payload| <= MAX_PAYLOAD
    requires s <= FrameAll(ms)
    ensures k <= |ms| && ReceiveAll(s) == Transcript(ms[..k], 0)
    ensures FrameAll(ms[..k]) <= s && (k < |ms| ==> |s| < |FrameAll(ms[..k + 1])|)
    decreases |ms|
  {
    hide Frame, Receive, ReceiveAll, FrameAll, Header;
    if ms == [] {
      k := 0;
      NothingCut(s);
    } else {
      var m, t := ms[0], ms[1..];
      var n := |Frame(m)|;
      assert ms == [m] + t;
      FrameAllCons(m, t);
      if |s| < n {
        k := 0;
        assert s == Frame(m)[..|s|];
        CutInside(m, |s|);
        assert ms[..0] == [] && ms[..1] == [m];
      } else {
        assert s == Frame(m) + s[n..];
        var j := CutDeliversPrefix(t, s[n..]);
        CutBeyond(m, t, s[n..], j);
        k := j + 1;
      }
    }
  }

  lemma NothingCut(s: Str)
    requires s <= FrameAll([])
    ensures ReceiveAll(s) == Transcript([], 0) && FrameAll([]) == [] == s
  {
  }

  /** A cut after the first frame. */
  lemma CutBeyond(m: Message, t: seq<Message>, s: Str, j: nat)
    requires |m.payload| <= MAX_PAYLOAD && j <= |t| && ReceiveAll(s) == Transcript(t[..j], 0)
    requires FrameAll(t[..j]) <= s && (j < |t| ==> |s| < |FrameAll(t[..j + 1])|)
    ensures ReceiveAll(Frame(m) + s) == Transcript(([m] + t)[..j + 1], 0)
    ensures FrameAll(([m] + t)[..j + 1]) <= Frame(m) + s
    ensures j < |t| ==> |Frame(m) + s| < |FrameAll(([m] + t)[..j + 2])|
  {
    hide Frame, Receive, FrameAll, Header;
    FrameExact(m, s);
    assert ([m] + t)[..j + 1] == [m] + t[..j];
    FrameAllCons(m, t[..j]);
    if j < |t| {
      assert ([m] + t)[..j + 2] == [m] + t[..j + 1];
      FrameAllCons(m, t[..j + 1]);
    }
  }

  lemma CutInside(m: Message, n: nat)
    requires |m.payload| <= MAX_PAYLOAD && n < |Frame(m)|
    ensures ReceiveAll(Frame(m)[..n]) == Transcript([], 0)
    ensures FrameAll([]) == [] && FrameAll([m]) == Frame(m)
  {
    CutFrame(m, n);
    assert FrameAll([m]) == Frame(m) + FrameAll([]);
  }

  lemma FrameAllCons(m: Message, ms: seq<Message>)
    ensures FrameAll([m] + ms) == Frame(m) + FrameAll(ms)
  {
    assert ([m] + ms)[1..] == ms;
  }

  lemma CutFrame(m: Message, n: nat)
    requires |m.payload| <= MAX_PAYLOAD && n < |Frame(m)|
    ensures Receive(Frame(m)[..n]) == Closed
  {
    var s := Frame(m)[..n];
    if n >= HEADER {
      assert s == Header(m) + m.payload[..n - HEADER];
      HeaderFields(m, m.payload[..n - HEADER]);
      Bounds();
      FromBEInverts(PROTO_MAGIC, 4);
      FromBEInverts(|m.payload|, 4);
    }
  }

  // ----- the loops ----------------------------------------------------------

  /** One system call: bytes moved, a retryable interrupt, or a dead socket. */
  datatype Io = Moved(n: nat) | Interrupted | Dead

  /**
   One direction of a connection. `wire` holds the bytes sent and not yet received;
   the receiver sees the close once it has drained them. Interrupts are finitely many.
   */
  class Link {
    var wire: Str
    var healthy: bool
    var interrupts: nat

    constructor (wire: Str, healthy: bool, interrupts: nat)
      ensures this.wire == wire && this.healthy == healthy && this.interrupts == interrupts
    {
      this.wire, this.healthy, this.interrupts := wire, healthy, interrupts;
    }

    method Send(p: Str) returns (io: Io)
      requires p != []
      modifies this`wire, this`interrupts
      ensures io.Moved? ==> 0 < io.n <= |p| && wire == old(wire) + p[..io.n] && interrupts == old(interrupts)
      ensures io.Interrupted? ==> wire == old(wire) && interrupts < old(interrupts)
      ensures io.Dead? ==> wire == old(wire) && !healthy
    {
      var choice: int := *;
      if !healthy && choice == 0 { return Dead; }
      if interrupts > 0 && choice == 1 { interrupts := interrupts - 1; return Interrupted; }
      var n: nat :| 0 < n <= |p|;
      wire := wire + p[..n];
      io := Moved(n);
    }

    /** `Moved(0)` is the peer's close. */
    method Recv(max: nat) returns (io: Io, p: Str)
      requires max > 0
      modifies this`wire, this`interrupts
      ensures io.Moved? ==> io.n == |p| && |p| <= max && old(wire) == p + wire && interrupts == old(interrupts)
      ensures io.Moved? && io.n == 0 ==> old(wire) == []
      ensures io.Interrupted? ==> wire == old(wire) && interrupts < old(interrupts)
      ensures io.Dead? ==> wire == old(wire) && !healthy
    {
      p := [];
      var choice: int := *;
      if !healthy && choice == 0 { return Dead, []; }
      if interrupts > 0 && choice == 1 { interrupts := interrupts - 1; return Interrupted, []; }
      if wire == [] { return Moved(0), []; }
      var n: nat :| 0 < n <= max && n <= |wire|;
      p := wire[..n];
      wire := wire[n..];
      io := Moved(n);
    }
  }

  method SendAll(link: Link, buf: Str) returns (r: int)
    modifies link`wire, link`interrupts
    ensures r == 1 || (r == -1 && !link.healthy)
    ensures r == 1 ==> link.wire == old(link.wire) + buf
    ensures r != 1 ==> exists k :: 0 <= k < |buf| && link.wire == old(link.wire) + buf[..k]
  {
    var sent := 0;
    assert old(link.wire) + buf[..0] == old(link.wire);
    while sent < |buf|
      invariant sent <= |buf| && link.wire == old(link.wire) + buf[..sent]
      decreases |buf| - sent, link.interrupts
    {
      var io := link.Send(buf[sent..]);
      match io {
        case Dead => return -1;
        case Interrupted =>
        case Moved(n) =>
          assert buf[..sent + n] == buf[..sent] + buf[sent..][..n];
          sent := sent + n;
      }
    }
    assert buf[..sent] == buf;
    r := 1;
  }

  method RecvAll(link: Link, n: nat) returns (r: int, got: Str)
    modifies link`wire, link`interrupts
    ensures r == 1 ==> |got| == n && old(link.wire) == got + link.wire
    ensures r == 0 ==> |old(link.wire)| < n && link.wire == []
    ensures r == 1 || r == 0 || (r == -1 && !link.healthy)
  {
    got := [];
    while |got| < n
      invariant |got| <= n && old(link.wire) == got + link.wire
      decreases n - |got|, link.interrupts
    {
      ghost var before := link.wire;
      var io, p := link.Recv(n - |got|);
      match io {
        case Dead => return -1, got;
        case Interrupted =>
        case Moved(k) =>
          if k == 0 { return 0, got; }
          assert got + before == (got + p) + link.wire;
          got := got + p;
      }
    }
    r := 1;
  }

  method SendMsg(link: Link, m: Message) returns (r: int)
    modifies link`wire, link`interrupts
    ensures r == 1 || (r == -1 && !link.healthy)
    ensures r == 1 ==> link.wire == old(link.wire) + Frame(m)
    ensures r != 1 ==> exists k :: 0 <= k < |Frame(m)| && link.wire == old(link.wire) + Frame(m)[..k]
  {
    r := SendAll(link, Header(m));
    if r != 1 {
      ghost var k :| 0 <= k < HEADER && link.wire == old(link.wire) + Header(m)[..k];
      assert Frame(m)[..k] == Header(m)[..k];
      return;
    }
    if m.payload == [] { assert Frame(m) == Header(m); return 1; }
    ghost var w := link.wire;
    r := SendAll(link, m.payload);
    if r == 1 {
      assert w + m.payload == old(link.wire) + Frame(m);
    } else {
      ghost var k :| 0 <= k < |m.payload| && link.wire == w + m.payload[..k];
      assert Frame(m)[..HEADER + k] == Header(m) + m.payload[..k];
      assert link.wire == old(link.wire) + Frame(m)[..HEADER + k];
    }
  }

  method RecvMsg(link: Link) returns (r: int, m: Message)
    modifies link`wire, link`interrupts
    ensures link.healthy ==> r == match Receive(old(link.wire)) case Delivered(_,
      _) => 1 case Closed => 0 case Rejected => -1
    ensures r == 1 ==> Receive(old(link.wire)) == Delivered(m, link.wire)
    ensures link.healthy && r == -1 ==> Receive(old(link.wire)) == Rejected
  {
    m := Message(0, 0, []);
    ghost var s := link.wire;
    var h;
    r, h := RecvAll(link, HEADER);
    if r != 1 { return; }
    ghost var t := link.wire;
    assert s == h + t && s[0..4] == h[0..4] && s[4..6] == h[4..6] && s[6..8] == h[6..8] && s[8..12] == h[8..12]
      && s[12..] == t;
    Bounds();
    var n := FromBE(h[8..12]);
    if FromBE(h[0..4]) != PROTO_MAGIC { return -1, m; }
    if n > MAX_PAYLOAD { return -1, m; }
    m := Message(FromBE(h[4..6]), FromBE(h[6..8]), []);
    var p;
    r, p := RecvAll(link, n);
    if r == 1 {
      assert s[HEADER..HEADER + n] == p && s[HEADER + n..] == link.wire;
      m := m.(payload := p);
    }
  }

  /** The session loop: handle messages until the stream ends or misbehaves. */
  method RecvUntilEnd(link: Link) returns (ms: seq<Message>, r: int)
    modifies link`wire, link`interrupts
    ensures link.healthy ==> Transcript(ms, r) == ReceiveAll(old(link.wire))
  {
    ms := [];
    var m;
    r, m := RecvMsg(link);
    ghost var cur := old(link.wire);
    while r == 1
      invariant link.healthy ==>
        && r == (match Receive(cur) case Delivered(_, _) => 1 case Closed => 0 case Rejected => -1)
        && ReceiveAll(old(link.wire)) == Transcript(ms + ReceiveAll(cur).msgs, ReceiveAll(cur).code)
      invariant r == 1 ==> Receive(cur) == Delivered(m, link.wire)
      decreases |cur|
    {
      assert ReceiveAll(cur).msgs == [m] + ReceiveAll(link.wire).msgs;
      assert ms + ([m] + ReceiveAll(link.wire).msgs) == (ms + [m]) + ReceiveAll(link.wire).msgs;
      ms := ms + [m];
      cur := link.wire;
      r, m := RecvMsg(link);
    }
    assert ms + [] == ms;
  }

  // ----- sender and receiver at the same time -------------------------------

  /** Where `recv_msg` stands: inside the header, inside the payload, or behind its last message. */
  datatype Reader = InHeader(got: Str) | InPayload(header: Str, got: Str) | Ended(code: int)

  /** The bytes taken of the message being read. */
  function Taken(r: Reader): Str {
    match r case InHeader(got) => got case InPayload(h, got) => h + got case Ended(_) => []
  }

  predicate GoodHeader(h: Str) {
    |h| == HEADER && (Bounds(); FromBE(h[0..4]) == PROTO_MAGIC) && FromBE(h[8..12]) <= MAX_PAYLOAD
  }

  ghost predicate ValidReader(r: Reader) {
    match r
    case InHeader(got) => |got| < HEADER
    case InPayload(h, got) => GoodHeader(h) && |got| < FromBE(h[8..12])
    case Ended(_) => true
  }

  /** How many bytes it asks for. */
  function Wanted(r: Reader): (n: nat)
    requires ValidReader(r) && !r.Ended?
    ensures n > 0
  {
    if r.InHeader? then HEADER - |r.got| else FromBE(r.header[8..12]) - |r.got|
  }

  /** What it makes of the bytes it gets: the next state, and the message they complete, if any. */
  function Take(r: Reader, p: Str): (Reader, Option<Message>)
    requires ValidReader(r) && !r.Ended? && |p| <= Wanted(r)
  {
    if p == [] then (Ended(0), None)
    else if r.InHeader? then
      var h := r.got + p;
      if |h| < HEADER then (InHeader(h), None)
      else if !GoodHeader(h) then (Ended(-1), None)
      else Finish(h, [])
    else Finish(r.header, r.got + p)
  }

  /** A complete payload is handed over; the next message may begin. */
  function Finish(h: Str, got: Str): (Reader, Option<Message>)
    requires GoodHeader(h) && |got| <= FromBE(h[8..12])
  {
    Bounds();
    if |got| < FromBE(h[8..12]) then (InPayload(h, got), None)
    else (InHeader([]), Some(Message(FromBE(h[4..6]), FromBE(h[6..8]), got)))
  }

  lemma FrameHead(m: Message, s: Str)
    requires |m.payload| <= MAX_PAYLOAD && |s| >= HEADER && s <= Frame(m)
    ensures s[..HEADER] == Header(m) && GoodHeader(s[..HEADER]) && FromBE(s[..HEADER][8..12]) == |m.payload|
    ensures FromBE(s[..HEADER][4..6]) == m.kind && FromBE(s[..HEADER][6..8]) == m.status
    ensures s[HEADER..] <= m.payload
  {
    hide Header, BE, FromBE, Bound;
    var h := s[..HEADER];
    assert s == Frame(m)[..|s|];
    assert h == Header(m) && h + [] == h;
    HeaderFields(m, []);
    HeaderMeans(m);
    assert h[0..4] == BE(PROTO_MAGIC, 4) && h[4..6] == BE(m.kind, 2);
    assert h[6..8] == BE(m.status, 2) && h[8..12] == BE(|m.payload|, 4);
    assert Frame(m)[HEADER..] == m.payload;
    assert s[HEADER..] == m.payload[..|s| - HEADER];
  }

  /** The four fields of a header, decoded. */
  lemma HeaderMeans(m: Message)
    requires |m.payload| < 0x1_0000_0000
    ensures FromBE(BE(PROTO_MAGIC, 4)) == PROTO_MAGIC && FromBE(BE(|m.payload|, 4)) == |m.payload|
    ensures FromBE(BE(m.kind, 2)) == m.kind && FromBE(BE(m.status, 2)) == m.status
  {
    hide BE, FromBE, Bound;
    Bounds();
    FromBEInverts(PROTO_MAGIC, 4);
    FromBEInverts(m.kind, 2);
    FromBEInverts(m.status, 2);
    FromBEInverts(|m.payload|, 4);
  }

  /** The reader inside the frame of m: it goes on, or has just handed over m. */
  lemma TakeWithin(m: Message, r: Reader, p: Str)
    requires |m.payload| <= MAX_PAYLOAD && ValidReader(r) && !r.Ended? && p != [] && |p| <= Wanted(r)
    requires Taken(r) + p <= Frame(m)
    ensures var (t, done) := Take(r, p);
      && ValidReader(t) && !t.Ended?
      && if done.Some? then done.value == m && Taken(r) + p == Frame(m) && Taken(t) == [] else Taken(t) == Taken(r) + p
  {
    hide Frame;
    match r
    case InHeader(got) => TakeOfHeader(m, got, p);
    case InPayload(h, got) => TakeOfPayload(m, h, got, p);
  }

  lemma TakeOfHeader(m: Message, got: Str, p: Str)
    requires |m.payload| <= MAX_PAYLOAD && |got| < HEADER && p != [] && |got| + |p| <= HEADER
    requires got + p <= Frame(m)
    ensures var (t, done) := Take(InHeader(got), p);
      && ValidReader(t) && !t.Ended?
      && if done.Some? then done.value == m && got + p == Frame(m) && Taken(t) == [] else Taken(t) == got + p
  {
    var h := got + p;
    if |h| == HEADER {
      FrameHead(m, h);
      assert h[..HEADER] == h && h + [] == h;
      hide Header, FromBE, Bound, BE;
      if m.payload == [] { assert Frame(m) == Header(m); }
    }
  }

  lemma TakeOfPayload(m: Message, h: Str, got: Str, p: Str)
    requires |m.payload| <= MAX_PAYLOAD && ValidReader(InPayload(h, got)) && p != []
    requires |p| <= Wanted(InPayload(h, got)) && h + got + p <= Frame(m)
    ensures var (t, done) := Take(InPayload(h, got), p);
      && ValidReader(t) && !t.Ended?
      && if done.Some? then done.value == m && h + got + p == Frame(m) && Taken(t) == [] else Taken(t) == h + got + p
  {
    FrameHead(m, h + got + p);
    PayloadPart(m, h, got, p);
    hide Header, FromBE, Bound, BE, Frame;
    assert h + (got + p) == h + got + p;
  }

  lemma PayloadPart(m: Message, h: Str, got: Str, p: Str)
    requires |h| == HEADER && h + got + p <= Frame(m) && (h + got + p)[..HEADER] == Header(m)
    ensures (h + got + p)[..HEADER] == h && got + p <= m.payload
    ensures |got + p| == |m.payload| ==> got + p == m.payload && h + got + p == Frame(m)
  {
    hide Header;
    var all := h + got + p;
    assert all[HEADER..] == got + p && all == Frame(m)[..|all|];
    assert Frame(m)[HEADER..] == m.payload;
    assert all[HEADER..] == m.payload[..|got + p|];
  }

  /** Taking bytes in two parts is taking them at once, as `recv_all` does when it loops. */
  lemma TakeSplit(r: Reader, p: Str, q: Str)
    requires ValidReader(r) && !r.Ended? && p != [] && q != [] && |p| + |q| <= Wanted(r)
    ensures var (t, done) := Take(r, p);
      done.None? && ValidReader(t) && !t.Ended? && |q| <= Wanted(t) && Take(t, q) == Take(r, p + q)
  {
    hide GoodHeader, FromBE;
    match r
    case InHeader(got) => assert got + p + q == got + (p + q);
    case InPayload(h, got) => assert got + p + q == got + (p + q);
  }

  /** The two reads of `recv_msg`, a header and a payload, as steps of the reader. */
  lemma TakesReceive(s: Str)
    ensures match Receive(s)
      case Delivered(m, rest) =>
        && |s| >= HEADER + |m.payload| && rest == s[HEADER + |m.payload|..]
        && var (r, done) := Take(InHeader([]), s[..HEADER]);
        (if m.payload == [] then r == InHeader([]) && done == Some(m)
         else
           && done.None? && ValidReader(r) && !r.Ended? && Wanted(r) == |m.payload|
           && Take(r, s[HEADER..HEADER + |m.payload|]) == (InHeader([]), Some(m)))
      case Rejected => |s| >= HEADER && Take(InHeader([]), s[..HEADER]) == (Ended(-1), None)
      case Closed =>
        |s| < HEADER || var (r, done) := Take(InHeader([]), s[..HEADER]);
          done.None? && ValidReader(r) && !r.Ended? && |s[HEADER..]| < Wanted(r)
  {
    if |s| >= HEADER {
      var h := s[..HEADER];
      hide FromBE;
      Bounds();
      assert [] + h == h && h[0..4] == s[0..4] && h[4..6] == s[4..6] && h[6..8] == s[6..8] && h[8..12] == s[8..12];
      var r := Receive(s);
      if r.Delivered? { assert [] + r.msg.payload == r.msg.payload == s[HEADER..HEADER + |r.msg.payload|]; }
    }
  }

  /** The reader never asks for more than what is left of the frame. */
  lemma WantedFits(m: Message, r: Reader)
    requires |m.payload| <= MAX_PAYLOAD && ValidReader(r) && !r.Ended? && Taken(r) <= Frame(m)
    ensures |Taken(r)| + Wanted(r) <= |Frame(m)|
  {
    if r.InPayload? { FrameHead(m, Taken(r)); }
  }

  /** The buffers `send_msg` hands to `send_all`, one after the other. */
  function Buffers(ms: seq<Message>): seq<Str> {
    if ms == [] then [] else [Header(ms[0])] + (if ms[0].payload == [] then [] else [ms[0].payload]) + Buffers(ms[1..])
  }

  function Joined(bs: seq<Str>): Str {
    if bs == [] then [] else bs[0] + Joined(bs[1..])
  }

  lemma {:induction false} JoinedAppend(a: seq<Str>, b: seq<Str>)
    ensures Joined(a + b) == Joined(a) + Joined(b)
  {
    if a == [] {
      assert a + b == b;
    } else {
      assert (a + b)[1..] == a[1..] + b && (a + b)[0] == a[0];
      JoinedAppend(a[1..], b);
      assert a[0] + (Joined(a[1..]) + Joined(b)) == (a[0] + Joined(a[1..])) + Joined(b);
    }
  }

  lemma {:induction false} BuffersJoin(ms: seq<Message>)
    ensures Joined(Buffers(ms)) == FrameAll(ms)
  {
    if ms != [] {
      hide Header;
      var m := ms[0];
      BuffersJoin(ms[1..]);
      var mine := [Header(m)] + if m.payload == [] then [] else [m.payload];
      assert Buffers(ms) == mine + Buffers(ms[1..]);
      JoinedAppend(mine, Buffers(ms[1..]));
      assert Joined(mine) == Frame(m) by {
        if m.payload == [] {
          assert mine == [Header(m)] && mine[1..] == [];
        } else {
          assert mine == [Header(m), m.payload] && mine[1..] == [m.payload] && |mine[2..]| == 0;
          assert Joined([m.payload]) == m.payload + Joined([]);
        }
      }
    }
  }

  /** What is handed over, what is taken, what is on the wire and what is unsent make up the stream. */
  ghost predicate Streaming(ms: seq<Message>, got: seq<Message>, r: Reader, wire: Str, unsent: Str) {
    && got <= ms && ValidReader(r)
    && if r.Ended? then got == ms && r.code == 0 && wire == [] == unsent
       else FrameAll(ms[|got|..]) == Taken(r) + (wire + unsent)
  }

  /** The reader takes some of what is on the wire. */
  lemma ReadKeeps(ms: seq<Message>, got: seq<Message>, r: Reader, wire: Str, unsent: Str, p: Str, rest: Str)
    requires forall m | m in ms :: |m.payload| <= MAX_PAYLOAD
    requires Streaming(ms, got, r, wire, unsent) && !r.Ended? && |p| <= Wanted(r) && wire == p + rest
    requires p == [] ==> wire == [] == unsent
    ensures var (t, done) := Take(r, p);
      Streaming(ms, if done.Some? then got + [done.value] else got, t, rest, unsent)
  {
    hide Take, Frame, Header, FrameAll;
    var todo := ms[|got|..];
    if todo == [] {
      NoFrames();
      assert Taken(r) == [] && p == [];
      Nothing(r);
      assert got == ms;
    } else {
      var m, more := todo[0], todo[1..];
      assert m == ms[|got|] && todo == [m] + more && more == ms[|got| + 1..];
      FrameAllCons(m, more);
      var stream := FrameAll(todo);
      TakenFits(m, r, stream);
      WantedFits(m, r);
      assert |stream| >= |Frame(m)| > |Taken(r)|;
      assert p != [];
      StreamSplit(Taken(r), p, rest, unsent, Frame(m), FrameAll(more));
      TakeWithin(m, r, p);
    }
  }

  lemma NoFrames()
    ensures FrameAll([]) == []
  {
  }

  /** The bytes taken so far and the new ones begin a frame; if they are all of it, what follows is left. */
  lemma StreamSplit(taken: Str, p: Str, rest: Str, unsent: Str, frame: Str, more: Str)
    requires taken + (p + rest + unsent) == frame + more && |taken| + |p| <= |frame|
    ensures taken + p <= frame
    ensures taken + p == frame ==> [] + (rest + unsent) == more
    ensures (taken + p) + (rest + unsent) == frame + more
  {
    var all := frame + more;
    assert all == (taken + p) + (rest + unsent);
    assert all[..|taken| + |p|] == taken + p && frame[..|taken| + |p|] == all[..|taken| + |p|];
    assert taken + p == frame ==> all[|frame|..] == rest + unsent;
  }

  lemma Nothing(r: Reader)
    requires ValidReader(r) && !r.Ended?
    ensures Take(r, []) == (Ended(0), None)
  {
  }

  /** What was taken belongs to one frame: the reader is not behind its end. */
  lemma TakenFits(m: Message, r: Reader, stream: Str)
    requires |m.payload| <= MAX_PAYLOAD && ValidReader(r) && !r.Ended?
    requires Taken(r) <= stream && Frame(m) <= stream
    ensures Taken(r) <= Frame(m)
  {
    var k := |Taken(r)|;
    if k > |Frame(m)| {
      assert stream[..HEADER] == Frame(m)[..HEADER] == r.header;
      FrameHead(m, Frame(m));
    }
    assert stream[..k] == Taken(r) && stream[..|Frame(m)|] == Frame(m);
    assert Taken(r) == Frame(m)[..k];
  }

  /**
   Sender and receiver at the same time, over any fragmentation of the stream by the kernel and
   any interleaving of the two ends: the receiver hands over exactly the messages that are sent,
   in order, and then sees a clean close.
   */
  method Converse(ms: seq<Message>, link: Link) returns (got: seq<Message>, r: int)
    requires link.wire == [] && link.healthy
    requires forall m | m in ms :: |m.payload| <= MAX_PAYLOAD
    modifies link`wire, link`interrupts
    ensures got == ms && r == 0
  {
    hide Take, Frame, Header, FrameAll, Streaming, Buffers, Joined;
    var bufs := Buffers(ms);
    var reader := InHeader([]);
    got := [];
    BuffersJoin(ms);
    StreamStarts(ms, Joined(bufs));
    while !reader.Ended?
      invariant link.healthy && Streaming(ms, got, reader, link.wire, Joined(bufs))
      decreases if reader.Ended? then 0 else 1, 2 * |Joined(bufs)| + |link.wire|, |bufs|, link.interrupts
    {
      var sending: bool := *;
      if bufs != [] && (sending || link.wire == []) {
        ghost var wire, unsent := link.wire, Joined(bufs);
        bufs := SendSome(link, bufs);
        StreamMoves(ms, got, reader, wire, unsent, link.wire, Joined(bufs));
      } else {
        if bufs == [] { NothingUnsent(); }
        reader, got := ReadSome(link, ms, got, reader, Joined(bufs));
      }
    }
    r := reader.code;
    StreamEnds(ms, got, reader, link.wire, Joined(bufs));
  }

  /** One call of the sender: bytes move from the first buffer to the wire, or the buffer is done. */
  method SendSome(link: Link, bufs: seq<Str>) returns (rest: seq<Str>)
    requires bufs != [] && link.healthy
    modifies link`wire, link`interrupts
    ensures link.wire + Joined(rest) == old(link.wire) + Joined(bufs)
    ensures |Joined(rest)| < |Joined(bufs)|
      || (link.wire == old(link.wire) && |rest| < |bufs|)
      || (link.wire == old(link.wire) && rest == bufs && link.interrupts < old(link.interrupts))
  {
    rest := bufs;
    if bufs[0] == [] {
      assert Joined(bufs) == Joined(bufs[1..]);
      rest := bufs[1..];
    } else {
      var io := link.Send(bufs[0]);
      if io.Moved? {
        rest := bufs[0 := bufs[0][io.n..]];
        FirstMoved(old(link.wire), bufs, io.n);
      }
    }
  }

  lemma FirstMoved(wire: Str, bufs: seq<Str>, n: nat)
    requires bufs != [] && 0 < n <= |bufs[0]|
    ensures var rest := bufs[0 := bufs[0][n..]];
      |Joined(rest)| == |Joined(bufs)| - n && wire + bufs[0][..n] + Joined(rest) == wire + Joined(bufs)
  {
    var rest := bufs[0 := bufs[0][n..]];
    assert rest[0] == bufs[0][n..] && rest[1..] == bufs[1..];
    assert bufs[0] == bufs[0][..n] + bufs[0][n..];
    hide Joined;
    assert Joined(bufs) == bufs[0] + Joined(bufs[1..]) && Joined(rest) == rest[0] + Joined(rest[1..]) by {
      JoinedFirst(bufs);
      JoinedFirst(rest);
    }
  }

  lemma JoinedFirst(bs: seq<Str>)
    requires bs != []
    ensures Joined(bs) == bs[0] + Joined(bs[1..])
  {
  }

  lemma NothingUnsent()
    ensures Joined([]) == []
  {
  }

  /** One call of the receiver; it reads the close only when nothing is left to send. */
  method ReadSome(link: Link, ghost ms: seq<Message>, got: seq<Message>, reader: Reader, ghost unsent: Str)
    returns (next: Reader, more: seq<Message>)
    requires link.healthy && !reader.Ended? && Streaming(ms, got, reader, link.wire, unsent)
    requires forall m | m in ms :: |m.payload| <= MAX_PAYLOAD
    requires link.wire == [] ==> unsent == []
    modifies link`wire, link`interrupts
    ensures Streaming(ms, more, next, link.wire, unsent)
    ensures next.Ended? || |link.wire| < |old(link.wire)|
      || (link.wire == old(link.wire) && link.interrupts < old(link.interrupts))
  {
    hide Take, Frame, Header, FrameAll, Streaming, Joined;
    StreamValid(ms, got, reader, link.wire, unsent);
    next, more := reader, got;
    var io, p := link.Recv(Wanted(reader));
    if io.Moved? {
      ReadKeeps(ms, got, reader, old(link.wire), unsent, p, link.wire);
      var (t, done) := Take(reader, p);
      if p == [] { Nothing(reader); }
      next := t;
      if done.Some? { more := got + [done.value]; }
    }
  }

  lemma StreamStarts(ms: seq<Message>, unsent: Str)
    requires unsent == FrameAll(ms)
    ensures Streaming(ms, [], InHeader([]), [], unsent)
  {
    hide FrameAll;
    assert ms[0..] == ms && [] + ([] + unsent) == unsent;
  }

  lemma StreamValid(ms: seq<Message>, got: seq<Message>, r: Reader, wire: Str, unsent: Str)
    requires Streaming(ms, got, r, wire, unsent)
    ensures ValidReader(r)
  {
  }

  lemma StreamEnds(ms: seq<Message>, got: seq<Message>, r: Reader, wire: Str, unsent: Str)
    requires Streaming(ms, got, r, wire, unsent) && r.Ended?
    ensures got == ms && r.code == 0
  {
  }

  lemma StreamMoves(ms: seq<Message>, got: seq<Message>, r: Reader, wire: Str, unsent: Str, wire': Str, unsent': Str)
    requires Streaming(ms, got, r, wire, unsent) && !r.Ended? && wire + unsent == wire' + unsent'
    ensures Streaming(ms, got, r, wire', unsent')
  {
  }
}
