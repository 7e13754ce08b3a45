/**
 Tracker-to-tracker replication, tracker/sync.cpp: the log with its acknowledgements,
 the messages of the link, and the protocol that keeps a replica in step with the
 origin across link drops.
 */
module Sync {
  import opened Bytes
  import opened Codec
  import opened Tracker
  import opened Wire
  import Snapshot

  datatype Op = Op(num: nat, kind: U16, payload: Str, ts: nat)

  /** What a `SyncManager` and its tracker state hold. */
  datatype Node = Node(db: Db, nextSeq: nat, applied: nat, log: seq<Op>)

  datatype PeerMsg =
    | Hello(index: nat)
    | Catchup(after: nat)
    | SyncOp(op: Op)
    | Ack(num: nat)
    | SnapshotRequest
    | SnapshotData(blob: Str)
    | Unknown

  // ----- the handlers -------------------------------------------------------

  function Record(n: Node, kind: U16, payload: Str, ts: nat): Node {
    n.(nextSeq := n.nextSeq + 1, log := n.log + [Op(n.nextSeq, kind, payload, ts)])
  }

  /** The logged operations a catch-up from `after` sends. */
  function OpsAfter(log: seq<Op>, after: nat): seq<Op> {
    if log == [] then []
    else (if log[0].num > after then [log[0]] else []) + OpsAfter(log[1..], after)
  }

  /** The log once every leading operation up to `num` is acknowledged. */
  function Trim(log: seq<Op>, num: nat): seq<Op> {
    if log != [] && log[0].num <= num then Trim(log[1..], num) else log
  }

  function Wrap(ops: seq<Op>): (ms: seq<PeerMsg>)
    ensures |ms| == |ops|
  {
    seq(|ops|, i requires 0 <= i < |ops| => SyncOp(ops[i]))
  }

  datatype Reaction = Reaction(node: Node, replies: seq<PeerMsg>)

  function Receive(n: Node, m: PeerMsg): Reaction {
    match m
    case Hello(_) => Reaction(n, [])
    case Catchup(after) => Reaction(n, Wrap(OpsAfter(n.log, after)))
    case SyncOp(op) =>
      var r := ApplyRemote(n.db, op.kind, op.payload);
      var applied := if r.ok && op.num > n.applied then op.num else n.applied;
      Reaction(n.(db := r.db, applied := applied), [Ack(op.num)])
    case Ack(num) => Reaction(n.(log := Trim(n.log, num)), [])
    case SnapshotRequest => Reaction(n, [SnapshotData(Snapshot.EncDb(n.db))])
    case SnapshotData(blob) => Reaction(n.(db := Snapshot.Restored(n.db, blob)), [])
    case Unknown => Reaction(n, [])
  }

  /** What the dialer says when a link comes up. */
  function Greeting(n: Node, index: nat): seq<PeerMsg> {
    [Hello(index), if IsEmpty(n.db) then SnapshotRequest else Catchup(n.applied)]
  }

  /** What the acceptor says. */
  function Welcome(n: Node): seq<PeerMsg> {
    if IsEmpty(n.db) then [SnapshotRequest] else []
  }

  // ----- the log, under any interleaving of its critical sections -----------

  datatype LogEvent = Recorded(kind: U16, payload: Str, ts: nat) | Acked(num: nat)

  function LogStep(n: Node, e: LogEvent): Node {
    match e
    case Recorded(kind, payload, ts) => Record(n, kind, payload, ts)
    case Acked(num) => Receive(n, Ack(num)).node
  }

  function LogAfter(n: Node, es: seq<LogEvent>): Node {
    if es == [] then n else LogStep(LogAfter(n, es[..|es| - 1]), es[|es| - 1])
  }

  /** Every operation recorded so far, numbered from 1. */
  function Issued(es: seq<LogEvent>): seq<Op> {
    if es == [] then []
    else
      var ops, e := Issued(es[..|es| - 1]), es[|es| - 1];
      if e.Recorded? then ops + [Op(|ops| + 1, e.kind, e.payload, e.ts)] else ops
  }

  function MaxAck(es: seq<LogEvent>): nat {
    if es == [] then 0
    else
      var m, e := MaxAck(es[..|es| - 1]), es[|es| - 1];
      if e.Acked? && e.num > m then e.num else m
  }

  ghost predicate Numbered(ops: seq<Op>) {
    forall i {:trigger ops[i]} | 0 <= i < |ops| :: ops[i].num == i + 1
  }

  lemma {:induction false} TrimSuffix(ops: seq<Op>, k: nat, num: nat)
    requires Numbered(ops) && k <= |ops|
    ensures var t := if num <= k then k else if num <= |ops| then num else |ops|;
      Trim(ops[k..], num) == ops[t..]
    decreases |ops| - k
  {
    if k < |ops| && k < num {
      assert ops[k..][0] == ops[k] && ops[k..][1..] == ops[k + 1..];
      TrimSuffix(ops, k + 1, num);
    }
  }

  lemma {:induction false} OpsAfterSuffix(ops: seq<Op>, k: nat, after: nat)
    requires Numbered(ops) && k <= |ops| && k <= after
    ensures OpsAfter(ops[k..], after) == if after <= |ops| then ops[after..] else []
    decreases |ops| - k
  {
    if k < |ops| {
      assert ops[k..][0] == ops[k] && ops[k..][1..] == ops[k + 1..];
      if k < after {
        OpsAfterSuffix(ops, k + 1, after);
      } else {
        OpsAfterAll(ops, k, after);
      }
    }
  }

  lemma OpsAfterNothing(after: nat)
    ensures OpsAfter([], after) == []
  {
  }

  /** The scan from i on, one operation at a time. */
  lemma OpsAfterNext(log: seq<Op>, i: nat, after: nat, sent: seq<Op>)
    requires i < |log|
    ensures sent + OpsAfter(log[i..], after)
      == (if log[i].num > after then sent + [log[i]] else sent) + OpsAfter(log[i + 1..], after)
  {
    var rest := OpsAfter(log[i + 1..], after);
    assert log[i..][0] == log[i] && log[i..][1..] == log[i + 1..];
    assert OpsAfter(log[i..], after) == (if log[i].num > after then [log[i]] else []) + rest;
    hide OpsAfter;
    assert sent + ([log[i]] + rest) == (sent + [log[i]]) + rest && sent + ([] + rest) == sent + rest;
  }

  /** Trimming and scanning only ever yield logged operations. */
  lemma {:induction false} TrimKeeps(log: seq<Op>, num: nat)
    ensures forall op | op in Trim(log, num) :: op in log
    decreases |log|
  {
    if log != [] && log[0].num <= num { TrimKeeps(log[1..], num); }
  }

  lemma {:induction false} OpsAfterKeeps(log: seq<Op>, after: nat)
    ensures forall op | op in OpsAfter(log, after) :: op in log
    decreases |log|
  {
    if log != [] { OpsAfterKeeps(log[1..], after); }
  }

  lemma {:induction false} OpsAfterAll(ops: seq<Op>, k: nat, after: nat)
    requires Numbered(ops) && k <= |ops| && after <= k
    ensures OpsAfter(ops[k..], after) == ops[k..]
    decreases |ops| - k
  {
    if k < |ops| {
      assert ops[k..][0] == ops[k] && ops[k..][1..] == ops[k + 1..];
      OpsAfterAll(ops, k + 1, after);
      assert [ops[k]] + ops[k + 1..] == ops[k..];
    }
  }

  /** The log is what is left of the issued operations after the first k. */
  ghost predicate LogFrom(n: Node, ops: seq<Op>, k: nat) {
    Numbered(ops) && n.nextSeq == |ops| + 1 && k <= |ops| && n.log == ops[k..]
  }

  lemma RecordKeepsLog(n: Node, ops: seq<Op>, k: nat, kind: U16, payload: Str, ts: nat)
    requires LogFrom(n, ops, k)
    ensures LogFrom(Record(n, kind, payload, ts), ops + [Op(|ops| + 1, kind, payload, ts)], k)
  {
    var op := Op(|ops| + 1, kind, payload, ts);
    assert (ops + [op])[k..] == ops[k..] + [op];
  }

  lemma AckKeepsLog(n: Node, ops: seq<Op>, k: nat, num: nat) returns (t: nat)
    requires LogFrom(n, ops, k)
    ensures LogFrom(Receive(n, Ack(num)).node, ops, t) && (t == k || t <= num)
  {
    TrimSuffix(ops, k, num);
    t := if num <= k then k else if num <= |ops| then num else |ops|;
  }

  /** The log has no gaps and ends at `nextSeq` - 1; what it has lost was acknowledged. */
  lemma {:induction false} LogNoGaps(db: Db, es: seq<LogEvent>) returns (k: nat)
    ensures LogFrom(LogAfter(Node(db, 1, 0, []), es), Issued(es), k) && k <= MaxAck(es)
  {
    hide Record, Receive, LogFrom;
    if es == [] {
      k := 0;
      NothingLogged(db);
    } else {
      var xs, e := es[..|es| - 1], es[|es| - 1];
      k := LogNoGaps(db, xs);
      var n := LogAfter(Node(db, 1, 0, []), xs);
      match e
      case Recorded(kind, payload, ts) => RecordKeepsLog(n, Issued(xs), k, kind, payload, ts);
      case Acked(num) => k := AckKeepsLog(n, Issued(xs), k, num);
    }
  }

  lemma NothingLogged(db: Db)
    ensures LogFrom(Node(db, 1, 0, []), [], 0)
  {
  }

  /** A catch-up from any acknowledged point sends exactly the operations after it, in order. */
  lemma CatchupSendsMissing(db: Db, es: seq<LogEvent>, after: nat)
    requires MaxAck(es) <= after
    ensures var ops := Issued(es);
      Receive(LogAfter(Node(db, 1, 0, []), es), Catchup(after)).replies
        == Wrap(if after <= |ops| then ops[after..] else [])
  {
    var k := LogNoGaps(db, es);
    OpsAfterSuffix(Issued(es), k, after);
  }

  // ----- the messages on the wire -------------------------------------------

  const MSG_SYNC_OP: U16 := 0x0401
  const MSG_SYNC_ACK: U16 := 0x0402
  const MSG_SYNC_CATCHUP: U16 := 0x0403
  const MSG_SYNC_HELLO: U16 := 0x0404
  const MSG_SYNC_SNAPSHOT_REQUEST: U16 := 0x0405
  const MSG_SYNC_SNAPSHOT_DATA: U16 := 0x0406

  function MsgKind(m: PeerMsg): U16 {
    match m
    case Hello(_) => MSG_SYNC_HELLO
    case Catchup(_) => MSG_SYNC_CATCHUP
    case SyncOp(_) => MSG_SYNC_OP
    case Ack(_) => MSG_SYNC_ACK
    case SnapshotRequest => MSG_SYNC_SNAPSHOT_REQUEST
    case SnapshotData(_) => MSG_SYNC_SNAPSHOT_DATA
    case Unknown => 0
  }

  function MsgPayload(m: PeerMsg): Str {
    match m
    case Hello(index) => LE(index, 1)
    case Catchup(after) => EncU64(after)
    case SyncOp(op) => EncU64(op.num) + (EncU16(op.kind) + (EncU64(op.ts) + EncStr(op.payload)))
    case Ack(num) => EncU64(num)
    case SnapshotRequest => []
    case SnapshotData(blob) => blob
    case Unknown => []
  }

  function ParseSyncOp(d: Str): Parsed<Op> {
    var (num, d) :- ParseU64(d);
    var (kind, d) :- ParseU16(d);
    var (ts, d) :- ParseU64(d);
    var (payload, d) :- ParseStr(d);
    Got(Op(num, kind, payload, ts), d)
  }

  /** `process_peer_message`'s reading of a message; a malformed one is ignored like an unknown one. */
  function ReadMsg(kind: U16, d: Str): PeerMsg {
    if kind == MSG_SYNC_HELLO then Hello(0)
    else if kind == MSG_SYNC_CATCHUP then (match ParseU64(d) case Got(a, _) => Catchup(a) case Fail => Unknown)
    else if kind == MSG_SYNC_OP then (match ParseSyncOp(d) case Got(op, _) => SyncOp(op) case Fail => Unknown)
    else if kind == MSG_SYNC_ACK then (match ParseU64(d) case Got(a, _) => Ack(a) case Fail => Unknown)
    else if kind == MSG_SYNC_SNAPSHOT_REQUEST then SnapshotRequest
    else if kind == MSG_SYNC_SNAPSHOT_DATA then SnapshotData(d)
    else Unknown
  }

  predicate Sendable(m: PeerMsg) {
    match m
    case Hello(index) => index == 0
    case Catchup(after) => after < 0x1_0000_0000_0000_0000
    case Ack(num) => num < 0x1_0000_0000_0000_0000
    case SyncOp(op) => op.num < 0x1_0000_0000_0000_0000 && op.ts < 0x1_0000_0000_0000_0000 && Short(op.payload)
    case SnapshotRequest => true
    case SnapshotData(_) => true
    case Unknown => false
  }

  lemma MsgRoundTrip(m: PeerMsg)
    requires Sendable(m)
    ensures ReadMsg(MsgKind(m), MsgPayload(m)) == m
  {
    hide ParseU64, ParseU16, ParseStr, EncU64, EncU16, EncStr;
    match m
    case Catchup(after) =>
      U64Exact(EncU64(after) + [], after, []);
      assert EncU64(after) + [] == EncU64(after);
    case Ack(num) =>
      U64Exact(EncU64(num) + [], num, []);
      assert EncU64(num) + [] == EncU64(num);
    case SyncOp(op) =>
      var d4 := EncStr(op.payload);
      var d3 := EncU64(op.ts) + d4;
      var d2 := EncU16(op.kind) + d3;
      U64Exact(EncU64(op.num) + d2, op.num, d2);
      U16Exact(d2, op.kind, d3);
      U64Exact(d3, op.ts, d4);
      StrExact(d4, op.payload, []);
      assert d4 + [] == d4;
    case Hello(_) =>
    case SnapshotRequest =>
    case SnapshotData(_) =>
  }
}
