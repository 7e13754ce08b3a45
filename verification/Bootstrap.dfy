/**
 A tracker without state loads a peer's snapshot: the conversation of a new link, message
 by message, and what happens when the peer keeps working meanwhile, so that the snapshot
 already contains an operation that is still on its way.
 */
module Bootstrap {
  import opened Bytes
  import opened Codec
  import opened Tracker
  import opened Replay
  import opened Wire
  import opened Sync
  import opened History
  import Net
  import Protocol
  import Snapshot

  /** A snapshot reaches the tracker that asked for it exactly when it fits a frame; a larger one ends the link. */
  lemma SnapshotArrivesIff(db: Db, rest: Str)
    requires |Snapshot.EncDb(db)| < 0x1_0000_0000
    ensures var m := SnapshotData(Snapshot.EncDb(db));
      var r := Net.Receive(Net.Frame(Protocol.FrameOf(m)) + rest);
      && (r.Delivered? <==> |Snapshot.EncDb(db)| <= Net.MAX_PAYLOAD)
      && (r.Delivered? ==> ReadMsg(r.msg.kind, r.msg.payload) == m && r.rest == rest)
      && (!r.Delivered? ==> r == Net.Rejected)
  {
    hide Snapshot.EncDb, Net.Receive, Net.Frame;
    Protocol.CarriedIff(SnapshotData(Snapshot.EncDb(db)), rest);
  }

  /**
   The peer took the snapshot after an operation had taken effect and before it was sent.
   Whatever the starting tracker held, it ends with exactly the peer's database; the late
   operation changes nothing; and every later operation replays, session events aside.
   */
  lemma OverlapIsHarmless(n: Node, db: Db, op: Op, es: seq<Event>, rs: seq<Event>)
    requires Valid(db) && ParseOp(op.kind, op.payload).Some?
    requires Exec(db, ParseOp(op.kind, op.payload).value).st == ST_OK
    requires Snapshot.Fits(Exec(db, ParseOp(op.kind, op.payload).value).db)
    requires AllSucceed(Exec(db, ParseOp(op.kind, op.payload).value).db, es) && CmdsOf(es) == CmdsOf(rs)
    ensures var peer := Exec(db, ParseOp(op.kind, op.payload).value).db;
      var loaded := Receive(n, SnapshotData(Snapshot.EncDb(peer))).node;
      var caughtUp := Receive(loaded, SyncOp(op)).node;
      && loaded.db == peer && caughtUp.db == peer
      && SameMeta(RunFrom(peer, es), RunFrom(caughtUp.db, rs)) && AllTolerated(caughtUp.db, rs)
      && ((forall r | r in rs :: !r.LogOut?) ==> AllSeedersWithin(RunFrom(peer, es), RunFrom(caughtUp.db, rs)))
  {
    hide Exec, ParseOp, Valid, Snapshot.Fits, SameMeta, AllSeedersWithin;
    var c := ParseOp(op.kind, op.payload).value;
    var peer := Exec(db, c).db;
    ExecValid(db, c);
    Snapshot.RestoredFromSnapshot(peer, n.db);
    Idempotent(db, c);
    SameMetaReflexive(peer);
    Bisimulation(peer, peer, es, rs);
  }

  // ----- the conversation of a new link -------------------------------------

  /** The message as its receiver decodes it. */
  function Decoded(m: PeerMsg): PeerMsg { ReadMsg(MsgKind(m), MsgPayload(m)) }

  /** A tracker takes messages one after the other; the replies are collected. */
  function TakeAll(n: Node, ms: seq<PeerMsg>): Reaction
    decreases |ms|
  {
    if ms == [] then Reaction(n, [])
    else
      var r := Receive(n, Decoded(ms[0]));
      var rest := TakeAll(r.node, ms[1..]);
      Reaction(rest.node, r.replies + rest.replies)
  }

  /** What one side says first, the answers of the other, and what these do to the first. */
  datatype Talk = Talk(first: Node, second: Node)

  function Opening(n: Node, p: Node, ms: seq<PeerMsg>): Talk {
    var answers := TakeAll(p, ms);
    Talk(TakeAll(n, answers.replies).node, answers.node)
  }

  lemma TakesOne(n: Node, m: PeerMsg)
    ensures TakeAll(n, [m]) == Receive(n, Decoded(m))
  {
    hide Receive, Decoded;
    assert [m][1..] == [];
    var r := Receive(n, Decoded(m));
    assert TakeAll(r.node, []) == Reaction(r.node, []) && r.replies + [] == r.replies;
  }

  lemma TakesTwo(n: Node, a: PeerMsg, b: PeerMsg)
    ensures TakeAll(n, [a, b]) == Reaction(TakeAll(TakeAll(n, [a]).node, [b]).node,
      TakeAll(n, [a]).replies + TakeAll(TakeAll(n, [a]).node, [b]).replies)
  {
    hide Receive, Decoded;
    TakesOne(n, a);
    assert [a, b][1..] == [b];
  }

  /** A request for everything is answered with everything. */
  lemma SnapshotServed(n: Node, p: Node)
    requires Valid(p.db) && Snapshot.Fits(p.db)
    ensures Opening(n, p, [SnapshotRequest]) == Talk(n.(db := p.db), p)
  {
    hide Valid, Snapshot.Fits, Snapshot.EncDb, Snapshot.Restored, TakeAll, ReadMsg, MsgKind, MsgPayload;
    var blob := SnapshotData(Snapshot.EncDb(p.db));
    MsgRoundTrip(SnapshotRequest);
    MsgRoundTrip(blob);
    TakesOne(p, SnapshotRequest);
    TakesOne(n, blob);
    Snapshot.RestoredFromSnapshot(p.db, n.db);
  }

  /**
   An empty dialer greets a tracker with any database: it ends with exactly that database, and
   the peer is as it was. An empty acceptor that welcomes a dialer does so too.
   */
  lemma EmptyLoadsPeer(n: Node, p: Node)
    requires IsEmpty(n.db) && Valid(p.db) && Snapshot.Fits(p.db)
    ensures Opening(n, p, Greeting(n, 0)) == Talk(n.(db := p.db), p)
    ensures Opening(n, p, Welcome(n)) == Talk(n.(db := p.db), p)
  {
    hide IsEmpty, Valid, Snapshot.Fits, Receive, TakeAll, Decoded, ReadMsg, MsgKind, MsgPayload;
    assert Greeting(n, 0) == [Hello(0), SnapshotRequest] && Welcome(n) == [SnapshotRequest];
    SnapshotServed(n, p);
    HelloIgnored(p);
    TakesTwo(p, Hello(0), SnapshotRequest);
    var r := TakeAll(p, [SnapshotRequest]);
    assert [] + r.replies == r.replies;
  }

  lemma HelloIgnored(p: Node)
    ensures TakeAll(p, [Hello(0)]) == Reaction(p, [])
  {
    hide Receive, ReadMsg, MsgKind, MsgPayload;
    MsgRoundTrip(Hello(0));
    TakesOne(p, Hello(0));
    HelloDoesNothing(p);
  }

  lemma HelloDoesNothing(p: Node)
    ensures Receive(p, Hello(0)) == Reaction(p, [])
  {
  }

  /**
   A dialer that holds state asks for what it has not applied, and is sent exactly the later
   operations of the peer's log, in order; an acceptor that holds state asks for nothing.
   */
  lemma FullAsksForRest(n: Node, p: Node)
    requires !IsEmpty(n.db) && n.applied < 0x1_0000_0000_0000_0000
    ensures TakeAll(p, Greeting(n, 0)) == Reaction(p, Wrap(OpsAfter(p.log, n.applied)))
    ensures Welcome(n) == []
  {
    hide IsEmpty, TakeAll, ReadMsg, MsgKind, MsgPayload, OpsAfter;
    assert Greeting(n, 0) == [Hello(0), Catchup(n.applied)];
    MsgRoundTrip(Catchup(n.applied));
    HelloIgnored(p);
    TakesTwo(p, Hello(0), Catchup(n.applied));
    TakesOne(p, Catchup(n.applied));
    var ops := Wrap(OpsAfter(p.log, n.applied));
    assert [] + ops == ops;
  }

  /** Whatever a peer sends that is none of the six messages, or cut short, changes nothing and is not answered. */
  lemma StrayIgnored(n: Node, kind: U16, d: Str)
    requires || kind < MSG_SYNC_OP || kind > MSG_SYNC_SNAPSHOT_DATA
      || ((kind == MSG_SYNC_CATCHUP || kind == MSG_SYNC_ACK) && |d| < 8)
      || (kind == MSG_SYNC_OP && |d| < 22)
    ensures Receive(n, ReadMsg(kind, d)) == Reaction(n, [])
  {
    if kind == MSG_SYNC_OP { ShortOp(d); }
    hide ParseU64, ParseSyncOp;
    if kind == MSG_SYNC_CATCHUP || kind == MSG_SYNC_ACK { ShortNumber(d); }
  }

  lemma ShortNumber(d: Str)
    requires |d| < 8
    ensures ParseU64(d) == Fail
  {
  }

  lemma ShortOp(d: Str)
    requires |d| < 22
    ensures ParseSyncOp(d) == Fail
  {
  }

  // ----- does the overlap count ---------------------------------------------

  /** The operation takes the last member out of its group. */
  predicate LastLeaves(db: Db, c: Cmd) {
    c.CmdLeaveGroup? && c.gid in db.groups && db.groups[c.gid].members == {c.uid}
  }

  /**
   Replayed on a snapshot that already contains it, an operation counts as applied, and so moves
   the number the next catch-up asks from, exactly unless it dissolved its group.
   */
  lemma OverlapCountsIff(n: Node, db: Db, op: Op)
    requires Valid(db) && ParseOp(op.kind, op.payload).Some? && op.num > n.applied
    requires Exec(db, ParseOp(op.kind, op.payload).value).st == ST_OK
    requires n.db == Exec(db, ParseOp(op.kind, op.payload).value).db
    ensures Receive(n, SyncOp(op)).node.applied
      == if LastLeaves(db, ParseOp(op.kind, op.payload).value) then n.applied else op.num
  {
    AgainIsTolerated(db, ParseOp(op.kind, op.payload).value);
    hide Exec, ParseOp, Tolerated, Valid;
  }

  lemma AgainIsTolerated(db: Db, c: Cmd)
    requires Valid(db) && Exec(db, c).st == ST_OK
    ensures Tolerated(c, Exec(Exec(db, c).db, c).st) <==> !LastLeaves(db, c)
  {
    if !c.CmdCreateUser? && c.gid in db.groups { assert ValidGroup(db.users.Keys, c.gid, db.groups[c.gid]); }
    hide Valid, HashPassword, AllBits, Least;
  }
}
