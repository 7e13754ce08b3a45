/**
 The replication class of tracker/sync.cpp and its decoding of logged payloads, as
 methods on mutable state proved against Sync.dfy and Wire.dfy.
 */
module SyncManager {
  import opened Bytes
  import opened Codec
  import opened Tracker
  import opened Replay
  import opened Wire
  import opened Sync
  import opened TrackerState
  import Snapshot

  // ----- reading payloads ---------------------------------------------------

  method GetTwo(inp: Buffer) returns (ok: bool, p: (Str, Str))
    requires inp.Valid()
    modifies inp
    ensures inp.Valid()
    ensures ok == ParseTwo(old(inp.Rest())).Got?
    ensures ok ==> Got(p, inp.Rest()) == ParseTwo(old(inp.Rest()))
  {
    hide ParseStr;
    p := ([], []);
    var a, b;
    ok, a := inp.GetStr();
    if !ok { return; }
    ok, b := inp.GetStr();
    if !ok { return; }
    p := (a, b);
  }

  method GetThree(inp: Buffer) returns (ok: bool, p: (Str, Str, Str))
    requires inp.Valid()
    modifies inp
    ensures inp.Valid()
    ensures ok == ParseThree(old(inp.Rest())).Got?
    ensures ok ==> Got(p, inp.Rest()) == ParseThree(old(inp.Rest()))
  {
    hide ParseStr;
    p := ([], [], []);
    var a, b, c;
    ok, a := inp.GetStr();
    if !ok { return; }
    ok, b := inp.GetStr();
    if !ok { return; }
    ok, c := inp.GetStr();
    if !ok { return; }
    p := (a, b, c);
  }

  /** Two names and then a counted run of raw bytes, as in have_pieces. */
  method GetTwoAndRaw(inp: Buffer) returns (ok: bool, p: (Str, Str, Str))
    requires inp.Valid()
    modifies inp
    ensures inp.Valid()
    ensures ok == ParseThree(old(inp.Rest())).Got?
    ensures ok ==> Got(p, inp.Rest()) == ParseThree(old(inp.Rest()))
  {
    hide ParseU32, ParseRaw;
    p := ([], [], []);
    var a, b, n, bits;
    ok, a := inp.GetStr();
    if !ok { return; }
    ok, b := inp.GetStr();
    if !ok { return; }
    ok, n := inp.GetU32();
    if !ok { return; }
    ok, bits := inp.GetRaw(n);
    if !ok { return; }
    p := (a, b, bits);
  }

  method GetUpload(inp: Buffer) returns (ok: bool, p: (Str, FileMeta))
    requires inp.Valid()
    modifies inp
    ensures inp.Valid()
    ensures ok == ParseUpload(old(inp.Rest())).Got?
    ensures ok ==> Got(p, inp.Rest()) == ParseUpload(old(inp.Rest()))
  {
    hide ParseStr, ParseU64, ParseCounted;
    p := ([], FileMeta([], 0, [], [], map[]));
    var gid, name, size, hash, pieces;
    ok, gid := inp.GetStr();
    if !ok { return; }
    ok, name := inp.GetStr();
    if !ok { return; }
    ok, size := inp.GetU64();
    if !ok { return; }
    ok, hash := inp.GetStr();
    if !ok { return; }
    ok, pieces := TrackerState.GetStrs(inp);
    if !ok { return; }
    p := (gid, FileMeta(name, size, hash, pieces, map[]));
  }

  method GetOwner(inp: Buffer) returns (ok: bool, p: (Str, Str, U16))
    requires inp.Valid()
    modifies inp
    ensures inp.Valid()
    ensures ok == ParseOwner(old(inp.Rest())).Got?
    ensures ok ==> Got(p, inp.Rest()) == ParseOwner(old(inp.Rest()))
  {
    hide ParseStr, ParseU16;
    p := ([], [], 0);
    var uid, ip, port;
    ok, uid := inp.GetStr();
    if !ok { return; }
    ok, ip := inp.GetStr();
    if !ok { return; }
    ok, port := inp.GetU16();
    if !ok { return; }
    p := (uid, ip, port);
  }

  /** The decoding half of `apply_remote`. */
  method DecodeOp(kind: U16, payload: Str) returns (c: Option<Cmd>)
    ensures c == ParseOp(kind, payload)
  {
    hide ParseTwo, ParseThree, ParseUpload, ParseOwner, ParseStr;
    var inp := new Buffer.From(payload);
    if kind == MSG_CREATE_USER {
      var ok, p := GetTwo(inp);
      return if ok then Some(CmdCreateUser(p.0, p.1)) else None;
    } else if kind == MSG_CREATE_GROUP {
      var ok, p := GetTwo(inp);
      return if ok then Some(CmdCreateGroup(p.0, p.1)) else None;
    } else if kind == MSG_JOIN_GROUP {
      var ok, p := GetTwo(inp);
      return if ok then Some(CmdJoinGroup(p.0, p.1)) else None;
    } else if kind == MSG_LEAVE_GROUP {
      var ok, p := GetTwo(inp);
      return if ok then Some(CmdLeaveGroup(p.0, p.1)) else None;
    } else if kind == MSG_ACCEPT_REQUEST {
      var ok, p := GetThree(inp);
      return if ok then Some(CmdAcceptRequest(p.0, p.1, p.2)) else None;
    } else if kind == MSG_UPLOAD_FILE {
      var ok, p := GetUpload(inp);
      if !ok { return None; }
      var good, o := GetOwner(inp);
      return if good then Some(CmdUpload(p.0, o.0, o.1, o.2, p.1)) else None;
    } else if kind == MSG_STOP_SHARE {
      var ok, p := GetTwo(inp);
      if !ok { return None; }
      var good, uid := inp.GetStr();
      return if good then Some(CmdStopShare(p.0, uid, p.1)) else None;
    } else if kind == MSG_HAVE_PIECES {
      var ok, p := GetTwoAndRaw(inp);
      if !ok { return None; }
      var good, o := GetOwner(inp);
      return if good then Some(CmdHavePieces(p.0, o.0, o.1, o.2, p.1, p.2)) else None;
    } else {
      return None;
    }
  }

  /** The call a decoded operation makes on the tracker state. */
  method Execute(state: TrackerState, c: Cmd) returns (st: Status)
    modifies state
    ensures Outcome(state.Contents(), st) == Exec(old(state.Contents()), c)
  {
    match c
    case CmdCreateUser(uid, pwd) => st := state.CreateUser(uid, pwd);
    case CmdCreateGroup(gid, uid) => st := state.CreateGroup(gid, uid);
    case CmdJoinGroup(gid, uid) => st := state.JoinGroup(gid, uid);
    case CmdLeaveGroup(gid, uid) => st := state.LeaveGroup(gid, uid);
    case CmdAcceptRequest(gid, owner, uid) => st := state.AcceptRequest(gid, owner, uid);
    case CmdUpload(gid, uid, ip, port, meta) => st := state.AddFile(gid, uid, ip, port, meta);
    case CmdStopShare(gid, uid, fname) => st := state.StopShare(gid, uid, fname);
    case CmdHavePieces(gid, uid, ip, port, fname, bits) => st := state.UpdateBitfield(gid, uid, ip, port, fname, bits);
  }

  // ----- the class ----------------------------------------------------------

  class SyncManager {
    const state: TrackerState
    var nextSeq: nat
    var applied: nat
    var log: seq<Op>
    /** Whether a link to the peer is open. */
    var linked: bool

    ghost function Contents(): Node
      reads this, state
    {
      Node(state.Contents(), nextSeq, applied, log)
    }

    constructor (state: TrackerState)
      ensures this.state == state && !linked
      ensures Contents() == Node(state.Contents(), 1, 0, [])
    {
      this.state := state;
      nextSeq, applied, log, linked := 1, 0, [], false;
    }

    /** The dialer's end of a new link, `connect_loop`: from here on operations go out on it. */
    method Publish()
      modifies this`linked
      ensures linked && Contents() == old(Contents())
    {
      linked := true;
    }

    /** What `connect_loop` then sends: who it is, and a request for what is missing. */
    method Greet(index: Byte) returns (greeting: seq<PeerMsg>)
      ensures greeting == Greeting(Contents(), index)
    {
      greeting := [Hello(index)];
      var empty := state.Empty();
      greeting := greeting + if empty then [SnapshotRequest] else [Catchup(applied)];
    }

    /** The acceptor's end, `handle_peer_connection`: it replaces an older link, and asks only when empty. */
    method Accept() returns (welcome: seq<PeerMsg>)
      modifies this`linked
      ensures linked && Contents() == old(Contents())
      ensures welcome == Welcome(Contents())
    {
      linked := true;
      welcome := [];
      var empty := state.Empty();
      if empty { welcome := [SnapshotRequest]; }
    }

    /** Either end, when its receive loop is over: log and database wait for the next link. */
    method Close()
      modifies this`linked
      ensures !linked && Contents() == old(Contents())
    {
      linked := false;
    }

    /** Logs an operation; it goes out at once if the link is open. */
    method RecordAndReplicate(kind: U16, payload: Str, now: nat) returns (sent: seq<PeerMsg>)
      modifies this
      ensures Contents() == Record(old(Contents()), kind, payload, now) && linked == old(linked)
      ensures sent == if linked then [SyncOp(Op(old(nextSeq), kind, payload, now))] else []
    {
      var op := Op(nextSeq, kind, payload, now);
      nextSeq := nextSeq + 1;
      log := log + [op];
      if !linked { return []; }
      sent := [SyncOp(op)];
    }

    method ApplyRemote(op: Op) returns (ok: bool)
      modifies state
      ensures Applied(state.Contents(), ok) == Wire.ApplyRemote(old(state.Contents()), op.kind, op.payload)
    {
      hide ParseOp, Exec, Tolerated;
      var c := DecodeOp(op.kind, op.payload);
      if c.None? { return false; }
      var st := Execute(state, c.value);
      ok := Tolerated(c.value, st);
    }

    method SendCatchupFrom(after: nat) returns (sent: seq<PeerMsg>)
      ensures sent == Wrap(OpsAfter(log, after))
    {
      hide OpsAfter;
      var toSend := [];
      OpsAfterNothing(after);
      assert log[0..] == log && [] + OpsAfter(log, after) == OpsAfter(log, after);
      for i := 0 to |log|
        invariant toSend + OpsAfter(log[i..], after) == OpsAfter(log, after)
      {
        OpsAfterNext(log, i, after, toSend);
        if log[i].num > after { toSend := toSend + [log[i]]; }
      }
      assert log[|log|..] == [] && toSend + OpsAfter([], after) == toSend;
      sent := Wrap(toSend);
    }

    method TrimLog(num: nat)
      modifies this`log
      ensures log == Trim(old(log), num)
    {
      while log != [] && log[0].num <= num
        invariant Trim(log, num) == Trim(old(log), num)
        decreases |log|
      {
        log := log[1..];
      }
    }

    /** One message from the peer; the result is what is written back. */
    method ProcessPeerMessage(kind: U16, payload: Str) returns (replies: seq<PeerMsg>)
      modifies this, state
      ensures Reaction(Contents(), replies) == Receive(old(Contents()), ReadMsg(kind, payload))
      ensures linked == old(linked)
    {
      hide ParseU64, ParseSyncOp, Trim, OpsAfter, Wire.ApplyRemote, Snapshot.EncDb, Snapshot.Restored;
      replies := [];
      if kind == MSG_SYNC_HELLO {
      } else if kind == MSG_SYNC_CATCHUP {
        var inp := new Buffer.From(payload);
        var ok, after := inp.GetU64();
        if !ok { return; }
        replies := SendCatchupFrom(after);
      } else if kind == MSG_SYNC_OP {
        var inp := new Buffer.From(payload);
        var ok, op := GetSyncOp(inp);
        if !ok { return; }
        var good := ApplyRemote(op);
        if good && op.num > applied { applied := op.num; }
        replies := [Ack(op.num)];
      } else if kind == MSG_SYNC_ACK {
        var inp := new Buffer.From(payload);
        var ok, num := inp.GetU64();
        if !ok { return; }
        TrimLog(num);
      } else if kind == MSG_SYNC_SNAPSHOT_REQUEST {
        var blob := state.Snapshot();
        replies := [SnapshotData(blob)];
      } else if kind == MSG_SYNC_SNAPSHOT_DATA {
        var _ := state.Restore(payload);
      }
    }

    static method GetSyncOp(inp: Buffer) returns (ok: bool, op: Op)
      requires inp.Valid()
      modifies inp
      ensures inp.Valid()
      ensures ok == ParseSyncOp(old(inp.Rest())).Got?
      ensures ok ==> Got(op, inp.Rest()) == ParseSyncOp(old(inp.Rest()))
    {
      hide ParseU64, ParseU16, ParseStr;
      op := Op(0, 0, [], 0);
      var num, kind, ts, payload;
      ok, num := inp.GetU64();
      if !ok { return; }
      ok, kind := inp.GetU16();
      if !ok { return; }
      ok, ts := inp.GetU64();
      if !ok { return; }
      ok, payload := inp.GetStr();
      if !ok { return; }
      op := Op(num, kind, payload, ts);
    }
  }
}
