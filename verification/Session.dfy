/**
 One client's session on a tracker, tracker/session.cpp: which requests change the
 metadata, and which of them reach the replication log in what form.
 */
module Session {
  import opened Bytes
  import opened Codec
  import opened Tracker
  import opened Wire
  import opened Sync
  import opened TrackerState
  import opened SyncManager
  import Net
  import Snapshot

  /** What a session knows of its client. */
  datatype View = View(user: Str, ip: Str, port: U16)

  /** The status and the body of a response. */
  datatype Reply = Reply(st: Status, body: Str)

  /** The outcome of one request; `logged` is the payload handed to the replication log. */
  datatype Handled = Handled(view: View, db: Db, reply: Reply, logged: Option<Str>)

  /** A user name, a password and a port: the same fields a session appends to a log entry. */
  function ParseLogin(d: Str): Parsed<(Str, Str, U16)> { ParseOwner(d) }

  function HandleReplicated(v: View, db: Db, kind: U16, payload: Str): Handled
    requires Replicated(kind)
  {
    if kind != MSG_CREATE_USER && v.user == [] then Handled(v, db, Reply(ST_NOT_LOGGED_IN, []), None)
    else
      match ParseRequest(kind, payload, v.user, v.ip, v.port)
      case Fail => Handled(v, db, Reply(ST_MALFORMED, []), None)
      case Got(c, _) =>
        var o := Exec(db, c);
        Handled(v, o.db, Reply(o.st, []),
          if o.st == ST_OK then Some(LogPayload(kind, payload, v.user, v.ip, v.port, c)) else None)
  }

  predicate Query(kind: U16) {
    kind == MSG_LIST_GROUPS || kind == MSG_LIST_REQUESTS || kind == MSG_LIST_FILES || kind == MSG_GET_FILE_META
  }

  function EncNames(names: set<Str>): Str { EncCounted(SortedKeys(names), EncStr) }

  /** What a downloader is told about a file: size, hashes, and everyone who shares it. */
  function EncFileReply(m: FileMeta): Str {
    EncU64(m.size) + (EncStr(m.fileHash)
      + (EncCounted(m.pieceHashes, EncStr) + EncCounted(Values(m.seeders), Snapshot.EncPeer)))
  }

  function NamesReply(a: Answer<set<Str>>): Reply {
    Reply(a.st, if a.st == ST_OK then EncNames(a.value) else [])
  }

  function FileReply(a: Answer<Option<FileMeta>>): Reply {
    Reply(a.st, if a.value.Some? then EncFileReply(a.value.value) else [])
  }

  function QueryReply(v: View, db: Db, kind: U16, payload: Str): Reply
    requires Query(kind)
  {
    if v.user == [] then Reply(ST_NOT_LOGGED_IN, [])
    else if kind == MSG_LIST_GROUPS then Reply(ST_OK, EncNames(db.groups.Keys))
    else if kind == MSG_GET_FILE_META then
      match ParseTwo(payload)
      case Fail => Reply(ST_MALFORMED, [])
      case Got(p, _) => FileReply(GetFile(db, p.0, v.user, p.1))
    else
      match ParseStr(payload)
      case Fail => Reply(ST_MALFORMED, [])
      case Got(gid, _) =>
        NamesReply(if kind == MSG_LIST_FILES then ListFiles(db, gid, v.user) else ListRequests(db, gid, v.user))
  }

  /** `dispatch`: the response and everything it changes. */
  function Handle(v: View, db: Db, kind: U16, payload: Str): Handled {
    if Replicated(kind) then HandleReplicated(v, db, kind, payload)
    else if kind == MSG_LOGIN then
      match ParseLogin(payload)
      case Fail => Handled(v, db, Reply(ST_MALFORMED, []), None)
      case Got(p, _) =>
        var o := Login(db, p.0, p.1, v.ip, p.2);
        Handled(if o.st == ST_OK then v.(user := p.0, port := p.2) else v, o.db, Reply(o.st, []), None)
    else if kind == MSG_LOGOUT then
      if v.user == [] then Handled(v, db, Reply(ST_NOT_LOGGED_IN, []), None)
      else var o := Logout(db, v.user); Handled(v.(user := []), o.db, Reply(o.st, []), None)
    else if Query(kind) then Handled(v, db, QueryReply(v, db, kind, payload), None)
    else Handled(v, db, Reply(ST_NOT_IMPLEMENTED, []), None)
  }

  /** A request is logged exactly when it is a metadata operation that succeeded. */
  lemma LoggedIff(v: View, db: Db, kind: U16, payload: Str)
    ensures Handle(v, db, kind, payload).logged.Some?
      <==> Replicated(kind) && Handle(v, db, kind, payload).reply.st == ST_OK
  {
    hide Exec, Login, Logout, ParseRequest, LogPayload, ParseLogin, QueryReply;
  }

  /** The log entry of a request is readable; only bytes behind its last field can prevent that. */
  predicate Readable(v: View, kind: U16, payload: Str) {
    Replicated(kind) ==>
      match ParseRequest(kind, payload, v.user, v.ip, v.port)
      case Fail => true
      case Got(_, rest) => TailReadable(kind, rest, v.user, v.ip, v.port)
  }

  lemma LoggedIsParsed(v: View, db: Db, kind: U16, payload: Str)
    requires Replicated(kind) && Handle(v, db, kind, payload).logged.Some?
    ensures var p := ParseRequest(kind, payload, v.user, v.ip, v.port);
      && p.Got? && Exec(db, p.value).st == ST_OK
      && Handle(v, db, kind, payload).db == Exec(db, p.value).db
      && Handle(v, db, kind, payload).logged.value == LogPayload(kind, payload, v.user, v.ip, v.port, p.value)
  {
    hide Exec, ParseRequest, LogPayload;
  }

  /** Conversely, a request that parses and whose command succeeds. */
  lemma ParsedIsLogged(v: View, db: Db, kind: U16, payload: Str, c: Cmd, rest: Str)
    requires Replicated(kind) && (kind == MSG_CREATE_USER || v.user != [])
    requires ParseRequest(kind, payload, v.user, v.ip, v.port) == Got(c, rest) && Exec(db, c).st == ST_OK
    ensures Handle(v, db, kind, payload)
      == Handled(v, Exec(db, c).db, Reply(ST_OK, []), Some(LogPayload(kind, payload, v.user, v.ip, v.port, c)))
  {
    hide Exec, ParseRequest, LogPayload;
  }

  /**
   Whatever request a session handles, the log entry decodes to the operation it ran exactly when
   it is readable; and then the other tracker reaches from an equal database the same database.
   */
  lemma LogReplaysRequest(v: View, db: Db, kind: U16, payload: Str)
    requires Replicated(kind) && Short(v.user) && Short(v.ip)
    ensures var h, p := Handle(v, db, kind, payload), ParseRequest(kind, payload, v.user, v.ip, v.port);
      h.logged.Some? ==>
        && p.Got? && (ParseOp(kind, h.logged.value) == Some(p.value) <==> Readable(v, kind, payload))
        && (Readable(v, kind, payload) ==> ApplyRemote(db, kind, h.logged.value) == Applied(h.db, true))
  {
    hide Exec, ParseRequest, LogPayload, ApplyRemote, ParseOp, HandleReplicated, TailReadable;
    if Handle(v, db, kind, payload).logged.Some? {
      LoggedIsParsed(v, db, kind, payload);
      FaithfulIff(kind, payload, v.user, v.ip, v.port);
      if Readable(v, kind, payload) { ReadableReplays(db, kind, payload, v.user, v.ip, v.port); }
    }
  }

  /** A request that is exactly its fields is readable. */
  lemma ExactRequestReadable(v: View, kind: U16, payload: Str)
    requires Replicated(kind)
    requires var p := ParseRequest(kind, payload, v.user, v.ip, v.port); p.Got? ==> p.rest == []
    ensures Readable(v, kind, payload)
  {
    hide ParseRequest, TailReadable;
    ExactIsReadable(kind, v.user, v.ip, v.port);
  }

  // ----- what a downloader reads --------------------------------------------

  /** The downloader's reading of a file's metadata, as client/main.cpp decodes it. */
  function ParseFileReply(d: Str): Parsed<(U64, Str, seq<Str>, seq<PeerRef>)> {
    var (size, d) :- ParseU64(d);
    var (hash, d) :- ParseStr(d);
    var (pieces, d) :- ParseCounted(ParseStr, d);
    var (peers, d) :- ParseCounted(Snapshot.ParsePeer, d);
    Got((size, hash, pieces, peers), d)
  }

  /** It gets exactly the published size and hashes and every seeder's entry, in key order. */
  lemma FileReplyReadsBack(users: set<Str>, n: Str, m: FileMeta)
    requires Snapshot.FitsFile(m) && ValidFile(users, n, m)
    ensures ParseFileReply(EncFileReply(m)) == Got((m.size, m.fileHash, m.pieceHashes, Values(m.seeders)), [])
  {
    hide ParseStr, ParseU64, EncStr, EncU64, ParseCounted, EncCounted, Values;
    var d3 := EncCounted(Values(m.seeders), Snapshot.EncPeer) + [];
    var d2 := EncCounted(m.pieceHashes, EncStr) + d3;
    var d1 := EncStr(m.fileHash) + d2;
    Snapshot.RightNested4(EncU64(m.size), EncStr(m.fileHash), EncCounted(m.pieceHashes, EncStr),
      EncCounted(Values(m.seeders), Snapshot.EncPeer), []);
    assert EncFileReply(m) + [] == EncFileReply(m);
    U64Exact(EncU64(m.size) + d1, m.size, d1);
    StrExact(d1, m.fileHash, d2);
    Snapshot.StrsInvert(m.pieceHashes, d3);
    PeerEntriesInvert(m.seeders);
  }

  lemma PeerEntriesInvert(seeders: map<Str, PeerRef>)
    requires |seeders.Keys| < 0x1_0000_0000 && forall u | u in seeders :: Snapshot.FitsPeer(seeders[u])
    ensures ParseCounted(Snapshot.ParsePeer, EncCounted(Values(seeders), Snapshot.EncPeer) + [])
      == Got(Values(seeders), [])
  {
    Snapshot.ValuesAreValues(seeders);
    forall p | p in Values(seeders)
      ensures Inverts(p, Snapshot.EncPeer, Snapshot.ParsePeer) { Snapshot.PeerInverts(p); }
    CountedInverts(Values(seeders), Snapshot.EncPeer, Snapshot.ParsePeer, []);
  }

  // ----- a whole session ----------------------------------------------------

  /** A session and its tracker, with the responses sent and the operations sent on. */
  datatype Served = Served(view: View, node: Node, replies: seq<Reply>, sent: seq<PeerMsg>)

  function ServeOne(s: Served, m: Net.Message, now: nat, linked: bool): Served {
    var h := Handle(s.view, s.node.db, m.kind, m.payload);
    var n := s.node.(db := h.db);
    match h.logged
    case None => Served(h.view, n, s.replies + [h.reply], s.sent)
    case Some(rep) =>
      Served(h.view, Record(n, m.kind, rep, now), s.replies + [h.reply],
        if linked then s.sent + [SyncOp(Op(n.nextSeq, m.kind, rep, now))] else s.sent)
  }

  /** The requests of a session, one after the other; `clock` gives the time of each. */
  function ServeAll(s: Served, ms: seq<Net.Message>, clock: nat -> nat, linked: bool): Served {
    if ms == [] then s
    else ServeOne(ServeAll(s, ms[..|ms| - 1], clock, linked), ms[|ms| - 1], clock(|ms| - 1), linked)
  }

  /** A client that is still logged in when its connection ends is logged out. */
  function HangUp(s: Served): Served {
    if s.view.user == [] then s else s.(node := s.node.(db := Logout(s.node.db, s.view.user).db))
  }

  lemma ServeSnoc(s: Served, ms: seq<Net.Message>, m: Net.Message, clock: nat -> nat, linked: bool)
    ensures ServeAll(s, ms + [m], clock, linked) == ServeOne(ServeAll(s, ms, clock, linked), m, clock(|ms|), linked)
  {
    assert (ms + [m])[..|ms|] == ms;
  }

  /**
   A connection whose first message is not HELLO is served as a client's. Whatever the other
   tracker sends on it is refused and changes nothing: no catch-up is served, nothing is applied.
   */
  lemma {:induction false} PeerStreamIgnored(s: Served, ms: seq<Net.Message>, clock: nat -> nat, linked: bool)
    requires forall m | m in ms :: MSG_SYNC_OP <= m.kind <= MSG_SYNC_SNAPSHOT_DATA
    ensures ServeAll(s, ms, clock, linked)
      == s.(replies := s.replies + seq(|ms|, _ => Reply(ST_NOT_IMPLEMENTED, [])))
    decreases |ms|
  {
    if ms != [] {
      PeerStreamIgnored(s, ms[..|ms| - 1], clock, linked);
      assert ms[|ms| - 1] in ms;
      assert seq(|ms|, _ => Reply(ST_NOT_IMPLEMENTED, []))
          == seq(|ms| - 1, _ => Reply(ST_NOT_IMPLEMENTED, [])) + [Reply(ST_NOT_IMPLEMENTED, [])];
    }
  }

  // ----- the class ----------------------------------------------------------

  class Session {
    const peerIp: Str
    const state: TrackerState
    const sync: SyncManager
    var user: Str
    var seedPort: U16

    ghost predicate Valid() { sync.state == state }

    ghost function Contents(): View
      reads this
    {
      View(user, peerIp, seedPort)
    }

    constructor (peerIp: Str, state: TrackerState, sync: SyncManager)
      requires sync.state == state
      ensures Valid() && this.state == state && this.sync == sync && Contents() == View([], peerIp, 0)
    {
      this.peerIp, this.state, this.sync := peerIp, state, sync;
      user, seedPort := [], 0;
    }

    method ReadRequest(kind: U16, payload: Str) returns (c: Option<Cmd>)
      requires Replicated(kind)
      ensures c == match ParseRequest(kind, payload, user, peerIp, seedPort) case Got(x, _) => Some(x) case Fail => None
    {
      hide ParseTwo, ParseThree, ParseUpload, ParseStr;
      var inp := new Buffer.From(payload);
      if kind == MSG_CREATE_USER {
        var ok, p := GetTwo(inp);
        return if ok then Some(CmdCreateUser(p.0, p.1)) else None;
      } else if kind == MSG_CREATE_GROUP {
        var ok, gid := inp.GetStr();
        return if ok then Some(CmdCreateGroup(gid, user)) else None;
      } else if kind == MSG_JOIN_GROUP {
        var ok, gid := inp.GetStr();
        return if ok then Some(CmdJoinGroup(gid, user)) else None;
      } else if kind == MSG_LEAVE_GROUP {
        var ok, gid := inp.GetStr();
        return if ok then Some(CmdLeaveGroup(gid, user)) else None;
      } else if kind == MSG_ACCEPT_REQUEST {
        var ok, p := GetTwo(inp);
        return if ok then Some(CmdAcceptRequest(p.0, user, p.1)) else None;
      } else if kind == MSG_UPLOAD_FILE {
        var ok, p := GetUpload(inp);
        return if ok then Some(CmdUpload(p.0, user, peerIp, seedPort, p.1)) else None;
      } else if kind == MSG_STOP_SHARE {
        var ok, p := GetTwo(inp);
        return if ok then Some(CmdStopShare(p.0, user, p.1)) else None;
      } else {
        var ok, p := GetTwoAndRaw(inp);
        return if ok then Some(CmdHavePieces(p.0, user, peerIp, seedPort, p.1, p.2)) else None;
      }
    }

    /** The payload logged for a request, built in a buffer. */
    method BuildLogPayload(kind: U16, payload: Str, c: Cmd) returns (rep: Str)
      ensures rep == LogPayload(kind, payload, user, peerIp, seedPort, c)
    {
      hide EncStr, EncU16;
      if Tailed(kind) {
        var b := new Buffer.From(payload);
        b.PutStr(user);
        if kind != MSG_STOP_SHARE {
          b.PutStr(peerIp);
          b.PutU16(seedPort);
        }
        rep := b.data;
        assert payload + EncStr(user) + EncStr(peerIp) + EncU16(seedPort)
            == payload + (EncStr(user) + (EncStr(peerIp) + EncU16(seedPort)));
      } else if c.CmdCreateGroup? || c.CmdJoinGroup? || c.CmdLeaveGroup? {
        var b := new Buffer();
        b.PutStr(c.gid);
        b.PutStr(user);
        rep := b.data;
      } else if c.CmdAcceptRequest? {
        var b := new Buffer();
        b.PutStr(c.gid);
        b.PutStr(user);
        b.PutStr(c.uid);
        rep := b.data;
      } else {
        rep := payload;
      }
    }

    method NamesBody(names: seq<Str>) returns (body: Str)
      ensures body == EncCounted(names, EncStr)
    {
      var out := new Buffer();
      TrackerState.PutStrs(out, names);
      body := out.data;
      assert [] + EncCounted(names, EncStr) == EncCounted(names, EncStr);
    }

    method FileBody(m: FileMeta) returns (body: Str)
      ensures body == EncFileReply(m)
    {
      hide EncStr, EncU64, EncCounted, Values;
      var out := new Buffer();
      out.PutU64(m.size);
      out.PutStr(m.fileHash);
      TrackerState.PutStrs(out, m.pieceHashes);
      TrackerState.PutPeers(out, m.seeders);
      body := out.data;
      TrackerState.LeftNested5([], EncU64(m.size), EncStr(m.fileHash), EncCounted(m.pieceHashes, EncStr),
        EncCounted(Values(m.seeders), Snapshot.EncPeer), []);
      assert [] + EncFileReply(m) == EncFileReply(m);
    }

    method Ask(kind: U16, payload: Str) returns (r: Reply)
      requires Query(kind)
      ensures r == QueryReply(Contents(), state.Contents(), kind, payload)
    {
      hide ParseTwo, ParseStr, SortedKeys, EncCounted, EncFileReply;
      if user == [] { return Reply(ST_NOT_LOGGED_IN, []); }
      var inp := new Buffer.From(payload);
      if kind == MSG_LIST_GROUPS {
        var body := NamesBody(SortedKeys(state.groups.Keys));
        r := Reply(ST_OK, body);
      } else if kind == MSG_GET_FILE_META {
        var ok, p := GetTwo(inp);
        if !ok { return Reply(ST_MALFORMED, []); }
        var st, file := state.GetFile(p.0, user, p.1);
        if st != ST_OK { return Reply(st, []); }
        var body := FileBody(file.value);
        r := Reply(ST_OK, body);
      } else {
        var ok, gid := inp.GetStr();
        if !ok { return Reply(ST_MALFORMED, []); }
        var st, names;
        if kind == MSG_LIST_FILES { st, names := state.ListFiles(gid, user); }
        else { st, names := state.ListRequests(gid, user); }
        if st != ST_OK { return Reply(st, []); }
        var body := NamesBody(names);
        r := Reply(ST_OK, body);
      }
    }

    method Dispatch(kind: U16, payload: Str, now: nat) returns (r: Reply, sent: seq<PeerMsg>)
      requires Valid()
      modifies this, state, sync
      ensures Valid() && sync.linked == old(sync.linked)
      ensures var h := Handle(old(Contents()), old(state.Contents()), kind, payload);
        && r == h.reply && Contents() == h.view && state.Contents() == h.db
        && var n := old(sync.Contents()).(db := h.db);
        && sync.Contents() == (if h.logged.Some? then Record(n, kind, h.logged.value, now) else n)
        && sent == if h.logged.Some? && sync.linked
          then [SyncOp(Op(old(sync.nextSeq), kind, h.logged.value, now))] else []
    {
      hide Exec, Login, Logout, ParseRequest, LogPayload, ParseOwner, QueryReply;
      sent := [];
      if Replicated(kind) {
        if kind != MSG_CREATE_USER && user == [] { return Reply(ST_NOT_LOGGED_IN, []), []; }
        var c := ReadRequest(kind, payload);
        if c.None? { return Reply(ST_MALFORMED, []), []; }
        var st := Execute(state, c.value);
        if st == ST_OK {
          var rep := BuildLogPayload(kind, payload, c.value);
          sent := sync.RecordAndReplicate(kind, rep, now);
        }
        r := Reply(st, []);
      } else if kind == MSG_LOGIN {
        var inp := new Buffer.From(payload);
        var ok, p := GetOwner(inp);
        if !ok { return Reply(ST_MALFORMED, []), []; }
        var st := state.Login(p.0, p.1, peerIp, p.2);
        if st == ST_OK { user := p.0; seedPort := p.2; }
        r := Reply(st, []);
      } else if kind == MSG_LOGOUT {
        if user == [] { return Reply(ST_NOT_LOGGED_IN, []), []; }
        var st := state.Logout(user);
        user := [];
        r := Reply(st, []);
      } else if Query(kind) {
        r := Ask(kind, payload);
      } else {
        r := Reply(ST_NOT_IMPLEMENTED, []);
      }
    }

    /** `handle_one`: the request is dispatched and its response sent. */
    method HandleOne(m: Net.Message, now: nat, replies: seq<Reply>, sent: seq<PeerMsg>)
      returns (replies': seq<Reply>, sent': seq<PeerMsg>)
      requires Valid()
      modifies this, state, sync
      ensures Valid() && sync.linked == old(sync.linked)
      ensures Served(Contents(), sync.Contents(), replies', sent')
        == ServeOne(Served(old(Contents()), old(sync.Contents()), replies, sent), m, now, old(sync.linked))
    {
      hide Handle, Record;
      var reply, out := Dispatch(m.kind, m.payload, now);
      replies', sent' := replies + [reply], sent + out;
    }

    /** Requests until the stream ends or misbehaves, then the logout nobody asked for. */
    method Run(link: Net.Link, clock: nat -> nat) returns (replies: seq<Reply>, sent: seq<PeerMsg>)
      requires Valid()
      modifies this, state, sync, link`wire, link`interrupts
      ensures link.healthy ==>
        Served(Contents(), sync.Contents(), replies, sent) == HangUp(ServeAll(
          Served(old(Contents()), old(sync.Contents()), [], []), Net.ReceiveAll(old(link.wire)).msgs, clock,
            old(sync.linked)))
    {
      hide ServeOne, Logout, Net.Receive;
      replies, sent := [], [];
      ghost var start := Served(Contents(), sync.Contents(), [], []);
      ghost var all := Net.ReceiveAll(link.wire).msgs;
      var done: seq<Net.Message> := [];
      var linked := sync.linked;
      ghost var cur := link.wire;
      var r, m := Net.RecvMsg(link);
      assert done + all == all;
      while r == 1
        invariant Valid() && sync.linked == linked
        invariant Served(Contents(), sync.Contents(), replies, sent) == ServeAll(start, done, clock, linked)
        invariant link.healthy ==>
          && r == (match Net.Receive(cur) case Delivered(_, _) => 1 case Closed => 0 case Rejected => -1)
          && all == done + Net.ReceiveAll(cur).msgs
        invariant r == 1 ==> Net.Receive(cur) == Net.Delivered(m, link.wire)
        decreases |cur|
      {
        Net.DeliveryConsumes(cur);
        assert Net.ReceiveAll(cur).msgs == [m] + Net.ReceiveAll(link.wire).msgs;
        ServeSnoc(start, done, m, clock, linked);
        replies, sent := HandleOne(m, clock(|done|), replies, sent);
        assert done + ([m] + Net.ReceiveAll(link.wire).msgs) == (done + [m]) + Net.ReceiveAll(link.wire).msgs;
        done := done + [m];
        cur := link.wire;
        r, m := Net.RecvMsg(link);
      }
      assert done + [] == done;
      if user != [] { var _ := state.Logout(user); }
    }
  }
}
