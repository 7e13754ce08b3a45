/**
 The payloads of the replicated operations: how a session reads a client request and
 builds the logged payload (tracker/session.cpp), and how `apply_remote` reads that
 payload on the other tracker (tracker/sync.cpp).
 */
module Wire {
  import opened Bytes
  import opened Codec
  import opened Tracker
  import opened Replay

  const MSG_CREATE_USER: U16 := 0x0101
  const MSG_LOGIN: U16 := 0x0102
  const MSG_LOGOUT: U16 := 0x0103
  const MSG_CREATE_GROUP: U16 := 0x0104
  const MSG_JOIN_GROUP: U16 := 0x0105
  const MSG_LEAVE_GROUP: U16 := 0x0106
  const MSG_LIST_GROUPS: U16 := 0x0107
  const MSG_LIST_REQUESTS: U16 := 0x0108
  const MSG_ACCEPT_REQUEST: U16 := 0x0109
  const MSG_UPLOAD_FILE: U16 := 0x010A
  const MSG_LIST_FILES: U16 := 0x010B
  const MSG_GET_FILE_META: U16 := 0x010C
  const MSG_STOP_SHARE: U16 := 0x010D
  const MSG_HAVE_PIECES: U16 := 0x010E

  predicate Replicated(kind: U16) {
    || kind == MSG_CREATE_USER || kind == MSG_CREATE_GROUP || kind == MSG_JOIN_GROUP || kind == MSG_LEAVE_GROUP
    || kind == MSG_ACCEPT_REQUEST || kind == MSG_UPLOAD_FILE || kind == MSG_STOP_SHARE || kind == MSG_HAVE_PIECES
  }

  /** Operations whose log entry is the client's payload with session fields appended. */
  predicate Tailed(kind: U16) { kind == MSG_UPLOAD_FILE || kind == MSG_STOP_SHARE || kind == MSG_HAVE_PIECES }

  // ----- field groups -------------------------------------------------------

  function ParseTwo(d: Str): Parsed<(Str, Str)> {
    var (a, d) :- ParseStr(d);
    var (b, d) :- ParseStr(d);
    Got((a, b), d)
  }

  function ParseThree(d: Str): Parsed<(Str, Str, Str)> {
    var (a, d) :- ParseStr(d);
    var (b, d) :- ParseStr(d);
    var (c, d) :- ParseStr(d);
    Got((a, b, c), d)
  }

  /** The group and the metadata a client publishes. */
  function ParseUpload(d: Str): Parsed<(Str, FileMeta)> {
    var (gid, d) :- ParseStr(d);
    var (name, d) :- ParseStr(d);
    var (size, d) :- ParseU64(d);
    var (hash, d) :- ParseStr(d);
    var (pieces, d) :- ParseCounted(ParseStr, d);
    Got((gid, FileMeta(name, size, hash, pieces, map[])), d)
  }

  /** The user, address and port a session appends. */
  function ParseOwner(d: Str): Parsed<(Str, Str, U16)> {
    var (uid, d) :- ParseStr(d);
    var (ip, d) :- ParseStr(d);
    var (port, d) :- ParseU16(d);
    Got((uid, ip, port), d)
  }

  // ----- reading a request and a log entry ----------------------------------

  /** A client's request from the session of `user`; the rest is what the parser leaves unread. */
  function ParseRequest(kind: U16, d: Str, user: Str, ip: Str, port: U16): Parsed<Cmd>
    requires Replicated(kind)
  {
    if kind == MSG_CREATE_USER then var (p, d) :- ParseTwo(d); Got(CmdCreateUser(p.0, p.1), d)
    else if kind == MSG_CREATE_GROUP then var (gid, d) :- ParseStr(d); Got(CmdCreateGroup(gid, user), d)
    else if kind == MSG_JOIN_GROUP then var (gid, d) :- ParseStr(d); Got(CmdJoinGroup(gid, user), d)
    else if kind == MSG_LEAVE_GROUP then var (gid, d) :- ParseStr(d); Got(CmdLeaveGroup(gid, user), d)
    else if kind == MSG_ACCEPT_REQUEST then var (p, d) :- ParseTwo(d); Got(CmdAcceptRequest(p.0, user, p.1), d)
    else if kind == MSG_UPLOAD_FILE then var (p, d) :- ParseUpload(d); Got(CmdUpload(p.0, user, ip, port, p.1), d)
    else if kind == MSG_STOP_SHARE then var (p, d) :- ParseTwo(d); Got(CmdStopShare(p.0, user, p.1), d)
    else var (p, d) :- ParseThree(d); Got(CmdHavePieces(p.0, user, ip, port, p.1, p.2), d)
  }

  /** `apply_remote`'s reading of a logged payload; bytes after the last field are ignored. */
  function ParseOp(kind: U16, d: Str): Option<Cmd> {
    if kind == MSG_CREATE_USER then
      (match ParseTwo(d) case Got(p, _) => Some(CmdCreateUser(p.0, p.1)) case Fail => None)
    else if kind == MSG_CREATE_GROUP then
      (match ParseTwo(d) case Got(p, _) => Some(CmdCreateGroup(p.0, p.1)) case Fail => None)
    else if kind == MSG_JOIN_GROUP then
      (match ParseTwo(d) case Got(p, _) => Some(CmdJoinGroup(p.0, p.1)) case Fail => None)
    else if kind == MSG_LEAVE_GROUP then
      (match ParseTwo(d) case Got(p, _) => Some(CmdLeaveGroup(p.0, p.1)) case Fail => None)
    else if kind == MSG_ACCEPT_REQUEST then
      (match ParseThree(d) case Got(p, _) => Some(CmdAcceptRequest(p.0, p.1, p.2)) case Fail => None)
    else if kind == MSG_UPLOAD_FILE then
      (match ParseUpload(d)
       case Fail => None
       case Got(p, d) =>
         match ParseOwner(d) case Got(o, _) => Some(CmdUpload(p.0, o.0, o.1, o.2, p.1)) case Fail => None)
    else if kind == MSG_STOP_SHARE then
      (match ParseTwo(d)
       case Fail => None
       case Got(p, d) => match ParseStr(d) case Got(uid, _) => Some(CmdStopShare(p.0, uid, p.1)) case Fail => None)
    else if kind == MSG_HAVE_PIECES then
      (match ParseThree(d)
       case Fail => None
       case Got(p, d) =>
         match ParseOwner(d) case Got(o, _) => Some(CmdHavePieces(p.0, o.0, o.1, o.2, p.1, p.2)) case Fail => None)
    else None
  }

  /** The session fields appended to a client payload before it is logged. */
  function Tail(kind: U16, user: Str, ip: Str, port: U16): Str {
    if kind == MSG_STOP_SHARE then EncStr(user) else EncStr(user) + (EncStr(ip) + EncU16(port))
  }

  /** The appended fields can be read behind what the client sent after its last field. */
  predicate TailReadable(kind: U16, surplus: Str, user: Str, ip: Str, port: U16) {
    Tailed(kind) ==> Tail(kind, user, ip, port) <= surplus + Tail(kind, user, ip, port)
  }

  /** The payload `dispatch` hands to `record_and_replicate` for a request it read as `c`. */
  function LogPayload(kind: U16, payload: Str, user: Str, ip: Str, port: U16, c: Cmd): Str {
    if Tailed(kind) then payload + Tail(kind, user, ip, port)
    else match c
      case CmdCreateGroup(gid, _) => EncStr(gid) + EncStr(user)
      case CmdJoinGroup(gid, _) => EncStr(gid) + EncStr(user)
      case CmdLeaveGroup(gid, _) => EncStr(gid) + EncStr(user)
      case CmdAcceptRequest(gid, _, uid) => EncStr(gid) + EncStr(user) + EncStr(uid)
      case _ => payload
  }

  /** The database and the verdict of `apply_remote`. */
  datatype Applied = Applied(db: Db, ok: bool)

  function ApplyRemote(db: Db, kind: U16, payload: Str): Applied {
    match ParseOp(kind, payload)
    case None => Applied(db, false)
    case Some(c) => var o := Exec(db, c); Applied(o.db, Tolerated(c, o.st))
  }

  // ----- the field groups invert and extend ---------------------------------

  lemma TwoInverts(a: Str, b: Str, r: Str)
    requires Short(a) && Short(b)
    ensures ParseTwo(EncStr(a) + EncStr(b) + r) == Got((a, b), r)
  {
    hide ParseStr, EncStr;
    assert EncStr(a) + EncStr(b) + r == EncStr(a) + (EncStr(b) + r);
    StrExact(EncStr(a) + (EncStr(b) + r), a, EncStr(b) + r);
    StrExact(EncStr(b) + r, b, r);
  }

  lemma ThreeInverts(a: Str, b: Str, c: Str, r: Str)
    requires Short(a) && Short(b) && Short(c)
    ensures ParseThree(EncStr(a) + EncStr(b) + EncStr(c) + r) == Got((a, b, c), r)
  {
    hide ParseStr, EncStr;
    assert EncStr(a) + EncStr(b) + EncStr(c) + r == EncStr(a) + (EncStr(b) + (EncStr(c) + r));
    StrExact(EncStr(a) + (EncStr(b) + (EncStr(c) + r)), a, EncStr(b) + (EncStr(c) + r));
    StrExact(EncStr(b) + (EncStr(c) + r), b, EncStr(c) + r);
    StrExact(EncStr(c) + r, c, r);
  }

  lemma TwoMonotone(d: Str, e: Str)
    requires ParseTwo(d).Got?
    ensures ParseTwo(d + e) == Got(ParseTwo(d).value, ParseTwo(d).rest + e)
  {
    hide ParseStr;
    StrMonotone(d, e);
    StrMonotone(ParseStr(d).rest, e);
  }

  lemma ThreeMonotone(d: Str, e: Str)
    requires ParseThree(d).Got?
    ensures ParseThree(d + e) == Got(ParseThree(d).value, ParseThree(d).rest + e)
  {
    hide ParseStr;
    var p := ParseStr(d);
    StrMonotone(d, e);
    var q := ParseStr(p.rest);
    StrMonotone(p.rest, e);
    StrMonotone(q.rest, e);
  }

  lemma UploadMonotone(d: Str, e: Str)
    requires ParseUpload(d).Got?
    ensures ParseUpload(d + e) == Got(ParseUpload(d).value, ParseUpload(d).rest + e)
  {
    forall x: Str, y: Str | ParseStr(x).Got? ensures ParseStr(x + y) == Got(ParseStr(x).value, ParseStr(x).rest + y) {
      StrMonotone(x, y);
    }
    assert Monotone(ParseStr);
    hide ParseStr, ParseU64, ParseCounted, Monotone;
    var p1 := ParseStr(d);
    StrMonotone(d, e);
    var p2 := ParseStr(p1.rest);
    StrMonotone(p1.rest, e);
    var p3 := ParseU64(p2.rest);
    U64Monotone(p2.rest, e);
    var p4 := ParseStr(p3.rest);
    StrMonotone(p3.rest, e);
    CountedMonotone(ParseStr, p4.rest, e);
  }

  /** The appended fields are read as written exactly when the bytes begin with their encoding. */
  lemma OwnerExact(d: Str, user: Str, ip: Str, port: U16)
    requires Short(user) && Short(ip)
    ensures (ParseOwner(d).Got? && ParseOwner(d).value == (user, ip, port))
      <==> Tail(MSG_UPLOAD_FILE, user, ip, port) <= d
  {
    hide ParseStr, ParseU16, EncStr, EncU16;
    var t := Tail(MSG_UPLOAD_FILE, user, ip, port);
    if t <= d {
      var r := d[|t|..];
      assert d == EncStr(user) + (EncStr(ip) + (EncU16(port) + r));
      StrExact(d, user, EncStr(ip) + (EncU16(port) + r));
      StrExact(EncStr(ip) + (EncU16(port) + r), ip, EncU16(port) + r);
      U16Exact(EncU16(port) + r, port, r);
    }
    if ParseOwner(d).Got? && ParseOwner(d).value == (user, ip, port) {
      var p1 := ParseStr(d);
      var p2 := ParseStr(p1.rest);
      var p3 := ParseU16(p2.rest);
      StrExact(d, user, p1.rest);
      StrExact(p1.rest, ip, p2.rest);
      U16Exact(p2.rest, port, p3.rest);
      assert d == t + p3.rest;
    }
  }

  lemma UserExact(d: Str, user: Str)
    requires Short(user)
    ensures (ParseStr(d).Got? && ParseStr(d).value == user) <==> EncStr(user) <= d
  {
    if EncStr(user) <= d { StrExact(d, user, d[|EncStr(user)|..]); }
    if ParseStr(d).Got? && ParseStr(d).value == user { StrExact(d, user, ParseStr(d).rest); }
  }

  // ----- faithfulness -------------------------------------------------------

  /**
   What the other tracker reads from the log is the operation the session ran, exactly when
   the appended fields can still be read behind whatever the client sent after its last field.
   */
  lemma FaithfulIff(kind: U16, payload: Str, user: Str, ip: Str, port: U16)
    requires Replicated(kind) && Short(user) && Short(ip)
    requires ParseRequest(kind, payload, user, ip, port).Got?
    ensures var p := ParseRequest(kind, payload, user, ip, port);
      ParseOp(kind, LogPayload(kind, payload, user, ip, port, p.value)) == Some(p.value)
      <==> TailReadable(kind, p.rest, user, ip, port)
  {
    var p := ParseRequest(kind, payload, user, ip, port);
    var t := Tail(kind, user, ip, port);
    if Tailed(kind) {
      TailedFaithful(kind, payload, user, ip, port);
    } else if kind == MSG_CREATE_USER {
    } else {
      UntailedFaithful(kind, payload, user, ip, port);
    }
  }

  lemma UntailedFaithful(kind: U16, payload: Str, user: Str, ip: Str, port: U16)
    requires Replicated(kind) && !Tailed(kind) && kind != MSG_CREATE_USER && Short(user)
    requires ParseRequest(kind, payload, user, ip, port).Got?
    ensures var c := ParseRequest(kind, payload, user, ip, port).value;
      ParseOp(kind, LogPayload(kind, payload, user, ip, port, c)) == Some(c)
  {
    ParsedStrIsShort(payload);
    var c := ParseRequest(kind, payload, user, ip, port).value;
    if kind == MSG_ACCEPT_REQUEST {
      ParsedStrIsShort(ParseStr(payload).rest);
      hide ParseStr, EncStr;
      ThreeInverts(c.gid, user, c.uid, []);
      assert EncStr(c.gid) + EncStr(user) + EncStr(c.uid) + [] == EncStr(c.gid) + EncStr(user) + EncStr(c.uid);
    } else {
      hide ParseStr, EncStr;
      TwoInverts(c.gid, user, []);
      assert EncStr(c.gid) + EncStr(user) + [] == EncStr(c.gid) + EncStr(user);
    }
  }

  lemma TailedFaithful(kind: U16, payload: Str, user: Str, ip: Str, port: U16)
    requires Tailed(kind) && Short(user) && Short(ip)
    requires ParseRequest(kind, payload, user, ip, port).Got?
    ensures var p := ParseRequest(kind, payload, user, ip, port);
      ParseOp(kind, LogPayload(kind, payload, user, ip, port, p.value)) == Some(p.value)
      <==> Tail(kind, user, ip, port) <= p.rest + Tail(kind, user, ip, port)
  {
    hide ParseStr, EncStr, ParseOwner, ParseTwo, ParseThree, ParseUpload;
    var p := ParseRequest(kind, payload, user, ip, port);
    var t := Tail(kind, user, ip, port);
    if kind == MSG_UPLOAD_FILE {
      UploadMonotone(payload, t);
      OwnerExact(p.rest + t, user, ip, port);
    } else if kind == MSG_STOP_SHARE {
      TwoMonotone(payload, t);
      UserExact(p.rest + t, user);
    } else {
      ThreeMonotone(payload, t);
      OwnerExact(p.rest + t, user, ip, port);
    }
  }

  /** A request whose log entry is readable replays on a copy of the database as it ran at the origin. */
  lemma ReadableReplays(db: Db, kind: U16, payload: Str, user: Str, ip: Str, port: U16)
    requires Replicated(kind) && Short(user) && Short(ip)
    requires var p := ParseRequest(kind, payload, user, ip, port); p.Got? && TailReadable(kind, p.rest, user, ip, port)
    ensures var c := ParseRequest(kind, payload, user, ip, port).value;
      && ParseOp(kind, LogPayload(kind, payload, user, ip, port, c)) == Some(c)
      && ApplyRemote(db, kind, LogPayload(kind, payload, user, ip, port, c)).db == Exec(db, c).db
      && (Exec(db, c).st == ST_OK ==> ApplyRemote(db, kind, LogPayload(kind, payload, user, ip, port, c)).ok)
  {
    hide Exec, ParseOp, LogPayload;
    FaithfulIff(kind, payload, user, ip, port);
  }

  /** A request that is exactly its fields always is. */
  lemma ExactIsReadable(kind: U16, user: Str, ip: Str, port: U16)
    ensures TailReadable(kind, [], user, ip, port)
  {
    var t := Tail(kind, user, ip, port);
    assert [] + t == t;
  }

  lemma EmptyStr()
    ensures EncStr([]) == [0, 0, 0, 0]
  {
    assert LE(0, 4) == [0] + LE(0, 3);
    assert LE(0, 3) == [0] + LE(0, 2);
    assert LE(0, 2) == [0] + LE(0, 1);
    assert LE(0, 1) == [0] + LE(0, 0);
  }

  lemma StopShareRequest(gid: Str, fname: Str, user: Str, ip: Str, port: U16, r: Str)
    requires Short(gid) && Short(fname)
    ensures ParseRequest(MSG_STOP_SHARE, EncStr(gid) + EncStr(fname) + r, user, ip, port) == Got(CmdStopShare(gid,
      user, fname), r)
  {
    hide ParseTwo, EncStr;
    TwoInverts(gid, fname, r);
  }

  lemma StopShareReplay(gid: Str, fname: Str, uid: Str, r: Str)
    requires Short(gid) && Short(fname) && Short(uid)
    ensures ParseOp(MSG_STOP_SHARE, EncStr(gid) + EncStr(fname) + EncStr(uid) + r) == Some(CmdStopShare(gid, uid,
      fname))
  {
    hide ParseTwo, ParseStr, EncStr;
    TwoInverts(gid, fname, EncStr(uid) + r);
    assert EncStr(gid) + EncStr(fname) + EncStr(uid) + r == EncStr(gid) + EncStr(fname) + (EncStr(uid) + r);
    StrExact(EncStr(uid) + r, uid, r);
  }

  /**
   Four zero bytes after a stop_share request are read as an empty user name: the origin
   stops the share, and no replica ever can.
   */
  lemma TrailingBytesLoseStopShare(replica: Db, gid: Str, fname: Str, user: Str, ip: Str, port: U16)
    requires Short(gid) && Short(fname) && Short(user)
    ensures var payload := EncStr(gid) + EncStr(fname) + [0, 0, 0, 0];
      var p := ParseRequest(MSG_STOP_SHARE, payload, user, ip, port);
      && p == Got(CmdStopShare(gid, user, fname), [0, 0, 0, 0])
      && ApplyRemote(replica, MSG_STOP_SHARE, LogPayload(MSG_STOP_SHARE, payload, user, ip, port, p.value))
        == Applied(replica, false)
  {
    hide EncStr, ParseRequest, ParseOp;
    EmptyStr();
    StopShareRequest(gid, fname, user, ip, port, EncStr([]));
    StopShareReplay(gid, fname, [], EncStr(user));
  }

  // ----- uploads ------------------------------------------------------------

  /** The request a client builds to publish a file. */
  function EncUpload(gid: Str, m: FileMeta): Str {
    EncStr(gid) + (EncStr(m.name) + (EncU64(m.size) + (EncStr(m.fileHash) + EncCounted(m.pieceHashes, EncStr))))
  }

  predicate ShortMeta(m: FileMeta) {
    && Short(m.name) && Short(m.fileHash) && |m.pieceHashes| < 0x1_0000_0000
    && forall h | h in m.pieceHashes :: Short(h)
  }

  lemma UploadInverts(gid: Str, m: FileMeta, r: Str)
    requires Short(gid) && ShortMeta(m)
    ensures ParseUpload(EncUpload(gid, m) + r) == Got((gid, m.(seeders := map[])), r)
  {
    var d4 := EncCounted(m.pieceHashes, EncStr) + r;
    var d3 := EncStr(m.fileHash) + d4;
    var d2 := EncU64(m.size) + d3;
    var d1 := EncStr(m.name) + d2;
    forall h | h in m.pieceHashes ensures Inverts(h, EncStr, ParseStr) {
      forall x: Str ensures ParseStr(EncStr(h) + x) == Got(h, x) { StrExact(EncStr(h) + x, h, x); }
    }
    hide ParseStr, ParseU64, EncStr, EncU64, ParseCounted, EncCounted;
    assert EncUpload(gid, m) + r == EncStr(gid) + d1;
    StrExact(EncStr(gid) + d1, gid, d1);
    StrExact(d1, m.name, d2);
    U64Exact(d2, m.size, d3);
    StrExact(d3, m.fileHash, d4);
    CountedInverts(m.pieceHashes, EncStr, ParseStr, r);
  }

  /** An upload request with another user's name, address and port behind it. */
  function SurplusUpload(gid: Str, m: FileMeta, other: Str, otherIp: Str, otherPort: U16): Str {
    EncUpload(gid, m) + Tail(MSG_UPLOAD_FILE, other, otherIp, otherPort)
  }

  /** The session reads it as its own user's upload, its log entry as the other user's. */
  lemma SurplusOwnerRead(gid: Str, m: FileMeta, user: Str, ip: Str, port: U16, other: Str, otherIp: Str, otherPort: U16)
    requires Short(gid) && ShortMeta(m) && Short(user) && Short(ip) && Short(other) && Short(otherIp)
    ensures var payload, t := SurplusUpload(gid, m, other, otherIp, otherPort), Tail(MSG_UPLOAD_FILE, other,
      otherIp, otherPort);
      var c := CmdUpload(gid, user, ip, port, m.(seeders := map[]));
      && ParseRequest(MSG_UPLOAD_FILE, payload, user, ip, port) == Got(c, t)
      && ParseOp(MSG_UPLOAD_FILE, LogPayload(MSG_UPLOAD_FILE, payload, user, ip, port, c))
        == Some(CmdUpload(gid, other, otherIp, otherPort, m.(seeders := map[])))
  {
    hide ParseUpload, ParseOwner, ParseStr, ParseTwo, ParseThree, ParseOp, EncUpload, EncStr, Tail;
    UploadInverts(gid, m, Tail(MSG_UPLOAD_FILE, other, otherIp, otherPort));
    SurplusOwnerLogged(gid, m, Tail(MSG_UPLOAD_FILE, user, ip, port), other, otherIp, otherPort);
  }

  lemma SurplusOwnerLogged(gid: Str, m: FileMeta, tail: Str, other: Str, otherIp: Str, otherPort: U16)
    requires Short(gid) && ShortMeta(m) && Short(other) && Short(otherIp)
    ensures ParseOp(MSG_UPLOAD_FILE, SurplusUpload(gid, m, other, otherIp, otherPort) + tail)
      == Some(CmdUpload(gid, other, otherIp, otherPort, m.(seeders := map[])))
  {
    hide ParseUpload, ParseOwner, ParseStr, ParseTwo, ParseThree, EncUpload, EncStr, Tail;
    var t := Tail(MSG_UPLOAD_FILE, other, otherIp, otherPort);
    UploadInverts(gid, m, t + tail);
    OwnerExact(t + tail, other, otherIp, otherPort);
    assert EncUpload(gid, m) + t + tail == EncUpload(gid, m) + (t + tail);
  }

  /** The same new file, published by a member at the origin and by a stranger on the replica. */
  lemma StrangerRefused(db: Db, replica: Db, c: Cmd, d: Cmd)
    requires SameMeta(db, replica) && c.CmdUpload? && d.CmdUpload? && c.gid == d.gid && c.meta == d.meta
    requires c.gid in db.groups && c.uid in db.groups[c.gid].members && d.uid !in db.groups[c.gid].members
    requires c.gid != [] && c.uid != [] && c.meta.name != [] && c.meta.name !in db.groups[c.gid].files
    ensures Exec(db, c).st == ST_OK && Exec(replica, d).st != ST_OK && !Tolerated(d, Exec(replica, d).st)
    ensures Exec(replica, d).db == replica && !SameMeta(Exec(db, c).db, replica)
  {
    hide AllBits;
    assert SameGroup(db.groups[c.gid], replica.groups[c.gid]);
    var r := Exec(db, c).db;
    assert c.meta.name in r.groups[c.gid].files && c.meta.name !in replica.groups[c.gid].files;
    assert !SameGroup(r.groups[c.gid], replica.groups[c.gid]);
  }

  /**
   If that other user is no member, the origin publishes the file and every replica with the
   same metadata refuses the entry: from then on the metadata differ.
   */
  lemma SurplusOwnerDiverges(db: Db, replica: Db, gid: Str, m: FileMeta, user: Str, ip: Str, port: U16,
      other: Str, otherIp: Str, otherPort: U16)
    requires SameMeta(db, replica) && gid in db.groups
    requires user in db.groups[gid].members && other !in db.groups[gid].members
    requires gid != [] && user != [] && m.name != [] && m.name !in db.groups[gid].files
    requires Short(gid) && ShortMeta(m) && Short(user) && Short(ip) && Short(other) && Short(otherIp)
    ensures var payload, c := SurplusUpload(gid, m, other, otherIp, otherPort), CmdUpload(gid, user, ip, port,
      m.(seeders := map[]));
      && ParseRequest(MSG_UPLOAD_FILE, payload, user, ip, port).Got?
      && ParseRequest(MSG_UPLOAD_FILE, payload, user, ip, port).value == c
      && Exec(db, c).st == ST_OK
      && ApplyRemote(replica, MSG_UPLOAD_FILE, LogPayload(MSG_UPLOAD_FILE, payload, user, ip, port, c))
        == Applied(replica, false)
      && !SameMeta(Exec(db, c).db, replica)
  {
    hide Exec, Tolerated, ParseOp, ParseRequest, LogPayload, SurplusUpload, SameMeta;
    SurplusOwnerRead(gid, m, user, ip, port, other, otherIp, otherPort);
    var m0 := m.(seeders := map[]);
    StrangerRefused(db, replica, CmdUpload(gid, user, ip, port, m0), CmdUpload(gid, other, otherIp, otherPort, m0));
  }
}
