/**
 What a client is answered, end to end: the bytes the client program sends for a command,
 through the session, against the history of the tracker, to the bytes of the answer.
 */
module Service {
  import opened Bytes
  import opened Codec
  import opened Tracker
  import opened Replay
  import opened Wire
  import opened Sync
  import opened History
  import opened Answers
  import opened Session
  import opened Identity
  import Net
  import Pieces
  import Protocol
  import Sha1
  import Snapshot

  // ----- requests that change the metadata ----------------------------------

  function KindOf(c: Cmd): U16 {
    match c
    case CmdCreateUser(_, _) => MSG_CREATE_USER
    case CmdCreateGroup(_, _) => MSG_CREATE_GROUP
    case CmdJoinGroup(_, _) => MSG_JOIN_GROUP
    case CmdLeaveGroup(_, _) => MSG_LEAVE_GROUP
    case CmdAcceptRequest(_, _, _) => MSG_ACCEPT_REQUEST
    case CmdUpload(_, _, _, _, _) => MSG_UPLOAD_FILE
    case CmdStopShare(_, _, _) => MSG_STOP_SHARE
    case CmdHavePieces(_, _, _, _, _, _) => MSG_HAVE_PIECES
  }

  /** The payload client/main.cpp builds for a command; the session supplies the acting user. */
  function EncRequest(c: Cmd): Str {
    match c
    case CmdCreateUser(uid, pwd) => EncStr(uid) + EncStr(pwd)
    case CmdCreateGroup(gid, _) => EncStr(gid)
    case CmdJoinGroup(gid, _) => EncStr(gid)
    case CmdLeaveGroup(gid, _) => EncStr(gid)
    case CmdAcceptRequest(gid, _, uid) => EncStr(gid) + EncStr(uid)
    case CmdUpload(gid, _, _, _, meta) => EncUpload(gid, meta)
    case CmdStopShare(gid, _, fname) => EncStr(gid) + EncStr(fname)
    case CmdHavePieces(gid, _, _, _, fname, bits) => EncStr(gid) + EncStr(fname) + EncStr(bits)
  }

  /** The command is one this session can give: its strings have 32-bit lengths, and it names the session's user. */
  ghost predicate Given(v: View, c: Cmd) {
    && (c.CmdCreateUser? || (v.user != [] && Actor(c) == v.user))
    && match c
      case CmdCreateUser(uid, pwd) => Short(uid) && Short(pwd)
      case CmdCreateGroup(gid, _) => Short(gid)
      case CmdJoinGroup(gid, _) => Short(gid)
      case CmdLeaveGroup(gid, _) => Short(gid)
      case CmdAcceptRequest(gid, _, uid) => Short(gid) && Short(uid)
      case CmdUpload(gid, _, ip, port, meta) =>
        Short(gid) && ShortMeta(meta) && meta.seeders == map[] && ip == v.ip && port == v.port
      case CmdStopShare(gid, _, fname) => Short(gid) && Short(fname)
      case CmdHavePieces(gid, _, ip, port, fname, bits) =>
        Short(gid) && Short(fname) && Short(bits) && ip == v.ip && port == v.port
  }

  /** The session reads back the command the client meant, whatever bytes follow its fields. */
  lemma RequestRead(v: View, c: Cmd, r: Str)
    requires Given(v, c)
    ensures ParseRequest(KindOf(c), EncRequest(c) + r, v.user, v.ip, v.port) == Got(c, r)
  {
    hide ParseStr, ParseTwo, ParseThree, ParseUpload, EncStr, EncUpload, ShortMeta;
    match c
    case CmdCreateUser(uid, pwd) => TwoInverts(uid, pwd, r);
    case CmdCreateGroup(gid, _) => StrExact(EncStr(gid) + r, gid, r);
    case CmdJoinGroup(gid, _) => StrExact(EncStr(gid) + r, gid, r);
    case CmdLeaveGroup(gid, _) => StrExact(EncStr(gid) + r, gid, r);
    case CmdAcceptRequest(gid, _, uid) => TwoInverts(gid, uid, r);
    case CmdUpload(gid, _, _, _, meta) => UploadInverts(gid, meta, r);
    case CmdStopShare(gid, _, fname) => TwoInverts(gid, fname, r);
    case CmdHavePieces(gid, _, _, _, fname, bits) => ThreeInverts(gid, fname, bits, r);
  }

  lemma OneRead(a: Str)
    requires Short(a)
    ensures ParseStr(EncStr(a)) == Got(a, [])
  {
    StrExact(EncStr(a), a, []);
    hide ParseStr, EncStr;
    assert EncStr(a) + [] == EncStr(a);
  }

  lemma TwoRead(a: Str, b: Str)
    requires Short(a) && Short(b)
    ensures ParseTwo(EncStr(a) + EncStr(b)) == Got((a, b), [])
  {
    TwoInverts(a, b, []);
    hide ParseTwo, EncStr;
    assert EncStr(a) + EncStr(b) + [] == EncStr(a) + EncStr(b);
  }

  /**
   A client's command after any run, with or without surplus bytes: the response carries the status
   its history settles, the database becomes that of the run with the command, and a log entry is
   made exactly on success.
   */
  lemma RequestAnswered(es: seq<Event>, v: View, c: Cmd, surplus: Str)
    requires Given(v, c)
    ensures var h := Handle(v, After(es), KindOf(c), EncRequest(c) + surplus);
      && h.view == v && h.db == After(es + [Do(c)]) && h.reply == Reply(Verdict(es, c), [])
      && (h.logged.Some? <==> Verdict(es, c) == ST_OK)
  {
    RequestRead(v, c, surplus);
    VerdictIs(es, c);
    AfterOneMore(es, Do(c));
    hide After, Exec, ParseRequest, EncRequest, LogPayload, Verdict;
  }

  lemma AfterOneMore(es: seq<Event>, e: Event)
    ensures After(es + [e]) == Apply(After(es), e).db
  {
    assert (es + [e])[..|es|] == es;
  }

  /** Kinds that are none of a session's change nothing and are told so. */
  lemma OtherKindsRefused(v: View, db: Db, kind: U16, payload: Str)
    requires kind < MSG_CREATE_USER || kind > MSG_HAVE_PIECES
    ensures Handle(v, db, kind, payload) == Handled(v, db, Reply(ST_NOT_IMPLEMENTED, []), None)
  {
  }

  // ----- sessions begin and end ---------------------------------------------

  lemma LoginRead(uid: Str, pwd: Str, port: U16)
    requires Short(uid) && Short(pwd)
    ensures ParseOwner(EncStr(uid) + (EncStr(pwd) + EncU16(port))) == Got((uid, pwd, port), [])
  {
    hide ParseStr, EncStr, ParseU16, EncU16;
    var d2 := EncU16(port);
    var d1 := EncStr(pwd) + d2;
    StrExact(EncStr(uid) + d1, uid, d1);
    StrExact(d1, pwd, d2);
    U16Exact(d2, port, []);
    assert d2 + [] == d2;
  }

  /** A login is answered by the history of the account, and binds the session exactly on success. */
  lemma LoginAnswered(es: seq<Event>, v: View, uid: Str, pwd: Str, port: U16)
    requires Short(uid) && Short(pwd)
    ensures var h := Handle(v, After(es), MSG_LOGIN, EncStr(uid) + (EncStr(pwd) + EncU16(port)));
      var known := KnownTo(es, uid);
      var same := Lasts(es, Registering(uid, Sha1.HexDigest(pwd)), Never());
      && h.reply == Reply(if !known then ST_NOT_FOUND else if !same then ST_BAD_CREDENTIALS else ST_OK, [])
      && h.view == (if same then View(uid, v.ip, port) else v)
      && h.db == After(es + [LogIn(uid, pwd, v.ip, port)]) && h.logged.None?
  {
    LoginIff(es, uid, pwd, v.ip, port);
    LoginRead(uid, pwd, port);
    AfterOneMore(es, LogIn(uid, pwd, v.ip, port));
    hide Login, ParseOwner, EncStr, EncU16, Since, Sha1.HexDigest;
    hide After;
  }

  lemma LogoutAnswered(es: seq<Event>, v: View, payload: Str)
    requires v.user != []
    ensures var h := Handle(v, After(es), MSG_LOGOUT, payload);
      && h.reply == Reply(if KnownTo(es, v.user) then ST_OK else ST_NOT_FOUND, [])
      && h.view == v.(user := []) && h.db == After(es + [LogOut(v.user)]) && h.logged.None?
  {
    LogoutAnswer(es, v.user);
    AfterOneMore(es, LogOut(v.user));
    hide Logout, After, Lasts;
  }

  /** A connection that ends is a logout of its user; log and numbers stay. */
  lemma HangUpIsLogout(es: seq<Event>, s: Served)
    requires s.node.db == After(es)
    ensures HangUp(s).node == s.node.(db := After(es + if s.view.user == [] then [] else [LogOut(s.view.user)]))
    ensures HangUp(s).replies == s.replies && HangUp(s).sent == s.sent
    ensures s.view.user != [] ==> forall gid, n ::
      !IsSeeder(HangUp(s).node.db, gid, n, s.view.user)
  {
    assert es + [] == es;
    if s.view.user != [] {
      AfterOneMore(es, LogOut(s.view.user));
      forall gid, n ensures !IsSeeder(HangUp(s).node.db, gid, n, s.view.user) {
        ReachableValid(es);
        SeederStep(After(es), LogOut(s.view.user), gid, n, s.view.user);
        hide After, Valid, Logout;
      }
    }
  }

  /**
   A request is a step of the replication protocol, or changes nothing there: what it logs is a
   client operation, and goes out on the link exactly then; a login or logout is a session event.
   */
  lemma RequestIsStep(s: Protocol.System, v: View, m: Net.Message, now: nat) returns (a: Option<Protocol.Action>)
    requires Protocol.Bounded(v, m.payload)
    ensures var served := ServeOne(Served(v, s.origin, [], []), m, now, s.link.Up?);
      match a
      case None => served.node == s.origin && served.sent == []
      case Some(act) =>
        && Protocol.Enabled(s, act, false) && (act.ClientOp? || act.OriginSession?)
        && var t := Protocol.Next(s, act);
        && t.origin == served.node && t.replica == s.replica
        && t.link == if s.link.Up? then Protocol.Up(s.link.toReplica + served.sent, s.link.toOrigin) else Protocol.Down
  {
    hide Exec, Login, Logout, ParseRequest, LogPayload, ParseOwner, QueryReply, Protocol.Bounded;
    var h := Handle(v, s.origin.db, m.kind, m.payload);
    LoggedIff(v, s.origin.db, m.kind, m.payload);
    if s.link.Up? { assert s.link.toReplica + [] == s.link.toReplica; }
    if h.logged.Some? {
      a := Some(Protocol.ClientOp(v, m.kind, m.payload, now));
    } else if m.kind == MSG_LOGIN && ParseLogin(m.payload).Got? {
      var p := ParseLogin(m.payload).value;
      a := Some(Protocol.OriginSession(LogIn(p.0, p.1, v.ip, p.2)));
    } else if m.kind == MSG_LOGOUT && v.user != [] {
      a := Some(Protocol.OriginSession(LogOut(v.user)));
    } else {
      a := None;
      NothingDone(v, s.origin.db, m.kind, m.payload);
    }
  }

  lemma NothingDone(v: View, db: Db, kind: U16, payload: Str)
    requires Handle(v, db, kind, payload).logged.None?
    requires kind == MSG_LOGIN ==> ParseLogin(payload).Fail?
    requires kind == MSG_LOGOUT ==> v.user == []
    ensures Handle(v, db, kind, payload).db == db
  {
    hide Exec, Login, Logout, ParseRequest, LogPayload, ParseOwner, QueryReply;
    if Replicated(kind) && ParseRequest(kind, payload, v.user, v.ip, v.port).Got? {
      FailureChangesNothing(db, ParseRequest(kind, payload, v.user, v.ip, v.port).value);
    }
  }

  // ----- queries ------------------------------------------------------------

  /** The body lists these names, in ascending order, and nothing follows. */
  ghost predicate Lists(body: Str, names: set<Str>) {
    && ParseCounted(ParseStr, body) == Got(SortedKeys(names), [])
    && forall i, j | 0 <= i < j < |SortedKeys(names)| :: Less(SortedKeys(names)[i], SortedKeys(names)[j])
  }

  ghost predicate Listable(names: set<Str>) { Snapshot.Few(|names|) && forall n | n in names :: Short(n) }

  lemma NamesListed(names: set<Str>)
    requires Listable(names)
    ensures Lists(EncNames(names), names)
  {
    SortedKeysAscend(names);
    Snapshot.StrsInvert(SortedKeys(names), []);
    hide EncCounted, ParseCounted, SortedKeys;
    assert EncNames(names) + [] == EncNames(names);
  }

  /** Each query asks what its kind says, with the fields of its payload, for the session's user. */
  lemma QueriesAsk(v: View, db: Db, gid: Str, n: Str)
    requires v.user != [] && Short(gid) && Short(n)
    ensures Handle(v, db, MSG_LIST_REQUESTS, EncStr(gid)).reply == NamesReply(ListRequests(db, gid, v.user))
    ensures Handle(v, db, MSG_LIST_FILES, EncStr(gid)).reply == NamesReply(ListFiles(db, gid, v.user))
    ensures Handle(v, db, MSG_GET_FILE_META, EncStr(gid) + EncStr(n)).reply == FileReply(GetFile(db, gid, v.user, n))
  {
    OneRead(gid);
    TwoRead(gid, n);
    hide ListRequests, ListFiles, GetFile, ParseTwo, ParseStr, EncStr, NamesReply, FileReply;
  }

  /** A logged-in client is told every group that was created and has not dissolved. */
  lemma GroupsTold(es: seq<Event>, v: View, payload: Str)
    requires v.user != [] && Listable(After(es).groups.Keys)
    ensures var r := Handle(v, After(es), MSG_LIST_GROUPS, payload).reply;
      && r.st == ST_OK && Lists(r.body, After(es).groups.Keys)
    ensures forall g :: g in After(es).groups.Keys <==> Exists(es, g)
  {
    NamesListed(After(es).groups.Keys);
    forall g ensures g in After(es).groups.Keys <==> Exists(es, g) { FactsOfGroup(es, g, []); }
    hide After, Lists, Lasts, EncNames;
  }

  /** The owner is told the requests of its group; anybody else only why not. */
  lemma RequestsTold(es: seq<Event>, v: View, gid: Str)
    requires v.user != [] && Short(gid) && Listable(ListRequests(After(es), gid, v.user).value)
    ensures var names := ListRequests(After(es), gid, v.user).value;
      var r := Handle(v, After(es), MSG_LIST_REQUESTS, EncStr(gid)).reply;
      && r.st == (if gid == [] then ST_MALFORMED else if !Exists(es, gid) then ST_NOT_FOUND
        else if !Owns(es, gid, v.user) then ST_NOT_OWNER else ST_OK)
      && (if r.st == ST_OK then Lists(r.body, names) else r.body == [])
      && forall u :: u in names <==> r.st == ST_OK && Waits(es, gid, u)
  {
    QueriesAsk(v, After(es), gid, []);
    RequestsAnswer(es, gid, v.user);
    NamesListed(ListRequests(After(es), gid, v.user).value);
    hide After, Lists, Lasts, EncNames, ListRequests, Handle, EncStr;
  }

  /** A member is told the files of its group. */
  lemma FilesTold(es: seq<Event>, v: View, gid: Str)
    requires v.user != [] && Short(gid) && Listable(ListFiles(After(es), gid, v.user).value)
    ensures var names := ListFiles(After(es), gid, v.user).value;
      var r := Handle(v, After(es), MSG_LIST_FILES, EncStr(gid)).reply;
      && r.st == (if gid == [] then ST_MALFORMED else if !Exists(es, gid) then ST_NOT_FOUND
        else if !Belongs(es, gid, v.user) then ST_NOT_MEMBER else ST_OK)
      && (if r.st == ST_OK then Lists(r.body, names) else r.body == [])
      && forall n :: n in names <==> r.st == ST_OK && Published(es, gid, n)
  {
    QueriesAsk(v, After(es), gid, []);
    FilesAnswer(es, gid, v.user);
    NamesListed(ListFiles(After(es), gid, v.user).value);
    hide After, Lists, Lasts, EncNames, ListFiles, Handle, EncStr;
  }

  /**
   A member that asks for a file is told its size and hashes as first published, and everyone who
   has announced pieces and not withdrawn, with address and bitfield; anybody else only why not.
   */
  lemma FileTold(es: seq<Event>, v: View, gid: Str, n: Str)
    requires v.user != [] && Short(gid) && Short(n)
    requires var a := GetFile(After(es), gid, v.user, n); a.value.Some? ==> Snapshot.FitsFile(a.value.value)
    ensures var a := GetFile(After(es), gid, v.user, n);
      var r := Handle(v, After(es), MSG_GET_FILE_META, EncStr(gid) + EncStr(n)).reply;
      && r.st == (if gid == [] || n == [] then ST_MALFORMED else if !Exists(es, gid) then ST_NOT_FOUND
        else if !Belongs(es, gid, v.user) then ST_NOT_MEMBER else if !Published(es, gid, n) then ST_NOT_FOUND
        else ST_OK)
      && (a.value.Some? <==> r.st == ST_OK)
      && (r.st != ST_OK ==> r.body == [])
      && (r.st == ST_OK ==>
        && Lasts(es, Publishing(gid, a.value.value), Dissolving(gid)) && a.value.value.name == n
        && (forall u, p ::
          Names(a.value.value, u, p) <==> Lasts(es, Announcing(gid, n, u, p), Superseding(gid, n, u)))
        && ParseFileReply(r.body) == Got((a.value.value.size, a.value.value.fileHash, a.value.value.pieceHashes,
             Values(a.value.value.seeders)), []))
  {
    hide After, Lasts, GetFile, Handle, EncStr, EncFileReply, ParseFileReply, ValidFile, Snapshot.FitsFile, Since;
    QueriesAsk(v, After(es), gid, n);
    FileAnswer(es, gid, v.user, n);
    var a := GetFile(After(es), gid, v.user, n);
    if a.value.Some? {
      StoredFileValid(es, gid, v.user, n);
      FileReplyReadsBack(After(es).users.Keys, n, a.value.value);
    }
  }

  lemma StoredFileValid(es: seq<Event>, gid: Str, u: Str, n: Str)
    requires GetFile(After(es), gid, u, n).value.Some?
    ensures ValidFile(After(es).users.Keys, n, GetFile(After(es), gid, u, n).value.value)
  {
    ReachableValid(es);
    hide After;
    assert ValidGroup(After(es).users.Keys, gid, After(es).groups[gid]);
  }

  /**
   The bitfield an upload announces: as long as the downloader's own bitmap for that many pieces,
   all ones, and so holding every piece.
   */
  lemma UploaderHasAll(n: nat, i: nat)
    requires Pieces.Mappable(n) && i < n
    ensures |AllBits(n)| == Pieces.BitmapBytes(n) && (forall j | 0 <= j < |AllBits(n)| :: AllBits(n)[j] == 0xFF)
    ensures Pieces.HasBit(seq(|AllBits(n)|, j requires 0 <= j < |AllBits(n)| => AllBits(n)[j] as bv8), i)
  {
    AllOnes(i % 8);
  }

  lemma AllOnes(k: nat)
    requires k < 8
    ensures Pieces.HasBit([0xFF], k)
  {
  }
}
