/**
 The tracker's metadata and every operation on it, as functions from a database to
 an outcome (tracker/tracker_state.cpp). The class in TrackerState.dfy refines them.
 */
module Tracker {
  import opened Bytes
  import Sha1

  datatype Status =
    | ST_OK | ST_ERR | ST_NOT_LOGGED_IN | ST_BAD_CREDENTIALS | ST_ALREADY_EXISTS | ST_NOT_FOUND
    | ST_NOT_OWNER | ST_NOT_MEMBER | ST_NOT_IMPLEMENTED | ST_MALFORMED

  datatype PeerRef = PeerRef(userId: Str, ip: Str, port: U16, bitfield: Str)

  datatype FileMeta = FileMeta(name: Str, size: U64, fileHash: Str, pieceHashes: seq<Str>, seeders: map<Str, PeerRef>)

  datatype Group = Group(id: Str, owner: Str, members: set<Str>, pending: set<Str>, files: map<Str, FileMeta>)

  datatype User = User(id: Str, password: Str, online: bool, ip: Str, port: U16)

  datatype Db = Db(users: map<Str, User>, groups: map<Str, Group>)

  datatype Outcome = Outcome(db: Db, st: Status)

  const EmptyDb := Db(map[], map[])

  predicate IsEmpty(db: Db) { |db.users| == 0 && |db.groups| == 0 }

  function HashPassword(pwd: Str): Str { Sha1.HexDigest(pwd) }

  // ----- building blocks ----------------------------------------------------

  function PutGroup(db: Db, gid: Str, g: Group): Db { db.(groups := db.groups[gid := g]) }

  function PutFile(g: Group, name: Str, f: FileMeta): Group { g.(files := g.files[name := f]) }

  function PutSeeder(f: FileMeta, p: PeerRef): FileMeta { f.(seeders := f.seeders[p.userId := p]) }

  /** A bitfield that claims every one of n pieces. */
  function AllBits(n: nat): Str { seq((n + 7) / 8, _ => 0xFF) }

  function Evict(f: FileMeta, uid: Str): FileMeta { f.(seeders := f.seeders - {uid}) }

  function EvictFromFiles(files: map<Str, FileMeta>, uid: Str): map<Str, FileMeta> {
    map n | n in files :: Evict(files[n], uid)
  }

  function EvictFromGroup(g: Group, uid: Str): Group { g.(files := EvictFromFiles(g.files, uid)) }

  function EvictFromGroups(groups: map<Str, Group>, uid: Str): map<Str, Group> {
    map g | g in groups :: EvictFromGroup(groups[g], uid)
  }

  // ----- session operations -------------------------------------------------

  function Login(db: Db, uid: Str, pwd: Str, ip: Str, port: U16): Outcome {
    if uid !in db.users then Outcome(db, ST_NOT_FOUND)
    else if db.users[uid].password != HashPassword(pwd) then Outcome(db, ST_BAD_CREDENTIALS)
    else Outcome(db.(users := db.users[uid := db.users[uid].(online := true, ip := ip, port := port)]), ST_OK)
  }

  function Logout(db: Db, uid: Str): Outcome {
    if uid !in db.users then Outcome(db, ST_NOT_FOUND)
    else Outcome(Db(db.users[uid := db.users[uid].(online := false)], EvictFromGroups(db.groups, uid)), ST_OK)
  }

  // ----- metadata operations ------------------------------------------------

  function CreateUser(db: Db, uid: Str, pwd: Str): Outcome {
    if uid == [] || pwd == [] then Outcome(db, ST_MALFORMED)
    else if uid in db.users then Outcome(db, ST_ALREADY_EXISTS)
    else Outcome(db.(users := db.users[uid := User(uid, HashPassword(pwd), false, [], 0)]), ST_OK)
  }

  function CreateGroup(db: Db, gid: Str, owner: Str): Outcome {
    if gid == [] || owner == [] then Outcome(db, ST_MALFORMED)
    else if owner !in db.users then Outcome(db, ST_NOT_FOUND)
    else if gid in db.groups then Outcome(db, ST_ALREADY_EXISTS)
    else Outcome(PutGroup(db, gid, Group(gid, owner, {owner}, {}, map[])), ST_OK)
  }

  function JoinGroup(db: Db, gid: Str, uid: Str): Outcome {
    if gid == [] || uid == [] then Outcome(db, ST_MALFORMED)
    else if gid !in db.groups then Outcome(db, ST_NOT_FOUND)
    else if uid !in db.users then Outcome(db, ST_NOT_FOUND)
    else
      var g := db.groups[gid];
      if uid in g.members || uid in g.pending then Outcome(db, ST_ALREADY_EXISTS)
      else Outcome(PutGroup(db, gid, g.(pending := g.pending + {uid})), ST_OK)
  }

  /** The owner's departure hands the group to the least remaining member, or dissolves it. */
  function LeaveGroup(db: Db, gid: Str, uid: Str): Outcome {
    if gid == [] || uid == [] then Outcome(db, ST_MALFORMED)
    else if gid !in db.groups then Outcome(db, ST_NOT_FOUND)
    else
      var g := db.groups[gid];
      if uid !in g.members then Outcome(db, ST_NOT_MEMBER)
      else
        var rest := g.members - {uid};
        if uid != g.owner then Outcome(PutGroup(db, gid, g.(members := rest)), ST_OK)
        else if rest == {} then Outcome(db.(groups := db.groups - {gid}), ST_OK)
        else Outcome(PutGroup(db, gid, g.(members := rest, owner := Least(rest))), ST_OK)
  }

  function AcceptRequest(db: Db, gid: Str, owner: Str, uid: Str): Outcome {
    if gid == [] || owner == [] || uid == [] then Outcome(db, ST_MALFORMED)
    else if gid !in db.groups then Outcome(db, ST_NOT_FOUND)
    else
      var g := db.groups[gid];
      if g.owner != owner then Outcome(db, ST_NOT_OWNER)
      else if uid !in g.pending then Outcome(db, ST_NOT_FOUND)
      else Outcome(PutGroup(db, gid, g.(pending := g.pending - {uid}, members := g.members + {uid})), ST_OK)
  }

  /** `meta.seeders` is ignored: the uploader becomes the only seeder of a new file. */
  function AddFile(db: Db, gid: Str, uid: Str, ip: Str, port: U16, meta: FileMeta): Outcome {
    if gid == [] || uid == [] || meta.name == [] then Outcome(db, ST_MALFORMED)
    else if gid !in db.groups then Outcome(db, ST_NOT_FOUND)
    else
      var g := db.groups[gid];
      if uid !in g.members then Outcome(db, ST_NOT_MEMBER)
      else
        var p := PeerRef(uid, ip, port, AllBits(|meta.pieceHashes|));
        if meta.name !in g.files then
          Outcome(PutGroup(db, gid, PutFile(g, meta.name, meta.(seeders := map[uid := p]))), ST_OK)
        else if g.files[meta.name].fileHash != meta.fileHash then Outcome(db, ST_ALREADY_EXISTS)
        else Outcome(PutGroup(db, gid, PutFile(g, meta.name, PutSeeder(g.files[meta.name], p))), ST_OK)
  }

  function StopShare(db: Db, gid: Str, uid: Str, fname: Str): Outcome {
    if gid == [] || uid == [] || fname == [] then Outcome(db, ST_MALFORMED)
    else if gid !in db.groups then Outcome(db, ST_NOT_FOUND)
    else
      var g := db.groups[gid];
      if fname !in g.files then Outcome(db, ST_NOT_FOUND)
      else if uid !in g.files[fname].seeders then Outcome(db, ST_NOT_FOUND)
      else Outcome(PutGroup(db, gid, PutFile(g, fname, Evict(g.files[fname], uid))), ST_OK)
  }

  function UpdateBitfield(db: Db, gid: Str, uid: Str, ip: Str, port: U16, fname: Str, bits: Str): Outcome {
    if gid == [] || uid == [] || fname == [] then Outcome(db, ST_MALFORMED)
    else if gid !in db.groups then Outcome(db, ST_NOT_FOUND)
    else
      var g := db.groups[gid];
      if uid !in g.members then Outcome(db, ST_NOT_MEMBER)
      else if fname !in g.files then Outcome(db, ST_NOT_FOUND)
      else Outcome(PutGroup(db, gid, PutFile(g, fname, PutSeeder(g.files[fname], PeerRef(uid, ip, port, bits)))), ST_OK)
  }

  // ----- queries ------------------------------------------------------------

  datatype Answer<+T> = Answer(st: Status, value: T)

  function ListRequests(db: Db, gid: Str, owner: Str): Answer<set<Str>> {
    if gid == [] || owner == [] then Answer(ST_MALFORMED, {})
    else if gid !in db.groups then Answer(ST_NOT_FOUND, {})
    else if db.groups[gid].owner != owner then Answer(ST_NOT_OWNER, {})
    else Answer(ST_OK, db.groups[gid].pending)
  }

  function ListFiles(db: Db, gid: Str, uid: Str): Answer<set<Str>> {
    if gid == [] || uid == [] then Answer(ST_MALFORMED, {})
    else if gid !in db.groups then Answer(ST_NOT_FOUND, {})
    else if uid !in db.groups[gid].members then Answer(ST_NOT_MEMBER, {})
    else Answer(ST_OK, db.groups[gid].files.Keys)
  }

  /** Every recorded seeder is handed out, online or not. */
  function GetFile(db: Db, gid: Str, uid: Str, fname: Str): Answer<Option<FileMeta>> {
    if gid == [] || uid == [] || fname == [] then Answer(ST_MALFORMED, None)
    else if gid !in db.groups then Answer(ST_NOT_FOUND, None)
    else if uid !in db.groups[gid].members then Answer(ST_NOT_MEMBER, None)
    else if fname !in db.groups[gid].files then Answer(ST_NOT_FOUND, None)
    else Answer(ST_OK, Some(db.groups[gid].files[fname]))
  }

  // ----- the replicated operations as data ----------------------------------

  datatype Cmd =
    | CmdCreateUser(uid: Str, pwd: Str)
    | CmdCreateGroup(gid: Str, uid: Str)
    | CmdJoinGroup(gid: Str, uid: Str)
    | CmdLeaveGroup(gid: Str, uid: Str)
    | CmdAcceptRequest(gid: Str, owner: Str, uid: Str)
    | CmdUpload(gid: Str, uid: Str, ip: Str, port: U16, meta: FileMeta)
    | CmdStopShare(gid: Str, uid: Str, fname: Str)
    | CmdHavePieces(gid: Str, uid: Str, ip: Str, port: U16, fname: Str, bits: Str)

  function Exec(db: Db, c: Cmd): Outcome {
    match c
    case CmdCreateUser(uid, pwd) => CreateUser(db, uid, pwd)
    case CmdCreateGroup(gid, uid) => CreateGroup(db, gid, uid)
    case CmdJoinGroup(gid, uid) => JoinGroup(db, gid, uid)
    case CmdLeaveGroup(gid, uid) => LeaveGroup(db, gid, uid)
    case CmdAcceptRequest(gid, owner, uid) => AcceptRequest(db, gid, owner, uid)
    case CmdUpload(gid, uid, ip, port, meta) => AddFile(db, gid, uid, ip, port, meta)
    case CmdStopShare(gid, uid, fname) => StopShare(db, gid, uid, fname)
    case CmdHavePieces(gid, uid, ip, port, fname, bits) => UpdateBitfield(db, gid, uid, ip, port, fname, bits)
  }

  /** A failed operation changes nothing. */
  lemma FailureChangesNothing(db: Db, c: Cmd)
    ensures Exec(db, c).st != ST_OK ==> Exec(db, c).db == db
  {
  }

  // ----- the invariant of every reachable database --------------------------

  ghost predicate ValidFile(users: set<Str>, n: Str, f: FileMeta) {
    && f.name == n
    && f.seeders.Keys <= users
    && forall u | u in f.seeders :: f.seeders[u].userId == u
  }

  ghost predicate ValidGroup(users: set<Str>, gid: Str, g: Group) {
    && g.id == gid
    && g.owner in g.members
    && g.members !! g.pending
    && g.members <= users && g.pending <= users
    && forall n | n in g.files :: ValidFile(users, n, g.files[n])
  }

  ghost predicate Valid(db: Db) {
    && [] !in db.users && [] !in db.groups
    && (forall u | u in db.users :: db.users[u].id == u)
    && forall g | g in db.groups :: ValidGroup(db.users.Keys, g, db.groups[g])
  }

  lemma MoreUsersStillValid(users: set<Str>, more: set<Str>, gid: Str, g: Group)
    requires users <= more && ValidGroup(users, gid, g)
    ensures ValidGroup(more, gid, g)
  {
  }

  lemma PutGroupValid(db: Db, gid: Str, g: Group)
    requires Valid(db) && gid != [] && ValidGroup(db.users.Keys, gid, g)
    ensures Valid(PutGroup(db, gid, g))
  {
  }

  lemma PutFileValid(users: set<Str>, gid: Str, g: Group, n: Str, f: FileMeta)
    requires ValidGroup(users, gid, g) && ValidFile(users, n, f)
    ensures ValidGroup(users, gid, PutFile(g, n, f))
  {
  }

  /** Every operation keeps the invariant, and no operation deletes a user. */
  lemma ExecValid(db: Db, c: Cmd)
    requires Valid(db)
    ensures Valid(Exec(db, c).db)
    ensures db.users.Keys <= Exec(db, c).db.users.Keys
  {
    if Exec(db, c).st != ST_OK {
      FailureChangesNothing(db, c);
    } else if c.CmdUpload? || c.CmdStopShare? || c.CmdHavePieces? {
      FileOpValid(db, c);
    } else {
      MembershipOpValid(db, c);
    }
  }

  lemma MembershipOpValid(db: Db, c: Cmd)
    requires Valid(db) && Exec(db, c).st == ST_OK
    requires c.CmdCreateUser? || c.CmdCreateGroup? || c.CmdJoinGroup? || c.CmdLeaveGroup? || c.CmdAcceptRequest?
    ensures Valid(Exec(db, c).db)
    ensures db.users.Keys <= Exec(db, c).db.users.Keys
  {
    hide HashPassword, IsLeast;
    var r := Exec(db, c).db;
    match c
    case CmdCreateUser(uid, pwd) =>
      forall g | g in r.groups ensures ValidGroup(r.users.Keys, g, r.groups[g]) {
        MoreUsersStillValid(db.users.Keys, r.users.Keys, g, db.groups[g]);
      }
    case CmdCreateGroup(gid, uid) => PutGroupValid(db, gid, Group(gid, uid, {uid}, {}, map[]));
    case CmdJoinGroup(gid, uid) => PutGroupValid(db, gid, r.groups[gid]);
    case CmdLeaveGroup(gid, uid) =>
      if gid in r.groups { LeaverValid(db, gid, uid); }
    case CmdAcceptRequest(gid, owner, uid) => PutGroupValid(db, gid, r.groups[gid]);
  }

  lemma LeaverValid(db: Db, gid: Str, uid: Str)
    requires Valid(db) && LeaveGroup(db, gid, uid).st == ST_OK && gid in LeaveGroup(db, gid, uid).db.groups
    ensures Valid(LeaveGroup(db, gid, uid).db)
  {
    var r := LeaveGroup(db, gid, uid).db;
    assert ValidGroup(db.users.Keys, gid, db.groups[gid]);
    assert r == PutGroup(db, gid, r.groups[gid]);
    PutGroupValid(db, gid, r.groups[gid]);
  }

  lemma FileOpValid(db: Db, c: Cmd)
    requires Valid(db) && Exec(db, c).st == ST_OK
    requires c.CmdUpload? || c.CmdStopShare? || c.CmdHavePieces?
    ensures Valid(Exec(db, c).db)
    ensures db.users.Keys == Exec(db, c).db.users.Keys
  {
    hide AllBits;
    var g := db.groups[c.gid];
    assert ValidGroup(db.users.Keys, c.gid, g);
    var n := if c.CmdUpload? then c.meta.name else c.fname;
    var f := Exec(db, c).db.groups[c.gid].files[n];
    if n in g.files { assert ValidFile(db.users.Keys, n, g.files[n]); }
    assert Exec(db, c).db == PutGroup(db, c.gid, PutFile(g, n, f));
    PutFileValid(db.users.Keys, c.gid, g, n, f);
    PutGroupValid(db, c.gid, PutFile(g, n, f));
  }

  lemma LoginValid(db: Db, uid: Str, pwd: Str, ip: Str, port: U16)
    requires Valid(db)
    ensures Valid(Login(db, uid, pwd, ip, port).db)
    ensures Login(db, uid, pwd, ip, port).db.users.Keys == db.users.Keys
  {
    var r := Login(db, uid, pwd, ip, port).db;
    assert r.users.Keys == db.users.Keys;
  }

  lemma LogoutValid(db: Db, uid: Str)
    requires Valid(db)
    ensures Valid(Logout(db, uid).db)
    ensures Logout(db, uid).db.users.Keys == db.users.Keys
  {
    var r := Logout(db, uid).db;
    assert r.users.Keys == db.users.Keys;
    forall g | g in r.groups ensures ValidGroup(r.users.Keys, g, r.groups[g]) {
      assert ValidGroup(db.users.Keys, g, db.groups[g]);
      if r != db {
        forall n | n in r.groups[g].files ensures ValidFile(r.users.Keys, n, r.groups[g].files[n]) {
          assert ValidFile(db.users.Keys, n, db.groups[g].files[n]);
        }
      }
    }
  }
}
