/**
 Replaying one tracker's operations on another (`SyncManager::apply_remote`):
 equality of replicas up to session data, idempotence, and confluence.
 */
module Replay {
  import opened Bytes
  import opened Tracker

  /** The statuses `apply_remote` counts as applied. */
  predicate Tolerated(c: Cmd, st: Status) {
    match c
    case CmdCreateUser(_, _) => st == ST_OK || st == ST_ALREADY_EXISTS
    case CmdCreateGroup(_, _) => st == ST_OK || st == ST_ALREADY_EXISTS
    case CmdJoinGroup(_, _) => st == ST_OK || st == ST_ALREADY_EXISTS
    case CmdLeaveGroup(_, _) => st == ST_OK || st == ST_NOT_MEMBER
    case CmdAcceptRequest(_, _, _) => st == ST_OK || st == ST_NOT_FOUND
    case CmdUpload(_, _, _, _, _) => st == ST_OK || st == ST_ALREADY_EXISTS
    case CmdStopShare(_, _, _) => st == ST_OK || st == ST_NOT_FOUND
    case CmdHavePieces(_, _, _, _, _, _) => st == ST_OK
  }

  // ----- equality up to online, ip, port and seeders ------------------------

  ghost predicate SameFile(f: FileMeta, g: FileMeta) {
    f.name == g.name && f.size == g.size && f.fileHash == g.fileHash && f.pieceHashes == g.pieceHashes
  }

  ghost predicate SameGroup(g: Group, h: Group) {
    && g.id == h.id && g.owner == h.owner && g.members == h.members && g.pending == h.pending
    && g.files.Keys == h.files.Keys
    && forall n | n in g.files :: SameFile(g.files[n], h.files[n])
  }

  ghost predicate SameUser(u: User, v: User) { u.id == v.id && u.password == v.password }

  ghost predicate SameMeta(a: Db, b: Db) {
    && a.users.Keys == b.users.Keys
    && (forall u | u in a.users :: SameUser(a.users[u], b.users[u]))
    && a.groups.Keys == b.groups.Keys
    && forall g | g in a.groups :: SameGroup(a.groups[g], b.groups[g])
  }

  lemma SameMetaSymmetric(a: Db, b: Db)
    requires SameMeta(a, b)
    ensures SameMeta(b, a)
  {
    forall g | g in b.groups ensures SameGroup(b.groups[g], a.groups[g]) {
      assert SameGroup(a.groups[g], b.groups[g]);
    }
  }

  lemma SameMetaTransitive(a: Db, b: Db, c: Db)
    requires SameMeta(a, b) && SameMeta(b, c)
    ensures SameMeta(a, c)
  {
    forall u | u in a.users ensures SameUser(a.users[u], c.users[u]) {
      assert SameUser(a.users[u], b.users[u]) && SameUser(b.users[u], c.users[u]);
    }
    forall g | g in a.groups ensures SameGroup(a.groups[g], c.groups[g]) {
      assert SameGroup(a.groups[g], b.groups[g]) && SameGroup(b.groups[g], c.groups[g]);
      forall n | n in a.groups[g].files ensures SameFile(a.groups[g].files[n], c.groups[g].files[n]) {
        assert SameFile(b.groups[g].files[n], c.groups[g].files[n]);
      }
    }
  }

  lemma PutGroupSame(a: Db, b: Db, gid: Str, g: Group, h: Group)
    requires SameMeta(a, b) && SameGroup(g, h)
    ensures SameMeta(PutGroup(a, gid, g), PutGroup(b, gid, h))
  {
  }

  lemma PutFileSame(g: Group, h: Group, n: Str, e: FileMeta, f: FileMeta)
    requires SameGroup(g, h) && SameFile(e, f)
    ensures SameGroup(PutFile(g, n, e), PutFile(h, n, f))
  {
  }

  /**
   An operation the metadata admits. Only stop_share also looks at seeders, which
   replicas need not agree on, so there the seeder entry may be missing.
   */
  predicate Admits(db: Db, c: Cmd) {
    if c.CmdStopShare? then
      c.gid != [] && c.uid != [] && c.fname != [] && c.gid in db.groups && c.fname in db.groups[c.gid].files
    else Exec(db, c).st == ST_OK
  }

  lemma SuccessIsAdmitted(db: Db, c: Cmd)
    requires Exec(db, c).st == ST_OK
    ensures Admits(db, c)
  {
  }

  /** The bisimulation step: what the metadata of one replica admits, the other applies, alike. */
  lemma AdmittedReplays(a: Db, b: Db, c: Cmd)
    requires SameMeta(a, b) && Admits(a, c)
    ensures Admits(b, c) && Tolerated(c, Exec(b, c).st)
    ensures SameMeta(Exec(a, c).db, Exec(b, c).db)
  {
    hide HashPassword, AllBits, Least;
    if c.CmdCreateUser? {
      assert Exec(b, c).db == b.(users := b.users[c.uid := Exec(a, c).db.users[c.uid]]);
    } else if c.CmdCreateGroup? {
      var g := Group(c.gid, c.uid, {c.uid}, {}, map[]);
      PutGroupSame(a, b, c.gid, g, g);
    } else if c.CmdJoinGroup? || c.CmdLeaveGroup? || c.CmdAcceptRequest? {
      AdmittedMembershipReplays(a, b, c);
    } else {
      AdmittedFileReplays(a, b, c);
    }
  }

  lemma AdmittedMembershipReplays(a: Db, b: Db, c: Cmd)
    requires SameMeta(a, b) && Admits(a, c)
    requires c.CmdJoinGroup? || c.CmdLeaveGroup? || c.CmdAcceptRequest?
    ensures Admits(b, c) && Tolerated(c, Exec(b, c).st)
    ensures SameMeta(Exec(a, c).db, Exec(b, c).db)
  {
    assert SameGroup(a.groups[c.gid], b.groups[c.gid]);
    MembershipShape(a, b, c);
    hide Exec;
    var r, s := Exec(a, c).db, Exec(b, c).db;
    if c.gid in r.groups {
      PutGroupSame(a, b, c.gid, r.groups[c.gid], s.groups[c.gid]);
    } else {
      assert SameMeta(a.(groups := a.groups - {c.gid}), b.(groups := b.groups - {c.gid}));
    }
  }

  /** It replaces or removes one group, on both sides alike. */
  lemma MembershipShape(a: Db, b: Db, c: Cmd)
    requires Admits(a, c) && (c.CmdJoinGroup? || c.CmdLeaveGroup? || c.CmdAcceptRequest?)
    requires a.users.Keys == b.users.Keys && c.gid in a.groups && c.gid in b.groups
      && SameGroup(a.groups[c.gid], b.groups[c.gid])
    ensures Exec(b, c).st == ST_OK
    ensures var r, s := Exec(a, c).db, Exec(b, c).db;
      && (c.gid in r.groups <==> c.gid in s.groups)
      && (c.gid !in r.groups ==> r == a.(groups := a.groups - {c.gid}) && s == b.(groups := b.groups - {c.gid}))
      && (c.gid in r.groups ==>
        && r == PutGroup(a, c.gid, r.groups[c.gid]) && s == PutGroup(b, c.gid, s.groups[c.gid])
        && SameGroup(r.groups[c.gid], s.groups[c.gid]))
  {
    hide Least;
    assert forall u :: u in a.users <==> u in a.users.Keys;
    assert forall u :: u in b.users <==> u in b.users.Keys;
  }

  /** The file an operation is about, and that file's record afterwards. */
  function FileName(c: Cmd): Str
    requires c.CmdUpload? || c.CmdStopShare? || c.CmdHavePieces?
  {
    if c.CmdUpload? then c.meta.name else c.fname
  }

  function NewFile(g: Group, c: Cmd): FileMeta
    requires c.CmdUpload? || ((c.CmdStopShare? || c.CmdHavePieces?) && c.fname in g.files)
  {
    match c
    case CmdUpload(_, uid, ip, port, meta) =>
      var p := PeerRef(uid, ip, port, AllBits(|meta.pieceHashes|));
      if meta.name in g.files then PutSeeder(g.files[meta.name], p) else meta.(seeders := map[uid := p])
    case CmdStopShare(_, uid, fname) => Evict(g.files[fname], uid)
    case CmdHavePieces(_, uid, ip, port, fname, bits) => PutSeeder(g.files[fname], PeerRef(uid, ip, port, bits))
  }

  /** Every file operation that succeeds replaces one file of one group. */
  lemma FileOpShape(db: Db, c: Cmd)
    requires c.CmdUpload? || c.CmdStopShare? || c.CmdHavePieces?
    requires Exec(db, c).st == ST_OK
    ensures c.gid in db.groups && (!c.CmdUpload? ==> FileName(c) in db.groups[c.gid].files)
    ensures Exec(db, c).db == PutGroup(db, c.gid, PutFile(db.groups[c.gid], FileName(c), NewFile(db.groups[c.gid], c)))
  {
    hide AllBits;
  }

  lemma AdmittedFileReplays(a: Db, b: Db, c: Cmd)
    requires SameMeta(a, b) && Admits(a, c)
    requires c.CmdUpload? || c.CmdStopShare? || c.CmdHavePieces?
    ensures Admits(b, c) && Tolerated(c, Exec(b, c).st)
    ensures SameMeta(Exec(a, c).db, Exec(b, c).db)
  {
    AdmittedFileAdmitted(a, b, c);
    FileOpKeepsOrPuts(a, c);
    FileOpKeepsOrPuts(b, c);
    hide Exec, Admits;
    var g, h, n := a.groups[c.gid], b.groups[c.gid], FileName(c);
    var r, s := Exec(a, c).db, Exec(b, c).db;
    assert SameGroup(g, h);
    if c.CmdStopShare? {
      SameMetaSymmetric(r, a);
      SameMetaTransitive(r, a, b);
      SameMetaTransitive(r, b, s);
    } else {
      if n in g.files { assert SameFile(g.files[n], h.files[n]); }
      PutFileSame(g, h, n, NewFile(g, c), NewFile(h, c));
      PutGroupSame(a, b, c.gid, PutFile(g, n, NewFile(g, c)), PutFile(h, n, NewFile(h, c)));
    }
  }

  lemma AdmittedFileAdmitted(a: Db, b: Db, c: Cmd)
    requires SameMeta(a, b) && Admits(a, c)
    requires c.CmdUpload? || c.CmdStopShare? || c.CmdHavePieces?
    ensures Admits(b, c) && Tolerated(c, Exec(b, c).st)
  {
    hide AllBits;
    assert SameGroup(a.groups[c.gid], b.groups[c.gid]);
    if c.CmdUpload? && c.meta.name in a.groups[c.gid].files {
      assert SameFile(a.groups[c.gid].files[c.meta.name], b.groups[c.gid].files[c.meta.name]);
    }
  }

  /** What an admitted file operation leaves behind; stop_share never touches the metadata. */
  lemma FileOpKeepsOrPuts(db: Db, c: Cmd)
    requires c.CmdUpload? || c.CmdStopShare? || c.CmdHavePieces?
    requires Admits(db, c)
    ensures c.gid in db.groups && (!c.CmdUpload? ==> c.fname in db.groups[c.gid].files)
    ensures c.CmdStopShare? ==> SameMeta(Exec(db, c).db, db) && SameMeta(db, Exec(db, c).db)
    ensures !c.CmdStopShare? ==>
      Exec(db, c).db == PutGroup(db, c.gid, PutFile(db.groups[c.gid], FileName(c), NewFile(db.groups[c.gid], c)))
  {
    hide AllBits;
    if Exec(db, c).st == ST_OK {
      FileOpShape(db, c);
      if c.CmdStopShare? {
        var g := db.groups[c.gid];
        PutFileSame(g, g, c.fname, g.files[c.fname], NewFile(g, c));
        assert PutFile(g, c.fname, g.files[c.fname]) == g;
        PutGroupSame(db, db, c.gid, g, PutFile(g, c.fname, NewFile(g, c)));
        assert PutGroup(db, c.gid, g) == db;
        SameMetaSymmetric(db, Exec(db, c).db);
      }
    } else {
      FailureChangesNothing(db, c);
    }
  }

  // ----- session events leave the metadata alone ----------------------------

  lemma LoginKeepsMeta(db: Db, uid: Str, pwd: Str, ip: Str, port: U16)
    ensures SameMeta(db, Login(db, uid, pwd, ip, port).db)
    ensures Login(db, uid, pwd, ip, port).db.groups == db.groups
  {
  }

  lemma LogoutKeepsMeta(db: Db, uid: Str)
    ensures SameMeta(db, Logout(db, uid).db)
  {
    var r := Logout(db, uid).db;
    forall g | g in db.groups ensures SameGroup(db.groups[g], r.groups[g]) {
      forall n | n in db.groups[g].files ensures SameFile(db.groups[g].files[n], r.groups[g].files[n]) {
      }
    }
  }

  // ----- seeders of the origin survive on a replica that logs nobody out ----

  ghost predicate SeedersWithin(f: FileMeta, g: FileMeta) {
    f.seeders.Keys <= g.seeders.Keys && forall u | u in f.seeders :: f.seeders[u] == g.seeders[u]
  }

  ghost predicate GroupSeedersWithin(g: Group, h: Group) {
    forall n | n in g.files && n in h.files :: SeedersWithin(g.files[n], h.files[n])
  }

  ghost predicate AllSeedersWithin(a: Db, b: Db) {
    forall g | g in a.groups && g in b.groups :: GroupSeedersWithin(a.groups[g], b.groups[g])
  }

  lemma SeedersStep(a: Db, b: Db, c: Cmd)
    requires SameMeta(a, b) && AllSeedersWithin(a, b) && Exec(a, c).st == ST_OK
    ensures AllSeedersWithin(Exec(a, c).db, Exec(b, c).db)
  {
    SuccessIsAdmitted(a, c);
    AdmittedReplays(a, b, c);
    var r, s := Exec(a, c).db, Exec(b, c).db;
    if c.CmdCreateUser? {
      hide HashPassword;
      assert r.groups == a.groups && s.groups == b.groups;
    } else {
      GroupFrame(a, a, c);
      GroupFrame(b, b, c);
      forall g | g in r.groups && g in s.groups ensures GroupSeedersWithin(r.groups[g], s.groups[g]) {
        hide Exec;
        if g != c.gid {
          OutsideGroup(r.groups, a.groups, c.gid, g);
          OutsideGroup(s.groups, b.groups, c.gid, g);
        } else {
          SeedersStepInGroup(a, b, c);
        }
      }
    }
  }

  lemma SeedersStepInGroup(a: Db, b: Db, c: Cmd)
    requires SameMeta(a, b) && AllSeedersWithin(a, b) && Exec(a, c).st == ST_OK && !c.CmdCreateUser?
    requires c.gid in Exec(a, c).db.groups && c.gid in Exec(b, c).db.groups
    ensures GroupSeedersWithin(Exec(a, c).db.groups[c.gid], Exec(b, c).db.groups[c.gid])
  {
    hide AllBits, Least;
    if c.CmdUpload? || c.CmdStopShare? || c.CmdHavePieces? {
      SeedersStepInFile(a, b, c);
    } else if !c.CmdCreateGroup? {
      assert SameGroup(a.groups[c.gid], b.groups[c.gid]) && GroupSeedersWithin(a.groups[c.gid], b.groups[c.gid]);
      assert Exec(a, c).db.groups[c.gid].files == a.groups[c.gid].files;
      assert Exec(b, c).db.groups[c.gid].files == b.groups[c.gid].files;
    }
  }

  lemma SeedersStepInFile(a: Db, b: Db, c: Cmd)
    requires c.CmdUpload? || c.CmdStopShare? || c.CmdHavePieces?
    requires SameMeta(a, b) && AllSeedersWithin(a, b) && Exec(a, c).st == ST_OK
    requires c.gid in Exec(b, c).db.groups && c.gid in Exec(a, c).db.groups
    ensures GroupSeedersWithin(Exec(a, c).db.groups[c.gid], Exec(b, c).db.groups[c.gid])
  {
    FileOpShape(a, c);
    SuccessIsAdmitted(a, c);
    AdmittedFileAdmitted(a, b, c);
    assert GroupSeedersWithin(a.groups[c.gid], b.groups[c.gid]);
    assert Exec(b, c).st == ST_OK by {
      if c.CmdStopShare? { assert SeedersWithin(a.groups[c.gid].files[c.fname], b.groups[c.gid].files[c.fname]); }
    }
    FileOpShape(b, c);
    hide Exec, NewFile, GroupSeedersWithin, SeedersWithin;
    var g, h := a.groups[c.gid], b.groups[c.gid];
    NewFileSeeders(g, h, c);
    PutFileSeeders(g, h, FileName(c), NewFile(g, c), NewFile(h, c));
  }

  lemma NewFileSeeders(g: Group, h: Group, c: Cmd)
    requires c.CmdUpload? || c.CmdStopShare? || c.CmdHavePieces?
    requires g.files.Keys == h.files.Keys && GroupSeedersWithin(g, h) && (!c.CmdUpload? ==> c.fname in g.files)
    ensures SeedersWithin(NewFile(g, c), NewFile(h, c))
  {
    hide AllBits;
    var n := FileName(c);
    assert n in g.files.Keys <==> n in h.files.Keys;
    if n in g.files { assert SeedersWithin(g.files[n], h.files[n]); }
  }

  lemma PutFileSeeders(g: Group, h: Group, n: Str, e: FileMeta, f: FileMeta)
    requires GroupSeedersWithin(g, h) && SeedersWithin(e, f)
    ensures GroupSeedersWithin(PutFile(g, n, e), PutFile(h, n, f))
  {
    hide SeedersWithin;
  }

  lemma LogoutShrinksSeeders(db: Db, uid: Str, b: Db)
    requires AllSeedersWithin(db, b)
    ensures AllSeedersWithin(Logout(db, uid).db, b)
  {
    var r := Logout(db, uid).db;
    forall g | g in r.groups && g in b.groups ensures GroupSeedersWithin(r.groups[g], b.groups[g]) {
      assert GroupSeedersWithin(db.groups[g], b.groups[g]);
      forall n | n in r.groups[g].files && n in b.groups[g].files
        ensures SeedersWithin(r.groups[g].files[n], b.groups[g].files[n])
      {
        assert SeedersWithin(db.groups[g].files[n], b.groups[g].files[n]);
      }
    }
  }

  lemma SameMetaReflexive(db: Db)
    ensures SameMeta(db, db) && AllSeedersWithin(db, db)
  {
  }

  // ----- idempotence --------------------------------------------------------

  /** Applying an operation twice in a row is applying it once, in every database. */
  lemma Idempotent(db: Db, c: Cmd)
    ensures Exec(Exec(db, c).db, c).db == Exec(db, c).db
  {
    if Exec(db, c).st != ST_OK {
      FailureChangesNothing(db, c);
    } else if c.CmdUpload? || c.CmdStopShare? || c.CmdHavePieces? {
      FileOpIdempotent(db, c);
    } else {
      hide HashPassword, Least;
      var r := Exec(db, c).db;
      assert Exec(r, c).st != ST_OK ==> Exec(r, c).db == r by { FailureChangesNothing(r, c); }
    }
  }

  lemma FileOpIdempotent(db: Db, c: Cmd)
    requires c.CmdUpload? || c.CmdStopShare? || c.CmdHavePieces?
    requires Exec(db, c).st == ST_OK
    ensures Exec(Exec(db, c).db, c).db == Exec(db, c).db
  {
    FileOpShape(db, c);
    var r := Exec(db, c).db;
    if Exec(r, c).st == ST_OK {
      FileOpShape(r, c);
      hide Exec;
      var g, n := db.groups[c.gid], FileName(c);
      var f := NewFile(g, c);
      assert r.groups[c.gid] == PutFile(g, n, f);
      NewFileAgain(g, c);
      assert PutFile(PutFile(g, n, f), n, f) == PutFile(g, n, f);
      assert PutGroup(r, c.gid, r.groups[c.gid]) == r;
    } else {
      FailureChangesNothing(r, c);
    }
  }

  lemma NewFileAgain(g: Group, c: Cmd)
    requires c.CmdUpload? || ((c.CmdStopShare? || c.CmdHavePieces?) && c.fname in g.files)
    ensures NewFile(PutFile(g, FileName(c), NewFile(g, c)), c) == NewFile(g, c)
  {
    hide AllBits;
    var f := NewFile(g, c);
    assert NewFile(PutFile(g, FileName(c), f), c).seeders == f.seeders;
  }

  // ----- confluence ---------------------------------------------------------

  /** The users an operation looks up. */
  function Mentions(c: Cmd): set<Str> {
    if c.CmdCreateGroup? || c.CmdJoinGroup? then {c.uid} else {}
  }

  /** Different groups, different new users, or a new user the other does not look up. */
  predicate Independent(c: Cmd, d: Cmd) {
    if c.CmdCreateUser? && d.CmdCreateUser? then c.uid != d.uid
    else if c.CmdCreateUser? then c.uid !in Mentions(d)
    else if d.CmdCreateUser? then d.uid !in Mentions(c)
    else c.gid != d.gid
  }

  /** Two databases an operation on one group cannot tell apart. */
  ghost predicate Alike(a: Db, b: Db, c: Cmd)
    requires !c.CmdCreateUser?
  {
    && (c.gid in a.groups <==> c.gid in b.groups)
    && (c.gid in a.groups ==> a.groups[c.gid] == b.groups[c.gid])
    && forall u | u in Mentions(c) :: u in a.users <==> u in b.users
  }

  /** An operation on a group writes nothing else. */
  lemma GroupWrites(db: Db, c: Cmd)
    requires !c.CmdCreateUser?
    ensures Exec(db, c).db.users == db.users
    ensures Exec(db, c).db.groups - {c.gid} == db.groups - {c.gid}
  {
    hide AllBits, Least;
  }

  /** An operation on a group reads and writes nothing else. */
  lemma GroupFrame(a: Db, b: Db, c: Cmd)
    requires !c.CmdCreateUser? && Alike(a, b, c)
    ensures Exec(a, c).st == Exec(b, c).st
    ensures Exec(a, c).db.users == a.users
    ensures Exec(a, c).db.groups - {c.gid} == a.groups - {c.gid}
    ensures c.gid in Exec(a, c).db.groups <==> c.gid in Exec(b, c).db.groups
    ensures c.gid in Exec(a, c).db.groups ==> Exec(a, c).db.groups[c.gid] == Exec(b, c).db.groups[c.gid]
  {
    GroupWrites(a, c);
    if c.CmdUpload? || c.CmdStopShare? || c.CmdHavePieces? {
      FileOpReads(a, b, c);
    } else {
      MembershipReads(a, b, c);
    }
  }

  lemma FileOpReads(a: Db, b: Db, c: Cmd)
    requires (c.CmdUpload? || c.CmdStopShare? || c.CmdHavePieces?) && Alike(a, b, c)
    ensures Exec(a, c).st == Exec(b, c).st
    ensures c.gid in Exec(a, c).db.groups <==> c.gid in Exec(b, c).db.groups
    ensures c.gid in Exec(a, c).db.groups ==> Exec(a, c).db.groups[c.gid] == Exec(b, c).db.groups[c.gid]
  {
    hide AllBits;
  }

  lemma MembershipReads(a: Db, b: Db, c: Cmd)
    requires c.CmdCreateGroup? || c.CmdJoinGroup? || c.CmdLeaveGroup? || c.CmdAcceptRequest?
    requires Alike(a, b, c)
    ensures Exec(a, c).st == Exec(b, c).st
    ensures c.gid in Exec(a, c).db.groups <==> c.gid in Exec(b, c).db.groups
    ensures c.gid in Exec(a, c).db.groups ==> Exec(a, c).db.groups[c.gid] == Exec(b, c).db.groups[c.gid]
  {
    hide Least;
    assert c.CmdCreateGroup? || c.CmdJoinGroup? ==> c.uid in Mentions(c);
  }

  /** Databases that agree on the users and on each group are equal. */
  lemma DbExtensional(a: Db, b: Db)
    requires a.users == b.users && a.groups.Keys == b.groups.Keys
    requires forall g | g in a.groups :: a.groups[g] == b.groups[g]
    ensures a == b
  {
    assert a.groups == b.groups;
  }

  lemma OutsideGroup(a: map<Str, Group>, b: map<Str, Group>, gid: Str, g: Str)
    requires a - {gid} == b - {gid} && g != gid
    ensures g in a <==> g in b
    ensures g in a ==> a[g] == b[g]
  {
    assert g in a - {gid} <==> g in b - {gid};
    if g in a - {gid} { assert (a - {gid})[g] == (b - {gid})[g]; }
  }

  lemma GroupsCommute(db: Db, c: Cmd, d: Cmd)
    requires !c.CmdCreateUser? && !d.CmdCreateUser? && c.gid != d.gid
    ensures var cd, dc := Exec(Exec(db, c).db, d), Exec(Exec(db, d).db, c);
      cd.db == dc.db && Exec(db, c).st == dc.st && Exec(db, d).st == cd.st
  {
    hide Exec;
    var c1, d1 := Exec(db, c).db, Exec(db, d).db;
    var cd, dc := Exec(c1, d).db, Exec(d1, c).db;
    GroupFrame(db, db, c);
    GroupFrame(db, db, d);
    OutsideGroup(c1.groups, db.groups, c.gid, d.gid);
    OutsideGroup(d1.groups, db.groups, d.gid, c.gid);
    GroupFrame(c1, db, d);
    GroupFrame(d1, db, c);
    Diamond(db.groups, c1.groups, d1.groups, cd.groups, dc.groups, c.gid, d.gid);
    DbExtensional(cd, dc);
  }

  /** Writes to two different groups, in either order. */
  lemma Diamond(base: map<Str, Group>, c1: map<Str, Group>, d1: map<Str, Group>,
      cd: map<Str, Group>, dc: map<Str, Group>, c: Str, d: Str)
    requires c != d
    requires c1 - {c} == base - {c} && d1 - {d} == base - {d} && cd - {d} == c1 - {d} && dc - {c} == d1 - {c}
    requires (c in c1 <==> c in dc) && (c in c1 ==> c1[c] == dc[c])
    requires (d in d1 <==> d in cd) && (d in d1 ==> d1[d] == cd[d])
    ensures cd == dc
  {
    forall g ensures (g in cd <==> g in dc) && (g in cd ==> cd[g] == dc[g]) {
      if g == c {
        OutsideGroup(cd, c1, d, g);
      } else if g == d {
        OutsideGroup(dc, d1, c, g);
      } else {
        OutsideGroup(cd, c1, d, g);
        OutsideGroup(c1, base, c, g);
        OutsideGroup(dc, d1, c, g);
        OutsideGroup(d1, base, d, g);
      }
    }
  }

  /** A new user is all that create_user writes, and the users are all it reads. */
  lemma UserFrame(a: Db, b: Db, c: Cmd)
    requires c.CmdCreateUser? && a.users == b.users
    ensures Exec(a, c).st == Exec(b, c).st && Exec(a, c).db.users == Exec(b, c).db.users
    ensures Exec(a, c).db.groups == a.groups
    ensures forall u | u != c.uid :: u in Exec(a, c).db.users <==> u in a.users
  {
    hide HashPassword;
  }

  lemma UserAndGroupCommute(db: Db, c: Cmd, d: Cmd)
    requires c.CmdCreateUser? && !d.CmdCreateUser? && c.uid !in Mentions(d)
    ensures var cd, dc := Exec(Exec(db, c).db, d), Exec(Exec(db, d).db, c);
      cd.db == dc.db && Exec(db, c).st == dc.st && Exec(db, d).st == cd.st
  {
    hide Exec;
    var c1, d1 := Exec(db, c).db, Exec(db, d).db;
    var cd, dc := Exec(c1, d).db, Exec(d1, c).db;
    UserFrame(db, db, c);
    GroupFrame(c1, db, d);
    GroupFrame(db, c1, d);
    UserFrame(d1, db, c);
    forall g ensures (g in cd.groups <==> g in dc.groups) && (g in cd.groups ==> cd.groups[g] == dc.groups[g]) {
      if g != d.gid {
        OutsideGroup(cd.groups, c1.groups, d.gid, g);
        OutsideGroup(d1.groups, db.groups, d.gid, g);
      }
    }
    DbExtensional(cd, dc);
  }

  /** Independent operations commute: same database, and each keeps its status. */
  lemma Commute(db: Db, c: Cmd, d: Cmd)
    requires Independent(c, d)
    ensures var cd, dc := Exec(Exec(db, c).db, d), Exec(Exec(db, d).db, c);
      cd.db == dc.db && Exec(db, c).st == dc.st && Exec(db, d).st == cd.st
  {
    if c.CmdCreateUser? && d.CmdCreateUser? {
      hide HashPassword;
      var cd, dc := Exec(Exec(db, c).db, d), Exec(Exec(db, d).db, c);
      assert cd.db.users == dc.db.users;
    } else if c.CmdCreateUser? {
      UserAndGroupCommute(db, c, d);
    } else if d.CmdCreateUser? {
      UserAndGroupCommute(db, d, c);
    } else {
      GroupsCommute(db, c, d);
    }
  }

  /** The database and the statuses after a sequence of operations. */
  datatype Ran = Ran(db: Db, sts: seq<Status>)

  function ExecAll(db: Db, cs: seq<Cmd>): (r: Ran)
    ensures |r.sts| == |cs|
    decreases |cs|
  {
    if cs == [] then Ran(db, [])
    else
      var o := Exec(db, cs[0]);
      var r := ExecAll(o.db, cs[1..]);
      Ran(r.db, [o.st] + r.sts)
  }

  /** A schedule: true takes the next operation of the first sequence, false of the second. */
  predicate Schedules(xs: seq<Cmd>, ys: seq<Cmd>, pick: seq<bool>)
    decreases |pick|
  {
    if pick == [] then xs == [] && ys == []
    else if pick[0] then xs != [] && Schedules(xs[1..], ys, pick[1..])
    else ys != [] && Schedules(xs, ys[1..], pick[1..])
  }

  /** The database after an interleaving, and the statuses each sequence saw. */
  datatype Merged = Merged(db: Db, first: seq<Status>, second: seq<Status>)

  function Interleave(db: Db, xs: seq<Cmd>, ys: seq<Cmd>, pick: seq<bool>): Merged
    requires Schedules(xs, ys, pick)
    decreases |pick|
  {
    if pick == [] then Merged(db, [], [])
    else if pick[0] then
      var o := Exec(db, xs[0]);
      var m := Interleave(o.db, xs[1..], ys, pick[1..]);
      m.(first := [o.st] + m.first)
    else
      var o := Exec(db, ys[0]);
      var m := Interleave(o.db, xs, ys[1..], pick[1..]);
      m.(second := [o.st] + m.second)
  }

  ghost predicate AllIndependent(xs: seq<Cmd>, ys: seq<Cmd>) {
    forall c, d | c in xs && d in ys :: Independent(c, d)
  }

  /** An operation independent of a whole sequence can move from after it to before it. */
  lemma {:induction false} MovesAcross(db: Db, xs: seq<Cmd>, d: Cmd)
    requires forall c | c in xs :: Independent(c, d)
    ensures Exec(ExecAll(db, xs).db, d).db == ExecAll(Exec(db, d).db, xs).db
    ensures Exec(ExecAll(db, xs).db, d).st == Exec(db, d).st
    ensures ExecAll(Exec(db, d).db, xs).sts == ExecAll(db, xs).sts
    decreases |xs|
  {
    if xs != [] {
      hide Exec;
      assert Independent(xs[0], d);
      Commute(db, xs[0], d);
      MovesAcross(Exec(db, xs[0]).db, xs[1..], d);
    }
  }

  /** Every interleaving of mutually independent sequences ends where running one after the other does. */
  lemma {:induction false} Confluence(db: Db, xs: seq<Cmd>, ys: seq<Cmd>, pick: seq<bool>)
    requires Schedules(xs, ys, pick) && AllIndependent(xs, ys)
    ensures var m := Interleave(db, xs, ys, pick);
      && m.db == ExecAll(ExecAll(db, xs).db, ys).db
      && m.first == ExecAll(db, xs).sts
      && m.second == ExecAll(db, ys).sts
    decreases |pick|
  {
    hide Exec;
    if pick == [] {
    } else if pick[0] {
      var db1 := Exec(db, xs[0]).db;
      Confluence(db1, xs[1..], ys, pick[1..]);
      forall d | d in ys ensures Independent(d, xs[0]) { assert Independent(xs[0], d); }
      MovesAcross(db, ys, xs[0]);
    } else {
      Confluence(Exec(db, ys[0]).db, xs, ys[1..], pick[1..]);
      forall c | c in xs ensures Independent(c, ys[0]) { }
      MovesAcross(db, xs, ys[0]);
      assert ys[1..] != ys;
    }
  }

  /** Two trackers that saw the same two independent streams in any two orders agree on everything. */
  lemma ActiveActiveConverges(db: Db, xs: seq<Cmd>, ys: seq<Cmd>, pick: seq<bool>, other: seq<bool>)
    requires Schedules(xs, ys, pick) && Schedules(xs, ys, other) && AllIndependent(xs, ys)
    ensures Interleave(db, xs, ys, pick) == Interleave(db, xs, ys, other)
  {
    Confluence(db, xs, ys, pick);
    Confluence(db, xs, ys, other);
  }
}
