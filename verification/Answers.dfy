/**
 What a tracker answers, from its history alone. Every status of every operation and every
 query is settled by which earlier events succeeded; no answer depends on anything else.
 */
module Answers {
  import opened Bytes
  import opened Tracker
  import opened Replay
  import opened History

  /** Some event started it, and none since has ended it. */
  ghost predicate Lasts(es: seq<Event>, starts: (Db, Event) -> bool, ends: (Db, Event) -> bool) {
    exists i: nat :: Since(es, starts, ends, i)
  }

  // ----- owners -------------------------------------------------------------

  ghost predicate IsOwner(db: Db, gid: Str, o: Str) { gid in db.groups && db.groups[gid].owner == o }

  /** `o` creates the group, or its owner leaves and `o` comes first among those that stay. */
  ghost predicate Takes(db: Db, e: Event, gid: Str, o: Str) {
    && e.Do? && Exec(db, e.c).st == ST_OK
    && (|| e.c == CmdCreateGroup(gid, o)
        || (&& e.c.CmdLeaveGroup? && e.c.gid == gid && IsOwner(db, gid, e.c.uid)
            && o != e.c.uid && IsMember(db, gid, o)
            && forall v | IsMember(db, gid, v) && v != e.c.uid :: v == o || Less(o, v)))
  }

  ghost function Owning(gid: Str, o: Str): Db -> bool { db => IsOwner(db, gid, o) }
  ghost function Taking(gid: Str, o: Str): (Db, Event) -> bool { (db, e) => Takes(db, e, gid, o) }

  lemma OwnerLeaves(db: Db, gid: Str, u: Str, o: Str)
    requires Valid(db) && IsOwner(db, gid, u) && Exec(db, CmdLeaveGroup(gid, u)).st == ST_OK
    ensures IsOwner(Exec(db, CmdLeaveGroup(gid, u)).db, gid, o) <==> Takes(db, Do(CmdLeaveGroup(gid, u)), gid, o)
  {
    OwnerIsMember(db, gid);
    hide Valid, Least;
    var rest := db.groups[gid].members - {u};
    assert forall v :: v in rest <==> IsMember(db, gid, v) && v != u;
    if rest != {} { FirstInLine(rest, o); }
  }

  lemma FirstInLine(s: set<Str>, o: Str)
    requires s != {}
    ensures o == Least(s) <==> o in s && forall v | v in s :: v == o || Less(o, v)
  {
    if o in s && forall v | v in s :: v == o || Less(o, v) { LeastUnique(o, Least(s), s); }
  }

  lemma OwnerStep(db: Db, e: Event, gid: Str, o: Str)
    requires Valid(db)
    ensures IsOwner(Apply(db, e).db, gid, o) <==>
      Takes(db, e, gid, o) || (IsOwner(db, gid, o) && !Parts(db, e, gid, o))
  {
    hide HashPassword, AllBits, Least, Valid, IsMember;
    if e.Do? && Exec(db, e.c).st != ST_OK {
      FailureChangesNothing(db, e.c);
    } else if e.Do? && e.c.CmdLeaveGroup? && e.c.gid == gid && IsOwner(db, gid, e.c.uid) {
      OwnerLeaves(db, gid, e.c.uid, o);
    }
  }

  /** A user owns a group exactly when it created it or was first in line as the owner left, and has not left since. */
  lemma OwnerIff(es: seq<Event>, gid: Str, o: Str)
    ensures IsOwner(After(es), gid, o) <==> Lasts(es, Taking(gid, o), Parting(gid, o))
  {
    hide After, Valid, IsOwner, Takes, Parts;
    forall db: Db, e: Event | Valid(db)
      ensures IsOwner(Apply(db, e).db, gid, o)
        <==> Takes(db, e, gid, o) || (IsOwner(db, gid, o) && !Parts(db, e, gid, o))
    {
      OwnerStep(db, e, gid, o);
    }
    assert !IsOwner(EmptyDb, gid, o) by { NobodyOwns(gid, o); }
    SinceIff(es, Owning(gid, o), Taking(gid, o), Parting(gid, o));
  }

  lemma NobodyOwns(gid: Str, o: Str)
    ensures !IsOwner(EmptyDb, gid, o)
  {
  }

  // ----- published names and contents ---------------------------------------

  /** A file of this name, and with this file hash if one is given. */
  ghost predicate IsFile(db: Db, gid: Str, n: Str, h: Option<Str>) {
    && gid in db.groups && n in db.groups[gid].files
    && (h.Some? ==> db.groups[gid].files[n].fileHash == h.value)
  }

  /** An upload of it succeeds, the first or a later one. */
  ghost predicate Uploads(db: Db, e: Event, gid: Str, n: Str, h: Option<Str>) {
    && e.Do? && e.c.CmdUpload? && Exec(db, e.c).st == ST_OK && e.c.gid == gid && e.c.meta.name == n
    && (h.Some? ==> e.c.meta.fileHash == h.value)
  }

  ghost function Offered(gid: Str, n: Str, h: Option<Str>): Db -> bool { db => IsFile(db, gid, n, h) }
  ghost function Uploading(gid: Str, n: Str, h: Option<Str>): (Db, Event) -> bool {
    (db, e) => Uploads(db, e, gid, n, h)
  }

  lemma UploadStep(db: Db, e: Event, gid: Str, n: Str, h: Option<Str>)
    requires Valid(db)
    ensures IsFile(Apply(db, e).db, gid, n, h) <==>
      Uploads(db, e, gid, n, h) || (IsFile(db, gid, n, h) && !Dissolves(db, e, gid))
  {
    GroupStep(db, e, gid);
    hide Valid, Dissolves;
    var r := Apply(db, e).db;
    if gid in db.groups && n in db.groups[gid].files && gid in r.groups {
      FileStep(db, e, gid, n);
      if e.Do? && e.c.CmdUpload? { SameContent(db, e.c, gid, n); }
      hide Apply, Exec;
    } else if e.Do? && Exec(db, e.c).st == ST_OK && e.c.CmdUpload? {
      FileOpShape(db, e.c);
      hide Exec, AllBits;
    } else {
      if gid in r.groups { NothingAppears(db, e, gid, n); }
      hide Apply, Exec;
    }
  }

  /** A later upload under a published name succeeds only with the same file hash. */
  lemma SameContent(db: Db, c: Cmd, gid: Str, n: Str)
    requires c.CmdUpload? && gid in db.groups && n in db.groups[gid].files
    ensures Exec(db, c).st == ST_OK && c.gid == gid && c.meta.name == n ==>
      db.groups[gid].files[n].fileHash == c.meta.fileHash
  {
    hide AllBits;
  }

  lemma FileIff(es: seq<Event>, gid: Str, n: Str, h: Option<Str>)
    ensures IsFile(After(es), gid, n, h) <==> Lasts(es, Uploading(gid, n, h), Dissolving(gid))
  {
    hide After, Valid, IsFile, Uploads, Dissolves;
    forall db: Db, e: Event | Valid(db)
      ensures IsFile(Apply(db, e).db, gid, n, h)
        <==> Uploads(db, e, gid, n, h) || (IsFile(db, gid, n, h) && !Dissolves(db, e, gid))
    {
      UploadStep(db, e, gid, n, h);
    }
    assert !IsFile(EmptyDb, gid, n, h) by { NothingOffered(gid, n, h); }
    SinceIff(es, Offered(gid, n, h), Uploading(gid, n, h), Dissolving(gid));
  }

  lemma NothingOffered(gid: Str, n: Str, h: Option<Str>)
    ensures !IsFile(EmptyDb, gid, n, h)
  {
  }

  // ----- seeders ------------------------------------------------------------

  ghost predicate IsSeeder(db: Db, gid: Str, n: Str, u: Str) { SeederOf(db, gid, n, u).Some? }

  ghost function Shared(gid: Str, n: Str, u: Str): Db -> bool { db => IsSeeder(db, gid, n, u) }
  ghost function Sharing(gid: Str, n: Str, u: Str): (Db, Event) -> bool {
    (db, e) => Announced(db, e, gid, n, u).Some?
  }
  ghost function Withdrawing(gid: Str, n: Str, u: Str): (Db, Event) -> bool {
    (db, e) => Withdraws(db, e, gid, n, u)
  }

  lemma SharedIff(es: seq<Event>, gid: Str, n: Str, u: Str)
    ensures IsSeeder(After(es), gid, n, u) <==> Lasts(es, Sharing(gid, n, u), Withdrawing(gid, n, u))
  {
    hide After, Valid, SeederOf, Announced, Withdraws;
    forall db: Db, e: Event | Valid(db)
      ensures IsSeeder(Apply(db, e).db, gid, n, u)
        <==> Announced(db, e, gid, n, u).Some? || (IsSeeder(db, gid, n, u) && !Withdraws(db, e, gid, n, u))
    {
      SeederStep(db, e, gid, n, u);
    }
    assert !IsSeeder(EmptyDb, gid, n, u) by { EmptySeedsNothing(gid, n, u); }
    SinceIff(es, Shared(gid, n, u), Sharing(gid, n, u), Withdrawing(gid, n, u));
  }

  // ----- the facts of a history ---------------------------------------------

  ghost predicate KnownTo(es: seq<Event>, u: Str) { Lasts(es, Enrolling(u), Never()) }
  ghost predicate Exists(es: seq<Event>, gid: Str) { Lasts(es, Founding(gid), Dissolving(gid)) }
  ghost predicate Belongs(es: seq<Event>, gid: Str, u: Str) { Lasts(es, Joining(gid, u), Parting(gid, u)) }
  ghost predicate Waits(es: seq<Event>, gid: Str, u: Str) { Lasts(es, Asking(gid, u), Settling(gid, u)) }
  ghost predicate Owns(es: seq<Event>, gid: Str, o: Str) { Lasts(es, Taking(gid, o), Parting(gid, o)) }
  ghost predicate Published(es: seq<Event>, gid: Str, n: Str) { Lasts(es, Uploading(gid, n, None), Dissolving(gid)) }
  ghost predicate PublishedAs(es: seq<Event>, gid: Str, n: Str, h: Str) {
    Lasts(es, Uploading(gid, n, Some(h)), Dissolving(gid))
  }
  ghost predicate Shares(es: seq<Event>, gid: Str, n: Str, u: Str) {
    Lasts(es, Sharing(gid, n, u), Withdrawing(gid, n, u))
  }

  lemma FactsOfGroup(es: seq<Event>, gid: Str, u: Str)
    ensures Exists(es, gid) <==> gid in After(es).groups
    ensures Exists(es, gid) ==> (Belongs(es, gid, u) <==> u in After(es).groups[gid].members)
    ensures Exists(es, gid) ==> (Waits(es, gid, u) <==> u in After(es).groups[gid].pending)
    ensures Exists(es, gid) ==> (Owns(es, gid, u) <==> u == After(es).groups[gid].owner)
    ensures KnownTo(es, u) <==> u in After(es).users
  {
    GroupIff(es, gid);
    MemberIff(es, gid, u);
    PendingIff(es, gid, u);
    OwnerIff(es, gid, u);
    UserIff(es, u);
    hide After, Since;
  }

  lemma FactsOfFile(es: seq<Event>, gid: Str, n: Str, h: Str, u: Str)
    requires gid in After(es).groups
    ensures Published(es, gid, n) <==> n in After(es).groups[gid].files
    ensures Published(es, gid, n) ==> (PublishedAs(es, gid, n, h) <==> After(es).groups[gid].files[n].fileHash == h)
    ensures Published(es, gid, n) ==> (Shares(es, gid, n, u) <==> u in After(es).groups[gid].files[n].seeders)
  {
    FileIff(es, gid, n, None);
    FileIff(es, gid, n, Some(h));
    SharedIff(es, gid, n, u);
    hide After, Lasts;
  }

  // ----- the answers --------------------------------------------------------

  /** The status of an operation after a history. */
  ghost function Verdict(es: seq<Event>, c: Cmd): Status {
    match c
    case CmdCreateUser(uid, pwd) =>
      if uid == [] || pwd == [] then ST_MALFORMED
      else if KnownTo(es, uid) then ST_ALREADY_EXISTS
      else ST_OK
    case CmdCreateGroup(gid, uid) =>
      if gid == [] || uid == [] then ST_MALFORMED
      else if !KnownTo(es, uid) then ST_NOT_FOUND
      else if Exists(es, gid) then ST_ALREADY_EXISTS
      else ST_OK
    case CmdJoinGroup(gid, uid) =>
      if gid == [] || uid == [] then ST_MALFORMED
      else if !Exists(es, gid) || !KnownTo(es, uid) then ST_NOT_FOUND
      else if Belongs(es, gid, uid) || Waits(es, gid, uid) then ST_ALREADY_EXISTS
      else ST_OK
    case CmdLeaveGroup(gid, uid) =>
      if gid == [] || uid == [] then ST_MALFORMED
      else if !Exists(es, gid) then ST_NOT_FOUND
      else if !Belongs(es, gid, uid) then ST_NOT_MEMBER
      else ST_OK
    case CmdAcceptRequest(gid, owner, uid) =>
      if gid == [] || owner == [] || uid == [] then ST_MALFORMED
      else if !Exists(es, gid) then ST_NOT_FOUND
      else if !Owns(es, gid, owner) then ST_NOT_OWNER
      else if !Waits(es, gid, uid) then ST_NOT_FOUND
      else ST_OK
    case CmdUpload(gid, uid, _, _, meta) =>
      if gid == [] || uid == [] || meta.name == [] then ST_MALFORMED
      else if !Exists(es, gid) then ST_NOT_FOUND
      else if !Belongs(es, gid, uid) then ST_NOT_MEMBER
      else if Published(es, gid, meta.name) && !PublishedAs(es, gid, meta.name, meta.fileHash) then ST_ALREADY_EXISTS
      else ST_OK
    case CmdStopShare(gid, uid, fname) =>
      if gid == [] || uid == [] || fname == [] then ST_MALFORMED
      else if !Exists(es, gid) || !Published(es, gid, fname) || !Shares(es, gid, fname, uid) then ST_NOT_FOUND
      else ST_OK
    case CmdHavePieces(gid, uid, _, _, fname, _) =>
      if gid == [] || uid == [] || fname == [] then ST_MALFORMED
      else if !Exists(es, gid) then ST_NOT_FOUND
      else if !Belongs(es, gid, uid) then ST_NOT_MEMBER
      else if !Published(es, gid, fname) then ST_NOT_FOUND
      else ST_OK
  }

  /** Every operation, after every run: its status is the one the history settles. */
  lemma VerdictIs(es: seq<Event>, c: Cmd)
    ensures Exec(After(es), c).st == Verdict(es, c)
  {
    var db := After(es);
    match c
    case CmdCreateUser(uid, _) => FactsOfGroup(es, [], uid); hide After, Lasts, HashPassword;
    case CmdCreateGroup(gid, uid) => FactsOfGroup(es, gid, uid); hide After, Lasts;
    case CmdJoinGroup(gid, uid) => FactsOfGroup(es, gid, uid); hide After, Lasts;
    case CmdLeaveGroup(gid, uid) => FactsOfGroup(es, gid, uid); hide After, Lasts, Least;
    case CmdAcceptRequest(gid, owner, uid) =>
      FactsOfGroup(es, gid, owner);
      FactsOfGroup(es, gid, uid);
      hide After, Lasts;
    case CmdUpload(gid, uid, _, _, meta) =>
      FactsOfGroup(es, gid, uid);
      if gid in db.groups { FactsOfFile(es, gid, meta.name, meta.fileHash, uid); }
      hide After, Lasts, AllBits;
    case CmdStopShare(gid, uid, fname) =>
      FactsOfGroup(es, gid, uid);
      if gid in db.groups { FactsOfFile(es, gid, fname, [], uid); }
      hide After, Lasts;
    case CmdHavePieces(gid, uid, _, _, fname, _) =>
      FactsOfGroup(es, gid, uid);
      if gid in db.groups { FactsOfFile(es, gid, fname, [], uid); }
      hide After, Lasts;
  }

  // ----- queries ------------------------------------------------------------

  /** The owner is told the requests, and everybody else why not. */
  lemma RequestsAnswer(es: seq<Event>, gid: Str, o: Str)
    ensures var a := ListRequests(After(es), gid, o);
      && a.st == (if gid == [] || o == [] then ST_MALFORMED else if !Exists(es, gid) then ST_NOT_FOUND
        else if !Owns(es, gid, o) then ST_NOT_OWNER else ST_OK)
      && forall u :: u in a.value <==> a.st == ST_OK && Waits(es, gid, u)
  {
    FactsOfGroup(es, gid, o);
    forall u ensures gid in After(es).groups ==> (Waits(es, gid, u) <==> u in After(es).groups[gid].pending) {
      FactsOfGroup(es, gid, u);
    }
    hide After, Lasts;
  }

  /** A member is told the published names. */
  lemma FilesAnswer(es: seq<Event>, gid: Str, u: Str)
    ensures var a := ListFiles(After(es), gid, u);
      && a.st == (if gid == [] || u == [] then ST_MALFORMED else if !Exists(es, gid) then ST_NOT_FOUND
        else if !Belongs(es, gid, u) then ST_NOT_MEMBER else ST_OK)
      && forall n :: n in a.value <==> a.st == ST_OK && Published(es, gid, n)
  {
    FactsOfGroup(es, gid, u);
    if gid in After(es).groups {
      forall n ensures Published(es, gid, n) <==> n in After(es).groups[gid].files { FactsOfFile(es, gid, n, [], u); }
    }
    hide After, Lasts;
  }

  /** The peer list of a file has this entry. */
  predicate Names(m: FileMeta, u: Str, p: PeerRef) { u in m.seeders && m.seeders[u] == p }

  /** A member is told a file: its first upload's record, and every entry announced last and not withdrawn. */
  lemma FileAnswer(es: seq<Event>, gid: Str, u: Str, n: Str)
    ensures var a := GetFile(After(es), gid, u, n);
      && a.st == (if gid == [] || u == [] || n == [] then ST_MALFORMED else if !Exists(es, gid) then ST_NOT_FOUND
        else if !Belongs(es, gid, u) then ST_NOT_MEMBER else if !Published(es, gid, n) then ST_NOT_FOUND else ST_OK)
      && (a.value.Some? <==> a.st == ST_OK)
      && (a.st == ST_OK ==>
        && Lasts(es, Publishing(gid, a.value.value), Dissolving(gid)) && a.value.value.name == n
        && forall v, p :: Names(a.value.value, v, p) <==> Lasts(es, Announcing(gid, n, v, p), Superseding(gid, n, v)))
  {
    var db := After(es);
    FactsOfGroup(es, gid, u);
    if gid in db.groups {
      FactsOfFile(es, gid, n, [], u);
      if n in db.groups[gid].files {
        FileUnderItsName(es, gid, n);
        PublishedIff(es, gid, db.groups[gid].files[n]);
        SameFileReflexive(db.groups[gid].files[n]);
        forall v, p
          ensures SeederOf(db, gid, n, v) == Some(p) <==> Lasts(es, Announcing(gid, n, v, p), Superseding(gid, n, v))
        {
          SeederIff(es, gid, n, v, p);
        }
      }
    }
    hide After, Since, Lasts;
  }

  // ----- who is online ------------------------------------------------------

  ghost predicate IsAt(db: Db, u: Str, ip: Str, port: U16) {
    u in db.users && db.users[u].online && db.users[u].ip == ip && db.users[u].port == port
  }

  /** A login from there succeeds. */
  ghost predicate Arrives(db: Db, e: Event, u: Str, ip: Str, port: U16) {
    e.LogIn? && e.uid == u && e.ip == ip && e.port == port && Apply(db, e).st == ST_OK
  }

  /** `u` logs out, or in again. */
  ghost predicate Moves(db: Db, e: Event, u: Str) {
    e == LogOut(u) || (e.LogIn? && e.uid == u && Apply(db, e).st == ST_OK)
  }

  ghost function Present(u: Str, ip: Str, port: U16): Db -> bool { db => IsAt(db, u, ip, port) }
  ghost function Arriving(u: Str, ip: Str, port: U16): (Db, Event) -> bool { (db, e) => Arrives(db, e, u, ip, port) }
  ghost function Moving(u: Str): (Db, Event) -> bool { (db, e) => Moves(db, e, u) }

  lemma PresentStep(db: Db, e: Event, u: Str, ip: Str, port: U16)
    ensures IsAt(Apply(db, e).db, u, ip, port) <==>
      Arrives(db, e, u, ip, port) || (IsAt(db, u, ip, port) && !Moves(db, e, u))
  {
    hide HashPassword, AllBits, Least;
    if e.Do? && !e.c.CmdCreateUser? { GroupWrites(db, e.c); }
  }

  /** A user is online from an address exactly when its last login came from there and it has not logged out since. */
  lemma PresentIff(es: seq<Event>, u: Str, ip: Str, port: U16)
    ensures IsAt(After(es), u, ip, port) <==> Lasts(es, Arriving(u, ip, port), Moving(u))
  {
    assert !IsAt(EmptyDb, u, ip, port);
    hide After, IsAt, Arrives, Moves;
    forall db, e
      ensures IsAt(Apply(db, e).db, u, ip, port)
        <==> Arrives(db, e, u, ip, port) || (IsAt(db, u, ip, port) && !Moves(db, e, u))
    {
      PresentStep(db, e, u, ip, port);
    }
    SinceIff(es, Present(u, ip, port), Arriving(u, ip, port), Moving(u));
  }

  lemma LogoutAnswer(es: seq<Event>, u: Str)
    ensures Logout(After(es), u).st == if KnownTo(es, u) then ST_OK else ST_NOT_FOUND
  {
    FactsOfGroup(es, [], u);
    hide After, Lasts;
  }

  // ----- what counts as applied ---------------------------------------------

  /** The history makes a replay of the operation count as applied. */
  ghost predicate Counts(es: seq<Event>, c: Cmd) {
    match c
    case CmdCreateUser(uid, pwd) => uid != [] && pwd != []
    case CmdCreateGroup(gid, uid) => gid != [] && uid != [] && KnownTo(es, uid)
    case CmdJoinGroup(gid, uid) => gid != [] && uid != [] && Exists(es, gid) && KnownTo(es, uid)
    case CmdLeaveGroup(gid, uid) => gid != [] && uid != [] && Exists(es, gid)
    case CmdAcceptRequest(gid, owner, uid) =>
      gid != [] && owner != [] && uid != [] && (Exists(es, gid) ==> Owns(es, gid, owner))
    case CmdUpload(gid, uid, _, _, meta) => gid != [] && uid != [] && meta.name != [] && Belongs(es, gid, uid)
    case CmdStopShare(gid, uid, fname) => gid != [] && uid != [] && fname != []
    case CmdHavePieces(gid, uid, _, _, fname, _) =>
      gid != [] && uid != [] && fname != [] && Belongs(es, gid, uid) && Published(es, gid, fname)
  }

  /** Only a replay that counts advances the number a catch-up asks from. */
  lemma CountsIff(es: seq<Event>, c: Cmd)
    ensures Tolerated(c, Exec(After(es), c).st) <==> Counts(es, c)
  {
    VerdictIs(es, c);
    if !c.CmdCreateUser? { MembersHaveGroups(es, c.gid, if c.CmdAcceptRequest? then c.owner else c.uid); }
    hide Exec, Lasts;
  }

  lemma MembersHaveGroups(es: seq<Event>, gid: Str, u: Str)
    ensures Belongs(es, gid, u) ==> Exists(es, gid)
  {
    MemberIff(es, gid, u);
    GroupIff(es, gid);
    hide After, Since;
  }
}
