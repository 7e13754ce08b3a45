/**
 What holds over whole runs of one tracker: the invariant of every reachable
 database, where members come from, what never changes, and who ends up owner.
 */
module History {
  import opened Bytes
  import opened Tracker
  import opened Replay
  import Sha1

  datatype Event = Do(c: Cmd) | LogIn(uid: Str, pwd: Str, ip: Str, port: U16) | LogOut(uid: Str)

  function Apply(db: Db, e: Event): Outcome {
    match e
    case Do(c) => Exec(db, c)
    case LogIn(uid, pwd, ip, port) => Login(db, uid, pwd, ip, port)
    case LogOut(uid) => Logout(db, uid)
  }

  /** The database a fresh tracker holds after a sequence of events. */
  function After(es: seq<Event>): Db {
    if es == [] then EmptyDb else Apply(After(es[..|es| - 1]), es[|es| - 1]).db
  }

  lemma {:induction false} ReachableValid(es: seq<Event>)
    ensures Valid(After(es))
  {
    if es != [] {
      var before, e := After(es[..|es| - 1]), es[|es| - 1];
      ReachableValid(es[..|es| - 1]);
      match e
      case Do(c) => ExecValid(before, c);
      case LogIn(uid, pwd, ip, port) => LoginValid(before, uid, pwd, ip, port);
      case LogOut(uid) => LogoutValid(before, uid);
    }
  }

  // ----- two trackers, one stream of operations -----------------------------

  /** Running events from any database. */
  function RunFrom(db: Db, es: seq<Event>): Db
    decreases |es|
  {
    if es == [] then db else RunFrom(Apply(db, es[0]).db, es[1..])
  }

  function CmdsOf(es: seq<Event>): seq<Cmd> {
    if es == [] then [] else (if es[0].Do? then [es[0].c] else []) + CmdsOf(es[1..])
  }

  /** Every metadata operation among the events succeeds. */
  ghost predicate AllSucceed(db: Db, es: seq<Event>)
    decreases |es|
  {
    es != [] ==> (es[0].Do? ==> Apply(db, es[0]).st == ST_OK) && AllSucceed(Apply(db, es[0]).db, es[1..])
  }

  /** Every metadata operation among the events counts as applied. */
  ghost predicate AllTolerated(db: Db, es: seq<Event>)
    decreases |es|
  {
    es != [] ==> (es[0].Do? ==> Tolerated(es[0].c, Apply(db, es[0]).st)) && AllTolerated(Apply(db, es[0]).db, es[1..])
  }

  lemma SessionKeepsMeta(db: Db, e: Event)
    requires !e.Do?
    ensures SameMeta(db, Apply(db, e).db)
    ensures e.LogIn? ==> Apply(db, e).db.groups == db.groups
  {
    match e
    case LogIn(uid, pwd, ip, port) => LoginKeepsMeta(db, uid, pwd, ip, port);
    case LogOut(uid) => LogoutKeepsMeta(db, uid);
  }

  /**
   A replica replays the operations that succeeded at the origin, in order, while logins and
   logouts happen freely on both sides: every replay is applied and the metadata stay equal;
   if nobody logs out on the replica, it keeps every seeder the origin has.
   */
  lemma {:induction false} Bisimulation(a: Db, b: Db, es: seq<Event>, rs: seq<Event>)
    requires SameMeta(a, b) && AllSucceed(a, es) && CmdsOf(es) == CmdsOf(rs)
    ensures SameMeta(RunFrom(a, es), RunFrom(b, rs)) && AllTolerated(b, rs)
    ensures AllSeedersWithin(a, b) && (forall r | r in rs :: !r.LogOut?)
      ==> AllSeedersWithin(RunFrom(a, es), RunFrom(b, rs))
    decreases |es| + |rs|
  {
    hide SameMeta, Exec, Login, Logout, AllSeedersWithin, Tolerated;
    if es != [] && !es[0].Do? {
      var a1 := Apply(a, es[0]).db;
      SessionKeepsMeta(a, es[0]);
      SameMetaSymmetric(a, a1);
      SameMetaTransitive(a1, a, b);
      SessionKeepsSeeders(a, es[0], b);
      Bisimulation(a1, b, es[1..], rs);
    } else if rs != [] && !rs[0].Do? {
      var b1 := Apply(b, rs[0]).db;
      SessionKeepsMeta(b, rs[0]);
      SameMetaTransitive(a, b, b1);
      if rs[0].LogIn? { SameGroupsSameSeeders(a, b, b1); }
      Bisimulation(a, b1, es, rs[1..]);
    } else if es != [] {
      assert CmdsOf([]) == [] && CmdsOf(es) != [];
      assert rs != [];
      assert CmdsOf(es)[0] == CmdsOf(rs)[0] && CmdsOf(es)[1..] == CmdsOf(rs)[1..];
      var c := es[0].c;
      SuccessIsAdmitted(a, c);
      AdmittedReplays(a, b, c);
      if AllSeedersWithin(a, b) { SeedersStep(a, b, c); }
      Bisimulation(Apply(a, es[0]).db, Apply(b, rs[0]).db, es[1..], rs[1..]);
    }
  }

  lemma SessionKeepsSeeders(a: Db, e: Event, b: Db)
    requires !e.Do?
    ensures AllSeedersWithin(a, b) ==> AllSeedersWithin(Apply(a, e).db, b)
  {
    if AllSeedersWithin(a, b) {
      match e
      case LogIn(uid, pwd, ip, port) => LoginKeepsMeta(a, uid, pwd, ip, port);
      case LogOut(uid) => LogoutShrinksSeeders(a, uid, b);
    }
  }

  lemma SameGroupsSameSeeders(a: Db, b: Db, c: Db)
    requires b.groups == c.groups
    ensures AllSeedersWithin(a, b) ==> AllSeedersWithin(a, c)
  {
  }

  // ----- facts that an event starts and later events may end ----------------

  /** Event i started it, and no event since has ended it. */
  ghost predicate Since(es: seq<Event>, starts: (Db, Event) -> bool, ends: (Db, Event) -> bool, i: nat) {
    && i < |es|
    && starts(After(es[..i]), es[i])
    && forall j | i < j < |es| :: !ends(After(es[..j]), es[j])
  }

  /** One event makes `holds` true or false only by starting or ending it. */
  ghost predicate Governs(holds: Db -> bool, starts: (Db, Event) -> bool, ends: (Db, Event) -> bool) {
    forall db: Db, e: Event {:trigger Apply(db, e)} ::
      Valid(db) ==> (holds(Apply(db, e).db) <==> starts(db, e) || (holds(db) && !ends(db, e)))
  }

  /** Dropping the last event of a history keeps the earlier states. */
  lemma Prefixes(es: seq<Event>, j: nat)
    requires j < |es|
    ensures es[..|es| - 1][..j] == es[..j]
    ensures j < |es| - 1 ==> es[..|es| - 1][j] == es[j]
  {
  }

  lemma AfterNothing()
    ensures After([]) == EmptyDb
  {
  }

  lemma AfterSnoc(es: seq<Event>)
    requires es != []
    ensures After(es) == Apply(After(es[..|es| - 1]), es[|es| - 1]).db
  {
  }

  lemma SinceSnoc(es: seq<Event>, starts: (Db, Event) -> bool, ends: (Db, Event) -> bool, i: nat)
    requires es != [] && i < |es| - 1
    ensures Since(es, starts, ends, i)
      <==> Since(es[..|es| - 1], starts, ends, i) && !ends(After(es[..|es| - 1]), es[|es| - 1])
  {
    hide After;
    var n := |es| - 1;
    var xs := es[..n];
    forall j | i <= j < n ensures xs[..j] == es[..j] && xs[j] == es[j] { Prefixes(es, j); }
    if Since(es, starts, ends, i) {
      forall j | i < j < n ensures !ends(After(xs[..j]), xs[j]) { assert !ends(After(es[..j]), es[j]); }
    }
    if Since(xs, starts, ends, i) && !ends(After(xs), es[n]) {
      forall j | i < j < |es| ensures !ends(After(es[..j]), es[j]) {
        if j < n { assert !ends(After(xs[..j]), xs[j]); }
      }
    }
  }

  /** Over any run from a fresh tracker, what holds was started and has not been ended since. */
  lemma {:induction false} SinceIff(es: seq<Event>, holds: Db -> bool, starts: (Db, Event) -> bool,
      ends: (Db, Event) -> bool)
    requires !holds(EmptyDb) && Governs(holds, starts, ends)
    ensures holds(After(es)) <==> exists i: nat :: Since(es, starts, ends, i)
  {
    hide After, Valid, Apply;
    if es == [] {
      AfterNothing();
    } else {
      var n := |es| - 1;
      var xs := es[..n];
      AfterSnoc(es);
      ReachableValid(xs);
      SinceIff(xs, holds, starts, ends);
      if starts(After(xs), es[n]) { assert Since(es, starts, ends, n); }
      forall i: nat | i < n
        ensures Since(es, starts, ends, i) <==> Since(xs, starts, ends, i) && !ends(After(xs), es[n])
      {
        SinceSnoc(es, starts, ends, i);
      }
    }
  }

  // ----- groups -------------------------------------------------------------

  ghost predicate IsGroup(db: Db, gid: Str) { gid in db.groups }

  /** Somebody creates the group. */
  ghost predicate Founds(db: Db, e: Event, gid: Str) {
    e.Do? && Exec(db, e.c).st == ST_OK && e.c.CmdCreateGroup? && e.c.gid == gid
  }

  /** The only member leaves. */
  ghost predicate Dissolves(db: Db, e: Event, gid: Str) {
    && e.Do? && Exec(db, e.c).st == ST_OK && e.c.CmdLeaveGroup? && e.c.gid == gid
    && gid in db.groups && db.groups[gid].members == {e.c.uid}
  }

  ghost function Existing(gid: Str): Db -> bool { db => IsGroup(db, gid) }
  ghost function Founding(gid: Str): (Db, Event) -> bool { (db, e) => Founds(db, e, gid) }
  ghost function Dissolving(gid: Str): (Db, Event) -> bool { (db, e) => Dissolves(db, e, gid) }

  lemma OwnerIsMember(db: Db, gid: Str)
    requires Valid(db) && gid in db.groups
    ensures db.groups[gid].owner in db.groups[gid].members
  {
    assert ValidGroup(db.users.Keys, gid, db.groups[gid]);
  }

  lemma GroupStep(db: Db, e: Event, gid: Str)
    requires Valid(db)
    ensures IsGroup(Apply(db, e).db, gid) <==> Founds(db, e, gid) || (IsGroup(db, gid) && !Dissolves(db, e, gid))
  {
    if gid in db.groups { OwnerIsMember(db, gid); }
    hide HashPassword, AllBits, Least, Valid;
    if e.Do? && Exec(db, e.c).st != ST_OK { FailureChangesNothing(db, e.c); }
  }

  /** A group exists exactly when it was created and has not lost its last member since. */
  lemma GroupIff(es: seq<Event>, gid: Str)
    ensures IsGroup(After(es), gid) <==> exists i: nat :: Since(es, Founding(gid), Dissolving(gid), i)
  {
    hide After, Valid, IsGroup, Founds, Dissolves;
    forall db: Db, e: Event | Valid(db)
      ensures IsGroup(Apply(db, e).db, gid) <==> Founds(db, e, gid) || (IsGroup(db, gid) && !Dissolves(db, e, gid))
    {
      GroupStep(db, e, gid);
    }
    assert !IsGroup(EmptyDb, gid) by { EmptyHasNothing(gid, []); }
    SinceIff(es, Existing(gid), Founding(gid), Dissolving(gid));
  }

  // ----- membership ---------------------------------------------------------

  ghost predicate IsMember(db: Db, gid: Str, u: Str) { gid in db.groups && u in db.groups[gid].members }

  /** The event makes `u` a member: `u` creates the group, or the owner of that moment accepts `u`. */
  ghost predicate Joins(db: Db, e: Event, gid: Str, u: Str) {
    && e.Do? && Exec(db, e.c).st == ST_OK
    && (|| e.c == CmdCreateGroup(gid, u)
        || (&& e.c.CmdAcceptRequest? && e.c.gid == gid && e.c.uid == u
            && gid in db.groups && e.c.owner == db.groups[gid].owner && u in db.groups[gid].pending))
  }

  /** `u` leaves. */
  ghost predicate Parts(db: Db, e: Event, gid: Str, u: Str) {
    e == Do(CmdLeaveGroup(gid, u)) && Exec(db, e.c).st == ST_OK
  }

  ghost function Member(gid: Str, u: Str): Db -> bool { db => IsMember(db, gid, u) }
  ghost function Joining(gid: Str, u: Str): (Db, Event) -> bool { (db, e) => Joins(db, e, gid, u) }
  ghost function Parting(gid: Str, u: Str): (Db, Event) -> bool { (db, e) => Parts(db, e, gid, u) }

  /** One event changes membership only through joining and leaving. */
  lemma MembershipStep(db: Db, e: Event, gid: Str, u: Str)
    ensures IsMember(Apply(db, e).db, gid, u) <==>
      Joins(db, e, gid, u) || (IsMember(db, gid, u) && !Parts(db, e, gid, u))
  {
    hide HashPassword, AllBits, Least;
    if e.Do? && Exec(db, e.c).st != ST_OK { FailureChangesNothing(db, e.c); }
  }

  /** A user is a member exactly when it created the group or was accepted by its then-owner since last leaving. */
  lemma MemberIff(es: seq<Event>, gid: Str, u: Str)
    ensures IsMember(After(es), gid, u) <==> exists i: nat :: Since(es, Joining(gid, u), Parting(gid, u), i)
  {
    hide After, IsMember, Joins, Parts;
    forall db, e
      ensures IsMember(Apply(db, e).db, gid, u)
        <==> Joins(db, e, gid, u) || (IsMember(db, gid, u) && !Parts(db, e, gid, u))
    {
      MembershipStep(db, e, gid, u);
    }
    assert !IsMember(EmptyDb, gid, u) by { EmptyHasNothing(gid, u); }
    SinceIff(es, Member(gid, u), Joining(gid, u), Parting(gid, u));
  }

  lemma EmptyHasNothing(gid: Str, u: Str)
    ensures !IsMember(EmptyDb, gid, u) && !IsPending(EmptyDb, gid, u) && !IsGroup(EmptyDb, gid)
  {
  }

  // ----- requests to join ---------------------------------------------------

  ghost predicate IsPending(db: Db, gid: Str, u: Str) { gid in db.groups && u in db.groups[gid].pending }

  ghost predicate Asks(db: Db, e: Event, gid: Str, u: Str) {
    e == Do(CmdJoinGroup(gid, u)) && Exec(db, e.c).st == ST_OK
  }

  /** `u` is accepted, or the group dissolves. */
  ghost predicate Settles(db: Db, e: Event, gid: Str, u: Str) {
    || (e.Do? && Exec(db, e.c).st == ST_OK && e.c.CmdAcceptRequest? && e.c.gid == gid && e.c.uid == u)
    || Dissolves(db, e, gid)
  }

  ghost function Pending(gid: Str, u: Str): Db -> bool { db => IsPending(db, gid, u) }
  ghost function Asking(gid: Str, u: Str): (Db, Event) -> bool { (db, e) => Asks(db, e, gid, u) }
  ghost function Settling(gid: Str, u: Str): (Db, Event) -> bool { (db, e) => Settles(db, e, gid, u) }

  lemma PendingStep(db: Db, e: Event, gid: Str, u: Str)
    requires Valid(db)
    ensures IsPending(Apply(db, e).db, gid, u) <==>
      Asks(db, e, gid, u) || (IsPending(db, gid, u) && !Settles(db, e, gid, u))
  {
    GroupStep(db, e, gid);
    hide Valid, Dissolves;
    if e.Do? && (e.c.CmdUpload? || e.c.CmdStopShare? || e.c.CmdHavePieces?) {
      FileOpPending(db, e.c, gid, u);
      hide Exec;
    } else if e.Do? && Exec(db, e.c).st != ST_OK {
      FailureChangesNothing(db, e.c);
    } else {
      hide HashPassword, Least;
    }
  }

  lemma FileOpPending(db: Db, c: Cmd, gid: Str, u: Str)
    requires c.CmdUpload? || c.CmdStopShare? || c.CmdHavePieces?
    ensures IsPending(Exec(db, c).db, gid, u) <==> IsPending(db, gid, u)
    ensures gid in Exec(db, c).db.groups <==> gid in db.groups
  {
    if Exec(db, c).st == ST_OK { FileOpShape(db, c); } else { FailureChangesNothing(db, c); }
    hide Exec, NewFile;
  }

  /** A request is pending exactly when it was made and has not been accepted since. */
  lemma PendingIff(es: seq<Event>, gid: Str, u: Str)
    ensures IsPending(After(es), gid, u) <==> exists i: nat :: Since(es, Asking(gid, u), Settling(gid, u), i)
  {
    hide After, IsPending, Asks, Settles, Valid;
    forall db: Db, e: Event | Valid(db)
      ensures IsPending(Apply(db, e).db, gid, u)
        <==> Asks(db, e, gid, u) || (IsPending(db, gid, u) && !Settles(db, e, gid, u))
    {
      PendingStep(db, e, gid, u);
    }
    assert !IsPending(EmptyDb, gid, u) by { EmptyHasNothing(gid, u); }
    SinceIff(es, Pending(gid, u), Asking(gid, u), Settling(gid, u));
  }

  // ----- seeders ------------------------------------------------------------

  /** The entry of `u` among the seeders of a file. */
  ghost function SeederOf(db: Db, gid: Str, n: Str, u: Str): Option<PeerRef> {
    if gid in db.groups && n in db.groups[gid].files && u in db.groups[gid].files[n].seeders
    then Some(db.groups[gid].files[n].seeders[u]) else None
  }

  /** The entry an event publishes for `u`: all pieces by an upload, the given ones by have_pieces. */
  ghost function Announced(db: Db, e: Event, gid: Str, n: Str, u: Str): Option<PeerRef> {
    if !e.Do? || Exec(db, e.c).st != ST_OK then None
    else match e.c
      case CmdUpload(g, v, ip, port, meta) =>
        if g == gid && v == u && meta.name == n then Some(PeerRef(u, ip, port, AllBits(|meta.pieceHashes|))) else None
      case CmdHavePieces(g, v, ip, port, f, bits) =>
        if g == gid && v == u && f == n then Some(PeerRef(u, ip, port, bits)) else None
      case _ => None
  }

  /** `u` stops sharing or logs out, or the group dissolves. Leaving the group is not among these. */
  ghost predicate Withdraws(db: Db, e: Event, gid: Str, n: Str, u: Str) {
    || e == LogOut(u)
    || (e == Do(CmdStopShare(gid, u, n)) && Exec(db, e.c).st == ST_OK)
    || Dissolves(db, e, gid)
  }

  ghost function Seeding(gid: Str, n: Str, u: Str, p: PeerRef): Db -> bool { db => SeederOf(db, gid, n, u) == Some(p) }
  ghost function Announcing(gid: Str, n: Str, u: Str, p: PeerRef): (Db, Event) -> bool {
    (db, e) => Announced(db, e, gid, n, u) == Some(p)
  }
  ghost function Superseding(gid: Str, n: Str, u: Str): (Db, Event) -> bool {
    (db, e) => Announced(db, e, gid, n, u).Some? || Withdraws(db, e, gid, n, u)
  }

  /** One event changes one seeder entry only by announcing or withdrawing it. */
  lemma SeederStep(db: Db, e: Event, gid: Str, n: Str, u: Str)
    requires Valid(db)
    ensures SeederOf(Apply(db, e).db, gid, n, u) ==
      if Announced(db, e, gid, n, u).Some? then Announced(db, e, gid, n, u)
      else if Withdraws(db, e, gid, n, u) then None
      else SeederOf(db, gid, n, u)
  {
    match e
    case LogIn(uid, pwd, ip, port) => LoginKeepsMeta(db, uid, pwd, ip, port);
    case LogOut(uid) => LogoutSeeders(db, uid, gid, n, u);
    case Do(c) =>
      GroupStep(db, e, gid);
      if Exec(db, c).st != ST_OK { FailureChangesNothing(db, c); }
      else if c.CmdUpload? || c.CmdStopShare? || c.CmdHavePieces? { FileOpSeeders(db, c, gid, n, u); }
      else { MembershipOpSeeders(db, c, gid, n, u); }
  }

  lemma LogoutSeeders(db: Db, uid: Str, gid: Str, n: Str, u: Str)
    requires Valid(db)
    ensures gid in Logout(db, uid).db.groups <==> gid in db.groups
    ensures SeederOf(Logout(db, uid).db, gid, n, u) == if u == uid then None else SeederOf(db, gid, n, u)
  {
    if gid in db.groups && n in db.groups[gid].files {
      assert ValidGroup(db.users.Keys, gid, db.groups[gid]);
      assert ValidFile(db.users.Keys, n, db.groups[gid].files[n]);
    }
  }

  lemma FileOpSeeders(db: Db, c: Cmd, gid: Str, n: Str, u: Str)
    requires c.CmdUpload? || c.CmdStopShare? || c.CmdHavePieces?
    requires Exec(db, c).st == ST_OK
    ensures SeederOf(Exec(db, c).db, gid, n, u) ==
      if Announced(db, Do(c), gid, n, u).Some? then Announced(db, Do(c), gid, n, u)
      else if Withdraws(db, Do(c), gid, n, u) then None
      else SeederOf(db, gid, n, u)
  {
    FileOpShape(db, c);
    hide Exec, AllBits;
    assert gid in Exec(db, c).db.groups <==> gid in db.groups;
  }

  lemma MembershipOpSeeders(db: Db, c: Cmd, gid: Str, n: Str, u: Str)
    requires c.CmdCreateUser? || c.CmdCreateGroup? || c.CmdJoinGroup? || c.CmdLeaveGroup? || c.CmdAcceptRequest?
    requires Exec(db, c).st == ST_OK
    ensures SeederOf(Exec(db, c).db, gid, n, u) == if gid in Exec(db, c).db.groups then SeederOf(db, gid, n,
      u) else None
  {
    hide HashPassword, Least;
  }

  /** The peer list holds a user's entry exactly as it last announced it, if it has not withdrawn since. */
  lemma SeederIff(es: seq<Event>, gid: Str, n: Str, u: Str, p: PeerRef)
    ensures SeederOf(After(es), gid, n, u) == Some(p) <==>
      exists i: nat :: Since(es, Announcing(gid, n, u, p), Superseding(gid, n, u), i)
  {
    hide After, Valid, SeederOf, Announced, Withdraws;
    forall db: Db, e: Event | Valid(db)
      ensures SeederOf(Apply(db, e).db, gid, n, u) ==
        if Announced(db, e, gid, n, u).Some? then Announced(db, e, gid, n, u)
        else if Withdraws(db, e, gid, n, u) then None
        else SeederOf(db, gid, n, u)
    {
      SeederStep(db, e, gid, n, u);
    }
    assert SeederOf(EmptyDb, gid, n, u) == None by { EmptySeedsNothing(gid, n, u); }
    SinceIff(es, Seeding(gid, n, u, p), Announcing(gid, n, u, p), Superseding(gid, n, u));
  }

  lemma EmptySeedsNothing(gid: Str, n: Str, u: Str)
    ensures SeederOf(EmptyDb, gid, n, u) == None
  {
  }

  // ----- files --------------------------------------------------------------

  lemma FileStep(db: Db, e: Event, gid: Str, n: Str)
    requires gid in db.groups && n in db.groups[gid].files && gid in Apply(db, e).db.groups
    ensures n in Apply(db, e).db.groups[gid].files
    ensures SameFile(db.groups[gid].files[n], Apply(db, e).db.groups[gid].files[n])
  {
    hide HashPassword, AllBits, Least;
    match e
    case LogIn(uid, pwd, ip, port) => LoginKeepsMeta(db, uid, pwd, ip, port);
    case LogOut(uid) =>
      LogoutKeepsMeta(db, uid);
      assert SameGroup(db.groups[gid], Apply(db, e).db.groups[gid]);
    case Do(c) =>
      if Exec(db, c).st != ST_OK { FailureChangesNothing(db, c); }
  }

  /** A published file keeps its name, size and hashes for as long as its group lasts. */
  lemma {:induction false} FileImmutable(es: seq<Event>, i: nat, gid: Str, n: Str)
    requires i <= |es| && forall j | i <= j <= |es| :: gid in After(es[..j]).groups
    requires n in After(es[..i]).groups[gid].files
    ensures gid in After(es).groups && n in After(es).groups[gid].files
    ensures SameFile(After(es[..i]).groups[gid].files[n], After(es).groups[gid].files[n])
    decreases |es|
  {
    hide After, SameFile;
    assert es[..|es|] == es;
    assert gid in After(es[..|es|]).groups;
    if i < |es| {
      var k := |es| - 1;
      var xs := es[..k];
      forall j | i <= j <= k ensures gid in After(xs[..j]).groups {
        Prefixes(es, j);
        assert gid in After(es[..j]).groups;
      }
      Prefixes(es, i);
      FileImmutable(xs, i, gid, n);
      AfterSnoc(es);
      FileStep(After(xs), es[k], gid, n);
      SameFileTransitive(After(es[..i]).groups[gid].files[n], After(xs).groups[gid].files[n],
        After(es).groups[gid].files[n]);
    } else {
      SameFileReflexive(After(es).groups[gid].files[n]);
    }
  }

  lemma SameFileTransitive(f: FileMeta, g: FileMeta, h: FileMeta)
    requires SameFile(f, g) && SameFile(g, h)
    ensures SameFile(f, h)
  {
  }

  lemma SameFileReflexive(f: FileMeta)
    ensures SameFile(f, f)
  {
  }

  ghost predicate Has(db: Db, gid: Str, m: FileMeta) {
    gid in db.groups && m.name in db.groups[gid].files && SameFile(db.groups[gid].files[m.name], m)
  }

  /** The first upload under that name, with this size and these hashes. */
  ghost predicate Publishes(db: Db, e: Event, gid: Str, m: FileMeta) {
    && e.Do? && e.c.CmdUpload? && Exec(db, e.c).st == ST_OK && e.c.gid == gid && SameFile(e.c.meta, m)
    && m.name !in db.groups[gid].files
  }

  ghost function Having(gid: Str, m: FileMeta): Db -> bool { db => Has(db, gid, m) }
  ghost function Publishing(gid: Str, m: FileMeta): (Db, Event) -> bool { (db, e) => Publishes(db, e, gid, m) }

  lemma PublishStep(db: Db, e: Event, gid: Str, m: FileMeta)
    requires Valid(db)
    ensures Has(Apply(db, e).db, gid, m) <==>
      Publishes(db, e, gid, m) || (Has(db, gid, m) && !Dissolves(db, e, gid))
  {
    GroupStep(db, e, gid);
    hide Valid, Dissolves;
    if gid in db.groups && m.name in db.groups[gid].files && gid in Apply(db, e).db.groups {
      FileStep(db, e, gid, m.name);
      hide Apply, Exec;
    } else if e.Do? && Exec(db, e.c).st == ST_OK && e.c.CmdUpload? {
      FileOpShape(db, e.c);
      hide Exec, AllBits;
    } else {
      if gid in Apply(db, e).db.groups { NothingAppears(db, e, gid, m.name); }
      hide Apply, Exec;
    }
  }

  ghost predicate HasName(db: Db, gid: Str, n: Str) { gid in db.groups && n in db.groups[gid].files }

  /** Nothing but an upload makes a file appear. */
  lemma NothingAppears(db: Db, e: Event, gid: Str, n: Str)
    requires !(e.Do? && Exec(db, e.c).st == ST_OK && e.c.CmdUpload?) && !HasName(db, gid, n)
    ensures !HasName(Apply(db, e).db, gid, n)
  {
    hide HashPassword, AllBits, Least;
    if e.Do? && Exec(db, e.c).st != ST_OK { FailureChangesNothing(db, e.c); }
  }

  /** A file's record is what its first upload published, and lasts as long as the group. */
  lemma PublishedIff(es: seq<Event>, gid: Str, m: FileMeta)
    ensures Has(After(es), gid, m) <==> exists i: nat :: Since(es, Publishing(gid, m), Dissolving(gid), i)
  {
    hide After, Has, Publishes, Dissolves, Valid;
    forall db: Db, e: Event | Valid(db)
      ensures Has(Apply(db, e).db, gid, m)
        <==> Publishes(db, e, gid, m) || (Has(db, gid, m) && !Dissolves(db, e, gid))
    {
      PublishStep(db, e, gid, m);
    }
    assert !Has(EmptyDb, gid, m) by { EmptyHasNoFile(gid, m); }
    SinceIff(es, Having(gid, m), Publishing(gid, m), Dissolving(gid));
  }

  lemma EmptyHasNoFile(gid: Str, m: FileMeta)
    ensures !Has(EmptyDb, gid, m)
  {
  }

  // ----- accounts -----------------------------------------------------------

  ghost predicate Registered(db: Db, uid: Str, digest: Str) { uid in db.users && db.users[uid].password == digest }

  ghost predicate Registers(db: Db, e: Event, uid: Str, digest: Str) {
    e.Do? && e.c.CmdCreateUser? && e.c.uid == uid && Sha1.HexDigest(e.c.pwd) == digest && Exec(db, e.c).st == ST_OK
  }

  ghost function Account(uid: Str, digest: Str): Db -> bool { db => Registered(db, uid, digest) }
  ghost function Registering(uid: Str, digest: Str): (Db, Event) -> bool { (db, e) => Registers(db, e, uid, digest) }
  ghost function Never(): (Db, Event) -> bool { (db, e) => false }

  lemma AccountStep(db: Db, e: Event, uid: Str, digest: Str)
    ensures Registered(Apply(db, e).db, uid, digest) <==> Registers(db, e, uid, digest) || Registered(db, uid, digest)
  {
    hide Sha1.HexDigest, AllBits, Least;
    if e.Do? && !e.c.CmdCreateUser? { GroupWrites(db, e.c); }
  }

  lemma AccountIff(es: seq<Event>, uid: Str, digest: Str)
    ensures Registered(After(es), uid, digest) <==> exists i: nat :: Since(es, Registering(uid, digest), Never(), i)
  {
    assert !Registered(EmptyDb, uid, digest);
    hide After, Registered, Registers;
    forall db, e
      ensures Registered(Apply(db, e).db, uid, digest) <==> Registers(db, e, uid, digest) || Registered(db, uid, digest)
    {
      AccountStep(db, e, uid, digest);
    }
    SinceIff(es, Account(uid, digest), Registering(uid, digest), Never());
  }

  ghost predicate IsUser(db: Db, uid: Str) { uid in db.users }

  ghost predicate Enrolls(db: Db, e: Event, uid: Str) {
    e.Do? && e.c.CmdCreateUser? && e.c.uid == uid && Exec(db, e.c).st == ST_OK
  }

  ghost function Known(uid: Str): Db -> bool { db => IsUser(db, uid) }
  ghost function Enrolling(uid: Str): (Db, Event) -> bool { (db, e) => Enrolls(db, e, uid) }

  lemma UserStep(db: Db, e: Event, uid: Str)
    ensures IsUser(Apply(db, e).db, uid) <==> Enrolls(db, e, uid) || IsUser(db, uid)
  {
    hide HashPassword, AllBits, Least;
    if e.Do? && !e.c.CmdCreateUser? { GroupWrites(db, e.c); }
  }

  /** A user is known exactly when it was once created. */
  lemma UserIff(es: seq<Event>, uid: Str)
    ensures IsUser(After(es), uid) <==> exists i: nat :: Since(es, Enrolling(uid), Never(), i)
  {
    assert !IsUser(EmptyDb, uid);
    hide After, IsUser, Enrolls;
    forall db, e ensures IsUser(Apply(db, e).db, uid) <==> Enrolls(db, e, uid) || IsUser(db, uid) {
      UserStep(db, e, uid);
    }
    SinceIff(es, Known(uid), Enrolling(uid), Never());
  }

  /**
   After any run, a login succeeds exactly when the user was once created with a password of
   the same SHA-1 digest: nothing changes or deletes an account. An unknown user and a wrong
   password have a status each.
   */
  lemma LoginIff(es: seq<Event>, uid: Str, pwd: Str, ip: Str, port: U16)
    ensures var st := Login(After(es), uid, pwd, ip, port).st;
      var known := exists i: nat :: Since(es, Enrolling(uid), Never(), i);
      var same := exists i: nat :: Since(es, Registering(uid, Sha1.HexDigest(pwd)), Never(), i);
      && (st == ST_OK <==> same)
      && (st == ST_NOT_FOUND <==> !known)
      && (st == ST_BAD_CREDENTIALS <==> known && !same)
  {
    AccountIff(es, uid, Sha1.HexDigest(pwd));
    UserIff(es, uid);
    hide After, Sha1.HexDigest, Since;
  }

  /** Whoever logs in with another password than the account was created with shows a collision of SHA-1. */
  lemma LoginCollides(es: seq<Event>, uid: Str, pwd: Str, ip: Str, port: U16, i: nat)
    requires i < |es| && es[i].Do? && es[i].c.CmdCreateUser? && es[i].c.uid == uid
    requires Exec(After(es[..i]), es[i].c).st == ST_OK
    ensures Login(After(es), uid, pwd, ip, port).st == ST_OK
      <==> pwd == es[i].c.pwd || Sha1.Collides(pwd, es[i].c.pwd)
  {
    hide After, Sha1.HexDigest, Exec;
    var digest := Sha1.HexDigest(es[i].c.pwd);
    assert Since(es, Registering(uid, digest), Never(), i);
    AccountIff(es, uid, digest);
  }

  // ----- what the queries tell ----------------------------------------------

  /** The owner, and nobody else, is shown exactly the requests that were made and not yet accepted. */
  lemma RequestsListed(es: seq<Event>, gid: Str, owner: Str, u: Str)
    ensures var a, db := ListRequests(After(es), gid, owner), After(es);
      && (a.st == ST_OK <==> gid in db.groups && db.groups[gid].owner == owner)
      && (a.st == ST_OK ==> (u in a.value <==> exists i: nat :: Since(es, Asking(gid, u), Settling(gid, u), i)))
      && (a.st != ST_OK ==> a.value == {})
  {
    PendingIff(es, gid, u);
    ReachableValid(es);
    var db := After(es);
    hide After, Since;
    if gid in db.groups { OwnerHasName(db, gid); }
  }

  lemma OwnerHasName(db: Db, gid: Str)
    requires Valid(db) && gid in db.groups
    ensures gid != [] && db.groups[gid].owner != []
  {
    assert ValidGroup(db.users.Keys, gid, db.groups[gid]);
    assert db.groups[gid].owner in db.users.Keys;
  }

  lemma MemberHasName(db: Db, gid: Str, u: Str)
    requires Valid(db) && IsMember(db, gid, u)
    ensures gid != [] && u != []
  {
    assert ValidGroup(db.users.Keys, gid, db.groups[gid]);
    assert u in db.users.Keys;
  }

  /** Exactly the members are shown the files, and exactly the files that were published in their group. */
  lemma FilesListed(es: seq<Event>, gid: Str, u: Str, n: Str)
    ensures var a := ListFiles(After(es), gid, u);
      && (a.st == ST_OK <==> exists i: nat :: Since(es, Joining(gid, u), Parting(gid, u), i))
      && (a.st == ST_OK ==> (n in a.value <==>
        exists m: FileMeta, i: nat :: m.name == n && Since(es, Publishing(gid, m), Dissolving(gid), i)))
  {
    var db := After(es);
    MemberIff(es, gid, u);
    ReachableValid(es);
    if IsMember(db, gid, u) { MemberHasName(db, gid, u); }
    assert ListFiles(db, gid, u).st == ST_OK <==> IsMember(db, gid, u);
    forall m: FileMeta ensures Has(db, gid, m) <==> exists i: nat :: Since(es, Publishing(gid, m), Dissolving(gid), i) {
      PublishedIff(es, gid, m);
    }
    hide After, Since, Valid;
    if gid in db.groups && n in db.groups[gid].files {
      var m := db.groups[gid].files[n].(name := n);
      FileUnderItsName(es, gid, n);
      assert Has(db, gid, m);
    }
    if m: FileMeta, i: nat :| m.name == n && Since(es, Publishing(gid, m), Dissolving(gid), i) {
      assert Has(db, gid, m);
    }
  }

  lemma FileUnderItsName(es: seq<Event>, gid: Str, n: Str)
    requires gid in After(es).groups && n in After(es).groups[gid].files
    ensures After(es).groups[gid].files[n].name == n
  {
    ReachableValid(es);
    hide After;
    assert ValidGroup(After(es).users.Keys, gid, After(es).groups[gid]);
    assert ValidFile(After(es).users.Keys, n, After(es).groups[gid].files[n]);
  }

  /** A member is told of a file exactly the entries its seeders announced last and have not withdrawn. */
  lemma SeedersTold(es: seq<Event>, gid: Str, uid: Str, n: Str, u: Str, p: PeerRef)
    ensures var a := GetFile(After(es), gid, uid, n);
      a.st == ST_OK ==>
        && a.value.Some? && (exists i: nat :: Since(es, Joining(gid, uid), Parting(gid, uid), i))
        && (u in a.value.value.seeders && a.value.value.seeders[u] == p <==>
          exists i: nat :: Since(es, Announcing(gid, n, u, p), Superseding(gid, n, u), i))
  {
    MemberIff(es, gid, uid);
    SeederIff(es, gid, n, u, p);
    hide After, Since;
  }

  ghost function Populated(): Db -> bool { (db: Db) => db.users.Keys != {} }
  ghost function SigningUp(): (Db, Event) -> bool {
    (db: Db, e: Event) => e.Do? && e.c.CmdCreateUser? && Exec(db, e.c).st == ST_OK
  }

  lemma PopulatedStep(db: Db, e: Event)
    ensures Apply(db, e).db.users.Keys != {} <==> SigningUp()(db, e) || db.users.Keys != {}
  {
    hide HashPassword, AllBits, Least;
    match e
    case LogIn(uid, pwd, ip, port) => LoginKeepsMeta(db, uid, pwd, ip, port);
    case LogOut(uid) => LogoutKeepsMeta(db, uid);
    case Do(c) =>
      if Exec(db, c).st != ST_OK { FailureChangesNothing(db, c); }
      else if c.CmdCreateUser? { assert c.uid in Exec(db, c).db.users.Keys; }
      else { GroupWrites(db, c); }
  }

  /** A tracker asks its peer for everything exactly until its first user has been created. */
  lemma EmptyIff(es: seq<Event>)
    ensures IsEmpty(After(es)) <==> !exists i: nat :: Since(es, SigningUp(), Never(), i)
  {
    ReachableValid(es);
    var db := After(es);
    if db.groups.Keys != {} {
      var g :| g in db.groups;
      assert ValidGroup(db.users.Keys, g, db.groups[g]);
      assert db.groups[g].owner in db.users.Keys;
    }
    assert IsEmpty(db) <==> db.users.Keys == {};
    forall db, e ensures Apply(db, e).db.users.Keys != {} <==> SigningUp()(db, e) || db.users.Keys != {} {
      PopulatedStep(db, e);
    }
    hide After, Apply, Valid;
    SinceIff(es, Populated(), SigningUp(), Never());
  }

  // ----- ownership ----------------------------------------------------------

  /** The users leave one after the other; the last component says whether every leave succeeded. */
  function LeaveAll(db: Db, gid: Str, us: seq<Str>): (r: (Db, bool))
    decreases |us|
  {
    if us == [] then (db, true)
    else
      var o := LeaveGroup(db, gid, us[0]);
      var r := LeaveAll(o.db, gid, us[1..]);
      (r.0, o.st == ST_OK && r.1)
  }

  /** A group without `gone`: dissolved, or kept by its owner, or handed to the least that remain. */
  function Without(db: Db, gid: Str, gone: set<Str>): Db
    requires gid in db.groups
  {
    var g := db.groups[gid];
    var rest := g.members - gone;
    if rest == {} then db.(groups := db.groups - {gid})
    else PutGroup(db, gid, g.(members := rest, owner := if g.owner in rest then g.owner else Least(rest)))
  }

  lemma WithoutStep(db: Db, gid: Str, u: Str, gone: set<Str>)
    requires Valid(db) && gid in db.groups && u in db.groups[gid].members && u !in gone
    requires db.groups[gid].members - {u} != {}
    ensures var db1 := LeaveGroup(db, gid, u).db;
      && gid in db1.groups && db1.groups[gid].members == db.groups[gid].members - {u}
      && Without(db1, gid, gone) == Without(db, gid, gone + {u})
  {
    hide Least, ValidFile;
    var g := db.groups[gid];
    assert ValidGroup(db.users.Keys, gid, g);
    var db1 := LeaveGroup(db, gid, u).db;
    var g1 := db1.groups[gid];
    var rest := g.members - (gone + {u});
    assert g1.members - gone == rest;
    if rest == {} {
      assert db1.groups - {gid} == db.groups - {gid};
    } else {
      if u == g.owner && g1.owner in rest { LeastOfSubset(g.members - {u}, rest); }
      assert Without(db1, gid, gone).groups[gid] == Without(db, gid, gone + {u}).groups[gid];
      assert Without(db1, gid, gone).groups == Without(db, gid, gone + {u}).groups;
    }
  }

  lemma EmptyOrFirst(us: seq<Str>)
    ensures us == [] || us[0] in us
  {
  }

  /** Departures by distinct members all succeed, and leave what their set determines. */
  lemma {:induction false} LeavesDetermined(db: Db, gid: Str, us: seq<Str>)
    requires Valid(db) && gid in db.groups && Distinct(us) && (forall u | u in us :: u in db.groups[gid].members)
    ensures LeaveAll(db, gid, us) == (Without(db, gid, set u | u in us), true)
    decreases |us|
  {
    hide Without, LeaveGroup, Valid;
    var all := set u | u in us;
    if us == [] {
      assert all == {};
      NobodyGone(db, gid);
    } else {
      var u, t := us[0], us[1..];
      var gone := set v | v in t;
      assert all == gone + {u} && u !in gone;
      LeaverLeaves(db, gid, u);
      forall v | v in t ensures v in db.groups[gid].members - {u} { assert v in us; }
      if db.groups[gid].members - {u} == {} {
        EmptyOrFirst(t);
        assert t == [] && gone == {} && all == {u};
        LastLeaves(db, gid, u);
      } else {
        WithoutStep(db, gid, u, gone);
        LeavesDetermined(LeaveGroup(db, gid, u).db, gid, t);
      }
    }
  }

  lemma NobodyGone(db: Db, gid: Str)
    requires Valid(db) && gid in db.groups
    ensures Without(db, gid, {}) == db
  {
    var g := db.groups[gid];
    assert ValidGroup(db.users.Keys, gid, g);
    assert g.members - {} == g.members && db.groups[gid := g] == db.groups;
  }

  lemma LeaverLeaves(db: Db, gid: Str, u: Str)
    requires Valid(db) && gid in db.groups && u in db.groups[gid].members
    ensures LeaveGroup(db, gid, u).st == ST_OK && Valid(LeaveGroup(db, gid, u).db)
  {
    assert ValidGroup(db.users.Keys, gid, db.groups[gid]);
    assert u in db.users;
    ExecValid(db, CmdLeaveGroup(gid, u));
  }

  lemma LastLeaves(db: Db, gid: Str, u: Str)
    requires Valid(db) && gid in db.groups && db.groups[gid].members - {u} == {} && u in db.groups[gid].members
    ensures LeaveGroup(db, gid, u) == Outcome(Without(db, gid, {u}), ST_OK)
  {
    var g := db.groups[gid];
    assert ValidGroup(db.users.Keys, gid, g);
    assert g.owner !in g.members - {u};
    assert u in db.users;
  }

  /** Any two orders of the same departures agree. */
  lemma HandoffOrderIndependent(db: Db, gid: Str, us: seq<Str>, vs: seq<Str>)
    requires Valid(db) && gid in db.groups && Distinct(us) && (forall u | u in us :: u in db.groups[gid].members)
    requires multiset(us) == multiset(vs)
    ensures LeaveAll(db, gid, us) == LeaveAll(db, gid, vs)
  {
    forall u ensures u in us <==> u in vs { assert u in multiset(us) <==> u in multiset(vs); }
    PermutationDistinct(us, vs);
    assert (set u | u in us) == (set u | u in vs);
    LeavesDetermined(db, gid, us);
    LeavesDetermined(db, gid, vs);
  }

  lemma {:induction false} DistinctCounts(us: seq<Str>, u: Str)
    requires Distinct(us)
    ensures multiset(us)[u] <= 1
  {
    if us != [] {
      assert us == [us[0]] + us[1..];
      DistinctCounts(us[1..], u);
      if u == us[0] { assert u !in us[1..]; }
    }
  }

  lemma RepeatCounts(vs: seq<Str>, i: nat, j: nat)
    requires i < j < |vs| && vs[i] == vs[j]
    ensures multiset(vs)[vs[i]] >= 2
  {
    assert vs == vs[..i] + [vs[i]] + vs[i + 1..j] + [vs[j]] + vs[j + 1..];
  }

  lemma PermutationDistinct(us: seq<Str>, vs: seq<Str>)
    requires Distinct(us) && multiset(us) == multiset(vs)
    ensures Distinct(vs)
  {
    forall i, j | 0 <= i < j < |vs| ensures vs[i] != vs[j] {
      if vs[i] == vs[j] {
        DistinctCounts(us, vs[i]);
        RepeatCounts(vs, i, j);
        assert false;
      }
    }
  }
}
