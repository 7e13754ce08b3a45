/**
 The byte-level dump of a whole database, `TrackerState::snapshot` and `restore`:
 the format, its round trip, and the rejection of every truncated dump.
 */
module Snapshot {
  import opened Bytes
  import opened Codec
  import opened Tracker

  // ----- the format ---------------------------------------------------------

  function EncUser(u: User): Str {
    EncStr(u.id) + (EncStr(u.password) + ([if u.online then 1 else 0] + (EncStr(u.ip) + EncU16(u.port))))
  }

  function EncPeer(p: PeerRef): Str {
    EncStr(p.userId) + (EncStr(p.ip) + (EncU16(p.port) + EncStr(p.bitfield)))
  }

  function EncFile(f: FileMeta): Str {
    EncStr(f.name) + (EncU64(f.size) + (EncStr(f.fileHash)
      + (EncCounted(f.pieceHashes, EncStr) + EncCounted(Values(f.seeders), EncPeer))))
  }

  function EncGroup(g: Group): Str {
    EncStr(g.id) + (EncStr(g.owner) + (EncCounted(SortedKeys(g.members), EncStr)
      + (EncCounted(SortedKeys(g.pending), EncStr) + EncCounted(Values(g.files), EncFile))))
  }

  function EncDb(db: Db): Str {
    EncCounted(Values(db.users), EncUser) + EncCounted(Values(db.groups), EncGroup)
  }

  // ----- the parser ---------------------------------------------------------

  function SetOf(xs: seq<Str>): set<Str> { set x | x in xs }

  function ParseUser(d: Str): Parsed<User> {
    var (id, d) :- ParseStr(d);
    var (password, d) :- ParseStr(d);
    var (online, d) :- ParseU8(d);
    var (ip, d) :- ParseStr(d);
    var (port, d) :- ParseU16(d);
    Got(User(id, password, online != 0, ip, port), d)
  }

  function ParsePeer(d: Str): Parsed<PeerRef> {
    var (id, d) :- ParseStr(d);
    var (ip, d) :- ParseStr(d);
    var (port, d) :- ParseU16(d);
    var (bitfield, d) :- ParseStr(d);
    Got(PeerRef(id, ip, port, bitfield), d)
  }

  function ParseFile(d: Str): Parsed<FileMeta> {
    var (name, d) :- ParseStr(d);
    var (size, d) :- ParseU64(d);
    var (hash, d) :- ParseStr(d);
    var (pieces, d) :- ParseCounted(ParseStr, d);
    var (peers, d) :- ParseCounted(ParsePeer, d);
    Got(FileMeta(name, size, hash, pieces, FromList(peers, PeerKey)), d)
  }

  function ParseGroup(d: Str): Parsed<Group> {
    var (id, d) :- ParseStr(d);
    var (owner, d) :- ParseStr(d);
    var (members, d) :- ParseCounted(ParseStr, d);
    var (pending, d) :- ParseCounted(ParseStr, d);
    var (files, d) :- ParseCounted(ParseFile, d);
    Got(Group(id, owner, SetOf(members), SetOf(pending), FromList(files, FileKey)), d)
  }

  function ParseDb(d: Str): Parsed<Db> {
    var (users, d) :- ParseCounted(ParseUser, d);
    var (groups, d) :- ParseCounted(ParseGroup, d);
    Got(Db(FromList(users, UserKey), FromList(groups, GroupKey)), d)
  }

  function UserKey(u: User): Str { u.id }
  function PeerKey(p: PeerRef): Str { p.userId }
  function FileKey(f: FileMeta): Str { f.name }
  function GroupKey(g: Group): Str { g.id }

  /** The database after `restore`: replaced by a readable dump, untouched by any other. */
  function Restored(db: Db, blob: Str): Db {
    match ParseDb(blob)
    case Got(loaded, _) => loaded
    case Fail => db
  }

  // ----- sizes that survive the 32-bit counts -------------------------------

  predicate Few(n: nat) { n < 0x1_0000_0000 }

  ghost predicate FitsUser(u: User) { Short(u.id) && Short(u.password) && Short(u.ip) }

  ghost predicate FitsPeer(p: PeerRef) { Short(p.userId) && Short(p.ip) && Short(p.bitfield) }

  ghost predicate FitsFile(f: FileMeta) {
    && Short(f.name) && Short(f.fileHash)
    && Few(|f.pieceHashes|) && (forall h | h in f.pieceHashes :: Short(h))
    && Few(|f.seeders.Keys|) && (forall u | u in f.seeders :: FitsPeer(f.seeders[u]))
  }

  ghost predicate FitsGroup(g: Group) {
    && Short(g.id) && Short(g.owner)
    && Few(|g.members|) && (forall m | m in g.members :: Short(m))
    && Few(|g.pending|) && (forall p | p in g.pending :: Short(p))
    && Few(|g.files.Keys|) && (forall n | n in g.files :: FitsFile(g.files[n]))
  }

  ghost predicate Fits(db: Db) {
    && Few(|db.users.Keys|) && (forall u | u in db.users :: FitsUser(db.users[u]))
    && Few(|db.groups.Keys|) && (forall g | g in db.groups :: FitsGroup(db.groups[g]))
  }

  // ----- round trip, level by level -----------------------------------------

  lemma RightNested4(a: Str, b: Str, c: Str, d: Str, r: Str)
    ensures a + (b + (c + d)) + r == a + (b + (c + (d + r)))
  {
    assert b + (c + d) + r == b + (c + (d + r)) by { assert c + d + r == c + (d + r); }
  }

  lemma RightNested5(a: Str, b: Str, c: Str, d: Str, e: Str, r: Str)
    ensures a + (b + (c + (d + e))) + r == a + (b + (c + (d + (e + r))))
  {
    RightNested4(b, c, d, e, r);
    assert a + (b + (c + (d + e))) + r == a + (b + (c + (d + e)) + r);
  }

  lemma StrInverts(s: Str)
    requires Short(s)
    ensures Inverts(s, EncStr, ParseStr)
  {
    forall r: Str ensures ParseStr(EncStr(s) + r) == Got(s, r) { StrExact(EncStr(s) + r, s, r); }
  }

  lemma StrsInvert(xs: seq<Str>, r: Str)
    requires Few(|xs|) && forall x | x in xs :: Short(x)
    ensures ParseCounted(ParseStr, EncCounted(xs, EncStr) + r) == Got(xs, r)
  {
    forall x | x in xs ensures Inverts(x, EncStr, ParseStr) { StrInverts(x); }
    CountedInverts(xs, EncStr, ParseStr, r);
  }

  lemma UserInverts(u: User)
    requires FitsUser(u)
    ensures Inverts(u, EncUser, ParseUser)
  {
    forall r: Str ensures ParseUser(EncUser(u) + r) == Got(u, r) {
      hide ParseStr, ParseU16, EncStr, EncU16;
      var on: Str := [if u.online then 1 else 0];
      var d5 := EncU16(u.port) + r;
      var d4 := EncStr(u.ip) + d5;
      var d3 := on + d4;
      var d2 := EncStr(u.password) + d3;
      RightNested5(EncStr(u.id), EncStr(u.password), on, EncStr(u.ip), EncU16(u.port), r);
      StrExact(EncStr(u.id) + d2, u.id, d2);
      StrExact(d2, u.password, d3);
      assert d3[0] == on[0] && d3[1..] == d4;
      StrExact(d4, u.ip, d5);
      U16Exact(d5, u.port, r);
    }
  }

  lemma PeerInverts(p: PeerRef)
    requires FitsPeer(p)
    ensures Inverts(p, EncPeer, ParsePeer)
  {
    forall r: Str ensures ParsePeer(EncPeer(p) + r) == Got(p, r) {
      hide ParseStr, ParseU16, EncStr, EncU16;
      var d4 := EncStr(p.bitfield) + r;
      var d3 := EncU16(p.port) + d4;
      var d2 := EncStr(p.ip) + d3;
      RightNested4(EncStr(p.userId), EncStr(p.ip), EncU16(p.port), EncStr(p.bitfield), r);
      StrExact(EncStr(p.userId) + d2, p.userId, d2);
      StrExact(d2, p.ip, d3);
      U16Exact(d3, p.port, d4);
      StrExact(d4, p.bitfield, r);
    }
  }

  /** Every listed value is one of the map's. */
  lemma ValuesAreValues<T>(m: map<Str, T>)
    ensures forall v | v in Values(m) :: exists k :: k in m && m[k] == v
  {
    var ks := SortedKeys(m.Keys);
    forall v | v in Values(m) ensures exists k :: k in m && m[k] == v {
      var i :| 0 <= i < |Values(m)| && Values(m)[i] == v;
      assert ks[i] in ks;
    }
  }

  lemma PeersInvert(m: map<Str, PeerRef>, r: Str)
    requires Few(|m.Keys|) && forall u | u in m :: FitsPeer(m[u]) && m[u].userId == u
    ensures var p := ParseCounted(ParsePeer, EncCounted(Values(m), EncPeer) + r);
      p.Got? && p.rest == r && FromList(p.value, PeerKey) == m
  {
    ValuesAreValues(m);
    forall p | p in Values(m) ensures Inverts(p, EncPeer, ParsePeer) { PeerInverts(p); }
    CountedInverts(Values(m), EncPeer, ParsePeer, r);
    FromListOfValues(m, PeerKey);
  }

  lemma FileInverts(users: set<Str>, n: Str, f: FileMeta)
    requires FitsFile(f) && ValidFile(users, n, f)
    ensures Inverts(f, EncFile, ParseFile)
  {
    forall r: Str ensures ParseFile(EncFile(f) + r) == Got(f, r) {
      hide ParseStr, ParseU64, EncStr, EncU64, ParseCounted, EncCounted, Values, FromList;
      var d5 := EncCounted(Values(f.seeders), EncPeer) + r;
      var d4 := EncCounted(f.pieceHashes, EncStr) + d5;
      var d3 := EncStr(f.fileHash) + d4;
      var d2 := EncU64(f.size) + d3;
      RightNested5(EncStr(f.name), EncU64(f.size), EncStr(f.fileHash),
        EncCounted(f.pieceHashes, EncStr), EncCounted(Values(f.seeders), EncPeer), r);
      StrExact(EncStr(f.name) + d2, f.name, d2);
      U64Exact(d2, f.size, d3);
      StrExact(d3, f.fileHash, d4);
      StrsInvert(f.pieceHashes, d5);
      PeersInvert(f.seeders, r);
    }
  }

  lemma FilesInvert(users: set<Str>, m: map<Str, FileMeta>, r: Str)
    requires Few(|m.Keys|) && forall n | n in m :: FitsFile(m[n]) && ValidFile(users, n, m[n])
    ensures var p := ParseCounted(ParseFile, EncCounted(Values(m), EncFile) + r);
      p.Got? && p.rest == r && FromList(p.value, FileKey) == m
  {
    ValuesAreValues(m);
    forall f | f in Values(m) ensures Inverts(f, EncFile, ParseFile) {
      var n :| n in m && m[n] == f;
      FileInverts(users, n, f);
    }
    CountedInverts(Values(m), EncFile, ParseFile, r);
    FromListOfValues(m, FileKey);
  }

  lemma SortedKeysShort(s: set<Str>, r: Str)
    requires Few(|s|) && forall k | k in s :: Short(k)
    ensures var p := ParseCounted(ParseStr, EncCounted(SortedKeys(s), EncStr) + r);
      p.Got? && p.rest == r && SetOf(p.value) == s
  {
    hide EncCounted, ParseCounted, SortedKeys;
    StrsInvert(SortedKeys(s), r);
    assert SetOf(SortedKeys(s)) == s;
  }

  lemma GroupInverts(users: set<Str>, gid: Str, g: Group)
    requires FitsGroup(g) && ValidGroup(users, gid, g)
    ensures Inverts(g, EncGroup, ParseGroup)
  {
    forall r: Str ensures ParseGroup(EncGroup(g) + r) == Got(g, r) {
      hide ParseStr, EncStr, ParseCounted, EncCounted, Values, FromList, SortedKeys, SetOf;
      var d5 := EncCounted(Values(g.files), EncFile) + r;
      var d4 := EncCounted(SortedKeys(g.pending), EncStr) + d5;
      var d3 := EncCounted(SortedKeys(g.members), EncStr) + d4;
      var d2 := EncStr(g.owner) + d3;
      RightNested5(EncStr(g.id), EncStr(g.owner), EncCounted(SortedKeys(g.members), EncStr),
        EncCounted(SortedKeys(g.pending), EncStr), EncCounted(Values(g.files), EncFile), r);
      StrExact(EncStr(g.id) + d2, g.id, d2);
      StrExact(d2, g.owner, d3);
      SortedKeysShort(g.members, d4);
      SortedKeysShort(g.pending, d5);
      FilesInvert(users, g.files, r);
    }
  }

  /** Restoring a snapshot consumes it exactly and rebuilds the very database it was taken of. */
  lemma RoundTrip(db: Db, r: Str)
    requires Valid(db) && Fits(db)
    ensures ParseDb(EncDb(db) + r) == Got(db, r)
  {
    hide Fits, Valid, EncCounted, ParseCounted, Values, FromList;
    var d2 := EncCounted(Values(db.groups), EncGroup) + r;
    assert EncDb(db) + r == EncCounted(Values(db.users), EncUser) + d2;
    UsersInvert(db, d2);
    GroupsInvert(db, r);
  }

  lemma UsersInvert(db: Db, r: Str)
    requires Valid(db) && Fits(db)
    ensures var p := ParseCounted(ParseUser, EncCounted(Values(db.users), EncUser) + r);
      p.Got? && p.rest == r && FromList(p.value, UserKey) == db.users
  {
    hide EncCounted, ParseCounted, Values, FromList, FitsUser, ValidGroup, FitsGroup;
    ValuesAreValues(db.users);
    forall u | u in Values(db.users) ensures Inverts(u, EncUser, ParseUser) { UserInverts(u); }
    CountOfValues(db.users);
    CountedInverts(Values(db.users), EncUser, ParseUser, r);
    FromListOfValues(db.users, UserKey);
  }

  lemma GroupsInvert(db: Db, r: Str)
    requires Valid(db) && Fits(db)
    ensures var p := ParseCounted(ParseGroup, EncCounted(Values(db.groups), EncGroup) + r);
      p.Got? && p.rest == r && FromList(p.value, GroupKey) == db.groups
  {
    hide EncCounted, ParseCounted, Values, FromList, FitsUser, FitsGroup;
    ValuesAreValues(db.groups);
    forall g | g in Values(db.groups) ensures Inverts(g, EncGroup, ParseGroup) {
      var gid :| gid in db.groups && db.groups[gid] == g;
      GroupInverts(db.users.Keys, gid, g);
    }
    CountOfValues(db.groups);
    forall g | g in db.groups ensures GroupKey(db.groups[g]) == g { assert ValidGroup(db.users.Keys, g, db.groups[g]); }
    CountedInverts(Values(db.groups), EncGroup, ParseGroup, r);
    FromListOfValues(db.groups, GroupKey);
  }

  lemma CountOfValues<T>(m: map<Str, T>)
    ensures |Values(m)| == |m.Keys|
  {
  }

  lemma RestoredFromSnapshot(db: Db, before: Db)
    requires Valid(db) && Fits(db)
    ensures Restored(before, EncDb(db)) == db
  {
    RoundTrip(db, []);
    assert EncDb(db) + [] == EncDb(db);
  }

  lemma SnapshotInjective(a: Db, b: Db)
    requires Valid(a) && Fits(a) && Valid(b) && Fits(b) && EncDb(a) == EncDb(b)
    ensures a == b
  {
    RoundTrip(a, []);
    RoundTrip(b, []);
  }

  // ----- truncation ---------------------------------------------------------

  lemma ParseStrMonotone()
    ensures Monotone(ParseStr)
  {
    forall d: Str, e: Str | ParseStr(d).Got? ensures ParseStr(d + e) == Got(ParseStr(d).value, ParseStr(d).rest + e) {
      StrMonotone(d, e);
    }
  }

  lemma ParseUserMonotone()
    ensures Monotone(ParseUser)
  {
    forall d: Str, e: Str | ParseUser(d).Got?
      ensures ParseUser(d + e) == Got(ParseUser(d).value, ParseUser(d).rest + e)
    {
      hide ParseStr, ParseU8, ParseU16;
      var p1 := ParseStr(d);
      StrMonotone(d, e);
      var p2 := ParseStr(p1.rest);
      StrMonotone(p1.rest, e);
      var p3 := ParseU8(p2.rest);
      U8Monotone(p2.rest, e);
      var p4 := ParseStr(p3.rest);
      StrMonotone(p3.rest, e);
      U16Monotone(p4.rest, e);
    }
  }

  lemma ParsePeerMonotone()
    ensures Monotone(ParsePeer)
  {
    forall d: Str, e: Str | ParsePeer(d).Got?
      ensures ParsePeer(d + e) == Got(ParsePeer(d).value, ParsePeer(d).rest + e)
    {
      hide ParseStr, ParseU16;
      var p1 := ParseStr(d);
      StrMonotone(d, e);
      var p2 := ParseStr(p1.rest);
      StrMonotone(p1.rest, e);
      var p3 := ParseU16(p2.rest);
      U16Monotone(p2.rest, e);
      StrMonotone(p3.rest, e);
    }
  }

  lemma ParseFileMonotone()
    ensures Monotone(ParseFile)
  {
    ParseStrMonotone();
    ParsePeerMonotone();
    forall d: Str, e: Str | ParseFile(d).Got?
      ensures ParseFile(d + e) == Got(ParseFile(d).value, ParseFile(d).rest + e)
    {
      hide ParseStr, ParseU64, ParseCounted, Monotone;
      var p1 := ParseStr(d);
      StrMonotone(d, e);
      var p2 := ParseU64(p1.rest);
      U64Monotone(p1.rest, e);
      var p3 := ParseStr(p2.rest);
      StrMonotone(p2.rest, e);
      var p4 := ParseCounted(ParseStr, p3.rest);
      CountedMonotone(ParseStr, p3.rest, e);
      CountedMonotone(ParsePeer, p4.rest, e);
    }
  }

  lemma ParseGroupMonotone()
    ensures Monotone(ParseGroup)
  {
    ParseStrMonotone();
    ParseFileMonotone();
    forall d: Str, e: Str | ParseGroup(d).Got?
      ensures ParseGroup(d + e) == Got(ParseGroup(d).value, ParseGroup(d).rest + e)
    {
      hide ParseStr, ParseCounted, Monotone;
      var p1 := ParseStr(d);
      StrMonotone(d, e);
      var p2 := ParseStr(p1.rest);
      StrMonotone(p1.rest, e);
      var p3 := ParseCounted(ParseStr, p2.rest);
      CountedMonotone(ParseStr, p2.rest, e);
      var p4 := ParseCounted(ParseStr, p3.rest);
      CountedMonotone(ParseStr, p3.rest, e);
      CountedMonotone(ParseFile, p4.rest, e);
    }
  }

  /** Whatever a dump says, more bytes after it cannot change how it reads. */
  lemma ParseDbMonotone(d: Str, e: Str)
    requires ParseDb(d).Got?
    ensures ParseDb(d + e) == Got(ParseDb(d).value, ParseDb(d).rest + e)
  {
    ParseUserMonotone();
    ParseGroupMonotone();
    hide ParseCounted, Monotone;
    var p1 := ParseCounted(ParseUser, d);
    CountedMonotone(ParseUser, d, e);
    CountedMonotone(ParseGroup, p1.rest, e);
  }

  /** Every strict prefix of a snapshot is rejected, and a rejected dump changes nothing. */
  lemma TruncationRejected(db: Db, n: nat, before: Db)
    requires Valid(db) && Fits(db) && n < |EncDb(db)|
    ensures ParseDb(EncDb(db)[..n]).Fail?
    ensures Restored(before, EncDb(db)[..n]) == before
  {
    var d, e := EncDb(db)[..n], EncDb(db)[n..];
    assert d + e == EncDb(db) == EncDb(db) + [];
    RoundTrip(db, []);
    if ParseDb(d).Got? {
      ParseDbMonotone(d, e);
      assert false;
    }
  }
}
