/**
 The tracker's state class, tracker/tracker_state.cpp, in the form it has there:
 two maps updated in place, every method proved against its function in Tracker.dfy
 or Snapshot.dfy.
 */
module TrackerState {
  import opened Bytes
  import opened Codec
  import opened Tracker
  import opened Snapshot
  import Sha1

  class TrackerState {
    var users: map<Str, User>
    var groups: map<Str, Group>

    ghost function Contents(): Db
      reads this
    {
      Db(users, groups)
    }

    constructor ()
      ensures Contents() == EmptyDb
    {
      users, groups := map[], map[];
    }

    method CreateUser(uid: Str, pwd: Str) returns (st: Status)
      modifies this
      ensures Outcome(Contents(), st) == Tracker.CreateUser(old(Contents()), uid, pwd)
    {
      if uid == [] || pwd == [] { return ST_MALFORMED; }
      if uid in users { return ST_ALREADY_EXISTS; }
      var hash := Sha1.HashBuffer(pwd);
      users := users[uid := User(uid, hash, false, [], 0)];
      st := ST_OK;
    }

    method Login(uid: Str, pwd: Str, ip: Str, port: U16) returns (st: Status)
      modifies this
      ensures Outcome(Contents(), st) == Tracker.Login(old(Contents()), uid, pwd, ip, port)
    {
      if uid !in users { return ST_NOT_FOUND; }
      var u := users[uid];
      var hash := Sha1.HashBuffer(pwd);
      if u.password != hash { return ST_BAD_CREDENTIALS; }
      u := u.(online := true);
      u := u.(ip := ip);
      u := u.(port := port);
      users := users[uid := u];
      st := ST_OK;
    }

    method Logout(uid: Str) returns (st: Status)
      modifies this
      ensures Outcome(Contents(), st) == Tracker.Logout(old(Contents()), uid)
    {
      if uid !in users { return ST_NOT_FOUND; }
      users := users[uid := users[uid].(online := false)];
      groups := EvictAll(groups, uid);
      st := ST_OK;
    }

    /** The outer loop of `logout`: every group in turn, in key order. */
    static method EvictAll(groups: map<Str, Group>, uid: Str) returns (r: map<Str, Group>)
      ensures r == EvictFromGroups(groups, uid)
    {
      hide Least, IsLeast, EvictFromFiles;
      r := groups;
      var left := groups.Keys;
      while left != {}
        invariant left <= groups.Keys == r.Keys
        invariant forall g | g in groups :: r[g] == if g in left then groups[g] else EvictFromGroup(groups[g], uid)
      {
        var gid := NextKey(left);
        var files := EvictFiles(r[gid].files, uid);
        r := r[gid := r[gid].(files := files)];
        left := left - {gid};
      }
    }

    /** The inner loop of `logout`: erase one user from the seeders of each file. */
    static method EvictFiles(files: map<Str, FileMeta>, uid: Str) returns (r: map<Str, FileMeta>)
      ensures r == EvictFromFiles(files, uid)
    {
      hide Least, IsLeast;
      r := files;
      var left := files.Keys;
      while left != {}
        invariant left <= files.Keys == r.Keys
        invariant forall n | n in files :: r[n] == if n in left then files[n] else Evict(files[n], uid)
      {
        var name := NextKey(left);
        r := r[name := r[name].(seeders := r[name].seeders - {uid})];
        left := left - {name};
      }
    }

    /** Where the iterator of a `std::map` stands when these keys are still to come. */
    static function NextKey(left: set<Str>): (k: Str)
      requires left != {}
      ensures k in left
    {
      Least(left)
    }

    method Empty() returns (b: bool)
      ensures b == IsEmpty(Contents())
    {
      b := |users| == 0 && |groups| == 0;
    }

    method CreateGroup(gid: Str, owner: Str) returns (st: Status)
      modifies this
      ensures Outcome(Contents(), st) == Tracker.CreateGroup(old(Contents()), gid, owner)
    {
      if gid == [] || owner == [] { return ST_MALFORMED; }
      if owner !in users { return ST_NOT_FOUND; }
      if gid in groups { return ST_ALREADY_EXISTS; }
      var grp := Group(gid, owner, {}, {}, map[]);
      grp := grp.(members := grp.members + {owner});
      assert grp == Group(gid, owner, {owner}, {}, map[]);
      groups := groups[gid := grp];
      st := ST_OK;
    }

    method JoinGroup(gid: Str, uid: Str) returns (st: Status)
      modifies this
      ensures Outcome(Contents(), st) == Tracker.JoinGroup(old(Contents()), gid, uid)
    {
      if gid == [] || uid == [] { return ST_MALFORMED; }
      if gid !in groups { return ST_NOT_FOUND; }
      if uid !in users { return ST_NOT_FOUND; }
      var grp := groups[gid];
      if uid in grp.members || uid in grp.pending { return ST_ALREADY_EXISTS; }
      groups := groups[gid := grp.(pending := grp.pending + {uid})];
      st := ST_OK;
    }

    method LeaveGroup(gid: Str, uid: Str) returns (st: Status)
      modifies this
      ensures Outcome(Contents(), st) == Tracker.LeaveGroup(old(Contents()), gid, uid)
    {
      if gid == [] || uid == [] { return ST_MALFORMED; }
      if gid !in groups { return ST_NOT_FOUND; }
      var grp := groups[gid];
      if uid !in grp.members { return ST_NOT_MEMBER; }
      grp := grp.(members := grp.members - {uid});
      groups := groups[gid := grp];
      if uid == grp.owner {
        if grp.members == {} {
          groups := groups - {gid};
          assert groups == old(groups) - {gid};
        } else {
          groups := groups[gid := grp.(owner := Least(grp.members))];
        }
      }
      st := ST_OK;
    }

    method AcceptRequest(gid: Str, owner: Str, uid: Str) returns (st: Status)
      modifies this
      ensures Outcome(Contents(), st) == Tracker.AcceptRequest(old(Contents()), gid, owner, uid)
    {
      if gid == [] || owner == [] || uid == [] { return ST_MALFORMED; }
      if gid !in groups { return ST_NOT_FOUND; }
      var grp := groups[gid];
      if grp.owner != owner { return ST_NOT_OWNER; }
      if uid !in grp.pending { return ST_NOT_FOUND; }
      grp := grp.(pending := grp.pending - {uid});
      grp := grp.(members := grp.members + {uid});
      groups := groups[gid := grp];
      st := ST_OK;
    }

    method AddFile(gid: Str, uid: Str, ip: Str, port: U16, meta: FileMeta) returns (st: Status)
      modifies this
      ensures Outcome(Contents(), st) == Tracker.AddFile(old(Contents()), gid, uid, ip, port, meta)
    {
      if gid == [] || uid == [] || meta.name == [] { return ST_MALFORMED; }
      if gid !in groups { return ST_NOT_FOUND; }
      var grp := groups[gid];
      if uid !in grp.members { return ST_NOT_MEMBER; }
      var pr := PeerRef(uid, ip, port, seq((|meta.pieceHashes| + 7) / 8, _ => 0xFF));
      assert pr.bitfield == AllBits(|meta.pieceHashes|);
      if meta.name in grp.files {
        var fit := grp.files[meta.name];
        if fit.fileHash != meta.fileHash { return ST_ALREADY_EXISTS; }
        fit := fit.(seeders := fit.seeders[uid := pr]);
        groups := groups[gid := grp.(files := grp.files[meta.name := fit])];
        return ST_OK;
      }
      var fm := meta.(seeders := map[]);
      fm := fm.(seeders := fm.seeders[uid := pr]);
      assert fm == meta.(seeders := map[uid := pr]);
      groups := groups[gid := grp.(files := grp.files[meta.name := fm])];
      st := ST_OK;
    }

    method StopShare(gid: Str, uid: Str, fname: Str) returns (st: Status)
      modifies this
      ensures Outcome(Contents(), st) == Tracker.StopShare(old(Contents()), gid, uid, fname)
    {
      if gid == [] || uid == [] || fname == [] { return ST_MALFORMED; }
      if gid !in groups { return ST_NOT_FOUND; }
      var grp := groups[gid];
      if fname !in grp.files { return ST_NOT_FOUND; }
      var f := grp.files[fname];
      if uid !in f.seeders { return ST_NOT_FOUND; }
      f := f.(seeders := f.seeders - {uid});
      groups := groups[gid := grp.(files := grp.files[fname := f])];
      st := ST_OK;
    }

    method UpdateBitfield(gid: Str, uid: Str, ip: Str, port: U16, fname: Str, bits: Str) returns (st: Status)
      modifies this
      ensures Outcome(Contents(), st) == Tracker.UpdateBitfield(old(Contents()), gid, uid, ip, port, fname, bits)
    {
      if gid == [] || uid == [] || fname == [] { return ST_MALFORMED; }
      if gid !in groups { return ST_NOT_FOUND; }
      var grp := groups[gid];
      if uid !in grp.members { return ST_NOT_MEMBER; }
      if fname !in grp.files { return ST_NOT_FOUND; }
      var f := grp.files[fname];
      var pr := if uid in f.seeders then f.seeders[uid] else PeerRef([], [], 0, []);
      pr := pr.(userId := uid);
      pr := pr.(ip := ip);
      pr := pr.(port := port);
      pr := pr.(bitfield := bits);
      f := f.(seeders := f.seeders[uid := pr]);
      groups := groups[gid := grp.(files := grp.files[fname := f])];
      st := ST_OK;
    }

    // ----- queries ----------------------------------------------------------

    method ListRequests(gid: Str, owner: Str) returns (st: Status, out: seq<Str>)
      ensures var a := Tracker.ListRequests(Contents(), gid, owner); st == a.st && out == SortedKeys(a.value)
    {
      assert SortedKeys({}) == [];
      if gid == [] || owner == [] { return ST_MALFORMED, []; }
      if gid !in groups { return ST_NOT_FOUND, []; }
      if groups[gid].owner != owner { return ST_NOT_OWNER, []; }
      return ST_OK, SortedKeys(groups[gid].pending);
    }

    method ListFiles(gid: Str, uid: Str) returns (st: Status, out: seq<Str>)
      ensures var a := Tracker.ListFiles(Contents(), gid, uid); st == a.st && out == SortedKeys(a.value)
    {
      assert SortedKeys({}) == [];
      if gid == [] || uid == [] { return ST_MALFORMED, []; }
      if gid !in groups { return ST_NOT_FOUND, []; }
      if uid !in groups[gid].members { return ST_NOT_MEMBER, []; }
      return ST_OK, SortedKeys(groups[gid].files.Keys);
    }

    method GetFile(gid: Str, uid: Str, fname: Str) returns (st: Status, out: Option<FileMeta>)
      ensures Answer(st, out) == Tracker.GetFile(Contents(), gid, uid, fname)
    {
      if gid == [] || uid == [] || fname == [] { return ST_MALFORMED, None; }
      if gid !in groups { return ST_NOT_FOUND, None; }
      if uid !in groups[gid].members { return ST_NOT_MEMBER, None; }
      if fname !in groups[gid].files { return ST_NOT_FOUND, None; }
      return ST_OK, Some(groups[gid].files[fname]);
    }

    // ----- snapshot ---------------------------------------------------------

    method Snapshot() returns (blob: Str)
      ensures blob == EncDb(Contents())
    {
      hide EncCounted, Values;
      var out := new Buffer();
      PutUsers(out, users);
      PutGroups(out, groups);
      blob := out.data;
      assert blob == EncDb(Contents());
    }

    static method PutStrs(out: Buffer, xs: seq<Str>)
      modifies out
      ensures out.data == old(out.data) + EncCounted(xs, EncStr)
    {
      hide EncStr, EncU32;
      out.PutU32(|xs|);
      ghost var head := out.data;
      for i := 0 to |xs|
        invariant out.data == head + EncList(xs[..i], EncStr)
      {
        out.PutStr(xs[i]);
        EncListSnoc(xs[..i], xs[i], EncStr);
        assert xs[..i + 1] == xs[..i] + [xs[i]];
      }
      assert xs[..|xs|] == xs;
    }

    static lemma LeftNested5(p: Str, a: Str, b: Str, c: Str, d: Str, e: Str)
      ensures p + a + b + c + d + e == p + (a + (b + (c + (d + e))))
    {
      assert p + a + b + c + d + e == p + a + b + c + (d + e);
      assert p + a + b + c + (d + e) == p + a + b + (c + (d + e));
      assert p + a + b + (c + (d + e)) == p + a + (b + (c + (d + e)));
    }

    static method PutUser(out: Buffer, u: User)
      modifies out
      ensures out.data == old(out.data) + EncUser(u)
    {
      hide EncStr, EncU16;
      ghost var before := out.data;
      out.PutStr(u.id);
      out.PutStr(u.password);
      out.PutU8(if u.online then 1 else 0);
      out.PutStr(u.ip);
      out.PutU16(u.port);
      LeftNested5(before, EncStr(u.id), EncStr(u.password), [if u.online then 1 else 0], EncStr(u.ip), EncU16(u.port));
    }

    static method PutPeer(out: Buffer, p: PeerRef)
      modifies out
      ensures out.data == old(out.data) + EncPeer(p)
    {
      hide EncU16, EncU32;
      ghost var before := out.data;
      out.PutStr(p.userId);
      out.PutStr(p.ip);
      out.PutU16(p.port);
      out.PutU32(|p.bitfield|);
      out.PutRaw(p.bitfield);
      LeftNested5(before, EncStr(p.userId), EncStr(p.ip), EncU16(p.port), EncU32(|p.bitfield|), p.bitfield);
    }

    static method PutFile(out: Buffer, f: FileMeta)
      modifies out
      ensures out.data == old(out.data) + EncFile(f)
    {
      hide EncStr, EncU64, EncCounted, Values;
      ghost var before := out.data;
      out.PutStr(f.name);
      out.PutU64(f.size);
      out.PutStr(f.fileHash);
      PutStrs(out, f.pieceHashes);
      PutPeers(out, f.seeders);
      LeftNested5(before, EncStr(f.name), EncU64(f.size), EncStr(f.fileHash),
        EncCounted(f.pieceHashes, EncStr), EncCounted(Values(f.seeders), EncPeer));
    }

    static method PutGroup(out: Buffer, g: Group)
      modifies out
      ensures out.data == old(out.data) + EncGroup(g)
    {
      hide EncStr, EncCounted, Values, SortedKeys;
      ghost var before := out.data;
      out.PutStr(g.id);
      out.PutStr(g.owner);
      PutStrs(out, SortedKeys(g.members));
      PutStrs(out, SortedKeys(g.pending));
      PutFiles(out, g.files);
      LeftNested5(before, EncStr(g.id), EncStr(g.owner), EncCounted(SortedKeys(g.members), EncStr),
        EncCounted(SortedKeys(g.pending), EncStr), EncCounted(Values(g.files), EncFile));
    }

    static method PutUsers(out: Buffer, users: map<Str, User>)
      modifies out
      ensures out.data == old(out.data) + EncCounted(Values(users), EncUser)
    {
      hide EncU32, EncUser, Values;
      var vs := Values(users);
      out.PutU32(|vs|);
      ghost var head := out.data;
      for i := 0 to |vs|
        invariant out.data == head + EncList(vs[..i], EncUser)
      {
        PutUser(out, vs[i]);
        EncListSnoc(vs[..i], vs[i], EncUser);
        assert vs[..i + 1] == vs[..i] + [vs[i]];
      }
      assert vs[..|vs|] == vs;
    }

    static method PutPeers(out: Buffer, seeders: map<Str, PeerRef>)
      modifies out
      ensures out.data == old(out.data) + EncCounted(Values(seeders), EncPeer)
    {
      hide EncU32, EncPeer, Values;
      var vs := Values(seeders);
      out.PutU32(|vs|);
      ghost var head := out.data;
      for i := 0 to |vs|
        invariant out.data == head + EncList(vs[..i], EncPeer)
      {
        PutPeer(out, vs[i]);
        EncListSnoc(vs[..i], vs[i], EncPeer);
        assert vs[..i + 1] == vs[..i] + [vs[i]];
      }
      assert vs[..|vs|] == vs;
    }

    static method PutFiles(out: Buffer, files: map<Str, FileMeta>)
      modifies out
      ensures out.data == old(out.data) + EncCounted(Values(files), EncFile)
    {
      hide EncU32, EncFile, Values;
      var vs := Values(files);
      out.PutU32(|vs|);
      ghost var head := out.data;
      for i := 0 to |vs|
        invariant out.data == head + EncList(vs[..i], EncFile)
      {
        PutFile(out, vs[i]);
        EncListSnoc(vs[..i], vs[i], EncFile);
        assert vs[..i + 1] == vs[..i] + [vs[i]];
      }
      assert vs[..|vs|] == vs;
    }

    static method PutGroups(out: Buffer, groups: map<Str, Group>)
      modifies out
      ensures out.data == old(out.data) + EncCounted(Values(groups), EncGroup)
    {
      hide EncU32, EncGroup, Values;
      var vs := Values(groups);
      out.PutU32(|vs|);
      ghost var head := out.data;
      for i := 0 to |vs|
        invariant out.data == head + EncList(vs[..i], EncGroup)
      {
        PutGroup(out, vs[i]);
        EncListSnoc(vs[..i], vs[i], EncGroup);
        assert vs[..i + 1] == vs[..i] + [vs[i]];
      }
      assert vs[..|vs|] == vs;
    }

    // ----- restore ----------------------------------------------------------

    /** Parses into fresh maps first, so a bad dump leaves the state as it was. */
    method Restore(blob: Str) returns (ok: bool)
      modifies this
      ensures ok == ParseDb(blob).Got?
      ensures Contents() == Restored(old(Contents()), blob)
    {
      var inp := new Buffer.From(blob);
      var us, gs;
      ok, us := GetUsers(inp);
      if !ok { return; }
      ok, gs := GetGroups(inp);
      if !ok { return; }
      users, groups := us, gs;
    }

    static method GetStrs(inp: Buffer) returns (ok: bool, xs: seq<Str>)
      requires inp.Valid()
      modifies inp
      ensures inp.Valid() && inp.data == old(inp.data)
      ensures ok == ParseCounted(ParseStr, old(inp.Rest())).Got?
      ensures ok ==> Got(xs, inp.Rest()) == ParseCounted(ParseStr, old(inp.Rest()))
    {
      hide ParseStr, ParseU32;
      xs := [];
      var n;
      ok, n := inp.GetU32();
      if !ok { return; }
      ghost var d := inp.Rest();
      for i := 0 to n
        invariant inp.Valid() && inp.data == old(inp.data)
        invariant Got(xs, inp.Rest()) == ParseList(i, ParseStr, d)
      {
        ParseListSnoc(i, ParseStr, d);
        var x;
        ok, x := inp.GetStr();
        if !ok { ParseListFails(i + 1, n - (i + 1), ParseStr, d); return; }
        xs := xs + [x];
      }
      ok := true;
    }

    static method GetUsers(inp: Buffer) returns (ok: bool, users: map<Str, User>)
      requires inp.Valid()
      modifies inp
      ensures inp.Valid()
      ensures var p := ParseCounted(ParseUser, old(inp.Rest()));
        ok == p.Got? && (ok ==> users == FromList(p.value, UserKey) && inp.Rest() == p.rest)
    {
      hide ParseUser, ParseU32;
      users := map[];
      var n;
      ok, n := inp.GetU32();
      if !ok { return; }
      ghost var d := inp.Rest();
      ghost var xs: seq<User> := [];
      for i := 0 to n
        invariant inp.Valid() && users == FromList(xs, UserKey)
        invariant Got(xs, inp.Rest()) == ParseList(i, ParseUser, d)
      {
        ParseListSnoc(i, ParseUser, d);
        var u;
        ok, u := GetUser(inp);
        if !ok { ParseListFails(i + 1, n - (i + 1), ParseUser, d); return; }
        users := users[u.id := u];
        FromListSnoc(xs, u, UserKey);
        xs := xs + [u];
      }
      ok := true;
    }

    static method GetUser(inp: Buffer) returns (ok: bool, u: User)
      requires inp.Valid()
      modifies inp
      ensures inp.Valid()
      ensures ok == ParseUser(old(inp.Rest())).Got?
      ensures ok ==> Got(u, inp.Rest()) == ParseUser(old(inp.Rest()))
    {
      hide ParseStr, ParseU8, ParseU16;
      u := User([], [], false, [], 0);
      var id, password, online, ip, port;
      ok, id := inp.GetStr();
      if !ok { return; }
      ok, password := inp.GetStr();
      if !ok { return; }
      ok, online := inp.GetU8();
      if !ok { return; }
      ok, ip := inp.GetStr();
      if !ok { return; }
      ok, port := inp.GetU16();
      if !ok { return; }
      u := User(id, password, online != 0, ip, port);
    }

    static method GetPeer(inp: Buffer) returns (ok: bool, p: PeerRef)
      requires inp.Valid()
      modifies inp
      ensures inp.Valid()
      ensures ok == ParsePeer(old(inp.Rest())).Got?
      ensures ok ==> Got(p, inp.Rest()) == ParsePeer(old(inp.Rest()))
    {
      hide ParseU16, ParseU32, ParseRaw;
      p := PeerRef([], [], 0, []);
      var id, ip, port, nbits, bits;
      ok, id := inp.GetStr();
      if !ok { return; }
      ok, ip := inp.GetStr();
      if !ok { return; }
      ok, port := inp.GetU16();
      if !ok { return; }
      ok, nbits := inp.GetU32();
      if !ok { return; }
      ok, bits := inp.GetRaw(nbits);
      if !ok { return; }
      p := PeerRef(id, ip, port, bits);
    }

    static method GetPeers(inp: Buffer) returns (ok: bool, seeders: map<Str, PeerRef>)
      requires inp.Valid()
      modifies inp
      ensures inp.Valid()
      ensures var p := ParseCounted(ParsePeer, old(inp.Rest()));
        ok == p.Got? && (ok ==> seeders == FromList(p.value, PeerKey) && inp.Rest() == p.rest)
    {
      hide ParsePeer, ParseU32;
      seeders := map[];
      var n;
      ok, n := inp.GetU32();
      if !ok { return; }
      ghost var d := inp.Rest();
      ghost var xs: seq<PeerRef> := [];
      for i := 0 to n
        invariant inp.Valid() && seeders == FromList(xs, PeerKey)
        invariant Got(xs, inp.Rest()) == ParseList(i, ParsePeer, d)
      {
        ParseListSnoc(i, ParsePeer, d);
        var p;
        ok, p := GetPeer(inp);
        if !ok { ParseListFails(i + 1, n - (i + 1), ParsePeer, d); return; }
        seeders := seeders[p.userId := p];
        FromListSnoc(xs, p, PeerKey);
        xs := xs + [p];
      }
      ok := true;
    }

    static method GetFileRecord(inp: Buffer) returns (ok: bool, f: FileMeta)
      requires inp.Valid()
      modifies inp
      ensures inp.Valid()
      ensures ok == ParseFile(old(inp.Rest())).Got?
      ensures ok ==> Got(f, inp.Rest()) == ParseFile(old(inp.Rest()))
    {
      hide ParseStr, ParseU64, ParseCounted, FromList;
      f := FileMeta([], 0, [], [], map[]);
      var name, size, hash, pieces, seeders;
      ok, name := inp.GetStr();
      if !ok { return; }
      ok, size := inp.GetU64();
      if !ok { return; }
      ok, hash := inp.GetStr();
      if !ok { return; }
      ok, pieces := GetStrs(inp);
      if !ok { return; }
      ok, seeders := GetPeers(inp);
      if !ok { return; }
      f := FileMeta(name, size, hash, pieces, seeders);
    }

    static method GetFiles(inp: Buffer) returns (ok: bool, files: map<Str, FileMeta>)
      requires inp.Valid()
      modifies inp
      ensures inp.Valid()
      ensures var p := ParseCounted(ParseFile, old(inp.Rest()));
        ok == p.Got? && (ok ==> files == FromList(p.value, FileKey) && inp.Rest() == p.rest)
    {
      hide ParseFile, ParseU32;
      files := map[];
      var n;
      ok, n := inp.GetU32();
      if !ok { return; }
      ghost var d := inp.Rest();
      ghost var xs: seq<FileMeta> := [];
      for i := 0 to n
        invariant inp.Valid() && files == FromList(xs, FileKey)
        invariant Got(xs, inp.Rest()) == ParseList(i, ParseFile, d)
      {
        ParseListSnoc(i, ParseFile, d);
        var f;
        ok, f := GetFileRecord(inp);
        if !ok { ParseListFails(i + 1, n - (i + 1), ParseFile, d); return; }
        files := files[f.name := f];
        FromListSnoc(xs, f, FileKey);
        xs := xs + [f];
      }
      ok := true;
    }

    static method GetGroup(inp: Buffer) returns (ok: bool, g: Group)
      requires inp.Valid()
      modifies inp
      ensures inp.Valid()
      ensures ok == ParseGroup(old(inp.Rest())).Got?
      ensures ok ==> Got(g, inp.Rest()) == ParseGroup(old(inp.Rest()))
    {
      hide ParseStr, ParseCounted, FromList;
      g := Group([], [], {}, {}, map[]);
      var id, owner, members, pending, files;
      ok, id := inp.GetStr();
      if !ok { return; }
      ok, owner := inp.GetStr();
      if !ok { return; }
      ok, members := GetStrs(inp);
      if !ok { return; }
      ok, pending := GetStrs(inp);
      if !ok { return; }
      ok, files := GetFiles(inp);
      if !ok { return; }
      g := Group(id, owner, (set m | m in members), (set p | p in pending), files);
    }

    static method GetGroups(inp: Buffer) returns (ok: bool, groups: map<Str, Group>)
      requires inp.Valid()
      modifies inp
      ensures inp.Valid()
      ensures var p := ParseCounted(ParseGroup, old(inp.Rest()));
        ok == p.Got? && (ok ==> groups == FromList(p.value, GroupKey) && inp.Rest() == p.rest)
    {
      hide ParseGroup, ParseU32;
      groups := map[];
      var n;
      ok, n := inp.GetU32();
      if !ok { return; }
      ghost var d := inp.Rest();
      ghost var xs: seq<Group> := [];
      for i := 0 to n
        invariant inp.Valid() && groups == FromList(xs, GroupKey)
        invariant Got(xs, inp.Rest()) == ParseList(i, ParseGroup, d)
      {
        ParseListSnoc(i, ParseGroup, d);
        var g;
        ok, g := GetGroup(inp);
        if !ok { ParseListFails(i + 1, n - (i + 1), ParseGroup, d); return; }
        groups := groups[g.id := g];
        FromListSnoc(xs, g, GroupKey);
        xs := xs + [g];
      }
      ok := true;
    }
  }
}
