/**
 The replication protocol as a whole: tracker 1 (the origin, which accepts) and
 tracker 0 (the replica, which dials), two FIFO channels, and link drops that lose
 everything in flight. A frame over MAX_PAYLOAD is a protocol error at its receiver,
 which ends the link.

 Three assumptions are named here. `Atomic sends`, part of a step: a client request is
 handled, logged and sent in one step, so operations are logged and sent in the order
 they took effect. `Quiet catch-up`, a property of a run: no client operation is issued
 while the catch-up request of a link waits to be served. `Readable tails`, a property
 of a run: no client sends bytes behind its last field that hide the fields the session
 appends. The code enforces none of them. Overtake.dfy says exactly what happens without
 the second, Swapped.dfy without the first, Wire.dfy without the third.
 */
module Protocol {
  import opened Bytes
  import opened Codec
  import opened Tracker
  import opened Replay
  import opened Wire
  import opened Sync
  import opened History
  import opened Session
  import Net

  datatype Channels = Down | Up(toReplica: seq<PeerMsg>, toOrigin: seq<PeerMsg>)

  /**
   `issued` is every operation the origin ever logged, `heard` the numbers of those the replica
   was ever handed, `loggedOut` whether the replica ever logged a user out.
   */
  datatype System = System(origin: Node, replica: Node, link: Channels, issued: seq<Op>, heard: set<nat>,
    loggedOut: bool)

  function Start(db: Db): System {
    System(Node(db, 1, 0, []), Node(db, 1, 0, []), Down, [], {}, false)
  }

  datatype Action =
    | ClientOp(v: View, kind: U16, payload: Str, ts: nat)
    | OriginSession(e: Event)
    | ReplicaSession(e: Event)
    | LinkUp
    | LinkDown
    | ToReplica
    | ToOrigin

  /** No catch-up request is waiting to be served. */
  ghost predicate Quiet(link: Channels) {
    link.Up? ==> forall m | m in link.toOrigin :: !m.Catchup?
  }

  /** The receiver of this message takes it; any larger one is a protocol error. */
  predicate Carried(m: PeerMsg) { |MsgPayload(m)| <= Net.MAX_PAYLOAD }

  /** What a session can hold: its user and the request came in frames, its address is printed IPv4. */
  predicate Bounded(v: View, payload: Str) {
    |v.user| <= Net.MAX_PAYLOAD && |v.ip| < 16 && |payload| <= Net.MAX_PAYLOAD
  }

  /** With `quiet`, client operations respect the quiet catch-up. */
  ghost predicate Enabled(s: System, a: Action, quiet: bool) {
    match a
    case ClientOp(v, kind, payload, _) =>
      && Bounded(v, payload) && Replicated(kind) && Handle(v, s.origin.db, kind, payload).logged.Some?
      && (quiet ==> Quiet(s.link))
    case OriginSession(e) => !e.Do?
    case ReplicaSession(e) => !e.Do?
    case LinkUp => s.link.Down?
    case LinkDown => s.link.Up?
    case ToReplica => s.link.Up? && s.link.toReplica != []
    case ToOrigin => s.link.Up? && s.link.toOrigin != []
  }

  /** The readable tails of a run. */
  ghost predicate AllReadable(acts: seq<Action>) {
    forall a | a in acts && a.ClientOp? :: Readable(a.v, a.kind, a.payload)
  }

  /** The log entry of a client operation. */
  function OpOf(s: System, a: Action): Op
    requires a.ClientOp?
  {
    var logged := Handle(a.v, s.origin.db, a.kind, a.payload).logged;
    Op(s.origin.nextSeq, a.kind, if logged.Some? then logged.value else [], a.ts)
  }

  /**
   The effect of an action; one that is not enabled changes nothing. The acceptor has read HELLO
   before its end of a new link can be used (tracker/main.cpp), so a link starts behind it.
   */
  function Next(s: System, a: Action): System {
    match a
    case ClientOp(v, kind, payload, ts) =>
      var h := Handle(v, s.origin.db, kind, payload);
      if h.logged.None? then s else
      var op := OpOf(s, a);
      s.(origin := Record(s.origin.(db := h.db), kind, h.logged.value, ts), issued := s.issued + [op],
         link := if s.link.Up? then s.link.(toReplica := s.link.toReplica + [SyncOp(op)]) else Down)
    case OriginSession(e) => s.(origin := s.origin.(db := Apply(s.origin.db, e).db))
    case ReplicaSession(e) =>
      s.(replica := s.replica.(db := Apply(s.replica.db, e).db), loggedOut := s.loggedOut || e.LogOut?)
    case LinkUp => s.(link := Up(Welcome(s.origin), Greeting(s.replica, 0)[1..]))
    case LinkDown => s.(link := Down)
    case ToReplica =>
      if s.link.Down? || s.link.toReplica == [] then s
      else if !Carried(s.link.toReplica[0]) then s.(link := Down)
      else
        var m := s.link.toReplica[0];
        var r := Receive(s.replica, m);
        s.(replica := r.node, link := Up(s.link.toReplica[1..], s.link.toOrigin + r.replies),
           heard := s.heard + if m.SyncOp? then {m.op.num} else {})
    case ToOrigin =>
      if s.link.Down? || s.link.toOrigin == [] then s
      else if !Carried(s.link.toOrigin[0]) then s.(link := Down)
      else
        var r := Receive(s.origin, s.link.toOrigin[0]);
        s.(origin := r.node, link := Up(s.link.toReplica + r.replies, s.link.toOrigin[1..]))
  }

  ghost predicate Runs(s: System, acts: seq<Action>, quiet: bool)
    decreases |acts|
  {
    acts != [] ==> Enabled(s, acts[0], quiet) && Runs(Next(s, acts[0]), acts[1..], quiet)
  }

  function Run(s: System, acts: seq<Action>): System
    decreases |acts|
  {
    if acts == [] then s else Run(Next(s, acts[0]), acts[1..])
  }

  // ----- frames between the trackers ----------------------------------------

  /** A logged operation travels with 22 more bytes. */
  lemma OpSize(op: Op)
    ensures |MsgPayload(SyncOp(op))| == 22 + |op.payload|
  {
  }

  lemma SmallCarried(m: PeerMsg)
    requires m.Hello? || m.Catchup? || m.Ack? || m.SnapshotRequest?
    ensures Carried(m)
  {
  }

  function FrameOf(m: PeerMsg): Net.Message { Net.Message(MsgKind(m), 0, MsgPayload(m)) }

  /** On the byte stream: the frame arrives and reads as the message it was, or ends the session. */
  lemma CarriedIff(m: PeerMsg, rest: Str)
    requires Sendable(m) && |MsgPayload(m)| < 0x1_0000_0000
    ensures Carried(m) ==>
      && Net.Receive(Net.Frame(FrameOf(m)) + rest) == Net.Delivered(FrameOf(m), rest)
      && ReadMsg(FrameOf(m).kind, FrameOf(m).payload) == m
    ensures !Carried(m) ==> Net.Receive(Net.Frame(FrameOf(m)) + rest) == Net.Rejected
  {
    hide MsgPayload, MsgKind, ReadMsg;
    if Carried(m) {
      Net.FrameExact(FrameOf(m), rest);
      MsgRoundTrip(m);
    } else {
      Net.OversizedRejected(FrameOf(m), rest);
    }
  }

  /** The entry of a request that came in a frame is short enough for the 32-bit fields of its own frame. */
  lemma LogEntryBounded(v: View, db: Db, kind: U16, payload: Str)
    requires Bounded(v, payload) && Replicated(kind) && Handle(v, db, kind, payload).logged.Some?
    ensures 22 + |Handle(v, db, kind, payload).logged.value| < 0x1_0000_0000
  {
    LoggedIsParsed(v, db, kind, payload);
    hide Exec, Handle;
    var c := ParseRequest(kind, payload, v.user, v.ip, v.port).value;
    hide ParseRequest;
    ParsedNames(v, kind, payload);
  }

  /** The names a request carries are no longer than the request. */
  lemma ParsedNames(v: View, kind: U16, payload: Str)
    requires Replicated(kind) && ParseRequest(kind, payload, v.user, v.ip, v.port).Got?
    ensures var c := ParseRequest(kind, payload, v.user, v.ip, v.port).value;
      && (c.CmdCreateGroup? || c.CmdJoinGroup? || c.CmdLeaveGroup? ==> |c.gid| <= |payload|)
      && (c.CmdAcceptRequest? ==> |c.gid| + |c.uid| <= |payload|)
  {
    hide ParseUpload, ParseThree;
  }

  // ----- the state a log denotes --------------------------------------------

  /** Replaying operations in order. */
  function Fold(db: Db, ops: seq<Op>): Db {
    if ops == [] then db
    else ApplyRemote(Fold(db, ops[..|ops| - 1]), ops[|ops| - 1].kind, ops[|ops| - 1].payload).db
  }

  lemma FoldSnoc(db: Db, ops: seq<Op>, op: Op)
    ensures Fold(db, ops + [op]) == ApplyRemote(Fold(db, ops), op.kind, op.payload).db
  {
    assert (ops + [op])[..|ops|] == ops;
  }

  ghost predicate Admissible(db: Db, op: Op) {
    ParseOp(op.kind, op.payload).Some? && Admits(db, ParseOp(op.kind, op.payload).value)
  }

  /** Every issued operation is admitted by the metadata the ones before it produce. */
  ghost predicate Sound(init: Db, ops: seq<Op>) {
    && Numbered(ops)
    && forall i {:trigger ops[i]} | 0 <= i < |ops| :: Admissible(Fold(init, ops[..i]), ops[i])
  }

  lemma SoundSnoc(init: Db, ops: seq<Op>, op: Op)
    requires Sound(init, ops) && op.num == |ops| + 1 && Admissible(Fold(init, ops), op)
    ensures Sound(init, ops + [op])
  {
    var all := ops + [op];
    forall i {:trigger all[i]} | 0 <= i < |all|
      ensures all[i].num == i + 1 && Admissible(Fold(init, all[..i]), all[i])
    {
      if i < |ops| { assert all[..i] == ops[..i] && all[i] == ops[i]; } else { assert all[..i] == ops; }
    }
  }

  // ----- the invariant ------------------------------------------------------

  ghost predicate AcksUpTo(ms: seq<PeerMsg>, n: nat) {
    forall m | m in ms :: m.Ack? && m.num <= n
  }

  /** Either the catch-up request still travels alone, or every unapplied operation is in flight, in order. */
  ghost predicate LinkInv(link: Channels, unapplied: seq<Op>, applied: nat) {
    link.Up? ==>
      || (link.toReplica == [] && link.toOrigin == [Catchup(applied)])
      || (link.toReplica == Wrap(unapplied) && AcksUpTo(link.toOrigin, applied))
  }

  ghost predicate LogInv(s: System) {
    && s.origin.nextSeq == |s.issued| + 1
    && s.replica.applied <= |s.issued|
    && |s.origin.log| <= |s.issued|
    && s.origin.log == s.issued[|s.issued| - |s.origin.log|..]
    && |s.issued| - |s.origin.log| <= s.replica.applied
  }

  /** The replica was handed exactly the operations it applied, and each of them fitted a frame. */
  ghost predicate HeardInv(s: System) {
    && (forall k :: k in s.heard <==> 1 <= k <= s.replica.applied)
    && s.replica.applied <= |s.issued|
    && forall k {:trigger s.issued[k]} | 0 <= k < s.replica.applied :: Carried(SyncOp(s.issued[k]))
  }

  ghost predicate HasUsers(db: Db) { db.users.Keys != {} }

  ghost predicate DataInv(init: Db, s: System)
    requires s.replica.applied <= |s.issued|
  {
    && Valid(s.origin.db) && Valid(s.replica.db)
    && HasUsers(s.origin.db) && HasUsers(s.replica.db)
    && SameMeta(Fold(init, s.issued), s.origin.db)
    && AllSeedersWithin(s.origin.db, Fold(init, s.issued))
    && SameMeta(Fold(init, s.issued[..s.replica.applied]), s.replica.db)
    && (!s.loggedOut ==> s.replica.db.groups == Fold(init, s.issued[..s.replica.applied]).groups)
  }

  /** Everything but what is in flight. */
  ghost predicate Core(init: Db, s: System) {
    && LogInv(s)
    && HeardInv(s)
    && Sound(init, s.issued)
    && DataInv(init, s)
  }

  ghost predicate Inv(init: Db, s: System) {
    Core(init, s) && LinkInv(s.link, s.issued[s.replica.applied..], s.replica.applied)
  }

  lemma SameMetaUsers(a: Db, b: Db)
    requires SameMeta(a, b)
    ensures a.users.Keys == b.users.Keys
  {
  }

  lemma SoundNumbered(init: Db, ops: seq<Op>)
    requires Sound(init, ops)
    ensures Numbered(ops)
  {
  }

  lemma NonEmptyHasUsers(db: Db)
    requires Valid(db) && !IsEmpty(db)
    ensures HasUsers(db)
  {
    if db.groups.Keys != {} {
      var g :| g in db.groups;
      assert db.groups[g].owner in db.users.Keys;
    }
  }

  lemma UsersNotEmpty(db: Db)
    requires HasUsers(db)
    ensures !IsEmpty(db)
  {
  }

  lemma StartInv(init: Db)
    requires Valid(init) && !IsEmpty(init)
    ensures Inv(init, Start(init))
  {
    NonEmptyHasUsers(init);
    SameMetaReflexive(init);
    hide Valid, IsEmpty, SameMeta, AllSeedersWithin, HasUsers, Carried, Admissible;
  }

  lemma UsersStay(db: Db, c: Cmd)
    requires Valid(db) && HasUsers(db)
    ensures Valid(Exec(db, c).db) && HasUsers(Exec(db, c).db)
  {
    ExecValid(db, c);
    var u :| u in db.users.Keys;
    assert u in Exec(db, c).db.users.Keys;
  }

  lemma SessionValid(db: Db, e: Event)
    requires !e.Do? && Valid(db) && HasUsers(db)
    ensures Valid(Apply(db, e).db) && HasUsers(Apply(db, e).db)
  {
    match e
    case LogIn(uid, pwd, ip, port) => LoginValid(db, uid, pwd, ip, port);
    case LogOut(uid) => LogoutValid(db, uid);
    var u :| u in db.users.Keys;
    assert u in Apply(db, e).db.users.Keys;
  }

  /** Groups evolve alike from equal groups and equal user names. */
  lemma GroupsDetermined(a: Db, b: Db, c: Cmd)
    requires a.groups == b.groups && a.users.Keys == b.users.Keys
    ensures Exec(a, c).db.groups == Exec(b, c).db.groups
  {
    hide HashPassword, AllBits, Least;
    assert forall u :: u in a.users <==> u in a.users.Keys;
    assert forall u :: u in b.users <==> u in b.users.Keys;
  }

  // ----- every step keeps the invariant -------------------------------------

  /** What a client operation does: the origin runs a command that its log entry decodes to. */
  lemma ClientOpMeans(s: System, a: Action)
    requires a.ClientOp? && Enabled(s, a, false) && Readable(a.v, a.kind, a.payload)
    ensures var c, op := ParseOp(a.kind, OpOf(s, a).payload), OpOf(s, a);
      && op.num == s.origin.nextSeq && op.kind == a.kind
      && c.Some? && Exec(s.origin.db, c.value).st == ST_OK
      && Next(s, a).origin == Record(s.origin.(db := Exec(s.origin.db, c.value).db), a.kind, op.payload, a.ts)
      && ApplyRemote(s.origin.db, op.kind, op.payload).db == Exec(s.origin.db, c.value).db
  {
    hide Exec, ParseOp, ParseRequest, LogPayload, Handle, Readable, ApplyRemote;
    LoggedIsParsed(a.v, s.origin.db, a.kind, a.payload);
    LogReplaysRequest(a.v, s.origin.db, a.kind, a.payload);
  }

  lemma ClientOpKeepsCore(init: Db, s: System, a: Action)
    requires Core(init, s) && a.ClientOp? && Enabled(s, a, false) && Readable(a.v, a.kind, a.payload)
    ensures Core(init, Next(s, a))
    ensures var t, op := Next(s, a), OpOf(s, a);
      && t.issued == s.issued + [op] && t.replica == s.replica && t.heard == s.heard
      && t.link == if s.link.Up? then s.link.(toReplica := s.link.toReplica + [SyncOp(op)]) else Down
  {
    hide Valid, SameMeta, AllSeedersWithin, Fold, Sound, Exec, Admits, Handle, Readable, ParseOp, Carried;
    ClientOpMeans(s, a);
    var t, op := Next(s, a), OpOf(s, a);
    var c := ParseOp(op.kind, op.payload).value;
    var before := Fold(init, s.issued);
    SuccessIsAdmitted(s.origin.db, c);
    SameMetaSymmetric(before, s.origin.db);
    AdmittedReplays(s.origin.db, before, c);
    SeedersStep(s.origin.db, before, c);
    UsersStay(s.origin.db, c);
    FoldSnoc(init, s.issued, op);
    SoundSnoc(init, s.issued, op);
    SameMetaSymmetric(t.origin.db, Fold(init, t.issued));
    assert t.issued[..t.replica.applied] == s.issued[..s.replica.applied];
    ClientOpLogs(s, op, t);
  }

  lemma ClientOpLogs(s: System, op: Op, t: System)
    requires LogInv(s) && HeardInv(s)
    requires t.issued == s.issued + [op] && t.replica == s.replica && t.heard == s.heard
    requires t.origin.nextSeq == s.origin.nextSeq + 1 && t.origin.log == s.origin.log + [op]
    ensures LogInv(t) && HeardInv(t)
  {
    hide Carried;
    var k := |s.issued| - |s.origin.log|;
    assert t.issued[k..] == s.issued[k..] + [op];
    forall i {:trigger t.issued[i]} | 0 <= i < t.replica.applied ensures Carried(SyncOp(t.issued[i])) {
      assert t.issued[i] == s.issued[i];
    }
  }

  lemma ClientOpSends(s: System, op: Op, t: System)
    requires LogInv(s) && LinkInv(s.link, s.issued[s.replica.applied..], s.replica.applied) && Quiet(s.link)
    requires t.issued == s.issued + [op] && t.replica == s.replica
    requires t.link == if s.link.Up? then s.link.(toReplica := s.link.toReplica + [SyncOp(op)]) else Down
    ensures LinkInv(t.link, t.issued[t.replica.applied..], t.replica.applied)
  {
    var n := s.replica.applied;
    assert t.issued[n..] == s.issued[n..] + [op];
    if s.link.Up? {
      assert Catchup(n) !in s.link.toOrigin;
      assert Wrap(t.issued[n..]) == Wrap(s.issued[n..]) + [SyncOp(op)];
    }
  }

  lemma OriginSessionKeeps(init: Db, s: System, e: Event)
    requires Core(init, s) && !e.Do?
    ensures Core(init, Next(s, OriginSession(e)))
  {
    hide Valid, SameMeta, AllSeedersWithin, Fold, Sound, Apply, Carried;
    SessionKeepsMeta(s.origin.db, e);
    SameMetaTransitive(Fold(init, s.issued), s.origin.db, Apply(s.origin.db, e).db);
    SessionKeepsSeeders(s.origin.db, e, Fold(init, s.issued));
    SessionValid(s.origin.db, e);
  }

  lemma ReplicaSessionKeeps(init: Db, s: System, e: Event)
    requires Core(init, s) && !e.Do?
    ensures Core(init, Next(s, ReplicaSession(e)))
  {
    hide Valid, SameMeta, AllSeedersWithin, Fold, Sound, Carried;
    SessionKeepsMeta(s.replica.db, e);
    SameMetaTransitive(Fold(init, s.issued[..s.replica.applied]), s.replica.db, Apply(s.replica.db, e).db);
    SessionValid(s.replica.db, e);
  }

  lemma LinkUpKeeps(init: Db, s: System)
    requires Core(init, s) && s.link.Down?
    ensures Core(init, Next(s, LinkUp))
    ensures Next(s, LinkUp) == s.(link := Up([], [Catchup(s.replica.applied)]))
  {
    hide Valid, SameMeta, AllSeedersWithin, Fold, Sound, IsEmpty, HasUsers, HeardInv;
    UsersNotEmpty(s.origin.db);
    UsersNotEmpty(s.replica.db);
    assert Greeting(s.replica, 0)[1..] == [Catchup(s.replica.applied)];
    SameDbs(init, s, Next(s, LinkUp));
  }

  /** Only the link, or a log that stays a suffix, has changed. */
  lemma SameDbs(init: Db, s: System, t: System)
    requires Core(init, s) && LogInv(t)
    requires t.issued == s.issued && t.replica == s.replica && t.origin.db == s.origin.db
    requires t.loggedOut == s.loggedOut && t.heard == s.heard
    ensures Core(init, t)
  {
  }

  /** The next operation reaches the replica. */
  lemma DeliveryKeeps(init: Db, s: System, t: System)
    requires Core(init, s) && s.replica.applied < |s.issued| && Carried(SyncOp(s.issued[s.replica.applied]))
    requires t.replica == Receive(s.replica, SyncOp(s.issued[s.replica.applied])).node
    requires t.origin == s.origin && t.issued == s.issued && t.loggedOut == s.loggedOut
    requires t.heard == s.heard + {s.replica.applied + 1}
    ensures Core(init, t) && t.replica.applied == s.replica.applied + 1
  {
    hide Valid, SameMeta, AllSeedersWithin, Fold, Exec, Admits, Tolerated, ParseOp, Carried;
    var n := s.replica.applied;
    var op := s.issued[n];
    var c := ParseOp(op.kind, op.payload).value;
    var before := Fold(init, s.issued[..n]);
    assert Admissible(before, op);
    AdmittedReplays(before, s.replica.db, c);
    UsersStay(s.replica.db, c);
    assert s.issued[..n + 1] == s.issued[..n] + [op];
    FoldSnoc(init, s.issued[..n], op);
    SameMetaUsers(before, s.replica.db);
    if !s.loggedOut { GroupsDetermined(before, s.replica.db, c); }
    assert t.replica.applied == n + 1;
  }

  /** What a delivery changes besides the replica. */
  lemma HandOver(s: System, op: Op)
    requires s.link.Up? && s.link.toReplica != [] && s.link.toReplica[0] == SyncOp(op) && Carried(SyncOp(op))
    ensures var t := Next(s, ToReplica);
      && t == System(s.origin, Receive(s.replica, SyncOp(op)).node,
           Up(s.link.toReplica[1..], s.link.toOrigin + [Ack(op.num)]), s.issued, s.heard + {op.num}, s.loggedOut)
  {
    hide Carried, ApplyRemote;
  }

  lemma ToReplicaKeeps(init: Db, s: System)
    requires Inv(init, s) && s.link.Up? && s.link.toReplica != []
    ensures s.replica.applied < |s.issued| && s.link.toReplica[0] == SyncOp(s.issued[s.replica.applied])
    ensures Inv(init, Next(s, ToReplica))
    ensures Carried(s.link.toReplica[0]) ==> Next(s, ToReplica).replica.applied == s.replica.applied + 1
  {
    var n := s.replica.applied;
    FirstUnapplied(init, s);
    hide Inv, Carried, Receive, Next;
    if Carried(s.link.toReplica[0]) {
      HandOver(s, s.issued[n]);
      InvCore(init, s);
      hide Core;
      DeliveryKeeps(init, s, Next(s, ToReplica));
      FirstGone(init, s, Next(s, ToReplica));
    } else {
      TooLarge(s);
      InvCore(init, s);
      LinkDownKeeps(init, s);
    }
  }

  lemma FirstUnapplied(init: Db, s: System)
    requires Inv(init, s) && s.link.Up? && s.link.toReplica != []
    ensures s.replica.applied < |s.issued| && s.link.toReplica[0] == SyncOp(s.issued[s.replica.applied])
    ensures s.issued[s.replica.applied].num == s.replica.applied + 1
  {
    hide DataInv, HeardInv, Carried;
    SoundNumbered(init, s.issued);
    hide Sound;
    assert s.link.toReplica == Wrap(s.issued[s.replica.applied..]);
  }

  lemma FirstGone(init: Db, s: System, t: System)
    requires Inv(init, s) && s.link.Up? && s.link.toReplica != [] && s.replica.applied < |s.issued|
    requires Core(init, t) && t.issued == s.issued && t.replica.applied == s.replica.applied + 1
    requires t.link == Up(s.link.toReplica[1..], s.link.toOrigin + [Ack(s.replica.applied + 1)])
    ensures Inv(init, t)
  {
    hide Core;
    var n := s.replica.applied;
    assert s.link.toReplica == Wrap(s.issued[n..]);
    assert s.issued[n..][1..] == s.issued[n + 1..];
    assert s.link.toReplica[1..] == Wrap(s.issued[n + 1..]);
  }

  /** A frame that does not fit ends the link. */
  lemma TooLarge(s: System)
    requires s.link.Up? && s.link.toReplica != [] && !Carried(s.link.toReplica[0])
    ensures Next(s, ToReplica) == Next(s, LinkDown)
  {
    hide Carried;
  }

  lemma AckTrims(s: System, num: nat)
    requires LogInv(s) && Numbered(s.issued) && num <= s.replica.applied
    ensures LogInv(s.(origin := s.origin.(log := Trim(s.origin.log, num))))
  {
    TrimSuffix(s.issued, |s.issued| - |s.origin.log|, num);
  }

  /** A catch-up from any point the log still covers. */
  lemma CatchupSends(s: System, after: nat)
    requires LogInv(s) && Numbered(s.issued) && |s.issued| - |s.origin.log| <= after <= |s.issued|
    ensures OpsAfter(s.origin.log, after) == s.issued[after..]
  {
    OpsAfterSuffix(s.issued, |s.issued| - |s.origin.log|, after);
  }

  /** An acknowledgement reaches the origin. */
  lemma AckKeeps(init: Db, s: System)
    requires Core(init, s) && s.link.Up? && s.link.toOrigin != []
    requires s.link.toOrigin[0].Ack? && s.link.toOrigin[0].num <= s.replica.applied
    ensures Core(init, Next(s, ToOrigin))
    ensures var t := Next(s, ToOrigin);
      && t.link == Up(s.link.toReplica, s.link.toOrigin[1..])
      && t.issued == s.issued && t.replica == s.replica && t.heard == s.heard
  {
    hide DataInv, Sound, HeardInv, Trim;
    SoundNumbered(init, s.issued);
    SmallCarried(s.link.toOrigin[0]);
    AckTrims(s, s.link.toOrigin[0].num);
    hide LogInv;
    assert s.link.toReplica + [] == s.link.toReplica;
    assert LogInv(Next(s, ToOrigin)) by { TrimmedLog(s, s.link.toOrigin[0].num, Next(s, ToOrigin)); }
    SameDbs(init, s, Next(s, ToOrigin));
  }

  lemma TrimmedLog(s: System, num: nat, t: System)
    requires LogInv(s.(origin := s.origin.(log := Trim(s.origin.log, num))))
    requires t.origin == s.origin.(log := Trim(s.origin.log, num)) && t.issued == s.issued && t.replica == s.replica
    ensures LogInv(t)
  {
  }

  /** A catch-up request reaches the origin. */
  lemma CatchupKeeps(init: Db, s: System)
    requires Core(init, s) && s.link.Up? && s.link.toOrigin != [] && s.link.toOrigin[0].Catchup?
    requires |s.issued| - |s.origin.log| <= s.link.toOrigin[0].after <= |s.issued|
    ensures Core(init, Next(s, ToOrigin))
    ensures var t := Next(s, ToOrigin);
      && t.link == Up(s.link.toReplica + Wrap(s.issued[s.link.toOrigin[0].after..]), s.link.toOrigin[1..])
      && t.issued == s.issued && t.replica == s.replica && t.heard == s.heard && t.origin == s.origin
  {
    hide DataInv, Sound, HeardInv, OpsAfter;
    SoundNumbered(init, s.issued);
    SmallCarried(s.link.toOrigin[0]);
    CatchupSends(s, s.link.toOrigin[0].after);
    SameDbs(init, s, Next(s, ToOrigin));
  }

  lemma ToOriginKeeps(init: Db, s: System)
    requires Inv(init, s) && Enabled(s, ToOrigin, true)
    ensures Inv(init, Next(s, ToOrigin))
  {
    hide Core, LogInv, Next;
    CoreBounds(init, s);
    var m := s.link.toOrigin[0];
    assert m in s.link.toOrigin;
    if m.Ack? {
      AckKeeps(init, s);
      AcksTail(s.link.toOrigin, s.replica.applied);
    } else {
      assert m == Catchup(s.replica.applied);
      CatchupKeeps(init, s);
      assert [] + Wrap(s.issued[s.replica.applied..]) == Wrap(s.issued[s.replica.applied..]);
    }
  }

  lemma CoreBounds(init: Db, s: System)
    requires Core(init, s)
    ensures |s.issued| - |s.origin.log| <= s.replica.applied <= |s.issued|
  {
  }

  lemma AcksTail(ms: seq<PeerMsg>, n: nat)
    requires ms != []
    ensures AcksUpTo(ms, n) ==> AcksUpTo(ms[1..], n)
  {
  }

  lemma LinkDownKeeps(init: Db, s: System)
    requires Core(init, s)
    ensures Inv(init, Next(s, LinkDown))
    ensures Next(s, LinkDown) == s.(link := Down)
  {
    hide DataInv, Sound, HeardInv;
    SameDbs(init, s, Next(s, LinkDown));
  }

  lemma ClientOpKeeps(init: Db, s: System, a: Action)
    requires Inv(init, s) && a.ClientOp? && Enabled(s, a, true) && Readable(a.v, a.kind, a.payload)
    ensures Inv(init, Next(s, a))
  {
    assert Quiet(s.link) && Enabled(s, a, false) by { hide Inv, Readable; }
    hide Core, Next, Readable, LinkInv, Enabled, OpOf;
    ClientOpKeepsCore(init, s, a);
    CoreLog(init, s);
    ClientOpSends(s, OpOf(s, a), Next(s, a));
  }

  lemma SessionKeeps(init: Db, s: System, a: Action)
    requires Inv(init, s) && Enabled(s, a, true) && (a.OriginSession? || a.ReplicaSession?)
    ensures Inv(init, Next(s, a))
  {
    hide Core, LinkInv, Apply;
    if a.OriginSession? { OriginSessionKeeps(init, s, a.e); } else { ReplicaSessionKeeps(init, s, a.e); }
  }

  lemma StepKeeps(init: Db, s: System, a: Action)
    requires Inv(init, s) && Enabled(s, a, true) && AllReadable([a])
    ensures Inv(init, Next(s, a))
  {
    match a
    case ClientOp(_, _, _, _) => hide Next, Inv, Enabled, Readable; assert a in [a]; ClientOpKeeps(init, s, a);
    case OriginSession(_) => hide Next, Inv; SessionKeeps(init, s, a);
    case ReplicaSession(_) => hide Next, Inv; SessionKeeps(init, s, a);
    case LinkUp => hide Core, Next; LinkUpKeeps(init, s);
    case LinkDown => hide Core, Next, Inv; LinkDownKeeps(init, s);
    case ToReplica => hide Next, Inv; ToReplicaKeeps(init, s);
    case ToOrigin => hide Next, Inv; ToOriginKeeps(init, s);
  }

  lemma CoreLog(init: Db, s: System)
    requires Core(init, s)
    ensures LogInv(s)
  {
  }

  lemma {:induction false} RunKeeps(init: Db, s: System, acts: seq<Action>)
    requires Inv(init, s) && Runs(s, acts, true) && AllReadable(acts)
    ensures Inv(init, Run(s, acts))
    decreases |acts|
  {
    hide Inv, Next, Enabled, Readable;
    if acts != [] {
      assert acts[0] in acts;
      StepKeeps(init, s, acts[0]);
      RunKeeps(init, Next(s, acts[0]), acts[1..]);
    }
  }

  // ----- the results --------------------------------------------------------

  /** Every operation was handed to the replica or is still in the origin's log. */
  ghost predicate Retained(s: System) {
    forall i {:trigger s.issued[i]} | 0 <= i < |s.issued| :: i + 1 in s.heard || s.issued[i] in s.origin.log
  }

  /**
   The replica holds the metadata of exactly the first `applied` operations, the origin's log
   still has all the others, a catch-up would send exactly those, and nothing has been lost.
   */
  ghost predicate Refines(init: Db, s: System) {
    && s.replica.applied <= |s.issued|
    && SameMeta(s.replica.db, Fold(init, s.issued[..s.replica.applied]))
    && SameMeta(s.origin.db, Fold(init, s.issued))
    && (forall i {:trigger s.issued[i]} | s.replica.applied <= i < |s.issued| :: s.issued[i] in s.origin.log)
    && OpsAfter(s.origin.log, s.replica.applied) == s.issued[s.replica.applied..]
    && Retained(s)
  }

  lemma CoreRefines(init: Db, s: System)
    requires Core(init, s)
    ensures Refines(init, s)
  {
    hide Valid, SameMeta, AllSeedersWithin, Fold, Sound, OpsAfter, Carried;
    SameMetaSymmetric(Fold(init, s.issued[..s.replica.applied]), s.replica.db);
    SameMetaSymmetric(Fold(init, s.issued), s.origin.db);
    var k := |s.issued| - |s.origin.log|;
    SoundNumbered(init, s.issued);
    OpsAfterSuffix(s.issued, k, s.replica.applied);
    forall i {:trigger s.issued[i]} | s.replica.applied <= i < |s.issued| ensures s.issued[i] in s.origin.log {
      assert s.origin.log[i - k] == s.issued[i];
    }
  }

  /** In every state of every quiet, readable run, with any number of link drops. */
  lemma ReplicaRefinesPrefix(init: Db, acts: seq<Action>)
    requires Valid(init) && !IsEmpty(init) && Runs(Start(init), acts, true) && AllReadable(acts)
    ensures Refines(init, Run(Start(init), acts))
  {
    hide Valid, Refines, IsEmpty, Runs, Run, Start, AllReadable, Core;
    StartInv(init);
    RunKeeps(init, Start(init), acts);
    CoreRefines(init, Run(Start(init), acts));
  }

  /** Nothing is on its way to the replica, and no catch-up is pending. */
  ghost predicate Drained(s: System) {
    s.link.Up? && s.link.toReplica == [] && Quiet(s.link)
  }

  /** Once a link has drained, the two trackers agree, and no seeder of the origin is missing on the replica. */
  lemma DrainedAgrees(init: Db, s: System)
    requires Inv(init, s) && Drained(s)
    ensures s.replica.applied == |s.issued| && SameMeta(s.origin.db, s.replica.db)
    ensures !s.loggedOut ==> AllSeedersWithin(s.origin.db, s.replica.db)
  {
    hide Valid, SameMeta, AllSeedersWithin, Fold, Sound, HeardInv;
    var n := s.replica.applied;
    assert Catchup(n) !in s.link.toOrigin;
    assert s.link.toReplica == Wrap(s.issued[n..]);
    assert |Wrap(s.issued[n..])| == 0;
    AppliedAllAgrees(init, s);
  }

  /** Likewise whenever the replica has applied every operation. */
  lemma AppliedAllAgrees(init: Db, s: System)
    requires Core(init, s) && s.replica.applied == |s.issued|
    ensures SameMeta(s.origin.db, s.replica.db)
    ensures !s.loggedOut ==> AllSeedersWithin(s.origin.db, s.replica.db)
  {
    hide Valid, SameMeta, AllSeedersWithin, Fold, Sound, HeardInv;
    assert s.issued[..s.replica.applied] == s.issued;
    SameMetaSymmetric(Fold(init, s.issued), s.origin.db);
    SameMetaTransitive(s.origin.db, Fold(init, s.issued), s.replica.db);
    if !s.loggedOut { SameGroupsSameSeeders(s.origin.db, Fold(init, s.issued), s.replica.db); }
  }

  lemma DrainedRunAgrees(init: Db, acts: seq<Action>)
    requires Valid(init) && !IsEmpty(init) && Runs(Start(init), acts, true) && AllReadable(acts)
    requires Drained(Run(Start(init), acts))
    ensures var s := Run(Start(init), acts);
      && s.replica.applied == |s.issued| && SameMeta(s.origin.db, s.replica.db)
      && (!s.loggedOut ==> AllSeedersWithin(s.origin.db, s.replica.db))
  {
    hide Valid, IsEmpty, Inv, SameMeta, AllSeedersWithin, Runs, Run, Start, Drained, AllReadable;
    StartInv(init);
    RunKeeps(init, Start(init), acts);
    DrainedAgrees(init, Run(Start(init), acts));
  }

  // ----- runs ---------------------------------------------------------------

  lemma {:induction false} RunSnoc(s: System, acts: seq<Action>, a: Action, quiet: bool)
    requires Runs(s, acts, quiet) && Enabled(Run(s, acts), a, quiet)
    ensures Runs(s, acts + [a], quiet)
    ensures Run(s, acts + [a]) == Next(Run(s, acts), a)
    decreases |acts|
  {
    hide Next, Enabled;
    if acts == [] {
      assert acts + [a] == [a];
    } else {
      assert (acts + [a])[1..] == acts[1..] + [a];
      RunSnoc(Next(s, acts[0]), acts[1..], a, quiet);
    }
  }

  lemma {:induction false} RunAppend(s: System, acts: seq<Action>, more: seq<Action>, quiet: bool)
    requires Runs(s, acts, quiet) && Runs(Run(s, acts), more, quiet)
    ensures Runs(s, acts + more, quiet) && Run(s, acts + more) == Run(Run(s, acts), more)
    decreases |acts|
  {
    hide Next, Enabled;
    if acts == [] {
      assert acts + more == more;
    } else {
      assert (acts + more)[1..] == acts[1..] + more;
      RunAppend(Next(s, acts[0]), acts[1..], more, quiet);
    }
  }

  /** Without client operations nothing is issued. */
  lemma {:induction false} NothingIssued(s: System, acts: seq<Action>)
    requires forall a | a in acts :: !a.ClientOp?
    ensures Run(s, acts).issued == s.issued && AllReadable(acts)
    decreases |acts|
  {
    hide Receive;
    if acts != [] {
      assert acts[0] in acts;
      NothingIssued(Next(s, acts[0]), acts[1..]);
    }
  }

  // ----- healing ------------------------------------------------------------

  /** Every unapplied operation fits a frame. */
  ghost predicate AllFit(s: System) {
    forall i {:trigger s.issued[i]} | s.replica.applied <= i < |s.issued| ::
      22 + |s.issued[i].payload| <= Net.MAX_PAYLOAD
  }

  /** Delivering what is in flight drains the link. */
  lemma {:induction false} Drain(init: Db, s: System) returns (acts: seq<Action>)
    requires Inv(init, s) && s.link.Up? && s.link.toReplica == Wrap(s.issued[s.replica.applied..])
    requires AllFit(s) && AcksUpTo(s.link.toOrigin, s.replica.applied)
    ensures Runs(s, acts, true) && forall a | a in acts :: a == ToReplica
    ensures var t := Run(s, acts); Inv(init, t) && Drained(t) && t.issued == s.issued
    decreases |s.issued| - s.replica.applied
  {
    hide Inv, AllFit, Next;
    if s.link.toReplica == [] {
      acts := [];
    } else {
      var t := Next(s, ToReplica);
      DrainStep(init, s);
      var rest := Drain(init, t);
      acts := [ToReplica] + rest;
      assert acts[1..] == rest;
    }
  }

  lemma DrainStep(init: Db, s: System)
    requires Inv(init, s) && s.link.Up? && s.link.toReplica == Wrap(s.issued[s.replica.applied..])
      && s.link.toReplica != []
    requires AllFit(s) && AcksUpTo(s.link.toOrigin, s.replica.applied)
    ensures s.replica.applied < |s.issued|
    ensures var t := Next(s, ToReplica);
      && Inv(init, t) && AllFit(t) && t.issued == s.issued && t.replica.applied == s.replica.applied + 1 && t.link.Up?
      && t.link.toReplica == Wrap(t.issued[t.replica.applied..]) && AcksUpTo(t.link.toOrigin, t.replica.applied)
  {
    hide Inv, Next, Carried, Receive;
    ToReplicaKeeps(init, s);
    InvNumbered(init, s);
    var n := s.replica.applied;
    OpFits(s.issued[n]);
    assert s.issued[n..][1..] == s.issued[n + 1..];
    HandOver(s, s.issued[n]);
  }

  lemma OpFits(op: Op)
    ensures Carried(SyncOp(op)) <==> 22 + |op.payload| <= Net.MAX_PAYLOAD
  {
    OpSize(op);
  }

  lemma InvNumbered(init: Db, s: System)
    requires Inv(init, s)
    ensures Numbered(s.issued)
  {
    SoundNumbered(init, s.issued);
  }

  /** From any reachable state, one reconnection and the deliveries it causes bring the two trackers together. */
  lemma ReconnectionHeals(init: Db, s: System) returns (acts: seq<Action>)
    requires Inv(init, s) && AllFit(s)
    ensures Runs(s, acts, true) && forall a | a in acts :: !a.ClientOp?
    ensures var t := Run(s, acts);
      Inv(init, t) && Drained(t) && t.issued == s.issued && t.replica.applied == |t.issued|
        && SameMeta(t.origin.db, t.replica.db)
  {
    hide SameMeta, Next, AllFit, Inv, Core;
    if s.link.Down? {
      acts := HealFromDown(init, s);
    } else {
      InvCore(init, s);
      LinkDownKeeps(init, s);
      FitStays(s, Next(s, LinkDown));
      var rest := HealFromDown(init, Next(s, LinkDown));
      acts := [LinkDown] + rest;
      assert acts[1..] == rest;
    }
    DrainedAgrees(init, Run(s, acts));
  }

  lemma FitStays(s: System, t: System)
    requires AllFit(s) && t.issued == s.issued && t.replica == s.replica
    ensures AllFit(t)
  {
  }

  lemma HealFromDown(init: Db, s: System) returns (acts: seq<Action>)
    requires Inv(init, s) && s.link.Down? && AllFit(s)
    ensures Runs(s, acts, true) && forall a | a in acts :: !a.ClientOp?
    ensures var t := Run(s, acts); Inv(init, t) && Drained(t) && t.issued == s.issued
  {
    hide Next, AllFit, Core;
    LinkUpKeeps(init, s);
    CoreBounds(init, s);
    var s1 := Next(s, LinkUp);
    FitStays(s, s1);
    assert s1.link.toOrigin[0] == Catchup(s1.replica.applied);
    CatchupKeeps(init, s1);
    var s2 := Next(s1, ToOrigin);
    FitStays(s, s2);
    assert s2.link.toReplica == Wrap(s2.issued[s2.replica.applied..]);
    var rest := Drain(init, s2);
    hide Inv;
    acts := [LinkUp, ToOrigin] + rest;
    assert acts[1..] == [ToOrigin] + rest && acts[1..][1..] == rest;
  }

  /**
   Whatever links dropped and whatever was lost, a quiet, readable run can go on to agreement with
   nothing new issued exactly when every unapplied operation fits a frame.
   */
  lemma HealsIff(init: Db, acts: seq<Action>)
    requires Valid(init) && !IsEmpty(init) && Runs(Start(init), acts, true) && AllReadable(acts)
    ensures AllFit(Run(Start(init), acts)) <==>
      exists more :: && Runs(Start(init), acts + more, true) && (forall a | a in more :: !a.ClientOp?)
        && Run(Start(init), acts + more).replica.applied == |Run(Start(init), acts).issued|
    ensures forall more | && Runs(Start(init), acts + more, true) && AllReadable(acts + more)
        && Run(Start(init), acts + more).replica.applied == |Run(Start(init), acts + more).issued| ::
      SameMeta(Run(Start(init), acts + more).origin.db, Run(Start(init), acts + more).replica.db)
  {
    hide Valid, IsEmpty, Inv, Core, SameMeta, Runs, Run, Start, Drained, AllReadable, AllFit;
    var s0 := Start(init);
    var s := Run(s0, acts);
    StartInv(init);
    RunKeeps(init, s0, acts);
    if AllFit(s) {
      var more := ReconnectionHeals(init, s);
      RunAppend(s0, acts, more, true);
      assert Runs(s0, acts + more, true);
    }
    forall more | Runs(s0, acts + more, true) && (forall a | a in more :: !a.ClientOp?)
      && Run(s0, acts + more).replica.applied == |s.issued|
      ensures AllFit(s)
    {
      NothingIssued(s, more);
      RunSplit(s0, acts, more, true);
      RunKeeps(init, s, more);
      AppliedFits(init, Run(s, more), s);
    }
    forall more | && Runs(s0, acts + more, true) && AllReadable(acts + more)
        && Run(s0, acts + more).replica.applied == |Run(s0, acts + more).issued|
      ensures SameMeta(Run(s0, acts + more).origin.db, Run(s0, acts + more).replica.db)
    {
      RunKeeps(init, s0, acts + more);
      InvCore(init, Run(s0, acts + more));
      AppliedAllAgrees(init, Run(s0, acts + more));
    }
  }

  lemma InvCore(init: Db, s: System)
    requires Inv(init, s)
    ensures Core(init, s)
  {
  }

  lemma AppliedFits(init: Db, t: System, s: System)
    requires Inv(init, t) && t.issued == s.issued && t.replica.applied == |t.issued|
    ensures AllFit(s)
  {
    hide Inv;
    AppliedFit(init, t);
  }

  lemma {:induction false} RunSplit(s: System, acts: seq<Action>, more: seq<Action>, quiet: bool)
    requires Runs(s, acts + more, quiet)
    ensures Runs(s, acts, quiet) && Runs(Run(s, acts), more, quiet) && Run(s, acts + more) == Run(Run(s, acts), more)
    decreases |acts|
  {
    hide Next, Enabled;
    if acts == [] {
      assert acts + more == more;
    } else {
      assert (acts + more)[1..] == acts[1..] + more;
      RunSplit(Next(s, acts[0]), acts[1..], more, quiet);
    }
  }

  // ----- an operation too large for its own frame ---------------------------

  /** This operation was issued under its own number. */
  predicate IsIssued(issued: seq<Op>, op: Op) {
    1 <= op.num <= |issued| && issued[op.num - 1] == op
  }

  /** What is logged or on its way was issued, and what was handed over was issued and fitted its frame. */
  ghost predicate Traced(s: System) {
    && s.origin.nextSeq == |s.issued| + 1
    && (forall op | op in s.origin.log :: IsIssued(s.issued, op))
    && (s.link.Up? ==> forall m | m in s.link.toReplica && m.SyncOp? :: IsIssued(s.issued, m.op))
    && forall h | h in s.heard :: 1 <= h <= |s.issued| && Carried(SyncOp(s.issued[h - 1]))
  }

  lemma IssuedTraced(s: System, a: Action)
    requires Traced(s) && a.ClientOp? && Enabled(s, a, false)
    ensures Traced(Next(s, a))
  {
    hide Carried, Handle, Bounded;
    var t, op := Next(s, a), OpOf(s, a);
    assert t.issued == s.issued + [op] && t.origin.log == s.origin.log + [op] && IsIssued(t.issued, op);
    assert forall x | IsIssued(s.issued, x) :: IsIssued(t.issued, x);
    hide OpOf, IsIssued;
    assert t.link.Up? ==> t.link.toReplica == s.link.toReplica + [SyncOp(op)];
  }

  /** A reaction drops logged operations and sends logged operations, and no others. */
  lemma ReactsFromLog(n: Node, m: PeerMsg)
    ensures var r := Receive(n, m);
      && r.node.nextSeq == n.nextSeq
      && (forall op | op in r.node.log :: op in n.log)
      && forall x | x in r.replies && x.SyncOp? :: x.op in n.log
  {
    hide ApplyRemote;
    TrimKeeps(n.log, if m.Ack? then m.num else 0);
    var after := if m.Catchup? then m.after else 0;
    OpsAfterKeeps(n.log, after);
    WrapHolds(OpsAfter(n.log, after));
  }

  /** What a message to the origin leaves alone, and where what it adds comes from. */
  lemma OriginReacts(s: System)
    requires Enabled(s, ToOrigin, false)
    ensures var t := Next(s, ToOrigin);
      && t.issued == s.issued && t.heard == s.heard && t.replica == s.replica && t.origin.nextSeq == s.origin.nextSeq
      && (forall op | op in t.origin.log :: op in s.origin.log)
      && (t.link.Up? ==>
        forall m | m in t.link.toReplica && m.SyncOp? :: m in s.link.toReplica || m.op in s.origin.log)
  {
    hide Receive, Carried;
    ReactsFromLog(s.origin, s.link.toOrigin[0]);
  }

  lemma ServedTraced(s: System)
    requires Traced(s) && Enabled(s, ToOrigin, false)
    ensures Traced(Next(s, ToOrigin))
  {
    OriginReacts(s);
    hide Next, Carried, IsIssued;
  }

  lemma DeliveredTraced(s: System)
    requires Traced(s) && Enabled(s, ToReplica, false)
    ensures Traced(Next(s, ToReplica))
  {
    hide Carried, Receive;
    assert s.link.toReplica[0] in s.link.toReplica;
  }

  lemma WrapHolds(ops: seq<Op>)
    ensures forall m | m in Wrap(ops) :: m.SyncOp? && m.op in ops
  {
    assert forall i | 0 <= i < |ops| :: ops[i] in ops;
  }

  lemma TracedStep(s: System, a: Action, quiet: bool)
    requires Traced(s) && Enabled(s, a, quiet)
    ensures Traced(Next(s, a))
  {
    match a
    case ClientOp(_, _, _, _) => hide Next, Traced, Handle; IssuedTraced(s, a);
    case ToOrigin => hide Next, Traced; ServedTraced(s);
    case ToReplica => hide Next, Traced; DeliveredTraced(s);
    case LinkUp => hide Carried, IsIssued, IsEmpty;
    case LinkDown => hide Carried, IsIssued;
    case OriginSession(_) => hide Carried, IsIssued, Apply;
    case ReplicaSession(_) => hide Carried, IsIssued, Apply;
  }

  lemma {:induction false} TracedRun(s: System, acts: seq<Action>, quiet: bool)
    requires Traced(s) && Runs(s, acts, quiet)
    ensures Traced(Run(s, acts))
    decreases |acts|
  {
    hide Traced, Next, Enabled;
    if acts != [] {
      TracedStep(s, acts[0], quiet);
      TracedRun(Next(s, acts[0]), acts[1..], quiet);
    }
  }

  /**
   For all runs, with or without the quiet catch-up and the readable tails, from any database: an
   operation that does not fit a frame is never handed to the replica.
   */
  lemma OversizedNeverHeard(init: Db, acts: seq<Action>, quiet: bool, k: nat)
    requires Runs(Start(init), acts, quiet) && k < |Run(Start(init), acts).issued|
    requires 22 + |Run(Start(init), acts).issued[k].payload| > Net.MAX_PAYLOAD
    ensures k + 1 !in Run(Start(init), acts).heard
  {
    hide Runs, Run;
    TracedRun(Start(init), acts, quiet);
    OpSize(Run(Start(init), acts).issued[k]);
  }

  /** For all quiet, readable runs: such an operation also holds back everything after it. */
  lemma OversizedPins(init: Db, acts: seq<Action>, k: nat)
    requires Valid(init) && !IsEmpty(init) && Runs(Start(init), acts, true) && AllReadable(acts)
    requires k < |Run(Start(init), acts).issued|
    requires 22 + |Run(Start(init), acts).issued[k].payload| > Net.MAX_PAYLOAD
    ensures Run(Start(init), acts).replica.applied <= k
  {
    hide Valid, IsEmpty, Runs, Run, Start, AllReadable, Inv;
    StartInv(init);
    RunKeeps(init, Start(init), acts);
    AppliedFit(init, Run(Start(init), acts));
  }

  lemma AppliedFit(init: Db, s: System)
    requires Inv(init, s)
    ensures s.replica.applied <= |s.issued|
    ensures forall i {:trigger s.issued[i]} | 0 <= i < s.replica.applied ::
      22 + |s.issued[i].payload| <= Net.MAX_PAYLOAD
  {
    hide DataInv, Sound;
    forall i {:trigger s.issued[i]} | 0 <= i < s.replica.applied ensures 22 + |s.issued[i].payload| <= Net.MAX_PAYLOAD {
      assert Carried(SyncOp(s.issued[i]));
      OpSize(s.issued[i]);
    }
  }

  /** What a client operation that succeeds changes. */
  lemma Succeeds(s: System, a: Action, db: Db, entry: Str)
    requires a.ClientOp? && Replicated(a.kind) && Bounded(a.v, a.payload)
    requires Handle(a.v, s.origin.db, a.kind, a.payload) == Handled(a.v, db, Reply(ST_OK, []), Some(entry))
    ensures Enabled(s, a, false) && (s.link.Down? ==> Enabled(s, a, true))
    ensures OpOf(s, a) == Op(s.origin.nextSeq, a.kind, entry, a.ts)
    ensures Next(s, a) == s.(issued := s.issued + [OpOf(s, a)],
      origin := Node(db, s.origin.nextSeq + 1, s.origin.applied, s.origin.log + [OpOf(s, a)]),
      link := if s.link.Up? then Up(s.link.toReplica + [SyncOp(OpOf(s, a))], s.link.toOrigin) else Down)
  {
    hide Handle, Bounded;
  }

  function CreateRequest(uid: Str, pwd: Str): Str { EncStr(uid) + EncStr(pwd) }

  /** A request to create a new user succeeds, is logged as it is, and replays wherever the name is free. */
  lemma CreateRuns(v: View, db: Db, uid: Str, pwd: Str)
    requires uid != [] && pwd != [] && Short(uid) && Short(pwd) && Bounded(v, []) && uid !in db.users
    ensures |CreateRequest(uid, pwd)| == 8 + |uid| + |pwd|
    ensures var req, db2 := CreateRequest(uid, pwd), Exec(db, CmdCreateUser(uid, pwd)).db;
      && Handle(v, db, MSG_CREATE_USER, req) == Handled(v, db2, Reply(ST_OK, []), Some(req))
      && Readable(v, MSG_CREATE_USER, req) && ApplyRemote(db, MSG_CREATE_USER, req) == Applied(db2, true)
      && db2.users.Keys == db.users.Keys + {uid}
  {
    var req, c := CreateRequest(uid, pwd), CmdCreateUser(uid, pwd);
    CreateRead(v, uid, pwd);
    CreateSucceeds(db, uid, pwd);
    hide ParseRequest, ApplyRemote, Exec, TailReadable, CreateRequest, Handle;
    ExactRequestReadable(v, MSG_CREATE_USER, req);
    ReadableReplays(db, MSG_CREATE_USER, req, v.user, v.ip, v.port);
    ParsedIsLogged(v, db, MSG_CREATE_USER, req, c, []);
  }

  lemma CreateSucceeds(db: Db, uid: Str, pwd: Str)
    requires uid != [] && pwd != [] && uid !in db.users
    ensures var o := Exec(db, CmdCreateUser(uid, pwd)); o.st == ST_OK && o.db.users.Keys == db.users.Keys + {uid}
  {
    hide HashPassword;
  }

  lemma CreateRead(v: View, uid: Str, pwd: Str)
    requires Short(uid) && Short(pwd)
    ensures |CreateRequest(uid, pwd)| == 8 + |uid| + |pwd|
    ensures ParseRequest(MSG_CREATE_USER, CreateRequest(uid, pwd), v.user, v.ip, v.port)
      == Got(CmdCreateUser(uid, pwd), [])
  {
    hide ParseTwo;
    TwoInverts(uid, pwd, []);
    assert EncStr(uid) + EncStr(pwd) + [] == CreateRequest(uid, pwd);
  }

  /**
   A request of exactly MAX_PAYLOAD bytes that creates a user makes such an operation. The tracker
   accepts it, and no quiet, readable run ever hands the replica anything after it.
   */
  lemma LargestRequestPins(init: Db, v: View, uid: Byte, pwd: Str, ts: nat, more: seq<Action>)
    requires Valid(init) && !IsEmpty(init) && [uid] !in init.users && |pwd| == Net.MAX_PAYLOAD - 9 && Bounded(v, [])
    ensures var a := ClientOp(v, MSG_CREATE_USER, CreateRequest([uid], pwd), ts);
      && |a.payload| == Net.MAX_PAYLOAD && Runs(Start(init), [a], true) && AllReadable([a])
      && (Runs(Start(init), [a] + more, true) && AllReadable([a] + more)
          ==> Run(Start(init), [a] + more).replica.applied == 0)
  {
    var a := ClientOp(v, MSG_CREATE_USER, CreateRequest([uid], pwd), ts);
    var s0 := Start(init);
    CreateRuns(v, init, [uid], pwd);
    hide CreateRequest, Valid, IsEmpty, Handle, Enabled, Next, OpOf, Readable, Exec;
    Succeeds(s0, a, Exec(init, CmdCreateUser([uid], pwd)).db, a.payload);
    assert [a][1..] == [];
    var s1 := Next(s0, a);
    assert s1.issued == [Op(1, MSG_CREATE_USER, a.payload, ts)];
    if Runs(s0, [a] + more, true) && AllReadable([a] + more) {
      RunSplit(s0, [a], more, true);
      assert Run(s0, [a]) == s1;
      IssuedGrows(s1, more);
      OversizedPins(init, [a] + more, 0);
    }
  }

  /** Operations once issued stay issued. */
  lemma {:induction false} IssuedGrows(s: System, acts: seq<Action>)
    ensures s.issued <= Run(s, acts).issued
    decreases |acts|
  {
    hide Receive, Handle;
    if acts != [] { IssuedGrows(Next(s, acts[0]), acts[1..]); }
  }
}
