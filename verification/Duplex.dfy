/**
 Both trackers at work over one link: clients of the dialer (tracker 0) and of the acceptor
 (tracker 1) issue operations at the same time, each tracker logs, applies and sends its own
 and replays the other's. Within the lifetime of a link independent operations leave both
 trackers in agreement. Across a drop the dialer's are lost: only the dialer asks for a catch-up.
 */
module Duplex {
  import opened Bytes
  import opened Tracker
  import opened Replay
  import opened Wire
  import opened Sync
  import opened History
  import opened Session
  import Protocol

  datatype Lines = Cut | Open(toDialer: seq<PeerMsg>, toAcceptor: seq<PeerMsg>)

  /** A tracker with every operation its own clients issued, and the commands these stand for. */
  datatype Side = Side(node: Node, ops: seq<Op>, cmds: seq<Cmd>)

  /** `heard`: the numbers of the dialer's operations that the acceptor was handed. */
  datatype Pair = Pair(dialer: Side, acceptor: Side, link: Lines, heard: set<nat>)

  datatype Request = Request(v: View, kind: U16, payload: Str, ts: nat)

  datatype Action =
    | DialerOp(q: Request)
    | AcceptorOp(q: Request)
    | DialerSession(e: Event)
    | AcceptorSession(e: Event)
    | Connect
    | Drop
    | ToDialer
    | ToAcceptor

  predicate Logged(n: Node, q: Request) {
    Protocol.Bounded(q.v, q.payload) && Replicated(q.kind) && Handle(q.v, n.db, q.kind, q.payload).logged.Some?
  }

  ghost predicate Enabled(s: Pair, a: Action) {
    match a
    case DialerOp(q) => Logged(s.dialer.node, q)
    case AcceptorOp(q) => Logged(s.acceptor.node, q)
    case DialerSession(e) => !e.Do?
    case AcceptorSession(e) => !e.Do?
    case Connect => s.link.Cut?
    case Drop => s.link.Open?
    case ToDialer => s.link.Open? && s.link.toDialer != []
    case ToAcceptor => s.link.Open? && s.link.toAcceptor != []
  }

  function NewOp(n: Node, q: Request): Op
    requires Logged(n, q)
  {
    Op(n.nextSeq, q.kind, Handle(q.v, n.db, q.kind, q.payload).logged.value, q.ts)
  }

  /** A client's operation on one side. */
  function Issue(s: Side, q: Request): Side
    requires Logged(s.node, q)
  {
    LoggedIsParsed(q.v, s.node.db, q.kind, q.payload);
    var h, op := Handle(q.v, s.node.db, q.kind, q.payload), NewOp(s.node, q);
    Side(Record(s.node.(db := h.db), op.kind, op.payload, op.ts), s.ops + [op],
      s.cmds + [ParseRequest(q.kind, q.payload, q.v.user, q.v.ip, q.v.port).value])
  }

  function SessionEvent(s: Side, e: Event): Side { s.(node := s.node.(db := Apply(s.node.db, e).db)) }

  function Next(s: Pair, a: Action): Pair {
    match a
    case DialerOp(q) =>
      if !Logged(s.dialer.node, q) then s else
      s.(dialer := Issue(s.dialer, q),
         link := if s.link.Cut? then Cut
           else s.link.(toAcceptor := s.link.toAcceptor + [SyncOp(NewOp(s.dialer.node, q))]))
    case AcceptorOp(q) =>
      if !Logged(s.acceptor.node, q) then s else
      s.(acceptor := Issue(s.acceptor, q),
         link := if s.link.Cut? then Cut
           else s.link.(toDialer := s.link.toDialer + [SyncOp(NewOp(s.acceptor.node, q))]))
    case DialerSession(e) => s.(dialer := SessionEvent(s.dialer, e))
    case AcceptorSession(e) => s.(acceptor := SessionEvent(s.acceptor, e))
    case Connect => s.(link := Open(Welcome(s.acceptor.node), Greeting(s.dialer.node, 0)[1..]))
    case Drop => s.(link := Cut)
    case ToDialer =>
      if s.link.Cut? || s.link.toDialer == [] then s
      else if !Protocol.Carried(s.link.toDialer[0]) then s.(link := Cut)
      else
        var r := Receive(s.dialer.node, s.link.toDialer[0]);
        s.(dialer := s.dialer.(node := r.node), link := Open(s.link.toDialer[1..], s.link.toAcceptor + r.replies))
    case ToAcceptor =>
      if s.link.Cut? || s.link.toAcceptor == [] then s
      else if !Protocol.Carried(s.link.toAcceptor[0]) then s.(link := Cut)
      else
        var m := s.link.toAcceptor[0];
        var r := Receive(s.acceptor.node, m);
        s.(acceptor := s.acceptor.(node := r.node), link := Open(s.link.toDialer + r.replies, s.link.toAcceptor[1..]),
           heard := s.heard + if m.SyncOp? then {m.op.num} else {})
  }

  ghost predicate Runs(s: Pair, acts: seq<Action>)
    decreases |acts|
  {
    acts != [] ==> Enabled(s, acts[0]) && Runs(Next(s, acts[0]), acts[1..])
  }

  function Run(s: Pair, acts: seq<Action>): Pair
    decreases |acts|
  {
    if acts == [] then s else Run(Next(s, acts[0]), acts[1..])
  }

  function Fresh(db: Db): Side { Side(Node(db, 1, 0, []), [], []) }

  /** Two equal trackers before their link is up. */
  function Start(db: Db): Pair { Pair(Fresh(db), Fresh(db), Cut, {}) }

  // ----- replaying two independent streams ----------------------------------

  /** Every command of one side is independent of every command of the other. */
  ghost predicate Apart(xs: set<Cmd>, ys: set<Cmd>) {
    forall c, d | c in xs && d in ys :: Independent(c, d)
  }

  function Both(init: Db, xs: seq<Cmd>, ys: seq<Cmd>): Db { ExecAll(ExecAll(init, xs).db, ys).db }

  lemma {:induction false} ExecAllSnoc(db: Db, cs: seq<Cmd>, c: Cmd)
    ensures ExecAll(db, cs + [c]).db == Exec(ExecAll(db, cs).db, c).db
    decreases |cs|
  {
    hide Exec;
    if cs == [] {
      assert cs + [c] == [c] && [c][1..] == [];
    } else {
      assert (cs + [c])[1..] == cs[1..] + [c];
      ExecAllSnoc(Exec(db, cs[0]).db, cs[1..], c);
    }
  }

  /** The two streams may change places. */
  lemma {:induction false} Swap(init: Db, xs: seq<Cmd>, ys: seq<Cmd>)
    requires forall c, d | c in xs && d in ys :: Independent(c, d)
    ensures Both(init, xs, ys) == Both(init, ys, xs)
    decreases |xs|
  {
    hide Exec;
    if xs != [] {
      var db1 := Exec(init, xs[0]).db;
      Swap(db1, xs[1..], ys);
      forall d | d in ys ensures Independent(d, xs[0]) { assert Independent(xs[0], d); }
      MovesAcross(init, ys, xs[0]);
    }
  }

  lemma AdmitsAcrossOne(db: Db, c: Cmd, d: Cmd)
    requires Independent(c, d)
    ensures Admits(Exec(db, c).db, d) <==> Admits(db, d)
  {
    if d.CmdStopShare? {
      if c.CmdCreateUser? {
        hide HashPassword;
      } else {
        GroupWrites(db, c);
        OutsideGroup(Exec(db, c).db.groups, db.groups, c.gid, d.gid);
      }
    } else {
      hide Exec;
      Commute(db, c, d);
    }
  }

  lemma {:induction false} AdmitsAcross(db: Db, cs: seq<Cmd>, d: Cmd)
    requires forall c | c in cs :: Independent(c, d)
    ensures Admits(ExecAll(db, cs).db, d) <==> Admits(db, d)
    decreases |cs|
  {
    hide Exec, Admits;
    if cs != [] {
      assert Independent(cs[0], d);
      AdmitsAcrossOne(db, cs[0], d);
      AdmitsAcross(Exec(db, cs[0]).db, cs[1..], d);
    }
  }

  // ----- the invariant of a link's lifetime ---------------------------------

  /** Entry i reads as command i, which the ones before it admit. */
  ghost predicate Entry(init: Db, ops: seq<Op>, cmds: seq<Cmd>, i: nat)
    requires i < |ops| == |cmds|
  {
    ParseOp(ops[i].kind, ops[i].payload) == Some(cmds[i]) && Admits(ExecAll(init, cmds[..i]).db, cmds[i])
  }

  ghost predicate Reads(init: Db, ops: seq<Op>, cmds: seq<Cmd>) {
    |ops| == |cmds| && Numbered(ops) && forall i | 0 <= i < |ops| :: Entry(init, ops, cmds, i)
  }

  ghost predicate SideInv(init: Db, s: Side) {
    s.node.nextSeq == |s.ops| + 1 && Reads(init, s.ops, s.cmds)
  }

  /** One side holds its own commands and these of the other's. */
  ghost predicate HoldsWith(init: Db, own: Side, others: seq<Cmd>) {
    SameMeta(Both(init, own.cmds, others), own.node.db)
  }

  /** One side holds its own commands and the first of the other's. */
  ghost predicate DbInv(init: Db, own: Side, other: Side) {
    own.node.applied <= |other.cmds| && HoldsWith(init, own, other.cmds[..own.node.applied])
  }

  /** The operations in a channel. */
  function OpsIn(ms: seq<PeerMsg>): seq<Op> {
    if ms == [] then [] else (if ms[0].SyncOp? then [ms[0].op] else []) + OpsIn(ms[1..])
  }

  /** What is on its way to a side: the other's operations it has not applied, in order, and acknowledgements. */
  ghost predicate LineInv(ms: seq<PeerMsg>, own: Side, other: Side)
    requires own.node.applied <= |other.ops|
  {
    && (forall m | m in ms :: m.SyncOp? || m.Ack?)
    && OpsIn(ms) == other.ops[own.node.applied..]
  }

  ghost predicate Inv(init: Db, s: Pair, xs: set<Cmd>, ys: set<Cmd>) {
    && Apart(xs, ys)
    && SideInv(init, s.dialer) && SideInv(init, s.acceptor)
    && DbInv(init, s.dialer, s.acceptor) && DbInv(init, s.acceptor, s.dialer)
    && (forall c | c in s.dialer.cmds :: c in xs) && (forall c | c in s.acceptor.cmds :: c in ys)
    && (s.link.Open? ==>
      && LineInv(s.link.toDialer, s.dialer, s.acceptor) && LineInv(s.link.toAcceptor, s.acceptor, s.dialer))
  }

  lemma {:induction false} OpsInAppend(ms: seq<PeerMsg>, m: PeerMsg)
    ensures OpsIn(ms + [m]) == OpsIn(ms) + if m.SyncOp? then [m.op] else []
  {
    if ms == [] {
      assert ms + [m] == [m] && [m][1..] == [];
      assert OpsIn([m]) == (if m.SyncOp? then [m.op] else []) + OpsIn([]);
    } else {
      OpsInAppend(ms[1..], m);
      assert (ms + [m])[1..] == ms[1..] + [m] && (ms + [m])[0] == ms[0];
      var first, rest := if ms[0].SyncOp? then [ms[0].op] else [], OpsIn(ms[1..]);
      var last := if m.SyncOp? then [m.op] else [];
      assert OpsIn(ms + [m]) == first + OpsIn(ms[1..] + [m]);
      assert first + (rest + last) == (first + rest) + last;
    }
  }

  /** A command issued on one side moves in front of what that side replayed. */
  lemma IssuedBoth(init: Db, cmds: seq<Cmd>, c: Cmd, others: seq<Cmd>)
    requires forall d | d in others :: Independent(d, c)
    ensures Both(init, cmds + [c], others) == Exec(Both(init, cmds, others), c).db
    ensures Admits(Both(init, cmds, others), c) <==> Admits(ExecAll(init, cmds).db, c)
  {
    hide Exec, Admits;
    ExecAllSnoc(init, cmds, c);
    MovesAcross(ExecAll(init, cmds).db, others, c);
    AdmitsAcross(ExecAll(init, cmds).db, others, c);
  }

  /** A replayed command, whatever the side has issued itself. */
  lemma ReplayedBoth(init: Db, cmds: seq<Cmd>, others: seq<Cmd>, d: Cmd)
    requires forall x, y | x in cmds && y in others + [d] :: Independent(x, y)
    requires Admits(ExecAll(init, others).db, d)
    ensures Both(init, cmds, others + [d]) == Exec(Both(init, cmds, others), d).db
    ensures Admits(Both(init, cmds, others), d)
  {
    hide Exec, Admits;
    ExecAllSnoc(ExecAll(init, cmds).db, others, d);
    forall x, y | x in cmds && y in others ensures Independent(x, y) { assert y in others + [d]; }
    Swap(init, cmds, others);
    forall x | x in cmds ensures Independent(x, d) { assert d in others + [d]; }
    AdmitsAcross(ExecAll(init, others).db, cmds, d);
  }

  lemma IndependentSymmetric(c: Cmd, d: Cmd)
    requires Independent(c, d)
    ensures Independent(d, c)
  {
  }

  /** The readable tail of a request, and the command it stands for. */
  ghost predicate Stands(q: Request, c: Cmd) {
    && Readable(q.v, q.kind, q.payload) && Replicated(q.kind)
    && ParseRequest(q.kind, q.payload, q.v.user, q.v.ip, q.v.port).Got?
    && ParseRequest(q.kind, q.payload, q.v.user, q.v.ip, q.v.port).value == c
  }

  lemma IssueMeans(s: Side, q: Request)
    requires Logged(s.node, q) && Readable(q.v, q.kind, q.payload)
    ensures var t, op := Issue(s, q), NewOp(s.node, q);
      && |t.cmds| == |s.cmds| + 1 && t.cmds == s.cmds + [t.cmds[|s.cmds|]] && t.ops == s.ops + [op]
      && var c := t.cmds[|s.cmds|];
      && Stands(q, c) && op.num == s.node.nextSeq && ParseOp(op.kind, op.payload) == Some(c)
      && Exec(s.node.db, c).st == ST_OK && t.node.db == Exec(s.node.db, c).db
      && t.node.nextSeq == s.node.nextSeq + 1 && t.node.applied == s.node.applied
  {
    LoggedIsParsed(q.v, s.node.db, q.kind, q.payload);
    LogReplaysRequest(q.v, s.node.db, q.kind, q.payload);
    hide Exec, ParseOp, ParseRequest, LogPayload, Handle, Readable;
  }

  /** One side issues, whatever it has replayed of the other's. */
  lemma IssueHolds(init: Db, own: Side, others: seq<Cmd>, q: Request)
    requires SideInv(init, own) && HoldsWith(init, own, others)
    requires Logged(own.node, q) && Readable(q.v, q.kind, q.payload)
    requires forall c, d | Stands(q, c) && d in others :: Independent(d, c)
    ensures SideInv(init, Issue(own, q)) && HoldsWith(init, Issue(own, q), others)
  {
    hide Exec, Admits, SameMeta, ParseOp, Stands, Issue, NewOp, Readable, Both, Reads;
    IssueMeans(own, q);
    var t, op := Issue(own, q), NewOp(own.node, q);
    var c := t.cmds[|own.cmds|];
    var f := Both(init, own.cmds, others);
    IssuedBoth(init, own.cmds, c, others);
    SuccessIsAdmitted(own.node.db, c);
    SameMetaSymmetric(f, own.node.db);
    AdmittedReplays(own.node.db, f, c);
    SameMetaSymmetric(t.node.db, Exec(f, c).db);
    IssuedSide(init, own, t, op, c);
  }

  /** One side issues: its own invariants, and what the other side sees of it. */
  lemma IssueKeeps(init: Db, own: Side, other: Side, q: Request)
    requires SideInv(init, own) && DbInv(init, own, other) && |other.ops| == |other.cmds|
    requires Logged(own.node, q) && Readable(q.v, q.kind, q.payload)
    requires forall c, d | Stands(q, c) && d in other.cmds :: Independent(d, c)
    ensures SideInv(init, Issue(own, q)) && DbInv(init, Issue(own, q), other)
    ensures DbInv(init, other, own) ==> DbInv(init, other, Issue(own, q))
  {
    hide SideInv, HoldsWith, Stands, Issue, NewOp, Readable;
    IssueMeans(own, q);
    var others := other.cmds[..own.node.applied];
    forall d | d in others ensures d in other.cmds { }
    IssueHolds(init, own, others, q);
    if DbInv(init, other, own) {
      assert Issue(own, q).cmds[..other.node.applied] == own.cmds[..other.node.applied];
    }
  }

  lemma IssuedSide(init: Db, s: Side, t: Side, op: Op, c: Cmd)
    requires SideInv(init, s) && t.ops == s.ops + [op] && t.cmds == s.cmds + [c]
    requires op.num == |s.ops| + 1 && t.node.nextSeq == s.node.nextSeq + 1
    requires ParseOp(op.kind, op.payload) == Some(c) && Admits(ExecAll(init, s.cmds).db, c)
    ensures SideInv(init, t)
  {
    hide Entry, Exec, ExecAll, Admits, ParseOp, Numbered;
    NumberedNext(s.ops, op);
    forall i | 0 <= i < |t.ops| ensures Entry(init, t.ops, t.cmds, i) {
      if i < |s.ops| { EarlierEntry(init, s, t, i); } else { LastEntry(init, s, t, op, c); }
    }
  }

  lemma NumberedNext(ops: seq<Op>, op: Op)
    requires Numbered(ops) && op.num == |ops| + 1
    ensures Numbered(ops + [op])
  {
  }

  lemma EarlierEntry(init: Db, s: Side, t: Side, i: nat)
    requires i < |s.ops| == |s.cmds| && |t.ops| == |t.cmds| && s.ops <= t.ops && s.cmds <= t.cmds
    requires Entry(init, s.ops, s.cmds, i)
    ensures Entry(init, t.ops, t.cmds, i)
  {
    assert t.cmds[..i] == s.cmds[..i] && t.ops[i] == s.ops[i] && t.cmds[i] == s.cmds[i];
  }

  lemma LastEntry(init: Db, s: Side, t: Side, op: Op, c: Cmd)
    requires t.ops == s.ops + [op] && t.cmds == s.cmds + [c] && |s.ops| == |s.cmds|
    requires ParseOp(op.kind, op.payload) == Some(c) && Admits(ExecAll(init, s.cmds).db, c)
    ensures Entry(init, t.ops, t.cmds, |s.ops|)
  {
    assert t.cmds[..|s.cmds|] == s.cmds;
  }

  /** The other side's next operation arrives: it is admitted, applied and acknowledged. */
  lemma ArrivalKeeps(init: Db, own: Side, other: Side, t: Side)
    requires SideInv(init, own) && SideInv(init, other) && DbInv(init, own, other) && own.node.applied < |other.ops|
    requires t.node == Receive(own.node, SyncOp(other.ops[own.node.applied])).node && t.ops == own.ops
      && t.cmds == own.cmds
    requires forall c, d | c in own.cmds && d in other.cmds :: Independent(c, d)
    ensures SideInv(init, t) && DbInv(init, t, other) && t.node.applied == own.node.applied + 1
    ensures DbInv(init, other, own) ==> DbInv(init, other, t)
  {
    hide Exec, Admits, SameMeta, ParseOp, Tolerated, Both;
    var n := own.node.applied;
    var op, d := other.ops[n], other.cmds[n];
    assert Entry(init, other.ops, other.cmds, n);
    hide Entry;
    var seen := other.cmds[..n];
    assert other.cmds[..n + 1] == seen + [d];
    forall x, y | x in own.cmds && y in seen + [d] ensures Independent(x, y) { assert y in other.cmds; }
    ReplayedBoth(init, own.cmds, seen, d);
    AdmittedReplays(Both(init, own.cmds, seen), own.node.db, d);
    assert op.num == n + 1;
  }

  lemma SessionSideKeeps(init: Db, own: Side, other: Side, e: Event)
    requires SideInv(init, own) && DbInv(init, own, other) && !e.Do?
    ensures SideInv(init, SessionEvent(own, e)) && DbInv(init, SessionEvent(own, e), other)
    ensures DbInv(init, other, own) ==> DbInv(init, other, SessionEvent(own, e))
  {
    hide SameMeta, Apply, Both, Reads;
    SessionKeepsMeta(own.node.db, e);
    SameMetaTransitive(Both(init, own.cmds, other.cmds[..own.node.applied]), own.node.db, Apply(own.node.db, e).db);
  }

  /** An acknowledgement only trims a log. */
  lemma AckSideKeeps(init: Db, own: Side, other: Side, t: Side, num: nat)
    requires SideInv(init, own) && DbInv(init, own, other) && t == own.(node := Receive(own.node, Ack(num)).node)
    ensures SideInv(init, t) && DbInv(init, t, other)
    ensures DbInv(init, other, own) ==> DbInv(init, other, t)
  {
    hide SameMeta, Both, Reads, Trim;
  }

  // ----- the channels -------------------------------------------------------

  /** A line when the side that feeds it issues an operation. */
  lemma LineGrows(ms: seq<PeerMsg>, own: Side, other: Side, t: Side, op: Op)
    requires own.node.applied <= |other.ops| && LineInv(ms, own, other) && t.ops == other.ops + [op]
    ensures LineInv(ms + [SyncOp(op)], own, t)
  {
    OpsInAppend(ms, SyncOp(op));
    assert t.ops[own.node.applied..] == other.ops[own.node.applied..] + [op];
  }

  lemma LineAcked(ms: seq<PeerMsg>, own: Side, other: Side, num: nat)
    requires own.node.applied <= |other.ops| && LineInv(ms, own, other)
    ensures LineInv(ms + [Ack(num)], own, other)
  {
    OpsInAppend(ms, Ack(num));
  }

  /** What the first message of a line is. */
  lemma LineHead(ms: seq<PeerMsg>, own: Side, other: Side)
    requires own.node.applied <= |other.ops| && LineInv(ms, own, other) && ms != []
    ensures ms[0].SyncOp? || ms[0].Ack?
    ensures ms[0].SyncOp? ==> own.node.applied < |other.ops| && ms[0].op == other.ops[own.node.applied]
  {
    assert ms[0] in ms;
    if ms[0].SyncOp? { assert OpsIn(ms)[0] == ms[0].op; }
  }

  lemma LineTail(ms: seq<PeerMsg>, own: Side, other: Side, t: Side)
    requires own.node.applied <= |other.ops| && LineInv(ms, own, other) && ms != []
    requires t.node.applied == own.node.applied + if ms[0].SyncOp? then 1 else 0
    ensures t.node.applied <= |other.ops| && LineInv(ms[1..], t, other)
  {
    LineHead(ms, own, other);
    if ms[0].SyncOp? { assert other.ops[own.node.applied..][1..] == other.ops[own.node.applied + 1..]; }
  }

  // ----- every step of a lifetime keeps the invariant -----------------------

  /** The commands of an action are among those the two sides may issue. */
  ghost predicate Among(a: Action, xs: set<Cmd>, ys: set<Cmd>) {
    && (a.DialerOp? ==> Readable(a.q.v, a.q.kind, a.q.payload) && forall c | Stands(a.q, c) :: c in xs)
    && (a.AcceptorOp? ==> Readable(a.q.v, a.q.kind, a.q.payload) && forall c | Stands(a.q, c) :: c in ys)
  }

  ghost predicate Allowed(a: Action, xs: set<Cmd>, ys: set<Cmd>) { Among(a, xs, ys) && !a.Connect? }

  lemma OpKeeps(init: Db, s: Pair, a: Action, xs: set<Cmd>, ys: set<Cmd>)
    requires Inv(init, s, xs, ys) && Enabled(s, a) && Allowed(a, xs, ys) && (a.DialerOp? || a.AcceptorOp?)
    ensures Inv(init, Next(s, a), xs, ys)
  {
    hide SideInv, DbInv, LineInv, Issue, NewOp, Stands, Readable, Logged, Independent;
    Lengths(init, s, xs, ys);
    if a.DialerOp? {
      forall c, d | Stands(a.q, c) && d in s.acceptor.cmds ensures Independent(d, c) { IndependentSymmetric(c, d); }
      IssueKeeps(init, s.dialer, s.acceptor, a.q);
      IssueMeans(s.dialer, a.q);
      if s.link.Open? {
        LineGrows(s.link.toAcceptor, s.acceptor, s.dialer, Issue(s.dialer, a.q), NewOp(s.dialer.node, a.q));
        SameLine(s.link.toDialer, s.dialer, s.acceptor, Issue(s.dialer, a.q));
      }
    } else {
      IssueKeeps(init, s.acceptor, s.dialer, a.q);
      IssueMeans(s.acceptor, a.q);
      if s.link.Open? {
        LineGrows(s.link.toDialer, s.dialer, s.acceptor, Issue(s.acceptor, a.q), NewOp(s.acceptor.node, a.q));
        SameLine(s.link.toAcceptor, s.acceptor, s.dialer, Issue(s.acceptor, a.q));
      }
    }
  }

  lemma SameLine(ms: seq<PeerMsg>, own: Side, other: Side, t: Side)
    requires own.node.applied <= |other.ops| && LineInv(ms, own, other) && t.node.applied == own.node.applied
    ensures LineInv(ms, t, other)
  {
  }

  lemma Lengths(init: Db, s: Pair, xs: set<Cmd>, ys: set<Cmd>)
    requires Inv(init, s, xs, ys)
    ensures |s.dialer.ops| == |s.dialer.cmds| && |s.acceptor.ops| == |s.acceptor.cmds|
    ensures s.dialer.node.applied <= |s.acceptor.ops| && s.acceptor.node.applied <= |s.dialer.ops|
  {
  }

  /** A message reaches one side, whichever it is. */
  lemma ReceiveKeeps(init: Db, ms: seq<PeerMsg>, back: seq<PeerMsg>, own: Side, other: Side, t: Side,
    replies: seq<PeerMsg>)
    requires SideInv(init, own) && SideInv(init, other) && DbInv(init, own, other) && DbInv(init, other, own)
    requires forall c, d | c in own.cmds && d in other.cmds :: Independent(c, d)
    requires own.node.applied <= |other.ops| && other.node.applied <= |own.ops|
    requires LineInv(ms, own, other) && LineInv(back, other, own) && ms != []
    requires t.node == Receive(own.node, ms[0]).node && t.ops == own.ops && t.cmds == own.cmds
    requires replies == Receive(own.node, ms[0]).replies
    ensures SideInv(init, t) && DbInv(init, t, other) && DbInv(init, other, t)
    ensures t.node.applied <= |other.ops| && LineInv(ms[1..], t, other) && LineInv(back + replies, other, t)
  {
    hide SideInv, DbInv, LineInv, Independent, ApplyRemote, Trim;
    LineHead(ms, own, other);
    if ms[0].SyncOp? {
      ArrivalKeeps(init, own, other, t);
      assert replies == [Ack(ms[0].op.num)];
      LineAcked(back, other, own, ms[0].op.num);
    } else {
      AckSideKeeps(init, own, other, t, ms[0].num);
      assert back + replies == back && t.node.applied == own.node.applied;
    }
    LineTail(ms, own, other, t);
    OtherLine(back + replies, other, own, t);
  }

  lemma OtherLine(ms: seq<PeerMsg>, own: Side, other: Side, t: Side)
    requires own.node.applied <= |other.ops| && LineInv(ms, own, other) && t.ops == other.ops
    ensures LineInv(ms, own, t)
  {
  }

  lemma MessageKeeps(init: Db, s: Pair, a: Action, xs: set<Cmd>, ys: set<Cmd>)
    requires Inv(init, s, xs, ys) && Enabled(s, a) && (a.ToDialer? || a.ToAcceptor?)
    ensures Inv(init, Next(s, a), xs, ys)
  {
    hide SideInv, DbInv, LineInv, Independent, Receive;
    Lengths(init, s, xs, ys);
    var t := Next(s, a);
    if a.ToDialer? && Protocol.Carried(s.link.toDialer[0]) {
      ReceiveKeeps(init, s.link.toDialer, s.link.toAcceptor, s.dialer, s.acceptor, t.dialer,
        Receive(s.dialer.node, s.link.toDialer[0]).replies);
    } else if a.ToAcceptor? && Protocol.Carried(s.link.toAcceptor[0]) {
      forall c, d | c in s.acceptor.cmds && d in s.dialer.cmds ensures Independent(c, d) { IndependentSymmetric(d, c); }
      ReceiveKeeps(init, s.link.toAcceptor, s.link.toDialer, s.acceptor, s.dialer, t.acceptor,
        Receive(s.acceptor.node, s.link.toAcceptor[0]).replies);
    }
  }

  lemma SessionKeeps(init: Db, s: Pair, a: Action, xs: set<Cmd>, ys: set<Cmd>)
    requires Inv(init, s, xs, ys) && Enabled(s, a) && (a.DialerSession? || a.AcceptorSession?)
    ensures Inv(init, Next(s, a), xs, ys)
  {
    hide SideInv, DbInv, LineInv, Apply;
    Lengths(init, s, xs, ys);
    if a.DialerSession? {
      SessionSideKeeps(init, s.dialer, s.acceptor, a.e);
      if s.link.Open? {
        SameLine(s.link.toDialer, s.dialer, s.acceptor, SessionEvent(s.dialer, a.e));
        OtherLine(s.link.toAcceptor, s.acceptor, s.dialer, SessionEvent(s.dialer, a.e));
      }
    } else {
      SessionSideKeeps(init, s.acceptor, s.dialer, a.e);
      if s.link.Open? {
        SameLine(s.link.toAcceptor, s.acceptor, s.dialer, SessionEvent(s.acceptor, a.e));
        OtherLine(s.link.toDialer, s.dialer, s.acceptor, SessionEvent(s.acceptor, a.e));
      }
    }
  }

  lemma StepKeeps(init: Db, s: Pair, a: Action, xs: set<Cmd>, ys: set<Cmd>)
    requires Inv(init, s, xs, ys) && Enabled(s, a) && Allowed(a, xs, ys)
    ensures Inv(init, Next(s, a), xs, ys)
  {
    match a
    case DialerOp(q) => hide Inv, Next, Enabled, Allowed; OpKeeps(init, s, a, xs, ys);
    case AcceptorOp(q) => hide Inv, Next, Enabled, Allowed; OpKeeps(init, s, a, xs, ys);
    case DialerSession(e) => hide Inv, Next, Enabled; SessionKeeps(init, s, a, xs, ys);
    case AcceptorSession(e) => hide Inv, Next, Enabled; SessionKeeps(init, s, a, xs, ys);
    case Drop => hide SideInv, DbInv, LineInv;
    case ToDialer => hide Inv, Next, Enabled; MessageKeeps(init, s, a, xs, ys);
    case ToAcceptor => hide Inv, Next, Enabled; MessageKeeps(init, s, a, xs, ys);
  }

  lemma {:induction false} RunKeeps(init: Db, s: Pair, acts: seq<Action>, xs: set<Cmd>, ys: set<Cmd>)
    requires Inv(init, s, xs, ys) && Runs(s, acts) && forall a | a in acts :: Allowed(a, xs, ys)
    ensures Inv(init, Run(s, acts), xs, ys)
    decreases |acts|
  {
    hide Inv, Next, Enabled, Allowed;
    if acts != [] {
      assert acts[0] in acts;
      StepKeeps(init, s, acts[0], xs, ys);
      RunKeeps(init, Next(s, acts[0]), acts[1..], xs, ys);
    }
  }

  /** A link between equal trackers, its catch-up served. */
  function Settled(db: Db): Pair { Start(db).(link := Open([], [])) }

  lemma ConnectSettles(db: Db)
    requires !IsEmpty(db)
    ensures Runs(Start(db), [Connect, ToAcceptor]) && Run(Start(db), [Connect, ToAcceptor]) == Settled(db)
  {
    hide IsEmpty;
    var s1 := Next(Start(db), Connect);
    assert Greeting(Start(db).dialer.node, 0)[1..] == [Catchup(0)];
    assert s1.link == Open([], [Catchup(0)]);
    Protocol.SmallCarried(Catchup(0));
    var s2 := Next(s1, ToAcceptor);
    assert Wrap([]) == [] && s2.link == Open([], []);
    assert [Connect, ToAcceptor][1..] == [ToAcceptor] && [ToAcceptor][1..] == [];
    assert Runs(s2, []) && Runs(s1, [ToAcceptor]) && Run(s1, [ToAcceptor]) == s2;
  }

  lemma SettledInv(db: Db, xs: set<Cmd>, ys: set<Cmd>)
    requires Apart(xs, ys)
    ensures Inv(db, Settled(db), xs, ys)
  {
    SameMetaReflexive(db);
  }

  /** Nothing is on its way in either direction but acknowledgements. */
  predicate Drained(s: Pair) { s.link.Open? && OpsIn(s.link.toDialer) == [] && OpsIn(s.link.toAcceptor) == [] }

  /**
   Active/active over one link: whatever operations the clients of both trackers issue, in any
   interleaving with each other, with logins and logouts and with the deliveries of the two
   channels, if the two sides' commands are independent then once the link has drained each side
   has applied every operation of the other and both hold the same metadata.
   */
  lemma ActiveActiveAgrees(db: Db, acts: seq<Action>, xs: set<Cmd>, ys: set<Cmd>)
    requires Apart(xs, ys) && Runs(Settled(db), acts) && forall a | a in acts :: Allowed(a, xs, ys)
    requires Drained(Run(Settled(db), acts))
    ensures var s := Run(Settled(db), acts);
      && s.dialer.node.applied == |s.acceptor.ops| && s.acceptor.node.applied == |s.dialer.ops|
      && SameMeta(s.dialer.node.db, s.acceptor.node.db)
      && SameMeta(Both(db, s.dialer.cmds, s.acceptor.cmds), s.dialer.node.db)
  {
    hide Inv, Runs, Run, Allowed, Settled, SameMeta;
    SettledInv(db, xs, ys);
    RunKeeps(db, Settled(db), acts, xs, ys);
    DrainedPairAgrees(db, Run(Settled(db), acts), xs, ys);
  }

  lemma DrainedPairAgrees(db: Db, s: Pair, xs: set<Cmd>, ys: set<Cmd>)
    requires Inv(db, s, xs, ys) && Drained(s)
    ensures s.dialer.node.applied == |s.acceptor.ops| && s.acceptor.node.applied == |s.dialer.ops|
    ensures SameMeta(s.dialer.node.db, s.acceptor.node.db)
    ensures SameMeta(Both(db, s.dialer.cmds, s.acceptor.cmds), s.dialer.node.db)
  {
    hide SameMeta, SideInv, Independent, Both;
    Lengths(db, s, xs, ys);
    var c, d := s.dialer.cmds, s.acceptor.cmds;
    assert d[..s.dialer.node.applied] == d && c[..s.acceptor.node.applied] == c;
    Swap(db, c, d);
    SameMetaSymmetric(Both(db, c, d), s.dialer.node.db);
    SameMetaTransitive(s.dialer.node.db, Both(db, c, d), s.acceptor.node.db);
  }

  // ----- the dialer's operations across a drop ------------------------------

  /** The dialer's operations up to n are not on the link, and nobody will ask for them. */
  ghost predicate Beyond(s: Pair, n: nat) {
    && s.dialer.node.nextSeq > n
    && Protocol.HasUsers(s.dialer.node.db) && Protocol.HasUsers(s.acceptor.node.db)
    && (s.link.Open? ==>
      && (forall m | m in s.link.toAcceptor :: m.Catchup? || m.Ack? || (m.SyncOp? && m.op.num > n))
      && (forall m | m in s.link.toDialer :: m.SyncOp? || m.Ack?))
  }

  lemma KeepsUsers(db: Db, c: Cmd)
    requires Protocol.HasUsers(db)
    ensures Protocol.HasUsers(Exec(db, c).db)
  {
    hide HashPassword, AllBits, Least;
    var u :| u in db.users.Keys;
    if c.CmdCreateUser? { assert u in Exec(db, c).db.users.Keys; } else { GroupWrites(db, c); }
  }

  lemma KeepsUsersRemote(db: Db, kind: U16, payload: Str)
    requires Protocol.HasUsers(db)
    ensures Protocol.HasUsers(ApplyRemote(db, kind, payload).db)
  {
    hide Exec, Tolerated, ParseOp;
    if ParseOp(kind, payload).Some? { KeepsUsers(db, ParseOp(kind, payload).value); }
  }

  lemma KeepsUsersIssue(s: Side, q: Request)
    requires Protocol.HasUsers(s.node.db) && Logged(s.node, q)
    ensures Protocol.HasUsers(Issue(s, q).node.db)
  {
    LoggedIsParsed(q.v, s.node.db, q.kind, q.payload);
    hide Exec, Handle, ParseRequest, LogPayload;
    KeepsUsers(s.node.db, ParseRequest(q.kind, q.payload, q.v.user, q.v.ip, q.v.port).value);
  }

  lemma KeepsUsersSession(db: Db, e: Event)
    requires Protocol.HasUsers(db) && !e.Do?
    ensures Protocol.HasUsers(Apply(db, e).db)
  {
    SessionKeepsMeta(db, e);
    Protocol.SameMetaUsers(db, Apply(db, e).db);
  }

  lemma BeyondStep(s: Pair, a: Action, n: nat)
    requires Beyond(s, n) && Enabled(s, a)
    ensures Beyond(Next(s, a), n)
    ensures forall k | k <= n :: k in Next(s, a).heard <==> k in s.heard
  {
    match a
    case DialerOp(q) => hide Handle, Protocol.HasUsers, Logged; KeepsUsersIssue(s.dialer, q);
    case AcceptorOp(q) => hide Handle, Protocol.HasUsers, Logged; KeepsUsersIssue(s.acceptor, q);
    case DialerSession(e) => hide Apply, Protocol.HasUsers; KeepsUsersSession(s.dialer.node.db, e);
    case AcceptorSession(e) => hide Apply, Protocol.HasUsers; KeepsUsersSession(s.acceptor.node.db, e);
    case Connect =>
      Protocol.UsersNotEmpty(s.dialer.node.db);
      Protocol.UsersNotEmpty(s.acceptor.node.db);
      hide IsEmpty, Protocol.HasUsers;
    case Drop =>
    case ToDialer => DialerStep(s, n);
    case ToAcceptor => AcceptorStep(s, n);
  }

  lemma DialerStep(s: Pair, n: nat)
    requires Beyond(s, n) && s.link.Open? && s.link.toDialer != []
    ensures Beyond(Next(s, ToDialer), n) && Next(s, ToDialer).heard == s.heard
  {
    hide Protocol.HasUsers, Protocol.Carried, ApplyRemote, Trim;
    var m := s.link.toDialer[0];
    assert m in s.link.toDialer;
    if m.SyncOp? { KeepsUsersRemote(s.dialer.node.db, m.op.kind, m.op.payload); }
  }

  lemma AcceptorStep(s: Pair, n: nat)
    requires Beyond(s, n) && s.link.Open? && s.link.toAcceptor != []
    ensures Beyond(Next(s, ToAcceptor), n)
    ensures forall k | k <= n :: k in Next(s, ToAcceptor).heard <==> k in s.heard
  {
    hide Protocol.HasUsers, Protocol.Carried, ApplyRemote, Trim, OpsAfter;
    var m := s.link.toAcceptor[0];
    assert m in s.link.toAcceptor;
    if m.SyncOp? { KeepsUsersRemote(s.acceptor.node.db, m.op.kind, m.op.payload); }
  }

  /**
   For every state without a link, and every run from it, with any reconnections and any new
   operations: what the acceptor has not been handed of the dialer's operations, it never will be.
   */
  lemma DialerOpsLost(s: Pair, acts: seq<Action>, n: nat)
    requires s.link.Cut? && n < s.dialer.node.nextSeq && Runs(s, acts)
    requires Protocol.HasUsers(s.dialer.node.db) && Protocol.HasUsers(s.acceptor.node.db)
    ensures forall k | k <= n :: k in Run(s, acts).heard <==> k in s.heard
  {
    LostFrom(s, acts, n);
  }

  lemma {:induction false} LostFrom(s: Pair, acts: seq<Action>, n: nat)
    requires Beyond(s, n) && Runs(s, acts)
    ensures forall k | k <= n :: k in Run(s, acts).heard <==> k in s.heard
    decreases |acts|
  {
    hide Beyond, Enabled, Next;
    if acts != [] {
      BeyondStep(s, acts[0], n);
      LostFrom(Next(s, acts[0]), acts[1..], n);
    }
  }
}
