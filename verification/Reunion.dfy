/**
 Both trackers at work across any number of link drops. The acceptor's operations survive:
 the dialer always holds its own commands and the first `applied` of the acceptor's. Of the
 dialer's, the acceptor holds exactly those it was handed, in order; a drop loses the rest.
 */
module Reunion {
  import opened Bytes
  import opened Tracker
  import opened Replay
  import opened Wire
  import opened Sync
  import opened History
  import opened Session
  import opened Duplex
  import Protocol

  /** The commands whose numbers are in a set, in order. */
  function Pick(cmds: seq<Cmd>, heard: set<nat>): seq<Cmd> {
    if cmds == [] then []
    else Pick(cmds[..|cmds| - 1], heard) + if |cmds| in heard then [cmds[|cmds| - 1]] else []
  }

  /** No catch-up request is waiting to be served. */
  ghost predicate Quiet(link: Lines) {
    link.Open? ==> forall m | m in link.toAcceptor :: !m.Catchup?
  }

  /** The commands stay among those of the two sides, and the acceptor's respect the quiet catch-up. */
  ghost predicate Gentle(s: Pair, a: Action, xs: set<Cmd>, ys: set<Cmd>) {
    Among(a, xs, ys) && (a.AcceptorOp? ==> Quiet(s.link))
  }

  ghost predicate GentleRuns(s: Pair, acts: seq<Action>, xs: set<Cmd>, ys: set<Cmd>)
    decreases |acts|
  {
    acts != [] ==>
      Enabled(s, acts[0]) && Gentle(s, acts[0], xs, ys) && GentleRuns(Next(s, acts[0]), acts[1..], xs, ys)
  }

  // ----- the commands that were heard ---------------------------------------

  ghost predicate HeardUpTo(heard: set<nat>, n: nat) {
    forall h | h in heard :: 1 <= h <= n
  }

  lemma {:induction false} PickIn(cmds: seq<Cmd>, heard: set<nat>)
    ensures forall c | c in Pick(cmds, heard) :: c in cmds
    decreases |cmds|
  {
    if cmds != [] { PickIn(cmds[..|cmds| - 1], heard); }
  }

  lemma {:induction false} PickSame(cmds: seq<Cmd>, a: set<nat>, b: set<nat>)
    requires forall k | 1 <= k <= |cmds| :: k in a <==> k in b
    ensures Pick(cmds, a) == Pick(cmds, b)
    decreases |cmds|
  {
    if cmds != [] { PickSame(cmds[..|cmds| - 1], a, b); }
  }

  lemma PickUnheard(cmds: seq<Cmd>, c: Cmd, heard: set<nat>)
    requires HeardUpTo(heard, |cmds|)
    ensures Pick(cmds + [c], heard) == Pick(cmds, heard)
  {
    assert (cmds + [c])[..|cmds|] == cmds;
  }

  lemma {:induction false} PickMore(cmds: seq<Cmd>, heard: set<nat>, n: nat)
    requires 1 <= n <= |cmds| && HeardUpTo(heard, n - 1)
    ensures Pick(cmds, heard + {n}) == Pick(cmds, heard) + [cmds[n - 1]]
    decreases |cmds|
  {
    var before := cmds[..|cmds| - 1];
    if n == |cmds| { PickSame(before, heard + {n}, heard); } else { PickMore(before, heard, n); }
  }

  lemma {:induction false} PickAll(cmds: seq<Cmd>, heard: set<nat>)
    requires forall k | 1 <= k <= |cmds| :: k in heard
    ensures Pick(cmds, heard) == cmds
    decreases |cmds|
  {
    if cmds != [] { PickAll(cmds[..|cmds| - 1], heard); }
  }

  /** Any command, admitted or not, takes equal metadata to equal metadata. */
  lemma ExecKeepsSame(a: Db, b: Db, c: Cmd)
    requires SameMeta(a, b)
    ensures SameMeta(Exec(a, c).db, Exec(b, c).db)
  {
    hide Exec, Admits, SameMeta, Tolerated;
    SameMetaSymmetric(a, b);
    if Admits(a, c) {
      AdmittedReplays(a, b, c);
    } else if Admits(b, c) {
      AdmittedReplays(b, a, c);
    } else {
      if Exec(a, c).st == ST_OK { SuccessIsAdmitted(a, c); }
      if Exec(b, c).st == ST_OK { SuccessIsAdmitted(b, c); }
      FailureChangesNothing(a, c);
      FailureChangesNothing(b, c);
    }
  }

  // ----- the invariant ------------------------------------------------------

  /** The acceptor's log is an end of its operations that reaches back to what the dialer has applied. */
  ghost predicate LogInv(acceptor: Side, applied: nat) {
    var log, ops := acceptor.node.log, acceptor.ops;
    |log| <= |ops| && log == ops[|ops| - |log|..] && |ops| - |log| <= applied <= |ops|
  }

  /** The dialer's operations on the line are its latest, and none of them was heard. */
  ghost predicate DialerLine(ms: seq<PeerMsg>, ops: seq<Op>, heard: set<nat>) {
    var sent := OpsIn(ms);
    |sent| <= |ops| && sent == ops[|ops| - |sent|..] && HeardUpTo(heard, |ops| - |sent|)
  }

  ghost predicate OpsOrAcks(ms: seq<PeerMsg>, applied: nat) {
    forall m | m in ms :: m.SyncOp? || (m.Ack? && m.num <= applied)
  }

  /** Everything the dialer has not applied is on its way to it. */
  ghost predicate Flowing(link: Lines, dialer: Side, acceptor: Side)
    requires link.Open? && dialer.node.applied <= |acceptor.ops|
  {
    LineInv(link.toDialer, dialer, acceptor) && OpsOrAcks(link.toAcceptor, dialer.node.applied)
  }

  /** The catch-up request is first on its line, and nothing has come back yet. */
  ghost predicate Pending(link: Lines, applied: nat)
    requires link.Open?
  {
    && link.toDialer == [] && link.toAcceptor != [] && link.toAcceptor[0] == Catchup(applied)
    && OpsOrAcks(link.toAcceptor[1..], applied)
  }

  /** Everything but what is in flight. */
  ghost predicate Core(init: Db, s: Pair, xs: set<Cmd>, ys: set<Cmd>) {
    && Apart(xs, ys)
    && SideInv(init, s.dialer) && SideInv(init, s.acceptor)
    && DbInv(init, s.dialer, s.acceptor) && HoldsWith(init, s.acceptor, Pick(s.dialer.cmds, s.heard))
    && (forall c | c in s.dialer.cmds :: c in xs) && (forall c | c in s.acceptor.cmds :: c in ys)
    && LogInv(s.acceptor, s.dialer.node.applied) && HeardUpTo(s.heard, |s.dialer.ops|)
    && Protocol.HasUsers(s.dialer.node.db) && Protocol.HasUsers(s.acceptor.node.db)
  }

  ghost predicate LinkInv(s: Pair)
    requires s.dialer.node.applied <= |s.acceptor.ops|
  {
    s.link.Open? ==>
      && DialerLine(s.link.toAcceptor, s.dialer.ops, s.heard)
      && (Flowing(s.link, s.dialer, s.acceptor) || Pending(s.link, s.dialer.node.applied))
  }

  ghost predicate Inv(init: Db, s: Pair, xs: set<Cmd>, ys: set<Cmd>) {
    Core(init, s, xs, ys) && LinkInv(s)
  }

  lemma Lengths(init: Db, s: Pair, xs: set<Cmd>, ys: set<Cmd>)
    requires Core(init, s, xs, ys)
    ensures |s.dialer.ops| == |s.dialer.cmds| && |s.acceptor.ops| == |s.acceptor.cmds|
    ensures s.dialer.node.applied <= |s.acceptor.ops|
  {
    hide HoldsWith, LogInv, HeardUpTo, Protocol.HasUsers, Apart;
  }

  lemma StartInv(init: Db, xs: set<Cmd>, ys: set<Cmd>)
    requires Apart(xs, ys) && Protocol.HasUsers(init)
    ensures Inv(init, Start(init), xs, ys)
  {
    SameMetaReflexive(init);
    assert Pick([], {}) == [];
  }

  // ----- the dialer's clients -----------------------------------------------

  lemma DialerOpCore(init: Db, s: Pair, q: Request, xs: set<Cmd>, ys: set<Cmd>)
    requires Core(init, s, xs, ys) && Logged(s.dialer.node, q) && Among(DialerOp(q), xs, ys)
    ensures var t := Next(s, DialerOp(q)); Core(init, t, xs, ys) && t.dialer.node.applied == s.dialer.node.applied
  {
    hide SideInv, HoldsWith, LogInv, Issue, NewOp, Stands, Readable, Logged, Independent, Protocol.HasUsers;
    Lengths(init, s, xs, ys);
    forall c, d | Stands(q, c) && d in s.acceptor.cmds ensures Independent(d, c) { IndependentSymmetric(c, d); }
    IssueKeeps(init, s.dialer, s.acceptor, q);
    IssueMeans(s.dialer, q);
    var t := Issue(s.dialer, q);
    PickUnheard(s.dialer.cmds, t.cmds[|s.dialer.cmds|], s.heard);
    KeepsUsersIssue(s.dialer, q);
  }

  lemma DialerOpLink(init: Db, s: Pair, q: Request, xs: set<Cmd>, ys: set<Cmd>)
    requires Inv(init, s, xs, ys) && Logged(s.dialer.node, q) && Among(DialerOp(q), xs, ys) && s.link.Open?
    ensures LinkInv(Next(s, DialerOp(q)))
  {
    Lengths(init, s, xs, ys);
    IssueMeans(s.dialer, q);
    hide Core, Issue, NewOp, Stands, Readable, Logged, LineInv, HeardUpTo;
    var t, op := Issue(s.dialer, q), NewOp(s.dialer.node, q);
    DialerLineGrows(s.link.toAcceptor, s.dialer.ops, s.heard, op);
    hide DialerLine;
    if Flowing(s.link, s.dialer, s.acceptor) {
      SameLine(s.link.toDialer, s.dialer, s.acceptor, t);
    } else {
      PendingGrows(s.link, s.dialer.node.applied, SyncOp(op));
    }
  }

  lemma PendingGrows(link: Lines, applied: nat, m: PeerMsg)
    requires link.Open? && Pending(link, applied) && m.SyncOp?
    ensures Pending(Open(link.toDialer, link.toAcceptor + [m]), applied)
  {
    assert (link.toAcceptor + [m])[1..] == link.toAcceptor[1..] + [m];
  }

  lemma DialerLineGrows(ms: seq<PeerMsg>, ops: seq<Op>, heard: set<nat>, op: Op)
    requires DialerLine(ms, ops, heard)
    ensures DialerLine(ms + [SyncOp(op)], ops + [op], heard)
  {
    OpsInAppend(ms, SyncOp(op));
    var sent := OpsIn(ms);
    assert (ops + [op])[|ops| - |sent|..] == ops[|ops| - |sent|..] + [op];
  }

  // ----- the acceptor's clients ---------------------------------------------

  lemma AcceptorOpCore(init: Db, s: Pair, q: Request, xs: set<Cmd>, ys: set<Cmd>)
    requires Core(init, s, xs, ys) && Logged(s.acceptor.node, q) && Among(AcceptorOp(q), xs, ys)
    ensures var t := Next(s, AcceptorOp(q)); Core(init, t, xs, ys) && t.dialer.node.applied == s.dialer.node.applied
  {
    hide SideInv, HoldsWith, Issue, NewOp, Stands, Readable, Logged, Independent, Protocol.HasUsers, HeardUpTo;
    Lengths(init, s, xs, ys);
    var others, n := Pick(s.dialer.cmds, s.heard), s.dialer.node.applied;
    PickIn(s.dialer.cmds, s.heard);
    IssueHolds(init, s.acceptor, others, q);
    IssueMeans(s.acceptor, q);
    KeepsUsersIssue(s.acceptor, q);
    var t := Issue(s.acceptor, q);
    assert t.cmds[..n] == s.acceptor.cmds[..n];
    IssueLogs(s.acceptor, q, n);
  }

  lemma IssueLogs(s: Side, q: Request, applied: nat)
    requires LogInv(s, applied) && Logged(s.node, q) && Readable(q.v, q.kind, q.payload)
    ensures LogInv(Issue(s, q), applied)
  {
    IssueMeans(s, q);
    hide Handle, Readable, Stands, ParseRequest;
    var op, k := NewOp(s.node, q), |s.ops| - |s.node.log|;
    assert Issue(s, q).node.log == s.node.log + [op];
    assert (s.ops + [op])[k..] == s.ops[k..] + [op];
  }

  lemma AcceptorOpLink(init: Db, s: Pair, q: Request, xs: set<Cmd>, ys: set<Cmd>)
    requires Inv(init, s, xs, ys) && Logged(s.acceptor.node, q) && Gentle(s, AcceptorOp(q), xs, ys) && s.link.Open?
    ensures LinkInv(Next(s, AcceptorOp(q)))
  {
    Lengths(init, s, xs, ys);
    IssueMeans(s.acceptor, q);
    hide Core, Issue, NewOp, Stands, Readable, Logged, LineInv, HeardUpTo, DialerLine;
    Head(s);
    LineGrows(s.link.toDialer, s.dialer, s.acceptor, Issue(s.acceptor, q), NewOp(s.acceptor.node, q));
  }

  lemma OpKeeps(init: Db, s: Pair, a: Action, xs: set<Cmd>, ys: set<Cmd>)
    requires Inv(init, s, xs, ys) && Enabled(s, a) && Gentle(s, a, xs, ys) && (a.DialerOp? || a.AcceptorOp?)
    ensures Inv(init, Next(s, a), xs, ys)
  {
    hide Core, LinkInv, Among, Quiet, Logged;
    assert s.link.Cut? ==> Next(s, a).link.Cut?;
    hide Next;
    if a.DialerOp? {
      DialerOpCore(init, s, a.q, xs, ys);
      Lengths(init, Next(s, a), xs, ys);
      if s.link.Open? { DialerOpLink(init, s, a.q, xs, ys); } else { CutLink(Next(s, a)); }
    } else {
      AcceptorOpCore(init, s, a.q, xs, ys);
      Lengths(init, Next(s, a), xs, ys);
      if s.link.Open? { AcceptorOpLink(init, s, a.q, xs, ys); } else { CutLink(Next(s, a)); }
    }
  }

  lemma CutLink(s: Pair)
    requires s.link.Cut? && s.dialer.node.applied <= |s.acceptor.ops|
    ensures LinkInv(s)
  {
  }

  // ----- sessions, links and drops ------------------------------------------

  lemma SessionKeeps(init: Db, s: Pair, a: Action, xs: set<Cmd>, ys: set<Cmd>)
    requires Inv(init, s, xs, ys) && Enabled(s, a) && (a.DialerSession? || a.AcceptorSession?)
    ensures Inv(init, Next(s, a), xs, ys)
  {
    hide SideInv, Apply, LineInv, HeardUpTo, DialerLine, Protocol.HasUsers, SameMeta, Both;
    Lengths(init, s, xs, ys);
    if a.DialerSession? {
      SessionSideKeeps(init, s.dialer, s.acceptor, a.e);
      KeepsUsersSession(s.dialer.node.db, a.e);
      if s.link.Open? && Flowing(s.link, s.dialer, s.acceptor) {
        SameLine(s.link.toDialer, s.dialer, s.acceptor, SessionEvent(s.dialer, a.e));
      }
    } else {
      SessionHolds(init, s.acceptor, Pick(s.dialer.cmds, s.heard), a.e);
      KeepsUsersSession(s.acceptor.node.db, a.e);
      if s.link.Open? && Flowing(s.link, s.dialer, s.acceptor) {
        OtherLine(s.link.toDialer, s.dialer, s.acceptor, SessionEvent(s.acceptor, a.e));
      }
    }
  }

  lemma SessionHolds(init: Db, own: Side, others: seq<Cmd>, e: Event)
    requires SideInv(init, own) && HoldsWith(init, own, others) && !e.Do?
    ensures SideInv(init, SessionEvent(own, e)) && HoldsWith(init, SessionEvent(own, e), others)
  {
    hide SameMeta, Apply, Both, Reads;
    SessionKeepsMeta(own.node.db, e);
    SameMetaTransitive(Both(init, own.cmds, others), own.node.db, Apply(own.node.db, e).db);
  }

  lemma ConnectKeeps(init: Db, s: Pair, xs: set<Cmd>, ys: set<Cmd>)
    requires Inv(init, s, xs, ys) && s.link.Cut?
    ensures Inv(init, Next(s, Connect), xs, ys)
  {
    Connects(s);
    hide SideInv, DbInv, HoldsWith, LogInv, Protocol.HasUsers, Apart, Next;
    Lengths(init, s, xs, ys);
    hide HeardUpTo;
    NothingOnLine(s.dialer.ops, s.heard, Catchup(s.dialer.node.applied));
  }

  lemma Connects(s: Pair)
    requires Protocol.HasUsers(s.dialer.node.db) && Protocol.HasUsers(s.acceptor.node.db)
    ensures Next(s, Connect) == s.(link := Open([], [Catchup(s.dialer.node.applied)]))
  {
    Protocol.UsersNotEmpty(s.dialer.node.db);
    Protocol.UsersNotEmpty(s.acceptor.node.db);
    hide IsEmpty, Protocol.HasUsers;
    assert Greeting(s.dialer.node, 0)[1..] == [Catchup(s.dialer.node.applied)];
  }

  lemma NothingOnLine(ops: seq<Op>, heard: set<nat>, m: PeerMsg)
    requires HeardUpTo(heard, |ops|) && !m.SyncOp?
    ensures DialerLine([m], ops, heard)
  {
    assert [m][1..] == [];
    assert OpsIn([m]) == [] && ops[|ops|..] == [];
  }

  // ----- a message reaches the dialer ---------------------------------------

  lemma HeadGone(ms: seq<PeerMsg>)
    requires ms != [] && !ms[0].SyncOp?
    ensures OpsIn(ms[1..]) == OpsIn(ms)
  {
    assert [] + OpsIn(ms[1..]) == OpsIn(ms[1..]);
  }

  lemma AckOnLine(ms: seq<PeerMsg>, ops: seq<Op>, heard: set<nat>, num: nat)
    requires DialerLine(ms, ops, heard)
    ensures DialerLine(ms + [Ack(num)], ops, heard)
  {
    OpsInAppend(ms, Ack(num));
    assert OpsIn(ms) + [] == OpsIn(ms);
  }

  /** What a message to the dialer changes. */
  lemma DialerReacts(s: Pair)
    requires s.link.Open? && s.link.toDialer != [] && Protocol.Carried(s.link.toDialer[0])
    ensures var r := Receive(s.dialer.node, s.link.toDialer[0]);
      Next(s, ToDialer) == s.(dialer := s.dialer.(node := r.node),
        link := Open(s.link.toDialer[1..], s.link.toAcceptor + r.replies))
  {
    hide Receive, Protocol.Carried;
  }

  lemma OpReceived(n: Node, op: Op)
    ensures Receive(n, SyncOp(op)).replies == [Ack(op.num)] && Receive(n, SyncOp(op)).node.log == n.log
    ensures Receive(n, SyncOp(op)).node.db == ApplyRemote(n.db, op.kind, op.payload).db
    ensures Receive(n, SyncOp(op)).node.nextSeq == n.nextSeq
  {
    hide ApplyRemote;
  }

  lemma AckReceived(n: Node, num: nat)
    ensures Receive(n, Ack(num)) == Reaction(n.(log := Trim(n.log, num)), [])
  {
    hide Trim;
  }

  lemma DeliveredCore(init: Db, s: Pair, t: Pair, xs: set<Cmd>, ys: set<Cmd>)
    requires Core(init, s, xs, ys) && t == s.(dialer := t.dialer, link := t.link)
    requires SideInv(init, t.dialer) && DbInv(init, t.dialer, s.acceptor) && Protocol.HasUsers(t.dialer.node.db)
    requires t.dialer.ops == s.dialer.ops && t.dialer.cmds == s.dialer.cmds
    requires s.dialer.node.applied <= t.dialer.node.applied
    ensures Core(init, t, xs, ys)
  {
    Lengths(init, s, xs, ys);
    SideLengths(init, s.acceptor);
    hide SideInv, HoldsWith, HeardUpTo, Protocol.HasUsers, Apart;
  }

  lemma SideLengths(init: Db, s: Side)
    requires SideInv(init, s)
    ensures |s.ops| == |s.cmds|
  {
  }

  lemma CmdsApart(init: Db, s: Pair, xs: set<Cmd>, ys: set<Cmd>)
    requires Core(init, s, xs, ys)
    ensures forall c, d | c in s.dialer.cmds && d in s.acceptor.cmds :: Independent(c, d)
  {
    hide SideInv, HoldsWith, HeardUpTo, Protocol.HasUsers, DbInv, LogInv, Independent;
  }

  lemma TakenCore(init: Db, s: Pair, t: Pair, op: Op, xs: set<Cmd>, ys: set<Cmd>)
    requires Core(init, s, xs, ys) && s.dialer.node.applied < |s.acceptor.ops|
    requires op == s.acceptor.ops[s.dialer.node.applied]
    requires t == s.(dialer := s.dialer.(node := Receive(s.dialer.node, SyncOp(op)).node), link := t.link)
    ensures Core(init, t, xs, ys) && t.dialer.node.applied == s.dialer.node.applied + 1 == op.num
  {
    CmdsApart(init, s, xs, ys);
    hide SideInv, HoldsWith, HeardUpTo, Protocol.HasUsers, Independent, Receive, LogInv, Apart, DbInv, ApplyRemote,
      Pick;
    OpReceived(s.dialer.node, op);
    ArrivalKeeps(init, s.dialer, s.acceptor, t.dialer);
    ArrivedNumber(init, s.acceptor, s.dialer.node.applied);
    KeepsUsersRemote(s.dialer.node.db, op.kind, op.payload);
    DeliveredCore(init, s, t, xs, ys);
  }

  lemma DialerTakesOp(init: Db, s: Pair, xs: set<Cmd>, ys: set<Cmd>)
    requires Inv(init, s, xs, ys) && s.link.Open? && s.link.toDialer != [] && s.link.toDialer[0].SyncOp?
    requires Flowing(s.link, s.dialer, s.acceptor) && Protocol.Carried(s.link.toDialer[0])
    ensures Inv(init, Next(s, ToDialer), xs, ys)
  {
    Lengths(init, s, xs, ys);
    DialerReacts(s);
    hide Core, Protocol.Carried, DialerLine, LineInv, Next, Receive, OpsOrAcks, Pending;
    var m, t := s.link.toDialer[0], Next(s, ToDialer);
    LineHead(s.link.toDialer, s.dialer, s.acceptor);
    OpReceived(s.dialer.node, m.op);
    TakenCore(init, s, t, m.op, xs, ys);
    MoreAcks(s.link.toAcceptor, s.dialer.node.applied, m.op.num);
    AckOnLine(s.link.toAcceptor, s.dialer.ops, s.heard, m.op.num);
    LineTail(s.link.toDialer, s.dialer, s.acceptor, t.dialer);
  }

  lemma MoreAcks(ms: seq<PeerMsg>, applied: nat, num: nat)
    requires OpsOrAcks(ms, applied) && applied <= num
    ensures OpsOrAcks(ms + [Ack(num)], num)
  {
  }

  lemma DialerTakesAck(init: Db, s: Pair, xs: set<Cmd>, ys: set<Cmd>)
    requires Inv(init, s, xs, ys) && s.link.Open? && s.link.toDialer != [] && s.link.toDialer[0].Ack?
    requires Flowing(s.link, s.dialer, s.acceptor) && Protocol.Carried(s.link.toDialer[0])
    ensures Inv(init, Next(s, ToDialer), xs, ys)
  {
    Lengths(init, s, xs, ys);
    DialerReacts(s);
    hide SideInv, HoldsWith, HeardUpTo, Protocol.HasUsers, Protocol.Carried, Independent, DialerLine, LineInv, Next,
      Receive, LogInv;
    var m, t := s.link.toDialer[0], Next(s, ToDialer);
    AckReceived(s.dialer.node, m.num);
    AckSideKeeps(init, s.dialer, s.acceptor, t.dialer, m.num);
    DeliveredCore(init, s, t, xs, ys);
    hide Core, DbInv;
    assert s.link.toAcceptor + [] == s.link.toAcceptor;
    LineTail(s.link.toDialer, s.dialer, s.acceptor, t.dialer);
  }

  lemma ToDialerKeeps(init: Db, s: Pair, xs: set<Cmd>, ys: set<Cmd>)
    requires Inv(init, s, xs, ys) && s.link.Open? && s.link.toDialer != []
    requires Protocol.Carried(s.link.toDialer[0])
    ensures Inv(init, Next(s, ToDialer), xs, ys)
  {
    Lengths(init, s, xs, ys);
    hide Core, Protocol.Carried, DialerLine, LineInv, Next;
    LineHead(s.link.toDialer, s.dialer, s.acceptor);
    hide Inv;
    if s.link.toDialer[0].SyncOp? { DialerTakesOp(init, s, xs, ys); } else { DialerTakesAck(init, s, xs, ys); }
  }

  lemma ArrivedNumber(init: Db, s: Side, n: nat)
    requires SideInv(init, s) && n < |s.ops|
    ensures s.ops[n].num == n + 1
  {
    hide Entry;
  }

  // ----- a message reaches the acceptor -------------------------------------

  lemma AcceptorReacts(s: Pair)
    requires s.link.Open? && s.link.toAcceptor != [] && Protocol.Carried(s.link.toAcceptor[0])
    ensures var m := s.link.toAcceptor[0];
      var r := Receive(s.acceptor.node, m);
      Next(s, ToAcceptor) == s.(acceptor := s.acceptor.(node := r.node),
        link := Open(s.link.toDialer + r.replies, s.link.toAcceptor[1..]),
        heard := if m.SyncOp? then s.heard + {m.op.num} else s.heard)
  {
    hide Receive, Protocol.Carried;
    assert s.heard + {} == s.heard;
  }

  lemma {:induction false} OpsInWrap(ops: seq<Op>)
    ensures OpsIn(Wrap(ops)) == ops
    decreases |ops|
  {
    if ops != [] {
      assert Wrap(ops)[1..] == Wrap(ops[1..]);
      OpsInWrap(ops[1..]);
    }
  }

  lemma CatchupReceived(init: Db, s: Side, after: nat)
    requires SideInv(init, s) && LogInv(s, after)
    ensures Receive(s.node, Catchup(after)) == Reaction(s.node, Wrap(s.ops[after..]))
  {
    hide Entry;
    OpsAfterSuffix(s.ops, |s.ops| - |s.node.log|, after);
  }

  /** The catch-up request is served: everything the dialer has not applied is on its way. */
  lemma CatchupKeeps(init: Db, s: Pair, xs: set<Cmd>, ys: set<Cmd>)
    requires Inv(init, s, xs, ys) && s.link.Open? && Pending(s.link, s.dialer.node.applied)
    requires Protocol.Carried(s.link.toAcceptor[0])
    ensures Inv(init, Next(s, ToAcceptor), xs, ys)
  {
    Lengths(init, s, xs, ys);
    AcceptorReacts(s);
    var n, t := s.dialer.node.applied, Next(s, ToAcceptor);
    CatchupReceived(init, s.acceptor, n);
    hide SideInv, DbInv, HoldsWith, HeardUpTo, Protocol.HasUsers, Protocol.Carried, Apart, Next, Receive, LogInv;
    var ms := Wrap(s.acceptor.ops[n..]);
    assert t == s.(link := Open([] + ms, s.link.toAcceptor[1..])) && [] + ms == ms;
    assert Core(init, t, xs, ys);
    hide Core;
    CaughtUpLine(s.dialer, s.acceptor);
    HeadGone(s.link.toAcceptor);
  }

  lemma CaughtUpLine(own: Side, other: Side)
    requires own.node.applied <= |other.ops|
    ensures LineInv(Wrap(other.ops[own.node.applied..]), own, other)
  {
    OpsInWrap(other.ops[own.node.applied..]);
  }

  lemma LogTrims(init: Db, s: Side, applied: nat, num: nat)
    requires SideInv(init, s) && LogInv(s, applied) && num <= applied
    ensures LogInv(s.(node := s.node.(log := Trim(s.node.log, num))), applied)
  {
    hide Entry;
    TrimSuffix(s.ops, |s.ops| - |s.node.log|, num);
  }

  lemma AckKeeps(init: Db, s: Pair, xs: set<Cmd>, ys: set<Cmd>)
    requires Inv(init, s, xs, ys) && s.link.Open? && s.link.toAcceptor != [] && s.link.toAcceptor[0].Ack?
    requires Flowing(s.link, s.dialer, s.acceptor) && Protocol.Carried(s.link.toAcceptor[0])
    ensures Inv(init, Next(s, ToAcceptor), xs, ys)
  {
    Lengths(init, s, xs, ys);
    AcceptorReacts(s);
    assert s.link.toAcceptor[0] in s.link.toAcceptor;
    hide HoldsWith, HeardUpTo, Protocol.HasUsers, Protocol.Carried, Apart, Next, Receive, LogInv, SideInv, DbInv,
      LineInv;
    var num, t := s.link.toAcceptor[0].num, Next(s, ToAcceptor);
    AckReceived(s.acceptor.node, num);
    assert t.acceptor == s.acceptor.(node := s.acceptor.node.(log := Trim(s.acceptor.node.log, num)));
    AckCore(init, s, t, num, xs, ys);
    hide Core;
    HeadGone(s.link.toAcceptor);
    assert s.link.toDialer + [] == s.link.toDialer;
    OtherLine(s.link.toDialer, s.dialer, s.acceptor, t.acceptor);
  }

  lemma AckCore(init: Db, s: Pair, t: Pair, num: nat, xs: set<Cmd>, ys: set<Cmd>)
    requires Core(init, s, xs, ys) && num <= s.dialer.node.applied
    requires t == s.(acceptor := s.acceptor.(node := s.acceptor.node.(log := Trim(s.acceptor.node.log, num))),
      link := t.link)
    ensures Core(init, t, xs, ys)
  {
    hide SideInv, HoldsWith, HeardUpTo, Protocol.HasUsers, Apart, LogInv, Trim;
    LogTrims(init, s.acceptor, s.dialer.node.applied, num);
    SameSide(init, s.acceptor, t.acceptor, Pick(s.dialer.cmds, s.heard));
  }

  lemma SameSide(init: Db, s: Side, t: Side, others: seq<Cmd>)
    requires SideInv(init, s) && HoldsWith(init, s, others)
    requires t.node.db == s.node.db && t.node.nextSeq == s.node.nextSeq && t.ops == s.ops && t.cmds == s.cmds
    ensures SideInv(init, t) && HoldsWith(init, t, others)
  {
    hide Reads, Both, SameMeta;
  }

  /** The first operation on the dialer's line is its next one. */
  lemma NextOfDialer(init: Db, ms: seq<PeerMsg>, s: Side, heard: set<nat>) returns (n: nat)
    requires SideInv(init, s) && DialerLine(ms, s.ops, heard) && ms != [] && ms[0].SyncOp?
    ensures 1 <= n <= |s.ops| == |s.cmds| && ms[0].op.num == n && HeardUpTo(heard, n - 1)
    ensures ParseOp(ms[0].op.kind, ms[0].op.payload) == Some(s.cmds[n - 1])
    ensures DialerLine(ms[1..], s.ops, heard + {n})
  {
    var sent := OpsIn(ms);
    n := |s.ops| - |sent| + 1;
    assert sent[0] == ms[0].op && sent[1..] == OpsIn(ms[1..]);
    assert s.ops[n - 1] == sent[0] && s.ops[n - 1..][1..] == s.ops[n..];
    assert Entry(init, s.ops, s.cmds, n - 1);
  }

  /** The acceptor executes a command of the dialer's, whether it still admits it or not. */
  lemma HeardKeeps(init: Db, s: Side, others: seq<Cmd>, op: Op, c: Cmd, t: Side)
    requires SideInv(init, s) && HoldsWith(init, s, others) && ParseOp(op.kind, op.payload) == Some(c)
    requires t == s.(node := Receive(s.node, SyncOp(op)).node)
    ensures SideInv(init, t) && HoldsWith(init, t, others + [c])
  {
    OpReceived(s.node, op);
    hide Exec, Reads, SameMeta, ParseOp, Receive, Tolerated;
    ExecKeepsSame(Both(init, s.cmds, others), s.node.db, c);
    ExecAllSnoc(ExecAll(init, s.cmds).db, others, c);
  }

  lemma AcceptorCore(init: Db, s: Pair, t: Pair, xs: set<Cmd>, ys: set<Cmd>)
    requires Core(init, s, xs, ys) && t == s.(acceptor := t.acceptor, heard := t.heard, link := t.link)
    requires SideInv(init, t.acceptor) && HoldsWith(init, t.acceptor, Pick(s.dialer.cmds, t.heard))
    requires t.acceptor.ops == s.acceptor.ops && t.acceptor.cmds == s.acceptor.cmds
    requires LogInv(t.acceptor, s.dialer.node.applied) && HeardUpTo(t.heard, |s.dialer.ops|)
    requires Protocol.HasUsers(t.acceptor.node.db)
    ensures Core(init, t, xs, ys)
  {
    hide SideInv, HoldsWith, HeardUpTo, Protocol.HasUsers, Apart, LogInv, Pick;
  }

  lemma AcceptorParts(init: Db, s: Pair, xs: set<Cmd>, ys: set<Cmd>)
    requires Core(init, s, xs, ys)
    ensures SideInv(init, s.acceptor) && HoldsWith(init, s.acceptor, Pick(s.dialer.cmds, s.heard))
    ensures LogInv(s.acceptor, s.dialer.node.applied) && Protocol.HasUsers(s.acceptor.node.db)
    ensures |s.dialer.ops| == |s.dialer.cmds|
  {
    Lengths(init, s, xs, ys);
    hide HoldsWith, Protocol.HasUsers, Apart, SideInv, DbInv, HeardUpTo, LogInv, Pick;
  }

  lemma HeardMore(heard: set<nat>, n: nat, len: nat)
    requires 1 <= n <= len && HeardUpTo(heard, n - 1)
    ensures HeardUpTo(heard + {n}, len)
  {
  }

  lemma HeardCore(init: Db, s: Pair, t: Pair, op: Op, n: nat, xs: set<Cmd>, ys: set<Cmd>)
    requires Core(init, s, xs, ys) && 1 <= n <= |s.dialer.cmds| && HeardUpTo(s.heard, n - 1)
    requires ParseOp(op.kind, op.payload) == Some(s.dialer.cmds[n - 1])
    requires t == s.(acceptor := s.acceptor.(node := Receive(s.acceptor.node, SyncOp(op)).node),
      heard := s.heard + {n}, link := t.link)
    ensures Core(init, t, xs, ys)
  {
    hide HoldsWith, Protocol.HasUsers, Receive, SideInv, ParseOp, ApplyRemote, Pick, HeardUpTo, Core;
    AcceptorParts(init, s, xs, ys);
    OpReceived(s.acceptor.node, op);
    PickMore(s.dialer.cmds, s.heard, n);
    HeardMore(s.heard, n, |s.dialer.ops|);
    HeardKeeps(init, s.acceptor, Pick(s.dialer.cmds, s.heard), op, s.dialer.cmds[n - 1], t.acceptor);
    KeepsUsersRemote(s.acceptor.node.db, op.kind, op.payload);
    assert LogInv(t.acceptor, s.dialer.node.applied);
    hide LogInv;
    AcceptorCore(init, s, t, xs, ys);
  }

  lemma DialerOpArrives(init: Db, s: Pair, xs: set<Cmd>, ys: set<Cmd>)
    requires Inv(init, s, xs, ys) && s.link.Open? && s.link.toAcceptor != [] && s.link.toAcceptor[0].SyncOp?
    requires Flowing(s.link, s.dialer, s.acceptor) && Protocol.Carried(s.link.toAcceptor[0])
    ensures Inv(init, Next(s, ToAcceptor), xs, ys)
  {
    Lengths(init, s, xs, ys);
    AcceptorReacts(s);
    hide HoldsWith, Protocol.HasUsers, Protocol.Carried, Apart, Next, Receive, SideInv, LineInv, ParseOp, DialerLine,
      LogInv, HeardUpTo, DbInv;
    var op, t := s.link.toAcceptor[0].op, Next(s, ToAcceptor);
    var n := NextOfDialer(init, s.link.toAcceptor, s.dialer, s.heard);
    OpReceived(s.acceptor.node, op);
    HeardCore(init, s, t, op, n, xs, ys);
    hide Core;
    LineAcked(s.link.toDialer, s.dialer, s.acceptor, op.num);
    OtherLine(s.link.toDialer + [Ack(op.num)], s.dialer, s.acceptor, t.acceptor);
  }

  // ----- every step, every run ----------------------------------------------

  lemma ToAcceptorKeeps(init: Db, s: Pair, xs: set<Cmd>, ys: set<Cmd>)
    requires Inv(init, s, xs, ys) && s.link.Open? && s.link.toAcceptor != []
    requires Protocol.Carried(s.link.toAcceptor[0])
    ensures Inv(init, Next(s, ToAcceptor), xs, ys)
  {
    Lengths(init, s, xs, ys);
    hide Core, Protocol.Carried, DialerLine, LineInv, Next;
    Head(s);
    if Pending(s.link, s.dialer.node.applied) {
      hide Inv; CatchupKeeps(init, s, xs, ys);
    } else if s.link.toAcceptor[0].Ack? {
      hide Inv; AckKeeps(init, s, xs, ys);
    } else {
      hide Inv; DialerOpArrives(init, s, xs, ys);
    }
  }

  lemma MessageKeeps(init: Db, s: Pair, a: Action, xs: set<Cmd>, ys: set<Cmd>)
    requires Inv(init, s, xs, ys) && Enabled(s, a) && (a.ToDialer? || a.ToAcceptor?)
    ensures Inv(init, Next(s, a), xs, ys)
  {
    hide Core, Protocol.Carried, Receive, LinkInv;
    var m := if a.ToDialer? then s.link.toDialer[0] else s.link.toAcceptor[0];
    if !Protocol.Carried(m) {
      LinkLost(init, s, xs, ys);
    } else if a.ToDialer? {
      hide Next, Inv; ToDialerKeeps(init, s, xs, ys);
    } else {
      hide Next, Inv; ToAcceptorKeeps(init, s, xs, ys);
    }
  }

  lemma Head(s: Pair)
    ensures s.link.Open? && s.link.toAcceptor != [] ==> s.link.toAcceptor[0] in s.link.toAcceptor
  {
  }

  lemma LinkLost(init: Db, s: Pair, xs: set<Cmd>, ys: set<Cmd>)
    requires Core(init, s, xs, ys)
    ensures Inv(init, s.(link := Cut), xs, ys)
  {
    hide SideInv, DbInv, HoldsWith, HeardUpTo, LogInv, Protocol.HasUsers, Apart;
    Lengths(init, s.(link := Cut), xs, ys);
  }

  lemma StepKeeps(init: Db, s: Pair, a: Action, xs: set<Cmd>, ys: set<Cmd>)
    requires Inv(init, s, xs, ys) && Enabled(s, a) && Gentle(s, a, xs, ys)
    ensures Inv(init, Next(s, a), xs, ys)
  {
    match a
    case DialerOp(_) => hide Inv, Next, Enabled, Gentle; OpKeeps(init, s, a, xs, ys);
    case AcceptorOp(_) => hide Inv, Next, Enabled, Gentle; OpKeeps(init, s, a, xs, ys);
    case DialerSession(_) => hide Inv, Next, Enabled; SessionKeeps(init, s, a, xs, ys);
    case AcceptorSession(_) => hide Inv, Next, Enabled; SessionKeeps(init, s, a, xs, ys);
    case Connect => hide Inv, Next; ConnectKeeps(init, s, xs, ys);
    case Drop => hide Core; LinkLost(init, s, xs, ys);
    case ToDialer => hide Inv, Next, Enabled; MessageKeeps(init, s, a, xs, ys);
    case ToAcceptor => hide Inv, Next, Enabled; MessageKeeps(init, s, a, xs, ys);
  }

  lemma {:induction false} RunKeeps(init: Db, s: Pair, acts: seq<Action>, xs: set<Cmd>, ys: set<Cmd>)
    requires Inv(init, s, xs, ys) && GentleRuns(s, acts, xs, ys)
    ensures Inv(init, Run(s, acts), xs, ys)
    decreases |acts|
  {
    hide Inv, Next, Enabled, Gentle;
    if acts != [] {
      StepKeeps(init, s, acts[0], xs, ys);
      RunKeeps(init, Next(s, acts[0]), acts[1..], xs, ys);
    }
  }

  // ----- the results --------------------------------------------------------

  /**
   What both trackers hold: the dialer all of its own commands and the first `applied` of the
   acceptor's; the acceptor all of its own and exactly the commands it was handed of the dialer's.
   The acceptor's log still has everything the dialer lacks.
   */
  ghost predicate Refines(init: Db, s: Pair) {
    var n := s.dialer.node.applied;
    && |s.acceptor.ops| == |s.acceptor.cmds| && n <= |s.acceptor.cmds|
    && SameMeta(Both(init, s.dialer.cmds, s.acceptor.cmds[..n]), s.dialer.node.db)
    && SameMeta(Both(init, s.acceptor.cmds, Pick(s.dialer.cmds, s.heard)), s.acceptor.node.db)
    && OpsAfter(s.acceptor.node.log, n) == s.acceptor.ops[n..]
  }

  lemma CoreRefines(init: Db, s: Pair, xs: set<Cmd>, ys: set<Cmd>)
    requires Core(init, s, xs, ys)
    ensures Refines(init, s)
  {
    Lengths(init, s, xs, ys);
    hide SameMeta, Both, Entry, HeardUpTo, Protocol.HasUsers, Apart;
    OpsAfterSuffix(s.acceptor.ops, |s.acceptor.ops| - |s.acceptor.node.log|, s.dialer.node.applied);
  }

  /**
   In every state of every quiet, readable run: clients of both trackers at work on independent
   commands, any number of drops and reconnections.
   */
  lemma BothRefine(init: Db, acts: seq<Action>, xs: set<Cmd>, ys: set<Cmd>)
    requires Apart(xs, ys) && Protocol.HasUsers(init) && GentleRuns(Start(init), acts, xs, ys)
    ensures Refines(init, Run(Start(init), acts))
  {
    hide Core, Run, GentleRuns, Start, Apart, Protocol.HasUsers, Refines;
    StartInv(init, xs, ys);
    RunKeeps(init, Start(init), acts, xs, ys);
    CoreRefines(init, Run(Start(init), acts), xs, ys);
  }

  /** Nothing is on its way to the dialer but acknowledgements, and no catch-up waits. */
  ghost predicate CaughtUp(s: Pair) {
    s.link.Open? && OpsIn(s.link.toDialer) == [] && Quiet(s.link)
  }

  /**
   Once the dialer has caught up it has all of the acceptor's commands, and the two trackers then
   agree if and only if the commands that were lost make no difference to the metadata.
   */
  lemma CaughtUpAgreesIff(init: Db, acts: seq<Action>, xs: set<Cmd>, ys: set<Cmd>)
    requires Apart(xs, ys) && Protocol.HasUsers(init) && GentleRuns(Start(init), acts, xs, ys)
    requires CaughtUp(Run(Start(init), acts))
    ensures var s := Run(Start(init), acts);
      var all, some := Both(init, s.acceptor.cmds, s.dialer.cmds),
        Both(init, s.acceptor.cmds, Pick(s.dialer.cmds, s.heard));
      && s.dialer.node.applied == |s.acceptor.ops| && SameMeta(all, s.dialer.node.db)
      && (SameMeta(s.dialer.node.db, s.acceptor.node.db) <==> SameMeta(all, some))
      && ((forall k | 1 <= k <= |s.dialer.cmds| :: k in s.heard) ==> SameMeta(s.dialer.node.db, s.acceptor.node.db))
  {
    hide Core, Run, GentleRuns, Start, Apart, Protocol.HasUsers, CaughtUp, Inv, SameMeta, Both, Pick;
    StartInv(init, xs, ys);
    RunKeeps(init, Start(init), acts, xs, ys);
    AgreesIff(init, Run(Start(init), acts), xs, ys);
  }

  lemma AllApplied(init: Db, s: Pair, xs: set<Cmd>, ys: set<Cmd>)
    requires Inv(init, s, xs, ys) && CaughtUp(s)
    ensures s.dialer.node.applied == |s.acceptor.ops|
  {
    Lengths(init, s, xs, ys);
    hide Core, DialerLine;
    Head(s);
  }

  lemma AgreesIff(init: Db, s: Pair, xs: set<Cmd>, ys: set<Cmd>)
    requires Inv(init, s, xs, ys) && CaughtUp(s)
    ensures var all, some := Both(init, s.acceptor.cmds, s.dialer.cmds),
        Both(init, s.acceptor.cmds, Pick(s.dialer.cmds, s.heard));
      && s.dialer.node.applied == |s.acceptor.ops| && SameMeta(all, s.dialer.node.db)
      && (SameMeta(s.dialer.node.db, s.acceptor.node.db) <==> SameMeta(all, some))
      && ((forall k | 1 <= k <= |s.dialer.cmds| :: k in s.heard) ==> SameMeta(s.dialer.node.db, s.acceptor.node.db))
  {
    AllApplied(init, s, xs, ys);
    Lengths(init, s, xs, ys);
    hide SameMeta, Both, SideInv, LogInv, HeardUpTo, Protocol.HasUsers, CaughtUp, Independent, LinkInv, Pick;
    var c, d := s.dialer.cmds, s.acceptor.cmds;
    assert d[..s.dialer.node.applied] == d;
    Swap(init, c, d);
    SameThrough(Both(init, d, c), Both(init, d, Pick(c, s.heard)), s.dialer.node.db, s.acceptor.node.db);
    if forall k | 1 <= k <= |c| :: k in s.heard {
      PickAll(c, s.heard);
      SameMetaReflexive(Both(init, d, c));
    }
  }

  lemma SameThrough(a: Db, b: Db, a': Db, b': Db)
    requires SameMeta(a, a') && SameMeta(b, b')
    ensures SameMeta(a, b) <==> SameMeta(a', b')
  {
    hide SameMeta;
    SameMetaSymmetric(a, a');
    SameMetaSymmetric(b, b');
    if SameMeta(a, b) { SameMetaTransitive(a', a, b); SameMetaTransitive(a', b, b'); }
    if SameMeta(a', b') { SameMetaTransitive(a, a', b'); SameMetaTransitive(a, b', b); }
  }
}
