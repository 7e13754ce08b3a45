/**
 What the atomic sends are for. The code numbers and logs an operation under one mutex and
 sends it under another, so two sessions can send their operations in the opposite order.
 From every settled state of a quiet, readable run: if the link then drops between the two,
 the earlier operation is lost for good; if both arrive and their commands are independent,
 nothing differs.
 */
module Swapped {
  import opened Tracker
  import opened Replay
  import opened Wire
  import opened Sync
  import opened Session
  import opened Protocol
  import opened Overtake

  /** Nothing is in flight on an open link. */
  predicate Settled(s: System) { s.link == Up([], []) }

  /** Two client operations, one issued after the other. */
  ghost predicate Issuable(s: System, a: Action, b: Action) {
    && a.ClientOp? && Enabled(s, a, false) && Readable(a.v, a.kind, a.payload)
    && b.ClientOp? && Enabled(Next(s, a), b, false) && Readable(b.v, b.kind, b.payload)
  }

  /** Both are issued and sent in order. */
  function InOrder(s: System, a: Action, b: Action): System { Next(Next(s, a), b) }

  /** Both are issued in order, but the second is sent first. */
  function Crossed(s: System, a: Action, b: Action): System
    requires a.ClientOp? && b.ClientOp?
  {
    InOrder(s, a, b).(link := Up([SyncOp(OpOf(Next(s, a), b)), SyncOp(OpOf(s, a))], []))
  }

  lemma BothIssued(init: Db, s: System, a: Action, b: Action)
    requires Inv(init, s) && Settled(s) && Issuable(s, a, b)
    ensures var t, p, q := InOrder(s, a, b), OpOf(s, a), OpOf(Next(s, a), b);
      && LogInv(t) && Numbered(t.issued) && t.issued == s.issued + [p] + [q] && t.replica == s.replica
      && t.heard == s.heard && s.replica.applied == |s.issued| && |s.issued| + 1 !in s.heard
      && p.num == |s.issued| + 1 && q.num == |s.issued| + 2 && t.link == Up([SyncOp(p), SyncOp(q)], [])
      && t.origin.nextSeq == |s.issued| + 3
  {
    hide Inv, Core, Next, Enabled, Readable, OpOf, LogInv, Numbered;
    InvCore(init, s);
    CoreFacts(init, s);
    NothingUnapplied(init, s);
    ClientOpKeepsCore(init, s, a);
    var m, p := Next(s, a), OpOf(s, a);
    ClientOpKeepsCore(init, m, b);
    var t, q := Next(m, b), OpOf(m, b);
    CoreFacts(init, t);
    assert [] + [SyncOp(p)] + [SyncOp(q)] == [SyncOp(p), SyncOp(q)];
    assert t.issued[|s.issued|] == p && t.issued[|s.issued| + 1] == q;
  }

  lemma NothingUnapplied(init: Db, s: System)
    requires Inv(init, s) && Settled(s)
    ensures s.replica.applied == |s.issued|
  {
    hide DataInv, Sound, HeardInv;
    assert |Wrap(s.issued[s.replica.applied..])| == 0;
  }

  // ----- a drop in between --------------------------------------------------

  const DropBetween: seq<Action> := [ToReplica, ToOrigin, LinkDown]

  lemma DropSteps(s: System, p: Op, q: Op)
    requires LogInv(s) && Numbered(s.issued) && q.num == |s.issued| && Carried(SyncOp(q))
    requires s.link == Up([SyncOp(q), SyncOp(p)], [])
    ensures Runs(s, DropBetween, true)
    ensures var t := Run(s, DropBetween);
      && t.origin.log == [] && t.link.Down? && t.issued == s.issued && t.heard == s.heard + {q.num}
      && t.origin.nextSeq == s.origin.nextSeq
  {
    hide Carried, Receive, Trim, LogInv, Numbered;
    LogTrims(s, q.num);
    SmallCarried(Ack(q.num));
    HandOver(s, q);
    var s1 := Next(s, ToReplica);
    assert [] + [Ack(q.num)] == [Ack(q.num)];
    AckedAlone(s1, q.num);
    ThreeSteps(s, ToReplica, ToOrigin, LinkDown);
  }

  lemma AckedAlone(s: System, num: nat)
    requires s.link.Up? && s.link.toOrigin != [] && s.link.toOrigin[0] == Ack(num) && Carried(Ack(num))
    ensures Next(s, ToOrigin) == s.(origin := s.origin.(log := Trim(s.origin.log, num)),
      link := Up(s.link.toReplica, s.link.toOrigin[1..]))
  {
    hide Carried, Trim;
    assert s.link.toReplica + [] == s.link.toReplica;
  }

  lemma LogTrims(s: System, num: nat)
    requires LogInv(s) && Numbered(s.issued) && num == |s.issued|
    ensures Trim(s.origin.log, num) == []
  {
    TrimSuffix(s.issued, |s.issued| - |s.origin.log|, num);
  }

  lemma ThreeSteps(s: System, a: Action, b: Action, c: Action)
    requires Enabled(s, a, true) && Enabled(Next(s, a), b, true) && Enabled(Next(Next(s, a), b), c, true)
    ensures Runs(s, [a, b, c], true) && Run(s, [a, b, c]) == Next(Next(Next(s, a), b), c)
  {
    hide Enabled, Next;
    var s1, s2 := Next(s, a), Next(Next(s, a), b);
    Tails(a, a, b, c);
    RunOne(s2, c, true);
    assert Runs(s1, [b, c], true) && Run(s1, [b, c]) == Run(s2, [c]);
  }

  /**
   The later operation arrives first and is acknowledged, which trims both; the link drops. The
   earlier one is then neither in the log nor on a link, and no continuation hands it over.
   */
  lemma CrossedLoses(init: Db, s: System, a: Action, b: Action)
    requires Inv(init, s) && Settled(s) && Issuable(s, a, b) && Carried(SyncOp(OpOf(Next(s, a), b)))
    ensures Runs(Crossed(s, a, b), DropBetween, true)
    ensures var t := Run(Crossed(s, a, b), DropBetween);
      && t.link.Down? && t.origin.log == [] && !Retained(t)
      && forall more | Runs(t, more, false) :: |s.issued| + 1 !in Run(t, more).heard
  {
    hide Inv, Next, Enabled, Readable, OpOf, LogInv, Numbered, Carried, Run, Runs, Retained;
    BothIssued(init, s, a, b);
    var x, n := Crossed(s, a, b), |s.issued|;
    SameLog(InOrder(s, a, b), x);
    DropSteps(x, OpOf(s, a), OpOf(Next(s, a), b));
    var t := Run(x, DropBetween);
    NotRetained(t, n);
    forall more | Runs(t, more, false) ensures n + 1 !in Run(t, more).heard {
      NeverHeardAgain(t, more, n + 1, false);
    }
  }

  lemma SameLog(s: System, t: System)
    requires LogInv(s) && t == s.(link := t.link)
    ensures LogInv(t)
  {
  }

  // ----- both arrive --------------------------------------------------------

  const BothArrive: seq<Action> := [ToReplica, ToReplica, ToOrigin, ToOrigin]

  /** A replica that takes two operations with independent commands does not notice their order. */
  lemma TakenEitherWay(n: Node, p: Op, q: Op)
    requires ParseOp(p.kind, p.payload).Some? && ParseOp(q.kind, q.payload).Some?
    requires Independent(ParseOp(p.kind, p.payload).value, ParseOp(q.kind, q.payload).value)
    ensures Receive(Receive(n, SyncOp(p)).node, SyncOp(q)).node == Receive(Receive(n, SyncOp(q)).node, SyncOp(p)).node
  {
    var c, d := ParseOp(p.kind, p.payload).value, ParseOp(q.kind, q.payload).value;
    hide Exec, ParseOp, Tolerated, Independent;
    Commute(n.db, c, d);
  }

  lemma TrimEitherWay(s: System, p: nat, q: nat)
    requires LogInv(s) && Numbered(s.issued)
    ensures Trim(Trim(s.origin.log, p), q) == Trim(Trim(s.origin.log, q), p)
  {
    hide Trim;
    var ops, k := s.issued, |s.issued| - |s.origin.log|;
    TrimSuffix(ops, k, p);
    TrimSuffix(ops, k, q);
    var kp := if p <= k then k else if p <= |ops| then p else |ops|;
    var kq := if q <= k then k else if q <= |ops| then q else |ops|;
    TrimSuffix(ops, kp, q);
    TrimSuffix(ops, kq, p);
  }

  lemma BothDelivered(s: System, p: Op, q: Op)
    requires s.link == Up([SyncOp(p), SyncOp(q)], []) && Carried(SyncOp(p)) && Carried(SyncOp(q))
    ensures Enabled(s, ToReplica, true) && Enabled(Next(s, ToReplica), ToReplica, true)
    ensures Next(Next(s, ToReplica), ToReplica) == s.(link := Up([], [Ack(p.num), Ack(q.num)]),
      replica := Receive(Receive(s.replica, SyncOp(p)).node, SyncOp(q)).node, heard := s.heard + {p.num, q.num})
  {
    hide Carried, Receive, Next;
    HandOver(s, p);
    assert [SyncOp(p), SyncOp(q)][1..] == [SyncOp(q)] && [] + [Ack(p.num)] == [Ack(p.num)];
    HandOver(Next(s, ToReplica), q);
    assert [SyncOp(q)][1..] == [] && [Ack(p.num)] + [Ack(q.num)] == [Ack(p.num), Ack(q.num)];
    assert s.heard + {p.num} + {q.num} == s.heard + {p.num, q.num};
  }

  lemma BothAcked(s: System, p: nat, q: nat)
    requires s.link == Up([], [Ack(p), Ack(q)])
    ensures Enabled(s, ToOrigin, true) && Enabled(Next(s, ToOrigin), ToOrigin, true)
    ensures Next(Next(s, ToOrigin), ToOrigin)
      == s.(link := Up([], []), origin := s.origin.(log := Trim(Trim(s.origin.log, p), q)))
  {
    hide Carried, Next, Trim;
    SmallCarried(Ack(p));
    SmallCarried(Ack(q));
    AckedAlone(s, p);
    assert [Ack(p), Ack(q)][1..] == [Ack(q)] && [Ack(q)][1..] == [];
    AckedAlone(Next(s, ToOrigin), q);
  }

  /** Two operations arrive and are acknowledged. */
  lemma ArriveSteps(s: System, p: Op, q: Op)
    requires s.link == Up([SyncOp(p), SyncOp(q)], []) && Carried(SyncOp(p)) && Carried(SyncOp(q))
    ensures Runs(s, BothArrive, true)
    ensures Run(s, BothArrive) == System(s.origin.(log := Trim(Trim(s.origin.log, p.num), q.num)),
      Receive(Receive(s.replica, SyncOp(p)).node, SyncOp(q)).node, Up([], []), s.issued, s.heard + {p.num, q.num},
      s.loggedOut)
  {
    hide Carried, Receive, Trim, Next, Run, Runs, Enabled;
    BothDelivered(s, p, q);
    BothAcked(Next(Next(s, ToReplica), ToReplica), p.num, q.num);
    FourSteps(s, ToReplica, ToReplica, ToOrigin, ToOrigin);
  }

  /** Once both have arrived, the whole system is as if they had been sent in order. */
  lemma CrossedAgrees(init: Db, s: System, a: Action, b: Action)
    requires Inv(init, s) && Settled(s) && Issuable(s, a, b)
    requires Carried(SyncOp(OpOf(s, a))) && Carried(SyncOp(OpOf(Next(s, a), b)))
    requires var c, d := ParseOp(a.kind, OpOf(s, a).payload), ParseOp(b.kind, OpOf(Next(s, a), b).payload);
      c.Some? && d.Some? ==> Independent(c.value, d.value)
    ensures Runs(InOrder(s, a, b), BothArrive, true) && Runs(Crossed(s, a, b), BothArrive, true)
    ensures Run(Crossed(s, a, b), BothArrive) == Run(InOrder(s, a, b), BothArrive)
  {
    hide Inv, Next, Enabled, Readable, OpOf, LogInv, Numbered, Carried, Run, Runs, ParseOp, Independent, Receive, Trim;
    hide Exec, ApplyRemote;
    BothIssued(init, s, a, b);
    var p, q := OpOf(s, a), OpOf(Next(s, a), b);
    ClientOpMeans(s, a);
    ClientOpMeans(Next(s, a), b);
    ArriveSteps(InOrder(s, a, b), p, q);
    ArriveSteps(Crossed(s, a, b), q, p);
    TrimEitherWay(InOrder(s, a, b), p.num, q.num);
    TakenEitherWay(s.replica, p, q);
    assert s.heard + {p.num, q.num} == s.heard + {q.num, p.num};
  }
}
