/**
 What the quiet catch-up is for. A client operation issued while a catch-up request waits
 is sent ahead of the operations the catch-up will bring. This is harmless exactly when
 there is nothing to bring, or when its frame is too large to arrive; in every other
 state of a quiet, readable run the code's own steps can lose those operations for good.
 */
module Overtake {
  import opened Bytes
  import opened Codec
  import opened Tracker
  import opened Replay
  import opened Wire
  import opened Sync
  import opened History
  import opened Session
  import opened Protocol
  import Net

  // ----- the loss, from every state where something is outstanding ----------

  lemma Tails<T>(a: T, b: T, c: T, d: T)
    ensures [a, b, c, d][1..] == [b, c, d] && [b, c, d][1..] == [c, d] && [c, d][1..] == [d] && [d][1..] == []
  {
  }

  lemma RunOne(s: System, a: Action, quiet: bool)
    ensures Run(s, [a]) == Next(s, a)
    ensures Enabled(s, a, quiet) ==> Runs(s, [a], quiet)
  {
    hide Next, Enabled;
    assert [a][1..] == [];
    assert Run(Next(s, a), []) == Next(s, a) && Runs(Next(s, a), [], quiet);
  }

  lemma FourSteps(s: System, a: Action, b: Action, c: Action, d: Action)
    requires Enabled(s, a, true) && Enabled(Next(s, a), b, true)
    requires Enabled(Next(Next(s, a), b), c, true) && Enabled(Next(Next(Next(s, a), b), c), d, true)
    ensures Runs(s, [a, b, c, d], true) && Run(s, [a, b, c, d]) == Next(Next(Next(Next(s, a), b), c), d)
  {
    hide Enabled, Next;
    var s1, s2, s3 := Next(s, a), Next(Next(s, a), b), Next(Next(Next(s, a), b), c);
    Tails(a, b, c, d);
    RunOne(s3, d, true);
    assert Runs(s2, [c, d], true) && Run(s2, [c, d]) == Run(s3, [d]);
    assert Runs(s1, [b, c, d], true) && Run(s1, [b, c, d]) == Run(s2, [c, d]);
  }

  const TheLoss: seq<Action> := [ToReplica, ToOrigin, ToOrigin, LinkDown]

  /** A pending catch-up, in a state of a quiet run, travels alone. */
  lemma PendingAlone(init: Db, s: System)
    requires Inv(init, s) && !Quiet(s.link)
    ensures s.link == Up([], [Catchup(s.replica.applied)])
  {
    hide Core;
  }

  /**
   For every state of a quiet, readable run with a catch-up pending and something unapplied, and every client
   operation whose frame arrives: the replica takes it, the catch-up is served, the
   acknowledgement trims the whole log, the link drops. What was unapplied is then neither in
   the log nor on a link, and the replica has received nothing of it.
   */
  lemma LossFollows(init: Db, s: System, a: Action)
    requires Inv(init, s) && a.ClientOp? && Enabled(s, a, false) && Readable(a.v, a.kind, a.payload)
    requires !Quiet(s.link) && s.replica.applied < |s.issued| && Carried(SyncOp(OpOf(s, a)))
    ensures Runs(Next(s, a), TheLoss, true)
    ensures var t := Run(Next(s, a), TheLoss);
      && t.origin.log == [] && t.link.Down? && t.issued == s.issued + [OpOf(s, a)]
      && t.origin.nextSeq == |s.issued| + 2
      && t.heard == s.heard + {|s.issued| + 1}
      && (forall k | s.replica.applied < k <= |s.issued| :: k !in t.heard)
      && !Retained(t)
  {
    hide Core, Inv, Next, Enabled, OpOf, Readable, Carried, LogInv, Numbered, Run, Runs, Retained;
    PendingAlone(init, s);
    InvCore(init, s);
    ClientOpKeepsCore(init, s, a);
    var n, op, t1 := s.replica.applied, OpOf(s, a), Next(s, a);
    CoreFacts(init, s);
    CoreFacts(init, t1);
    assert [] + [SyncOp(op)] == [SyncOp(op)];
    assert op == t1.issued[|s.issued|];
    LossSteps(t1, n, op);
    NotRetained(Run(t1, TheLoss), n);
  }

  lemma CoreFacts(init: Db, s: System)
    requires Core(init, s)
    ensures LogInv(s) && Numbered(s.issued) && s.origin.nextSeq == |s.issued| + 1 && s.replica.applied <= |s.issued|
    ensures forall i {:trigger s.issued[i]} | 0 <= i < |s.issued| :: s.issued[i].num == i + 1
    ensures forall k :: k in s.heard <==> 1 <= k <= s.replica.applied
  {
    hide DataInv, Carried;
  }

  lemma NotRetained(t: System, n: nat)
    requires n < |t.issued| && n + 1 !in t.heard && t.origin.log == []
    ensures !Retained(t)
  {
    assert t.issued[n] !in t.origin.log;
  }

  lemma LossSteps(t1: System, n: nat, op: Op)
    requires LogInv(t1) && Numbered(t1.issued) && n == t1.replica.applied && op.num == |t1.issued|
      && Carried(SyncOp(op))
    requires t1.link == Up([SyncOp(op)], [Catchup(n)])
    ensures Runs(t1, TheLoss, true)
    ensures var t := Run(t1, TheLoss);
      && t.origin.log == [] && t.link.Down? && t.issued == t1.issued && t.heard == t1.heard + {op.num}
      && t.origin.nextSeq == t1.origin.nextSeq
  {
    hide Carried, Receive, Trim, OpsAfter, LogInv, Numbered;
    LogFacts(t1, n, op.num);
    SmallCarried(Catchup(n));
    SmallCarried(Ack(op.num));
    HandOver(t1, op);
    var t2 := Next(t1, ToReplica);
    assert [SyncOp(op)][1..] == [] && [Catchup(n)] + [Ack(op.num)] == [Catchup(n), Ack(op.num)];
    Serves(t2, n);
    var t3 := Next(t2, ToOrigin);
    assert [Catchup(n), Ack(op.num)][1..] == [Ack(op.num)];
    Acked(t3, op.num);
    var t4 := Next(t3, ToOrigin);
    FourSteps(t1, ToReplica, ToOrigin, ToOrigin, LinkDown);
  }

  lemma LogFacts(t: System, n: nat, num: nat)
    requires LogInv(t) && Numbered(t.issued) && n == t.replica.applied && num == |t.issued|
    ensures OpsAfter(t.origin.log, n) == t.issued[n..] && Trim(t.origin.log, num) == []
  {
    var kept := |t.issued| - |t.origin.log|;
    OpsAfterSuffix(t.issued, kept, n);
    TrimSuffix(t.issued, kept, num);
  }

  /** What serving a catch-up changes. */
  lemma Serves(s: System, after: nat)
    requires s.link.Up? && s.link.toOrigin != [] && s.link.toOrigin[0] == Catchup(after) && Carried(Catchup(after))
    ensures Next(s, ToOrigin)
      == s.(link := Up(s.link.toReplica + Wrap(OpsAfter(s.origin.log, after)), s.link.toOrigin[1..]))
  {
    hide Carried, OpsAfter;
  }

  /** What an acknowledgement changes. */
  lemma Acked(s: System, num: nat)
    requires s.link.Up? && s.link.toOrigin != [] && s.link.toOrigin[0] == Ack(num) && Carried(Ack(num))
    ensures Next(s, ToOrigin).origin == s.origin.(log := Trim(s.origin.log, num))
    ensures Next(s, ToOrigin).link.Up? && Next(s, ToOrigin).issued == s.issued && Next(s, ToOrigin).heard == s.heard
    ensures Next(s, ToOrigin).replica == s.replica
  {
    hide Carried, Trim;
  }

  // ----- lost operations stay lost ------------------------------------------

  /** The operations up to n are in neither log nor link, and none is issued again. */
  ghost predicate Beyond(s: System, n: nat) {
    && s.origin.nextSeq > n
    && (forall op | op in s.origin.log :: op.num > n)
    && (s.link.Up? ==> forall m | m in s.link.toReplica && m.SyncOp? :: m.op.num > n)
  }

  lemma BeyondStep(s: System, a: Action, n: nat, quiet: bool)
    requires Beyond(s, n) && Enabled(s, a, quiet)
    ensures Beyond(Next(s, a), n)
    ensures forall k | k <= n :: k in Next(s, a).heard <==> k in s.heard
  {
    match a
    case ToOrigin => OriginReacts(s); hide Next;
    case ToReplica => hide Receive, Carried; assert s.link.toReplica[0] in s.link.toReplica;
    case ClientOp(_, _, _, _) => hide Handle, Bounded;
    case LinkUp => hide IsEmpty;
    case LinkDown =>
    case OriginSession(_) => hide Apply;
    case ReplicaSession(_) => hide Apply;
  }

  /** Whatever happens afterwards, new operations and reconnections included, they are never received. */
  lemma {:induction false} NeverHeardAgain(s: System, acts: seq<Action>, n: nat, quiet: bool)
    requires Beyond(s, n) && Runs(s, acts, quiet)
    ensures forall k | k <= n :: k in Run(s, acts).heard <==> k in s.heard
    decreases |acts|
  {
    hide Beyond, Enabled, Next;
    if acts != [] {
      BeyondStep(s, acts[0], n, quiet);
      NeverHeardAgain(Next(s, acts[0]), acts[1..], n, quiet);
    }
  }

  /** The loss of `LossFollows` is final. */
  lemma LossIsFinal(init: Db, s: System, a: Action, more: seq<Action>)
    requires Inv(init, s) && a.ClientOp? && Enabled(s, a, false) && Readable(a.v, a.kind, a.payload)
    requires !Quiet(s.link) && s.replica.applied < |s.issued| && Carried(SyncOp(OpOf(s, a)))
    requires Runs(Run(Next(s, a), TheLoss), more, false)
    ensures forall k | s.replica.applied < k <= |s.issued| :: k !in Run(Run(Next(s, a), TheLoss), more).heard
  {
    hide Inv, Enabled, Next, Run, Runs, Readable, Carried, OpOf;
    LossFollows(init, s, a);
    NeverHeardAgain(Run(Next(s, a), TheLoss), more, |s.issued|, false);
  }

  // ----- no loss when nothing is outstanding --------------------------------

  /** The late operation is offered ahead of a catch-up that will bring it again. */
  ghost predicate Offered(link: Channels, issued: seq<Op>, applied: nat) {
    && applied + 1 == |issued|
    && link == Up([SyncOp(issued[applied])], [Catchup(applied)])
  }

  /** It was taken before the catch-up is served. */
  ghost predicate Taken(link: Channels, issued: seq<Op>, applied: nat, kept: int) {
    && 0 < applied == |issued| && kept < applied
    && link == Up([], [Catchup(applied - 1), Ack(applied)])
  }

  /** It arrives twice in a row, and then everything else in order. */
  ghost predicate Again(link: Channels, issued: seq<Op>, applied: nat) {
    && link.Up? && AcksUpTo(link.toOrigin, applied) && applied <= |issued|
    && ( || (applied < |issued| && link.toReplica == [SyncOp(issued[applied])] + Wrap(issued[applied..]))
         || (0 < applied && link.toReplica == [SyncOp(issued[applied - 1])] + Wrap(issued[applied..])))
  }

  /** The next frame will end the link. */
  ghost predicate Blocked(link: Channels, applied: nat) {
    && link.Up? && link.toReplica != [] && !Carried(link.toReplica[0])
    && forall m | m in link.toOrigin :: (m.Ack? && m.num <= applied) || m == Catchup(applied)
  }

  ghost predicate Late(s: System) {
    var kept := |s.issued| - |s.origin.log|;
    || Offered(s.link, s.issued, s.replica.applied)
    || Taken(s.link, s.issued, s.replica.applied, kept)
    || Again(s.link, s.issued, s.replica.applied)
    || Blocked(s.link, s.replica.applied)
  }

  ghost predicate LateInv(init: Db, s: System) {
    Core(init, s) && (LinkInv(s.link, s.issued[s.replica.applied..], s.replica.applied) || Late(s))
  }

  /** A metadata change repeated, with session events in between, changes no metadata. */
  lemma AgainKeepsMeta(f: Db, b: Db, c: Cmd)
    requires Admits(f, c) && SameMeta(Exec(f, c).db, b)
    ensures SameMeta(Exec(f, c).db, Exec(b, c).db)
  {
    hide Exec, Admits, SameMeta, Tolerated;
    var g := Exec(f, c).db;
    Idempotent(f, c);
    if Admits(g, c) {
      AdmittedReplays(g, b, c);
    } else {
      SameMetaSymmetric(g, b);
      if Exec(b, c).st == ST_OK {
        SuccessIsAdmitted(b, c);
        AdmittedReplays(b, g, c);
      }
      FailureChangesNothing(b, c);
    }
  }

  /** The last applied operation reaches the replica once more. */
  lemma DuplicateKeeps(init: Db, s: System, t: System)
    requires Core(init, s) && 0 < s.replica.applied
    requires t.replica == Receive(s.replica, SyncOp(s.issued[s.replica.applied - 1])).node
    requires t.origin == s.origin && t.issued == s.issued && t.loggedOut == s.loggedOut
    requires t.heard == s.heard + {s.replica.applied}
    ensures Core(init, t) && t.replica.applied == s.replica.applied
  {
    hide Valid, SameMeta, AllSeedersWithin, Fold, Exec, Admits, Tolerated, ParseOp, Carried;
    var n := s.replica.applied - 1;
    var op := s.issued[n];
    assert Admissible(Fold(init, s.issued[..n]), op) && op.num == n + 1;
    var c := ParseOp(op.kind, op.payload).value;
    var f := Fold(init, s.issued[..n]);
    assert s.issued[..n + 1] == s.issued[..n] + [op];
    FoldSnoc(init, s.issued[..n], op);
    assert Fold(init, s.issued[..n + 1]) == Exec(f, c).db;
    AgainKeepsMeta(f, s.replica.db, c);
    UsersStay(s.replica.db, c);
    SameMetaUsers(Exec(f, c).db, s.replica.db);
    if !s.loggedOut {
      Idempotent(f, c);
      GroupsDetermined(Exec(f, c).db, s.replica.db, c);
    }
  }

  lemma LateToReplica(init: Db, s: System)
    requires Core(init, s) && Late(s) && s.link.Up? && s.link.toReplica != []
    ensures LateInv(init, Next(s, ToReplica))
  {
    hide Core, Carried, Receive;
    CoreFacts(init, s);
    hide LogInv, Numbered;
    var n, t := s.replica.applied, Next(s, ToReplica);
    if !Carried(s.link.toReplica[0]) {
      SameDbs(init, s, t);
    } else if Offered(s.link, s.issued, n) {
      OfferedToReplica(init, s);
    } else {
      AgainToReplica(init, s);
    }
  }

  lemma OfferedToReplica(init: Db, s: System)
    requires Core(init, s) && Offered(s.link, s.issued, s.replica.applied) && Carried(s.link.toReplica[0])
    ensures LateInv(init, Next(s, ToReplica))
  {
    hide Core, Carried, Receive, LinkInv, Again, Blocked;
    CoreFacts(init, s);
    CoreBounds(init, s);
    hide LogInv, Numbered;
    var n, t := s.replica.applied, Next(s, ToReplica);
    HandOver(s, s.issued[n]);
    hide Next;
    DeliveryKeeps(init, s, t);
    assert [SyncOp(s.issued[n])][1..] == [] && [Catchup(n)] + [Ack(n + 1)] == [Catchup(n), Ack(n + 1)];
    assert Taken(t.link, t.issued, n + 1, |t.issued| - |t.origin.log|);
  }

  lemma AgainToReplica(init: Db, s: System)
    requires Core(init, s) && Again(s.link, s.issued, s.replica.applied) && Carried(s.link.toReplica[0])
    ensures LateInv(init, Next(s, ToReplica))
  {
    hide Core, Carried, Receive, Offered, Taken, Blocked, Next, Late, LinkInv;
    CoreFacts(init, s);
    hide LogInv, Numbered;
    var n, t := s.replica.applied, Next(s, ToReplica);
    assert s.link.toReplica[1..] == Wrap(s.issued[n..]);
    if 0 < n && s.link.toReplica[0] == SyncOp(s.issued[n - 1]) {
      HandOver(s, s.issued[n - 1]);
      DuplicateKeeps(init, s, t);
      SecondTaken(s, t);
    } else {
      HandOver(s, s.issued[n]);
      DeliveryKeeps(init, s, t);
      FirstTaken(s, t);
      AgainIsLate(t);
    }
  }

  lemma SecondTaken(s: System, t: System)
    requires s.link.Up? && s.link.toReplica != [] && AcksUpTo(s.link.toOrigin, s.replica.applied)
    requires s.replica.applied <= |s.issued| && t.issued == s.issued && t.replica.applied == s.replica.applied
    requires s.link.toReplica[1..] == Wrap(s.issued[s.replica.applied..])
    requires t.link == Up(s.link.toReplica[1..], s.link.toOrigin + [Ack(s.replica.applied)])
    ensures LinkInv(t.link, t.issued[t.replica.applied..], t.replica.applied)
  {
  }

  lemma FirstTaken(s: System, t: System)
    requires s.link.Up? && s.link.toReplica != [] && AcksUpTo(s.link.toOrigin, s.replica.applied)
    requires s.replica.applied < |s.issued| && t.issued == s.issued && t.replica.applied == s.replica.applied + 1
    requires s.link.toReplica[1..] == Wrap(s.issued[s.replica.applied..])
    requires t.link == Up(s.link.toReplica[1..], s.link.toOrigin + [Ack(s.replica.applied + 1)])
    ensures Again(t.link, t.issued, t.replica.applied)
  {
    var n := s.replica.applied;
    assert s.issued[n..] == [s.issued[n]] + s.issued[n + 1..];
    assert Wrap(s.issued[n..]) == [SyncOp(s.issued[n])] + Wrap(s.issued[n + 1..]);
  }

  lemma AgainIsLate(s: System)
    requires Again(s.link, s.issued, s.replica.applied)
    ensures Late(s)
  {
  }

  lemma LateToOrigin(init: Db, s: System)
    requires Core(init, s) && Late(s) && s.link.Up? && s.link.toOrigin != []
    ensures LateInv(init, Next(s, ToOrigin))
  {
    hide Core, Next, Carried;
    CoreLog(init, s);
    var n, t := s.replica.applied, Next(s, ToOrigin);
    var m := s.link.toOrigin[0];
    assert m in s.link.toOrigin;
    if Blocked(s.link, n) {
      if m.Ack? { AckKeeps(init, s); } else { CatchupKeeps(init, s); }
      assert t.link.toReplica[0] == s.link.toReplica[0];
      assert forall x | x in t.link.toOrigin :: x in s.link.toOrigin;
      assert Blocked(t.link, n);
    } else if Again(s.link, s.issued, n) {
      AckKeeps(init, s);
      AcksTail(s.link.toOrigin, n);
      assert Again(t.link, t.issued, n);
    } else if Offered(s.link, s.issued, n) {
      CatchupKeeps(init, s);
      assert Again(t.link, t.issued, n);
    } else {
      CatchupKeeps(init, s);
      assert s.issued[n - 1..] == [s.issued[n - 1]] && s.issued[n..] == [];
      assert [] + Wrap(s.issued[n - 1..]) == [SyncOp(s.issued[n - 1])] + Wrap(s.issued[n..]);
      assert [Catchup(n - 1), Ack(n)][1..] == [Ack(n)];
      assert Again(t.link, t.issued, n);
    }
  }

  lemma QuietAgain(s: System)
    requires Late(s) && Quiet(s.link) && !Blocked(s.link, s.replica.applied)
    ensures Again(s.link, s.issued, s.replica.applied)
  {
    NotQuiet(s.link);
  }

  lemma NotQuiet(link: Channels)
    ensures link.Up? && link.toOrigin != [] && link.toOrigin[0].Catchup? ==> !Quiet(link)
  {
    if link.Up? && link.toOrigin != [] { assert link.toOrigin[0] in link.toOrigin; }
  }

  lemma LateClientOp(init: Db, s: System, a: Action)
    requires Core(init, s) && Late(s) && a.ClientOp? && Enabled(s, a, true) && Readable(a.v, a.kind, a.payload)
    ensures LateInv(init, Next(s, a))
  {
    hide Core, Next, Carried, Readable, Handle, OpOf;
    ClientOpKeepsCore(init, s, a);
    CoreLog(init, s);
    var n, t, op := s.replica.applied, Next(s, a), OpOf(s, a);
    hide LogInv, Enabled;
    if Blocked(s.link, n) {
      assert t.link.toReplica[0] == s.link.toReplica[0];
      assert Blocked(t.link, n);
    } else {
      QuietAgain(s);
      assert t.issued[n..] == s.issued[n..] + [op];
      assert Wrap(t.issued[n..]) == Wrap(s.issued[n..]) + [SyncOp(op)];
      assert Again(t.link, t.issued, n);
    }
  }

  lemma LateKeeps(init: Db, s: System, a: Action)
    requires LateInv(init, s) && Enabled(s, a, true) && AllReadable([a])
    ensures LateInv(init, Next(s, a))
  {
    if LinkInv(s.link, s.issued[s.replica.applied..], s.replica.applied) {
      hide Core, LinkInv, Late, Readable, Next, Enabled;
      StepKeeps(init, s, a);
    } else {
      hide Core, LinkInv, Late, Readable, Next, Enabled;
      LateStepKeeps(init, s, a);
    }
  }

  lemma LateStepKeeps(init: Db, s: System, a: Action)
    requires Core(init, s) && Late(s) && Enabled(s, a, true) && AllReadable([a])
    ensures LateInv(init, Next(s, a))
  {
    hide Core, Late, Readable, Next, LateInv;
    match a
    case ClientOp(_, _, _, _) => assert a in [a]; hide Enabled; LateClientOp(init, s, a);
    case OriginSession(_) => LateSession(init, s, a);
    case ReplicaSession(_) => LateSession(init, s, a);
    case LinkUp => LateIsUp(s);
    case LinkDown => LinkDownKeeps(init, s); InvIsLate(init, Next(s, a));
    case ToReplica => LateToReplica(init, s);
    case ToOrigin => LateToOrigin(init, s);
  }

  lemma InvIsLate(init: Db, s: System)
    requires Inv(init, s)
    ensures LateInv(init, s)
  {
  }

  lemma LateSession(init: Db, s: System, a: Action)
    requires Core(init, s) && Late(s) && Enabled(s, a, true) && (a.OriginSession? || a.ReplicaSession?)
    ensures LateInv(init, Next(s, a))
  {
    hide Core, LinkInv, Late, Apply;
    if a.OriginSession? { OriginSessionKeeps(init, s, a.e); } else { ReplicaSessionKeeps(init, s, a.e); }
    SameLate(s, Next(s, a));
  }

  lemma LateIsUp(s: System)
    requires Late(s)
    ensures s.link.Up?
  {
  }

  lemma SameLate(s: System, t: System)
    requires Late(s) && t.link == s.link && t.issued == s.issued
    requires t.replica.applied == s.replica.applied && t.origin.log == s.origin.log
    ensures Late(t)
  {
  }

  lemma {:induction false} LateRunKeeps(init: Db, s: System, acts: seq<Action>)
    requires LateInv(init, s) && Runs(s, acts, true) && AllReadable(acts)
    ensures LateInv(init, Run(s, acts))
    decreases |acts|
  {
    hide LateInv, Next, Enabled, Readable;
    if acts != [] {
      assert acts[0] in acts;
      LateKeeps(init, s, acts[0]);
      LateRunKeeps(init, Next(s, acts[0]), acts[1..]);
    }
  }

  /** A client operation that no catch-up will overtake, or with nothing to be overtaken. */
  lemma HarmlessStep(init: Db, s: System, a: Action)
    requires Inv(init, s) && a.ClientOp? && Enabled(s, a, false) && Readable(a.v, a.kind, a.payload)
    requires Quiet(s.link) || s.replica.applied == |s.issued| || !Carried(SyncOp(OpOf(s, a)))
    ensures LateInv(init, Next(s, a))
  {
    hide Core, Next, Readable, Handle, Carried, OpOf;
    if Quiet(s.link) {
      StepKeeps(init, s, a);
    } else {
      PendingAlone(init, s);
      ClientOpKeepsCore(init, s, a);
      var t, op := Next(s, a), OpOf(s, a);
      assert [] + [SyncOp(op)] == [SyncOp(op)];
      assert t.link == Up([SyncOp(op)], [Catchup(s.replica.applied)]);
      if s.replica.applied == |s.issued| {
        assert Offered(t.link, t.issued, t.replica.applied);
      } else {
        assert Blocked(t.link, t.replica.applied);
      }
    }
  }

  /** Every continuation that keeps the other assumptions refines the fold and loses nothing. */
  ghost predicate Harmless(init: Db, s: System) {
    forall acts | Runs(s, acts, true) && AllReadable(acts) :: Refines(init, Run(s, acts))
  }

  /**
   The quiet catch-up, exactly. For every state of every quiet, readable run and every client
   operation it allows: issuing the operation is harmless if and only if no catch-up is pending, or nothing is
   unapplied, or the operation's frame is too large to arrive.
   */
  lemma HarmlessIff(init: Db, s: System, a: Action)
    requires Inv(init, s) && a.ClientOp? && Enabled(s, a, false) && Readable(a.v, a.kind, a.payload)
    ensures Harmless(init, Next(s, a)) <==>
      Quiet(s.link) || s.replica.applied == |s.issued| || !Carried(SyncOp(OpOf(s, a)))
  {
    hide Inv, Enabled, Next, Readable, Carried, OpOf, Quiet, Core, Late, LinkInv, Refines, Retained;
    InvCore(init, s);
    CoreBounds(init, s);
    var t := Next(s, a);
    if Quiet(s.link) || s.replica.applied == |s.issued| || !Carried(SyncOp(OpOf(s, a))) {
      HarmlessStep(init, s, a);
      forall acts | Runs(t, acts, true) && AllReadable(acts) ensures Refines(init, Run(t, acts)) {
        LateRunKeeps(init, t, acts);
        CoreRefines(init, Run(t, acts));
      }
    } else {
      LossFollows(init, s, a);
      assert AllReadable(TheLoss);
      assert !Refines(init, Run(t, TheLoss)) by { RefinesRetains(init, Run(t, TheLoss)); }
    }
  }

  lemma RefinesRetains(init: Db, s: System)
    ensures Refines(init, s) ==> Retained(s)
  {
  }

  // ----- what a late operation does to `applied` ----------------------------

  /**
   Issued while a catch-up waits and sent ahead of what it will bring, an operation that the
   replica tolerates moves `applied` past everything unapplied; one that it refuses does not.
   */
  lemma LateJumps(init: Db, s: System, a: Action)
    requires Inv(init, s) && a.ClientOp? && Enabled(s, a, false) && Readable(a.v, a.kind, a.payload)
    requires !Quiet(s.link) && Carried(SyncOp(OpOf(s, a)))
    ensures Enabled(Next(s, a), ToReplica, true)
    ensures var t := Next(Next(s, a), ToReplica);
      && t.heard == s.heard + {|s.issued| + 1} && t.issued == s.issued + [OpOf(s, a)]
      && t.replica.applied == if ApplyRemote(s.replica.db, a.kind, OpOf(s, a).payload).ok then |s.issued| + 1
        else s.replica.applied
  {
    hide Inv, Core, Carried, Readable, ApplyRemote, LogInv, Numbered, Enabled, OpOf, Next, Quiet, Receive;
    PendingAlone(init, s);
    InvCore(init, s);
    CoreFacts(init, s);
    ClientOpKeepsCore(init, s, a);
    var t, op := Next(s, a), OpOf(s, a);
    OpOfNumber(s, a);
    assert [] + [SyncOp(op)] == [SyncOp(op)];
    HandOver(t, op);
    OpReceived(t.replica, op);
    HasMessage(t);
  }

  lemma OpOfNumber(s: System, a: Action)
    requires a.ClientOp?
    ensures OpOf(s, a).num == s.origin.nextSeq && OpOf(s, a).kind == a.kind
  {
    hide Handle;
  }

  lemma OpReceived(n: Node, op: Op)
    ensures Receive(n, SyncOp(op)).node.applied
      == if ApplyRemote(n.db, op.kind, op.payload).ok && op.num > n.applied then op.num else n.applied
  {
    hide ApplyRemote;
  }

  lemma HasMessage(s: System)
    requires s.link.Up? && s.link.toReplica != []
    ensures Enabled(s, ToReplica, true)
  {
  }

  /** A user is created while the link is down. */
  lemma CreateIssues(init: Db, v: View, uid: Str, pwd: Str)
    requires Valid(init) && !IsEmpty(init) && uid != [] && pwd != [] && uid !in init.users
    requires Bounded(v, []) && 8 + |uid| + |pwd| <= Net.MAX_PAYLOAD
    ensures var a := ClientOp(v, MSG_CREATE_USER, CreateRequest(uid, pwd), 0);
      var op := Op(1, MSG_CREATE_USER, a.payload, 0);
      && Enabled(Start(init), a, true) && Readable(v, a.kind, a.payload) && Inv(init, Next(Start(init), a))
      && Next(Start(init), a)
        == System(Node(Exec(init, CmdCreateUser(uid, pwd)).db, 2, 0, [op]), Node(init, 1, 0, []), Down, [op], {}, false)
  {
    var a := ClientOp(v, MSG_CREATE_USER, CreateRequest(uid, pwd), 0);
    CreateRuns(v, init, uid, pwd);
    hide Exec, Valid, IsEmpty, Readable, Inv, Next, Handle, OpOf, Enabled, CreateRequest;
    Succeeds(Start(init), a, Exec(init, CmdCreateUser(uid, pwd)).db, a.payload);
    assert [] + [OpOf(Start(init), a)] == [OpOf(Start(init), a)];
    StartInv(init);
    OneReadable(a);
    StepKeeps(init, Start(init), a);
  }

  /** The link comes up, and the catch-up that would fetch the user waits. */
  lemma CreateWaits(init: Db, v: View, uid: Str, pwd: Str)
    requires Valid(init) && !IsEmpty(init) && uid != [] && pwd != [] && uid !in init.users
    requires Bounded(v, []) && 8 + |uid| + |pwd| <= Net.MAX_PAYLOAD
    ensures var a := ClientOp(v, MSG_CREATE_USER, CreateRequest(uid, pwd), 0);
      var op := Op(1, MSG_CREATE_USER, a.payload, 0);
      var s1 := Next(Start(init), a);
      var s2 := Next(s1, LinkUp);
      && Enabled(Start(init), a, false) && Readable(v, a.kind, a.payload) && Enabled(s1, LinkUp, false)
      && Inv(init, s2) && !Quiet(s2.link)
      && s2 == System(Node(Exec(init, CmdCreateUser(uid, pwd)).db, 2, 0, [op]), Node(init, 1, 0, []),
           Up([], [Catchup(0)]), [op], {}, false)
  {
    var a := ClientOp(v, MSG_CREATE_USER, CreateRequest(uid, pwd), 0);
    hide Exec, Valid, IsEmpty, Readable, Inv, Next, Quiet, Enabled, CreateRequest, Bounded, Start;
    CreateIssues(init, v, uid, pwd);
    Loosely(Start(init), a);
    ComesUp(init, Next(Start(init), a));
  }

  /** A link comes up, and its catch-up request waits. */
  lemma ComesUp(init: Db, s: System)
    requires Inv(init, s) && s.link.Down?
    ensures Enabled(s, LinkUp, false) && Inv(init, Next(s, LinkUp)) && !Quiet(Next(s, LinkUp).link)
    ensures Next(s, LinkUp) == s.(link := Up([], [Catchup(s.replica.applied)]))
  {
    hide Inv, Core, Next, Quiet;
    InvCore(init, s);
    LinkUpKeeps(init, s);
    PendingInv(init, Next(s, LinkUp));
  }

  lemma Loosely(s: System, a: Action)
    requires Enabled(s, a, true)
    ensures Enabled(s, a, false)
  {
    hide Handle, Bounded;
  }

  lemma PendingInv(init: Db, s: System)
    requires Core(init, s) && s.link == Up([], [Catchup(s.replica.applied)])
    ensures Inv(init, s) && !Quiet(s.link)
  {
    hide LogInv, HeardInv, Sound, DataInv;
    NotQuiet(s.link);
  }

  lemma OneReadable(a: Action)
    requires a.ClientOp? ==> Readable(a.v, a.kind, a.payload)
    ensures AllReadable([a])
  {
  }

  /** The largest create_user that fits a request, then a smaller one while the catch-up waits. */
  function PastTheLargest(v: View, largest: Str, small: Str): seq<Action> {
    [ClientOp(v, MSG_CREATE_USER, largest, 0), LinkUp, ClientOp(v, MSG_CREATE_USER, small, 0), ToReplica]
  }

  lemma RunsPast(s: System, a: Action, b: Action)
    requires Enabled(s, a, false) && Enabled(Next(s, a), LinkUp, false)
    requires Enabled(Next(Next(s, a), LinkUp), b, false)
    requires Enabled(Next(Next(Next(s, a), LinkUp), b), ToReplica, true)
    ensures Runs(s, [a, LinkUp, b, ToReplica], false)
    ensures Run(s, [a, LinkUp, b, ToReplica]) == Next(Next(Next(Next(s, a), LinkUp), b), ToReplica)
  {
    hide Next;
    var s1 := Next(s, a);
    var s2 := Next(s1, LinkUp);
    var s3 := Next(s2, b);
    assert Enabled(s3, ToReplica, false);
    hide Enabled;
    Tails(a, LinkUp, b, ToReplica);
    RunOne(s3, ToReplica, false);
    assert Runs(s2, [b, ToReplica], false) && Run(s2, [b, ToReplica]) == Run(s3, [ToReplica]);
    assert Runs(s1, [LinkUp, b, ToReplica], false) && Run(s1, [LinkUp, b, ToReplica]) == Run(s2, [b, ToReplica]);
  }

  /** Another user, created while the catch-up waits, moves `applied` to its number. */
  lemma CreateJumps(init: Db, s: System, v: View, uid: Str, pwd: Str)
    requires Inv(init, s) && !Quiet(s.link) && uid !in s.origin.db.users && uid !in s.replica.db.users
    requires uid != [] && pwd != [] && Bounded(v, []) && 30 + |uid| + |pwd| <= Net.MAX_PAYLOAD
    ensures var b := ClientOp(v, MSG_CREATE_USER, CreateRequest(uid, pwd), 0);
      var t := Next(Next(s, b), ToReplica);
      && Enabled(s, b, false) && Readable(v, b.kind, b.payload) && Enabled(Next(s, b), ToReplica, true)
      && t.issued == s.issued + [OpOf(s, b)] && t.replica.applied == |s.issued| + 1
  {
    var b := ClientOp(v, MSG_CREATE_USER, CreateRequest(uid, pwd), 0);
    CreateRuns(v, s.origin.db, uid, pwd);
    CreateRuns(v, s.replica.db, uid, pwd);
    hide Inv, Quiet, Next, Enabled, OpOf, Handle, Readable, Exec, ApplyRemote, CreateRequest;
    Succeeds(s, b, Exec(s.origin.db, CmdCreateUser(uid, pwd)).db, b.payload);
    OpSize(OpOf(s, b));
    LateJumps(init, s, b);
  }

  lemma BothReadable(a: Action, b: Action)
    requires a.ClientOp? && Readable(a.v, a.kind, a.payload) && b.ClientOp? && Readable(b.v, b.kind, b.payload)
    ensures AllReadable([a, LinkUp, b, ToReplica])
  {
  }

  /** The replica is two operations on, and never had the first. */
  lemma TwoJumped(init: Db, a: Action, b: Action)
    requires a.ClientOp? && Readable(a.v, a.kind, a.payload) && b.ClientOp? && Readable(b.v, b.kind, b.payload)
    requires var s2 := Next(Next(Start(init), a), LinkUp);
      && Enabled(Start(init), a, false) && Enabled(Next(Start(init), a), LinkUp, false) && Enabled(s2, b, false)
      && Enabled(Next(s2, b), ToReplica, true) && |s2.issued| == 1 && 22 + |s2.issued[0].payload| > Net.MAX_PAYLOAD
      && Next(Next(s2, b), ToReplica).issued == s2.issued + [OpOf(s2, b)]
      && Next(Next(s2, b), ToReplica).replica.applied == 2
    ensures var acts := [a, LinkUp, b, ToReplica];
      var t := Run(Start(init), acts);
      && Runs(Start(init), acts, false) && AllReadable(acts)
      && |t.issued| == 2 && 22 + |t.issued[0].payload| > Net.MAX_PAYLOAD && t.replica.applied == 2 && 1 !in t.heard
  {
    hide Next, Enabled, OpOf, Readable, Runs, Run, AllReadable, Start;
    RunsPast(Start(init), a, b);
    BothReadable(a, b);
    OversizedNeverHeard(init, [a, LinkUp, b, ToReplica], false, 0);
  }

  /** Without the quiet catch-up the replica goes past an operation that it can never receive. */
  lemma OversizedOvertaken(init: Db, v: View, uid: Byte, pwd: Str, other: Byte, pin: Str)
    requires Valid(init) && !IsEmpty(init) && [uid] !in init.users && [other] !in init.users && uid != other
    requires |pwd| == Net.MAX_PAYLOAD - 9 && 0 < |pin| <= Net.MAX_PAYLOAD - 31 && Bounded(v, [])
    ensures var acts := PastTheLargest(v, CreateRequest([uid], pwd), CreateRequest([other], pin));
      var t := Run(Start(init), acts);
      && Runs(Start(init), acts, false) && AllReadable(acts)
      && |t.issued| == 2 && 22 + |t.issued[0].payload| > Net.MAX_PAYLOAD && t.replica.applied == 2
      && 1 !in t.heard
  {
    hide Valid, IsEmpty, Next, Enabled, OpOf, Handle, Readable, Exec, ApplyRemote, Inv, Runs, Run, Quiet, CreateRequest,
      Bounded, AllReadable, Start;
    var a := ClientOp(v, MSG_CREATE_USER, CreateRequest([uid], pwd), 0);
    var b := ClientOp(v, MSG_CREATE_USER, CreateRequest([other], pin), 0);
    assert [uid] != [other] by { assert [uid][0] != [other][0]; }
    CreateRuns(v, init, [uid], pwd);
    CreateWaits(init, v, [uid], pwd);
    CreateJumps(init, Next(Next(Start(init), a), LinkUp), v, [other], pin);
    TwoJumped(init, a, b);
  }

  // ----- one such run, and what it leaves behind ----------------------------

  const ALICE: Str := [97]
  const BOB: Str := [98]
  const SECRET: Str := [99]
  const GROUP: Str := [103]

  const Seed := Db(map[ALICE := User(ALICE, SECRET, false, [], 0)], map[])
  const NewBob := CmdCreateUser(BOB, SECRET)
  const BobsGroup := CmdCreateGroup(GROUP, BOB)

  function BobRequest(): Str { CreateRequest(BOB, SECRET) }
  function GroupRequest(): Str { EncStr(GROUP) }
  function First(): Op { Op(1, MSG_CREATE_USER, BobRequest(), 0) }
  function Second(): Op { Op(2, MSG_CREATE_GROUP, EncStr(GROUP) + EncStr(BOB), 0) }

  const SignUp := ClientOp(View([], [], 0), MSG_CREATE_USER, BobRequest(), 0)
  const Found := ClientOp(View(BOB, [], 0), MSG_CREATE_GROUP, GroupRequest(), 0)

  lemma RequestsRead()
    ensures ParseRequest(MSG_CREATE_USER, BobRequest(), [], [], 0) == Got(NewBob, [])
    ensures ParseRequest(MSG_CREATE_GROUP, GroupRequest(), BOB, [], 0) == Got(BobsGroup, [])
    ensures ParseOp(MSG_CREATE_GROUP, Second().payload) == Some(BobsGroup)
    ensures |BobRequest()| == 10 && |GroupRequest()| == 5 && |Second().payload| == 10
  {
    hide ParseTwo, ParseStr;
    TwoInverts(BOB, SECRET, []);
    assert BobRequest() + [] == BobRequest();
    StrExact(GroupRequest(), GROUP, []);
    assert EncStr(GROUP) + [] == EncStr(GROUP);
    TwoInverts(GROUP, BOB, []);
    assert EncStr(GROUP) + EncStr(BOB) + [] == EncStr(GROUP) + EncStr(BOB);
  }

  /** Alice alone knows nobody called Bob, so Bob's group needs Bob first. */
  lemma RequestsRun() returns (db1: Db, db2: Db)
    ensures Exec(Seed, NewBob) == Outcome(db1, ST_OK) && Exec(db1, BobsGroup) == Outcome(db2, ST_OK)
    ensures Exec(Seed, BobsGroup) == Outcome(Seed, ST_NOT_FOUND)
    ensures HasUsers(Seed) && HasUsers(db2) && BOB in db2.users.Keys && BOB !in Seed.users.Keys
  {
    hide HashPassword;
    db1 := Exec(Seed, NewBob).db;
    db2 := Exec(db1, BobsGroup).db;
    assert BOB != ALICE by { assert BOB[0] != ALICE[0]; }
    assert ALICE in Seed.users.Keys;
    assert BOB in db1.users.Keys && BOB in db2.users.Keys;
  }

  lemma SeedValid()
    ensures Valid(Seed) && !IsEmpty(Seed)
  {
    assert ALICE in Seed.users.Keys;
  }

  lemma GroupLogged(db1: Db, db2: Db)
    requires Exec(db1, BobsGroup) == Outcome(db2, ST_OK)
    ensures Readable(Found.v, Found.kind, Found.payload) && Bounded(Found.v, Found.payload)
    ensures Carried(SyncOp(Second()))
    ensures Handle(Found.v, db1, Found.kind, Found.payload)
      == Handled(Found.v, db2, Reply(ST_OK, []), Some(Second().payload))
  {
    RequestsRead();
    OpSize(Second());
    ExactRequestReadable(Found.v, MSG_CREATE_GROUP, GroupRequest());
    hide Exec, ParseRequest, GroupRequest, Readable, EncStr, Handle;
    ParsedIsLogged(Found.v, db1, MSG_CREATE_GROUP, GroupRequest(), BobsGroup, []);
  }

  lemma Founds(s: System, db1: Db, db2: Db)
    requires s.origin.db == db1 && s.origin.nextSeq == 2 && Exec(db1, BobsGroup) == Outcome(db2, ST_OK)
    ensures Enabled(s, Found, false) && Readable(Found.v, Found.kind, Found.payload)
    ensures OpOf(s, Found) == Second() && Carried(SyncOp(Second()))
    ensures Next(s, Found).origin == Node(db2, 3, s.origin.applied, s.origin.log + [Second()])
    ensures Next(s, Found).replica == s.replica && Next(s, Found).issued == s.issued + [Second()]
    ensures s.link.Up? ==> Next(s, Found).link == Up(s.link.toReplica + [SyncOp(Second())], s.link.toOrigin)
  {
    hide Exec, Readable, Handle, Next, Enabled, OpOf, GroupRequest, Bounded, Carried;
    GroupLogged(db1, db2);
    Succeeds(s, Found, db2, Second().payload);
  }

  /** Nothing but a new client operation can move the replica any more. */
  ghost predicate Stuck(s: System) {
    && s.origin.log == [] && HasUsers(s.origin.db) && HasUsers(s.replica.db)
    && (s.link.Up? ==> s.link.toReplica == [] && forall m | m in s.link.toOrigin :: m.Catchup?)
  }

  /**
   Bob is created while the link is down; it comes up; while its catch-up request waits, Bob's
   group is created and sent live; the replica refuses it but acknowledges it; the
   acknowledgement trims both operations; the link drops before the catch-up arrives.
   */
  lemma OvertakenOpIsLost() returns (acts: seq<Action>)
    ensures Valid(Seed) && !IsEmpty(Seed) && Runs(Start(Seed), acts, false) && AllReadable(acts)
    ensures var s := Run(Start(Seed), acts);
      && s.issued == [First(), Second()] && s.replica.applied == 0 && 1 !in s.heard
      && Stuck(s) && !SameMeta(s.origin.db, s.replica.db)
  {
    SeedValid();
    RequestsRead();
    var db1, db2 := RequestsRun();
    hide Exec, ParseOp, ParseRequest, BobRequest, GroupRequest, Second, First, Valid, IsEmpty, Handle, Readable,
      Run, Runs;
    hide Inv, Core, Next, SameMeta, OpOf, Enabled, Quiet, Carried;
    var s0 := Start(Seed);
    var s1 := Next(s0, SignUp);
    var s2 := Next(s1, LinkUp);
    BobWaits(db1);
    Founds(s2, db1, db2);
    assert [] + [SyncOp(Second())] == [SyncOp(Second())] && [First()] + [Second()] == [First(), Second()];
    LossFollows(Seed, s2, Found);
    LossKeepsReplica(Next(s2, Found), Seed, db2);
    LongRun(s0, s1, s2, Next(s2, Found));
    acts := [SignUp, LinkUp, Found] + TheLoss;
    var t := Run(s0, acts);
    assert t.issued == s2.issued + [Second()];
    DifferentUsers(t.origin.db, t.replica.db, BOB);
  }

  lemma BobWaits(db1: Db)
    requires Valid(Seed) && !IsEmpty(Seed) && Exec(Seed, NewBob) == Outcome(db1, ST_OK) && BOB !in Seed.users
    ensures var s0 := Start(Seed);
      var s1 := Next(s0, SignUp);
      var s2 := Next(s1, LinkUp);
      && Enabled(s0, SignUp, false) && Readable(SignUp.v, SignUp.kind, SignUp.payload) && Enabled(s1, LinkUp, false)
      && Inv(Seed, s2) && !Quiet(s2.link)
      && s2 == System(Node(db1, 2, 0, [First()]), Node(Seed, 1, 0, []), Up([], [Catchup(0)]), [First()], {}, false)
  {
    assert Bounded(SignUp.v, []);
    hide Exec, Valid, IsEmpty, Readable, Inv, Next, Enabled, Quiet, CreateRequest;
    CreateWaits(Seed, SignUp.v, BOB, SECRET);
  }

  lemma DifferentUsers(a: Db, b: Db, u: Str)
    requires u in a.users.Keys && u !in b.users.Keys
    ensures !SameMeta(a, b)
  {
  }

  /** The replica has refused Bob's group and received nothing else. */
  lemma LossKeepsReplica(s3: System, seed: Db, db2: Db)
    requires s3.replica == Node(seed, 1, 0, []) && Exec(seed, BobsGroup) == Outcome(seed, ST_NOT_FOUND)
    requires s3.link == Up([SyncOp(Second())], [Catchup(0)]) && s3.origin.db == db2
    requires ParseOp(MSG_CREATE_GROUP, Second().payload) == Some(BobsGroup) && Carried(SyncOp(Second()))
    ensures Run(s3, TheLoss).replica == s3.replica && Run(s3, TheLoss).origin.db == db2
  {
    RefusedGroup(s3, seed);
    hide Exec, ParseOp, Carried, OpsAfter, Trim, Receive, Second;
    SmallCarried(Catchup(0));
    SmallCarried(Ack(Second().num));
    HandOver(s3, Second());
    var s4 := Next(s3, ToReplica);
    assert [Catchup(0)] + [Ack(Second().num)] == [Catchup(0), Ack(Second().num)];
    Serves(s4, 0);
    var s5 := Next(s4, ToOrigin);
    assert [Catchup(0), Ack(Second().num)][1..] == [Ack(Second().num)];
    Acked(s5, Second().num);
    RunFour(s3);
    Drops(Next(s5, ToOrigin));
    hide Next, Run;
  }

  lemma Drops(s: System)
    ensures Next(s, LinkDown) == s.(link := Down)
  {
  }

  lemma RunFour(s: System)
    ensures Run(s, TheLoss) == Next(Next(Next(Next(s, ToReplica), ToOrigin), ToOrigin), LinkDown)
  {
    hide Next;
    var s1 := Next(s, ToReplica);
    var s2 := Next(s1, ToOrigin);
    var s3 := Next(s2, ToOrigin);
    Tails(ToReplica, ToOrigin, ToOrigin, LinkDown);
    RunOne(s3, LinkDown, true);
    assert Run(s2, [ToOrigin, LinkDown]) == Run(s3, [LinkDown]);
    assert Run(s1, [ToOrigin, ToOrigin, LinkDown]) == Run(s2, [ToOrigin, LinkDown]);
  }

  lemma RefusedGroup(s: System, seed: Db)
    requires s.replica == Node(seed, 1, 0, []) && Exec(seed, BobsGroup) == Outcome(seed, ST_NOT_FOUND)
    requires ParseOp(MSG_CREATE_GROUP, Second().payload) == Some(BobsGroup)
    ensures Receive(s.replica, SyncOp(Second())).node == s.replica
  {
    hide Exec, ParseOp;
    assert !Tolerated(BobsGroup, ST_NOT_FOUND);
  }

  lemma LongRun(s0: System, s1: System, s2: System, s3: System)
    requires Enabled(s0, SignUp, false) && s1 == Next(s0, SignUp) && Enabled(s1, LinkUp, false)
      && s2 == Next(s1, LinkUp)
    requires Enabled(s2, Found, false) && s3 == Next(s2, Found) && Runs(s3, TheLoss, true)
    ensures Runs(s0, [SignUp, LinkUp, Found] + TheLoss, false)
    ensures Run(s0, [SignUp, LinkUp, Found] + TheLoss) == Run(s3, TheLoss)
  {
    hide Enabled, Next;
    Loosen(s3, TheLoss);
    assert [Found] + TheLoss == [Found] + TheLoss && ([Found] + TheLoss)[1..] == TheLoss;
    assert Runs(s2, [Found] + TheLoss, false) && Run(s2, [Found] + TheLoss) == Run(s3, TheLoss);
    assert ([LinkUp, Found] + TheLoss)[1..] == [Found] + TheLoss;
    assert Runs(s1, [LinkUp, Found] + TheLoss, false) && Run(s1, [LinkUp, Found] + TheLoss) == Run(s3, TheLoss);
    assert ([SignUp, LinkUp, Found] + TheLoss)[1..] == [LinkUp, Found] + TheLoss;
  }

  lemma {:induction false} Loosen(s: System, acts: seq<Action>)
    requires Runs(s, acts, true)
    ensures Runs(s, acts, false)
    decreases |acts|
  {
    hide Next;
    if acts != [] { Loosen(Next(s, acts[0]), acts[1..]); }
  }

  lemma StuckStep(s: System, a: Action)
    requires Stuck(s) && Enabled(s, a, false) && !a.ClientOp?
    ensures Stuck(Next(s, a))
    ensures SameMeta(s.replica.db, Next(s, a).replica.db) && SameMeta(s.origin.db, Next(s, a).origin.db)
  {
    SameMetaReflexive(s.replica.db);
    SameMetaReflexive(s.origin.db);
    UsersNotEmpty(s.origin.db);
    UsersNotEmpty(s.replica.db);
    hide SameMeta, HasUsers, IsEmpty, Receive, Carried;
    match a
    case OriginSession(e) => StuckSession(s.origin.db, e); hide Apply;
    case ReplicaSession(e) => StuckSession(s.replica.db, e); hide Apply;
    case ToOrigin => hide Next, Stuck; StuckToOrigin(s);
    case ToReplica =>
    case LinkUp =>
    case LinkDown =>
  }

  lemma StuckSession(db: Db, e: Event)
    requires HasUsers(db) && !e.Do?
    ensures SameMeta(db, Apply(db, e).db) && HasUsers(Apply(db, e).db)
  {
    SessionKeepsMeta(db, e);
    hide Apply;
    SameMetaUsers(db, Apply(db, e).db);
  }

  lemma StuckToOrigin(s: System)
    requires Stuck(s) && Enabled(s, ToOrigin, false)
    ensures Stuck(Next(s, ToOrigin)) && Next(s, ToOrigin).replica == s.replica
    ensures Next(s, ToOrigin).origin.db == s.origin.db
  {
    hide Carried, HasUsers;
    assert s.link.toOrigin[0] in s.link.toOrigin;
    assert [] + Wrap([]) == [];
  }

  /** With its log empty, no reconnection ever brings the replica an operation it missed. */
  lemma {:induction false} LostForGood(s: System, acts: seq<Action>)
    requires Stuck(s) && Runs(s, acts, false) && forall a | a in acts :: !a.ClientOp?
    ensures SameMeta(s.replica.db, Run(s, acts).replica.db) && SameMeta(s.origin.db, Run(s, acts).origin.db)
    decreases |acts|
  {
    hide Stuck, Enabled, Next, SameMeta;
    if acts == [] {
      SameMetaReflexive(s.replica.db);
      SameMetaReflexive(s.origin.db);
    } else {
      var t := Next(s, acts[0]);
      StuckStep(s, acts[0]);
      LostForGood(t, acts[1..]);
      SameMetaTransitive(s.replica.db, t.replica.db, Run(t, acts[1..]).replica.db);
      SameMetaTransitive(s.origin.db, t.origin.db, Run(t, acts[1..]).origin.db);
    }
  }
}
