/**
 Worker threads that claim indices from a shared atomic counter, read the bytes of each index
 with as many partial reads as it takes, and fill one slot, as `SHA1::hash_file` and
 `PieceStore::resume_scan` do. The scheduler is arbitrary: at every step any live thread may
 be the one that moves.
 */
module Parallel {
  import opened Bytes

  datatype Thread = Idle | Reading(index: nat, buf: Str) | Finished

  /** Steps a thread takes before it claims again. */
  function Rank(t: Thread, data: nat -> Str): nat {
    match t
    case Finished => 0
    case Idle => 1
    case Reading(i, buf) => 2 + if |buf| <= |data(i)| then |data(i)| - |buf| else 0
  }

  function RankSum(ts: seq<Thread>, data: nat -> Str): nat {
    if ts == [] then 0 else Rank(ts[0], data) + RankSum(ts[1..], data)
  }

  /** Steps the indices from `next` on will take. */
  function Unclaimed(next: nat, n: nat, data: nat -> Str): nat
    decreases n - next
  {
    if next >= n then 0 else 3 + |data(next)| + Unclaimed(next + 1, n, data)
  }

  lemma {:induction false} RankSumUpdate(ts: seq<Thread>, k: nat, t: Thread, data: nat -> Str)
    requires k < |ts|
    ensures RankSum(ts[k := t], data) == RankSum(ts, data) - Rank(ts[k], data) + Rank(t, data)
  {
    if k == 0 {
      assert ts[0 := t][1..] == ts[1..];
    } else {
      assert ts[k := t][1..] == ts[1..][k - 1 := t];
      RankSumUpdate(ts[1..], k - 1, t, data);
    }
  }

  /** Some thread is reading this index. */
  ghost predicate InProgress(ts: seq<Thread>, i: nat) {
    exists k :: 0 <= k < |ts| && ts[k].Reading? && ts[k].index == i
  }

  /** Every claimed index is done, or in some thread's hands, unless a read failed. */
  ghost predicate Progress<R(!new)>(n: nat, next: nat, failed: bool, ts: seq<Thread>, slots: seq<Option<R>>,
      data: nat -> Str, finish: (nat, Str) -> R)
  {
    && |slots| == n
    && (forall i | 0 <= i < n && slots[i].Some? :: slots[i] == Some(finish(i, data(i))))
    && (forall k | 0 <= k < |ts| && ts[k].Reading? ::
      ts[k].index < n && ts[k].index < next && ts[k].buf <= data(ts[k].index))
    && (!failed ==> forall i | 0 <= i < n && i < next :: slots[i].Some? || InProgress(ts, i))
    && (forall k | 0 <= k < |ts| && ts[k].Finished? :: failed || next >= n)
  }

  lemma StillInProgress(ts: seq<Thread>, k: nat, t: Thread, i: nat)
    requires k < |ts| && InProgress(ts, i) && (ts[k].Reading? && ts[k].index == i ==> t.Reading? && t.index == i)
    ensures InProgress(ts[k := t], i)
  {
    var j :| 0 <= j < |ts| && ts[j].Reading? && ts[j].index == i;
    assert ts[k := t][j].Reading? && ts[k := t][j].index == i;
  }

  /** What one step of one thread may do: claim the next index, read on, hand its bytes in, fail or stop. */
  ghost predicate Moves(n: nat, next: nat, failed: bool, t: Thread, data: nat -> Str, claimed: Option<nat>,
      t': Thread, done: bool, fails: bool)
  {
    && (claimed.Some? ==> t.Idle? && !failed && claimed.value == next && !done && !fails)
    && (claimed.Some? ==> t' == if next < n then Reading(next, []) else Finished)
    && (done ==> t.Reading? && t.buf == data(t.index) && t' == Idle && !fails)
    && (fails ==> t.Reading? && t' == Finished)
    && (claimed.None? && !done && !fails ==>
      || (t.Idle? && failed && t' == Finished)
      || (t.Reading? && t'.Reading? && t'.index == t.index && t'.buf <= data(t.index) && |t.buf| < |t'.buf|))
  }

  lemma ProgressStep<R(!new)>(n: nat, next: nat, failed: bool, ts: seq<Thread>, out: seq<Option<R>>,
      data: nat -> Str, finish: (nat, Str) -> R, k: nat, i: Option<nat>, t: Thread, done: bool, fails: bool)
    requires Progress(n, next, failed, ts, out, data, finish) && k < |ts|
    requires Moves(n, next, failed, ts[k], data, i, t, done, fails)
    ensures Progress(n, if i.Some? then next + 1 else next, failed || fails, ts[k := t],
      if done then out[ts[k].index := Some(finish(ts[k].index, ts[k].buf))] else out, data, finish)
  {
    var ts' := ts[k := t];
    forall j | !failed && !fails && 0 <= j < n && j < (if i.Some? then next + 1 else next)
      ensures out[j].Some? || (done && ts[k].index == j) || InProgress(ts', j)
    {
      if i.Some? && j == next { assert ts'[k].Reading? && ts'[k].index == j; }
      else if !out[j].Some? && !(done && ts[k].index == j) { StillInProgress(ts, k, t, j); }
    }
  }

  /**
   Fills `slots[i]` with `finish` of the bytes of i, for every i below n, on any number of threads.
   A read can fail only when the file is not `healthy`; then the whole scan fails.
   */
  method ParallelScan<R(0, !new)>(n: nat, threads: nat, data: nat -> Str, finish: (nat, Str) -> R, healthy: bool)
    returns (ok: bool, slots: seq<R>)
    requires threads > 0
    ensures healthy ==> ok
    ensures ok ==> |slots| == n && forall i | 0 <= i < n :: slots[i] == finish(i, data(i))
  {
    var next, failed := 0, false;
    var ts := seq(threads, _ => Idle);
    var out: seq<Option<R>> := seq(n, _ => None);
    while exists k :: 0 <= k < |ts| && ts[k] != Finished
      invariant |ts| == threads && Progress(n, next, failed, ts, out, data, finish)
      invariant failed ==> !healthy
      decreases Unclaimed(next, n, data) + RankSum(ts, data)
    {
      var k :| 0 <= k < |ts| && ts[k] != Finished;
      var i, t, done, fails := ThreadStep(n, next, failed, ts[k], data, healthy);
      RankSumUpdate(ts, k, t, data);
      ProgressStep(n, next, failed, ts, out, data, finish, k, i, t, done, fails);
      if i.Some? { next := next + 1; }
      if done { out := out[ts[k].index := Some(finish(ts[k].index, ts[k].buf))]; }
      failed := failed || fails;
      ts := ts[k := t];
    }
    ok := !failed;
    slots := [];
    if ok {
      assert ts[0] == Finished;
      forall i | 0 <= i < n ensures out[i].Some? {
        assert forall k | 0 <= k < |ts| :: ts[k] == Finished;
      }
      slots := seq(n, i requires 0 <= i < n && 0 <= i < |out| && out[i].Some? => out[i].value);
    }
  }

  /** What one thread does next: claim an index, read some more bytes, or hand its bytes in. */
  method ThreadStep(n: nat, next: nat, failed: bool, t: Thread, data: nat -> Str, healthy: bool)
    returns (claimed: Option<nat>, t': Thread, done: bool, fails: bool)
    requires t != Finished && (t.Reading? ==> t.buf <= data(t.index))
    ensures Moves(n, next, failed, t, data, claimed, t', done, fails) && (fails ==> !healthy)
  {
    claimed, done, fails, t' := None, false, false, Finished;
    match t {
      case Idle =>
        if !failed {
          claimed := Some(next);
          t' := if next < n then Reading(next, []) else Finished;
        }
      case Reading(i, buf) =>
        if buf == data(i) { done, t' := true, Idle; return; }
        var dead: bool := *;
        if !healthy && dead { fails := true; return; }
        assert |buf| < |data(i)|;
        var k: nat :| 0 < k <= |data(i)| - |buf|;
        t' := Reading(i, buf + data(i)[|buf|..|buf| + k]);
        assert t'.buf == data(i)[..|buf| + k];
    }
  }
}
