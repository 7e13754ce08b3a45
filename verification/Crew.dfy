/**
 The workers of a round, over whole schedules: when one leaves, and that a round in which
 nothing goes wrong completes the file whatever the schedule.
 */
module Crew {
  import opened Bytes
  import opened Pieces
  import opened Download
  import Sha1

  ghost predicate Playable(s: Store, hashes: seq<Str>, w: nat, sched: seq<(nat, Outside)>) {
    s.Valid() && |hashes| == s.count && Sound(s, hashes) && forall p | p in sched :: p.0 < w
  }

  lemma {:induction false} PlayKeepsCrew(r: Round, hashes: seq<Str>, sched: seq<(nat, Outside)>)
    requires Inv(r, hashes) && forall p | p in sched :: p.0 < |r.workers|
    ensures |Play(r, hashes, sched).workers| == |r.workers| && Play(r, hashes, sched).store.count == r.store.count
    decreases |sched|
  {
    hide Inv, Step;
    if sched != [] {
      PlayOne(r, hashes, sched);
      PlayStep(r, hashes, sched[0].0, sched[0].1);
      PlayKeepsCrew(Step(r, hashes, sched[0].0, sched[0].1), hashes, sched[1..]);
    }
  }

  lemma {:induction false} PlayLast(r: Round, hashes: seq<Str>, sched: seq<(nat, Outside)>)
    requires Inv(r, hashes) && sched != [] && forall p | p in sched :: p.0 < |r.workers|
    ensures var before, last := Play(r, hashes, sched[..|sched| - 1]), sched[|sched| - 1];
      && Inv(before, hashes) && |before.workers| == |r.workers| && InRange(before.workers[last.0], before.store)
      && Play(r, hashes, sched) == Step(before, hashes, last.0, last.1)
    decreases |sched|
  {
    hide Inv, Step;
    var n := |sched| - 1;
    PlayKeepsCrew(r, hashes, sched[..n]);
    WorkerInRange(Play(r, hashes, sched[..n]), hashes, sched[n].0);
    PlayOne(r, hashes, sched);
    if n == 0 {
      assert sched[1..] == [] && sched[..0] == [];
    } else {
      PlayStep(r, hashes, sched[0].0, sched[0].1);
      var r1 := Step(r, hashes, sched[0].0, sched[0].1);
      PlayLast(r1, hashes, sched[1..]);
      assert sched[1..][..n - 1] == sched[..n][1..] && sched[1..][n - 1] == sched[n];
      PlayOne(r, hashes, sched[..n]);
    }
  }

  lemma ReachedIs(s: Store, hashes: seq<Str>, w: nat, sched: seq<(nat, Outside)>)
    requires Playable(s, hashes, w, sched)
    ensures Inv(StartRound(s, w), hashes) && |StartRound(s, w).workers| == w && StartRound(s, w).store == s
    ensures Reached(s, hashes, w, sched) == Play(StartRound(s, w), hashes, sched)
  {
    hide Inv, Sound, Play, Unmarked;
    StartInv(s, hashes, w);
  }

  /** The round after a schedule, and its last step. */
  lemma ReachedLast(s: Store, hashes: seq<Str>, w: nat, sched: seq<(nat, Outside)>)
    requires Playable(s, hashes, w, sched)
    ensures var r := Reached(s, hashes, w, sched); |r.workers| == w && |hashes| == r.store.count
    ensures sched != [] ==>
      var before, last := Reached(s, hashes, w, sched[..|sched| - 1]), sched[|sched| - 1];
      && |before.workers| == w && |hashes| == before.store.count && InRange(before.workers[last.0], before.store)
      && Reached(s, hashes, w, sched) == Step(before, hashes, last.0, last.1)
    ensures sched == [] ==> Reached(s, hashes, w, sched) == StartRound(s, w)
  {
    hide Inv, Sound, Step, StartRound, Reached;
    ReachedIs(s, hashes, w, sched);
    var r0 := StartRound(s, w);
    PlayKeepsCrew(r0, hashes, sched);
    if sched != [] {
      ReachedIs(s, hashes, w, sched[..|sched| - 1]);
      PlayLast(r0, hashes, sched);
      PlayKeepsCrew(r0, hashes, sched[..|sched| - 1]);
    }
  }

  // ----- when a worker leaves -----------------------------------------------

  /** The step gives the worker's piece back: a missing or bad reply, or a write that fails. */
  predicate Failing(r: Round, hashes: seq<Str>, k: nat, ev: Outside)
    requires k < |r.workers| && r.store.Valid() && |hashes| == r.store.count && InRange(r.workers[k], r.store)
  {
    (r.workers[k].Fetching? || r.workers[k].Writing?) && !Kindly(r, hashes, k, ev)
  }

  /** The step marks the worker's piece. */
  predicate Storing(r: Round, k: nat)
    requires k < |r.workers|
  {
    r.workers[k].Writing? && r.workers[k].put == |r.workers[k].data|
  }

  /** How often worker k has failed since it last stored a piece. */
  ghost function Streak(s: Store, hashes: seq<Str>, w: nat, sched: seq<(nat, Outside)>, k: nat): nat
    requires Playable(s, hashes, w, sched)
    decreases |sched|
  {
    if sched == [] then 0
    else
      ReachedLast(s, hashes, w, sched);
      ReachedLast(s, hashes, w, sched[..|sched| - 1]);
      var r, last := Reached(s, hashes, w, sched[..|sched| - 1]), sched[|sched| - 1];
      var before := Streak(s, hashes, w, sched[..|sched| - 1], k);
      if last.0 != k then before
      else if Failing(r, hashes, k, last.1) then before + 1
      else if Storing(r, k) then 0
      else before
  }

  /** What one step does to one worker's count, and when it sends the worker away. */
  lemma LeavesIff(r: Round, hashes: seq<Str>, k: nat, ev: Outside)
    requires Inv(r, hashes) && k < |r.workers| && InRange(r.workers[k], r.store) && r.workers[k] != Gone
    ensures var t := Step(r, hashes, k, ev).workers[k];
      && (t == Gone <==>
           || (r.workers[k] == Connecting && !ev.Connected?)
           || (r.workers[k].Ready? && r.queue == [])
           || (Failing(r, hashes, k, ev) && r.workers[k].fails + 1 >= MAX_CONSECUTIVE_FAILURES))
      && (t != Gone ==> !t.Connecting?)
      && (t != Gone ==> t.fails == if r.workers[k].Connecting? || Storing(r, k) then 0
           else if Failing(r, hashes, k, ev) then r.workers[k].fails + 1 else r.workers[k].fails)
    ensures |Step(r, hashes, k, ev).workers| == |r.workers|
    ensures forall j | 0 <= j < |r.workers| && j != k :: Step(r, hashes, k, ev).workers[j] == r.workers[j]
  {
    hide Inv, Sha1.HexDigest, SetBit, WriteAt;
  }

  /** The count a worker keeps; one that connects has none, and one that has left keeps none. */
  predicate Counted(x: Worker, n: nat) {
    (x == Connecting ==> n == 0) && (x != Connecting && x != Gone ==> x.fails == n)
  }

  /** A worker's count of failures is the number of its failures in a row. */
  lemma {:induction false} CountsFailures(s: Store, hashes: seq<Str>, w: nat, sched: seq<(nat, Outside)>, k: nat)
    requires Playable(s, hashes, w, sched) && k < w
    ensures |Reached(s, hashes, w, sched).workers| == w
    ensures Counted(Reached(s, hashes, w, sched).workers[k], Streak(s, hashes, w, sched, k))
    decreases |sched|
  {
    ReachedLast(s, hashes, w, sched);
    hide Inv, Sound, Step, Reached, Failing, Storing;
    if sched == [] {
      DialingHolds(w);
    } else {
      var before, last := sched[..|sched| - 1], sched[|sched| - 1];
      CountsFailures(s, hashes, w, before, k);
      var r := Reached(s, hashes, w, before);
      if r.workers[last.0] != Gone {
        LeavesIff(r, hashes, last.0, last.1);
      } else {
        GoneStays(r, hashes, last.0, last.1);
      }
    }
  }

  lemma GoneStays(r: Round, hashes: seq<Str>, k: nat, ev: Outside)
    requires Inv(r, hashes) && k < |r.workers| && r.workers[k] == Gone
    ensures Step(r, hashes, k, ev) == r
  {
    hide Inv;
  }

  /**
   A worker stays until it is refused, or finds nothing queued, or fails for the third time in a
   row: for every schedule of every round, exactly then the next step sends it away.
   */
  lemma StaysUntilThird(s: Store, hashes: seq<Str>, w: nat, sched: seq<(nat, Outside)>, k: nat, ev: Outside)
    requires Playable(s, hashes, w, sched) && k < w
    ensures var r := Reached(s, hashes, w, sched);
      && |r.workers| == w && |hashes| == r.store.count && InRange(r.workers[k], r.store)
      && (r.workers[k] != Gone ==>
        (Step(r, hashes, k, ev).workers[k] == Gone <==>
          || (r.workers[k] == Connecting && !ev.Connected?)
          || (r.workers[k].Ready? && r.queue == [])
          || (Failing(r, hashes, k, ev) && Streak(s, hashes, w, sched, k) + 1 >= MAX_CONSECUTIVE_FAILURES)))
  {
    ReachedLast(s, hashes, w, sched);
    CountsFailures(s, hashes, w, sched, k);
    var r := Reached(s, hashes, w, sched);
    hide Inv, Sound, Step, Reached, Streak;
    WorkerInRange(r, hashes, k);
    if r.workers[k] != Gone { LeavesIff(r, hashes, k, ev); }
  }

  // ----- a kind schedule completes ------------------------------------------

  /** Nothing goes wrong at any step. */
  ghost predicate AllKind(s: Store, hashes: seq<Str>, w: nat, sched: seq<(nat, Outside)>)
    requires Playable(s, hashes, w, sched)
    decreases |sched|
  {
    if sched == [] then true
    else
      ReachedLast(s, hashes, w, sched);
      ReachedLast(s, hashes, w, sched[..|sched| - 1]);
      var r, last := Reached(s, hashes, w, sched[..|sched| - 1]), sched[|sched| - 1];
      AllKind(s, hashes, w, sched[..|sched| - 1]) && Kindly(r, hashes, last.0, last.1)
  }

  lemma {:induction false} KindStaysUnhurt(s: Store, hashes: seq<Str>, w: nat, sched: seq<(nat, Outside)>)
    requires Playable(s, hashes, w, sched) && AllKind(s, hashes, w, sched)
    ensures Unhurt(Reached(s, hashes, w, sched))
    decreases |sched|
  {
    ReachedLast(s, hashes, w, sched);
    hide Inv, Sound, Step, Reached, Kindly, Unhurt;
    if sched == [] {
      StartUnhurt(s, w);
    } else {
      var before, last := sched[..|sched| - 1], sched[|sched| - 1];
      KindStaysUnhurt(s, hashes, w, before);
      KindStep(Reached(s, hashes, w, before), hashes, last.0, last.1);
    }
  }

  /**
   Every schedule in which every connection succeeds, every fetch brings the piece and every write
   moves something: while a piece is queued nobody has left, and once all have left every piece
   is marked.
   */
  lemma KindCompletes(s: Store, hashes: seq<Str>, w: nat, sched: seq<(nat, Outside)>)
    requires Playable(s, hashes, w, sched) && AllKind(s, hashes, w, sched) && w > 0
    ensures var r := Reached(s, hashes, w, sched);
      && |r.workers| == w
      && (r.queue != [] ==> forall k | 0 <= k < w :: r.workers[k] != Gone)
      && ((forall k | 0 <= k < w :: r.workers[k] == Gone) ==> r.store.Marked() == AllPieces(r.store.count))
  {
    ReachedLast(s, hashes, w, sched);
    KindStaysUnhurt(s, hashes, w, sched);
    hide Inv, Sound, Reached, AllKind, AllPieces;
    var r := Reached(s, hashes, w, sched);
    if forall k | 0 <= k < w :: r.workers[k] == Gone { KindRoundEnds(r, hashes); }
  }

  // ----- the order in which pieces are fetched ------------------------------

  ghost predicate Ascending(q: seq<nat>) {
    forall i, j | 0 <= i < j < |q| :: q[i] < q[j]
  }

  lemma {:induction false} UnmarkedAscends(s: Store, n: nat)
    requires s.Valid() && n <= s.count
    ensures Ascending(Unmarked(s, n)) && forall i | i in Unmarked(s, n) :: i < n
  {
    if n > 0 {
      UnmarkedStep(s, n - 1);
      hide HasBit, Unmarked;
      UnmarkedAscends(s, n - 1);
      var q := Unmarked(s, n - 1);
      forall i, j | 0 <= i < j < |Unmarked(s, n)| ensures Unmarked(s, n)[i] < Unmarked(s, n)[j] { assert q[i] in q; }
    }
  }

  lemma KindKeepsOrder(r: Round, hashes: seq<Str>, k: nat, ev: Outside)
    requires Inv(r, hashes) && k < |r.workers| && InRange(r.workers[k], r.store) && Kindly(r, hashes, k, ev)
    ensures Ascending(r.queue) ==> Ascending(Step(r, hashes, k, ev).queue)
  {
    hide Inv, Sha1.HexDigest, SetBit, WriteAt;
  }

  lemma {:induction false} KindStaysAscending(s: Store, hashes: seq<Str>, w: nat, sched: seq<(nat, Outside)>)
    requires Playable(s, hashes, w, sched) && AllKind(s, hashes, w, sched)
    ensures Ascending(Reached(s, hashes, w, sched).queue)
    decreases |sched|
  {
    ReachedLast(s, hashes, w, sched);
    hide Inv, Sound, Step, Reached, Kindly, Ascending, Unmarked;
    if sched == [] {
      UnmarkedAscends(s, s.count);
    } else {
      var before, last := sched[..|sched| - 1], sched[|sched| - 1];
      KindStaysAscending(s, hashes, w, before);
      KindKeepsOrder(Reached(s, hashes, w, before), hashes, last.0, last.1);
    }
  }

  /** While nothing goes wrong, a worker that takes a piece takes the highest that is still queued. */
  lemma HighestFirst(s: Store, hashes: seq<Str>, w: nat, sched: seq<(nat, Outside)>, k: nat, ev: Outside)
    requires Playable(s, hashes, w, sched) && AllKind(s, hashes, w, sched) && k < w
    ensures var r := Reached(s, hashes, w, sched);
      && |r.workers| == w && |hashes| == r.store.count && InRange(r.workers[k], r.store)
      && (r.workers[k].Ready? && r.queue != [] ==>
        var t := Step(r, hashes, k, ev);
        t.workers[k].Fetching? && t.workers[k].index in r.queue && forall i | i in t.queue :: i < t.workers[k].index)
  {
    ReachedLast(s, hashes, w, sched);
    KindStaysAscending(s, hashes, w, sched);
    hide Inv, Sound, Reached, AllKind;
    WorkerInRange(Reached(s, hashes, w, sched), hashes, k);
  }

  /** A piece that is given back is the next to be taken. */
  lemma GivenBackIsNext(r: Round, hashes: seq<Str>, k: nat, ev: Outside, j: nat, next: Outside)
    requires Inv(r, hashes) && k < |r.workers| && InRange(r.workers[k], r.store) && Failing(r, hashes, k, ev)
    requires var t := Step(r, hashes, k, ev); Inv(t, hashes) && j < |t.workers| && t.workers[j].Ready?
    ensures var t := Step(r, hashes, k, ev);
      && InRange(t.workers[j], t.store) && |t.workers| == |r.workers| && Step(t, hashes, j, next).queue == r.queue
      && Step(t, hashes, j, next).workers[j] == Fetching(r.workers[k].index, t.workers[j].fails)
  {
    WorkerInRange(Step(r, hashes, k, ev), hashes, j);
    LeavesIff(r, hashes, k, ev);
    hide Inv, Sha1.HexDigest, SetBit, WriteAt;
  }
}
