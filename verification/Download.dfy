/**
 The concurrent download of one file, client/download_manager.cpp. Workers share a LIFO
 queue of piece indices; every step below is one critical section, one fetch, or one
 partial write, and any live worker may be the next to move. Fetches are unreliable:
 they may fail, or bring any bytes at all.
 */
module Download {
  import opened Bytes
  import opened Net
  import opened Pieces
  import Sha1

  const MAX_CONSECUTIVE_FAILURES: nat := 3
  const TARGET_CONNECTIONS: nat := 8
  const MAX_ROUNDS: nat := 5

  datatype Worker =
    | Connecting
    | Ready(fails: nat)
    | Fetching(index: nat, fails: nat)
    | Writing(index: nat, data: Str, put: nat, fails: nat)
    | Gone

  /** What the network or the disk does next for one worker. */
  datatype Outside = Connected | Refused | Fetched(data: Str) | FetchFailed | Wrote(n: nat) | WriteFailed

  /** One round; `fetches` counts the fetch attempts started. */
  datatype Round = Round(queue: seq<nat>, workers: seq<Worker>, store: Store, fetches: nat)

  function GiveBack(r: Round, k: nat, index: nat, fails: nat): Round
    requires k < |r.workers|
  {
    var w := if fails + 1 >= MAX_CONSECUTIVE_FAILURES then Gone else Ready(fails + 1);
    r.(queue := r.queue + [index], workers := r.workers[k := w])
  }

  ghost predicate ValidRound(r: Round, hashes: seq<Str>) {
    && r.store.Valid() && |hashes| == r.store.count
    && forall k | 0 <= k < |r.workers| :: ValidWorker(r.workers[k], r.store, hashes)
  }

  /** A worker in the middle of a write has verified its data and put a prefix of it on disk. */
  ghost predicate ValidWorker(w: Worker, s: Store, hashes: seq<Str>)
    requires s.Valid() && |hashes| == s.count
  {
    match w
    case Connecting => true
    case Gone => true
    case Ready(fails) => fails < MAX_CONSECUTIVE_FAILURES
    case Fetching(i, fails) => InRange(w, s) && fails < MAX_CONSECUTIVE_FAILURES
    case Writing(i, data, put, fails) =>
      && InRange(w, s) && fails < MAX_CONSECUTIVE_FAILURES
      && Sha1.HexDigest(data) == hashes[i]
      && ReadAt(s.disk, Offset(i), put) == data[..put]
  }

  /** A worker's piece exists, and its data have the piece's length. */
  predicate InRange(w: Worker, s: Store) {
    match w
    case Fetching(i, _) => i < s.count
    case Writing(i, data, put, _) => i < s.count && |data| == s.Len(i) && put <= |data|
    case _ => true
  }

  /** One step of worker k. */
  function Step(r: Round, hashes: seq<Str>, k: nat, ev: Outside): Round
    requires k < |r.workers| && r.store.Valid() && |hashes| == r.store.count && InRange(r.workers[k], r.store)
  {
    match r.workers[k]
    case Connecting => r.(workers := r.workers[k := if ev.Connected? then Ready(0) else Gone])
    case Gone => r
    case Ready(fails) =>
      if r.queue == [] then r.(workers := r.workers[k := Gone])
      else
        var last := |r.queue| - 1;
        r.(queue := r.queue[..last], workers := r.workers[k := Fetching(r.queue[last], fails)],
          fetches := r.fetches + 1)
    case Fetching(i, fails) =>
      if ev.Fetched? && |ev.data| == r.store.Len(i) && Sha1.HexDigest(ev.data) == hashes[i]
      then r.(workers := r.workers[k := Writing(i, ev.data, 0, fails)])
      else GiveBack(r, k, i, fails)
    case Writing(i, data, put, fails) =>
      if put == |data| then
        r.(store := r.store.(have := SetBit(r.store.have, i)), workers := r.workers[k := Ready(0)])
      else if ev.Wrote? && 0 < ev.n <= |data| - put then
        r.(store := r.store.(disk := WriteAt(r.store.disk, Offset(i) + put, data[put..put + ev.n])),
           workers := r.workers[k := Writing(i, data, put + ev.n, fails)])
      else GiveBack(r, k, i, fails)
  }

  // ----- conservation of pieces ---------------------------------------------

  /** The pieces in one worker's hands. */
  function InHand(w: Worker): multiset<nat> {
    match w
    case Fetching(i, _) => multiset{i}
    case Writing(i, _, _, _) => multiset{i}
    case _ => multiset{}
  }

  function InHands(ws: seq<Worker>): multiset<nat> {
    if ws == [] then multiset{} else InHand(ws[0]) + InHands(ws[1..])
  }

  lemma SwapFirst(h: multiset<nat>, w: multiset<nat>, t: multiset<nat>)
    ensures w + t + h == h + t + w
  {
  }

  lemma SwapRest(x: multiset<nat>, t: multiset<nat>, t': multiset<nat>, h: multiset<nat>, w: multiset<nat>)
    requires t' + h == t + w
    ensures x + t' + h == x + t + w
  {
    assert x + t' + h == x + (t' + h);
    assert x + t + w == x + (t + w);
  }

  lemma {:induction false} InHandsUpdate(ws: seq<Worker>, k: nat, w: Worker)
    requires k < |ws|
    ensures InHands(ws[k := w]) + InHand(ws[k]) == InHands(ws) + InHand(w)
  {
    hide InHand;
    if k == 0 {
      assert ws[0 := w][1..] == ws[1..];
      SwapFirst(InHand(ws[0]), InHand(w), InHands(ws[1..]));
    } else {
      assert ws[k := w][1..] == ws[1..][k - 1 := w];
      InHandsUpdate(ws[1..], k - 1, w);
      SwapRest(InHand(ws[0]), InHands(ws[1..]), InHands(ws[1..][k - 1 := w]), InHand(ws[k]), InHand(w));
    }
  }

  lemma {:induction false} InHandsHas(ws: seq<Worker>, k: nat, i: nat)
    requires k < |ws|
    ensures InHands(ws)[i] >= InHand(ws[k])[i]
  {
    hide InHand;
    if k > 0 { InHandsHas(ws[1..], k - 1, i); }
  }

  /** Queue, hands and disk share the pieces out: none lost, none twice. */
  ghost predicate Conserved(r: Round)
    requires r.store.Valid()
  {
    multiset(r.queue) + InHands(r.workers) + multiset(r.store.Marked()) == multiset(AllPieces(r.store.count))
  }

  ghost predicate Inv(r: Round, hashes: seq<Str>) {
    ValidRound(r, hashes) && Conserved(r) && Sound(r.store, hashes)
  }

  lemma AllPiecesOnce(n: nat, i: nat)
    ensures multiset(AllPieces(n))[i] == if i < n then 1 else 0
  {
  }

  lemma ConservedAt(r: Round, i: nat)
    requires r.store.Valid() && Conserved(r)
    ensures multiset(r.queue)[i] + InHands(r.workers)[i] + multiset(r.store.Marked())[i]
      == if i < r.store.count then 1 else 0
  {
    AllPiecesOnce(r.store.count, i);
    hide InHands;
    assert (multiset(r.queue) + InHands(r.workers) + multiset(r.store.Marked()))[i]
      == multiset(r.queue)[i] + InHands(r.workers)[i] + multiset(r.store.Marked())[i];
  }

  /** A piece in one worker's hands is nowhere else. */
  lemma HandUnmarked(r: Round, k: nat, i: nat)
    requires r.store.Valid() && Conserved(r) && k < |r.workers| && InHand(r.workers[k]) == multiset{i}
    ensures i < r.store.count && i !in r.store.Marked() && i !in r.queue
    ensures forall j | 0 <= j < |r.workers| && j != k :: i !in InHand(r.workers[j])
  {
    ConservedAt(r, i);
    InHandsHas(r.workers, k, i);
    hide Conserved, InHands, InHand;
    assert multiset(r.queue)[i] == 0 && multiset(r.store.Marked())[i] == 0 && InHands(r.workers)[i] == 1;
    assert i !in multiset(r.queue) && i !in multiset(r.store.Marked());
    forall j | 0 <= j < |r.workers| && j != k ensures i !in InHand(r.workers[j]) {
      HandsTwice(r.workers, j, k, i);
    }
  }

  lemma HandsTwice(ws: seq<Worker>, j: nat, k: nat, i: nat)
    requires j < |ws| && k < |ws| && j != k
    ensures InHands(ws)[i] >= InHand(ws[j])[i] + InHand(ws[k])[i]
  {
    InHandsUpdate(ws, k, Gone);
    InHandsHas(ws[k := Gone], j, i);
    hide InHands;
    var rest := InHands(ws[k := Gone]);
    assert (rest + InHand(ws[k]))[i] == (InHands(ws) + multiset{})[i];
  }

  lemma QueueSplit(q: seq<nat>)
    requires q != []
    ensures multiset(q) == multiset(q[..|q| - 1]) + multiset{q[|q| - 1]}
  {
    assert q == q[..|q| - 1] + [q[|q| - 1]];
  }

  lemma MarkedGrows(s: set<nat>, i: nat)
    requires i !in s
    ensures multiset(s + {i}) == multiset(s) + multiset{i}
  {
  }

  // The three ways a piece moves; each leaves the sum alone.

  lemma HandToQueue(q: multiset<nat>, h: multiset<nat>, h': multiset<nat>, m: multiset<nat>, x: multiset<nat>)
    requires h' + x == h + multiset{}
    ensures (q + x) + h' + m == q + h + m
  {
    assert (q + x) + h' == q + (h' + x);
    assert h + multiset{} == h;
  }

  lemma QueueToHand(q: multiset<nat>, h: multiset<nat>, h': multiset<nat>, m: multiset<nat>, x: multiset<nat>)
    requires h' + multiset{} == h + x
    ensures q + h' + m == (q + x) + h + m
  {
    assert h' + multiset{} == h';
    assert q + (h + x) == (q + x) + h;
  }

  lemma HandToMarked(q: multiset<nat>, h: multiset<nat>, h': multiset<nat>, m: multiset<nat>, x: multiset<nat>)
    requires h' + x == h + multiset{}
    ensures q + h' + (m + x) == q + h + m
  {
    assert h + multiset{} == h;
    assert q + h' + (m + x) == q + (h' + x) + m;
  }

  /** A step that changes neither disk nor bitmap keeps what concerns them. */
  lemma OneWorkerChanges(r: Round, hashes: seq<Str>, k: nat, w: Worker, r': Round)
    requires ValidRound(r, hashes) && Sound(r.store, hashes) && k < |r.workers| && ValidWorker(w, r.store, hashes)
    requires r'.workers == r.workers[k := w] && r'.store == r.store
    ensures ValidRound(r', hashes) && Sound(r'.store, hashes)
  {
    hide Sound, ValidWorker;
  }

  lemma GiveBackKeeps(r: Round, hashes: seq<Str>, k: nat, i: nat, fails: nat)
    requires Inv(r, hashes) && k < |r.workers| && InHand(r.workers[k]) == multiset{i}
    ensures Inv(GiveBack(r, k, i, fails), hashes)
  {
    var r' := GiveBack(r, k, i, fails);
    OneWorkerChanges(r, hashes, k, r'.workers[k], r');
    InHandsUpdate(r.workers, k, r'.workers[k]);
    hide ValidRound, Sound, InHands;
    assert multiset(r'.queue) == multiset(r.queue) + multiset{i};
    HandToQueue(multiset(r.queue), InHands(r.workers), InHands(r'.workers), multiset(r.store.Marked()), multiset{i});
  }

  lemma PopKeeps(r: Round, hashes: seq<Str>, k: nat, ev: Outside)
    requires Inv(r, hashes) && k < |r.workers| && r.workers[k].Ready? && r.queue != []
    ensures Inv(Step(r, hashes, k, ev), hashes)
  {
    hide Sound, InHands, HasBit, Sha1.HexDigest;
    assert ValidWorker(r.workers[k], r.store, hashes);
    var last := |r.queue| - 1;
    var i := r.queue[last];
    var w := Fetching(i, r.workers[k].fails);
    var r' := r.(queue := r.queue[..last], workers := r.workers[k := w], fetches := r.fetches + 1);
    assert Step(r, hashes, k, ev) == r';
    hide Step, ValidRound;
    QueuedInRange(r, i);
    OneWorkerChanges(r, hashes, k, w, r');
    InHandsUpdate(r.workers, k, w);
    QueueSplit(r.queue);
    QueueToHand(multiset(r'.queue), InHands(r.workers), InHands(r'.workers), multiset(r.store.Marked()), multiset{i});
  }

  lemma QueuedInRange(r: Round, i: nat)
    requires r.store.Valid() && Conserved(r) && i in r.queue
    ensures i < r.store.count
  {
    ConservedAt(r, i);
    assert i in multiset(r.queue);
  }

  lemma MarkKeeps(r: Round, hashes: seq<Str>, k: nat, ev: Outside)
    requires Inv(r, hashes) && k < |r.workers| && r.workers[k].Writing? && r.workers[k].put == |r.workers[k].data|
    ensures Inv(Step(r, hashes, k, ev), hashes)
    ensures Step(r, hashes, k, ev).store.Marked() == r.store.Marked() + {r.workers[k].index}
    ensures r.workers[k].index !in r.store.Marked()
  {
    var i := r.workers[k].index;
    assert ValidWorker(r.workers[k], r.store, hashes);
    var r' := Step(r, hashes, k, ev);
    HandUnmarked(r, k, i);
    HeldSet(r.store.have, r.store.count, i);
    MarkedGrows(r.store.Marked(), i);
    InHandsUpdate(r.workers, k, Ready(0));
    MarkSound(r, hashes, k, r');
    hide ValidRound, Sound, InHands, Step, HasBit, SetBit;
    HandToMarked(multiset(r.queue), InHands(r.workers), InHands(r'.workers), multiset(r.store.Marked()), multiset{i});
  }

  lemma MarkSound(r: Round, hashes: seq<Str>, k: nat, r': Round)
    requires ValidRound(r, hashes) && Sound(r.store, hashes) && k < |r.workers|
    requires r.workers[k].Writing? && r.workers[k].put == |r.workers[k].data|
    requires r'.workers == r.workers[k := Ready(0)]
    requires r'.store == r.store.(have := r'.store.have) && r'.store.Valid()
    requires r'.store.Marked() == r.store.Marked() + {r.workers[k].index}
    ensures ValidRound(r', hashes) && Sound(r'.store, hashes)
  {
    hide Sha1.HexDigest, ReadAt, PieceLen, HasBit, Held;
    var i, data := r.workers[k].index, r.workers[k].data;
    assert ValidWorker(r.workers[k], r.store, hashes);
    assert data[..|data|] == data && r.store.Slice(i) == data;
    forall j | j in r'.store.Marked() ensures r'.store.Holds(j, hashes[j]) {
      if j != i { assert r.store.Holds(j, hashes[j]); }
    }
    forall j | 0 <= j < |r'.workers| ensures ValidWorker(r'.workers[j], r'.store, hashes) {
      assert ValidWorker(r.workers[j], r.store, hashes);
    }
  }

  /** A partial write touches one unmarked piece that no other worker holds. */
  lemma ChunkKeeps(r: Round, hashes: seq<Str>, k: nat, ev: Outside)
    requires Inv(r, hashes) && k < |r.workers| && r.workers[k].Writing? && r.workers[k].put < |r.workers[k].data|
    requires ev.Wrote? && 0 < ev.n <= |r.workers[k].data| - r.workers[k].put
    ensures Inv(Step(r, hashes, k, ev), hashes)
  {
    hide Step, Sha1.HexDigest, HasBit, Held, InHands, Sound, WriteAt, ReadAt, PieceLen, ValidWorker;
    var w := r.workers[k];
    assert ValidWorker(w, r.store, hashes);
    ChunkStep(r, hashes, k, ev);
    hide ValidRound;
    var r' := Step(r, hashes, k, ev);
    HandUnmarked(r, k, w.index);
    InHandsUpdate(r.workers, k, w.(put := w.put + ev.n));
    SameHands(InHands(r'.workers), InHands(r.workers), multiset{w.index});
    ChunkValid(r, hashes, k, ev.n, r');
  }

  /** What a partial write changes: a stretch of the disk and the worker's progress. */
  lemma ChunkStep(r: Round, hashes: seq<Str>, k: nat, ev: Outside)
    requires r.store.Valid() && |hashes| == r.store.count && k < |r.workers|
      && ValidWorker(r.workers[k], r.store, hashes)
    requires r.workers[k].Writing? && r.workers[k].put < |r.workers[k].data|
    requires ev.Wrote? && 0 < ev.n <= |r.workers[k].data| - r.workers[k].put
    ensures InRange(r.workers[k], r.store)
    ensures var w, r' := r.workers[k], Step(r, hashes, k, ev);
      && r'.store == r.store.(disk := WriteAt(r.store.disk, Offset(w.index) + w.put, w.data[w.put..w.put + ev.n]))
      && r'.workers == r.workers[k := w.(put := w.put + ev.n)] && r'.queue == r.queue
      && r'.store.Valid() && r'.store.Marked() == r.store.Marked()
  {
    hide Sha1.HexDigest, HasBit, WriteAt, ReadAt, PieceLen, FileEnd;
    var w := r.workers[k];
    WriteStaysValid(r.store, w.index, w.put, w.data[w.put..w.put + ev.n]);
  }

  lemma ChunkValid(r: Round, hashes: seq<Str>, k: nat, n: nat, r': Round)
    requires ValidRound(r, hashes) && Sound(r.store, hashes) && k < |r.workers| && r.workers[k].Writing?
    requires r.workers[k].put + n <= |r.workers[k].data|
    requires r.workers[k].index !in r.store.Marked()
    requires forall j | 0 <= j < |r.workers| && j != k :: r.workers[k].index !in InHand(r.workers[j])
    requires r'.workers == r.workers[k := r.workers[k].(put := r.workers[k].put + n)]
    requires ValidWorker(r.workers[k], r.store, hashes)
    requires var w := r.workers[k];
      r'.store == r.store.(disk := WriteAt(r.store.disk, Offset(w.index) + w.put, w.data[w.put..w.put + n]))
    requires r'.store.Valid()
    ensures ValidRound(r', hashes) && Sound(r'.store, hashes)
    ensures forall j | j in r.store.Marked() :: r'.store.Slice(j) == r.store.Slice(j)
  {
    hide Sha1.HexDigest, HasBit, Held, WriteAt, ReadAt, PieceLen, FileEnd, ValidWorker, Sound;
    var w := r.workers[k];
    ChunkSound(r.store, hashes, w, n, r'.store);
    forall j | 0 <= j < |r'.workers| ensures ValidWorker(r'.workers[j], r'.store, hashes) {
      if j == k { ChunkHere(r.store, hashes, w, n, r'.store); }
      else { ChunkElsewhere(r.store, hashes, w, n, r'.store, r.workers[j]); }
    }
  }

  /** The marked pieces stay as they are. */
  lemma ChunkSound(s: Store, hashes: seq<Str>, w: Worker, n: nat, t: Store)
    requires s.Valid() && t.Valid() && |hashes| == s.count && Sound(s, hashes)
    requires w.Writing? && w.put + n <= |w.data| && ValidWorker(w, s, hashes) && w.index !in s.Marked()
    requires t == s.(disk := WriteAt(s.disk, Offset(w.index) + w.put, w.data[w.put..w.put + n]))
    ensures Sound(t, hashes) && forall j | j in s.Marked() :: t.Slice(j) == s.Slice(j)
  {
    hide Sha1.HexDigest, HasBit, Held, WriteAt, ReadAt, PieceLen, FileEnd;
    assert t.Marked() == s.Marked();
    forall j | j in s.Marked() ensures t.Slice(j) == s.Slice(j) && t.Holds(j, hashes[j]) {
      assert s.Holds(j, hashes[j]);
      WriteOtherPiece(s, w.index, w.put, w.data[w.put..w.put + n], j);
    }
  }

  /** The writer's own prefix grows. */
  lemma ChunkHere(s: Store, hashes: seq<Str>, w: Worker, n: nat, t: Store)
    requires s.Valid() && t.Valid() && |hashes| == s.count && w.Writing? && w.put + n <= |w.data|
      && ValidWorker(w, s, hashes)
    requires t == s.(disk := WriteAt(s.disk, Offset(w.index) + w.put, w.data[w.put..w.put + n]))
    ensures ValidWorker(w.(put := w.put + n), t, hashes)
  {
    hide Sha1.HexDigest, WriteAt, ReadAt, PieceLen, FileEnd;
    WriteExtends(s.disk, Offset(w.index), w.data[..w.put], w.data[w.put..w.put + n]);
    assert w.data[..w.put] + w.data[w.put..w.put + n] == w.data[..w.put + n];
  }

  /** Every other worker's stays. */
  lemma ChunkElsewhere(s: Store, hashes: seq<Str>, w: Worker, n: nat, t: Store, v: Worker)
    requires s.Valid() && t.Valid() && |hashes| == s.count && w.Writing? && w.put + n <= |w.data|
    requires ValidWorker(w, s, hashes) && ValidWorker(v, s, hashes) && w.index !in InHand(v)
    requires t == s.(disk := WriteAt(s.disk, Offset(w.index) + w.put, w.data[w.put..w.put + n]))
    ensures ValidWorker(v, t, hashes)
  {
    hide Sha1.HexDigest, WriteAt, ReadAt, FileEnd;
    if v.Writing? {
      assert v.index in InHand(v);
      if v.index < w.index { PiecesDisjoint(s.size, s.count, v.index, w.index); }
      else { PiecesDisjoint(s.size, s.count, w.index, v.index); }
      hide PieceLen;
      WriteElsewhere(s.disk, Offset(w.index) + w.put, w.data[w.put..w.put + n], Offset(v.index), v.put);
    }
  }

  lemma QuietKeeps(r: Round, hashes: seq<Str>, k: nat, w: Worker)
    requires Inv(r, hashes) && k < |r.workers| && InHand(w) == InHand(r.workers[k]) && ValidWorker(w, r.store, hashes)
    ensures Inv(r.(workers := r.workers[k := w]), hashes)
  {
    OneWorkerChanges(r, hashes, k, w, r.(workers := r.workers[k := w]));
    InHandsUpdate(r.workers, k, w);
    hide ValidRound, Sound, InHands, InHand;
    SameHands(InHands(r.workers[k := w]), InHands(r.workers), InHand(w));
  }

  lemma SameHands(a: multiset<nat>, b: multiset<nat>, x: multiset<nat>)
    requires a + x == b + x
    ensures a == b
  {
    forall i ensures a[i] == b[i] { assert (a + x)[i] == (b + x)[i]; }
  }

  /** A worker that has no piece and takes none. */
  lemma IdleKeeps(r: Round, hashes: seq<Str>, k: nat, ev: Outside)
    requires Inv(r, hashes) && k < |r.workers|
    requires r.workers[k].Connecting? || r.workers[k].Gone? || (r.workers[k].Ready? && r.queue == [])
    ensures Inv(Step(r, hashes, k, ev), hashes)
  {
    hide Inv;
    if !r.workers[k].Gone? { QuietKeeps(r, hashes, k, if r.workers[k].Connecting?
      && ev.Connected? then Ready(0) else Gone); }
  }

  /** A write the disk refuses. */
  lemma WriteFailsKeeps(r: Round, hashes: seq<Str>, k: nat, ev: Outside)
    requires Inv(r, hashes) && k < |r.workers| && InRange(r.workers[k], r.store)
    requires r.workers[k].Writing? && r.workers[k].put < |r.workers[k].data|
    requires !(ev.Wrote? && 0 < ev.n <= |r.workers[k].data| - r.workers[k].put)
    ensures Inv(Step(r, hashes, k, ev), hashes)
  {
    hide Inv;
    GiveBackKeeps(r, hashes, k, r.workers[k].index, r.workers[k].fails);
  }

  /** Every step of every worker, whatever the network and the disk do, keeps the invariant. */
  lemma StepKeeps(r: Round, hashes: seq<Str>, k: nat, ev: Outside)
    requires Inv(r, hashes) && k < |r.workers|
    ensures Inv(Step(r, hashes, k, ev), hashes)
  {
    assert ValidRound(r, hashes) && ValidWorker(r.workers[k], r.store, hashes);
    hide Inv, ValidRound, Step, Sha1.HexDigest, ReadAt, HasBit, PieceLen, Held, FileEnd;
    match r.workers[k]
    case Connecting => IdleKeeps(r, hashes, k, ev);
    case Gone => IdleKeeps(r, hashes, k, ev);
    case Ready(fails) => if r.queue == [] { IdleKeeps(r, hashes, k, ev); } else { PopKeeps(r, hashes, k, ev); }
    case Fetching(i, fails) => FetchKeeps(r, hashes, k, ev);
    case Writing(i, data, put, fails) =>
      if put == |data| { MarkKeeps(r, hashes, k, ev); }
      else if ev.Wrote? && 0 < ev.n <= |data| - put { ChunkKeeps(r, hashes, k, ev); }
      else { WriteFailsKeeps(r, hashes, k, ev); }
  }

  lemma FetchKeeps(r: Round, hashes: seq<Str>, k: nat, ev: Outside)
    requires Inv(r, hashes) && k < |r.workers| && r.workers[k].Fetching?
    ensures Inv(Step(r, hashes, k, ev), hashes)
  {
    assert ValidRound(r, hashes) && ValidWorker(r.workers[k], r.store, hashes);
    hide Inv, ValidRound, Sha1.HexDigest, HasBit, PieceLen;
    var i, fails := r.workers[k].index, r.workers[k].fails;
    if ev.Fetched? && |ev.data| == r.store.Len(i) && Sha1.HexDigest(ev.data) == hashes[i] {
      QuietKeeps(r, hashes, k, Writing(i, ev.data, 0, fails));
    } else {
      GiveBackKeeps(r, hashes, k, i, fails);
    }
  }

  /** No step unmarks a piece or writes into a marked one. */
  lemma MarkedUntouched(r: Round, hashes: seq<Str>, k: nat, ev: Outside, j: nat)
    requires Inv(r, hashes) && k < |r.workers| && j in r.store.Marked()
    ensures var s := Step(r, hashes, k, ev).store;
      s.Valid() && s.count == r.store.count && j in s.Marked() && s.Slice(j) == r.store.Slice(j)
  {
    hide Step, Conserved, Sound, Sha1.HexDigest, HasBit, Held, PieceLen, FileEnd, ReadAt, WriteAt;
    StepKeeps(r, hashes, k, ev);
    var w := r.workers[k];
    assert ValidWorker(w, r.store, hashes);
    if w.Writing? && w.put == |w.data| {
      MarkKeeps(r, hashes, k, ev);
      OnlyMarks(r, hashes, k, ev);
    } else if w.Writing? && ev.Wrote? && 0 < ev.n <= |w.data| - w.put {
      ChunkStep(r, hashes, k, ev);
      HandUnmarked(r, k, w.index);
      ChunkValid(r, hashes, k, ev.n, Step(r, hashes, k, ev));
    } else {
      OnlyMarks(r, hashes, k, ev);
    }
  }

  /** Only a partial write changes the disk, and only a finished one the bitmap. */
  lemma OnlyMarks(r: Round, hashes: seq<Str>, k: nat, ev: Outside)
    requires k < |r.workers| && r.store.Valid() && |hashes| == r.store.count && InRange(r.workers[k], r.store)
    requires var w := r.workers[k];
      w.Writing? && ev.Wrote? && 0 < ev.n <= |w.data| - w.put ==> w.put == |w.data|
    ensures Step(r, hashes, k, ev).store == r.store.(have := Step(r, hashes, k, ev).store.have)
    ensures !(r.workers[k].Writing? && r.workers[k].put == |r.workers[k].data|)
      ==> Step(r, hashes, k, ev).store == r.store
  {
    hide Sha1.HexDigest, HasBit, SetBit, WriteAt;
  }

  // ----- the bound on fetches -----------------------------------------------

  /** Failures a worker can still afford; one in the middle of a fetch has spent its next. */
  function Patience(w: Worker): nat {
    match w
    case Connecting => 3
    case Ready(fails) => if fails < 3 then 3 - fails else 0
    case Fetching(_, fails) => if fails < 3 then 2 - fails else 0
    case Writing(_, _, _, fails) => if fails < 3 then 2 - fails else 0
    case Gone => 0
  }

  /** Steps a worker takes without fetching. */
  function Busy(w: Worker): nat {
    match w
    case Gone => 0
    case Ready(_) => 1
    case Connecting => 2
    case Writing(_, data, put, _) => 2 + if put <= |data| then |data| - put else 0
    case Fetching(_, _) => 3 + 0x1_0000_0000
  }

  function PatienceSum(ws: seq<Worker>): nat {
    if ws == [] then 0 else Patience(ws[0]) + PatienceSum(ws[1..])
  }

  function BusySum(ws: seq<Worker>): nat {
    if ws == [] then 0 else Busy(ws[0]) + BusySum(ws[1..])
  }

  lemma {:induction false} SumsUpdate(ws: seq<Worker>, k: nat, w: Worker)
    requires k < |ws|
    ensures PatienceSum(ws[k := w]) == PatienceSum(ws) - Patience(ws[k]) + Patience(w)
    ensures BusySum(ws[k := w]) == BusySum(ws) - Busy(ws[k]) + Busy(w)
  {
    if k == 0 {
      assert ws[0 := w][1..] == ws[1..];
    } else {
      assert ws[k := w][1..] == ws[1..][k - 1 := w];
      SumsUpdate(ws[1..], k - 1, w);
    }
  }

  function Missing(r: Round): nat
    requires r.store.Valid()
  {
    |AllPieces(r.store.count) - r.store.Marked()|
  }

  /** What bounds the fetches still to come. */
  function Budget(r: Round): nat
    requires r.store.Valid()
  {
    3 * Missing(r) + PatienceSum(r.workers)
  }

  /** No step raises fetches + budget, and every step of a live worker makes progress. */
  lemma StepSpends(r: Round, hashes: seq<Str>, k: nat, ev: Outside)
    requires Inv(r, hashes) && k < |r.workers| && r.workers[k] != Gone
    ensures Step(r, hashes, k, ev).store.Valid()
    ensures Step(r, hashes, k, ev).fetches + Budget(Step(r, hashes, k, ev)) <= r.fetches + Budget(r)
    ensures Budget(Step(r, hashes, k, ev)) <= Budget(r)
    ensures Budget(Step(r, hashes, k, ev)) < Budget(r) || BusySum(Step(r, hashes, k, ev).workers) < BusySum(r.workers)
  {
    hide Conserved, Sound, Sha1.HexDigest, ReadAt, SetBit, WriteAt, HasBit, FileEnd;
    StepKeeps(r, hashes, k, ev);
    var r' := Step(r, hashes, k, ev);
    SumsUpdate(r.workers, k, r'.workers[k]);
    assert ValidWorker(r.workers[k], r.store, hashes);
    assert r'.workers == r.workers[k := r'.workers[k]];
    if r.workers[k].Writing? && r.workers[k].put == |r.workers[k].data| {
      MarkKeeps(r, hashes, k, ev);
      MissingShrinks(r, r', r.workers[k].index);
    } else {
      assert r'.store.have == r.store.have;
    }
  }

  lemma MissingShrinks(r: Round, r': Round, i: nat)
    requires r.store.Valid() && r'.store.Valid() && r'.store.count == r.store.count
    requires i < r.store.count && i !in r.store.Marked() && r'.store.Marked() == r.store.Marked() + {i}
    ensures Missing(r') == Missing(r) - 1
  {
    var all := AllPieces(r.store.count);
    assert all - r'.store.Marked() == (all - r.store.Marked()) - {i};
    assert i in all - r.store.Marked();
  }

  // ----- every schedule -----------------------------------------------------

  /** The state after any sequence of steps, by any workers, with any outcomes. */
  ghost function Play(r: Round, hashes: seq<Str>, sched: seq<(nat, Outside)>): Round
    requires Inv(r, hashes) && forall s | s in sched :: s.0 < |r.workers|
    ensures Inv(Play(r, hashes, sched), hashes)
    decreases |sched|
  {
    if sched == [] then r
    else
      StepKeeps(r, hashes, sched[0].0, sched[0].1);
      Play(Step(r, hashes, sched[0].0, sched[0].1), hashes, sched[1..])
  }

  /** In every reachable state the fetches started are within the initial budget. */
  lemma {:induction false} FetchesBounded(r: Round, hashes: seq<Str>, sched: seq<(nat, Outside)>)
    requires Inv(r, hashes) && forall s | s in sched :: s.0 < |r.workers|
    ensures Play(r, hashes, sched).fetches + Budget(Play(r, hashes, sched)) <= r.fetches + Budget(r)
    decreases |sched|
  {
    hide Conserved, Sound, Budget, ReadAt, HasBit, Sha1.HexDigest, FileEnd;
    if sched != [] {
      var k, ev := sched[0].0, sched[0].1;
      assert ValidWorker(r.workers[k], r.store, hashes);
      StepKeeps(r, hashes, k, ev);
      if r.workers[k] != Gone { StepSpends(r, hashes, k, ev); }
      FetchesBounded(Step(r, hashes, k, ev), hashes, sched[1..]);
    }
  }

  // ----- a whole round ------------------------------------------------------

  /** The pieces below n that are not marked, in order: the queue a round starts with. */
  function Unmarked(s: Store, n: nat): seq<nat>
    requires s.Valid() && n <= s.count
  {
    if n == 0 then [] else Unmarked(s, n - 1) + if HasBit(s.have, n - 1) then [] else [n - 1]
  }

  lemma {:induction false} UnmarkedIs(s: Store, n: nat)
    requires s.Valid() && n <= s.count
    ensures multiset(Unmarked(s, n)) == multiset(AllPieces(n) - s.Marked())
  {
    hide HasBit, Held, AllPieces, Unmarked;
    if n == 0 {
      NoneUnmarked(s);
    } else {
      UnmarkedIs(s, n - 1);
      MarkedIff(s, n - 1);
      UnmarkedStep(s, n - 1);
      QueueGrows(Unmarked(s, n - 1), n - 1, s.Marked(), HasBit(s.have, n - 1));
    }
  }

  lemma NoneUnmarked(s: Store)
    requires s.Valid()
    ensures multiset(Unmarked(s, 0)) == multiset(AllPieces(0) - s.Marked())
  {
    hide HasBit, Held;
    assert AllPieces(0) - s.Marked() == {} && Unmarked(s, 0) == [];
  }

  lemma UnmarkedStep(s: Store, n: nat)
    requires s.Valid() && n < s.count
    ensures Unmarked(s, n + 1) == Unmarked(s, n) + if HasBit(s.have, n) then [] else [n]
  {
    hide HasBit;
  }

  lemma MarkedIff(s: Store, i: nat)
    requires s.Valid() && i < s.count
    ensures i in s.Marked() <==> HasBit(s.have, i)
  {
  }

  /** A queue of the unmarked pieces below n, extended to n. */
  lemma QueueGrows(q: seq<nat>, n: nat, m: set<nat>, held: bool)
    requires multiset(q) == multiset(AllPieces(n) - m) && (held <==> n in m)
    ensures multiset(q + if held then [] else [n]) == multiset(AllPieces(n + 1) - m)
  {
    OneMore(n, m);
    hide AllPieces;
    if held {
      assert q + [] == q && AllPieces(n + 1) - m == AllPieces(n) - m;
    } else {
      MarkedGrows(AllPieces(n) - m, n);
      assert multiset(q + [n]) == multiset(q) + multiset{n};
    }
  }

  lemma OneMore(n: nat, m: set<nat>)
    ensures n !in AllPieces(n)
    ensures AllPieces(n + 1) - m == (AllPieces(n) - m) + if n in m then {} else {n}
  {
  }

  function Dialing(w: nat): (ws: seq<Worker>)
    ensures |ws| == w
  {
    if w == 0 then [] else [Connecting] + Dialing(w - 1)
  }

  lemma {:induction false} DialingHolds(w: nat)
    ensures InHands(Dialing(w)) == multiset{} && PatienceSum(Dialing(w)) == 3 * w
    ensures forall k | 0 <= k < w :: Dialing(w)[k] == Connecting
  {
    if w > 0 {
      DialingHolds(w - 1);
      assert Dialing(w)[1..] == Dialing(w - 1);
    }
  }

  lemma SplitSet(all: set<nat>, m: set<nat>)
    requires m <= all
    ensures multiset(all - m) + multiset{} + multiset(m) == multiset(all)
  {
    assert all == (all - m) + m;
  }

  function StartRound(s: Store, w: nat): Round
    requires s.Valid()
  {
    Round(Unmarked(s, s.count), Dialing(w), s, 0)
  }

  lemma StartInv(s: Store, hashes: seq<Str>, w: nat)
    requires s.Valid() && |hashes| == s.count && Sound(s, hashes)
    ensures Inv(StartRound(s, w), hashes)
    ensures Budget(StartRound(s, w)) == 3 * |AllPieces(s.count) - s.Marked()| + 3 * w
  {
    DialingHolds(w);
    UnmarkedIs(s, s.count);
    hide Sound, HasBit, Dialing, Unmarked;
    assert s.Marked() <= AllPieces(s.count);
    SplitSet(AllPieces(s.count), s.Marked());
  }

  predicate Holds(w: Worker, i: nat) { (w.Fetching? || w.Writing?) && w.index == i }

  /** The state of a round of w workers after any schedule. */
  ghost function Reached(s: Store, hashes: seq<Str>, w: nat, sched: seq<(nat, Outside)>): (r: Round)
    requires s.Valid() && |hashes| == s.count && Sound(s, hashes) && forall p | p in sched :: p.0 < w
    ensures Inv(r, hashes)
  {
    StartInv(s, hashes, w);
    Play(StartRound(s, w), hashes, sched)
  }

  /** Every piece of the file, and nothing else, is in the queue, in some worker's hands, or marked. */
  ghost predicate Covered(r: Round)
    requires r.store.Valid()
  {
    forall i: nat ::
      i < r.store.count <==>
        i in r.queue || i in r.store.Marked() || exists k :: 0 <= k < |r.workers| && Holds(r.workers[k], i)
  }

  /** A queued piece is queued once, and not marked. */
  ghost predicate QueuedOnce(r: Round)
    requires r.store.Valid()
  {
    Distinct(r.queue) && forall i | i in r.queue :: i !in r.store.Marked()
  }

  /** A piece in one worker's hands is neither queued nor marked nor in another's. */
  ghost predicate HeldOnce(r: Round)
    requires r.store.Valid()
  {
    forall i: nat, k | 0 <= k < |r.workers| && Holds(r.workers[k], i) ::
      && i !in r.queue && i !in r.store.Marked()
      && forall j | 0 <= j < |r.workers| && j != k :: !Holds(r.workers[j], i)
  }

  /**
   No piece is lost or duplicated: at every moment of a round each piece of the file, and
   nothing else, is in exactly one place, the queue, one worker's hands, or the marked set.
   */
  lemma NoPieceLost(s: Store, hashes: seq<Str>, w: nat, sched: seq<(nat, Outside)>)
    requires s.Valid() && |hashes| == s.count && Sound(s, hashes) && forall p | p in sched :: p.0 < w
    ensures var r := Reached(s, hashes, w, sched);
      Covered(r) && QueuedOnce(r) && HeldOnce(r)
  {
    hide Reached, Conserved, Covered, QueuedOnce, HeldOnce, Sound, Held, FileEnd;
    ConservedMeans(Reached(s, hashes, w, sched));
  }

  lemma ConservedMeans(r: Round)
    requires r.store.Valid() && Conserved(r)
    ensures Covered(r) && QueuedOnce(r) && HeldOnce(r)
  {
    hide Conserved, QueuedOnce, HeldOnce, Held, FileEnd;
    QueueIsOnce(r);
    HandsAreOnce(r);
    forall i: nat
      ensures i < r.store.count <==>
        i in r.queue || i in r.store.Marked() || exists k :: 0 <= k < |r.workers| && Holds(r.workers[k], i)
    {
      OnePlace(r, i);
    }
  }

  lemma QueueIsOnce(r: Round)
    requires r.store.Valid() && Conserved(r)
    ensures QueuedOnce(r)
  {
    hide Conserved, Held, FileEnd, InHands, AllPieces;
    forall i: nat ensures multiset(r.queue)[i] <= 1 { ConservedAt(r, i); }
    CountedOnce(r.queue);
    forall i | i in r.queue ensures i !in r.store.Marked() { OnePlace(r, i); }
  }

  lemma HandsAreOnce(r: Round)
    requires r.store.Valid() && Conserved(r)
    ensures HeldOnce(r)
  {
    hide Conserved, Held, FileEnd, InHands, AllPieces;
    forall i: nat, k | 0 <= k < |r.workers| && Holds(r.workers[k], i)
      ensures i !in r.queue && i !in r.store.Marked()
      ensures forall j | 0 <= j < |r.workers| && j != k :: !Holds(r.workers[j], i)
    {
      HandUnmarked(r, k, i);
      forall j | 0 <= j < |r.workers| && j != k ensures !Holds(r.workers[j], i) {
        assert i !in InHand(r.workers[j]);
      }
    }
  }

  lemma OnePlace(r: Round, i: nat)
    requires r.store.Valid() && Conserved(r)
    ensures i < r.store.count <==>
      i in r.queue || i in r.store.Marked() || exists k :: 0 <= k < |r.workers| && Holds(r.workers[k], i)
    ensures i in r.queue ==> i !in r.store.Marked()
  {
    ConservedAt(r, i);
    HandsFound(r.workers, i);
    hide Conserved, InHands, Held;
    assert i in r.queue <==> multiset(r.queue)[i] > 0;
    assert i in r.store.Marked() <==> multiset(r.store.Marked())[i] > 0;
  }

  lemma {:induction false} HandsFound(ws: seq<Worker>, i: nat)
    ensures InHands(ws)[i] > 0 <==> exists k :: 0 <= k < |ws| && Holds(ws[k], i)
  {
    if ws != [] {
      HandsFound(ws[1..], i);
      if k :| 0 <= k < |ws[1..]| && Holds(ws[1..][k], i) { assert Holds(ws[k + 1], i); }
      if k :| 0 <= k < |ws| && Holds(ws[k], i) { assert k > 0 ==> Holds(ws[1..][k - 1], i); }
    }
  }

  lemma CountedOnce(q: seq<nat>)
    requires forall i: nat :: multiset(q)[i] <= 1
    ensures Distinct(q)
  {
    forall i, j | 0 <= i < j < |q| ensures q[i] != q[j] {
      CountedTwice(q, i, j);
    }
  }

  lemma CountedTwice(q: seq<nat>, i: nat, j: nat)
    requires i < j < |q|
    ensures q[i] == q[j] ==> multiset(q)[q[i]] >= 2
  {
    assert q == q[..i] + [q[i]] + q[i + 1..j] + [q[j]] + q[j + 1..];
  }

  /** The fetches a round of w workers has started, at any moment of any schedule. */
  lemma RoundFetchBound(s: Store, hashes: seq<Str>, w: nat, sched: seq<(nat, Outside)>)
    requires s.Valid() && |hashes| == s.count && Sound(s, hashes) && forall p | p in sched :: p.0 < w
    ensures Reached(s, hashes, w, sched).fetches <= 3 * |AllPieces(s.count) - s.Marked()| + 3 * w
  {
    hide Held, AllPieces, Inv, Sound;
    StartInv(s, hashes, w);
    FetchesBounded(StartRound(s, w), hashes, sched);
  }

  /** Once every worker has left, the file is complete exactly when the queue is empty. */
  lemma RoundEnd(r: Round)
    requires r.store.Valid() && Conserved(r) && forall k | 0 <= k < |r.workers| :: r.workers[k] == Gone
    ensures r.queue == [] <==> r.store.Marked() == AllPieces(r.store.count)
  {
    NoHands(r.workers);
    hide HasBit;
    var m, all := r.store.Marked(), AllPieces(r.store.count);
    if r.queue == [] {
      forall i ensures i in m <==> i in all {
        ConservedAt(r, if i >= 0 then i else 0);
        AllPiecesOnce(r.store.count, if i >= 0 then i else 0);
      }
    }
    if r.queue != [] {
      ConservedAt(r, r.queue[0]);
      QueueHas(r.queue);
      assert r.queue[0] in all && r.queue[0] !in m;
    }
  }

  lemma QueueHas(q: seq<nat>)
    requires q != []
    ensures multiset(q)[q[0]] >= 1
  {
    assert q[0] in multiset(q);
  }

  lemma {:induction false} NoHands(ws: seq<Worker>)
    requires forall k | 0 <= k < |ws| :: ws[k] == Gone
    ensures InHands(ws) == multiset{}
  {
    if ws != [] { NoHands(ws[1..]); }
  }

  // ----- a round in which nothing goes wrong --------------------------------

  /** The connection succeeds, the fetch brings the piece, the write moves something. */
  predicate Kindly(r: Round, hashes: seq<Str>, k: nat, ev: Outside)
    requires k < |r.workers| && r.store.Valid() && |hashes| == r.store.count && InRange(r.workers[k], r.store)
  {
    match r.workers[k]
    case Connecting => ev.Connected?
    case Fetching(i, _) => ev.Fetched? && |ev.data| == r.store.Len(i) && Sha1.HexDigest(ev.data) == hashes[i]
    case Writing(_, data, put, _) => put < |data| ==> ev.Wrote? && 0 < ev.n <= |data| - put
    case _ => true
  }

  /** Nobody has failed, and whoever has left found nothing queued. */
  ghost predicate Unhurt(r: Round) {
    && (forall k | 0 <= k < |r.workers| :: match r.workers[k]
        case Ready(fails) => fails == 0
        case Fetching(_, fails) => fails == 0
        case Writing(_, _, _, fails) => fails == 0
        case _ => true)
    && (r.queue != [] ==> forall k | 0 <= k < |r.workers| :: r.workers[k] != Gone)
  }

  lemma KindStep(r: Round, hashes: seq<Str>, k: nat, ev: Outside)
    requires Inv(r, hashes) && Unhurt(r) && k < |r.workers| && InRange(r.workers[k], r.store)
    requires Kindly(r, hashes, k, ev)
    ensures Unhurt(Step(r, hashes, k, ev))
    ensures |Step(r, hashes, k, ev).workers| == |r.workers|
  {
    hide Inv, Sha1.HexDigest, SetBit, WriteAt;
  }

  /** When the last worker has left, nothing is missing. */
  lemma KindRoundEnds(r: Round, hashes: seq<Str>)
    requires Inv(r, hashes) && Unhurt(r) && |r.workers| > 0
    requires forall k | 0 <= k < |r.workers| :: r.workers[k] == Gone
    ensures r.store.Marked() == AllPieces(r.store.count)
  {
    hide Sound, AllPieces;
    RoundEnd(r);
    assert r.workers[0] == Gone;
  }

  lemma StartUnhurt(s: Store, w: nat)
    requires s.Valid()
    ensures Unhurt(StartRound(s, w)) && |StartRound(s, w).workers| == w
  {
    DialingHolds(w);
  }

  /** Bytes for every piece that have its length and its hash. */
  ghost predicate Serves(s: Store, hashes: seq<Str>, right: nat -> Str)
    requires |hashes| == s.count
  {
    forall i | 0 <= i < s.count :: |right(i)| == s.Len(i) && Sha1.HexDigest(right(i)) == hashes[i]
  }

  /** Whatever the outside does next; if it is `kind`, nothing that goes wrong. */
  method Surprise(r: Round, hashes: seq<Str>, k: nat, kind: bool, right: nat -> Str) returns (ev: Outside)
    requires k < |r.workers| && r.store.Valid() && |hashes| == r.store.count && InRange(r.workers[k], r.store)
    requires kind ==> Serves(r.store, hashes, right)
    ensures kind ==> Kindly(r, hashes, k, ev)
  {
    hide Sha1.HexDigest;
    ev := *;
    if kind && !Kindly(r, hashes, k, ev) {
      match r.workers[k]
      case Connecting => ev := Connected;
      case Fetching(i, _) => ev := Fetched(right(i));
      case Writing(_, data, put, _) => ev := Wrote(|data| - put);
      case _ =>
    }
  }

  /**
   One round with w workers: threads run until all have left, in any interleaving. Marked
   pieces stay; the fetches are at most three per missing piece and three per worker. In a
   round in which nothing goes wrong, one worker is enough to complete the file.
   */
  method RunRound(s: Store, hashes: seq<Str>, w: nat, kind: bool, right: nat -> Str) returns (r: Round)
    requires s.Valid() && |hashes| == s.count && Sound(s, hashes) && (kind ==> Serves(s, hashes, right))
    ensures r.store.Valid() && r.store.size == s.size && r.store.count == s.count && Sound(r.store, hashes)
    ensures s.Marked() <= r.store.Marked()
    ensures forall j | j in s.Marked() :: r.store.Slice(j) == s.Slice(j)
    ensures r.queue == [] <==> r.store.Marked() == AllPieces(s.count)
    ensures r.fetches <= 3 * |AllPieces(s.count) - s.Marked()| + 3 * w
    ensures kind && w > 0 ==> r.store.Marked() == AllPieces(s.count)
  {
    hide HasBit, Held, Conserved, Sha1.HexDigest, ReadAt, FileEnd, Unmarked, Dialing, Budget, Sound, PieceLen, Unhurt,
      Kindly, Step, Serves;
    StartInv(s, hashes, w);
    StartUnhurt(s, w);
    r := StartRound(s, w);
    while exists k :: 0 <= k < |r.workers| && r.workers[k] != Gone
      invariant Inv(r, hashes) && r.store.size == s.size && r.store.count == s.count && |r.workers| == w
      invariant s.Marked() <= r.store.Marked()
      invariant forall j | j in s.Marked() :: j < s.count && r.store.Slice(j) == s.Slice(j)
      invariant r.fetches + Budget(r) <= 3 * |AllPieces(s.count) - s.Marked()| + 3 * w
      invariant kind ==> Unhurt(r)
      decreases Budget(r), BusySum(r.workers)
    {
      var k :| 0 <= k < |r.workers| && r.workers[k] != Gone;
      WorkerInRange(r, hashes, k);
      if kind { SameServes(s, r.store, hashes, right); }
      var ev := Surprise(r, hashes, k, kind, right);
      RoundStep(r, hashes, k, ev, s);
      if kind { KindStep(r, hashes, k, ev); }
      r := Step(r, hashes, k, ev);
    }
    RoundEnd(r);
    if kind && w > 0 { KindRoundEnds(r, hashes); }
  }

  lemma WorkerInRange(r: Round, hashes: seq<Str>, k: nat)
    requires Inv(r, hashes) && k < |r.workers|
    ensures InRange(r.workers[k], r.store)
  {
    assert ValidWorker(r.workers[k], r.store, hashes);
    hide ValidRound, Conserved, Sound, Sha1.HexDigest;
  }

  lemma SameServes(s: Store, t: Store, hashes: seq<Str>, right: nat -> Str)
    requires |hashes| == s.count == t.count && t.size == s.size && Serves(s, hashes, right)
    ensures Serves(t, hashes, right)
  {
    hide Sha1.HexDigest;
  }

  /** What one step leaves of the pieces that were marked when the round began. */
  lemma RoundStep(r: Round, hashes: seq<Str>, k: nat, ev: Outside, s: Store)
    requires Inv(r, hashes) && k < |r.workers| && r.workers[k] != Gone
    requires s.Valid() && r.store.size == s.size && r.store.count == s.count && s.Marked() <= r.store.Marked()
    requires forall j | j in s.Marked() :: j < s.count && r.store.Slice(j) == s.Slice(j)
    ensures InRange(r.workers[k], r.store)
    ensures var t := Step(r, hashes, k, ev);
      && |t.workers| == |r.workers| && Inv(t, hashes) && t.store.size == s.size && t.store.count == s.count
      && s.Marked() <= t.store.Marked()
      && (forall j | j in s.Marked() :: t.store.Slice(j) == s.Slice(j))
      && t.fetches + Budget(t) <= r.fetches + Budget(r)
      && Budget(t) <= Budget(r)
      && (Budget(t) < Budget(r) || BusySum(t.workers) < BusySum(r.workers))
  {
    hide HasBit, Held, Conserved, Sha1.HexDigest, ReadAt, FileEnd, Budget, Sound, PieceLen, WriteAt, SetBit;
    assert ValidWorker(r.workers[k], r.store, hashes);
    StepKeeps(r, hashes, k, ev);
    StepSpends(r, hashes, k, ev);
    hide Inv;
    forall j | j in s.Marked()
      ensures j in Step(r, hashes, k, ev).store.Marked() && Step(r, hashes, k, ev).store.Slice(j) == s.Slice(j)
    {
      MarkedUntouched(r, hashes, k, ev, j);
    }
  }

  // ----- the whole job ------------------------------------------------------

  /** `peers.size() * max(1, 8 / peers.size())` */
  function WorkerCount(peers: nat): nat
    requires peers > 0
  {
    peers * if TARGET_CONNECTIONS / peers > 1 then TARGET_CONNECTIONS / peers else 1
  }

  lemma WorkerCountBound(peers: nat)
    requires peers > 0
    ensures peers <= WorkerCount(peers) <= if peers > TARGET_CONNECTIONS then peers else TARGET_CONNECTIONS
  {
    if peers > 8 { assert 8 / peers == 0; }
    else if peers == 1 {} else if peers == 2 {} else if peers == 3 {} else if peers == 4 {}
  }

  /** Every peer gets the same number of connections: 8 divided among them, and never none. */
  lemma WorkersShared(peers: nat) returns (each: nat)
    requires peers > 0
    ensures WorkerCount(peers) == peers * each && each >= 1
    ensures peers <= TARGET_CONNECTIONS ==> each == TARGET_CONNECTIONS / peers
    ensures peers >= TARGET_CONNECTIONS ==> each == 1
  {
    each := if TARGET_CONNECTIONS / peers > 1 then TARGET_CONNECTIONS / peers else 1;
    if peers <= 8 { EightShared(peers); } else { assert 8 / peers == 0; }
  }

  lemma EightShared(peers: nat)
    requires 0 < peers <= 8
    ensures 8 / peers >= 1
  {
  }

  // ----- the re-hash that is not done ---------------------------------------

  /** A finished file ends where its pieces end. */
  lemma CompleteLength(s: Store, hashes: seq<Str>)
    requires s.Valid() && |hashes| == s.count && Sound(s, hashes) && s.Marked() == AllPieces(s.count)
    ensures |s.disk| == FileEnd(s.size, s.count)
  {
    hide Sha1.HexDigest, HasBit, Held;
    if s.count > 0 {
      var last := s.count - 1;
      assert last in s.Marked();
      assert s.Holds(last, hashes[last]);
      if s.Len(last) == 0 && last > 0 {
        assert last - 1 in s.Marked();
        assert s.Holds(last - 1, hashes[last - 1]);
      }
    }
  }

  /** When the pieces are whole, `hash_file` cuts the finished file into exactly the published pieces. */
  lemma CompletePieces(s: Store, hashes: seq<Str>)
    requires s.Valid() && |hashes| == s.count && Sound(s, hashes) && s.Marked() == AllPieces(s.count)
    requires Whole(s.size, s.count)
    ensures PieceHashes(s.disk) == hashes
  {
    CompleteLength(s, hashes);
    WholeIff(s.size, s.count);
    forall i | 0 <= i < s.count ensures PieceHashes(s.disk)[i] == hashes[i] {
      hide Sha1.HexDigest, HasBit, Held;
      assert i in s.Marked();
      assert s.Holds(i, hashes[i]);
      SpanIsLen(s, i);
    }
  }

  lemma SpanIsLen(s: Store, i: nat)
    requires Whole(s.size, s.count) && |s.disk| == FileEnd(s.size, s.count) && i < s.count == PieceCount(|s.disk|)
    requires |s.Slice(i)| == s.Len(i)
    ensures Piece(s.disk, i) == s.Slice(i)
  {
    WholeLengths(s.size, s.count, |s.disk|, i);
    hide PieceCount, PieceLen, SpanLen, Whole, FileEnd;
    assert Offset(i) + s.Len(i) <= |s.disk|;
  }

  lemma WholeLengths(size: U64, count: U32, end: nat, i: nat)
    requires Whole(size, count) && end == FileEnd(size, count) && i < count == PieceCount(end)
    ensures SpanLen(end, i) == PieceLen(size, count, i) && Offset(i) + PieceLen(size, count, i) <= end
  {
    WholeEnd(size, count);
    hide FileEnd, Whole;
    if i + 1 < count {
      assert Offset(i + 1) <= Offset(count - 1) <= end;
    } else {
      assert Offset(i + 1) <= end ==> PieceLen(size, count, i) == PIECE_SIZE;
    }
  }

  lemma WholeEnd(size: U64, count: U32)
    requires Whole(size, count) && count > 0
    ensures FileEnd(size, count) == Offset(count - 1) + PieceLen(size, count, count - 1)
    ensures 0 < PieceLen(size, count, count - 1) <= PIECE_SIZE
  {
    if size > Offset(count - 1) { assert PieceLen(size, count, count - 1) == size - Offset(count - 1); }
  }

  lemma {:induction false} FlattenLength(xs: seq<Str>)
    requires forall x | x in xs :: |x| == 40
    ensures |Sha1.Flatten(xs)| == 40 * |xs|
  {
    if xs != [] { FlattenLength(xs[1..]); }
  }

  lemma DigestLengths(s: Store, hashes: seq<Str>)
    requires s.Valid() && |hashes| == s.count && Sound(s, hashes) && s.Marked() == AllPieces(s.count)
    ensures |Sha1.Flatten(hashes)| == 40 * s.count
    ensures |Sha1.Flatten(PieceHashes(s.disk))| == 40 * PieceCount(|s.disk|)
  {
    hide Sha1.HexDigest, HasBit, Held;
    forall h | h in hashes ensures |h| == 40 {
      var i :| 0 <= i < |hashes| && hashes[i] == h;
      assert i in s.Marked();
      assert s.Holds(i, hashes[i]);
    }
    FlattenLength(hashes);
    forall h | h in PieceHashes(s.disk) ensures |h| == 40 {
      var i :| 0 <= i < |PieceHashes(s.disk)| && PieceHashes(s.disk)[i] == h;
    }
    FlattenLength(PieceHashes(s.disk));
  }

  /**
   The re-hash that `run_job` skips, exactly. For every published size, piece count and list of
   hashes, and a file hash made from that list: re-hashing a finished file gives the published
   file hash if and only if the pieces are whole, or SHA-1 collides on these two strings.
   */
  lemma RehashIff(s: Store, hashes: seq<Str>, fileHash: Str)
    requires s.Valid() && |hashes| == s.count && Sound(s, hashes) && s.Marked() == AllPieces(s.count)
    requires fileHash == Sha1.HexDigest(Sha1.Flatten(hashes))
    ensures FileHash(s.disk) == fileHash <==>
      Whole(s.size, s.count) || Sha1.Collides(Sha1.Flatten(PieceHashes(s.disk)), Sha1.Flatten(hashes))
  {
    hide Sha1.HexDigest, HasBit, Held, Whole;
    if Whole(s.size, s.count) {
      CompletePieces(s, hashes);
    } else {
      WholeIff(s.size, s.count);
      CompleteLength(s, hashes);
      DigestLengths(s, hashes);
    }
  }

  /** Two different pieces with one digest. */
  ghost predicate Collision(a: Str, b: Str, i: nat) {
    i < PieceCount(|a|) && i < PieceCount(|b|) && Sha1.Collides(Piece(a, i), Piece(b, i))
  }

  /** A complete file is the uploader's file, or exhibits two different pieces with one digest. */
  lemma EqualUnlessCollision(s: Store, source: Str)
    requires s.Valid() && |source| == s.size && s.count == PieceCount(s.size)
    requires Sound(s, PieceHashes(source)) && s.Marked() == AllPieces(s.count)
    ensures s.disk == source
      || exists i :: Collision(s.disk, source, i)
  {
    hide Sha1.HexDigest, HasBit, Held;
    WholeMeansTiles(s.size, s.count);
    CompletePieces(s, PieceHashes(source));
    CompleteLength(s, PieceHashes(source));
    if s.count > 0 { LastPiece(s.size, s.count); }
    hide Piece, Whole;
    if forall i | 0 <= i < s.count :: Piece(s.disk, i) == Piece(source, i) {
      PiecesDetermine(s.disk, source);
    } else {
      var i :| 0 <= i < s.count && Piece(s.disk, i) != Piece(source, i);
      assert PieceHashes(s.disk)[i] == PieceHashes(source)[i];
      assert Collision(s.disk, source, i);
    }
  }

  /** Peers known in each round; the caller has at least one for the first. */
  predicate PeersUpTo(peers: seq<nat>, most: nat) {
    |peers| == MAX_ROUNDS && peers[0] > 0 && forall i | 0 <= i < |peers| :: peers[i] <= most
  }

  /**
   `run_job`: open, resume, then up to five rounds, for whatever size and piece hashes were
   published. It succeeds exactly when every piece is marked; then the file on disk would pass
   the re-hash that is not done exactly when its pieces are whole. One round with a peer in which
   nothing goes wrong (`kind`) is enough for it to succeed.
   */
  method RunJob(onDisk: Str, size: U64, hashes: seq<Str>, fileHash: Str, peers: seq<nat>, kind: seq<bool>,
      right: nat -> Str, hole: nat -> bool, threads: nat, ghost most: nat)
    returns (done: bool, store: PieceStore, fetches: nat)
    requires Mappable(|hashes|) && threads > 0 && PeersUpTo(peers, most) && |kind| == MAX_ROUNDS
    requires true in kind ==> Serves(Store(size, |hashes|, [], []), hashes, right)
    ensures fresh(store) && store.Contents().Valid() && store.size == size && store.count == |hashes|
    ensures Sound(store.Contents(), hashes)
    ensures done <==> store.Contents().Marked() == AllPieces(|hashes|)
    ensures done && fileHash == Sha1.HexDigest(Sha1.Flatten(hashes)) ==>
      (FileHash(store.disk) == fileHash <==>
        Whole(size, |hashes|) || Sha1.Collides(Sha1.Flatten(PieceHashes(store.disk)), Sha1.Flatten(hashes)))
    ensures fetches <= MAX_ROUNDS * RoundCost(|hashes|, most)
    ensures (exists i :: 0 <= i < MAX_ROUNDS && Blessed(peers, kind, i)) ==> done
  {
    hide Sha1.HexDigest, HasBit, ReadAt, FileHash, Sound, AllPieces, Held, FileEnd, Whole, Sha1.Collides, RoundCost,
      Serves;
    store := OpenAndResume(onDisk, size, hashes, hole, threads);
    fetches := 0;
    var round := 0;
    ghost var perRound := RoundCost(|hashes|, most);
    var complete := store.Complete();
    while round < MAX_ROUNDS && !complete
      invariant round <= MAX_ROUNDS && store.Contents().Valid() && store.size == size && store.count == |hashes|
      invariant Sound(store.Contents(), hashes)
      invariant complete <==> store.Contents().Marked() == AllPieces(|hashes|)
      invariant fetches <= round * perRound
      invariant (exists i :: 0 <= i < round && Blessed(peers, kind, i)) ==> complete
    {
      if kind[round] { SameServes(Store(size, |hashes|, [], []), store.Contents(), hashes, right); }
      var more := JobRound(store, hashes, peers[round], kind[round], right, most);
      NextMultiple(round, perRound);
      fetches := fetches + more;
      round := round + 1;
      complete := store.Complete();
    }
    Multiples(round, MAX_ROUNDS, perRound);
    done := complete;
    if done && fileHash == Sha1.HexDigest(Sha1.Flatten(hashes)) {
      RehashIff(store.Contents(), hashes, fileHash);
    }
  }

  /** Round i has a peer, and nothing goes wrong in it. */
  predicate Blessed(peers: seq<nat>, kind: seq<bool>, i: nat)
    requires i < |peers| == |kind|
  {
    kind[i] && peers[i] > 0
  }

  /** `ftruncate`: the file has its published length, and is otherwise what was on disk. */
  ghost predicate Reopened(disk: Str, s: Store) {
    |s.disk| == s.size && forall p | 0 <= p < s.size :: s.disk[p] == if p < |disk| then disk[p] else 0
  }

  /** What a job does before its first round. */
  method OpenAndResume(onDisk: Str, size: U64, hashes: seq<Str>, hole: nat -> bool, threads: nat)
    returns (store: PieceStore)
    requires Mappable(|hashes|) && threads > 0
    ensures fresh(store) && store.Contents().Valid() && store.size == size && store.count == |hashes|
    ensures Reopened(onDisk, store.Contents())
    ensures Sound(store.Contents(), hashes)
    ensures store.Contents().Marked() == Recovered(store.Contents(), hashes, hole)
  {
    hide Sha1.HexDigest, HasBit, ReadAt, Held, FileEnd, Sound, Recovered;
    store := new PieceStore.OpenForDownload(onDisk, size, |hashes|);
    ghost var before := store.Contents();
    store.ResumeScan(hashes, hole, threads);
    ResumedSound(before, store.Contents(), hashes, hole);
  }

  /** One round of a job, if the tracker named any peers. */
  method JobRound(store: PieceStore, hashes: seq<Str>, peers: nat, kind: bool, right: nat -> Str, ghost most: nat)
    returns (fetches: nat)
    requires store.Contents().Valid() && store.count == |hashes| && Sound(store.Contents(), hashes) && peers <= most
    requires kind ==> Serves(store.Contents(), hashes, right)
    modifies store`disk, store`have
    ensures store.Contents().Valid() && Sound(store.Contents(), hashes)
    ensures old(store.Contents().Marked()) <= store.Contents().Marked()
    ensures fetches <= RoundCost(|hashes|, most)
    ensures kind && peers > 0 ==> store.Contents().Marked() == AllPieces(store.count)
  {
    hide Sha1.HexDigest, HasBit, ReadAt, Sound, WorkerCount, AllPieces, Held, FileEnd, RoundCost, Serves;
    fetches := 0;
    if peers > 0 {
      RoundWithinCost(store.Contents(), peers, most);
      WorkerCountBound(peers);
      var now := Store(store.size, store.count, store.disk, store.have);
      var r := RunRound(now, hashes, WorkerCount(peers), kind, right);
      store.disk, store.have := r.store.disk, r.store.have;
      fetches := r.fetches;
    }
  }

  /** The most fetches one round can start. */
  function RoundCost(pieces: nat, most: nat): nat {
    3 * pieces + 3 * if most > TARGET_CONNECTIONS then most else TARGET_CONNECTIONS
  }

  lemma RoundWithinCost(s: Store, peers: nat, most: nat)
    requires s.Valid() && 0 < peers <= most
    ensures 3 * |AllPieces(s.count) - s.Marked()| + 3 * WorkerCount(peers) <= RoundCost(s.count, most)
  {
    hide AllPieces, WorkerCount, HasBit;
    WorkerCountBound(peers);
    AllPiecesCount(s.count);
    SubsetCount(AllPieces(s.count) - s.Marked(), AllPieces(s.count));
  }

  lemma NextMultiple(n: nat, x: nat)
    ensures (n + 1) * x == n * x + x
  {
  }

  lemma Multiples(n: nat, m: nat, x: nat)
    requires n <= m
    ensures n * x <= m * x
  {
  }

  lemma ResumedSound(before: Store, s: Store, hashes: seq<Str>, hole: nat -> bool)
    requires s.Valid() && |hashes| == s.count && s == before.(have := s.have)
    requires s.Marked() == {} + Recovered(before, hashes, hole)
    ensures Sound(s, hashes) && s.Marked() == Recovered(s, hashes, hole)
  {
    hide Sha1.HexDigest, ReadAt, PieceLen, HasBit, Held, FileEnd;
    forall i: nat | i < s.count ensures Matches(before, hashes, hole, i) <==> Matches(s, hashes, hole, i) { }
    forall i | i in s.Marked() ensures s.Holds(i, hashes[i]) { assert i in Recovered(before, hashes, hole); }
  }

  // ----- a crash in the middle of a round ---------------------------------

  lemma SameSlice(disk: Str, s: Store, off: nat, n: nat)
    requires Reopened(disk, s) && 0 < n == |ReadAt(disk, off, n)|
    ensures off + n <= s.size ==> ReadAt(s.disk, off, n) == ReadAt(disk, off, n)
    ensures off + n > s.size ==> |ReadAt(s.disk, off, n)| < n
  {
    if off + n <= s.size { assert off + n <= |disk| && off + n <= |s.disk|; }
  }

  /** A marked piece is found again when the file is opened anew, exactly when it is no hole and within the file. */
  lemma MarkSurvives(s: Store, hashes: seq<Str>, back: Store, hole: nat -> bool, i: nat)
    requires s.Valid() && |hashes| == s.count && Sound(s, hashes) && i in s.Marked()
    requires back.size == s.size && back.count == s.count && Reopened(s.disk, back)
    ensures i in Recovered(back, hashes, hole) <==> !hole(i) && 0 < s.Len(i) && Offset(i) + s.Len(i) <= s.size
  {
    hide Sha1.HexDigest, ReadAt, PieceLen, HasBit, Held, FileEnd, Reopened;
    assert s.Holds(i, hashes[i]);
    if 0 < s.Len(i) { SameSlice(s.disk, back, Offset(i), s.Len(i)); }
  }

  /**
   A process killed after any schedule of any round leaves a disk from which the next job, before
   its first fetch, recovers every marked piece that is no hole and lies within the file; with the
   rounded-up piece count that is every marked piece that is no hole.
   */
  lemma CrashRecovers(s: Store, hashes: seq<Str>, w: nat, sched: seq<(nat, Outside)>, back: Store, hole: nat -> bool)
    requires s.Valid() && |hashes| == s.count && Sound(s, hashes) && forall p | p in sched :: p.0 < w
    requires var r := Reached(s, hashes, w, sched).store;
      && back.Valid() && back.size == r.size && back.count == r.count && Reopened(r.disk, back)
      && back.Marked() == Recovered(back, hashes, hole)
    ensures var r := Reached(s, hashes, w, sched).store;
      && (forall i | i in r.Marked() ::
        i in back.Marked() <==> !hole(i) && 0 < r.Len(i) && Offset(i) + r.Len(i) <= r.size)
      && (r.count == PieceCount(r.size) ==> forall i | i in r.Marked() :: i in back.Marked() <==> !hole(i))
  {
    hide Reached, Sha1.HexDigest, ReadAt, HasBit, Held, FileEnd, Reopened, Conserved, Sound, Recovered;
    var r := Reached(s, hashes, w, sched).store;
    forall i | i in r.Marked()
      ensures i in back.Marked() <==> !hole(i) && 0 < r.Len(i) && Offset(i) + r.Len(i) <= r.size
      ensures r.count == PieceCount(r.size) ==> (i in back.Marked() <==> !hole(i))
    {
      MarkSurvives(r, hashes, back, hole, i);
      if r.count == PieceCount(r.size) { TiledPiece(r.size, r.count, i); }
    }
  }

  lemma TiledPiece(size: U64, count: U32, i: nat)
    requires i < count == PieceCount(size)
    ensures 0 < PieceLen(size, count, i) && Offset(i) + PieceLen(size, count, i) <= size
  {
    LastPiece(size, count);
    if i + 1 < count { assert Offset(i + 1) <= Offset(count - 1) <= size; }
  }

  // ----- metadata that defeat the re-hash -----------------------------------

  /** The steps in which one worker downloads the only piece of a file. */
  function OnePieceSchedule(file: Str): seq<(nat, Outside)> {
    [(0, Connected), (0, Connected), (0, Fetched(file)), (0, Wrote(|file|)), (0, Connected)]
  }

  /**
   A file of PIECE_SIZE + 1 bytes published with one piece hash, the digest of all of it, and the
   file hash made from that: the piece fits a reply, the job completes with the right bytes on
   disk, and the re-hash, which sees two pieces, fails unless SHA-1 collides.
   */
  lemma OnePieceTooFew(file: Str)
    requires |file| == PIECE_SIZE + 1
    ensures 4 + |file| <= MAX_PAYLOAD
    ensures var hashes := [Sha1.HexDigest(file)];
      var s := Store(|file|, 1, seq(|file|, _ => 0), Zeroed(1));
      && s.Valid() && Sound(s, hashes)
      && var r := Reached(s, hashes, 1, OnePieceSchedule(file));
      && r.store.Marked() == AllPieces(1) && r.store.disk == file
      && (FileHash(r.store.disk) == Sha1.HexDigest(Sha1.Flatten(hashes)) ==>
        Sha1.Collides(Sha1.Flatten(PieceHashes(file)), Sha1.Flatten(hashes)))
  {
    var hashes := [Sha1.HexDigest(file)];
    var s := Store(|file|, 1, seq(|file|, _ => 0), Zeroed(1));
    HeldZero(1);
    TooFewNotWhole(file);
    hide Sha1.HexDigest, HasBit, Held, Whole, Sha1.Collides, AllPieces, PieceLen, ReadAt, Reached;
    OnePieceRun(s, hashes, file);
    var r := Reached(s, hashes, 1, OnePieceSchedule(file));
    hide OnePieceSchedule;
    RehashIff(r.store, hashes, Sha1.HexDigest(Sha1.Flatten(hashes)));
  }

  lemma TooFewNotWhole(file: Str)
    requires |file| == PIECE_SIZE + 1
    ensures !Whole(|file|, 1) && FileEnd(|file|, 1) == |file|
  {
  }

  lemma OnePieceRun(s: Store, hashes: seq<Str>, file: Str)
    requires |file| == PIECE_SIZE + 1 && hashes == [Sha1.HexDigest(file)]
    requires s.size == |file| && s.count == 1 && |s.disk| == |file| && s.Valid() && s.Marked() == {}
    ensures Sound(s, hashes)
    ensures var r := Reached(s, hashes, 1, OnePieceSchedule(file));
      r.store.Valid() && r.store.size == s.size && r.store.count == 1 && r.store.Marked() == AllPieces(1)
        && r.store.disk == file
  {
    hide Sha1.HexDigest, HasBit, Held, ReadAt, WriteAt, FileEnd, PieceLen, AllPieces, Step, Inv, Dialing, Unmarked;
    StartInv(s, hashes, 1);
    OnePieceQueue(s);
    OnePieceIsAll();
    hide StartRound, Play;
    var r := OnePieceChain(s, hashes, file);
  }

  /** The five steps, one after the other. */
  lemma OnePieceChain(s: Store, hashes: seq<Str>, file: Str) returns (r: Round)
    requires |file| == PIECE_SIZE + 1 && hashes == [Sha1.HexDigest(file)]
    requires s.size == |file| && s.count == 1 && |s.disk| == |file| && s.Valid() && s.Marked() == {}
    requires Inv(Round([0], [Connecting], s, 0), hashes)
    ensures r == Play(Round([0], [Connecting], s, 0), hashes, OnePieceSchedule(file))
    ensures r.store.Valid() && r.store.size == s.size && r.store.count == 1
    ensures r.store.Marked() == {} + {0} && r.store.disk == file
  {
    hide Sha1.HexDigest, HasBit, Held, ReadAt, WriteAt, PieceLen, AllPieces, Step, Inv, SetBit, FileEnd;
    var r0 := Round([0], [Connecting], s, 0);
    var r1 := r0.(workers := [Ready(0)]);
    var r2 := r1.(queue := [], workers := [Fetching(0, 0)], fetches := 1);
    var r3 := r2.(workers := [Writing(0, file, 0, 0)]);
    var r4 := r3.(store := s.(disk := file), workers := [Writing(0, file, |file|, 0)]);
    r := r4.(store := r4.store.(have := SetBit(s.have, 0)), workers := [Ready(0)]);
    OnePieceFirst(s, hashes, file, r0, r1, r2, r3);
    OnePieceLast(s, hashes, file, r3, r4, r);
    HeldSet(s.have, 1, 0);
    OnePiecePlay(r0, r1, r2, r3, r4, hashes, OnePieceSchedule(file));
  }

  lemma OnePiecePlay(r0: Round, r1: Round, r2: Round, r3: Round, r4: Round, hashes: seq<Str>, sched: seq<(nat,
    Outside)>)
    requires Inv(r0, hashes) && |r0.workers| == |r1.workers| == |r2.workers| == |r3.workers| == |r4.workers| == 1
    requires |sched| == 5 && forall p | p in sched :: p.0 == 0
    requires InRange(r0.workers[0], r0.store) && Step(r0, hashes, 0, sched[0].1) == r1
    requires InRange(r1.workers[0], r1.store) && r1.store.Valid() && |hashes| == r1.store.count
    requires Step(r1, hashes, 0, sched[1].1) == r2
    requires InRange(r2.workers[0], r2.store) && r2.store.Valid() && |hashes| == r2.store.count
    requires Step(r2, hashes, 0, sched[2].1) == r3
    requires InRange(r3.workers[0], r3.store) && r3.store.Valid() && |hashes| == r3.store.count
    requires Step(r3, hashes, 0, sched[3].1) == r4
    requires InRange(r4.workers[0], r4.store) && r4.store.Valid() && |hashes| == r4.store.count
    ensures Play(r0, hashes, sched) == Step(r4, hashes, 0, sched[4].1)
  {
    hide Step, Inv;
    var s1: seq<(nat, Outside)>, s2: seq<(nat, Outside)> := sched[1..], sched[2..];
    var s3: seq<(nat, Outside)>, s4: seq<(nat, Outside)> := sched[3..], sched[4..];
    assert s1[1..] == s2 && s2[1..] == s3 && s3[1..] == s4 && |s4| == 1;
    PlayOne(r0, hashes, sched);
    PlayOne(r1, hashes, s1);
    PlayOne(r2, hashes, s2);
    PlayOne(r3, hashes, s3);
    PlayOne(r4, hashes, s4);
  }

  lemma OnePieceFirst(s: Store, hashes: seq<Str>, file: Str, r0: Round, r1: Round, r2: Round, r3: Round)
    requires |file| == PIECE_SIZE + 1 && hashes == [Sha1.HexDigest(file)]
    requires s.size == |file| && s.count == 1 && s.Valid() && r0 == Round([0], [Connecting], s, 0)
    requires r1 == r0.(workers := [Ready(0)]) && r2 == r1.(queue := [], workers := [Fetching(0, 0)], fetches := 1)
    requires r3 == r2.(workers := [Writing(0, file, 0, 0)])
    ensures InRange(r2.workers[0], r2.store)
    ensures Step(r0, hashes, 0, Connected) == r1 && Step(r1, hashes, 0, Connected) == r2
    ensures Step(r2, hashes, 0, Fetched(file)) == r3
  {
    hide Sha1.HexDigest, HasBit, Held, ReadAt, WriteAt, FileEnd;
    assert s.Len(0) == |file|;
    assert r0.workers[0 := Ready(0)] == [Ready(0)] && r1.workers[0 := Fetching(0, 0)] == [Fetching(0, 0)];
    assert r2.workers[0 := Writing(0, file, 0, 0)] == [Writing(0, file, 0, 0)];
  }

  lemma OnePieceLast(s: Store, hashes: seq<Str>, file: Str, r3: Round, r4: Round, r5: Round)
    requires |file| == PIECE_SIZE + 1 && hashes == [Sha1.HexDigest(file)]
    requires s.size == |file| && s.count == 1 && s.Valid() && |s.disk| == |file|
    requires r3 == Round([], [Writing(0, file, 0, 0)], s, 1)
    requires r4 == r3.(store := s.(disk := file), workers := [Writing(0, file, |file|, 0)])
    requires r5 == r4.(store := r4.store.(have := SetBit(s.have, 0)), workers := [Ready(0)])
    ensures InRange(r3.workers[0], r3.store) && r4.store.Valid() && InRange(r4.workers[0], r4.store)
    ensures Step(r3, hashes, 0, Wrote(|file|)) == r4 && Step(r4, hashes, 0, Connected) == r5
  {
    WholeFileWritten(s.disk, file);
    hide Sha1.HexDigest, HasBit, Held, ReadAt, WriteAt;
    assert s.Len(0) == |file| && r4.store.Len(0) == |file|;
    assert r3.workers[0 := Writing(0, file, |file|, 0)] == [Writing(0, file, |file|, 0)];
    assert r4.workers[0 := Ready(0)] == [Ready(0)];
  }

  lemma OnePieceIsAll()
    ensures AllPieces(1) == {} + {0}
  {
  }

  lemma OnePieceQueue(s: Store)
    requires s.Valid() && s.count == 1 && s.Marked() == {}
    ensures StartRound(s, 1) == Round([0], [Connecting], s, 0)
  {
    MarkedIff(s, 0);
    hide HasBit, Held;
    assert Unmarked(s, 1) == Unmarked(s, 0) + [0];
    assert Dialing(1) == [Connecting] + Dialing(0);
  }

  lemma WholeFileWritten(disk: Str, file: Str)
    requires |disk| == |file| && file != []
    ensures WriteAt(disk, Offset(0) + 0, file[0..0 + |file|]) == file
  {
    assert file[0..|file|] == file;
  }

  lemma PlayOne(r: Round, hashes: seq<Str>, sched: seq<(nat, Outside)>)
    requires Inv(r, hashes) && sched != [] && forall p | p in sched :: p.0 < |r.workers|
    ensures InRange(r.workers[sched[0].0], r.store)
    ensures Inv(Step(r, hashes, sched[0].0, sched[0].1), hashes)
    ensures |Step(r, hashes, sched[0].0, sched[0].1).workers| == |r.workers|
    ensures forall p | p in sched[1..] :: p.0 < |r.workers|
    ensures Play(r, hashes, sched) == Play(Step(r, hashes, sched[0].0, sched[0].1), hashes, sched[1..])
  {
    assert sched[0] in sched;
    assert ValidWorker(r.workers[sched[0].0], r.store, hashes);
    StepKeeps(r, hashes, sched[0].0, sched[0].1);
    hide ValidRound, Conserved, Sound, Sha1.HexDigest;
  }

  // ----- write_piece as steps of a worker -----------------------------------

  /** One worker moves, nobody else. */
  function Alone(k: nat, evs: seq<Outside>): (sched: seq<(nat, Outside)>)
    ensures forall p | p in sched :: p.0 == k
  {
    if evs == [] then [] else [(k, evs[0])] + Alone(k, evs[1..])
  }

  lemma PlayStep(r: Round, hashes: seq<Str>, k: nat, ev: Outside)
    requires Inv(r, hashes) && k < |r.workers|
    ensures r.store.Valid() && |hashes| == r.store.count && InRange(r.workers[k], r.store)
    ensures Inv(Step(r, hashes, k, ev), hashes)
    ensures |Step(r, hashes, k, ev).workers| == |r.workers| && Step(r, hashes, k, ev).store.count == r.store.count
  {
    assert ValidWorker(r.workers[k], r.store, hashes);
    StepKeeps(r, hashes, k, ev);
    hide ValidRound, Conserved, Sound, Sha1.HexDigest;
  }

  lemma PlayMore(r: Round, hashes: seq<Str>, k: nat, ev: Outside, rest: seq<Outside>)
    requires Inv(r, hashes) && k < |r.workers|
    ensures InRange(r.workers[k], r.store) && Inv(Step(r, hashes, k, ev), hashes)
    ensures |Step(r, hashes, k, ev).workers| == |r.workers|
    ensures Play(r, hashes, Alone(k, [ev] + rest)) == Play(Step(r, hashes, k, ev), hashes, Alone(k, rest))
  {
    hide Inv, Step;
    PlayStep(r, hashes, k, ev);
    assert ([ev] + rest)[1..] == rest;
    var sched := Alone(k, [ev] + rest);
    assert sched[0] == (k, ev) && sched[1..] == Alone(k, rest);
    PlayOne(r, hashes, sched);
  }

  /**
   Every outcome of `write_piece` on the bytes a worker fetched is a sequence of that worker's steps:
   on success it ends ready with no failures, otherwise it gives the piece back.
   */
  lemma WriteIsSteps(r: Round, hashes: seq<Str>, k: nat, data: Str, t: Store, ok: bool) returns (evs: seq<Outside>)
    requires Inv(r, hashes) && k < |r.workers| && r.workers[k].Fetching?
    requires r.workers[k].index < r.store.count == |hashes|
    requires WriteOutcome(r.store, t, r.workers[k].index, data, hashes[r.workers[k].index], ok)
    ensures var r' := Play(r, hashes, Alone(k, evs));
      && r'.store == t && r'.fetches == r.fetches
      && r' == if ok then r.(store := t, workers := r.workers[k := Ready(0)])
        else GiveBack(r.(store := t), k, r.workers[k].index, r.workers[k].fails)
  {
    hide Sha1.HexDigest, HasBit, Held, WriteAt, ReadAt, PieceLen, FileEnd, SetBit, Conserved, Sound, ValidRound;
    var i, fails := r.workers[k].index, r.workers[k].fails;
    var right := |data| == r.store.Len(i) && Sha1.HexDigest(data) == hashes[i];
    PlayStep(r, hashes, k, Fetched(data));
    var r1 := Step(r, hashes, k, Fetched(data));
    if !right {
      evs := [Fetched(data)];
      PlayMore(r, hashes, k, Fetched(data), []);
      assert r1 == GiveBack(r.(store := t), k, i, fails);
      return;
    }
    assert r1 == r.(workers := r.workers[k := Writing(i, data, 0, fails)]);
    var n: nat;
    if ok { n := |data|; }
    else if t == r.store { n := 0; }
    else { n :| 0 < n < |data| && t == r.store.(disk := WriteAt(r.store.disk, Offset(i), data[..n])); }
    var r2, front := r1, [];
    if n > 0 {
      PlayStep(r1, hashes, k, Wrote(n));
      r2, front := Step(r1, hashes, k, Wrote(n)), [Wrote(n)];
      assert data[0..0 + n] == data[..n];
      assert r1.workers[k := Writing(i, data, n, fails)] == r.workers[k := Writing(i, data, n, fails)];
      assert r2 == r1.(store := r.store.(disk := WriteAt(r.store.disk, Offset(i), data[..n])),
        workers := r.workers[k := Writing(i, data, n, fails)]);
    } else {
      NothingWritten(r.store.disk, Offset(i));
      assert data[..0] == [];
    }
    assert r2.store.disk == WriteAt(r.store.disk, Offset(i), data[..n]) && r2.workers[k] == Writing(i, data, n, fails);
    var back := if ok then Connected else WriteFailed;
    if ok { assert data[..n] == data; }
    PlayStep(r2, hashes, k, back);
    assert Step(r2, hashes, k, back) == if ok then r.(store := t, workers := r.workers[k := Ready(0)])
      else GiveBack(r.(store := t), k, i, fails);
    PlayMore(r2, hashes, k, back, []);
    if n > 0 { PlayMore(r1, hashes, k, Wrote(n), [back]); }
    PlayMore(r, hashes, k, Fetched(data), front + [back]);
    evs := [Fetched(data)] + (front + [back]);
  }
}
