/**
 The pieces of a file on disk, client/piece_store.cpp: their geometry for every published size
 and piece count, the bitmap of the pieces held, verified writes, the resume scan, and the file
 hash of common/sha1.cpp.
 */
module Pieces {
  import opened Bytes
  import opened Net
  import opened Parallel
  import Sha1

  // ----- geometry -----------------------------------------------------------

  /** ceil(size / PIECE_SIZE) */
  function PieceCount(size: nat): nat { (size + PIECE_SIZE - 1) / PIECE_SIZE }

  function Offset(i: nat): nat { i * PIECE_SIZE }

  /** `piece_len`, with its 64-bit subtraction and 32-bit cast. */
  function PieceLen(size: U64, pc: U32, i: U32): U32 {
    if i + 1 < pc then PIECE_SIZE
    else ((size - i * PIECE_SIZE) % 0x1_0000_0000_0000_0000) % 0x1_0000_0000
  }

  function TotalLen(size: U64, pc: U32, n: nat): nat
    requires n <= pc
  {
    if n == 0 then 0 else TotalLen(size, pc, n - 1) + PieceLen(size, pc, n - 1)
  }

  /** Every piece is non-empty and at most PIECE_SIZE, and together they have the file's length. */
  ghost predicate Tiles(size: U64, pc: U32) {
    && (forall i: U32 | i < pc :: 0 < PieceLen(size, pc, i) <= PIECE_SIZE)
    && TotalLen(size, pc, pc) == size
  }

  lemma {:induction false} FullPieces(size: U64, pc: U32, n: nat)
    requires n < pc
    ensures TotalLen(size, pc, n) == Offset(n)
  {
    if n > 0 { FullPieces(size, pc, n - 1); }
  }

  lemma LastPiece(size: U64, pc: U32)
    requires pc > 0 && pc == PieceCount(size)
    ensures PieceLen(size, pc, pc - 1) == size - Offset(pc - 1)
    ensures 0 < PieceLen(size, pc, pc - 1) <= PIECE_SIZE
  {
    var r := size - Offset(pc - 1);
    assert 0 < r <= PIECE_SIZE;
  }

  /** The published piece count fits the size exactly when it is the rounded-up quotient. */
  lemma TilesIff(size: U64, pc: U32)
    ensures Tiles(size, pc) <==> pc == PieceCount(size)
  {
    if pc == 0 {
      assert TotalLen(size, pc, 0) == 0;
    } else {
      FullPieces(size, pc, pc - 1);
      if pc == PieceCount(size) { LastPiece(size, pc); }
      if Tiles(size, pc) {
        var last := PieceLen(size, pc, pc - 1);
        assert size == Offset(pc - 1) + last && 0 < last <= PIECE_SIZE;
      }
    }
  }

  /** Where the last piece ends. */
  function LastEnd(size: U64, pc: U32): nat {
    if pc == 0 then 0 else Offset(pc - 1) + PieceLen(size, pc, pc - 1)
  }

  /** The length of the file once every piece is written: writes behind its published end extend it. */
  function FileEnd(size: U64, pc: U32): nat {
    if LastEnd(size, pc) > size then LastEnd(size, pc) else size
  }

  /** The pieces reach the end of the file, and the last one is an ordinary piece. */
  predicate Whole(size: U64, pc: U32) {
    size <= Offset(pc) && (pc > 0 ==> 0 < PieceLen(size, pc, pc - 1) <= PIECE_SIZE)
  }

  /** The finished file has as many pieces as were published exactly when they are whole. */
  lemma WholeIff(size: U64, pc: U32)
    ensures PieceCount(FileEnd(size, pc)) == pc <==> Whole(size, pc)
  {
    if pc > 0 {
      var l := PieceLen(size, pc, pc - 1);
      if size > Offset(pc) {
        LongTail(size, pc);
      } else if size > Offset(pc - 1) {
        assert l == size - Offset(pc - 1);
      }
    }
  }

  /** Too few pieces: the last one never reaches behind the file. */
  lemma LongTail(size: U64, pc: U32)
    requires pc > 0 && size > Offset(pc)
    ensures LastEnd(size, pc) <= size && PieceCount(size) > pc
  {
    var r := size - Offset(pc - 1);
    assert r % 0x1_0000_0000_0000_0000 == r && r % 0x1_0000_0000 <= r;
  }

  /** Short of a wrap of the 32-bit piece length, whole means: the count is the rounded-up quotient. */
  lemma WholeMeansTiles(size: U64, pc: U32)
    ensures pc == PieceCount(size) ==> Whole(size, pc)
    ensures Whole(size, pc) && Offset(pc) < size + 0x1_0000_0000 ==> pc == PieceCount(size)
  {
    if pc > 0 {
      if pc == PieceCount(size) { LastPiece(size, pc); }
      if Whole(size, pc) && Offset(pc) < size + 0x1_0000_0000 && size <= Offset(pc - 1) {
        WrappedLength(size, pc);
        assert false;
      }
    }
  }

  lemma WrappedLength(size: U64, pc: U32)
    requires pc > 0 && size <= Offset(pc - 1) && Offset(pc) < size + 0x1_0000_0000
    ensures PieceLen(size, pc, pc - 1) == 0 || PieceLen(size, pc, pc - 1) > PIECE_SIZE
  {
    var d := Offset(pc - 1) - size;
    assert 0 <= d < 0x1_0000_0000 - PIECE_SIZE;
    if d > 0 {
      assert (size - (pc - 1) * PIECE_SIZE) % 0x1_0000_0000_0000_0000 == 0x1_0000_0000_0000_0000 - d;
      assert (0x1_0000_0000_0000_0000 - d) % 0x1_0000_0000 == 0x1_0000_0000 - d;
    }
  }

  /** With a wrap there is another way: an empty file published with 8192 pieces has 8192 full ones. */
  lemma WrapIsWhole()
    ensures Whole(0, 8192) && PieceCount(0) == 0 && FileEnd(0, 8192) == 8192 * PIECE_SIZE
  {
    assert (0 - 8191 * PIECE_SIZE) % 0x1_0000_0000_0000_0000 == 0x1_0000_0000_0000_0000 - 8191 * PIECE_SIZE;
    assert (0x1_0000_0000_0000_0000 - 8191 * PIECE_SIZE) % 0x1_0000_0000 == PIECE_SIZE;
    assert PieceLen(0, 8192, 8191) == PIECE_SIZE;
  }

  /** No byte belongs to two pieces, whatever was published. */
  lemma PiecesDisjoint(size: U64, pc: U32, i: nat, j: nat)
    requires i < j < pc
    ensures Offset(i) + PieceLen(size, pc, i) <= Offset(j)
  {
  }

  lemma PieceWithinEnd(size: U64, pc: U32, i: nat)
    requires i < pc
    ensures Offset(i) + PieceLen(size, pc, i) <= LastEnd(size, pc)
  {
    if i + 1 < pc { PiecesDisjoint(size, pc, i, pc - 1); }
  }

  // ----- bytes on disk ------------------------------------------------------

  /** What reading n bytes at an offset yields: less at the end of the file. */
  function ReadAt(disk: Str, off: nat, n: nat): (r: Str)
    ensures |r| <= n
  {
    if off >= |disk| then [] else if off + n <= |disk| then disk[off..off + n] else disk[off..]
  }

  function Padded(disk: Str, n: nat): (r: Str)
    ensures |r| >= n && |r| >= |disk|
  {
    if |disk| >= n then disk else disk + seq(n - |disk|, _ => 0)
  }

  /** What writing does: a gap behind the end of the file is filled with zeros. */
  function WriteAt(disk: Str, off: nat, data: Str): Str {
    if data == [] then disk
    else Padded(disk, off)[..off] + data + if off + |data| < |disk| then disk[off + |data|..] else []
  }

  lemma WriteLength(disk: Str, off: nat, data: Str)
    ensures |WriteAt(disk, off, data)| == if data != [] && off + |data| > |disk| then off + |data| else |disk|
  {
  }

  lemma WriteByte(disk: Str, off: nat, data: Str, p: nat)
    requires p < |WriteAt(disk, off, data)|
    ensures WriteAt(disk, off, data)[p] ==
      if off <= p < off + |data| then data[p - off] else if p < |disk| then disk[p] else 0
  {
    if data != [] {
      var front := Padded(disk, off)[..off];
      var back := if off + |data| < |disk| then disk[off + |data|..] else [];
      var r := front + data + back;
      if p < off {
        assert r[p] == front[p];
      } else if p < off + |data| {
        assert r[p] == data[p - off];
      } else {
        assert r[p] == back[p - off - |data|];
      }
    }
  }

  lemma WriteMoreLength(disk: Str, off: nat, a: Str, b: Str)
    requires a != [] && b != []
    ensures |WriteAt(WriteAt(disk, off, a), off + |a|, b)| == |WriteAt(disk, off, a + b)|
  {
    hide WriteAt;
    WriteLength(disk, off, a);
    WriteLength(WriteAt(disk, off, a), off + |a|, b);
    WriteLength(disk, off, a + b);
  }

  lemma WriteMoreByte(disk: Str, off: nat, a: Str, b: Str, p: nat)
    requires a != [] && b != [] && p < |WriteAt(WriteAt(disk, off, a), off + |a|, b)| == |WriteAt(disk, off, a + b)|
    ensures WriteAt(WriteAt(disk, off, a), off + |a|, b)[p] == WriteAt(disk, off, a + b)[p]
  {
    hide WriteAt;
    var once := WriteAt(disk, off, a);
    WriteLength(disk, off, a);
    WriteByte(once, off + |a|, b, p);
    WriteByte(disk, off, a + b, p);
    if p < |once| { WriteByte(disk, off, a, p); }
  }

  lemma WriteMore(disk: Str, off: nat, a: Str, b: Str)
    ensures WriteAt(WriteAt(disk, off, a), off + |a|, b) == WriteAt(disk, off, a + b)
  {
    if a == [] {
      assert a + b == b;
    } else if b == [] {
      assert a + b == a;
    } else {
      hide WriteAt;
      WriteMoreLength(disk, off, a, b);
      var l, r := WriteAt(WriteAt(disk, off, a), off + |a|, b), WriteAt(disk, off, a + b);
      forall p | 0 <= p < |l| ensures l[p] == r[p] { WriteMoreByte(disk, off, a, b, p); }
    }
  }

  /** Bytes read whole are the same after a write that does not touch them. */
  lemma WriteElsewhere(disk: Str, off: nat, data: Str, lo: nat, n: nat)
    requires |ReadAt(disk, lo, n)| == n && (lo + n <= off || off + |data| <= lo)
    ensures ReadAt(WriteAt(disk, off, data), lo, n) == ReadAt(disk, lo, n)
  {
    if n > 0 {
      var w := WriteAt(disk, off, data);
      WriteLength(disk, off, data);
      hide WriteAt;
      forall p | lo <= p < lo + n ensures w[p] == disk[p] { WriteByte(disk, off, data, p); }
      assert w[lo..lo + n] == disk[lo..lo + n];
    }
  }

  /** A write behind bytes already in place extends them. */
  lemma WriteExtends(disk: Str, off: nat, had: Str, more: Str)
    requires ReadAt(disk, off, |had|) == had
    ensures ReadAt(WriteAt(disk, off + |had|, more), off, |had| + |more|) == had + more
  {
    if |had| + |more| > 0 {
      var w := WriteAt(disk, off + |had|, more);
      WriteLength(disk, off + |had|, more);
      hide WriteAt;
      assert off + |had| + |more| <= |w|;
      forall k | 0 <= k < |had| + |more| ensures w[off + k] == (had + more)[k] {
        WriteByte(disk, off + |had|, more, off + k);
        if k < |had| { assert disk[off + k] == had[k]; }
      }
      assert w[off..off + |had| + |more|] == had + more;
    }
  }

  // ----- the bitmap ---------------------------------------------------------

  /** `0x80u >> k` */
  function Mask(k: nat): bv8
    requires k < 8
  {
    if k == 0 then 0x80 else if k == 1 then 0x40 else if k == 2 then 0x20 else if k == 3 then 0x10
    else if k == 4 then 0x08 else if k == 5 then 0x04 else if k == 6 then 0x02 else 0x01
  }

  predicate Test(b: bv8, k: nat)
    requires k < 8
  {
    b & Mask(k) != 0
  }

  function Raise(b: bv8, k: nat): bv8
    requires k < 8
  {
    b | Mask(k)
  }

  lemma TestRaise(b: bv8, k: nat, j: nat)
    requires k < 8 && j < 8
    ensures Test(Raise(b, k), j) <==> j == k || Test(b, j)
  {
  }

  lemma TestZero(k: nat)
    requires k < 8
    ensures !Test(0, k)
  {
  }

  /** `bitmap_bytes`: the sum is taken in 32 bits. */
  function BitmapBytes(n: nat): nat { ((n + 7) % 0x1_0000_0000) / 8 }

  /** Piece counts whose bitmap has a bit for every piece. */
  predicate Mappable(n: nat) { n + 7 < 0x1_0000_0000 }

  /** The bitmap is long enough except for the seven largest 32-bit counts, where the sum wraps. */
  lemma BitmapFitsIff(n: U32)
    ensures n <= 8 * BitmapBytes(n) <==> Mappable(n)
  {
    if !Mappable(n) { assert (n + 7) % 0x1_0000_0000 == n + 7 - 0x1_0000_0000; }
  }

  predicate HasBit(have: seq<bv8>, i: nat)
    requires i < 8 * |have|
  {
    Test(have[i / 8], i % 8)
  }

  function SetBit(have: seq<bv8>, i: nat): (r: seq<bv8>)
    requires i < 8 * |have|
    ensures |r| == |have|
  {
    have[i / 8 := Raise(have[i / 8], i % 8)]
  }

  /** The bytes with one bit, in the order of the pieces they stand for. */
  const SINGLES: seq<bv8> := [0x80, 0x40, 0x20, 0x10, 0x08, 0x04, 0x02, 0x01]

  /** The first piece of a byte is its highest bit. */
  lemma HighestBitFirst(k: nat, j: nat)
    requires k < 8 && j < 8
    ensures |SINGLES| == 8 && (HasBit([SINGLES[k]], j) <==> j == k)
  {
    var byte := SINGLES[k];
    assert byte == 0x80 || byte == 0x40 || byte == 0x20 || byte == 0x10
      || byte == 0x08 || byte == 0x04 || byte == 0x02 || byte == 0x01;
  }

  /** The set of pieces a bitmap stands for. */
  function Held(have: seq<bv8>, n: nat): (held: set<nat>)
    requires n <= 8 * |have|
    ensures forall i | i in held :: i < n
  {
    set i: nat | i < n && HasBit(have, i)
  }

  lemma HasBitSet(have: seq<bv8>, i: nat, j: nat)
    requires i < 8 * |have| && j < 8 * |have|
    ensures HasBit(SetBit(have, i), j) <==> j == i || HasBit(have, j)
  {
    if j / 8 == i / 8 { TestRaise(have[i / 8], i % 8, j % 8); }
  }

  /** Marking a piece adds that piece to the set and no other. */
  lemma HeldSet(have: seq<bv8>, n: nat, i: nat)
    requires i < n <= 8 * |have|
    ensures Held(SetBit(have, i), n) == Held(have, n) + {i}
  {
    forall j: nat | j < n ensures HasBit(SetBit(have, i), j) <==> j == i || HasBit(have, j) {
      HasBitSet(have, i, j);
    }
  }

  function Zeroed(n: nat): seq<bv8> { seq(BitmapBytes(n), _ => 0) }

  lemma HeldZero(n: nat)
    requires Mappable(n)
    ensures Held(Zeroed(n), n) == {}
  {
    forall i: nat | i < n ensures !HasBit(Zeroed(n), i) { TestZero(i % 8); }
  }

  function AllPieces(n: nat): (s: set<nat>)
    ensures forall i: nat :: i in s <==> i < n
  {
    if n == 0 then {} else AllPieces(n - 1) + {n - 1}
  }

  lemma {:induction false} AllPiecesCount(n: nat)
    ensures |AllPieces(n)| == n
  {
    if n > 0 { AllPiecesCount(n - 1); }
  }

  lemma SubsetOfSameSize(a: set<nat>, b: set<nat>)
    requires a <= b && |a| == |b|
    ensures a == b
  {
    if b - a != {} {
      var x :| x in b - a;
      SubsetCount(a, b - {x});
    }
    assert forall x | x in b :: x in a || x in b - a;
  }

  lemma {:induction false} SubsetCount(a: set<nat>, b: set<nat>)
    requires a <= b
    ensures |a| <= |b|
    decreases |a|
  {
    if a != {} {
      var x :| x in a;
      SubsetCount(a - {x}, b - {x});
    }
  }

  // ----- the store as a value -----------------------------------------------

  /** An open file: what was published about it, what is on disk, and the bitmap. */
  datatype Store = Store(size: U64, count: U32, disk: Str, have: seq<bv8>) {
    function Len(i: nat): U32
      requires i < count
    {
      PieceLen(size, count, i)
    }

    /** The bytes of piece i, as far as the file reaches. */
    function Slice(i: nat): Str
      requires i < count
    {
      ReadAt(disk, Offset(i), Len(i))
    }

    ghost predicate Valid() {
      count <= 8 * |have| && size <= |disk| <= FileEnd(size, count)
    }

    function Marked(): (m: set<nat>)
      requires Valid()
      ensures forall i | i in m :: i < count
    {
      Held(have, count)
    }

    /** Piece i is on disk, whole, with this digest. */
    predicate Holds(i: nat, hash: Str)
      requires i < count
    {
      |Slice(i)| == Len(i) && Sha1.HexDigest(Slice(i)) == hash
    }
  }

  /** A marked piece is on disk with its expected hash. */
  ghost predicate Sound(s: Store, hashes: seq<Str>)
    requires s.Valid() && |hashes| == s.count
  {
    forall i | i in s.Marked() :: s.Holds(i, hashes[i])
  }

  /** Writing inside one piece leaves every other piece that is whole as it was, and the file within its bounds. */
  lemma WriteOtherPiece(s: Store, i: nat, at: nat, data: Str, j: nat)
    requires s.Valid() && i < s.count && j < s.count && i != j
    requires at + |data| <= s.Len(i) && |s.Slice(j)| == s.Len(j)
    ensures s.(disk := WriteAt(s.disk, Offset(i) + at, data)).Slice(j) == s.Slice(j)
  {
    if j < i { PiecesDisjoint(s.size, s.count, j, i); } else { PiecesDisjoint(s.size, s.count, i, j); }
    WriteElsewhere(s.disk, Offset(i) + at, data, Offset(j), s.Len(j));
  }

  lemma WriteStaysValid(s: Store, i: nat, at: nat, data: Str)
    requires s.Valid() && i < s.count && at + |data| <= s.Len(i)
    ensures s.(disk := WriteAt(s.disk, Offset(i) + at, data)).Valid()
  {
    PieceWithinEnd(s.size, s.count, i);
    WriteLength(s.disk, Offset(i) + at, data);
  }

  // ----- hash of a file -----------------------------------------------------

  /** The length of piece i as `hash_file` cuts the file. */
  function SpanLen(size: nat, i: nat): (n: nat)
    requires i < PieceCount(size)
    ensures 0 < n <= PIECE_SIZE && Offset(i) + n <= size
  {
    if Offset(i + 1) <= size then PIECE_SIZE else size - Offset(i)
  }

  function Piece(disk: Str, i: nat): (p: Str)
    requires i < PieceCount(|disk|)
    ensures |p| == SpanLen(|disk|, i)
  {
    disk[Offset(i)..Offset(i) + SpanLen(|disk|, i)]
  }

  /** Files that agree on every piece are equal. */
  lemma PiecesDetermine(a: Str, b: Str)
    requires |a| == |b| && forall i | 0 <= i < PieceCount(|a|) :: Piece(a, i) == Piece(b, i)
    ensures a == b
  {
    forall p | 0 <= p < |a| ensures a[p] == b[p] {
      var i := p / PIECE_SIZE;
      assert i < PieceCount(|a|);
      assert Offset(i) <= p < Offset(i) + SpanLen(|a|, i);
      assert a[p] == Piece(a, i)[p - Offset(i)] == Piece(b, i)[p - Offset(i)];
    }
  }

  function PieceHashes(b: Str): (hs: seq<Str>)
    ensures |hs| == PieceCount(|b|)
  {
    seq(PieceCount(|b|), i requires 0 <= i < PieceCount(|b|) => Sha1.HexDigest(Piece(b, i)))
  }

  /** `hash_file`: the digest of the concatenated hexadecimal piece digests. */
  function FileHash(b: Str): Str { Sha1.HexDigest(Sha1.Flatten(PieceHashes(b))) }

  /**
   `hash_file`, on any number of threads and partial reads; a failed read makes the result empty.
   The piece count is cut to 32 bits, so of a file with more pieces only the first are hashed.
   */
  method HashFile(b: Str, threads: nat, healthy: bool) returns (r: Str, pieceHashes: Str, size: nat)
    requires threads > 0
    ensures healthy ==> r != []
    ensures r != [] ==> pieceHashes == Sha1.Flatten(PieceHashes(b)[..PieceCount(|b|) % 0x1_0000_0000])
    ensures r != [] ==> r == Sha1.HexDigest(pieceHashes) && size == |b|
    ensures r != [] && PieceCount(|b|) < 0x1_0000_0000 ==> r == FileHash(b)
  {
    hide Sha1.HexDigest;
    var n := PieceCount(|b|) % 0x1_0000_0000;
    var data := (i: nat) => if i < PieceCount(|b|) then Piece(b, i) else [];
    var digest := (i: nat, buf: Str) => Sha1.HexDigest(buf);
    var ok, hashes := ParallelScan(n, threads, data, digest, healthy);
    if !ok { return [], [], 0; }
    AllHashed(b, hashes, n);
    pieceHashes := Concatenated(hashes);
    size := |b|;
    r := Sha1.HashBuffer(pieceHashes);
    if PieceCount(|b|) < 0x1_0000_0000 { assert PieceHashes(b)[..n] == PieceHashes(b); }
  }

  lemma AllHashed(b: Str, hashes: seq<Str>, n: nat)
    requires |hashes| == n <= PieceCount(|b|)
    requires forall i | 0 <= i < n :: hashes[i] == Sha1.HexDigest(Piece(b, i))
    ensures hashes == PieceHashes(b)[..n]
  {
    hide Sha1.HexDigest, Piece;
  }

  /** The blob of all piece digests. */
  method Concatenated(hashes: seq<Str>) returns (blob: Str)
    ensures blob == Sha1.Flatten(hashes)
  {
    blob := [];
    assert hashes[..0] == [];
    for i := 0 to |hashes|
      invariant blob == Sha1.Flatten(hashes[..i])
    {
      Sha1.FlattenSnoc(hashes[..i], hashes[i]);
      assert hashes[..i + 1] == hashes[..i] + [hashes[i]];
      blob := blob + hashes[i];
    }
    assert hashes[..|hashes|] == hashes;
  }

  // ----- the class ----------------------------------------------------------

  /** What `write_piece` may leave: everything and a mark, or a verified prefix at most and no mark. */
  ghost predicate WriteOutcome(s: Store, t: Store, i: nat, data: Str, expected: Str, ok: bool) {
    var right := i < s.count && |data| == s.Len(i) && Sha1.HexDigest(data) == expected;
    if ok then right && i < 8 * |s.have| && t == s.(disk := WriteAt(s.disk, Offset(i), data), have := SetBit(s.have, i))
    else
      || (t == s && (right ==> data != []))
      || (right && exists k :: 0 < k < |data| && t == s.(disk := WriteAt(s.disk, Offset(i), data[..k])))
  }

  class PieceStore {
    var size: U64
    var count: U32
    var disk: Str
    var have: seq<bv8>

    ghost function Contents(): Store
      reads this
    {
      Store(size, count, disk, have)
    }

    /** Opens the destination: the file is cut or extended with zeros to its size, nothing is marked. */
    constructor OpenForDownload(onDisk: Str, size: U64, count: U32)
      ensures Contents().Valid() <==> Mappable(count)
      ensures Contents().Valid() ==> Contents().Marked() == {}
      ensures |have| == BitmapBytes(count)
      ensures Contents().size == size && Contents().count == count && |Contents().disk| == size
      ensures forall p | 0 <= p < size :: Contents().disk[p] == if p < |onDisk| then onDisk[p] else 0
    {
      this.size := size;
      this.count := count;
      disk := if |onDisk| >= size then onDisk[..size] else onDisk + seq(size - |onDisk|, _ => 0);
      have := Zeroed(count);
      BitmapFitsIff(count);
      if Mappable(count) { HeldZero(count); }
    }

    method Have(i: U32) returns (b: bool)
      requires Contents().Valid()
      ensures b <==> i in Contents().Marked()
    {
      if i >= count { return false; }
      b := HasBit(have, i);
    }

    method HaveCount() returns (c: nat)
      requires Contents().Valid()
      ensures c == |Contents().Marked()|
    {
      hide HasBit;
      c := 0;
      assert Held(have, 0) == {};
      for i := 0 to count
        invariant c == |Held(have, i)|
      {
        assert Held(have, i + 1) == Held(have, i) + if HasBit(have, i) then {i} else {};
        if HasBit(have, i) { c := c + 1; }
      }
    }

    method Complete() returns (b: bool)
      requires Contents().Valid()
      ensures b <==> Contents().Marked() == AllPieces(count)
    {
      var c := HaveCount();
      b := c == count;
      AllPiecesCount(count);
      if b { SubsetOfSameSize(Contents().Marked(), AllPieces(count)); }
    }

    /** Serves a held piece whole; a read error, an early end of the file or a piece not held gives nothing. */
    method ReadPiece(i: U32, healthy: bool) returns (ok: bool, p: Str)
      requires Contents().Valid()
      ensures ok ==> i in Contents().Marked() && p == Contents().Slice(i) && |p| == Contents().Len(i)
      ensures healthy && i in Contents().Marked() && |Contents().Slice(i)| == Contents().Len(i) ==> ok
    {
      p := [];
      if i >= count { return false, []; }
      if !HasBit(have, i) { return false, []; }
      var n := PieceLen(size, count, i);
      var off := Offset(i);
      while |p| < n
        invariant |p| <= n && p == ReadAt(disk, off, |p|)
        decreases n - |p|
      {
        var dead: bool := *;
        if !healthy && dead { return false, []; }
        if off + |p| >= |disk| { return false, []; }
        var k: nat :| 0 < k <= n - |p| && off + |p| + k <= |disk|;
        assert disk[off..off + |p| + k] == disk[off..off + |p|] + disk[off + |p|..off + |p| + k];
        p := p + disk[off + |p|..off + |p| + k];
      }
      ok := true;
    }

    /** Verifies, writes in as many partial writes as the kernel makes of it, and marks last. */
    method WritePiece(i: U32, data: Str, expected: Str, healthy: bool) returns (ok: bool)
      requires Contents().Valid()
      modifies this`disk, this`have
      ensures Contents().Valid()
      ensures WriteOutcome(old(Contents()), Contents(), i, data, expected, ok)
      ensures healthy && i < count && |data| == Contents().Len(i) && Sha1.HexDigest(data) == expected ==> ok
    {
      hide Sha1.HexDigest, WriteAt, SetBit;
      ghost var s := Contents();
      if i >= count { return false; }
      if |data| != PieceLen(size, count, i) { return false; }
      var hash := Sha1.HashBuffer(data);
      if hash != expected { return false; }
      var off := Offset(i);
      var put := 0;
      assert data[..0] == [];
      NothingWritten(disk, off);
      while put < |data|
        invariant put <= |data| && Contents() == s.(disk := WriteAt(s.disk, off, data[..put]))
      {
        var dead: bool := *;
        if !healthy && dead {
          WriteStaysValid(s, i, 0, data[..put]);
          if put == 0 { assert Contents() == s; }
          return false;
        }
        var k: nat :| 0 < k <= |data| - put;
        WriteMore(s.disk, off, data[..put], data[put..put + k]);
        assert data[..put] + data[put..put + k] == data[..put + k];
        disk := WriteAt(disk, off + put, data[put..put + k]);
        put := put + k;
      }
      assert data[..put] == data;
      WriteStaysValid(s, i, 0, data);
      have := SetBit(have, i);
      ok := true;
    }

    /**
     Marks exactly the pieces whose bytes are there and match, except those the file system
     reports as holes, whatever the number of threads and the order in which they claim pieces.
     */
    method ResumeScan(hashes: seq<Str>, hole: nat -> bool, threads: nat)
      requires Contents().Valid() && threads > 0
      modifies this`have
      ensures Contents().Valid()
      ensures Contents().Marked() == old(Contents().Marked()) + Recovered(old(Contents()), hashes, hole)
    {
      hide Sha1.HexDigest, HasBit, Matches;
      ghost var s := Contents();
      var n := if count < |hashes| then count else |hashes|;
      var now := Store(size, count, disk, have);
      var data := (i: nat) => if i < now.count && !hole(i) then now.Slice(i) else [];
      var valid := (i: nat, buf: Str) => i < now.count && i < |hashes| && Matched(now, hashes, hole, i, buf);
      var _, found := ParallelScan(n, threads, data, valid, true);
      ghost var before := Contents().Marked();
      for i := 0 to n
        invariant Contents().Valid() && Contents() == s.(have := have)
        invariant Contents().Marked() == before + RecoveredBelow(s, hashes, hole, i)
      {
        MatchedIs(s, hashes, hole, i);
        if found[i] {
          HeldSet(have, count, i);
          have := SetBit(have, i);
        }
        RecoveredOne(s, hashes, hole, i);
      }
      RecoveredAll(s, hashes, hole, n);
    }
  }

  /** One worker's verdict on the bytes it read. */
  predicate Matched(s: Store, hashes: seq<Str>, hole: nat -> bool, i: nat, buf: Str)
    requires i < s.count && i < |hashes|
  {
    !hole(i) && 0 < s.Len(i) == |buf| && Sha1.HexDigest(buf) == hashes[i]
  }

  /** The piece is whole, matches, and is not skipped; an empty piece always is. */
  predicate Matches(s: Store, hashes: seq<Str>, hole: nat -> bool, i: nat)
    requires i < s.count && i < |hashes|
  {
    !hole(i) && 0 < s.Len(i) && s.Holds(i, hashes[i])
  }

  function RecoveredBelow(s: Store, hashes: seq<Str>, hole: nat -> bool, n: nat): set<nat> {
    set i: nat | i < n && i < s.count && i < |hashes| && Matches(s, hashes, hole, i)
  }

  function Recovered(s: Store, hashes: seq<Str>, hole: nat -> bool): set<nat> {
    set i: nat | i < s.count && i < |hashes| && Matches(s, hashes, hole, i)
  }

  lemma MatchedIs(s: Store, hashes: seq<Str>, hole: nat -> bool, i: nat)
    requires i < s.count && i < |hashes|
    ensures Matched(s, hashes, hole, i, if hole(i) then [] else s.Slice(i)) <==> Matches(s, hashes, hole, i)
  {
    hide Sha1.HexDigest, ReadAt, PieceLen;
  }

  lemma RecoveredOne(s: Store, hashes: seq<Str>, hole: nat -> bool, i: nat)
    requires i < s.count && i < |hashes|
    ensures RecoveredBelow(s, hashes, hole, i + 1)
      == RecoveredBelow(s, hashes, hole, i) + if Matches(s, hashes, hole, i) then {i} else {}
  {
    hide Matches;
  }

  lemma RecoveredAll(s: Store, hashes: seq<Str>, hole: nat -> bool, n: nat)
    requires n == if s.count < |hashes| then s.count else |hashes|
    ensures RecoveredBelow(s, hashes, hole, n) == Recovered(s, hashes, hole)
  {
    hide Matches;
  }

  lemma NothingWritten(disk: Str, off: nat)
    ensures WriteAt(disk, off, []) == disk
  {
  }
}
