/**
 The payload encoding of common/buffer.hpp: little-endian integers and strings
 behind a 32-bit length. Parsers are functions from the unread bytes to a value
 and the bytes after it; `Buffer` is the mutable cursor that refines them.
 */
module Codec {
  import opened Bytes

  // ----- integers -----------------------------------------------------------

  /** 256 to the power n. */
  function Bound(n: nat): (b: nat)
    ensures b > 0
  {
    if n == 0 then 1 else 0x100 * Bound(n - 1)
  }

  lemma Bounds()
    ensures Bound(1) == 0x100 && Bound(2) == 0x1_0000 && Bound(4) == 0x1_0000_0000
    ensures Bound(8) == 0x1_0000_0000_0000_0000
  {
    assert Bound(1) == 0x100;
    assert Bound(2) == 0x1_0000;
    assert Bound(3) == 0x100_0000;
    assert Bound(4) == 0x1_0000_0000;
    assert Bound(5) == 0x100_0000_0000;
    assert Bound(6) == 0x1_0000_0000_0000;
    assert Bound(7) == 0x100_0000_0000_0000;
  }

  /** The low n bytes of v, least significant first. */
  function LE(v: nat, n: nat): (s: Str)
    ensures |s| == n
  {
    if n == 0 then [] else [v % 0x100] + LE(v / 0x100, n - 1)
  }

  function FromLE(s: Str): (v: nat)
    ensures v < Bound(|s|)
  {
    if s == [] then 0 else s[0] + 0x100 * FromLE(s[1..])
  }

  lemma {:induction false} FromLEInverts(v: nat, n: nat)
    requires v < Bound(n)
    ensures FromLE(LE(v, n)) == v
  {
    if n > 0 {
      FromLEInverts(v / 0x100, n - 1);
      assert LE(v, n)[1..] == LE(v / 0x100, n - 1);
    }
  }

  lemma {:induction false} LEInverts(s: Str)
    ensures LE(FromLE(s), |s|) == s
  {
    if s != [] {
      LEInverts(s[1..]);
      var v := FromLE(s);
      assert v % 0x100 == s[0] && v / 0x100 == FromLE(s[1..]);
      assert s == [s[0]] + s[1..];
    }
  }

  // ----- network byte order (message headers, the SHA-1 length field) -------

  /** The low n bytes of v, most significant first. */
  lemma DivideTwice(v: nat, b: nat)
    requires b > 0
    ensures v / 0x100 / b == v / (0x100 * b)
  {
    var q, r := v / 0x100 / b, v / 0x100 % b;
    assert v == 0x100 * (v / 0x100) + v % 0x100 && v / 0x100 == b * q + r;
    QuotientUnique(v, 0x100 * b, q, 0x100 * r + v % 0x100);
  }

  lemma QuotientUnique(v: nat, d: nat, q: nat, r: nat)
    requires v == d * q + r && r < d
    ensures v / d == q
  {
    var p := v / d;
    if p > q { OneMoreTime(d, q, p); }
    if p < q { OneMoreTime(d, p, q); }
  }

  lemma OneMoreTime(d: nat, m: nat, n: nat)
    requires m < n
    ensures d * m + d <= d * n
  {
    assert d * (m + 1) <= d * n;
  }

  /** Byte i of the little-endian form is the i-th digit to the base 256. */
  lemma {:induction false} LEDigit(v: nat, n: nat, i: nat)
    requires i < n
    ensures LE(v, n)[i] == v / Bound(i) % 0x100
  {
    if i > 0 {
      LEDigit(v / 0x100, n - 1, i - 1);
      DivideTwice(v, Bound(i - 1));
    }
  }

  function BE(v: nat, n: nat): (s: Str)
    ensures |s| == n
  {
    if n == 0 then [] else BE(v / 0x100, n - 1) + [v % 0x100]
  }

  /** Counted from the end, byte i of the big-endian form is the same digit. */
  lemma {:induction false} BEDigit(v: nat, n: nat, i: nat)
    requires i < n
    ensures BE(v, n)[n - 1 - i] == v / Bound(i) % 0x100
  {
    if i > 0 {
      BEDigit(v / 0x100, n - 1, i - 1);
      DivideTwice(v, Bound(i - 1));
    }
  }

  function FromBE(s: Str): (v: nat)
    ensures v < Bound(|s|)
  {
    if s == [] then 0 else 0x100 * FromBE(s[..|s| - 1]) + s[|s| - 1]
  }

  lemma {:induction false} FromBEInverts(v: nat, n: nat)
    requires v < Bound(n)
    ensures FromBE(BE(v, n)) == v
  {
    if n > 0 {
      FromBEInverts(v / 0x100, n - 1);
      assert BE(v, n)[..n - 1] == BE(v / 0x100, n - 1);
    }
  }

  lemma {:induction false} BEInverts(s: Str)
    ensures BE(FromBE(s), |s|) == s
  {
    if s != [] {
      var v, n := FromBE(s), |s| - 1;
      BEInverts(s[..n]);
      assert v % 0x100 == s[n] && v / 0x100 == FromBE(s[..n]);
      assert s[..n] + [s[n]] == s;
    }
  }

  lemma BEInjective(v: nat, w: nat, n: nat)
    requires v < Bound(n) && w < Bound(n) && BE(v, n) == BE(w, n)
    ensures v == w
  {
    FromBEInverts(v, n);
    FromBEInverts(w, n);
  }

  // ----- parsers ------------------------------------------------------------

  datatype Parsed<+T> = Fail | Got(value: T, rest: Str) {
    predicate IsFailure() { Fail? }
    function PropagateFailure<U>(): Parsed<U> requires Fail? { Fail }
    function Extract(): (T, Str) requires Got? { (value, rest) }
  }

  function ParseRaw(n: nat, d: Str): Parsed<Str> {
    if |d| < n then Fail else Got(d[..n], d[n..])
  }

  function ParseU8(d: Str): Parsed<Byte> {
    if |d| < 1 then Fail else Got(d[0], d[1..])
  }

  function ParseU16(d: Str): Parsed<U16> {
    if |d| < 2 then Fail else Bounds(); Got(FromLE(d[..2]), d[2..])
  }

  function ParseU32(d: Str): Parsed<U32> {
    if |d| < 4 then Fail else Bounds(); Got(FromLE(d[..4]), d[4..])
  }

  function ParseU64(d: Str): Parsed<U64> {
    if |d| < 8 then Fail else Bounds(); Got(FromLE(d[..8]), d[8..])
  }

  function ParseStr(d: Str): Parsed<Str> {
    var (n, d) :- ParseU32(d);
    ParseRaw(n, d)
  }

  // ----- encoders -----------------------------------------------------------

  function EncU16(v: nat): Str { LE(v, 2) }
  function EncU32(v: nat): Str { LE(v, 4) }
  function EncU64(v: nat): Str { LE(v, 8) }

  /** `put_str`: the length is cast to 32 bits, the bytes are appended whole. */
  function EncStr(s: Str): Str { EncU32(|s|) + s }

  /** Strings whose length survives the cast. */
  predicate Short(s: Str) { |s| < 0x1_0000_0000 }

  // ----- the integer and string parsers invert their encoders exactly -------

  lemma U16Exact(d: Str, v: U16, r: Str)
    ensures ParseU16(d) == Got(v, r) <==> d == EncU16(v) + r
  {
    Bounds();
    FromLEInverts(v, 2);
    if d == EncU16(v) + r { assert d[..2] == EncU16(v) && d[2..] == r; }
    if ParseU16(d) == Got(v, r) { LEInverts(d[..2]); }
  }

  lemma U32Exact(d: Str, v: U32, r: Str)
    ensures ParseU32(d) == Got(v, r) <==> d == EncU32(v) + r
  {
    Bounds();
    FromLEInverts(v, 4);
    if d == EncU32(v) + r { assert d[..4] == EncU32(v) && d[4..] == r; }
    if ParseU32(d) == Got(v, r) { LEInverts(d[..4]); }
  }

  lemma U64Exact(d: Str, v: U64, r: Str)
    ensures ParseU64(d) == Got(v, r) <==> d == EncU64(v) + r
  {
    Bounds();
    FromLEInverts(v, 8);
    if d == EncU64(v) + r { assert d[..8] == EncU64(v) && d[8..] == r; }
    if ParseU64(d) == Got(v, r) { LEInverts(d[..8]); }
  }

  /** `get_str` reads back exactly the strings `put_str` wrote. */
  lemma StrExact(d: Str, s: Str, r: Str)
    requires Short(s)
    ensures ParseStr(d) == Got(s, r) <==> d == EncStr(s) + r
  {
    hide ParseU32, EncU32;
    assert EncStr(s) + r == EncU32(|s|) + (s + r);
    if d == EncStr(s) + r {
      U32Exact(d, |s|, s + r);
      RawExact(s + r, s, r);
    }
    if ParseStr(d) == Got(s, r) {
      var p := ParseU32(d);
      U32Exact(d, p.value, p.rest);
      RawExact(p.rest, s, r);
    }
  }

  lemma RawExact(d: Str, s: Str, r: Str)
    ensures ParseRaw(|s|, d) == Got(s, r) <==> d == s + r
    ensures forall n: nat | ParseRaw(n, d) == Got(s, r) :: n == |s|
  {
    if d == s + r { assert d[..|s|] == s && d[|s|..] == r; }
    if |d| >= |s| { assert d == d[..|s|] + d[|s|..]; }
  }

  lemma ParsedStrIsShort(d: Str)
    requires ParseStr(d).Got?
    ensures Short(ParseStr(d).value)
  {
  }

  /** A string survives the length cast exactly when it is shorter than 2^32 bytes. */
  lemma StrRoundTripIff(s: Str, r: Str)
    ensures ParseStr(EncStr(s) + r) == Got(s, r) <==> Short(s)
  {
    if Short(s) { StrExact(EncStr(s) + r, s, r); }
    if ParseStr(EncStr(s) + r) == Got(s, r) { ParsedStrIsShort(EncStr(s) + r); }
  }

  // ----- lists of records ---------------------------------------------------

  function EncList<T>(xs: seq<T>, enc: T -> Str): Str {
    if xs == [] then [] else enc(xs[0]) + EncList(xs[1..], enc)
  }

  function ParseList<T>(n: nat, parse: Str -> Parsed<T>, d: Str): (r: Parsed<seq<T>>)
    ensures r.Got? ==> |r.value| == n
  {
    if n == 0 then Got([], d)
    else
      var (x, d) :- parse(d);
      var (xs, d) :- ParseList(n - 1, parse, d);
      Got([x] + xs, d)
  }

  /** A 32-bit count and then that many records. */
  function EncCounted<T>(xs: seq<T>, enc: T -> Str): Str { EncU32(|xs|) + EncList(xs, enc) }

  function ParseCounted<T>(parse: Str -> Parsed<T>, d: Str): Parsed<seq<T>> {
    var (n, d) :- ParseU32(d);
    ParseList(n, parse, d)
  }

  /** `parse` reads `x` back from its encoding, whatever bytes follow. */
  ghost predicate Inverts<T>(x: T, enc: T -> Str, parse: Str -> Parsed<T>) {
    forall r: Str :: parse(enc(x) + r) == Got(x, r)
  }

  /** More input after a successful parse changes nothing but the rest. */
  ghost predicate Monotone<T(!new)>(parse: Str -> Parsed<T>) {
    forall d: Str, e: Str {:trigger parse(d + e)} :: parse(d).Got?
      ==> parse(d + e) == Got(parse(d).value, parse(d).rest + e)
  }

  lemma {:induction false} ListInverts<T>(xs: seq<T>, enc: T -> Str, parse: Str -> Parsed<T>, r: Str)
    requires forall x | x in xs :: Inverts(x, enc, parse)
    ensures ParseList(|xs|, parse, EncList(xs, enc) + r) == Got(xs, r)
  {
    if xs == [] {
      assert EncList(xs, enc) + r == r;
    } else {
      assert Inverts(xs[0], enc, parse);
      assert EncList(xs, enc) + r == enc(xs[0]) + (EncList(xs[1..], enc) + r);
      ListInverts(xs[1..], enc, parse, r);
      assert xs == [xs[0]] + xs[1..];
    }
  }

  lemma CountedInverts<T>(xs: seq<T>, enc: T -> Str, parse: Str -> Parsed<T>, r: Str)
    requires |xs| < 0x1_0000_0000
    requires forall x | x in xs :: Inverts(x, enc, parse)
    ensures ParseCounted(parse, EncCounted(xs, enc) + r) == Got(xs, r)
  {
    var d := EncCounted(xs, enc) + r;
    assert d == EncU32(|xs|) + (EncList(xs, enc) + r);
    U32Exact(d, |xs|, EncList(xs, enc) + r);
    ListInverts(xs, enc, parse, r);
  }

  lemma {:induction false} ListMonotone<T(!new)>(n: nat, parse: Str -> Parsed<T>, d: Str, e: Str)
    requires Monotone(parse)
    requires ParseList(n, parse, d).Got?
    ensures ParseList(n, parse, d + e) == Got(ParseList(n, parse, d).value, ParseList(n, parse, d).rest + e)
  {
    if n > 0 {
      assert parse(d + e) == Got(parse(d).value, parse(d).rest + e);
      ListMonotone(n - 1, parse, parse(d).rest, e);
    }
  }

  lemma U8Monotone(d: Str, e: Str)
    requires ParseU8(d).Got?
    ensures ParseU8(d + e) == Got(ParseU8(d).value, ParseU8(d).rest + e)
  {
  }

  lemma U16Monotone(d: Str, e: Str)
    requires ParseU16(d).Got?
    ensures ParseU16(d + e) == Got(ParseU16(d).value, ParseU16(d).rest + e)
  {
    assert (d + e)[..2] == d[..2];
  }

  lemma U32Monotone(d: Str, e: Str)
    requires ParseU32(d).Got?
    ensures ParseU32(d + e) == Got(ParseU32(d).value, ParseU32(d).rest + e)
  {
    assert (d + e)[..4] == d[..4];
  }

  lemma U64Monotone(d: Str, e: Str)
    requires ParseU64(d).Got?
    ensures ParseU64(d + e) == Got(ParseU64(d).value, ParseU64(d).rest + e)
  {
    assert (d + e)[..8] == d[..8];
  }

  lemma RawMonotone(n: nat, d: Str, e: Str)
    requires ParseRaw(n, d).Got?
    ensures ParseRaw(n, d + e) == Got(ParseRaw(n, d).value, ParseRaw(n, d).rest + e)
  {
    assert (d + e)[..n] == d[..n];
  }

  lemma StrMonotone(d: Str, e: Str)
    requires ParseStr(d).Got?
    ensures ParseStr(d + e) == Got(ParseStr(d).value, ParseStr(d).rest + e)
  {
    U32Monotone(d, e);
    RawMonotone(ParseU32(d).value, ParseU32(d).rest, e);
  }

  lemma CountedMonotone<T(!new)>(parse: Str -> Parsed<T>, d: Str, e: Str)
    requires Monotone(parse)
    requires ParseCounted(parse, d).Got?
    ensures ParseCounted(parse, d + e) == Got(ParseCounted(parse, d).value, ParseCounted(parse, d).rest + e)
  {
    U32Monotone(d, e);
    ListMonotone(ParseU32(d).value, parse, ParseU32(d).rest, e);
  }

  // ----- folding the lists back into maps and sets --------------------------

  /** A list encoding grows at its end. */
  lemma {:induction false} EncListSnoc<T>(xs: seq<T>, x: T, enc: T -> Str)
    ensures EncList(xs + [x], enc) == EncList(xs, enc) + enc(x)
  {
    if xs == [] {
      assert xs + [x] == [x];
      assert EncList([x], enc) == enc(x) + EncList([], enc);
    } else {
      EncListSnoc(xs[1..], x, enc);
      assert (xs + [x])[1..] == xs[1..] + [x];
    }
  }

  /** A list parse grows at its end. */
  lemma {:induction false} ParseListSnoc<T>(n: nat, parse: Str -> Parsed<T>, d: Str)
    ensures ParseList(n + 1, parse, d) ==
      (var (xs, d) :- ParseList(n, parse, d); var (x, d) :- parse(d); Got(xs + [x], d))
  {
    if n == 0 {
      if parse(d).Got? {
        assert ParseList(0, parse, parse(d).rest) == Got([], parse(d).rest);
        assert [parse(d).value] + [] == [] + [parse(d).value];
      }
    } else if parse(d).Got? {
      ParseListSnoc(n - 1, parse, parse(d).rest);
      var p := ParseList(n, parse, parse(d).rest);
      if p.Got? {
        var q := ParseList(n - 1, parse, parse(d).rest);
        assert [parse(d).value] + (q.value + [parse(q.rest).value])
          == ([parse(d).value] + q.value) + [parse(q.rest).value];
      }
    }
  }

  /** Once a record fails to parse, every longer list fails. */
  lemma {:induction false} ParseListFails<T>(n: nat, more: nat, parse: Str -> Parsed<T>, d: Str)
    requires ParseList(n, parse, d).Fail?
    ensures ParseList(n + more, parse, d).Fail?
  {
    if more > 0 {
      ParseListFails(n, more - 1, parse, d);
      ParseListSnoc(n + more - 1, parse, d);
    }
  }

  /** A map's values in key order: what iterating a `std::map` visits. */
  function Values<T>(m: map<Str, T>): (vs: seq<T>)
    ensures |vs| == |m.Keys|
  {
    var ks := SortedKeys(m.Keys);
    seq(|ks|, i requires 0 <= i < |ks| => assert ks[i] in ks; m[ks[i]])
  }

  /** Inserting records one by one under their own keys; a later one replaces an earlier. */
  function FromList<T>(xs: seq<T>, key: T -> Str): map<Str, T> {
    if xs == [] then map[] else FromList(xs[..|xs| - 1], key)[key(xs[|xs| - 1]) := xs[|xs| - 1]]
  }

  lemma FromListSnoc<T>(xs: seq<T>, x: T, key: T -> Str)
    ensures FromList(xs + [x], key) == FromList(xs, key)[key(x) := x]
  {
    assert (xs + [x])[..|xs|] == xs;
  }

  lemma {:induction false} FromListDistinct<T>(xs: seq<T>, key: T -> Str)
    requires forall i, j | 0 <= i < j < |xs| :: key(xs[i]) != key(xs[j])
    ensures forall i | 0 <= i < |xs| :: key(xs[i]) in FromList(xs, key) && FromList(xs, key)[key(xs[i])] == xs[i]
    ensures forall k | k in FromList(xs, key) :: exists i :: 0 <= i < |xs| && key(xs[i]) == k
  {
    if xs != [] {
      var n := |xs| - 1;
      var ys := xs[..n];
      FromListDistinct(ys, key);
      forall k | k in FromList(xs, key) ensures exists i :: 0 <= i < |xs| && key(xs[i]) == k {
        if k == key(xs[n]) {
        } else {
          assert k in FromList(ys, key);
          var i :| 0 <= i < |ys| && key(ys[i]) == k;
          assert xs[i] == ys[i];
        }
      }
      forall i | 0 <= i < |xs| ensures key(xs[i]) in FromList(xs, key) && FromList(xs, key)[key(xs[i])] == xs[i] {
        if i < n { assert ys[i] == xs[i] && key(xs[i]) != key(xs[n]); }
      }
    }
  }

  /** Reading a map's values back under their keys rebuilds the map. */
  lemma FromListOfValues<T>(m: map<Str, T>, key: T -> Str)
    requires forall k | k in m :: key(m[k]) == k
    ensures FromList(Values(m), key) == m
  {
    var ks, vs := SortedKeys(m.Keys), Values(m);
    SortedKeysAscend(m.Keys);
    hide SortedKeys, FromList;
    assert forall i | 0 <= i < |vs| :: ks[i] in ks && vs[i] == m[ks[i]] && key(vs[i]) == ks[i];
    FromListDistinct(vs, key);
    var r := FromList(vs, key);
    forall k ensures k in r <==> k in m {
      if k in r { var i :| 0 <= i < |vs| && key(vs[i]) == k; }
      if k in m { assert k in ks; var i :| 0 <= i < |ks| && ks[i] == k; assert key(vs[i]) in r; }
    }
    forall k | k in m ensures r[k] == m[k] {
      assert k in ks;
      var i :| 0 <= i < |ks| && ks[i] == k;
      assert r[key(vs[i])] == vs[i];
    }
  }

  // ----- the mutable cursor -------------------------------------------------

  class Buffer {
    var data: Str
    var rpos: nat

    ghost predicate Valid() reads this { rpos <= |data| }

    /** The bytes `remaining()` counts. */
    ghost function Rest(): Str
      requires Valid()
      reads this
    {
      data[rpos..]
    }

    constructor ()
      ensures Valid() && data == [] && rpos == 0
    {
      data, rpos := [], 0;
    }

    constructor From(d: Str)
      ensures Valid() && data == d && rpos == 0 && Rest() == d
    {
      data, rpos := d, 0;
    }

    method PutU8(v: Byte)
      modifies this`data
      ensures data == old(data) + [v]
    {
      data := data + [v];
    }

    method PutRaw(p: Str)
      modifies this`data
      ensures data == old(data) + p
    {
      data := data + p;
    }

    method PutU16(v: nat)
      modifies this`data
      ensures data == old(data) + EncU16(v)
    {
      PutRaw(LE(v, 2));
    }

    method PutU32(v: nat)
      modifies this`data
      ensures data == old(data) + EncU32(v)
    {
      PutRaw(LE(v, 4));
    }

    method PutU64(v: nat)
      modifies this`data
      ensures data == old(data) + EncU64(v)
    {
      PutRaw(LE(v, 8));
    }

    method PutStr(s: Str)
      modifies this`data
      ensures data == old(data) + EncStr(s)
    {
      PutU32(|s|);
      PutRaw(s);
      assert data == old(data) + (EncU32(|s|) + s);
    }

    method GetRaw(n: nat) returns (ok: bool, p: Str)
      requires Valid()
      modifies this`rpos
      ensures Valid()
      ensures ok == ParseRaw(n, old(Rest())).Got?
      ensures ok ==> Got(p, Rest()) == ParseRaw(n, old(Rest()))
      ensures !ok ==> rpos == old(rpos)
    {
      if |data| - rpos < n { return false, []; }
      p := data[rpos..rpos + n];
      rpos := rpos + n;
      ok := true;
      assert p == old(Rest())[..n];
    }

    method GetU8() returns (ok: bool, v: Byte)
      requires Valid()
      modifies this`rpos
      ensures Valid()
      ensures ok == ParseU8(old(Rest())).Got?
      ensures ok ==> Got(v, Rest()) == ParseU8(old(Rest()))
      ensures !ok ==> rpos == old(rpos)
    {
      var p;
      ok, p := GetRaw(1);
      v := if ok then p[0] else 0;
    }

    method GetU16() returns (ok: bool, v: U16)
      requires Valid()
      modifies this`rpos
      ensures Valid()
      ensures ok == ParseU16(old(Rest())).Got?
      ensures ok ==> Got(v, Rest()) == ParseU16(old(Rest()))
      ensures !ok ==> rpos == old(rpos)
    {
      Bounds();
      var p;
      ok, p := GetRaw(2);
      v := if ok then FromLE(p) else 0;
    }

    method GetU32() returns (ok: bool, v: U32)
      requires Valid()
      modifies this`rpos
      ensures Valid()
      ensures ok == ParseU32(old(Rest())).Got?
      ensures ok ==> Got(v, Rest()) == ParseU32(old(Rest()))
      ensures !ok ==> rpos == old(rpos)
    {
      Bounds();
      var p;
      ok, p := GetRaw(4);
      v := if ok then FromLE(p) else 0;
    }

    method GetU64() returns (ok: bool, v: U64)
      requires Valid()
      modifies this`rpos
      ensures Valid()
      ensures ok == ParseU64(old(Rest())).Got?
      ensures ok ==> Got(v, Rest()) == ParseU64(old(Rest()))
      ensures !ok ==> rpos == old(rpos)
    {
      Bounds();
      var p;
      ok, p := GetRaw(8);
      v := if ok then FromLE(p) else 0;
    }

    /** A length that promises more bytes than remain is consumed before the failure. */
    method GetStr() returns (ok: bool, s: Str)
      requires Valid()
      modifies this`rpos
      ensures Valid()
      ensures ok == ParseStr(old(Rest())).Got?
      ensures ok ==> Got(s, Rest()) == ParseStr(old(Rest()))
      ensures !ok ==> rpos == old(rpos) + if |old(Rest())| >= 4 then 4 else 0
    {
      var n;
      ok, n := GetU32();
      if !ok { return false, []; }
      ok, s := GetRaw(n);
    }
  }
}
