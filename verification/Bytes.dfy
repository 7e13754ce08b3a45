/**
 Byte strings, fixed-width unsigned integers, and the order that `std::map` and
 `std::set` iterate in: `std::string::operator<`, which compares unsigned bytes.
 */
module Bytes {
  type Byte = x: int | 0 <= x < 0x100
  type U16 = x: int | 0 <= x < 0x1_0000
  type U32 = x: int | 0 <= x < 0x1_0000_0000
  type U64 = x: int | 0 <= x < 0x1_0000_0000_0000_0000
  type Str = seq<Byte>

  datatype Option<+T> = None | Some(value: T)

  // ----- lexicographic order ------------------------------------------------

  predicate Less(a: Str, b: Str) {
    if b == [] then false
    else if a == [] then true
    else a[0] < b[0] || (a[0] == b[0] && Less(a[1..], b[1..]))
  }

  /** At the first difference the smaller byte decides; a proper prefix comes first. */
  lemma {:induction false} LessIff(a: Str, b: Str)
    ensures Less(a, b) <==> exists k: nat :: DiffersAt(a, b, k) && (k == |a| || a[k] < b[k])
  {
    if a != [] && b != [] && a[0] == b[0] {
      LessIff(a[1..], b[1..]);
      if k: nat :| DiffersAt(a[1..], b[1..], k) && (k == |a[1..]| || a[1..][k] < b[1..][k]) {
        assert a[..k + 1] == [a[0]] + a[1..][..k] && b[..k + 1] == [b[0]] + b[1..][..k];
        assert DiffersAt(a, b, k + 1);
      }
      if k: nat :| DiffersAt(a, b, k) && (k == |a| || a[k] < b[k]) {
        assert a[..k][0] == b[..k][0] || k == 0;
        assert a[1..][..k - 1] == a[..k][1..] && b[1..][..k - 1] == b[..k][1..];
        assert DiffersAt(a[1..], b[1..], k - 1);
      }
    } else {
      if Less(a, b) { assert DiffersAt(a, b, 0); }
      if k: nat :| DiffersAt(a, b, k) && (k == |a| || a[k] < b[k]) {
        if k > 0 { FirstByte(a, b, k); }
      }
    }
  }

  /** The first k bytes agree; b goes on, and a ends or goes on differently. */
  predicate DiffersAt(a: Str, b: Str, k: nat) {
    k <= |a| && k < |b| && a[..k] == b[..k] && (k < |a| ==> a[k] != b[k])
  }

  lemma FirstByte(a: Str, b: Str, k: nat)
    requires DiffersAt(a, b, k) && k > 0
    ensures a != [] && b != [] && a[0] == b[0]
  {
    assert a[..k][0] == b[..k][0];
  }

  lemma {:induction false} LessTotal(a: Str, b: Str)
    ensures a == b || Less(a, b) || Less(b, a)
  {
    if a != [] && b != [] && a[0] == b[0] {
      LessTotal(a[1..], b[1..]);
      assert a[1..] == b[1..] ==> a == [a[0]] + a[1..] == [b[0]] + b[1..] == b;
    }
  }

  lemma {:induction false} LessAsymmetric(a: Str, b: Str)
    requires Less(a, b)
    ensures a != b && !Less(b, a)
  {
    if a != [] && a[0] == b[0] {
      LessAsymmetric(a[1..], b[1..]);
    }
  }

  lemma {:induction false} LessTransitive(a: Str, b: Str, c: Str)
    requires Less(a, b) && Less(b, c)
    ensures Less(a, c)
  {
    if a != [] && a[0] == b[0] == c[0] {
      LessTransitive(a[1..], b[1..], c[1..]);
    }
  }

  // ----- the first element of a set, `*s.begin()` ---------------------------

  predicate IsLeast(m: Str, s: set<Str>) {
    m in s && forall x | x in s && x != m :: Less(m, x)
  }

  lemma LeastExists(s: set<Str>)
    requires s != {}
    ensures exists m :: IsLeast(m, s)
  {
    var e :| e in s;
    var t := s - {e};
    if t == {} {
      assert s == {e};
      assert IsLeast(e, s);
    } else {
      LeastExists(t);
      var m :| IsLeast(m, t);
      LessTotal(e, m);
      if Less(m, e) {
        assert IsLeast(m, s);
      } else {
        forall x | x in s && x != e ensures Less(e, x) {
          if x != m { LessTransitive(e, m, x); }
        }
        assert IsLeast(e, s);
      }
    }
  }

  lemma LeastUnique(m: Str, n: Str, s: set<Str>)
    requires IsLeast(m, s) && IsLeast(n, s)
    ensures m == n
  {
    if m != n { LessAsymmetric(m, n); }
  }

  function Least(s: set<Str>): (m: Str)
    requires s != {}
    ensures IsLeast(m, s)
  {
    LeastExists(s);
    assert forall m, n | IsLeast(m, s) && IsLeast(n, s) :: m == n by {
      forall m, n | IsLeast(m, s) && IsLeast(n, s) ensures m == n { LeastUnique(m, n, s); }
    }
    var m :| m in s && IsLeast(m, s);
    m
  }

  /** The least element stays least in any subset that still has it. */
  lemma LeastOfSubset(s: set<Str>, t: set<Str>)
    requires t <= s && s != {} && Least(s) in t
    ensures Least(t) == Least(s)
  {
    LeastUnique(Least(t), Least(s), t);
  }

  // ----- iteration order ----------------------------------------------------

  /** The elements of `s` in the order a `std::set` or `std::map` visits them. */
  function SortedKeys(s: set<Str>): (ks: seq<Str>)
    ensures |ks| == |s|
    ensures forall k :: k in ks <==> k in s
    decreases |s|
  {
    if s == {} then [] else [Least(s)] + SortedKeys(s - {Least(s)})
  }

  predicate Distinct<T(==)>(xs: seq<T>) {
    forall i, j | 0 <= i < j < |xs| :: xs[i] != xs[j]
  }

  lemma {:induction false} SortedKeysAscend(s: set<Str>)
    ensures forall i, j | 0 <= i < j < |SortedKeys(s)| :: Less(SortedKeys(s)[i], SortedKeys(s)[j])
    ensures Distinct(SortedKeys(s))
    decreases |s|
  {
    if s != {} {
      var ks := SortedKeys(s - {Least(s)});
      SortedKeysAscend(s - {Least(s)});
      assert forall k | k in ks :: Less(Least(s), k);
      forall i, j | 0 <= i < j < |SortedKeys(s)|
        ensures Less(SortedKeys(s)[i], SortedKeys(s)[j]) && SortedKeys(s)[i] != SortedKeys(s)[j]
      {
        assert SortedKeys(s)[j] == ks[j - 1] && ks[j - 1] in ks;
        if i > 0 { assert SortedKeys(s)[i] == ks[i - 1]; }
        LessAsymmetric(SortedKeys(s)[i], SortedKeys(s)[j]);
      }
    }
  }
}
