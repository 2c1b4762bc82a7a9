/** The order Redis keeps a sorted set in, and the index arithmetic its range commands share. */
module Ordering {

  /** Byte-wise comparison of members; on characters compared by code point this is
      the order of their UTF-8 encodings. */
  predicate StrLess(a: string, b: string)
    decreases |a|
  {
    |b| > 0 && (|a| == 0 || a[0] < b[0] || (a[0] == b[0] && StrLess(a[1..], b[1..])))
  }

  lemma {:induction false} StrLessIrreflexive(a: string)
    ensures !StrLess(a, a)
    decreases |a|
  {
    if |a| > 0 { StrLessIrreflexive(a[1..]); }
  }

  lemma {:induction false} StrLessTransitive(a: string, b: string, c: string)
    requires StrLess(a, b) && StrLess(b, c)
    ensures StrLess(a, c)
    decreases |a|
  {
    if |a| > 0 && a[0] == b[0] && b[0] == c[0] {
      StrLessTransitive(a[1..], b[1..], c[1..]);
    }
  }

  lemma {:induction false} StrLessTotal(a: string, b: string)
    ensures a == b || StrLess(a, b) || StrLess(b, a)
    decreases |a|
  {
    if |a| > 0 && |b| > 0 && a[0] == b[0] {
      StrLessTotal(a[1..], b[1..]);
      if a[1..] == b[1..] {
        assert a == [a[0]] + a[1..] && b == [b[0]] + b[1..];
      }
    }
  }

  /** `a` comes before `b` in sorted set `z`: lower score first, ties broken by member. */
  predicate Precedes(z: map<string, int>, a: string, b: string)
    requires a in z && b in z
  {
    z[a] < z[b] || (z[a] == z[b] && StrLess(a, b))
  }

  lemma PrecedesStrict(z: map<string, int>, a: string, b: string, c: string)
    requires a in z && b in z && c in z
    ensures !Precedes(z, a, a)
    ensures Precedes(z, a, b) ==> !Precedes(z, b, a)
    ensures Precedes(z, a, b) && Precedes(z, b, c) ==> Precedes(z, a, c)
    ensures a == b || Precedes(z, a, b) || Precedes(z, b, a)
  {
    StrLessIrreflexive(a);
    StrLessTotal(a, b);
    if StrLess(a, b) && StrLess(b, a) { StrLessTransitive(a, b, a); }
    if StrLess(a, b) && StrLess(b, c) { StrLessTransitive(a, b, c); }
  }

  predicate IsFirst(z: map<string, int>, m: string) {
    m in z && forall n :: n in z && n != m ==> Precedes(z, m, n)
  }

  lemma RemoveOne(z: map<string, int>, m: string)
    requires m in z
    ensures |z - {m}| == |z| - 1
  {
    assert (z - {m}).Keys == z.Keys - {m};
  }

  lemma {:induction false} FirstExists(z: map<string, int>)
    requires |z| > 0
    ensures exists m :: IsFirst(z, m)
    decreases |z|
  {
    var k :| k in z;
    var rest := z - {k};
    RemoveOne(z, k);
    if |rest| == 0 {
      assert z.Keys == {k};
      assert IsFirst(z, k);
    } else {
      FirstExists(rest);
      var m :| IsFirst(rest, m);
      PrecedesStrict(z, k, m, k);
      if Precedes(z, k, m) {
        forall n | n in z && n != k ensures Precedes(z, k, n) {
          if n != m {
            assert n in rest && Precedes(rest, m, n);
            PrecedesStrict(z, k, m, n);
          }
        }
        assert IsFirst(z, k);
      } else {
        forall n | n in z && n != m ensures Precedes(z, m, n) {
          if n != k { assert n in rest && Precedes(rest, m, n); }
        }
        assert IsFirst(z, m);
      }
    }
  }

  lemma FirstUnique(z: map<string, int>)
    ensures forall m1, m2 :: IsFirst(z, m1) && IsFirst(z, m2) ==> m1 == m2
  {
    forall m1, m2 | IsFirst(z, m1) && IsFirst(z, m2) ensures m1 == m2 {
      if m1 != m2 { PrecedesStrict(z, m1, m2, m1); }
    }
  }

  /** The members of `z` in rank order (rank 0 first), as ZRANGE 0 -1 lists them. */
  function Ordered(z: map<string, int>): (s: seq<string>)
    ensures |s| == |z|
    ensures forall i :: 0 <= i < |s| ==> s[i] in z
    decreases |z|
  {
    if |z| == 0 then []
    else
      FirstExists(z);
      FirstUnique(z);
      var m :| IsFirst(z, m);
      RemoveOne(z, m);
      [m] + Ordered(z - {m})
  }

  /** The first member listed is the one that precedes every other. */
  lemma OrderedHead(z: map<string, int>)
    requires |z| > 0
    ensures IsFirst(z, Ordered(z)[0])
    ensures Ordered(z)[1..] == Ordered(z - {Ordered(z)[0]})
  {
    FirstExists(z);
    FirstUnique(z);
  }

  /** Every member is listed, and the listing is in rank order. */
  lemma {:induction false} OrderedSorted(z: map<string, int>)
    ensures forall m :: m in z ==> m in Ordered(z)
    ensures forall i, j :: 0 <= i < j < |Ordered(z)| ==> Precedes(z, Ordered(z)[i], Ordered(z)[j])
    decreases |z|
  {
    if |z| > 0 {
      var s := Ordered(z);
      var m := s[0];
      OrderedHead(z);
      var rest := z - {m};
      RemoveOne(z, m);
      OrderedSorted(rest);
      var t := Ordered(rest);
      assert s == [m] + t;
      forall n | n in z ensures n in s {
        if n != m { assert n in rest; }
      }
      forall i, j | 0 <= i < j < |s| ensures Precedes(z, s[i], s[j]) {
        if i == 0 {
          assert s[j] in rest;
        } else {
          assert s[i] == t[i - 1] && s[j] == t[j - 1];
          assert Precedes(rest, t[i - 1], t[j - 1]);
        }
      }
    }
  }

  /** No member is listed twice. */
  lemma OrderedDistinct(z: map<string, int>)
    ensures forall i, j :: 0 <= i < j < |Ordered(z)| ==> Ordered(z)[i] != Ordered(z)[j]
  {
    var s := Ordered(z);
    OrderedSorted(z);
    forall i, j | 0 <= i < j < |s| ensures s[i] != s[j] {
      PrecedesStrict(z, s[i], s[j], s[j]);
    }
  }

  /** The rank of member `m`: its position in rank order. */
  function RankIn(z: map<string, int>, m: string): (r: nat)
    requires m in z
    ensures r < |z| && Ordered(z)[r] == m
  {
    OrderedSorted(z);
    IndexOf(Ordered(z), m)
  }

  /** The normalised window `[lo, hi)` that LRANGE, LTRIM, ZRANGE and ZREMRANGEBYRANK take
      from `start`/`stop` on a collection of length `len`: negative indices count from
      the end, `stop` is inclusive and clipped, an empty window is `(0, 0)`. */
  function Window(len: nat, start: int, stop: int): (w: (nat, nat))
    ensures w.0 <= w.1 <= len
  {
    var s := if start < 0 then start + len else start;
    var e := if stop < 0 then stop + len else stop;
    var s' := if s < 0 then 0 else s;
    if s' > e || s' >= len then (0, 0)
    else (s', if e >= len then len else e + 1)
  }

  function Reverse<T>(s: seq<T>): (r: seq<T>)
    ensures |r| == |s| && forall i :: 0 <= i < |s| ==> r[i] == s[|s| - 1 - i]
  {
    if s == [] then [] else Reverse(s[1..]) + [s[0]]
  }

  /** The position of `x` in `s` (its first one). */
  function IndexOf<T(==)>(s: seq<T>, x: T): (i: nat)
    requires x in s
    ensures i < |s| && s[i] == x && x !in s[..i]
  {
    if s[0] == x then 0 else 1 + IndexOf(s[1..], x)
  }
}
