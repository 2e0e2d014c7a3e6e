/** Small shared vocabulary: optional values, random draws, and the
    order-preserving filter that the simulation's retain loops implement. */
module Support {

  datatype Option<T> = None | Some(value: T)

  /** One result of `Math.random()`: a real number in [0, 1). */
  type Draw = u: real | 0.0 <= u < 1.0

  /** A draw scaled by d. */
  function Scaled(u: Draw, d: real): real {
    u * d
  }

  /** A draw scaled by d lies between 0 and d. */
  lemma ScaleBounds(u: Draw, d: real)
    ensures d >= 0.0 ==> 0.0 <= Scaled(u, d) <= d
    ensures d > 0.0 ==> Scaled(u, d) < d
    ensures d < 0.0 ==> d < Scaled(u, d) <= 0.0
  {
    if d > 0.0 {
      assert (1.0 - u) * d > 0.0;
    } else if d < 0.0 {
      assert (1.0 - u) * (-d) > 0.0;
    }
  }

  function Abs(r: real): real {
    if r < 0.0 then -r else r
  }

  /** Apply `f` to every element, keeping positions. */
  function Map<T, U>(s: seq<T>, f: T -> U): (r: seq<U>)
    ensures |r| == |s|
    ensures forall i :: 0 <= i < |s| ==> r[i] == f(s[i])
  {
    seq(|s|, i requires 0 <= i < |s| => f(s[i]))
  }

  /** The elements of `s` that `keep` accepts, in their original order. */
  function Filter<T>(s: seq<T>, keep: T -> bool): (r: seq<T>)
    ensures |r| <= |s|
    ensures forall k :: 0 <= k < |r| ==> keep(r[k]) && r[k] in s
  {
    if s == [] then []
    else (if keep(s[0]) then [s[0]] else []) + Filter(s[1..], keep)
  }

  lemma {:induction false} FilterAppend<T>(a: seq<T>, b: seq<T>, keep: T -> bool)
    ensures Filter(a + b, keep) == Filter(a, keep) + Filter(b, keep)
  {
    if a == [] {
      assert a + b == b;
    } else {
      assert (a + b)[0] == a[0];
      assert (a + b)[1..] == a[1..] + b;
      FilterAppend(a[1..], b, keep);
    }
  }

  /** Filtering one more element at the end. */
  lemma FilterSnoc<T>(s: seq<T>, x: T, keep: T -> bool)
    ensures Filter(s + [x], keep) == Filter(s, keep) + (if keep(x) then [x] else [])
  {
    FilterAppend(s, [x], keep);
    assert Filter([x], keep) == (if keep(x) then [x] else []) + Filter([x][1..], keep);
  }

  /** b occurs in s, whole and contiguous, starting at index n. */
  ghost predicate SliceIs<T>(s: seq<T>, n: nat, b: seq<T>) {
    n + |b| <= |s| && s[n..n + |b|] == b
  }

  /** A slice of the first part of a concatenation is a slice of the whole. */
  lemma SliceBefore<T>(x: seq<T>, y: seq<T>, n: nat, b: seq<T>)
    requires SliceIs(x, n, b)
    ensures SliceIs(x + y, n, b)
  {
    assert (x + y)[n..n + |b|] == x[n..n + |b|];
  }

  /** A slice of the second part of a concatenation is a slice of the whole, shifted. */
  lemma SliceAfter<T>(x: seq<T>, y: seq<T>, n: nat, b: seq<T>)
    requires SliceIs(y, n, b)
    ensures SliceIs(x + y, |x| + n, b)
  {
    assert (x + y)[|x| + n..|x| + n + |b|] == y[n..n + |b|];
  }

  /** A slice of the second part of a concatenation, carried over to a sequence equal to it. */
  lemma SliceCarried<T>(s: seq<T>, x: seq<T>, y: seq<T>, n: nat, b: seq<T>)
    requires s == x + y && SliceIs(y, n, b)
    ensures SliceIs(s, |x| + n, b)
  {
    SliceAfter(x, y, n, b);
  }

  /** The second part of a concatenation is a slice of the whole. */
  lemma SliceTail<T>(x: seq<T>, y: seq<T>)
    ensures SliceIs(x + y, |x|, y)
  {
    assert (x + y)[|x|..|x| + |y|] == y;
  }

  lemma AppendAssoc<T>(a: seq<T>, b: seq<T>, c: seq<T>)
    ensures a + (b + c) == (a + b) + c
  {
  }

  lemma MapAppend<T, U>(a: seq<T>, b: seq<T>, f: T -> U)
    ensures Map(a + b, f) == Map(a, f) + Map(b, f)
  {
  }

  /** Filtering a sequence whose first element is `s[i]` peels that element off. */
  lemma FilterFrom<T>(s: seq<T>, i: nat, keep: T -> bool)
    requires i < |s|
    ensures Filter(s[i..], keep) == (if keep(s[i]) then [s[i]] else []) + Filter(s[i + 1..], keep)
  {
    assert s[i..][0] == s[i];
    assert s[i..][1..] == s[i + 1..];
  }

  /** One step of a retain loop that runs backwards over `orig` and splices rejected
      elements out in place: with positions up to i untouched and everything after them
      already replaced by the kept elements of `m`, writing `m[i]` at i, or removing
      position i, extends that to position i. The untouched prefix and the filtered suffix
      are stated apart, so that the loop never equates `orig` with an expression over it. */
  lemma RetainStep<T>(orig: seq<T>, m: seq<T>, i: nat, cur: seq<T>, keep: T -> bool)
    requires i < |orig| == |m| && |cur| > i
    requires cur[..i + 1] == orig[..i + 1] && cur[i + 1..] == Filter(m[i + 1..], keep)
    ensures cur[i] == orig[i]
    ensures keep(m[i]) ==> var n := cur[..i] + [m[i]] + cur[i + 1..];
      |n| > i && n[..i] == orig[..i] && n[i..] == Filter(m[i..], keep)
    ensures !keep(m[i]) ==> var n := cur[..i] + cur[i + 1..];
      |n| >= i && n[..i] == orig[..i] && n[i..] == Filter(m[i..], keep)
  {
    FilterFrom(m, i, keep);
    assert cur[i] == cur[..i + 1][i];
    assert cur[..i] == cur[..i + 1][..i] == orig[..i];
    var n1 := cur[..i] + [m[i]] + cur[i + 1..];
    var n2 := cur[..i] + cur[i + 1..];
    assert n1[..i] == cur[..i] && n1[i..] == [m[i]] + cur[i + 1..];
    assert n2[..i] == cur[..i] && n2[i..] == cur[i + 1..];
  }

  /** When a backward retain loop has passed position 0, the whole list is filtered. */
  lemma RetainDone<T>(m: seq<T>, cur: seq<T>, keep: T -> bool)
    requires cur[0..] == Filter(m[0..], keep)
    ensures cur == Filter(m, keep)
  {
    assert cur[0..] == cur && m[0..] == m;
  }

  /** One step of a retain loop that runs forwards over `orig`, updating in place and
      splicing rejected elements out (stepping the index back): with the first i elements
      the kept elements of `m[..j]` and the rest `orig[j..]` untouched, writing `m[j]` at i
      and removing it again when rejected extends that to j + 1. The two parts are stated
      apart, as in `RetainStep`. */
  lemma SweepStep<T>(orig: seq<T>, m: seq<T>, j: nat, cur: seq<T>, i: nat, keep: T -> bool)
    requires j < |orig| == |m| && i == |Filter(m[..j], keep)| && |cur| == i + (|orig| - j)
    requires cur[..i] == Filter(m[..j], keep) && cur[i..] == orig[j..]
    ensures i < |cur| && cur[i] == orig[j]
    ensures keep(m[j]) ==> var n := cur[i := m[j]];
      && i + 1 == |Filter(m[..j + 1], keep)| && |n| == i + 1 + (|orig| - (j + 1))
      && n[..i + 1] == Filter(m[..j + 1], keep) && n[i + 1..] == orig[j + 1..]
    ensures !keep(m[j]) ==> var n := cur[i := m[j]][..i] + cur[i := m[j]][i + 1..];
      && i == |Filter(m[..j + 1], keep)| && |n| == i + (|orig| - (j + 1))
      && n[..i] == Filter(m[..j + 1], keep) && n[i..] == orig[j + 1..]
  {
    assert m[..j + 1] == m[..j] + [m[j]];
    FilterSnoc(m[..j], m[j], keep);
    assert cur[i] == cur[i..][0] == orig[j];
    assert orig[j + 1..] == cur[i + 1..];
    var w := cur[i := m[j]];
    assert w[..i] == cur[..i] && w[i + 1..] == cur[i + 1..];
    if keep(m[j]) {
      assert w[..i + 1] == cur[..i] + [m[j]];
    } else {
      var n := w[..i] + w[i + 1..];
      assert n[..i] == cur[..i] && n[i..] == cur[i + 1..];
    }
  }

  /** Every position in `p`, moved one place to the right. */
  function Shift(p: seq<nat>): (q: seq<nat>)
    ensures |q| == |p|
    ensures forall k :: 0 <= k < |p| ==> q[k] == p[k] + 1
  {
    seq(|p|, k requires 0 <= k < |p| => p[k] + 1)
  }

  /** The positions of `s` that `keep` accepts, in increasing order. */
  ghost function KeptPositions<T>(s: seq<T>, keep: T -> bool): (p: seq<nat>)
    ensures |p| == |Filter(s, keep)|
  {
    if s == [] then []
    else (if keep(s[0]) then [0] else []) + Shift(KeptPositions(s[1..], keep))
  }

  /** The k-th kept element sits at the k-th kept position. */
  lemma {:induction false} KeptPositionsIndex<T>(s: seq<T>, keep: T -> bool)
    ensures forall k :: 0 <= k < |KeptPositions(s, keep)| ==>
      KeptPositions(s, keep)[k] < |s| && Filter(s, keep)[k] == s[KeptPositions(s, keep)[k]]
  {
    if s != [] {
      var t := s[1..];
      KeptPositionsIndex(t, keep);
      var r', p' := Filter(t, keep), KeptPositions(t, keep);
      var h := if keep(s[0]) then [0] else [];
      var r, p := Filter(s, keep), KeptPositions(s, keep);
      assert p == h + Shift(p');
      assert r == (if keep(s[0]) then [s[0]] else []) + r';
      forall k | 0 <= k < |p|
        ensures p[k] < |s| && r[k] == s[p[k]]
      {
        if k >= |h| {
          var m := k - |h|;
          assert p[k] == p'[m] + 1;
          assert r[k] == r'[m];
          assert r'[m] == t[p'[m]] == s[p'[m] + 1];
        } else {
          assert p[k] == 0 && r[k] == s[0];
        }
      }
    }
  }

  /** The kept positions increase strictly. */
  lemma {:induction false} KeptPositionsIncrease<T>(s: seq<T>, keep: T -> bool)
    ensures forall k, l :: 0 <= k < l < |KeptPositions(s, keep)| ==>
      KeptPositions(s, keep)[k] < KeptPositions(s, keep)[l]
  {
    if s != [] {
      var t := s[1..];
      KeptPositionsIncrease(t, keep);
      var p' := KeptPositions(t, keep);
      var h := if keep(s[0]) then [0] else [];
      var p := KeptPositions(s, keep);
      assert p == h + Shift(p');
      ShiftIncreasing(h, p');
    }
  }

  /** Shifting increasing positions up by one and putting position 0 in front, or nothing,
      keeps them increasing. */
  lemma ShiftIncreasing(h: seq<nat>, p': seq<nat>)
    requires h == [] || h == [0]
    requires forall k, l :: 0 <= k < l < |p'| ==> p'[k] < p'[l]
    ensures forall k, l :: 0 <= k < l < |h + Shift(p')| ==> (h + Shift(p'))[k] < (h + Shift(p'))[l]
  {
    var p := h + Shift(p');
    forall k, l | 0 <= k < l < |p|
      ensures p[k] < p[l]
    {
      if k >= |h| {
        assert p[k] == p'[k - |h|] + 1 && p[l] == p'[l - |h|] + 1;
      } else {
        assert p[k] == 0 && p[l] == p'[l - 1] + 1;
      }
    }
  }

  /** A position is kept exactly when `keep` accepts the element there. */
  lemma {:induction false} KeptPositionsMembers<T>(s: seq<T>, keep: T -> bool)
    ensures forall j :: 0 <= j < |s| ==> (keep(s[j]) <==> j in KeptPositions(s, keep))
  {
    if s != [] {
      var t := s[1..];
      KeptPositionsMembers(t, keep);
      var p' := KeptPositions(t, keep);
      var q := Shift(p');
      var h := if keep(s[0]) then [0] else [];
      var p := KeptPositions(s, keep);
      assert p == h + q;
      ShiftMembers(p');
      forall j | 0 <= j < |s|
        ensures keep(s[j]) <==> j in p
      {
        if j > 0 {
          assert s[j] == t[j - 1];
        }
      }
    }
  }

  lemma ShiftMembers(p: seq<nat>)
    ensures 0 !in Shift(p)
    ensures forall j: nat :: j in Shift(p) <==> j > 0 && j - 1 in p
  {
    var q := Shift(p);
    forall j: nat
      ensures j in q <==> j > 0 && j - 1 in p
    {
      if j > 0 && j - 1 in p {
        var k :| 0 <= k < |p| && p[k] == j - 1;
        assert q[k] == j;
      }
    }
  }

  /** `Filter` keeps exactly the accepted elements, each once, in their original order:
      its k-th element is `s[P[k]]` for a strictly increasing sequence P of positions,
      and a position is in P exactly when `keep` accepts the element there. */
  lemma FilterPositions<T>(s: seq<T>, keep: T -> bool)
    ensures var r, p := Filter(s, keep), KeptPositions(s, keep);
      && |p| == |r|
      && (forall k :: 0 <= k < |p| ==> p[k] < |s| && r[k] == s[p[k]])
      && (forall k, l :: 0 <= k < l < |p| ==> p[k] < p[l])
      && (forall j :: 0 <= j < |s| ==> (keep(s[j]) <==> j in p))
  {
    KeptPositionsIndex(s, keep);
    KeptPositionsIncrease(s, keep);
    KeptPositionsMembers(s, keep);
  }
}
