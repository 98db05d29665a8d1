/** The boolean combination of two children's hit lists (`CSGObject::intersect_all`).

    The children's hits are merged and sorted by `t`; a sweep along the ray then
    tracks whether the ray is inside the left and the right child and emits a hit
    each time the operation's inside predicate changes. The sweep is specified
    here by parity: the ray is inside a child after an odd number of hits
    classified as that child's. */
module Csg {
  import opened Math
  import opened Core
  import opened Wrappers

  /** Distance in `t` within which a merged hit is attributed to the left child. */
  const Tolerance: real := 0.000001

  /** The inside predicate of each operation. */
  function Inside(op: CsgOperation, inLeft: bool, inRight: bool): bool
  {
    match op
    case Union => inLeft || inRight
    case Intersection => inLeft && inRight
    case Difference => inLeft && !inRight
  }

  /** A hit is classified as the left child's when some left hit lies within
      `Tolerance` of it in `t`. */
  predicate OnLeft(left: seq<HitRecord>, h: HitRecord)
  {
    exists i :: 0 <= i < |left| && Abs(left[i].t - h.t) < Tolerance
  }

  /** Every left hit is classified as left. */
  lemma LeftHitsOnLeft(left: seq<HitRecord>, h: HitRecord)
    requires h in left
    ensures OnLeft(left, h)
  {
    var i :| 0 <= i < |left| && left[i] == h;
    assert Abs(left[i].t - h.t) == 0.0;
  }

  /** The same hit seen from inside the other shape. */
  function Flipped(h: HitRecord): HitRecord
  {
    h.(normal := Neg(h.normal), frontFace := !h.frontFace)
  }

  /** What the sweep emits for hit `h`: in a Difference a right-side hit has
      its normal negated and its face flag flipped; every other hit is copied. */
  function Emit(op: CsgOperation, left: seq<HitRecord>, h: HitRecord): (e: HitRecord)
    ensures e.t == h.t && e.point == h.point && e.material == h.material
    ensures op == Difference && !OnLeft(left, h) ==>
              e.normal == Neg(h.normal) && e.frontFace == !h.frontFace
    ensures !(op == Difference && !OnLeft(left, h)) ==> e == h
  {
    if op == Difference && !OnLeft(left, h) then Flipped(h) else h
  }

  /** Number of hits of `s` classified as left. */
  function LeftCount(left: seq<HitRecord>, s: seq<HitRecord>): (n: nat)
    ensures n <= |s|
  {
    if s == [] then 0
    else LeftCount(left, s[..|s| - 1]) + (if OnLeft(left, s[|s| - 1]) then 1 else 0)
  }

  predicate Odd(n: nat) { n % 2 == 1 }

  /** Whether the ray is inside the combined shape after the first `k` hits. */
  predicate InsideAfter(op: CsgOperation, left: seq<HitRecord>, s: seq<HitRecord>, k: nat)
    requires k <= |s|
  {
    var l := LeftCount(left, s[..k]);
    Inside(op, Odd(l), Odd(k - l))
  }

  /** Hit `k` is a surface of the combined shape. */
  predicate Crosses(op: CsgOperation, left: seq<HitRecord>, s: seq<HitRecord>, k: nat)
    requires k < |s|
  {
    InsideAfter(op, left, s, k) != InsideAfter(op, left, s, k + 1)
  }

  /** The hits the sweep emits from the first `n` hits of `s`. */
  function Swept(op: CsgOperation, left: seq<HitRecord>, s: seq<HitRecord>, n: nat): seq<HitRecord>
    requires n <= |s|
  {
    if n == 0 then []
    else Swept(op, left, s, n - 1) + (if Crosses(op, left, s, n - 1) then [Emit(op, left, s[n - 1])] else [])
  }

  /** Puts `h` before the first element whose `t` is not smaller, so equal
      keys keep their original order. */
  function InsertByT(h: HitRecord, s: seq<HitRecord>): (r: seq<HitRecord>)
    requires SortedByT(s)
    ensures SortedByT(r)
    ensures |r| == |s| + 1
    ensures forall i :: 0 <= i < |r| ==> r[i] == h || r[i] in s
  {
    if s == [] || h.t <= s[0].t then
      ConsSorted(h, s);
      [h] + s
    else
      var rest := InsertByT(h, s[1..]);
      assert s == [s[0]] + s[1..];
      assert forall x :: x in s[1..] ==> s[0].t <= x.t;
      ConsSorted(s[0], rest);
      [s[0]] + rest
  }

  /** Inserting adds `h` and loses nothing. */
  lemma {:induction false} InsertByTPermutes(h: HitRecord, s: seq<HitRecord>)
    requires SortedByT(s)
    ensures multiset(InsertByT(h, s)) == multiset(s) + multiset{h}
  {
    if s != [] && h.t > s[0].t {
      InsertByTPermutes(h, s[1..]);
      assert s == [s[0]] + s[1..];
    }
  }

  /** A hit no later than every hit of a sorted list can go in front of it. */
  lemma ConsSorted(x: HitRecord, s: seq<HitRecord>)
    requires SortedByT(s) && (s == [] || x.t <= s[0].t || forall y :: y in s ==> x.t <= y.t)
    ensures SortedByT([x] + s)
  {
    var r := [x] + s;
    forall i, j | 0 <= i < j < |r|
      ensures r[i].t <= r[j].t
    {
      assert r[j] == s[j - 1] && r[j] in s;
      if i > 0 {
        assert r[i] == s[i - 1];
      }
    }
  }

  /** The stable sort by `t` (`sort_by` with `partial_cmp` on `t`). */
  function SortByT(s: seq<HitRecord>): (r: seq<HitRecord>)
    ensures SortedByT(r)
    ensures multiset(r) == multiset(s)
    ensures |r| == |s|
  {
    if s == [] then []
    else
      assert s == [s[0]] + s[1..];
      InsertByTPermutes(s[0], SortByT(s[1..]));
      InsertByT(s[0], SortByT(s[1..]))
  }

  /** Classifying one more hit adds one to the left count exactly when that
      hit is on the left. */
  lemma LeftCountStep(left: seq<HitRecord>, s: seq<HitRecord>, k: nat)
    requires k < |s|
    ensures LeftCount(left, s[..k + 1]) == LeftCount(left, s[..k]) + (if OnLeft(left, s[k]) then 1 else 0)
  {
    assert s[..k + 1][..k] == s[..k];
  }

  lemma OddSucc(n: nat)
    ensures Odd(n + 1) == !Odd(n)
  {
  }

  /** One step of the sweep: the flags after hit `k` are the flags before it
      with the owning child's toggled, and hit `k` is emitted exactly when the
      inside predicate changes. */
  lemma SweptStep(op: CsgOperation, left: seq<HitRecord>, s: seq<HitRecord>, k: nat,
                  inLeft: bool, inRight: bool, inLeft': bool, inRight': bool)
    requires k < |s|
    requires inLeft == Odd(LeftCount(left, s[..k]))
    requires inRight == Odd(k - LeftCount(left, s[..k]))
    requires inLeft' == if OnLeft(left, s[k]) then !inLeft else inLeft
    requires inRight' == if OnLeft(left, s[k]) then inRight else !inRight
    ensures inLeft' == Odd(LeftCount(left, s[..k + 1]))
    ensures inRight' == Odd(k + 1 - LeftCount(left, s[..k + 1]))
  {
    var l := LeftCount(left, s[..k]);
    LeftCountStep(left, s, k);
    OddSucc(l);
    OddSucc(k - l);
  }

  /** Hit `k` is a crossing exactly when the inside predicate differs
      between the flags before it and the flags after it. */
  lemma CrossesByFlags(op: CsgOperation, left: seq<HitRecord>, s: seq<HitRecord>, k: nat,
                       inLeft: bool, inRight: bool, inLeft': bool, inRight': bool)
    requires k < |s|
    requires inLeft == Odd(LeftCount(left, s[..k])) && inRight == Odd(k - LeftCount(left, s[..k]))
    requires inLeft' == Odd(LeftCount(left, s[..k + 1])) && inRight' == Odd(k + 1 - LeftCount(left, s[..k + 1]))
    ensures Crosses(op, left, s, k) == (Inside(op, inLeft, inRight) != Inside(op, inLeft', inRight'))
  {
  }

  lemma SweptSnoc(op: CsgOperation, left: seq<HitRecord>, s: seq<HitRecord>, k: nat)
    requires k < |s|
    ensures Swept(op, left, s, k + 1)
            == Swept(op, left, s, k) + if Crosses(op, left, s, k) then [Emit(op, left, s[k])] else []
  {
  }

  /** The result of combining the children's answers with `op`. */
  function Combine(op: CsgOperation, left: Option<seq<HitRecord>>, right: Option<seq<HitRecord>>): (r: Option<seq<HitRecord>>)
    ensures r != Some([])
  {
    var hitsLeft := left.GetOr([]);
    var all := SortByT(hitsLeft + right.GetOr([]));
    var out := Swept(op, hitsLeft, all, |all|);
    if out == [] then None else Some(out)
  }

  /** The sweep as the program runs it (`CSGObject::intersect_all`): the
      children's hits are merged, sorted, and swept with two flags. */
  method IntersectAll(op: CsgOperation, left: Option<seq<HitRecord>>, right: Option<seq<HitRecord>>)
    returns (r: Option<seq<HitRecord>>)
    ensures r == Combine(op, left, right)
  {
    var hitsLeft := left.GetOr([]);
    var hitsRight := right.GetOr([]);
    var allHits := SortByT(hitsLeft + hitsRight);
    var resultHits := Sweep(op, hitsLeft, allHits);
    if resultHits == [] {
      r := None;
    } else {
      r := Some(resultHits);
    }
  }

  /** The loop of `intersect_all`: toggles the flag of the child owning each
      hit and emits the hit whenever the inside predicate changes. */
  method Sweep(op: CsgOperation, hitsLeft: seq<HitRecord>, allHits: seq<HitRecord>)
    returns (resultHits: seq<HitRecord>)
    ensures resultHits == Swept(op, hitsLeft, allHits, |allHits|)
  {
    resultHits := [];
    var inLeft, inRight := false, false;
    for i := 0 to |allHits|
      invariant inLeft == Odd(LeftCount(hitsLeft, allHits[..i]))
      invariant inRight == Odd(i - LeftCount(hitsLeft, allHits[..i]))
      invariant resultHits == Swept(op, hitsLeft, allHits, i)
    {
      var hit := allHits[i];
      var hitIsOnLeft := OnLeft(hitsLeft, hit);
      ghost var wasLeft, wasRight := inLeft, inRight;
      var wasInside := Inside(op, inLeft, inRight);
      if hitIsOnLeft {
        inLeft := !inLeft;
      } else {
        inRight := !inRight;
      }
      SweptStep(op, hitsLeft, allHits, i, wasLeft, wasRight, inLeft, inRight);
      CrossesByFlags(op, hitsLeft, allHits, i, wasLeft, wasRight, inLeft, inRight);
      SweptSnoc(op, hitsLeft, allHits, i);
      var isInside := Inside(op, inLeft, inRight);
      if wasInside != isInside {
        if op == Difference && !hitIsOnLeft {
          resultHits := resultHits + [hit.(normal := Neg(hit.normal), frontFace := !hit.frontFace)];
        } else {
          resultHits := resultHits + [hit];
        }
      }
    }
  }

  /** The positions among the first `n` hits of `s` at which the sweep crosses
      a surface of the combined shape, in increasing order. */
  function Crossings(op: CsgOperation, left: seq<HitRecord>, s: seq<HitRecord>, n: nat): (r: seq<nat>)
    requires n <= |s|
    ensures |r| <= n
    ensures forall j :: 0 <= j < |r| ==> r[j] < n
    ensures forall i, j :: 0 <= i < j < |r| ==> r[i] < r[j]
    ensures forall k :: 0 <= k < n ==> (k in r <==> Crosses(op, left, s, k))
  {
    if n == 0 then []
    else Crossings(op, left, s, n - 1) + (if Crosses(op, left, s, n - 1) then [n - 1] else [])
  }

  /** The sweep emits, in order, exactly the hits at the crossing positions,
      each passed through `Emit`: a subsequence of the merged, sorted hits. */
  lemma {:induction false} SweptAtCrossings(op: CsgOperation, left: seq<HitRecord>, s: seq<HitRecord>, n: nat)
    requires n <= |s|
    ensures |Swept(op, left, s, n)| == |Crossings(op, left, s, n)|
    ensures forall j :: 0 <= j < |Swept(op, left, s, n)| ==>
              Swept(op, left, s, n)[j] == Emit(op, left, s[Crossings(op, left, s, n)[j]])
  {
    if n > 0 {
      SweptAtCrossings(op, left, s, n - 1);
      var crosses := Crosses(op, left, s, n - 1);
      AlignedSnoc(op, left, s, Swept(op, left, s, n - 1), Crossings(op, left, s, n - 1), crosses, n - 1);
    }
  }

  /** Appending hit `k` (or nothing) to an emitted sequence and `k` (or
      nothing) to its positions keeps the two aligned. */
  lemma AlignedSnoc(op: CsgOperation, left: seq<HitRecord>, s: seq<HitRecord>,
                    out: seq<HitRecord>, at: seq<nat>, crosses: bool, k: nat)
    requires k < |s|
    requires |out| == |at| && forall j :: 0 <= j < |at| ==> at[j] < |s|
    requires forall j :: 0 <= j < |out| ==> out[j] == Emit(op, left, s[at[j]])
    ensures var out' := out + (if crosses then [Emit(op, left, s[k])] else []);
            var at' := at + (if crosses then [k] else []);
            && |out'| == |at'|
            && forall j :: 0 <= j < |out'| ==> at'[j] < |s| && out'[j] == Emit(op, left, s[at'[j]])
  {
  }

  /** Sweeping hits sorted by `t` emits hits sorted by `t`. */
  lemma SweptSorted(op: CsgOperation, left: seq<HitRecord>, s: seq<HitRecord>, n: nat)
    requires n <= |s| && SortedByT(s)
    ensures SortedByT(Swept(op, left, s, n))
  {
    SweptAtCrossings(op, left, s, n);
    var c := Crossings(op, left, s, n);
    var out := Swept(op, left, s, n);
    forall i, j | 0 <= i < j < |out|
      ensures out[i].t <= out[j].t
    {
      assert out[i].t == s[c[i]].t && out[j].t == s[c[j]].t;
    }
  }

  /** A sweep without crossings emits nothing. */
  lemma SweptEmptyWithoutCrossings(op: CsgOperation, left: seq<HitRecord>, s: seq<HitRecord>, n: nat)
    requires n <= |s|
    requires forall k :: 0 <= k < n ==> !Crosses(op, left, s, k)
    ensures Swept(op, left, s, n) == []
  {
    SweptAtCrossings(op, left, s, n);
  }

  /** The combined answer is sorted by `t`, no longer than both children's
      answers together, and made of the children's hits passed through `Emit`. */
  lemma CombineShape(op: CsgOperation, left: Option<seq<HitRecord>>, right: Option<seq<HitRecord>>)
    ensures var r := Combine(op, left, right);
            r.Some? ==>
              && SortedByT(r.value)
              && |r.value| <= |left.GetOr([])| + |right.GetOr([])|
              && forall e :: e in r.value ==>
                   exists h :: h in left.GetOr([]) + right.GetOr([]) && e == Emit(op, left.GetOr([]), h)
  {
    var hl, hr := left.GetOr([]), right.GetOr([]);
    var all := SortByT(hl + hr);
    var out := Swept(op, hl, all, |all|);
    SweptSorted(op, hl, all, |all|);
    SweptAtCrossings(op, hl, all, |all|);
    var c := Crossings(op, hl, all, |all|);
    forall e | e in out
      ensures exists h :: h in hl + hr && e == Emit(op, hl, h)
    {
      var j :| 0 <= j < |out| && out[j] == e;
      var h := all[c[j]];
      assert h in multiset(all);
      assert h in hl + hr;
    }
  }

  /** With no left hits, no hit is classified left. */
  lemma {:induction false} LeftCountNoLeft(s: seq<HitRecord>)
    ensures LeftCount([], s) == 0
  {
    if s != [] {
      LeftCountNoLeft(s[..|s| - 1]);
    }
  }

  /** When every hit is classified left, the left count is the length. */
  lemma {:induction false} LeftCountAllLeft(left: seq<HitRecord>, s: seq<HitRecord>)
    requires forall i :: 0 <= i < |s| ==> OnLeft(left, s[i])
    ensures LeftCount(left, s) == |s|
  {
    if s != [] {
      LeftCountAllLeft(left, s[..|s| - 1]);
    }
  }

  /** Hits that all come from the left child are all classified left. */
  lemma FromLeftCount(hl: seq<HitRecord>, all: seq<HitRecord>, k: nat)
    requires forall i :: 0 <= i < |all| ==> all[i] in hl
    requires k <= |all|
    ensures LeftCount(hl, all[..k]) == k
  {
    forall i | 0 <= i < |all[..k]|
      ensures OnLeft(hl, all[..k][i])
    {
      LeftHitsOnLeft(hl, all[i]);
    }
    LeftCountAllLeft(hl, all[..k]);
  }

  /** The merge of a child's hits with no hits holds only that child's hits. */
  lemma MergedFromLeft(hl: seq<HitRecord>, hr: seq<HitRecord>)
    requires hr == []
    ensures forall i :: 0 <= i < |SortByT(hl + hr)| ==> SortByT(hl + hr)[i] in hl
  {
    var all := SortByT(hl + hr);
    assert hl + hr == hl;
    forall i | 0 <= i < |all|
      ensures all[i] in hl
    {
      assert all[i] in multiset(hl);
    }
  }

  /** In an intersection, hit `k` is no crossing when either child has no hits. */
  lemma IntersectionNoCrossing(hl: seq<HitRecord>, all: seq<HitRecord>, k: nat)
    requires k < |all|
    requires hl == [] || forall i :: 0 <= i < |all| ==> all[i] in hl
    ensures !Crosses(Intersection, hl, all, k)
  {
    if hl == [] {
      LeftCountNoLeft(all[..k]);
      LeftCountNoLeft(all[..k + 1]);
    } else {
      FromLeftCount(hl, all, k);
      FromLeftCount(hl, all, k + 1);
    }
  }

  /** An intersection with a child that reports no hits reports none. */
  lemma IntersectionWithEmpty(left: Option<seq<HitRecord>>, right: Option<seq<HitRecord>>)
    requires left.GetOr([]) == [] || right.GetOr([]) == []
    ensures Combine(Intersection, left, right) == None
  {
    var hl, hr := left.GetOr([]), right.GetOr([]);
    var all := SortByT(hl + hr);
    if hr == [] {
      MergedFromLeft(hl, hr);
    }
    forall k | 0 <= k < |all|
      ensures !Crosses(Intersection, hl, all, k)
    {
      IntersectionNoCrossing(hl, all, k);
    }
    SweptEmptyWithoutCrossings(Intersection, hl, all, |all|);
  }

  /** A union, or a difference, with a right child that reports no hits
      emits every left hit unchanged, in sorted order. */
  lemma UnionOrDifferenceWithEmptyRight(op: CsgOperation, left: Option<seq<HitRecord>>, right: Option<seq<HitRecord>>)
    requires op != Intersection && right.GetOr([]) == []
    ensures var hl := left.GetOr([]);
            Combine(op, left, right) == if hl == [] then None else Some(SortByT(hl))
  {
    var hl, hr := left.GetOr([]), right.GetOr([]);
    var all := SortByT(hl + hr);
    MergedFromLeft(hl, hr);
    SweptFromLeft(op, hl, all, |all|);
    assert all[..|all|] == all;
    assert hl + hr == hl;
  }

  /** Every prefix of the sweep over hits of the left child alone copies the prefix. */
  lemma {:induction false} SweptFromLeft(op: CsgOperation, hl: seq<HitRecord>, all: seq<HitRecord>, n: nat)
    requires op != Intersection && n <= |all|
    requires forall i :: 0 <= i < |all| ==> all[i] in hl
    ensures Swept(op, hl, all, n) == all[..n]
  {
    if n > 0 {
      SweptFromLeft(op, hl, all, n - 1);
      LeftOnlyCrosses(op, hl, all, n - 1);
      SweptSnoc(op, hl, all, n - 1);
      assert all[..n] == all[..n - 1] + [all[n - 1]];
    }
  }

  /** In a union or difference over hits of the left child alone, every hit
      is a crossing and is emitted as it is. */
  lemma LeftOnlyCrosses(op: CsgOperation, hl: seq<HitRecord>, all: seq<HitRecord>, k: nat)
    requires op != Intersection && k < |all|
    requires forall i :: 0 <= i < |all| ==> all[i] in hl
    ensures Crosses(op, hl, all, k) && Emit(op, hl, all[k]) == all[k]
  {
    FromLeftCount(hl, all, k);
    FromLeftCount(hl, all, k + 1);
    OddSucc(k);
    LeftHitsOnLeft(hl, all[k]);
  }

  /** The stable sort leaves an already sorted list as it is. */
  lemma {:induction false} SortByTOfSorted(s: seq<HitRecord>)
    requires SortedByT(s)
    ensures SortByT(s) == s
  {
    if s != [] {
      SortByTOfSorted(s[1..]);
      assert s == [s[0]] + s[1..];
    }
  }

  /** In a difference, a right hit at the same `t` as a left hit counts as the
      left child's and is emitted without flipping. */
  lemma CoincidentRightHitIsLeft(left: seq<HitRecord>, h: HitRecord, i: nat)
    requires i < |left| && left[i].t == h.t
    ensures OnLeft(left, h)
    ensures Emit(Difference, left, h) == h
  {
    assert Abs(left[i].t - h.t) < Tolerance;
  }
}
