/** Byte ranges: reception claims, how the tracker merges them and how gaps are found. */
module Ranges {
  import opened Basics

  /** The bytes `offset .. offset + length - 1`. */
  datatype Claim = Claim(offset: nat, length: nat) {
    function End(): nat { offset + length }

    predicate Has(x: nat) { offset <= x < offset + length }
  }

  /** Some claim of the list contains byte `x`. */
  ghost predicate Covers(r: seq<Claim>, x: nat) {
    exists i :: 0 <= i < |r| && r[i].Has(x)
  }

  /** Sorted, non-empty, neither overlapping nor adjacent. */
  predicate Canonical(r: seq<Claim>) {
    && (forall i :: 0 <= i < |r| ==> r[i].length > 0)
    && (forall i, j :: 0 <= i < j < |r| ==> r[i].End() < r[j].offset)
  }

  /** Sorted, non-empty and not overlapping; ranges may touch. */
  predicate SortedDisjoint(r: seq<Claim>) {
    && (forall i :: 0 <= i < |r| ==> r[i].length > 0)
    && (forall i, j :: 0 <= i < j < |r| ==> r[i].End() <= r[j].offset)
  }

  /** All claims lie in [lo, hi). */
  predicate Within(r: seq<Claim>, lo: nat, hi: nat) {
    forall i :: 0 <= i < |r| ==> lo <= r[i].offset && r[i].End() <= hi
  }

  // ----- inserting a range -----

  /** Absorb every range that starts no later than the end of [s, e), then put the result in front. */
  function Merge(r: seq<Claim>, s: nat, e: nat): seq<Claim>
    requires s <= e
    decreases |r|
  {
    if |r| > 0 && r[0].offset <= e then Merge(r[1..], Min(s, r[0].offset), Max(e, r[0].End()))
    else [Claim(s, e - s)] + r
  }

  /** Skip the ranges that end strictly before `s`, then merge. */
  function SkipMerge(r: seq<Claim>, s: nat, e: nat): seq<Claim>
    requires s <= e
    decreases |r|
  {
    if |r| > 0 && r[0].End() < s then [r[0]] + SkipMerge(r[1..], s, e) else Merge(r, s, e)
  }

  function AddRange(r: seq<Claim>, offset: nat, length: nat): seq<Claim> {
    if length == 0 then r else SkipMerge(r, offset, offset + length)
  }

  lemma CoversCons(c: Claim, r: seq<Claim>, x: nat)
    ensures Covers([c] + r, x) <==> c.Has(x) || Covers(r, x)
  {
    var l := [c] + r;
    if Covers(l, x) {
      var i :| 0 <= i < |l| && l[i].Has(x);
      if i > 0 { assert r[i - 1].Has(x); }
    }
    if c.Has(x) { assert l[0].Has(x); }
    if Covers(r, x) {
      var i :| 0 <= i < |r| && r[i].Has(x);
      assert l[i + 1].Has(x);
    }
  }

  lemma CoversSplit(r: seq<Claim>, x: nat)
    requires |r| > 0
    ensures Covers(r, x) <==> r[0].Has(x) || Covers(r[1..], x)
  {
    assert r == [r[0]] + r[1..];
    CoversCons(r[0], r[1..], x);
  }

  lemma {:induction false} MergeIsCanonical(r: seq<Claim>, s: nat, e: nat)
    requires Canonical(r) && s < e
    ensures Canonical(Merge(r, s, e)) && |Merge(r, s, e)| > 0
    ensures Merge(r, s, e)[0].offset <= s
    ensures |r| > 0 && s <= r[0].offset ==> Merge(r, s, e)[0].offset == s
    ensures |r| > 0 && r[0].offset < s ==> Merge(r, s, e)[0].offset >= r[0].offset
    ensures |r| == 0 ==> Merge(r, s, e)[0].offset == s
    decreases |r|
  {
    if |r| > 0 && r[0].offset <= e {
      MergeIsCanonical(r[1..], Min(s, r[0].offset), Max(e, r[0].End()));
    }
  }

  lemma {:induction false} MergeCovers(r: seq<Claim>, s: nat, e: nat, x: nat)
    requires Canonical(r) && s < e
    requires |r| > 0 ==> s <= r[0].End()
    ensures Covers(Merge(r, s, e), x) <==> Covers(r, x) || s <= x < e
    decreases |r|
  {
    if |r| > 0 && r[0].offset <= e {
      MergeCovers(r[1..], Min(s, r[0].offset), Max(e, r[0].End()), x);
      CoversSplit(r, x);
    } else {
      CoversCons(Claim(s, e - s), r, x);
    }
  }

  lemma {:induction false} SkipMergeIsCanonical(r: seq<Claim>, s: nat, e: nat)
    requires Canonical(r) && s < e
    ensures Canonical(SkipMerge(r, s, e))
    ensures |SkipMerge(r, s, e)| > 0
    ensures |r| > 0 ==> SkipMerge(r, s, e)[0].offset >= Min(s, r[0].offset)
    ensures |r| == 0 ==> SkipMerge(r, s, e)[0].offset == s
    decreases |r|
  {
    if |r| > 0 && r[0].End() < s {
      SkipMergeIsCanonical(r[1..], s, e);
    } else {
      MergeIsCanonical(r, s, e);
    }
  }

  lemma {:induction false} SkipMergeCovers(r: seq<Claim>, s: nat, e: nat, x: nat)
    requires Canonical(r) && s < e
    ensures Covers(SkipMerge(r, s, e), x) <==> Covers(r, x) || s <= x < e
    decreases |r|
  {
    if |r| > 0 && r[0].End() < s {
      SkipMergeCovers(r[1..], s, e, x);
      CoversCons(r[0], SkipMerge(r[1..], s, e), x);
      CoversSplit(r, x);
    } else {
      MergeCovers(r, s, e, x);
    }
  }

  /** The tracker refines a byte set: adding a range adds exactly its bytes and keeps the list canonical. */
  lemma AddRangeRefinesSet(r: seq<Claim>, offset: nat, length: nat)
    requires Canonical(r)
    ensures Canonical(AddRange(r, offset, length))
    ensures forall x: nat :: Covers(AddRange(r, offset, length), x) <==> Covers(r, x) || offset <= x < offset + length
  {
    if length > 0 {
      SkipMergeIsCanonical(r, offset, offset + length);
      forall x: nat
        ensures Covers(AddRange(r, offset, length), x) <==> Covers(r, x) || offset <= x < offset + length
      {
        SkipMergeCovers(r, offset, offset + length, x);
      }
    }
  }

  // ----- the list is determined by its bytes -----

  lemma FirstByte(r: seq<Claim>, x: nat)
    requires Canonical(r) && Covers(r, x)
    ensures |r| > 0 && r[0].offset <= x && Covers(r, r[0].offset)
  {
    assert r[0].Has(r[0].offset);
  }

  lemma FirstHole(r: seq<Claim>)
    requires Canonical(r) && |r| > 0
    ensures !Covers(r, r[0].End())
  {
  }

  lemma TailCovers(r: seq<Claim>, x: nat)
    requires Canonical(r) && |r| > 0
    ensures Canonical(r[1..])
    ensures Covers(r[1..], x) <==> Covers(r, x) && x >= r[0].End()
  {
    CoversSplit(r, x);
  }

  /** Two canonical lists with the same bytes are the same list. */
  lemma {:induction false} CanonicalIsUnique(a: seq<Claim>, b: seq<Claim>)
    requires Canonical(a) && Canonical(b)
    requires forall x: nat :: Covers(a, x) <==> Covers(b, x)
    ensures a == b
    decreases |a|
  {
    if |a| == 0 {
      if |b| > 0 {
        assert b[0].Has(b[0].offset);
        assert Covers(b, b[0].offset);
      }
    } else {
      assert a[0].Has(a[0].offset);
      assert Covers(b, a[0].offset);
      FirstByte(b, a[0].offset);
      FirstByte(a, b[0].offset);
      FirstHole(a);
      FirstHole(b);
      SameFirstEnd(a, b);
      forall x: nat ensures Covers(a[1..], x) <==> Covers(b[1..], x) {
        TailCovers(a, x);
        TailCovers(b, x);
      }
      CanonicalIsUnique(a[1..], b[1..]);
      assert a == [a[0]] + a[1..] && b == [b[0]] + b[1..];
    }
  }

  lemma SameFirstEnd(a: seq<Claim>, b: seq<Claim>)
    requires Canonical(a) && Canonical(b) && |a| > 0 && |b| > 0
    requires forall x: nat :: Covers(a, x) <==> Covers(b, x)
    requires a[0].offset == b[0].offset
    ensures a[0] == b[0]
  {
    FirstHole(a);
    FirstHole(b);
    var f, g := a[0], b[0];
    assert f.End() < g.End() ==> g.Has(f.End());
    assert g.End() < f.End() ==> f.Has(g.End());
  }

  /** Any order and any repetition of the same insertions leads to the identical list. */
  function AddAll(r: seq<Claim>, inserts: seq<Claim>): seq<Claim> {
    if |inserts| == 0 then r
    else AddRange(AddAll(r, inserts[..|inserts| - 1]), inserts[|inserts| - 1].offset, inserts[|inserts| - 1].length)
  }

  lemma {:induction false} AddAllRefinesSet(inserts: seq<Claim>)
    ensures Canonical(AddAll([], inserts))
    ensures forall x: nat :: Covers(AddAll([], inserts), x) <==> Covers(inserts, x)
  {
    if |inserts| > 0 {
      var n := |inserts| - 1;
      AddAllRefinesSet(inserts[..n]);
      AddRangeRefinesSet(AddAll([], inserts[..n]), inserts[n].offset, inserts[n].length);
      forall x: nat ensures Covers(inserts, x) <==> Covers(inserts[..n], x) || inserts[n].Has(x) {
        if Covers(inserts, x) {
          var i :| 0 <= i < |inserts| && inserts[i].Has(x);
          if i < n { assert inserts[..n][i].Has(x); }
        }
        if Covers(inserts[..n], x) {
          var i :| 0 <= i < n && inserts[..n][i].Has(x);
          assert inserts[i].Has(x);
        }
      }
    }
  }

  lemma InsertionOrderIsIrrelevant(a: seq<Claim>, b: seq<Claim>)
    requires forall c :: c in a <==> c in b
    ensures AddAll([], a) == AddAll([], b)
  {
    AddAllRefinesSet(a);
    AddAllRefinesSet(b);
    forall x: nat ensures Covers(a, x) <==> Covers(b, x) {
      if Covers(a, x) {
        var i :| 0 <= i < |a| && a[i].Has(x);
        assert a[i] in b;
        var j :| 0 <= j < |b| && b[j] == a[i];
        assert b[j].Has(x);
      }
      if Covers(b, x) {
        var i :| 0 <= i < |b| && b[i].Has(x);
        assert b[i] in a;
        var j :| 0 <= j < |a| && a[j] == b[i];
        assert a[j].Has(x);
      }
    }
    CanonicalIsUnique(AddAll([], a), AddAll([], b));
  }

  // ----- totals and completeness -----

  function Interval(lo: nat, n: nat): (s: set<nat>)
    ensures forall x: nat :: x in s <==> lo <= x < lo + n
    ensures |s| == n
  {
    if n == 0 then {} else Interval(lo, n - 1) + {lo + n - 1}
  }

  function Bytes(r: seq<Claim>): (s: set<nat>) {
    if |r| == 0 then {}
    else Bytes(r[..|r| - 1]) + Interval(r[|r| - 1].offset, r[|r| - 1].length)
  }

  lemma {:induction false} BytesAreCovered(r: seq<Claim>, x: nat)
    ensures x in Bytes(r) <==> Covers(r, x)
  {
    if |r| > 0 {
      var n := |r| - 1;
      BytesAreCovered(r[..n], x);
      if Covers(r[..n], x) {
        var i :| 0 <= i < n && r[..n][i].Has(x);
        assert r[i].Has(x);
      }
      if Covers(r, x) && !r[n].Has(x) {
        var i :| 0 <= i < |r| && r[i].Has(x);
        assert r[..n][i].Has(x);
      }
      if r[n].Has(x) { assert Covers(r, x); }
    }
  }

  function TotalLength(r: seq<Claim>): nat {
    if |r| == 0 then 0 else TotalLength(r[..|r| - 1]) + r[|r| - 1].length
  }

  /** The sum of the range lengths is the number of bytes received. */
  lemma {:induction false} TotalIsByteCount(r: seq<Claim>)
    requires Canonical(r)
    ensures TotalLength(r) == |Bytes(r)|
  {
    if |r| > 0 {
      var n := |r| - 1;
      TotalIsByteCount(r[..n]);
      var last := Interval(r[n].offset, r[n].length);
      forall x | x in Bytes(r[..n]) ensures x !in last {
        BytesAreCovered(r[..n], x);
      }
      assert Bytes(r[..n]) !! last;
    }
  }

  predicate IsComplete(r: seq<Claim>, total: nat) {
    total == 0 || (|r| == 1 && r[0].offset == 0 && r[0].length >= total)
  }

  /** The code's test says: everything below `total` is covered and the list is one range. */
  lemma CompleteMeansCovered(r: seq<Claim>, total: nat)
    requires Canonical(r)
    ensures IsComplete(r, total) <==> total == 0 || ((forall x: nat :: x < total ==> Covers(r, x)) && |r| == 1)
  {
    if total > 0 && |r| == 1 {
      if forall x: nat :: x < total ==> Covers(r, x) {
        assert Covers(r, 0);
        assert Covers(r, total - 1);
      }
      if IsComplete(r, total) {
        forall x: nat | x < total ensures Covers(r, x) {
          assert r[0].Has(x);
        }
      }
    }
  }

  /** With nothing tracked beyond the block, the test is exact. */
  lemma CompleteIffCovered(r: seq<Claim>, total: nat)
    requires Canonical(r) && Within(r, 0, total)
    ensures IsComplete(r, total) <==> forall x: nat :: x < total ==> Covers(r, x)
    ensures total > 0 && IsComplete(r, total) ==> r == [Claim(0, total)]
  {
    CompleteMeansCovered(r, total);
    if total > 0 && forall x: nat :: x < total ==> Covers(r, x) {
      assert Covers(r, 0);
      FirstByte(r, 0);
      FirstHole(r);
      assert r[0].End() >= total;
      assert |r| > 1 ==> r[0].End() < r[1].offset;
    }
  }

  /** Without that restriction it is not: a covered block goes unnoticed when a later range exists. */
  lemma CompleteMissesLaterRange()
    ensures var r := [Claim(0, 10), Claim(20, 10)];
            Canonical(r) && (forall x: nat :: x < 10 ==> Covers(r, x)) && !IsComplete(r, 10)
  {
    var r := [Claim(0, 10), Claim(20, 10)];
    forall x: nat | x < 10 ensures Covers(r, x) {
      assert r[0].Has(x);
    }
  }

  // ----- gaps -----

  /** The cursor walk of `compute_gaps` and `get_gaps`. */
  function Gaps(claims: seq<Claim>, cursor: nat, upper: nat): seq<Claim>
    decreases |claims|
  {
    if cursor >= upper then []
    else if |claims| == 0 then [Claim(cursor, upper - cursor)]
    else
      var c := claims[0];
      if c.End() <= cursor then Gaps(claims[1..], cursor, upper)
      else (if c.offset > cursor then [Claim(cursor, Min(c.offset, upper) - cursor)] else [])
           + Gaps(claims[1..], c.End(), upper)
  }

  /** For any claim list at all, gaps lie in the scope and no byte of the scope is left out. */
  lemma {:induction false} GapsCoverTheRest(claims: seq<Claim>, cursor: nat, upper: nat)
    ensures Within(Gaps(claims, cursor, upper), cursor, upper)
    ensures forall x: nat :: cursor <= x < upper ==> Covers(claims, x) || Covers(Gaps(claims, cursor, upper), x)
    decreases |claims|
  {
    var g := Gaps(claims, cursor, upper);
    if cursor >= upper {
    } else if |claims| == 0 {
      forall x: nat | cursor <= x < upper ensures Covers(g, x) {
        assert g[0].Has(x);
      }
    } else {
      var c := claims[0];
      var next := if c.End() <= cursor then cursor else c.End();
      var rest := Gaps(claims[1..], next, upper);
      GapsCoverTheRest(claims[1..], next, upper);
      forall x: nat | cursor <= x < upper ensures Covers(claims, x) || Covers(g, x) {
        CoversSplit(claims, x);
        if c.End() > cursor && c.offset > cursor {
          CoversCons(Claim(cursor, Min(c.offset, upper) - cursor), rest, x);
        } else {
          assert g == rest;
        }
      }
    }
  }

  lemma NothingBefore(claims: seq<Claim>, x: nat)
    requires SortedDisjoint(claims) && |claims| > 0 && x < claims[0].offset
    ensures !Covers(claims, x)
  {
  }

  /** A gap in front of later ones keeps them sorted and apart. */
  lemma GapInFront(gap: Claim, rest: seq<Claim>, lower: nat, upper: nat)
    requires gap.length > 0 && gap.End() < lower && Canonical(rest) && Within(rest, lower, upper)
    ensures Canonical([gap] + rest)
  {
  }

  lemma TailIsSorted(claims: seq<Claim>)
    requires SortedDisjoint(claims) && |claims| > 0
    ensures claims[0].length > 0 && SortedDisjoint(claims[1..])
  {
  }

  /** For sorted disjoint claims the gaps are exactly the uncovered bytes of the scope, and they
      are themselves sorted, non-empty, disjoint and non-adjacent. */
  lemma {:induction false} GapsAreExact(claims: seq<Claim>, cursor: nat, upper: nat)
    requires SortedDisjoint(claims)
    ensures Canonical(Gaps(claims, cursor, upper))
    ensures forall x: nat :: Covers(Gaps(claims, cursor, upper), x) <==> cursor <= x < upper && !Covers(claims, x)
    decreases |claims|
  {
    GapsCoverTheRest(claims, cursor, upper);
    if cursor < upper && |claims| > 0 {
      hide Covers, Canonical, SortedDisjoint, Within;
      var c := claims[0];
      var next := if c.End() <= cursor then cursor else c.End();
      var rest := Gaps(claims[1..], next, upper);
      TailIsSorted(claims);
      GapsAreExact(claims[1..], next, upper);
      GapsCoverTheRest(claims[1..], next, upper);
      var gap := Claim(cursor, Max(cursor, Min(c.offset, upper)) - cursor);
      var g := Gaps(claims, cursor, upper);
      if gap.length > 0 {
        assert g == [gap] + rest;
        GapInFront(gap, rest, next, upper);
      } else {
        assert g == [] + rest == rest;
      }
      forall x: nat | Covers(g, x) ensures cursor <= x < upper && !Covers(claims, x) {
        CoversSplit(claims, x);
        CoversCons(gap, rest, x);
        if x < c.offset { NothingBefore(claims, x); }
      }
    }
  }
}
