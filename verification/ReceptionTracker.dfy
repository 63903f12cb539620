/** The reception tracker, src/ltp_cla/reception_tracker.cpp. */
module ReceptionTrackers {
  import opened Basics
  import opened Ranges

  class ReceptionTracker {
    var ranges: seq<Claim>

    ghost predicate Valid()
      reads this
    {
      Canonical(ranges)
    }

    constructor ()
      ensures Valid() && ranges == []
    {
      ranges := [];
    }

    /** Skip, merge in place, insert. The new list is canonical and holds exactly the old bytes and
        the new ones; by CanonicalIsUnique that determines it. */
    method AddRange(offset: nat, length: nat)
      requires Valid()
      modifies this
      ensures Valid()
      ensures ranges == Ranges.AddRange(old(ranges), offset, length)
      ensures forall x: nat :: Covers(ranges, x) <==> Covers(old(ranges), x) || offset <= x < offset + length
    {
      AddRangeRefinesSet(ranges, offset, length);
      if length == 0 { return; }
      var it := SkipBefore(offset, offset + length);
      MergeFrom(it, offset, offset + length);
    }

    /** First range that could overlap or touch: skip those ending strictly before `newStart`. */
    method SkipBefore(newStart: nat, ghost newEnd: nat) returns (it: nat)
      requires newStart <= newEnd
      ensures it <= |ranges|
      ensures SkipMerge(ranges, newStart, newEnd) == ranges[..it] + Merge(ranges[it..], newStart, newEnd)
    {
      hide Merge;
      it := 0;
      while it < |ranges| && ranges[it].End() < newStart
        invariant it <= |ranges|
        invariant SkipMerge(ranges, newStart, newEnd) == ranges[..it] + SkipMerge(ranges[it..], newStart, newEnd)
      {
        ghost var tail := ranges[it..];
        assert tail[0] == ranges[it] && tail[1..] == ranges[it + 1..];
        assert ranges[..it + 1] == ranges[..it] + [tail[0]];
        it := it + 1;
      }
      assert it < |ranges| ==> ranges[it..][0] == ranges[it];
    }

    /** Erase every range the growing one reaches, then insert it. */
    method MergeFrom(it: nat, start: nat, end: nat)
      requires it <= |ranges| && start <= end
      modifies this
      ensures ranges == old(ranges)[..it] + Merge(old(ranges)[it..], start, end)
    {
      var newStart, newEnd := start, end;
      while it < |ranges| && ranges[it].offset <= newEnd
        invariant it <= |ranges| && newStart <= newEnd && ranges[..it] == old(ranges)[..it]
        invariant Merge(old(ranges)[it..], start, end) == Merge(ranges[it..], newStart, newEnd)
        decreases |ranges|
      {
        ghost var tail := ranges[it..];
        assert tail[0] == ranges[it];
        newStart, newEnd := Min(newStart, ranges[it].offset), Max(newEnd, ranges[it].End());
        ranges := ranges[..it] + ranges[it + 1..];
        assert ranges[it..] == tail[1..];
      }
      assert it < |ranges| ==> ranges[it..][0] == ranges[it];
      ranges := ranges[..it] + [Claim(newStart, newEnd - newStart)] + ranges[it..];
    }

    method IsComplete(totalLength: nat) returns (complete: bool)
      ensures complete == Ranges.IsComplete(ranges, totalLength)
      ensures Valid() && Within(ranges, 0, totalLength) ==>
                (complete <==> forall x: nat :: x < totalLength ==> Covers(ranges, x))
    {
      if Valid() && Within(ranges, 0, totalLength) { CompleteIffCovered(ranges, totalLength); }
      if totalLength == 0 { return true; }
      if |ranges| == 0 { return false; }
      complete := |ranges| == 1 && ranges[0].offset == 0 && ranges[0].length >= totalLength;
    }

    method GetGaps(lower: nat, upper: nat) returns (gaps: seq<Claim>)
      requires Valid()
      ensures gaps == Gaps(ranges, lower, upper)
      ensures Canonical(gaps)
      ensures forall x: nat :: Covers(gaps, x) <==> lower <= x < upper && !Covers(ranges, x)
    {
      GapsAreExact(ranges, lower, upper);
      if lower >= upper { return []; }
      gaps := WalkGaps(ranges, lower, upper);
    }

    method TotalReceived() returns (total: nat)
      requires Valid()
      ensures total == |Bytes(ranges)|
    {
      total := 0;
      for i := 0 to |ranges|
        invariant total == TotalLength(ranges[..i])
      {
        assert ranges[..i + 1][..i] == ranges[..i];
        total := total + ranges[i].length;
      }
      assert ranges[..|ranges|] == ranges;
      TotalIsByteCount(ranges);
    }

    method Clear()
      modifies this
      ensures Valid() && ranges == []
    {
      ranges := [];
    }
  }

  /** The cursor loop of `get_gaps`, and of `compute_gaps` in src/ltp_cla/ltp_engine.cpp. */
  method WalkGaps(claims: seq<Claim>, lower: nat, upper: nat) returns (gaps: seq<Claim>)
    ensures gaps == Gaps(claims, lower, upper)
  {
    gaps := [];
    var cursor: nat := lower;
    var i := 0;
    while i < |claims|
      invariant i <= |claims|
      invariant Gaps(claims, lower, upper) == gaps + Gaps(claims[i..], cursor, upper)
    {
      if cursor >= upper { break; }
      var c := claims[i];
      ghost var tail := claims[i..];
      assert tail[0] == c && tail[1..] == claims[i + 1..];
      i := i + 1;
      if c.End() <= cursor { continue; }
      if c.offset > cursor {
        var gapEnd := Min(c.offset, upper);
        gaps := gaps + [Claim(cursor, gapEnd - cursor)];
      }
      cursor := Max(cursor, c.End());
    }
    if cursor < upper {
      assert claims[i..] == [];
      gaps := gaps + [Claim(cursor, upper - cursor)];
    }
  }
}
