/**
 * The insulation bands of a horizontal layer: the one-dimensional slat
 * intervals along z, sorted by start, merged when they overlap or nearly
 * touch, and the free bands left between them up the panel height.
 */
module Bands {
  import opened Positions

  /** A closed interval `(start, end)` along z. */
  type Interval = (real, real)

  /**
   * The z-extent a slat at `pos` takes: its start pulled into
   * `[0, extent - slatWidth]` and its end capped at `extent`. With a
   * non-negative extent and slat width it lies inside `[0, extent]` and is
   * `min(slatWidth, extent)` long.
   */
  function SlatSpan(pos: real, extent: real, slatWidth: real): (iv: Interval)
    ensures 0.0 <= extent && 0.0 <= slatWidth ==> 0.0 <= iv.0 <= iv.1 <= extent
    ensures 0.0 <= extent && 0.0 <= slatWidth ==> iv.1 - iv.0 == Min(slatWidth, extent)
    ensures 0.0 <= slatWidth <= extent && 0.0 <= pos <= extent - slatWidth ==> iv == (pos, pos + slatWidth)
  {
    var low := Max(0.0, Min(pos, extent - slatWidth));
    (low, Min(extent, low + slatWidth))
  }

  /**
   * The slat intervals of a layer along its run's axis, one per position, in
   * position order. With a non-negative extent and slat width each is well
   * formed and lies inside `[0, extent]`.
   */
  function Spans(positions: seq<real>, extent: real, slatWidth: real): (r: seq<Interval>)
    ensures |r| == |positions|
    ensures 0.0 <= extent && 0.0 <= slatWidth ==> WellFormed(r) && Inside(r, 0.0, extent)
  {
    seq(|positions|, i requires 0 <= i < |positions| => SlatSpan(positions[i], extent, slatWidth))
  }

  /** The slat intervals of a horizontal layer, one per traverse position. */
  method SlatIntervals(positions: seq<real>, extent: real, slatWidth: real) returns (ivs: seq<Interval>)
    ensures ivs == Spans(positions, extent, slatWidth)
  {
    ivs := [];
    for i := 0 to |positions|
      invariant ivs == Spans(positions, extent, slatWidth)[..i]
    {
      ivs := ivs + [SlatSpan(positions[i], extent, slatWidth)];
    }
  }

  // ---------------------------------------------------------------------------
  // Sorting by start
  // ---------------------------------------------------------------------------

  ghost predicate SortedByStart(s: seq<Interval>) {
    forall i, j :: 0 <= i < j < |s| ==> s[i].0 <= s[j].0
  }

  /** Inserts `iv` after every interval whose start is not greater than its own. */
  function InsertByStart(s: seq<Interval>, iv: Interval): (r: seq<Interval>)
    requires SortedByStart(s)
    ensures SortedByStart(r)
    ensures multiset(r) == multiset(s) + multiset{iv}
  {
    if s == [] then [iv]
    else if iv.0 < s[0].0 then [iv] + s
    else
      var rest := InsertByStart(s[1..], iv);
      StartsFrom(s, iv, rest);
      ConsSorted(s[0], rest);
      assert s == [s[0]] + s[1..];
      [s[0]] + rest
  }

  /** Everything that goes after the head of a sorted list starts no earlier than it. */
  lemma StartsFrom(s: seq<Interval>, iv: Interval, rest: seq<Interval>)
    requires SortedByStart(s) && s != [] && s[0].0 <= iv.0
    requires multiset(rest) == multiset(s[1..]) + multiset{iv}
    ensures forall k :: 0 <= k < |rest| ==> s[0].0 <= rest[k].0
  {
    forall k | 0 <= k < |rest|
      ensures s[0].0 <= rest[k].0
    {
      assert rest[k] in multiset(rest);
      if rest[k] != iv {
        assert rest[k] in multiset(s[1..]);
        var m :| 0 <= m < |s[1..]| && s[1..][m] == rest[k];
        assert s[m + 1] == rest[k];
      }
    }
  }

  /** A sorted list stays sorted under a head that starts no later than any of it. */
  lemma ConsSorted(x: Interval, rest: seq<Interval>)
    requires SortedByStart(rest)
    requires forall k :: 0 <= k < |rest| ==> x.0 <= rest[k].0
    ensures SortedByStart([x] + rest)
  {
    var r := [x] + rest;
    forall i, j | 0 <= i < j < |r|
      ensures r[i].0 <= r[j].0
    {
      assert r[j] == rest[j - 1];
      if i > 0 {
        assert r[i] == rest[i - 1];
      }
    }
  }

  /** `slat_intervals.sort(key=lambda ab: ab[0])`: ordered by start, the same intervals. */
  function SortByStart(s: seq<Interval>): (r: seq<Interval>)
    ensures SortedByStart(r)
    ensures multiset(r) == multiset(s)
  {
    if s == [] then []
    else
      var n := |s| - 1;
      assert s == s[..n] + [s[n]];
      InsertByStart(SortByStart(s[..n]), s[n])
  }

  /** The intervals of `s` that start at `x`, in order. */
  function WithStart(s: seq<Interval>, x: real): seq<Interval> {
    if s == [] then []
    else
      var n := |s| - 1;
      WithStart(s[..n], x) + if s[n].0 == x then [s[n]] else []
  }

  /** Selecting by start distributes over concatenation. */
  lemma {:induction false} WithStartAppend(a: seq<Interval>, b: seq<Interval>, x: real)
    ensures WithStart(a + b, x) == WithStart(a, x) + WithStart(b, x)
    decreases |b|
  {
    if b == [] {
      assert a + b == a;
    } else {
      var n := |b| - 1;
      var ab := a + b;
      assert ab[..|ab| - 1] == a + b[..n];
      assert ab[|ab| - 1] == b[n];
      WithStartAppend(a, b[..n], x);
    }
  }

  /** No interval of `s` starts at `x` when all of them start after it. */
  lemma {:induction false} WithStartNone(s: seq<Interval>, x: real)
    requires forall i :: 0 <= i < |s| ==> x < s[i].0
    ensures WithStart(s, x) == []
    decreases |s|
  {
    if s != [] {
      WithStartNone(s[..|s| - 1], x);
    }
  }

  /** Inserting `iv` puts it after every interval with the same start. */
  lemma {:induction false} InsertStable(s: seq<Interval>, iv: Interval, x: real)
    requires SortedByStart(s)
    ensures WithStart(InsertByStart(s, iv), x) == WithStart(s, x) + if iv.0 == x then [iv] else []
    decreases |s|
  {
    if s == [] {
      assert InsertByStart(s, iv) == [iv];
      assert [iv][..0] == [];
    } else if iv.0 < s[0].0 {
      InsertFront(s, iv, x);
    } else {
      InsertStable(s[1..], iv, x);
      assert InsertByStart(s, iv) == [s[0]] + InsertByStart(s[1..], iv);
      WithStartBehind(s[0], s[1..], InsertByStart(s[1..], iv), if iv.0 == x then [iv] else [], x);
      assert [s[0]] + s[1..] == s;
    }
  }

  /** `iv` goes in front of intervals that all start after it, and none of them starts at its start. */
  lemma InsertFront(s: seq<Interval>, iv: Interval, x: real)
    requires SortedByStart(s) && s != [] && iv.0 < s[0].0
    ensures WithStart(InsertByStart(s, iv), x) == WithStart(s, x) + if iv.0 == x then [iv] else []
  {
    assert InsertByStart(s, iv) == [iv] + s;
    WithStartAppend([iv], s, x);
    assert [iv][..0] == [];
    if iv.0 == x {
      WithStartNone(s, x);
    }
  }

  /** Putting an interval in front of two lists whose selections differ by a tail keeps that difference. */
  lemma WithStartBehind(h: Interval, t: seq<Interval>, u: seq<Interval>, tail: seq<Interval>, x: real)
    requires WithStart(u, x) == WithStart(t, x) + tail
    ensures WithStart([h] + u, x) == WithStart([h] + t, x) + tail
  {
    WithStartAppend([h], u, x);
    WithStartAppend([h], t, x);
  }

  /**
   * The sort is stable, as Python's is: the intervals with any one start
   * come out in the order they came in.
   */
  lemma {:induction false} SortStable(s: seq<Interval>, x: real)
    ensures WithStart(SortByStart(s), x) == WithStart(s, x)
    decreases |s|
  {
    if s != [] {
      var n := |s| - 1;
      SortStable(s[..n], x);
      InsertStable(SortByStart(s[..n]), s[n], x);
    }
  }

  // ---------------------------------------------------------------------------
  // Merging
  // ---------------------------------------------------------------------------

  /**
   * One round of the merge loop: an interval starting no more than `eps`
   * after the last merged one ends extends it; any other starts a new
   * merged interval.
   */
  function Absorb(merged: seq<Interval>, iv: Interval, eps: real): seq<Interval> {
    if merged == [] then [iv]
    else
      var last := merged[|merged| - 1];
      if iv.0 <= last.1 + eps then merged[..|merged| - 1] + [(last.0, Max(last.1, iv.1))]
      else merged + [iv]
  }

  /** The merge loop over the intervals taken in order. */
  function Merge(ivs: seq<Interval>, eps: real): seq<Interval> {
    if ivs == [] then [] else Absorb(Merge(ivs[..|ivs| - 1], eps), ivs[|ivs| - 1], eps)
  }

  /** The merge loop, growing the last merged interval in place. */
  method MergeIntervals(ivs: seq<Interval>, eps: real) returns (merged: seq<Interval>)
    ensures merged == Merge(ivs, eps)
  {
    merged := [];
    for i := 0 to |ivs|
      invariant merged == Merge(ivs[..i], eps)
    {
      assert ivs[..i + 1][..i] == ivs[..i];
      var (a, b) := ivs[i];
      if merged == [] {
        merged := [(a, b)];
      } else {
        var (la, lb) := merged[|merged| - 1];
        if a <= lb + eps {
          merged := merged[|merged| - 1 := (la, Max(lb, b))];
        } else {
          merged := merged + [(a, b)];
        }
      }
    }
    assert ivs[..|ivs|] == ivs;
  }

  /** Every interval has its start at or below its end. */
  ghost predicate WellFormed(s: seq<Interval>) {
    forall i :: 0 <= i < |s| ==> s[i].0 <= s[i].1
  }

  /** Every interval ends more than `eps` before any later one starts. */
  ghost predicate Separated(s: seq<Interval>, eps: real) {
    forall i, j :: 0 <= i < j < |s| ==> s[i].1 + eps < s[j].0
  }

  /** Every interval lies inside `[lo, hi]`. */
  ghost predicate Inside(s: seq<Interval>, lo: real, hi: real) {
    forall i :: 0 <= i < |s| ==> lo <= s[i].0 && s[i].1 <= hi
  }

  /** One merge round keeps intervals well formed and separated by more than `eps`. */
  lemma AbsorbSeparated(merged: seq<Interval>, iv: Interval, eps: real)
    requires eps >= 0.0 && iv.0 <= iv.1 && WellFormed(merged) && Separated(merged, eps)
    ensures WellFormed(Absorb(merged, iv, eps)) && Separated(Absorb(merged, iv, eps), eps)
  {
    var m := Absorb(merged, iv, eps);
    if merged != [] {
      var k := |merged| - 1;
      var last := merged[k];
      assert forall i :: 0 <= i < k ==> merged[i].1 + eps < last.0 <= last.1;
      if iv.0 <= last.1 + eps {
        assert forall i :: 0 <= i < k ==> m[i] == merged[i];
      } else {
        assert m == merged + [iv];
      }
    }
  }

  /** Merging keeps intervals well formed and separates them pairwise by more than `eps`, so they come in increasing order. */
  lemma {:induction false} MergeSeparated(ivs: seq<Interval>, eps: real)
    requires eps >= 0.0 && WellFormed(ivs)
    ensures WellFormed(Merge(ivs, eps)) && Separated(Merge(ivs, eps), eps)
    decreases |ivs|
  {
    if ivs != [] {
      var n := |ivs| - 1;
      var prefix := ivs[..n];
      assert forall i :: 0 <= i < n ==> prefix[i] == ivs[i];
      MergeSeparated(prefix, eps);
      AbsorbSeparated(Merge(prefix, eps), ivs[n], eps);
    }
  }

  /**
   * Merging keeps intervals inside any range the input stays inside; it
   * gives intervals exactly when there are some, and the first starts where
   * the first input does.
   */
  lemma {:induction false} MergeBounds(ivs: seq<Interval>, eps: real, lo: real, hi: real)
    ensures Inside(ivs, lo, hi) ==> Inside(Merge(ivs, eps), lo, hi)
    ensures ivs != [] <==> Merge(ivs, eps) != []
    ensures ivs != [] ==> Merge(ivs, eps)[0].0 == ivs[0].0
    decreases |ivs|
  {
    if ivs != [] {
      var n := |ivs| - 1;
      var prefix := ivs[..n];
      assert forall i :: 0 <= i < n ==> prefix[i] == ivs[i];
      MergeBounds(prefix, eps, lo, hi);
      var merged := Merge(prefix, eps);
      var m := Merge(ivs, eps);
      var iv := ivs[n];
      if merged != [] {
        var k := |merged| - 1;
        var last := merged[k];
        assert prefix != [] && prefix[0] == ivs[0];
        if iv.0 <= last.1 + eps {
          assert m == merged[..k] + [(last.0, Max(last.1, iv.1))];
          assert forall i :: 0 <= i < k ==> m[i] == merged[i];
        } else {
          assert m == merged + [iv];
        }
      } else {
        assert m == [iv];
      }
    }
  }

  /** With the input sorted by start, the last merged interval starts no later than the last input. */
  lemma {:induction false} MergeLastStart(ivs: seq<Interval>, eps: real)
    requires SortedByStart(ivs)
    ensures ivs != [] ==> Merge(ivs, eps) != [] && Merge(ivs, eps)[|Merge(ivs, eps)| - 1].0 <= ivs[|ivs| - 1].0
    decreases |ivs|
  {
    if ivs != [] {
      var n := |ivs| - 1;
      var prefix := ivs[..n];
      assert forall i :: 0 <= i < n ==> prefix[i] == ivs[i];
      MergeLastStart(prefix, eps);
      var merged := Merge(prefix, eps);
      if merged != [] {
        assert prefix != [] && merged[|merged| - 1].0 <= prefix[n - 1].0 <= ivs[n].0;
      }
    }
  }

  /** `iv` lies within one of the intervals of `m`. */
  ghost predicate Contained(iv: Interval, m: seq<Interval>) {
    exists j :: 0 <= j < |m| && m[j].0 <= iv.0 && iv.1 <= m[j].1
  }

  /**
   * One merge round keeps every merged interval's start and never shrinks
   * its end; an interval starting no earlier than the last merged one ends
   * up within the result.
   */
  lemma AbsorbGrows(merged: seq<Interval>, iv: Interval, eps: real)
    ensures |merged| <= |Absorb(merged, iv, eps)|
    ensures forall j :: 0 <= j < |merged| ==>
      Absorb(merged, iv, eps)[j].0 == merged[j].0 && merged[j].1 <= Absorb(merged, iv, eps)[j].1
    ensures merged == [] || merged[|merged| - 1].0 <= iv.0 ==> Contained(iv, Absorb(merged, iv, eps))
  {
    var m := Absorb(merged, iv, eps);
    if merged == [] {
      assert m[0] == iv;
    } else {
      var k := |merged| - 1;
      if iv.0 <= merged[k].1 + eps {
        assert forall j :: 0 <= j < k ==> m[j] == merged[j];
        assert m[k] == (merged[k].0, Max(merged[k].1, iv.1));
      } else {
        assert m == merged + [iv] && m[k + 1] == iv;
      }
    }
  }

  /** With the input sorted by start, every input interval lies within one merged interval. */
  lemma {:induction false} MergeContains(ivs: seq<Interval>, eps: real)
    requires SortedByStart(ivs)
    ensures forall i :: 0 <= i < |ivs| ==> Contained(ivs[i], Merge(ivs, eps))
    decreases |ivs|
  {
    if ivs != [] {
      var n := |ivs| - 1;
      var prefix := ivs[..n];
      assert forall i :: 0 <= i < n ==> prefix[i] == ivs[i];
      MergeContains(prefix, eps);
      MergeLastStart(prefix, eps);
      var merged := Merge(prefix, eps);
      var m := Merge(ivs, eps);
      assert prefix == [] ==> merged == [];
      AbsorbGrows(merged, ivs[n], eps);
      forall i | 0 <= i < |ivs|
        ensures Contained(ivs[i], m)
      {
        if i < n {
          assert Contained(prefix[i], merged);
          var j :| 0 <= j < |merged| && merged[j].0 <= prefix[i].0 && prefix[i].1 <= merged[j].1;
          assert m[j].0 <= ivs[i].0 && ivs[i].1 <= m[j].1;
        }
      }
    }
  }

  // ---------------------------------------------------------------------------
  // Gaps between merged intervals
  // ---------------------------------------------------------------------------

  /**
   * The gap scan from `prev` on: a gap before each interval that starts more
   * than `eps` above `prev` (which then moves up to the interval's end), and
   * a last gap up to `height` when more than `eps` of it is left.
   */
  function Scan(merged: seq<Interval>, prev: real, height: real, eps: real): seq<Interval>
    decreases |merged|
  {
    if merged == [] then
      if prev < height - eps then [(prev, height)] else []
    else
      var (a, b) := merged[0];
      (if a > prev + eps then [(prev, a)] else []) + Scan(merged[1..], Max(prev, b), height, eps)
  }

  /** The free bands of the panel height `[0, height]` left by the merged slat intervals. */
  function Gaps(merged: seq<Interval>, height: real, eps: real): seq<Interval> {
    Scan(merged, 0.0, height, eps)
  }

  /** The gap loop, carrying `prev` from interval to interval. */
  method ComputeGaps(merged: seq<Interval>, height: real, eps: real) returns (gaps: seq<Interval>)
    ensures gaps == Gaps(merged, height, eps)
  {
    gaps := [];
    var prev := 0.0;
    for i := 0 to |merged|
      invariant gaps + Scan(merged[i..], prev, height, eps) == Gaps(merged, height, eps)
    {
      var iv := merged[i];
      ScanAdvance(gaps, merged, i, prev, height, eps);
      if iv.0 > prev + eps {
        gaps := gaps + [(prev, iv.0)];
      }
      prev := Max(prev, iv.1);
    }
    assert merged[|merged|..] == [];
    if prev < height - eps {
      gaps := gaps + [(prev, height)];
    }
  }

  /** The gap loop's invariant survives one more interval. */
  lemma ScanAdvance(gaps: seq<Interval>, merged: seq<Interval>, i: int, prev: real, height: real, eps: real)
    requires 0 <= i < |merged|
    requires gaps + Scan(merged[i..], prev, height, eps) == Gaps(merged, height, eps)
    ensures var iv := merged[i];
      var next := if iv.0 > prev + eps then gaps + [(prev, iv.0)] else gaps;
      next + Scan(merged[i + 1..], Max(prev, iv.1), height, eps) == Gaps(merged, height, eps)
  {
    var iv := merged[i];
    ScanStep(merged, i, prev, height, eps);
    var head := if iv.0 > prev + eps then [(prev, iv.0)] else [];
    var tail := Scan(merged[i + 1..], Max(prev, iv.1), height, eps);
    assert (gaps + head) + tail == gaps + (head + tail);
    assert gaps + head == if iv.0 > prev + eps then gaps + [(prev, iv.0)] else gaps;
  }

  /** One step of the scan, seen from position `i`. */
  lemma ScanStep(merged: seq<Interval>, i: int, prev: real, height: real, eps: real)
    requires 0 <= i < |merged|
    ensures Scan(merged[i..], prev, height, eps)
         == (if merged[i].0 > prev + eps then [(prev, merged[i].0)] else [])
            + Scan(merged[i + 1..], Max(prev, merged[i].1), height, eps)
  {
    assert merged[i..][0] == merged[i];
    assert merged[i..][1..] == merged[i + 1..];
  }

  /** The gap before the first interval, when there is one. */
  function Head(merged: seq<Interval>, prev: real, eps: real): seq<Interval>
    requires merged != []
  {
    if merged[0].0 > prev + eps then [(prev, merged[0].0)] else []
  }

  /** The scan is the gap before the first interval followed by the scan of the rest. */
  lemma ScanSplit(merged: seq<Interval>, prev: real, height: real, eps: real)
    requires merged != []
    ensures Scan(merged, prev, height, eps)
         == Head(merged, prev, eps) + Scan(merged[1..], Max(prev, merged[0].1), height, eps)
  {
  }

  /** Each gap lies above `prev`, below `height`, and is more than `eps` long. */
  lemma {:induction false} ScanInside(merged: seq<Interval>, prev: real, height: real, eps: real)
    requires forall i :: 0 <= i < |merged| ==> merged[i].1 <= height
    requires WellFormed(merged)
    ensures var gaps := Scan(merged, prev, height, eps);
      forall i :: 0 <= i < |gaps| ==> prev <= gaps[i].0 && gaps[i].0 + eps < gaps[i].1 <= height
    decreases |merged|
  {
    if merged != [] {
      var rest := merged[1..];
      assert forall i :: 0 <= i < |rest| ==> rest[i] == merged[i + 1];
      var next := Max(prev, merged[0].1);
      ScanInside(rest, next, height, eps);
      ScanSplit(merged, prev, height, eps);
      var head, tail := Head(merged, prev, eps), Scan(rest, next, height, eps);
      var gaps := head + tail;
      forall i | 0 <= i < |gaps|
        ensures prev <= gaps[i].0 && gaps[i].0 + eps < gaps[i].1 <= height
      {
        if i >= |head| {
          assert gaps[i] == tail[i - |head|];
        }
      }
    }
  }

  /** Gaps come in increasing order: each ends at or below the start of the next. */
  lemma {:induction false} ScanSorted(merged: seq<Interval>, prev: real, height: real, eps: real)
    requires forall i :: 0 <= i < |merged| ==> merged[i].1 <= height
    requires WellFormed(merged)
    ensures var gaps := Scan(merged, prev, height, eps);
      forall i :: 0 <= i < |gaps| - 1 ==> gaps[i].1 <= gaps[i + 1].0
    decreases |merged|
  {
    if merged != [] {
      var rest := merged[1..];
      assert forall i :: 0 <= i < |rest| ==> rest[i] == merged[i + 1];
      var next := Max(prev, merged[0].1);
      ScanSorted(rest, next, height, eps);
      ScanInside(rest, next, height, eps);
      ScanSplit(merged, prev, height, eps);
      AscendingJoin(Head(merged, prev, eps), Scan(rest, next, height, eps), next);
    }
  }

  /** At most one gap ending at or below `bound`, then ascending gaps starting at or above it, ascend. */
  lemma AscendingJoin(head: seq<Interval>, tail: seq<Interval>, bound: real)
    requires |head| <= 1 && forall i :: 0 <= i < |head| ==> head[i].1 <= bound
    requires forall i :: 0 <= i < |tail| ==> bound <= tail[i].0
    requires forall i :: 0 <= i < |tail| - 1 ==> tail[i].1 <= tail[i + 1].0
    ensures var gaps := head + tail;
      forall i :: 0 <= i < |gaps| - 1 ==> gaps[i].1 <= gaps[i + 1].0
  {
    var gaps := head + tail;
    forall i | 0 <= i < |gaps| - 1
      ensures gaps[i].1 <= gaps[i + 1].0
    {
      assert gaps[i + 1] == tail[i + 1 - |head|];
      if i >= |head| {
        assert gaps[i] == tail[i - |head|];
      }
    }
  }

  /** No gap overlaps a merged interval: each lies wholly below or wholly above it. */
  lemma {:induction false} ScanDisjoint(merged: seq<Interval>, prev: real, height: real, eps: real)
    requires eps >= 0.0 && WellFormed(merged) && Separated(merged, eps)
    requires forall i :: 0 <= i < |merged| ==> merged[i].1 <= height
    ensures var gaps := Scan(merged, prev, height, eps);
      forall i, j :: 0 <= i < |gaps| && 0 <= j < |merged| ==> gaps[i].1 <= merged[j].0 || merged[j].1 <= gaps[i].0
    decreases |merged|
  {
    if merged != [] {
      var rest := merged[1..];
      assert forall i :: 0 <= i < |rest| ==> rest[i] == merged[i + 1];
      var next := Max(prev, merged[0].1);
      ScanDisjoint(rest, next, height, eps);
      ScanInside(rest, next, height, eps);
      ScanSplit(merged, prev, height, eps);
      var head, tail := Head(merged, prev, eps), Scan(rest, next, height, eps);
      var gaps := head + tail;
      forall i, j | 0 <= i < |gaps| && 0 <= j < |merged|
        ensures gaps[i].1 <= merged[j].0 || merged[j].1 <= gaps[i].0
      {
        if i < |head| {
          assert gaps[i].1 == merged[0].0;
          assert j > 0 ==> merged[0].0 <= merged[0].1 < merged[j].0;
        } else {
          assert gaps[i] == tail[i - |head|];
          if j > 0 {
            assert merged[j] == rest[j - 1];
          }
        }
      }
    }
  }

  /** `z` lies within `eps` of one of the intervals. */
  ghost predicate Near(z: real, s: seq<Interval>, eps: real) {
    exists i :: 0 <= i < |s| && s[i].0 - eps <= z <= s[i].1 + eps
  }

  /**
   * Above `prev`, every point up to `height` is within `eps` of a merged
   * interval or of a gap, unless it is within `eps` of `prev` itself.
   */
  lemma {:induction false} ScanCovers(merged: seq<Interval>, prev: real, height: real, eps: real, z: real)
    requires eps >= 0.0 && prev <= z <= height
    ensures z <= prev + eps || Near(z, merged, eps) || Near(z, Scan(merged, prev, height, eps), eps)
    decreases |merged|
  {
    var gaps := Scan(merged, prev, height, eps);
    if merged == [] {
      if prev < height - eps {
        assert gaps[0] == (prev, height);
      }
    } else {
      var (a, b) := merged[0];
      var rest := merged[1..];
      var next := Max(prev, b);
      var head: seq<Interval> := if a > prev + eps then [(prev, a)] else [];
      var tail := Scan(rest, next, height, eps);
      assert gaps == head + tail;
      if z < a {
        if a > prev + eps {
          assert gaps[0] == (prev, a);
        }
      } else if z <= b {
        assert merged[0].0 - eps <= z <= merged[0].1 + eps;
      } else {
        ScanCovers(rest, next, height, eps, z);
        if z <= next + eps {
          if next == b {
            assert merged[0].0 - eps <= z <= merged[0].1 + eps;
          }
        } else if Near(z, rest, eps) {
          var i :| 0 <= i < |rest| && rest[i].0 - eps <= z <= rest[i].1 + eps;
          assert merged[i + 1] == rest[i];
        } else {
          var i :| 0 <= i < |tail| && tail[i].0 - eps <= z <= tail[i].1 + eps;
          assert gaps[|head| + i] == tail[i];
        }
      }
    }
  }

  /**
   * The horizontal-layer bands: merging the sorted slat intervals of a panel
   * of height `height` and scanning for gaps gives merged intervals that are
   * separated by more than `eps` and in increasing order, and gaps that are
   * in increasing order, inside `[0, height]`, overlap no merged interval,
   * and together with the merged intervals reach every point of
   * `[0, height]` to within `eps`. Every slat interval lies within a merged one.
   */
  lemma BandsPartition(slats: seq<Interval>, height: real, eps: real)
    requires eps >= 0.0 && slats != [] && WellFormed(slats) && Inside(slats, 0.0, height)
    ensures var sorted := SortByStart(slats);
      var merged := Merge(sorted, eps);
      var gaps := Gaps(merged, height, eps);
      && Separated(merged, eps)
      && Inside(merged, 0.0, height)
      && (forall i :: 0 <= i < |sorted| ==> Contained(sorted[i], merged))
      && (forall i :: 0 <= i < |gaps| ==> 0.0 <= gaps[i].0 && gaps[i].0 + eps < gaps[i].1 <= height)
      && (forall i :: 0 <= i < |gaps| - 1 ==> gaps[i].1 <= gaps[i + 1].0)
      && (forall i, j :: 0 <= i < |gaps| && 0 <= j < |merged| ==> gaps[i].1 <= merged[j].0 || merged[j].1 <= gaps[i].0)
      && (forall z :: 0.0 <= z <= height ==> Near(z, merged, eps) || Near(z, gaps, eps))
  {
    var sorted := SortByStart(slats);
    SortedKeepsBounds(slats, sorted, height);
    MergeSeparated(sorted, eps);
    MergeBounds(sorted, eps, 0.0, height);
    MergeContains(sorted, eps);
    var merged := Merge(sorted, eps);
    assert Gaps(merged, height, eps) == Scan(merged, 0.0, height, eps);
    ScanInside(merged, 0.0, height, eps);
    ScanSorted(merged, 0.0, height, eps);
    ScanDisjoint(merged, 0.0, height, eps);
    GapsCover(merged, height, eps);
  }

  /**
   * Non-empty merged intervals inside `[0, height]` and their gaps reach
   * every point of `[0, height]` to within `eps`.
   */
  lemma GapsCover(merged: seq<Interval>, height: real, eps: real)
    requires eps >= 0.0 && merged != [] && WellFormed(merged) && Inside(merged, 0.0, height)
    ensures forall z :: 0.0 <= z <= height ==> Near(z, merged, eps) || Near(z, Gaps(merged, height, eps), eps)
  {
    var gaps := Gaps(merged, height, eps);
    forall z | 0.0 <= z <= height
      ensures Near(z, merged, eps) || Near(z, gaps, eps)
    {
      ScanCovers(merged, 0.0, height, eps, z);
      if z <= eps && merged[0].0 > eps {
        assert gaps[0] == (0.0, merged[0].0);
      }
    }
  }

  /** Sorting keeps every interval, so it keeps their shape and their bounds. */
  lemma SortedKeepsBounds(slats: seq<Interval>, sorted: seq<Interval>, height: real)
    requires multiset(sorted) == multiset(slats) && WellFormed(slats) && Inside(slats, 0.0, height)
    ensures WellFormed(sorted) && Inside(sorted, 0.0, height) && |sorted| == |slats|
  {
    assert |sorted| == |multiset(sorted)| == |multiset(slats)| == |slats|;
    forall i | 0 <= i < |sorted|
      ensures sorted[i].0 <= sorted[i].1 && 0.0 <= sorted[i].0 && sorted[i].1 <= height
    {
      assert sorted[i] in multiset(sorted);
      var k :| 0 <= k < |slats| && slats[k] == sorted[i];
    }
  }
}
