/**
 * The position filler: from a set of forced start positions (the panel ends
 * and the opening edges), compute the sorted member start positions so that,
 * in the regular case, no two neighbours are more than one pitch apart.
 */
module Positions {
  import opened Results
  import opened Geometry
  import opened Openings

  function Min(a: real, b: real): real { if a <= b then a else b }
  function Max(a: real, b: real): real { if a >= b then a else b }

  /** `max(0.0, min(pos, limit))`: the position pulled into `[0, limit]`. */
  function Clamp(p: real, limit: real): (r: real)
    ensures 0.0 <= r
    ensures 0.0 <= limit ==> r <= limit
    ensures 0.0 <= p <= limit ==> r == p
    ensures p < 0.0 ==> r == 0.0
    ensures 0.0 <= limit < p ==> r == limit
  {
    Max(0.0, Min(p, limit))
  }

  function ClampAll(s: seq<real>, limit: real): seq<real> {
    seq(|s|, i requires 0 <= i < |s| => Clamp(s[i], limit))
  }

  // ---------------------------------------------------------------------------
  // Sorted sets of positions: `sorted(set(xs))`
  // ---------------------------------------------------------------------------

  ghost predicate Increasing(s: seq<real>) {
    forall i, j :: 0 <= i < j < |s| ==> s[i] < s[j]
  }

  /** Inserts `x` into a strictly increasing sequence, keeping it strictly increasing. */
  function Insert(s: seq<real>, x: real): (r: seq<real>)
    requires Increasing(s)
    ensures Increasing(r)
    ensures forall y :: y in r <==> y in s || y == x
  {
    if s == [] then [x]
    else if x < s[0] then [x] + s
    else if x == s[0] then s
    else
      var rest := Insert(s[1..], x);
      assert forall y :: y in rest ==> s[0] < y;
      var r := [s[0]] + rest;
      forall i, j | 0 <= i < j < |r|
        ensures r[i] < r[j]
      {
        assert r[j] == rest[j - 1] && rest[j - 1] in rest;
        if i > 0 {
          assert r[i] == rest[i - 1];
        }
      }
      r
  }

  /** `sorted(set(xs))`: the distinct values of `xs`, ascending. */
  function Normalize(xs: seq<real>): (r: seq<real>)
    ensures Increasing(r)
    ensures forall y :: y in r <==> y in xs
  {
    if xs == [] then []
    else
      var n := |xs| - 1;
      assert xs == xs[..n] + [xs[n]];
      Insert(Normalize(xs[..n]), xs[n])
  }

  /** A strictly increasing sequence is determined by its elements. */
  lemma {:induction false} IncreasingUnique(a: seq<real>, b: seq<real>)
    requires Increasing(a) && Increasing(b)
    requires forall y :: y in a <==> y in b
    ensures a == b
    decreases |a|
  {
    if a == [] || b == [] {
      if a != [] || b != [] {
        HeadIn(a);
        HeadIn(b);
        assert false;
      }
    } else {
      assert a[0] in a && b[0] in b;
      assert a[0] == b[0] by {
        var i :| 0 <= i < |b| && b[i] == a[0];
        IncreasingMono(b, 0, i);
        var j :| 0 <= j < |a| && a[j] == b[0];
        IncreasingMono(a, 0, j);
      }
      forall y
        ensures y in a[1..] <==> y in b[1..]
      {
        assert y in a[1..] <==> y in a && y != a[0];
        assert y in b[1..] <==> y in b && y != b[0];
      }
      IncreasingUnique(a[1..], b[1..]);
    }
  }

  lemma HeadIn(s: seq<real>)
    ensures s != [] ==> s[0] in s
  {
  }

  lemma NormalizeOfIncreasing(s: seq<real>)
    requires Increasing(s)
    ensures Normalize(s) == s
  {
    IncreasingUnique(Normalize(s), s);
  }

  // ---------------------------------------------------------------------------
  // One pass of gap subdivision
  // ---------------------------------------------------------------------------

  /**
   * The position proposed at `step` of a gap split into `steps` pitch steps:
   * `left + step * pitch`, except that the last step is pulled back so the
   * slat's right edge is flush with `right` when it would overshoot.
   */
  function Proposal(left: real, right: real, pitch: real, slatWidth: real, steps: int, step: int): real {
    var c := left + step as real * pitch;
    if step == steps && c + slatWidth > right then Max(right - slatWidth, left) else c
  }

  /** The clamped proposals of steps 1..k that fall strictly inside the gap, in step order. */
  function StepCandidates(left: real, right: real, pitch: real, slatWidth: real, limit: real, steps: int, k: int): seq<real>
    decreases k
  {
    if k <= 0 then []
    else
      var c := Proposal(left, right, pitch, slatWidth, steps, k);
      StepCandidates(left, right, pitch, slatWidth, limit, steps, k - 1)
        + (if left < c < right then [Clamp(c, limit)] else [])
  }

  /** The number of whole pitches in a gap, `int(gap // pitch)`. */
  function Steps(gap: real, pitch: real): int
    requires pitch > 0.0
  {
    (gap / pitch).Floor
  }

  /** `steps` whole pitches fit in the gap and `steps + 1` do not; a gap wider than one pitch has a step. */
  lemma StepsBounds(gap: real, pitch: real, steps: int)
    requires pitch > 0.0 && steps == Steps(gap, pitch)
    ensures steps as real * pitch <= gap < steps as real * pitch + pitch
    ensures gap > pitch ==> steps >= 1
  {
    assert (gap / pitch) * pitch == gap;
    ScaleBounds(steps as real, gap / pitch, gap, pitch);
    QuotientAboveOne(gap, pitch);
  }

  lemma QuotientAboveOne(gap: real, pitch: real)
    requires pitch > 0.0
    ensures gap > pitch ==> gap / pitch > 1.0
  {
    var q := gap / pitch;
    assert q * pitch == gap;
    assert (q - 1.0) * pitch == gap - pitch;
  }

  lemma ScaleBounds(f: real, q: real, gap: real, c: real)
    requires c > 0.0 && q * c == gap && f <= q < f + 1.0
    ensures f * c <= gap < f * c + c
  {
    calc {
      gap;
    ==
      q * c;
    <
      { assert (f + 1.0 - q) * c > 0.0; }
      f * c + c;
    }
    calc {
      f * c;
    <=
      q * c;
    ==
      gap;
    }
  }

  /** The candidates one pass proposes for the gap between `left` and `right`. */
  function GapFill(left: real, right: real, pitch: real, slatWidth: real, limit: real): seq<real>
    requires pitch > 0.0
  {
    if right - left <= pitch then []
    else
      var steps := Steps(right - left, pitch);
      StepCandidates(left, right, pitch, slatWidth, limit, steps, steps)
  }

  /** The candidates proposed for the first `n` adjacent pairs of `ps`. */
  function PassCandidates(ps: seq<real>, pitch: real, slatWidth: real, limit: real, n: nat): seq<real>
    requires pitch > 0.0 && (n == 0 || n < |ps|)
  {
    if n == 0 then []
    else PassCandidates(ps, pitch, slatWidth, limit, n - 1) + GapFill(ps[n - 1], ps[n], pitch, slatWidth, limit)
  }

  /** All candidates one pass proposes for `ps`. */
  function Candidates(ps: seq<real>, pitch: real, slatWidth: real, limit: real): seq<real>
    requires pitch > 0.0
  {
    if |ps| < 2 then [] else PassCandidates(ps, pitch, slatWidth, limit, |ps| - 1)
  }

  /** A pass over `ps` proposes nothing new. */
  predicate Stable(ps: seq<real>, pitch: real, slatWidth: real, limit: real)
    requires pitch > 0.0
  {
    forall c :: c in Candidates(ps, pitch, slatWidth, limit) ==> c in ps
  }

  /**
   * Repeated application of `next` until `stable` holds, with at most `fuel`
   * applications tried: `None` when the budget runs out first.
   */
  function Fix(ps: seq<real>, fuel: nat, stable: seq<real> -> bool, next: seq<real> -> seq<real>): Option<seq<real>>
    decreases fuel
  {
    if fuel == 0 then None
    else if stable(ps) then Some(ps)
    else Fix(next(ps), fuel - 1, stable, next)
  }

  /** The filler's stopping test. */
  function StableTest(pitch: real, slatWidth: real, limit: real): seq<real> -> bool
    requires pitch > 0.0
  {
    s => Stable(s, pitch, slatWidth, limit)
  }

  /** One pass of the filler: the positions and the pass's candidates, as a sorted set. */
  function Pass(pitch: real, slatWidth: real, limit: real): seq<real> -> seq<real>
    requires pitch > 0.0
  {
    s => Normalize(s + Candidates(s, pitch, slatWidth, limit))
  }

  /** Repeated passes until one changes nothing, with at most `fuel` passes. */
  function Iterate(ps: seq<real>, pitch: real, slatWidth: real, limit: real, fuel: nat): Option<seq<real>>
    requires pitch > 0.0
    decreases fuel
  {
    if fuel == 0 then None
    else if Stable(ps, pitch, slatWidth, limit) then Some(ps)
    else Iterate(Normalize(ps + Candidates(ps, pitch, slatWidth, limit)), pitch, slatWidth, limit, fuel - 1)
  }

  /** The passes are the fixed-point iteration of one pass under the stopping test. */
  lemma {:induction false} IterateIsFix(ps: seq<real>, pitch: real, slatWidth: real, limit: real, fuel: nat,
                                        stable: seq<real> -> bool, next: seq<real> -> seq<real>)
    requires pitch > 0.0 && stable == StableTest(pitch, slatWidth, limit) && next == Pass(pitch, slatWidth, limit)
    ensures Iterate(ps, pitch, slatWidth, limit, fuel) == Fix(ps, fuel, stable, next)
    decreases fuel
  {
    if fuel > 0 {
      if Stable(ps, pitch, slatWidth, limit) {
        StableCase(ps, pitch, slatWidth, limit, fuel);
      } else {
        var qs, f := Normalize(ps + Candidates(ps, pitch, slatWidth, limit)), fuel - 1;
        IterateIsFix(qs, pitch, slatWidth, limit, f, stable, next);
        StepCase(ps, pitch, slatWidth, limit, f);
      }
    }
  }

  lemma StableCase(ps: seq<real>, pitch: real, slatWidth: real, limit: real, fuel: nat)
    requires pitch > 0.0 && fuel > 0 && Stable(ps, pitch, slatWidth, limit)
    ensures Iterate(ps, pitch, slatWidth, limit, fuel) == Some(ps)
    ensures Fix(ps, fuel, StableTest(pitch, slatWidth, limit), Pass(pitch, slatWidth, limit)) == Some(ps)
  {
    assert StableTest(pitch, slatWidth, limit)(ps);
  }

  lemma StepCase(ps: seq<real>, pitch: real, slatWidth: real, limit: real, f: nat)
    requires pitch > 0.0 && !Stable(ps, pitch, slatWidth, limit)
    ensures Iterate(ps, pitch, slatWidth, limit, f + 1)
         == Iterate(Normalize(ps + Candidates(ps, pitch, slatWidth, limit)), pitch, slatWidth, limit, f)
    ensures Fix(ps, f + 1, StableTest(pitch, slatWidth, limit), Pass(pitch, slatWidth, limit))
         == Fix(Normalize(ps + Candidates(ps, pitch, slatWidth, limit)), f, StableTest(pitch, slatWidth, limit), Pass(pitch, slatWidth, limit))
  {
    assert !StableTest(pitch, slatWidth, limit)(ps);
  }

  /**
   * What `_fill_positions` returns when it finishes within `maxPasses` passes,
   * and `None` when it would need more.
   */
  function Fill(base: seq<real>, pitch: real, slatWidth: real, limit: real, maxPasses: nat): Option<seq<real>> {
    if pitch <= 0.0 then Some(Normalize(ClampAll(base, limit)))
    else
      match Iterate(Normalize(base), pitch, slatWidth, limit, maxPasses)
      case None => None
      case Some(ps) => Some(Normalize(ClampAll(ps, limit)))
  }

  /** `added` holds exactly the candidates in `cands` that are not already in `positions`. */
  ghost predicate Fresh(added: seq<real>, positions: seq<real>, cands: seq<real>) {
    forall x :: x in added <==> x in cands && x !in positions
  }

  /** The bookkeeping step of the inner loop: offering one more candidate `c`. */
  lemma FreshStep(added: seq<real>, positions: seq<real>, cands: seq<real>, c: real)
    requires Fresh(added, positions, cands)
    ensures Fresh(if c !in positions && c !in added then added + [c] else added, positions, cands + [c])
  {
  }

  /** A pass that records nothing is one whose candidates are all present already; otherwise its first record is a witness. */
  lemma FreshEmpty(added: seq<real>, positions: seq<real>, cands: seq<real>)
    requires Fresh(added, positions, cands)
    ensures added == [] ==> forall c :: c in cands ==> c in positions
    ensures added != [] ==> added[0] in cands && added[0] !in positions
  {
    if added != [] {
      var first := added[0];
      assert first in added;
      assert first in cands && first !in positions;
    }
  }

  /** Adding only the recorded candidates gives the same sorted set as adding all of them. */
  lemma FreshNormalize(added: seq<real>, positions: seq<real>, cands: seq<real>)
    requires Fresh(added, positions, cands)
    ensures Normalize(positions + added) == Normalize(positions + cands)
  {
    IncreasingUnique(Normalize(positions + added), Normalize(positions + cands));
  }

  /** The bookkeeping of one step of the gap loop, offering the proposal of `step`. */
  lemma StepRecord(positions: seq<real>, added: seq<real>, before: seq<real>,
                   left: real, right: real, pitch: real, slatWidth: real, limit: real, steps: int, step: int)
    requires step >= 1
    requires Fresh(added, positions, before + StepCandidates(left, right, pitch, slatWidth, limit, steps, step - 1))
    ensures var c := Proposal(left, right, pitch, slatWidth, steps, step);
      var c' := Clamp(c, limit);
      Fresh(if left < c < right && c' !in positions && c' !in added then added + [c'] else added,
            positions, before + StepCandidates(left, right, pitch, slatWidth, limit, steps, step))
  {
    var done := StepCandidates(left, right, pitch, slatWidth, limit, steps, step - 1);
    var c := Proposal(left, right, pitch, slatWidth, steps, step);
    if left < c < right {
      FreshStep(added, positions, before + done, Clamp(c, limit));
      assert (before + done) + [Clamp(c, limit)] == before + (done + [Clamp(c, limit)]);
    } else {
      assert StepCandidates(left, right, pitch, slatWidth, limit, steps, step) == done;
    }
  }

  /** A pass records something exactly when `ps` is not stable. */
  lemma FreshStable(added: seq<real>, ps: seq<real>, pitch: real, slatWidth: real, limit: real)
    requires pitch > 0.0
    requires Fresh(added, ps, Candidates(ps, pitch, slatWidth, limit))
    ensures added != [] <==> !Stable(ps, pitch, slatWidth, limit)
  {
    var cands := Candidates(ps, pitch, slatWidth, limit);
    FreshEmpty(added, ps, cands);
    if added != [] {
      var c := added[0];
      assert c in Candidates(ps, pitch, slatWidth, limit) && c !in ps;
    }
  }

  /**
   * The body of the pair loop for the gap between `left` and `right`: records
   * each of the gap's candidates that is neither in `positions` nor recorded yet.
   */
  method ProposeGap(positions: seq<real>, added: seq<real>, left: real, right: real,
                    pitch: real, slatWidth: real, limit: real, ghost before: seq<real>)
    returns (added': seq<real>)
    requires pitch > 0.0
    requires Fresh(added, positions, before)
    ensures Fresh(added', positions, before + GapFill(left, right, pitch, slatWidth, limit))
    ensures |added| <= |added'|
  {
    added' := added;
    var gap := right - left;
    if gap <= pitch {
      assert before + GapFill(left, right, pitch, slatWidth, limit) == before;
      return;
    }
    var steps := (gap / pitch).Floor;
    StepsBounds(gap, pitch, steps);
    assert before + StepCandidates(left, right, pitch, slatWidth, limit, steps, 0) == before;
    var step := 1;
    while step <= steps
      invariant 1 <= step <= steps + 1
      invariant |added| <= |added'|
      invariant Fresh(added', positions, before + StepCandidates(left, right, pitch, slatWidth, limit, steps, step - 1))
    {
      StepRecord(positions, added', before, left, right, pitch, slatWidth, limit, steps, step);
      var candidate := left + step as real * pitch;
      if step == steps && candidate + slatWidth > right {
        candidate := Max(right - slatWidth, left);
      }
      assert candidate == Proposal(left, right, pitch, slatWidth, steps, step);
      if left < candidate < right {
        candidate := Clamp(candidate, limit);
        if candidate !in positions && candidate !in added' {
          added' := added' + [candidate];
        }
      }
      step := step + 1;
    }
    assert steps == Steps(right - left, pitch);
    assert StepCandidates(left, right, pitch, slatWidth, limit, steps, step - 1)
        == GapFill(left, right, pitch, slatWidth, limit);
  }

  /**
   * One pass of the `while changed` loop: the candidates of every adjacent
   * pair that are not positions yet, and whether there were any.
   */
  method ProposePass(positions: seq<real>, pitch: real, slatWidth: real, limit: real)
    returns (newPositions: seq<real>, changed: bool)
    requires pitch > 0.0
    ensures Fresh(newPositions, positions, Candidates(positions, pitch, slatWidth, limit))
    ensures changed <==> !Stable(positions, pitch, slatWidth, limit)
  {
    changed := false;
    newPositions := [];
    var i := 0;
    while i + 1 < |positions|
      invariant 0 <= i && (i == 0 || i < |positions|)
      invariant changed == (newPositions != [])
      invariant Fresh(newPositions, positions, PassCandidates(positions, pitch, slatWidth, limit, i))
    {
      PassCandidatesStep(positions, pitch, slatWidth, limit, i);
      newPositions := ProposeGap(positions, newPositions, positions[i], positions[i + 1], pitch, slatWidth, limit,
                                 PassCandidates(positions, pitch, slatWidth, limit, i));
      if newPositions != [] {
        changed := true;
      }
      i := i + 1;
    }
    assert PassCandidates(positions, pitch, slatWidth, limit, i) == Candidates(positions, pitch, slatWidth, limit);
    FreshStable(newPositions, positions, pitch, slatWidth, limit);
  }

  /**
   * `_fill_positions`, bounded to `maxPasses` passes of the `while changed`
   * loop: `None` when the bound is reached while a pass still changed something.
   */
  method FillPositions(base: seq<real>, pitch: real, slatWidth: real, limit: real, maxPasses: nat)
    returns (r: Option<seq<real>>)
    ensures r == Fill(base, pitch, slatWidth, limit, maxPasses)
  {
    if pitch <= 0.0 {
      return Some(Normalize(ClampAll(base, limit)));
    }
    var positions := Normalize(base);
    var changed := true;
    var passes := 0;
    while changed && passes < maxPasses
      invariant 0 <= passes <= maxPasses
      invariant Iterate(Normalize(base), pitch, slatWidth, limit, maxPasses)
             == if changed then Iterate(positions, pitch, slatWidth, limit, maxPasses - passes) else Some(positions)
      decreases maxPasses - passes
    {
      var newPositions;
      newPositions, changed := ProposePass(positions, pitch, slatWidth, limit);
      if changed {
        FreshNormalize(newPositions, positions, Candidates(positions, pitch, slatWidth, limit));
        positions := Normalize(positions + newPositions);
      }
      passes := passes + 1;
    }
    if changed {
      r := None;
    } else {
      r := Some(Normalize(ClampAll(positions, limit)));
    }
  }

  // ---------------------------------------------------------------------------
  // What the filler guarantees
  // ---------------------------------------------------------------------------

  /** Neighbouring positions are at most `pitch` apart. */
  ghost predicate Dense(s: seq<real>, pitch: real) {
    forall i :: 1 <= i < |s| ==> s[i] - s[i - 1] <= pitch
  }

  /** Every value lies in `[lo, hi]`. */
  ghost predicate Within(s: seq<real>, lo: real, hi: real) {
    forall x :: x in s ==> lo <= x <= hi
  }

  /** Every value of `a` is in `b`. */
  ghost predicate Subset(a: seq<real>, b: seq<real>) {
    forall x :: x in a ==> x in b
  }

  /** Iterating a step that keeps every value keeps every value. */
  lemma {:induction false} FixGrows(ps: seq<real>, fuel: nat, stable: seq<real> -> bool, next: seq<real> -> seq<real>)
    requires forall s :: Subset(s, next(s))
    ensures Fix(ps, fuel, stable, next).Some? ==> Subset(ps, Fix(ps, fuel, stable, next).value)
    decreases fuel
  {
    if fuel > 0 && !stable(ps) {
      FixGrows(next(ps), fuel - 1, stable, next);
    }
  }

  /** Iteration stops only where the stopping test holds. */
  lemma {:induction false} FixStable(ps: seq<real>, fuel: nat, stable: seq<real> -> bool, next: seq<real> -> seq<real>)
    ensures Fix(ps, fuel, stable, next).Some? ==> stable(Fix(ps, fuel, stable, next).value)
    decreases fuel
  {
    if fuel > 0 && !stable(ps) {
      FixStable(next(ps), fuel - 1, stable, next);
    }
  }

  /** Repeated passes only ever add positions. */
  lemma IterateGrows(ps: seq<real>, pitch: real, slatWidth: real, limit: real, fuel: nat)
    requires pitch > 0.0
    ensures Iterate(ps, pitch, slatWidth, limit, fuel).Some? ==>
      forall x :: x in ps ==> x in Iterate(ps, pitch, slatWidth, limit, fuel).value
  {
    var next := Pass(pitch, slatWidth, limit);
    forall s
      ensures Subset(s, next(s))
    {
      PassKeeps(s, Candidates(s, pitch, slatWidth, limit));
    }
    FixGrows(ps, fuel, StableTest(pitch, slatWidth, limit), next);
    IterateIsFix(ps, pitch, slatWidth, limit, fuel, StableTest(pitch, slatWidth, limit), Pass(pitch, slatWidth, limit));
  }

  /** Adding candidates keeps every position. */
  lemma PassKeeps(ps: seq<real>, cands: seq<real>)
    ensures forall x :: x in ps ==> x in Normalize(ps + cands)
  {
  }

  /** What repeated passes return is a fixed point: one more pass would add nothing. */
  lemma IterateStable(ps: seq<real>, pitch: real, slatWidth: real, limit: real, fuel: nat)
    requires pitch > 0.0
    ensures Iterate(ps, pitch, slatWidth, limit, fuel).Some? ==>
      Stable(Iterate(ps, pitch, slatWidth, limit, fuel).value, pitch, slatWidth, limit)
  {
    FixStable(ps, fuel, StableTest(pitch, slatWidth, limit), Pass(pitch, slatWidth, limit));
    IterateIsFix(ps, pitch, slatWidth, limit, fuel, StableTest(pitch, slatWidth, limit), Pass(pitch, slatWidth, limit));
  }

  lemma ClampAllMembers(s: seq<real>, limit: real)
    ensures forall x :: x in s ==> Clamp(x, limit) in ClampAll(s, limit)
    ensures forall y :: y in ClampAll(s, limit) ==> exists x :: x in s && y == Clamp(x, limit)
  {
    var c := ClampAll(s, limit);
    forall x | x in s
      ensures Clamp(x, limit) in c
    {
      var i :| 0 <= i < |s| && s[i] == x;
      assert c[i] == Clamp(x, limit);
    }
    forall y | y in c
      ensures exists x :: x in s && y == Clamp(x, limit)
    {
      var i :| 0 <= i < |c| && c[i] == y;
      assert s[i] in s;
    }
  }

  /**
   * Whatever the filler returns is sorted without repetitions, pulled into
   * `[0, limit]`, and keeps every forced position (clamped).
   */
  lemma FillOutput(base: seq<real>, pitch: real, slatWidth: real, limit: real, maxPasses: nat)
    ensures var r := Fill(base, pitch, slatWidth, limit, maxPasses);
      r.Some? ==>
        && Increasing(r.value)
        && (forall x :: x in r.value ==> 0.0 <= x && (0.0 <= limit ==> x <= limit))
        && (forall b :: b in base ==> Clamp(b, limit) in r.value)
  {
    var r := Fill(base, pitch, slatWidth, limit, maxPasses);
    if r.Some? {
      var ps := if pitch <= 0.0 then base else Iterate(Normalize(base), pitch, slatWidth, limit, maxPasses).value;
      if pitch > 0.0 {
        IterateGrows(Normalize(base), pitch, slatWidth, limit, maxPasses);
      }
      assert r.value == Normalize(ClampAll(ps, limit));
      ClampAllMembers(ps, limit);
      forall x | x in r.value
        ensures 0.0 <= x && (0.0 <= limit ==> x <= limit)
      {
        var b :| b in ps && x == Clamp(b, limit);
      }
    }
  }

  /** A zero or negative pitch adds nothing: the result is the sorted set of clamped forced positions. */
  lemma FillNonPositivePitch(base: seq<real>, pitch: real, slatWidth: real, limit: real, maxPasses: nat)
    requires pitch <= 0.0
    ensures var r := Fill(base, pitch, slatWidth, limit, maxPasses);
      && r.Some?
      && forall y :: y in r.value <==> exists b :: b in base && y == Clamp(b, limit)
  {
    ClampAllMembers(base, limit);
  }

  // Arithmetic facts about whole pitch steps, kept apart so that the solver sees only what each needs.

  lemma StepScale(k: int, pitch: real)
    requires pitch > 0.0
    ensures (k + 1) as real * pitch == k as real * pitch + pitch
    ensures k >= 1 ==> k as real * pitch >= pitch
  {
    if k >= 1 {
      calc {
        k as real * pitch;
      ==
        (k - 1) as real * pitch + pitch;
      >=
        { assert (k - 1) as real * pitch >= 0.0; }
        pitch;
      }
    }
  }

  lemma StepSucc(k: int, m: int, pitch: real)
    requires m == k + 1
    ensures m as real * pitch == k as real * pitch + pitch
  {
    assert m as real == k as real + 1.0;
  }

  lemma StepMono(j: int, k: int, pitch: real)
    requires pitch > 0.0 && j <= k
    ensures j as real * pitch <= k as real * pitch
  {
    assert k as real * pitch - j as real * pitch == (k - j) as real * pitch;
  }

  /** Below the last of `steps` whole pitches that fit in the gap, a step lands strictly inside it. */
  lemma StepInside(left: real, right: real, pitch: real, k: int, steps: int)
    requires pitch > 0.0 && 1 <= k < steps && steps as real * pitch <= right - left
    ensures left < left + k as real * pitch < right
  {
    StepScale(k, pitch);
    StepMono(k, steps - 1, pitch);
    StepScale(steps - 1, pitch);
  }

  /**
   * Below the last step of a gap with `left >= 0` and `right <= limit`,
   * every proposal is `left + step * pitch`, strictly inside the gap.
   */
  lemma {:induction false} RegularSteps(left: real, right: real, pitch: real, slatWidth: real, limit: real, steps: int, k: int)
    requires pitch > 0.0 && 0.0 <= left && right <= limit
    requires 0 <= k < steps && steps as real * pitch <= right - left
    ensures var s := StepCandidates(left, right, pitch, slatWidth, limit, steps, k);
      && |s| == k
      && (k > 0 ==> s[0] == left + pitch && s[k - 1] == left + k as real * pitch)
      && (forall j :: 1 <= j < k ==> s[j] == s[j - 1] + pitch)
    decreases k
  {
    if k > 0 {
      var j := k - 1;
      var prev := StepCandidates(left, right, pitch, slatWidth, limit, steps, j);
      var s := StepCandidates(left, right, pitch, slatWidth, limit, steps, k);
      RegularSteps(left, right, pitch, slatWidth, limit, steps, j);
      RegularStep(left, right, pitch, slatWidth, limit, steps, k);
      assert s == prev + [left + k as real * pitch];
      if j > 0 {
        NextStep(left, pitch, j, k, prev[j - 1]);
      } else {
        assert k as real * pitch == pitch;
      }
      forall i | 1 <= i < k
        ensures s[i] == s[i - 1] + pitch
      {
        assert s[i - 1] == prev[i - 1];
        if i < j {
          assert s[i] == prev[i];
        }
      }
    }
  }

  /** The proposals below the last step lie strictly inside the gap. */
  lemma {:induction false} RegularStepsInside(left: real, right: real, pitch: real, slatWidth: real, limit: real, steps: int, k: int)
    requires pitch > 0.0 && 0.0 <= left && right <= limit
    requires 0 <= k < steps && steps as real * pitch <= right - left
    ensures forall x :: x in StepCandidates(left, right, pitch, slatWidth, limit, steps, k) ==> left < x < right
    decreases k
  {
    if k > 0 {
      RegularStepsInside(left, right, pitch, slatWidth, limit, steps, k - 1);
      RegularStep(left, right, pitch, slatWidth, limit, steps, k);
    }
  }

  /** Step `k` below the last proposes `left + k * pitch`, which lies strictly inside the gap. */
  lemma RegularStep(left: real, right: real, pitch: real, slatWidth: real, limit: real, steps: int, k: int)
    requires pitch > 0.0 && 0.0 <= left && right <= limit
    requires 0 < k < steps && steps as real * pitch <= right - left
    ensures var c := left + k as real * pitch;
      && left < c < right
      && StepCandidates(left, right, pitch, slatWidth, limit, steps, k)
         == StepCandidates(left, right, pitch, slatWidth, limit, steps, k - 1) + [c]
  {
    var c := left + k as real * pitch;
    assert Proposal(left, right, pitch, slatWidth, steps, k) == c;
    StepInside(left, right, pitch, k, steps);
    assert Clamp(c, limit) == c;
  }

  /** The proposal of the last step of a gap wider than a pitch, for a slat no wider than the pitch. */
  lemma LastProposal(left: real, right: real, pitch: real, slatWidth: real, steps: int)
    requires pitch > 0.0 && 0.0 < slatWidth <= pitch && steps >= 1 && right - left > pitch
    requires steps as real * pitch <= right - left < steps as real * pitch + pitch
    ensures var c := Proposal(left, right, pitch, slatWidth, steps, steps);
      left < c < right && right - c <= pitch && c <= left + steps as real * pitch
  {
    var top := left + steps as real * pitch;
    StepScale(steps, pitch);
    if top + slatWidth > right {
      assert Proposal(left, right, pitch, slatWidth, steps, steps) == right - slatWidth;
    } else {
      assert Proposal(left, right, pitch, slatWidth, steps, steps) == top;
    }
  }

  /**
   * The regular case of one gap wider than a pitch, with a slat no wider
   * than the pitch inside `[0, limit]`: every candidate lies strictly inside
   * the gap, and from `left` and from every candidate the next candidate or
   * `right` is at most one pitch further.
   */
  lemma GapCover(left: real, right: real, pitch: real, slatWidth: real, limit: real)
    requires pitch > 0.0 && 0.0 < slatWidth <= pitch
    requires 0.0 <= left && right <= limit && right - left > pitch
    ensures forall x :: x in GapFill(left, right, pitch, slatWidth, limit) ==> left < x < right
    ensures exists z :: z in GapFill(left, right, pitch, slatWidth, limit) && left < z <= left + pitch
    ensures forall y :: y in GapFill(left, right, pitch, slatWidth, limit) ==>
      (right <= y + pitch || exists z :: z in GapFill(left, right, pitch, slatWidth, limit) && y < z <= y + pitch)
  {
    var regular, c := GapShape(left, right, pitch, slatWidth, limit);
    CoverChain(left, right, pitch, regular, c);
  }

  /**
   * The shape of a regular gap's candidates: whole pitch steps from `left`
   * strictly inside the gap, then one last candidate `c` at most a pitch
   * after them and at most a pitch before `right`.
   */
  lemma GapShape(left: real, right: real, pitch: real, slatWidth: real, limit: real) returns (regular: seq<real>, c: real)
    requires pitch > 0.0 && 0.0 < slatWidth <= pitch
    requires 0.0 <= left && right <= limit && right - left > pitch
    ensures GapFill(left, right, pitch, slatWidth, limit) == regular + [c]
    ensures |regular| > 0 ==> regular[0] == left + pitch
    ensures forall j :: 1 <= j < |regular| ==> regular[j] == regular[j - 1] + pitch
    ensures forall x :: x in regular ==> left < x < right
    ensures left < c < right && right - c <= pitch
    ensures c <= (if |regular| == 0 then left else regular[|regular| - 1]) + pitch
  {
    var steps := Steps(right - left, pitch);
    var k := steps - 1;
    c := Proposal(left, right, pitch, slatWidth, steps, steps);
    regular := StepCandidates(left, right, pitch, slatWidth, limit, steps, k);
    assert && steps >= 1 && steps as real * pitch <= right - left
           && left < c < right && right - c <= pitch && c <= left + steps as real * pitch by {
      StepsBounds(right - left, pitch, steps);
      LastProposal(left, right, pitch, slatWidth, steps);
    }
    assert GapFill(left, right, pitch, slatWidth, limit) == regular + [c] by {
      assert Clamp(c, limit) == c;
    }
    RegularSteps(left, right, pitch, slatWidth, limit, steps, k);
    RegularStepsInside(left, right, pitch, slatWidth, limit, steps, k);
    assert |regular| == k;
    if k > 0 {
      NextStep(left, pitch, k, steps, regular[k - 1]);
    } else {
      assert steps as real * pitch == pitch;
    }
  }

  lemma NextStep(left: real, pitch: real, k: int, steps: int, last: real)
    requires steps == k + 1 && last == left + k as real * pitch
    ensures last + pitch == left + steps as real * pitch
  {
    StepSucc(k, steps, pitch);
  }

  /**
   * The cover argument on the explicit shape of a gap's candidates: whole
   * pitch steps from `left`, then one last candidate `c` at most a pitch
   * after them and at most a pitch before `right`.
   */
  lemma CoverChain(left: real, right: real, pitch: real, regular: seq<real>, c: real)
    requires pitch > 0.0
    requires |regular| > 0 ==> regular[0] == left + pitch
    requires forall j :: 1 <= j < |regular| ==> regular[j] == regular[j - 1] + pitch
    requires forall x :: x in regular ==> left < x < right
    requires left < c < right && right - c <= pitch
    requires c <= (if |regular| == 0 then left else regular[|regular| - 1]) + pitch
    ensures forall x :: x in regular + [c] ==> left < x < right
    ensures exists z :: z in regular + [c] && left < z <= left + pitch
    ensures forall y :: y in regular + [c] ==> (right <= y + pitch || exists z :: z in regular + [c] && y < z <= y + pitch)
  {
    if |regular| > 0 {
      assert regular[0] in regular + [c];
    } else {
      assert c in regular + [c];
    }
    forall y | y in regular + [c]
      ensures right <= y + pitch || exists z :: z in regular + [c] && y < z <= y + pitch
    {
      if y in regular {
        var j :| 0 <= j < |regular| && regular[j] == y;
        if j + 1 < |regular| {
          assert regular[j + 1] in regular + [c];
        } else if c > y {
          assert c in regular + [c];
        }
      }
    }
  }

  /** The candidates of a pass are exactly those of the gaps between neighbouring positions. */
  lemma {:induction false} PassCandidatesFrom(ps: seq<real>, pitch: real, slatWidth: real, limit: real, n: nat)
    requires pitch > 0.0 && (n == 0 || n < |ps|)
    ensures forall x :: x in PassCandidates(ps, pitch, slatWidth, limit, n) <==>
      exists a :: 0 <= a < n && x in GapFill(ps[a], ps[a + 1], pitch, slatWidth, limit)
    decreases n
  {
    if n > 0 {
      var m := n - 1;
      PassCandidatesFrom(ps, pitch, slatWidth, limit, m);
      PassCandidatesStep(ps, pitch, slatWidth, limit, m);
    }
  }

  /** The candidates of the first `m + 1` gaps: those of the first `m`, then the gap after `ps[m]`. */
  lemma PassCandidatesStep(ps: seq<real>, pitch: real, slatWidth: real, limit: real, m: nat)
    requires pitch > 0.0 && m + 1 < |ps|
    ensures PassCandidates(ps, pitch, slatWidth, limit, m + 1)
         == PassCandidates(ps, pitch, slatWidth, limit, m) + GapFill(ps[m], ps[m + 1], pitch, slatWidth, limit)
  {
  }

  /** With neighbours at most a pitch apart, a pass proposes nothing at all. */
  lemma {:induction false} DenseNoCandidates(ps: seq<real>, pitch: real, slatWidth: real, limit: real, n: nat)
    requires pitch > 0.0 && (n == 0 || n < |ps|) && Dense(ps, pitch)
    ensures PassCandidates(ps, pitch, slatWidth, limit, n) == []
    decreases n
  {
    if n > 0 {
      DenseNoCandidates(ps, pitch, slatWidth, limit, n - 1);
      assert ps[n] - ps[n - 1] <= pitch;
    }
  }

  /** In a strictly increasing sequence a larger value sits further right. */
  lemma IncreasingOrder(s: seq<real>, a: int, b: int)
    requires Increasing(s) && 0 <= a < |s| && 0 <= b < |s| && s[a] < s[b]
    ensures a < b
  {
  }

  /** A strictly increasing sequence is ordered between any two indices. */
  lemma IncreasingMono(s: seq<real>, a: int, b: int)
    requires Increasing(s) && 0 <= a <= b < |s|
    ensures s[a] <= s[b]
  {
  }

  /** In a sorted sequence, an element within a pitch above each one (but the last) makes it dense. */
  lemma DenseFromCover(s: seq<real>, pitch: real)
    requires Increasing(s)
    requires forall i :: 0 <= i < |s| - 1 ==> exists z :: z in s && s[i] < z <= s[i] + pitch
    ensures Dense(s, pitch)
  {
    forall i | 1 <= i < |s|
      ensures s[i] - s[i - 1] <= pitch
    {
      var z :| z in s && s[i - 1] < z <= s[i - 1] + pitch;
      CoverGap(s, pitch, i, z);
    }
  }

  /** A position within one pitch to the right of `s[i - 1]` bounds the gap that follows it. */
  lemma CoverGap(s: seq<real>, pitch: real, i: int, z: real)
    requires Increasing(s) && 1 <= i < |s| && z in s && s[i - 1] < z <= s[i - 1] + pitch
    ensures s[i] - s[i - 1] <= pitch
  {
    var j :| 0 <= j < |s| && s[j] == z;
    IncreasingOrder(s, i - 1, j);
    IncreasingMono(s, i, j);
  }

  /** Every candidate of a regular pass comes from a gap wider than a pitch and lies strictly inside it. */
  lemma CandidatesInside(ps: seq<real>, pitch: real, slatWidth: real, limit: real)
    requires pitch > 0.0 && 0.0 < slatWidth <= pitch && Increasing(ps) && Within(ps, 0.0, limit)
    ensures forall x :: x in Candidates(ps, pitch, slatWidth, limit) ==>
      exists a :: 0 <= a < |ps| - 1 && ps[a] < x < ps[a + 1] && x in GapFill(ps[a], ps[a + 1], pitch, slatWidth, limit)
  {
    if |ps| >= 2 {
      PassCandidatesFrom(ps, pitch, slatWidth, limit, |ps| - 1);
      forall x | x in Candidates(ps, pitch, slatWidth, limit)
        ensures exists a :: 0 <= a < |ps| - 1 && ps[a] < x < ps[a + 1] && x in GapFill(ps[a], ps[a + 1], pitch, slatWidth, limit)
      {
        var a :| 0 <= a < |ps| - 1 && x in GapFill(ps[a], ps[a + 1], pitch, slatWidth, limit);
        assert ps[a] in ps && ps[a + 1] in ps;
        GapCover(ps[a], ps[a + 1], pitch, slatWidth, limit);
      }
    }
  }

  /** Some member of `s` lies above `y`, at most one pitch away. */
  ghost predicate CoveredIn(y: real, s: seq<real>, pitch: real) {
    exists z :: z in s && y < z <= y + pitch
  }

  /** The candidates of each gap are among the candidates of the pass. */
  lemma GapInCandidates(ps: seq<real>, pitch: real, slatWidth: real, limit: real, a: int)
    requires pitch > 0.0 && 0 <= a < |ps| - 1
    ensures forall x :: x in GapFill(ps[a], ps[a + 1], pitch, slatWidth, limit) ==> x in Candidates(ps, pitch, slatWidth, limit)
  {
    PassCandidatesFrom(ps, pitch, slatWidth, limit, |ps| - 1);
  }

  /** A position that is not the last one is covered after one pass. */
  lemma CoverFromPosition(ps: seq<real>, pitch: real, slatWidth: real, limit: real, a: int)
    requires pitch > 0.0 && 0.0 < slatWidth <= pitch && Increasing(ps) && Within(ps, 0.0, limit)
    requires 0 <= a < |ps| - 1
    ensures CoveredIn(ps[a], ps + Candidates(ps, pitch, slatWidth, limit), pitch)
  {
    var all := ps + Candidates(ps, pitch, slatWidth, limit);
    var left, right := ps[a], ps[a + 1];
    assert left in ps && right in ps && right in all;
    if right - left > pitch {
      GapCover(left, right, pitch, slatWidth, limit);
      GapInCandidates(ps, pitch, slatWidth, limit, a);
      var z :| z in GapFill(left, right, pitch, slatWidth, limit) && left < z <= left + pitch;
      assert z in all;
    }
  }

  /** A candidate of the gap `ps[a]`..`ps[a + 1]` is covered after one pass. */
  lemma CoverFromCandidate(ps: seq<real>, pitch: real, slatWidth: real, limit: real, a: int, y: real)
    requires pitch > 0.0 && 0.0 < slatWidth <= pitch && Increasing(ps) && Within(ps, 0.0, limit)
    requires 0 <= a < |ps| - 1 && y in GapFill(ps[a], ps[a + 1], pitch, slatWidth, limit)
    ensures CoveredIn(y, ps + Candidates(ps, pitch, slatWidth, limit), pitch)
  {
    var all := ps + Candidates(ps, pitch, slatWidth, limit);
    var left, right := ps[a], ps[a + 1];
    assert left in ps && right in ps && right in all;
    assert right - left > pitch;
    GapCover(left, right, pitch, slatWidth, limit);
    GapInCandidates(ps, pitch, slatWidth, limit, a);
    if right > y + pitch {
      var z :| z in GapFill(left, right, pitch, slatWidth, limit) && y < z <= y + pitch;
      assert z in all;
    }
  }

  /**
   * One regular pass leaves no neighbours more than a pitch apart: after
   * adding the candidates of every gap, each position but the last has
   * another within one pitch above it.
   */
  lemma OnePassDense(ps: seq<real>, pitch: real, slatWidth: real, limit: real)
    requires pitch > 0.0 && 0.0 < slatWidth <= pitch && Increasing(ps) && Within(ps, 0.0, limit)
    ensures var next := Normalize(ps + Candidates(ps, pitch, slatWidth, limit));
      Dense(next, pitch) && Within(next, 0.0, limit)
  {
    var cands := Candidates(ps, pitch, slatWidth, limit);
    var all := ps + cands;
    var next := Normalize(all);
    CandidatesInside(ps, pitch, slatWidth, limit);
    OnePassBounds(ps, pitch, slatWidth, limit);
    forall i | 0 <= i < |next| - 1
      ensures exists z :: z in next && next[i] < z <= next[i] + pitch
    {
      var y := next[i];
      assert y in all;
      assert y < next[|next| - 1] && next[|next| - 1] in next;
      if y in ps {
        var a :| 0 <= a < |ps| && ps[a] == y;
        assert a < |ps| - 1;
        CoverFromPosition(ps, pitch, slatWidth, limit, a);
      } else {
        assert y in cands;
        var a :| 0 <= a < |ps| - 1 && ps[a] < y < ps[a + 1] && y in GapFill(ps[a], ps[a + 1], pitch, slatWidth, limit);
        CoverFromCandidate(ps, pitch, slatWidth, limit, a, y);
      }
      var z :| z in all && y < z <= y + pitch;
      assert z in next;
    }
    DenseFromCover(next, pitch);
  }

  /** After one pass every position still lies in `[0, limit]` and none exceeds the last old one. */
  lemma OnePassBounds(ps: seq<real>, pitch: real, slatWidth: real, limit: real)
    requires pitch > 0.0 && 0.0 < slatWidth <= pitch && Increasing(ps) && Within(ps, 0.0, limit)
    ensures var next := Normalize(ps + Candidates(ps, pitch, slatWidth, limit));
      && Within(next, 0.0, limit)
      && (|ps| > 0 ==> forall x :: x in next ==> x <= ps[|ps| - 1])
  {
    var next := Normalize(ps + Candidates(ps, pitch, slatWidth, limit));
    forall x | x in next
      ensures 0.0 <= x <= limit && (|ps| > 0 ==> x <= ps[|ps| - 1])
    {
      PositionBound(ps, pitch, slatWidth, limit, x);
    }
  }

  /** A position or candidate of one pass lies in `[0, limit]`, at or below the last position. */
  lemma PositionBound(ps: seq<real>, pitch: real, slatWidth: real, limit: real, x: real)
    requires pitch > 0.0 && 0.0 < slatWidth <= pitch && Increasing(ps) && Within(ps, 0.0, limit)
    requires x in ps + Candidates(ps, pitch, slatWidth, limit)
    ensures |ps| > 0 && 0.0 <= x <= limit && x <= ps[|ps| - 1]
  {
    var cands := Candidates(ps, pitch, slatWidth, limit);
    CandidatesInside(ps, pitch, slatWidth, limit);
    var a: int;
    if x in ps {
      a :| 0 <= a < |ps| && ps[a] == x;
    } else {
      assert x in cands;
      a :| 0 <= a < |ps| - 1 && ps[a] < x < ps[a + 1] && x in GapFill(ps[a], ps[a + 1], pitch, slatWidth, limit);
      assert ps[a] in ps && 0.0 <= ps[a] < x;
      a := a + 1;
    }
    assert ps[a] in ps && x <= ps[a];
    IncreasingMono(ps, a, |ps| - 1);
  }

  /** Clamping changes nothing when every position already lies in `[0, limit]`. */
  lemma ClampAllWithin(s: seq<real>, limit: real)
    requires Within(s, 0.0, limit)
    ensures ClampAll(s, limit) == s
  {
    forall i | 0 <= i < |s|
      ensures ClampAll(s, limit)[i] == s[i]
    {
      assert s[i] in s;
    }
  }

  /** Dense positions are stable: a pass proposes nothing. */
  lemma DenseStable(ps: seq<real>, pitch: real, slatWidth: real, limit: real)
    requires pitch > 0.0 && Dense(ps, pitch)
    ensures Candidates(ps, pitch, slatWidth, limit) == []
    ensures Stable(ps, pitch, slatWidth, limit)
  {
    if |ps| >= 2 {
      DenseNoCandidates(ps, pitch, slatWidth, limit, |ps| - 1);
    }
  }

  /**
   * Sorted, dense positions inside `[0, limit]` are a fixed point of the
   * filler: given as forced positions, they come back unchanged.
   */
  lemma FillFixedPoint(s: seq<real>, pitch: real, slatWidth: real, limit: real, maxPasses: nat)
    requires pitch > 0.0 && maxPasses >= 1
    requires Increasing(s) && Dense(s, pitch) && Within(s, 0.0, limit)
    ensures Fill(s, pitch, slatWidth, limit, maxPasses) == Some(s)
  {
    NormalizeOfIncreasing(s);
    DenseStable(s, pitch, slatWidth, limit);
    assert Iterate(s, pitch, slatWidth, limit, maxPasses) == Some(s);
    ClampAllWithin(s, limit);
  }

  /**
   * When the first pass is not already stable, the second one is: repeated
   * passes from `ps` end after the first.
   */
  lemma IterateTwice(ps: seq<real>, pitch: real, slatWidth: real, limit: real, fuel: nat)
    requires pitch > 0.0 && fuel >= 2 && Increasing(ps)
    requires Stable(Normalize(ps + Candidates(ps, pitch, slatWidth, limit)), pitch, slatWidth, limit)
    ensures Iterate(ps, pitch, slatWidth, limit, fuel) == Some(Normalize(ps + Candidates(ps, pitch, slatWidth, limit)))
  {
    var next := Normalize(ps + Candidates(ps, pitch, slatWidth, limit));
    FixTwice(ps, fuel, StableTest(pitch, slatWidth, limit), Pass(pitch, slatWidth, limit));
    IterateIsFix(ps, pitch, slatWidth, limit, fuel, StableTest(pitch, slatWidth, limit), Pass(pitch, slatWidth, limit));
    if Stable(ps, pitch, slatWidth, limit) {
      IncreasingUnique(ps, next);
    }
  }

  /** When the step's first result passes the stopping test, iteration ends after at most one step. */
  lemma FixTwice(ps: seq<real>, fuel: nat, stable: seq<real> -> bool, next: seq<real> -> seq<real>)
    requires fuel >= 2 && stable(next(ps))
    ensures Fix(ps, fuel, stable, next) == if stable(ps) then Some(ps) else Some(next(ps))
  {
    if !stable(ps) {
      assert Fix(ps, fuel, stable, next) == Fix(next(ps), fuel - 1, stable, next);
    }
  }

  /**
   * The regular case the filler is designed for: a slat no wider than the
   * pitch and forced positions inside `[0, limit]`. The filler then finishes
   * within two passes with a sorted result inside `[0, limit]` that keeps
   * every forced position and leaves no two neighbours more than one pitch
   * apart.
   */
  lemma FillRegular(base: seq<real>, pitch: real, slatWidth: real, limit: real, maxPasses: nat)
    requires pitch > 0.0 && 0.0 < slatWidth <= pitch && maxPasses >= 2 && Within(base, 0.0, limit)
    ensures var r := Fill(base, pitch, slatWidth, limit, maxPasses);
      && r.Some?
      && r == Fill(base, pitch, slatWidth, limit, 2)
      && Increasing(r.value)
      && Dense(r.value, pitch)
      && Within(r.value, 0.0, limit)
      && forall b :: b in base ==> b in r.value
  {
    var first := Normalize(base);
    var second := Normalize(first + Candidates(first, pitch, slatWidth, limit));
    OnePassDense(first, pitch, slatWidth, limit);
    DenseStable(second, pitch, slatWidth, limit);
    IterateTwice(first, pitch, slatWidth, limit, maxPasses);
    IterateTwice(first, pitch, slatWidth, limit, 2);
    ClampAllWithin(second, limit);
    NormalizeOfIncreasing(second);
  }

  /**
   * The filler is idempotent: whenever the forced positions hold both ends
   * `0` and `limit`, running it again on what it returns, with any budget of
   * at least one pass, gives the same positions back. No assumption on the
   * slat width, the pitch or where the other forced positions lie.
   */
  lemma FillIdempotent(base: seq<real>, pitch: real, slatWidth: real, limit: real, maxPasses: nat, passes: nat)
    requires 0.0 <= limit && 0.0 in base && limit in base && passes >= 1
    ensures var r := Fill(base, pitch, slatWidth, limit, maxPasses);
      r.Some? ==> Fill(r.value, pitch, slatWidth, limit, passes) == r
  {
    var r := Fill(base, pitch, slatWidth, limit, maxPasses);
    if r.Some? {
      var s := r.value;
      FillOutput(base, pitch, slatWidth, limit, maxPasses);
      assert Within(s, 0.0, limit);
      NormalizeOfIncreasing(s);
      ClampAllWithin(s, limit);
      if pitch > 0.0 {
        var first := Normalize(base);
        var ps := Iterate(first, pitch, slatWidth, limit, maxPasses).value;
        IterateIncreasing(first, pitch, slatWidth, limit, maxPasses);
        IterateStable(first, pitch, slatWidth, limit, maxPasses);
        IterateGrows(first, pitch, slatWidth, limit, maxPasses);
        assert 0.0 in ps && limit in ps;
        ClampedStable(ps, pitch, slatWidth, limit);
        StableCase(s, pitch, slatWidth, limit, passes);
      }
    }
  }

  /** Iterating a step that keeps `inv` from a start satisfying `inv` ends where `inv` holds. */
  lemma {:induction false} FixKeeps(ps: seq<real>, fuel: nat, stable: seq<real> -> bool, next: seq<real> -> seq<real>,
                                    inv: seq<real> -> bool)
    requires inv(ps) && forall s :: inv(s) ==> inv(next(s))
    ensures Fix(ps, fuel, stable, next).Some? ==> inv(Fix(ps, fuel, stable, next).value)
    decreases fuel
  {
    if fuel > 0 && !stable(ps) {
      FixKeeps(next(ps), fuel - 1, stable, next, inv);
    }
  }

  /** Repeated passes from a sorted set end at a sorted set. */
  lemma IterateIncreasing(ps: seq<real>, pitch: real, slatWidth: real, limit: real, fuel: nat)
    requires pitch > 0.0 && Increasing(ps)
    ensures Iterate(ps, pitch, slatWidth, limit, fuel).Some? ==> Increasing(Iterate(ps, pitch, slatWidth, limit, fuel).value)
  {
    var inv: seq<real> -> bool := s => Increasing(s);
    var next := Pass(pitch, slatWidth, limit);
    forall s | inv(s)
      ensures inv(next(s))
    {
      assert next(s) == Normalize(s + Candidates(s, pitch, slatWidth, limit));
    }
    FixKeeps(ps, fuel, StableTest(pitch, slatWidth, limit), next, inv);
    IterateIsFix(ps, pitch, slatWidth, limit, fuel, StableTest(pitch, slatWidth, limit), next);
  }

  /** Every candidate of a gap is pulled into `[0, limit]`. */
  lemma {:induction false} StepCandidatesClamped(left: real, right: real, pitch: real, slatWidth: real, limit: real,
                                                 steps: int, k: int)
    requires 0.0 <= limit
    ensures forall c :: c in StepCandidates(left, right, pitch, slatWidth, limit, steps, k) ==> 0.0 <= c <= limit
    decreases k
  {
    if k > 0 {
      StepCandidatesClamped(left, right, pitch, slatWidth, limit, steps, k - 1);
    }
  }

  /** The candidates of a gap lie in `[0, limit]`. */
  lemma GapFillClamped(left: real, right: real, pitch: real, slatWidth: real, limit: real)
    requires pitch > 0.0 && 0.0 <= limit
    ensures forall c :: c in GapFill(left, right, pitch, slatWidth, limit) ==> 0.0 <= c <= limit
  {
    if right - left > pitch {
      var steps := Steps(right - left, pitch);
      StepCandidatesClamped(left, right, pitch, slatWidth, limit, steps, steps);
    }
  }

  /**
   * The final clamp of a list holding both ends keeps exactly its positions
   * inside `[0, limit]`: anything below is pulled onto `0`, anything above
   * onto `limit`, and both are already there.
   */
  lemma ClampedMembers(ps: seq<real>, limit: real)
    requires 0.0 <= limit && 0.0 in ps && limit in ps
    ensures forall y :: y in Normalize(ClampAll(ps, limit)) <==> y in ps && 0.0 <= y <= limit
  {
    ClampAllMembers(ps, limit);
    forall y | y in ClampAll(ps, limit)
      ensures y in ps && 0.0 <= y <= limit
    {
      var x :| x in ps && y == Clamp(x, limit);
    }
    forall y | y in ps && 0.0 <= y <= limit
      ensures y in ClampAll(ps, limit)
    {
      assert Clamp(y, limit) == y;
    }
  }

  /**
   * Neighbours in the part of a sorted list inside `[0, limit]` are
   * neighbours in the list itself: nothing of the list lies between them.
   */
  lemma ClampedNeighbours(ps: seq<real>, r: seq<real>, limit: real, a: int) returns (b: int)
    requires Increasing(ps) && Increasing(r)
    requires forall y :: y in r <==> y in ps && 0.0 <= y <= limit
    requires 0 <= a < |r| - 1
    ensures 0 <= b < |ps| - 1 && ps[b] == r[a] && ps[b + 1] == r[a + 1]
  {
    assert r[a] in r && r[a + 1] in r;
    b :| 0 <= b < |ps| && ps[b] == r[a];
    var c :| 0 <= c < |ps| && ps[c] == r[a + 1];
    IncreasingOrder(ps, b, c);
    IncreasingMono(ps, b + 1, c);
    if ps[b + 1] < r[a + 1] {
      assert ps[b + 1] in ps && r[a] < ps[b + 1];
      var j :| 0 <= j < |r| && r[j] == ps[b + 1];
      IncreasingOrder(r, a, j);
      IncreasingOrder(r, j, a + 1);
      assert false;
    }
  }

  /**
   * Clamping a stable sorted list that holds both ends gives a stable list
   * inside `[0, limit]`: each of its gaps is a gap of the list, whose
   * candidates are all already positions, and inside the range.
   */
  lemma ClampedStable(ps: seq<real>, pitch: real, slatWidth: real, limit: real)
    requires pitch > 0.0 && 0.0 <= limit && Increasing(ps) && Stable(ps, pitch, slatWidth, limit)
    requires 0.0 in ps && limit in ps
    ensures Stable(Normalize(ClampAll(ps, limit)), pitch, slatWidth, limit)
  {
    var r := Normalize(ClampAll(ps, limit));
    ClampedMembers(ps, limit);
    if |r| >= 2 {
      PassCandidatesFrom(r, pitch, slatWidth, limit, |r| - 1);
      forall c | c in Candidates(r, pitch, slatWidth, limit)
        ensures c in r
      {
        var a :| 0 <= a < |r| - 1 && c in GapFill(r[a], r[a + 1], pitch, slatWidth, limit);
        var b := ClampedNeighbours(ps, r, limit, a);
        GapInCandidates(ps, pitch, slatWidth, limit, b);
        GapFillClamped(r[a], r[a + 1], pitch, slatWidth, limit);
      }
    }
  }

  /**
   * In a gap wider than a pitch, the candidates are one per whole pitch step,
   * and the last one is `left + steps * pitch`, or `right - slatWidth` when a
   * slat there would overshoot `right`.
   */
  lemma GapFillLast(left: real, right: real, pitch: real, slatWidth: real, limit: real)
    requires pitch > 0.0 && 0.0 < slatWidth <= pitch
    requires 0.0 <= left && right <= limit && right - left > pitch
    ensures var fill := GapFill(left, right, pitch, slatWidth, limit);
      var steps := Steps(right - left, pitch);
      var top := left + steps as real * pitch;
      && |fill| == steps >= 1
      && fill[|fill| - 1] == if top + slatWidth > right then right - slatWidth else top
  {
    var steps := Steps(right - left, pitch);
    var k := steps - 1;
    var c := Proposal(left, right, pitch, slatWidth, steps, steps);
    StepsBounds(right - left, pitch, steps);
    LastProposal(left, right, pitch, slatWidth, steps);
    RegularSteps(left, right, pitch, slatWidth, limit, steps, k);
    var regular := StepCandidates(left, right, pitch, slatWidth, limit, steps, k);
    assert Clamp(c, limit) == c;
    assert GapFill(left, right, pitch, slatWidth, limit) == regular + [c];
  }

  // ---------------------------------------------------------------------------
  // Post and traverse positions
  // ---------------------------------------------------------------------------

  /** Posts run along x across the panel width; traverses along z up its height. */
  datatype Run = Posts | Traverses

  /** The low and high edge of an opening along the run's axis. */
  function Edges(run: Run, o: Opening): (real, real) {
    var b := o.Bounds();
    match run
    case Posts => (b.xMin, b.xMax)
    case Traverses => (b.zMin, b.zMax)
  }

  /** `max(extent - slat_width, 0.0)`: the highest start position a member can take. */
  function StartLimit(extent: real, slatWidth: real): (limit: real)
    ensures limit >= 0.0 && limit >= extent - slatWidth
    ensures limit == extent - slatWidth || limit == 0.0
  {
    Max(extent - slatWidth, 0.0)
  }

  /**
   * The forced positions: both panel ends, then for each opening in turn the
   * slat placed just before it (`low - slatWidth`) and just after it (`high`).
   */
  function Forced(run: Run, limit: real, slatWidth: real, openings: seq<Opening>): (base: seq<real>)
    ensures |base| == 2 + 2 * |openings|
    ensures base[0] == 0.0 && base[1] == limit
    ensures forall i :: 0 <= i < |openings| ==>
      base[2 + 2 * i] == Edges(run, openings[i]).0 - slatWidth && base[3 + 2 * i] == Edges(run, openings[i]).1
  {
    if openings == [] then [0.0, limit]
    else
      var n := |openings| - 1;
      var (low, high) := Edges(run, openings[n]);
      Forced(run, limit, slatWidth, openings[..n]) + [low - slatWidth, high]
  }

  /** Every opening's forced positions lie in `[0, limit]`: the openings sit inside the panel, a slat away from its ends. */
  ghost predicate EdgesInside(run: Run, limit: real, slatWidth: real, openings: seq<Opening>) {
    forall i :: 0 <= i < |openings| ==>
      && 0.0 <= Edges(run, openings[i]).0 - slatWidth <= limit
      && 0.0 <= Edges(run, openings[i]).1 <= limit
  }

  /** The seeding loop shared by `compute_post_positions` and `compute_traverse_positions`. */
  method SeedPositions(run: Run, limit: real, slatWidth: real, openings: seq<Opening>) returns (base: seq<real>)
    ensures base == Forced(run, limit, slatWidth, openings)
  {
    base := [0.0, limit];
    for i := 0 to |openings|
      invariant base == Forced(run, limit, slatWidth, openings[..i])
    {
      assert openings[..i + 1][..i] == openings[..i];
      var (low, high) := Edges(run, openings[i]);
      base := base + [low - slatWidth, high];
    }
    assert openings[..|openings|] == openings;
  }

  /**
   * `compute_post_positions` (`run == Posts`) and `compute_traverse_positions`
   * (`run == Traverses`): the filler seeded with the panel ends and the
   * opening edges. Whatever it returns is sorted, inside `[0, limit]`, and
   * holds both ends of that range.
   */
  method ComputePositions(run: Run, extent: real, pitch: real, slatWidth: real, openings: seq<Opening>, maxPasses: nat)
    returns (r: Option<seq<real>>)
    ensures var limit := StartLimit(extent, slatWidth);
      r == Fill(Forced(run, limit, slatWidth, openings), pitch, slatWidth, limit, maxPasses)
    ensures var limit := StartLimit(extent, slatWidth);
      r.Some? ==> Increasing(r.value) && Within(r.value, 0.0, limit) && 0.0 in r.value && limit in r.value
  {
    var limit := StartLimit(extent, slatWidth);
    var base := SeedPositions(run, limit, slatWidth, openings);
    r := FillPositions(base, pitch, slatWidth, limit, maxPasses);
    FillOutput(base, pitch, slatWidth, limit, maxPasses);
    assert base[0] in base && base[1] in base;
  }

  lemma ForcedWithin(run: Run, limit: real, slatWidth: real, openings: seq<Opening>)
    requires limit >= 0.0 && EdgesInside(run, limit, slatWidth, openings)
    ensures Within(Forced(run, limit, slatWidth, openings), 0.0, limit)
  {
    var base := Forced(run, limit, slatWidth, openings);
    forall x | x in base
      ensures 0.0 <= x <= limit
    {
      var j :| 0 <= j < |base| && base[j] == x;
      if j >= 2 {
        var i := (j - 2) / 2;
        assert 0 <= i < |openings|;
        var edges := Edges(run, openings[i]);
        if j == 2 + 2 * i {
          assert x == edges.0 - slatWidth;
        } else {
          assert j == 3 + 2 * i && x == edges.1;
        }
      }
    }
  }

  /** Both panel ends and every opening's two forced positions are among the forced positions. */
  lemma ForcedMembers(run: Run, limit: real, slatWidth: real, openings: seq<Opening>)
    ensures var base := Forced(run, limit, slatWidth, openings);
      && 0.0 in base && limit in base
      && forall i :: 0 <= i < |openings| ==>
           Edges(run, openings[i]).0 - slatWidth in base && Edges(run, openings[i]).1 in base
  {
    var base := Forced(run, limit, slatWidth, openings);
    assert base[0] in base && base[1] in base;
    forall i | 0 <= i < |openings|
      ensures Edges(run, openings[i]).0 - slatWidth in base && Edges(run, openings[i]).1 in base
    {
      assert base[2 + 2 * i] in base && base[3 + 2 * i] in base;
    }
  }

  /**
   * With a slat no wider than the pitch and the openings inside the panel,
   * post (or traverse) positions exist within two passes, keep both ends and
   * every opening edge, leave no two neighbours more than one pitch apart,
   * and come back unchanged when fed to the filler again.
   */
  lemma RegularPositions(run: Run, extent: real, pitch: real, slatWidth: real, openings: seq<Opening>, maxPasses: nat)
    requires pitch > 0.0 && 0.0 < slatWidth <= pitch && maxPasses >= 2
    requires EdgesInside(run, StartLimit(extent, slatWidth), slatWidth, openings)
    ensures var limit := StartLimit(extent, slatWidth);
      var r := Fill(Forced(run, limit, slatWidth, openings), pitch, slatWidth, limit, maxPasses);
      && r.Some?
      && Dense(r.value, pitch)
      && 0.0 in r.value && limit in r.value
      && (forall i :: 0 <= i < |openings| ==>
            Edges(run, openings[i]).0 - slatWidth in r.value && Edges(run, openings[i]).1 in r.value)
      && Fill(r.value, pitch, slatWidth, limit, maxPasses) == r
  {
    var limit := StartLimit(extent, slatWidth);
    var base := Forced(run, limit, slatWidth, openings);
    ForcedWithin(run, limit, slatWidth, openings);
    FillRegular(base, pitch, slatWidth, limit, maxPasses);
    ForcedMembers(run, limit, slatWidth, openings);
    FillIdempotent(base, pitch, slatWidth, limit, maxPasses, maxPasses);
  }

  /**
   * Post and traverse positions are a fixed point of the filler whatever the
   * pitch, slat width and openings: fed back as forced positions, with any
   * budget of at least one pass, they come back unchanged.
   */
  lemma PositionsIdempotent(run: Run, extent: real, pitch: real, slatWidth: real, openings: seq<Opening>,
                            maxPasses: nat, passes: nat)
    requires passes >= 1
    ensures var limit := StartLimit(extent, slatWidth);
      var r := Fill(Forced(run, limit, slatWidth, openings), pitch, slatWidth, limit, maxPasses);
      r.Some? ==> Fill(r.value, pitch, slatWidth, limit, passes) == r
  {
    var limit := StartLimit(extent, slatWidth);
    ForcedMembers(run, limit, slatWidth, openings);
    FillIdempotent(Forced(run, limit, slatWidth, openings), pitch, slatWidth, limit, maxPasses, passes);
  }
}
