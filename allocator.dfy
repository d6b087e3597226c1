/** The point-budget allocator behind the stat sliders (`handleStatChange`):
    one stat moves at a time, each stat stays in 1..255, and a change that
    would lift the total above 600 is cut down to the points still free. */
module Allocator {
  import opened Catalog
  import opened Profile

  /** `Math.round`: the nearest integer, halves rounded up. */
  function Round(x: real): (n: int)
    ensures x - 0.5 < n as real <= x + 0.5
  {
    (x + 0.5).Floor
  }

  /** `Math.max(1, Math.min(255, Math.round(raw)))`. */
  function ClampRequest(raw: real): (v: int)
    ensures STAT_MIN <= v <= STAT_MAX
    ensures STAT_MIN <= Round(raw) <= STAT_MAX ==> v == Round(raw)
    ensures Round(raw) < STAT_MIN ==> v == STAT_MIN
    ensures Round(raw) > STAT_MAX ==> v == STAT_MAX
  {
    var n := Round(raw);
    if n < STAT_MIN then STAT_MIN else if n > STAT_MAX then STAT_MAX else n
  }

  /** The state updater of `handleStatChange(key, raw)`: the new stats given
      the previous ones. */
  function Allocate(prev: Stats, key: StatKey, raw: real): (r: Stats)
    ensures r == prev.With(key, r.Get(key))
    ensures r == prev || r.Get(key) == ClampRequest(raw) || Total(r) == STAT_CEILING
  {
    var value := ClampRequest(raw);
    var current := prev.Get(key);
    var delta := value - current;
    if delta == 0 then prev
    else
      var currentTotal := Total(prev);
      if currentTotal + delta > STAT_CEILING then
        var allowedDelta := STAT_CEILING - currentTotal;
        if allowedDelta <= 0 then prev
        else
          TotalWith(prev, key, current + allowedDelta);
          prev.With(key, current + allowedDelta)
      else prev.With(key, value)
  }

  /** Only the named stat can change; the others are never rebalanced. */
  lemma AllocateTouchesOnlyKey(prev: Stats, key: StatKey, raw: real, k: StatKey)
    requires k != key
    ensures Allocate(prev, key, raw).Get(k) == prev.Get(k)
  {
  }

  /** A request equal to the current value after clamping changes nothing. */
  lemma AllocateSameValueNoOp(prev: Stats, key: StatKey, raw: real)
    requires ClampRequest(raw) == prev.Get(key)
    ensures Allocate(prev, key, raw) == prev
  {
  }

  /** A request that keeps the total within the ceiling is committed exactly. */
  lemma AllocateWithinBudget(prev: Stats, key: StatKey, raw: real)
    requires Total(prev) - prev.Get(key) + ClampRequest(raw) <= STAT_CEILING
    ensures Allocate(prev, key, raw) == prev.With(key, ClampRequest(raw))
  {
  }

  /** A request that would overshoot the ceiling is cut down to the free
      points: the stat becomes exactly `current + (600 - total)`, which fills
      the budget. */
  lemma AllocateTruncatesToHeadroom(prev: Stats, key: StatKey, raw: real)
    requires Total(prev) - prev.Get(key) + ClampRequest(raw) > STAT_CEILING
    requires Total(prev) < STAT_CEILING
    ensures Allocate(prev, key, raw) == prev.With(key, prev.Get(key) + (STAT_CEILING - Total(prev)))
    ensures Total(Allocate(prev, key, raw)) == STAT_CEILING
  {
    TotalWith(prev, key, prev.Get(key) + (STAT_CEILING - Total(prev)));
  }

  /** With no free points, an overshooting request changes nothing. This also
      blocks a decrease while an imported over-budget total stays above 600. */
  lemma AllocateNoHeadroomNoChange(prev: Stats, key: StatKey, raw: real)
    requires Total(prev) >= STAT_CEILING
    requires Total(prev) - prev.Get(key) + ClampRequest(raw) > STAT_CEILING
    ensures Allocate(prev, key, raw) == prev
  {
  }

  /** After an import of six stats at 255 (1530 points), lowering one of them
      to 200 is refused as well: the profile cannot be brought back under the
      ceiling with the sliders. */
  lemma OverBudgetDecreaseBlocked()
    ensures Allocate(Stats(255, 255, 255, 255, 255, 255), Strategy, 200.0) == Stats(255, 255, 255, 255, 255, 255)
  {
    TotalIsSum(Stats(255, 255, 255, 255, 255, 255));
  }

  /** The allocator's invariant: every stat in range and the total within the
      ceiling hold after the change if they held before. */
  lemma {:induction false} AllocatePreservesBudget(prev: Stats, key: StatKey, raw: real)
    requires prev.InRange() && Total(prev) <= STAT_CEILING
    ensures Allocate(prev, key, raw).InRange()
    ensures Total(Allocate(prev, key, raw)) <= STAT_CEILING
  {
    var value := ClampRequest(raw);
    var current := prev.Get(key);
    var r := Allocate(prev, key, raw);
    if value != current {
      if Total(prev) + value - current > STAT_CEILING {
        var allowed := STAT_CEILING - Total(prev);
        if allowed > 0 {
          TotalWith(prev, key, current + allowed);
          assert r.Get(key) == current + allowed;
        }
      } else {
        TotalWith(prev, key, value);
      }
    }
  }

  /** Whatever the previous total, the changed stat never leaves 1..255 when
      it started there, and the total never grows past the ceiling through a
      change (it can only stay where it was). */
  lemma {:induction false} AllocateNeverOvershoots(prev: Stats, key: StatKey, raw: real)
    ensures STAT_MIN <= prev.Get(key) <= STAT_MAX ==> STAT_MIN <= Allocate(prev, key, raw).Get(key) <= STAT_MAX
    ensures Allocate(prev, key, raw) == prev || Total(Allocate(prev, key, raw)) <= STAT_CEILING
  {
    var value := ClampRequest(raw);
    var current := prev.Get(key);
    if value != current {
      if Total(prev) + value - current > STAT_CEILING {
        var allowed := STAT_CEILING - Total(prev);
        if allowed > 0 {
          TotalWith(prev, key, current + allowed);
        }
      } else {
        TotalWith(prev, key, value);
      }
    }
  }
}
