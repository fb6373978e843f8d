/**
 The choice of x-axis tick positions in `update_graph`: which of the `n`
 sample indices get a time label, given the label budget `max_labels`
 (4, 6 or 8, chosen from the figure's aspect ratio, which is not modelled).
 */
module TickLabels {

  /** `list(range(start, stop, step))` for a positive step. */
  function Range(start: nat, stop: nat, step: nat): (r: seq<nat>)
    requires step > 0
    ensures |r| > 0 <==> start < stop
    ensures |r| > 0 ==> r[0] == start && r[|r| - 1] < stop <= r[|r| - 1] + step
    ensures forall i :: 0 < i < |r| ==> r[i] == r[i - 1] + step
    decreases stop - start
  {
    if start >= stop then [] else [start] + Range(start + step, stop, step)
  }

  /** With a unit step the range is every index from `start` on. */
  lemma {:induction false} UnitRange(start: nat, stop: nat)
    ensures forall i :: 0 <= i < |Range(start, stop, 1)| ==> Range(start, stop, 1)[i] == start + i
    decreases stop - start
  {
    if start < stop {
      UnitRange(start + 1, stop);
    }
  }

  /** The number of positions of a range: `(|r| - 1) * step < stop - start <= |r| * step`. */
  lemma {:induction false} RangeLength(start: nat, stop: nat, step: nat)
    requires step > 0 && start < stop
    ensures (|Range(start, stop, step)| - 1) * step < stop - start <= |Range(start, stop, step)| * step
    decreases stop - start
  {
    var rest := Range(start + step, stop, step);
    var k := |rest|;
    assert |Range(start, stop, step)| == k + 1;
    if start + step < stop {
      RangeLength(start + step, stop, step);
      Distribute(k, step);
    }
  }

  lemma Distribute(k: int, s: int)
    ensures (k - 1) * s + s == k * s && k * s + s == (k + 1) * s
  {
  }

  /** The spacing of the labels when there are more samples than labels
      (`max(1, n // max_labels)`). */
  function Stride(n: nat, maxLabels: nat): (step: nat)
    requires maxLabels > 0
    ensures step >= 1
    ensures n < maxLabels ==> step == 1
    ensures n >= maxLabels ==> step * maxLabels <= n < step * maxLabels + maxLabels
  {
    var q := n / maxLabels;
    assert n == q * maxLabels + n % maxLabels;
    if q < 1 then 1 else q
  }

  /** Reference description of a labelling of `n` samples with stride
      `step`: strictly increasing positions from `0` to `n - 1`, each gap
      exactly `step` except the last one, which is at most `step`. */
  predicate Spaced(t: seq<nat>, n: nat, step: nat) {
    && |t| > 0
    && t[0] == 0
    && t[|t| - 1] == n - 1
    && (forall i, j :: 0 <= i < j < |t| ==> t[i] < t[j])
    && (forall i :: 0 < i < |t| - 1 ==> t[i] == t[i - 1] + step)
    && (|t| > 1 ==> t[|t| - 1] <= t[|t| - 2] + step)
  }

  lemma {:induction false} StepsAreSorted(t: seq<nat>)
    requires forall i :: 0 < i < |t| ==> t[i - 1] < t[i]
    ensures forall i, j :: 0 <= i < j < |t| ==> t[i] < t[j]
    decreases |t|
  {
    if |t| > 1 {
      var init := t[..|t| - 1];
      assert forall i :: 0 < i < |init| ==> init[i - 1] < init[i];
      StepsAreSorted(init);
      forall i, j | 0 <= i < j < |t| ensures t[i] < t[j] {
        if j < |t| - 1 {
          assert init[i] < init[j];
        } else if i < j - 1 {
          assert init[i] < init[j - 1];
        }
      }
    }
  }

  /** A range that ends on `n - 1` is a labelling in its own right. */
  lemma RangeIsSpaced(n: nat, step: nat)
    requires n > 0 && step > 0
    requires Range(0, n, step)[|Range(0, n, step)| - 1] == n - 1
    ensures Spaced(Range(0, n, step), n, step)
  {
    StepsAreSorted(Range(0, n, step));
  }

  /** A range that stops short of `n - 1`, with `n - 1` appended. */
  lemma RangePlusLastIsSpaced(n: nat, step: nat)
    requires n > 0 && step > 0
    requires Range(0, n, step)[|Range(0, n, step)| - 1] != n - 1
    ensures Spaced(Range(0, n, step) + [n - 1], n, step)
  {
    AppendLastIsSpaced(Range(0, n, step), n, step);
  }

  lemma AppendLastIsSpaced(p: seq<nat>, n: nat, step: nat)
    requires |p| > 0 && p[0] == 0
    requires forall i :: 0 < i < |p| ==> p[i] == p[i - 1] + step
    requires p[|p| - 1] < n - 1 <= p[|p| - 1] + step
    ensures Spaced(p + [n - 1], n, step)
  {
    var t := p + [n - 1];
    forall i | 0 < i < |t| ensures t[i - 1] < t[i] {
      if i < |p| {
        assert t[i] == p[i] && t[i - 1] == p[i - 1];
      }
    }
    StepsAreSorted(t);
  }

  /** The `else` branch of the tick choice: every `step`-th index from 0,
      with the last index added when the stride does not land on it. */
  function Strided(n: nat, step: nat): (t: seq<nat>)
    requires n > 0 && step > 0
    ensures Spaced(t, n, step)
    ensures |t| == |Range(0, n, step)| || (step > 1 && |t| == |Range(0, n, step)| + 1)
  {
    var positions := Range(0, n, step);
    if positions[|positions| - 1] != n - 1 then
      RangePlusLastIsSpaced(n, step);
      positions + [n - 1]
    else
      RangeIsSpaced(n, step);
      positions
  }

  /** The tick positions `update_graph` chooses for `n` samples: every index
      when they fit in the budget, otherwise the strided choice. */
  function Ticks(n: nat, maxLabels: nat): (t: seq<nat>)
    requires maxLabels > 0
    ensures n <= maxLabels ==> |t| == n && forall i :: 0 <= i < |t| ==> t[i] == i
    ensures n > maxLabels ==> Spaced(t, n, Stride(n, maxLabels))
  {
    if n <= maxLabels then
      UnitRange(0, n);
      Range(0, n, 1)
    else Strided(n, Stride(n, maxLabels))
  }

  /** What a labelling with stride `step` guarantees: positions below `n`,
      strictly increasing, neighbours at most a stride apart. */
  lemma SpacedWithinStride(t: seq<nat>, n: nat, step: nat)
    requires Spaced(t, n, step)
    ensures forall i :: 0 <= i < |t| ==> t[i] < n
    ensures forall i :: 0 < i < |t| ==> t[i - 1] < t[i] <= t[i - 1] + step
  {
    forall i | 0 <= i < |t| ensures t[i] < n {
      if i < |t| - 1 {
        assert t[i] < t[|t| - 1];
      }
    }
    forall i | 0 < i < |t| ensures t[i - 1] < t[i] <= t[i - 1] + step {
      assert t[i - 1] < t[i];
    }
  }

  /** With more samples than labels the positions start at 0, end at
      `n - 1`, stay below `n`, strictly increase, and no two neighbours are
      more than a stride apart. */
  lemma {:induction false} TicksWithinStride(n: nat, maxLabels: nat)
    requires maxLabels > 0 && n > maxLabels
    ensures var t := Ticks(n, maxLabels);
      && t[0] == 0
      && t[|t| - 1] == n - 1
      && (forall i :: 0 <= i < |t| ==> t[i] < n)
      && (forall i :: 0 < i < |t| ==> t[i - 1] < t[i] <= t[i - 1] + Stride(n, maxLabels))
  {
    var t := Ticks(n, maxLabels);
    var step := Stride(n, maxLabels);
    assert Spaced(t, n, step);
    SpacedWithinStride(t, n, step);
  }

  lemma {:induction false} SpacedAgreeBeforeLast(a: seq<nat>, b: seq<nat>, n: nat, step: nat, i: nat)
    requires Spaced(a, n, step) && Spaced(b, n, step)
    requires i < |a| - 1 && i < |b|
    ensures a[i] == b[i]
    decreases i
  {
    if i > 0 {
      SpacedAgreeBeforeLast(a, b, n, step, i - 1);
    }
  }

  /** At most one sequence matches the reference description, so it pins the
      positions down completely. */
  lemma SpacedIsUnique(a: seq<nat>, b: seq<nat>, n: nat, step: nat)
    requires Spaced(a, n, step) && Spaced(b, n, step)
    ensures a == b
  {
    if |a| < |b| {
      SpacedAgreeBeforeLast(b, a, n, step, |a| - 1);
      assert false;
    } else if |b| < |a| {
      SpacedAgreeBeforeLast(a, b, n, step, |b| - 1);
      assert false;
    } else {
      forall i | 0 <= i < |a| ensures a[i] == b[i] {
        if i < |a| - 1 {
          SpacedAgreeBeforeLast(a, b, n, step, i);
        }
      }
    }
  }

  lemma AtLeast(c: int, m: int, s: int)
    requires s > 0 && m * s <= c * s
    ensures m <= c
  {
  }

  lemma CancelFactor(a: int, b: int, s: int)
    requires s > 0 && a * s < b * s
    ensures a < b
  {
  }

  lemma ScaleLe(a: int, b: int, s: int)
    requires s >= 0 && a <= b
    ensures a * s <= b * s
  {
  }

  lemma SumOfMultiples(m: int, s: int)
    ensures m * s + (m - 1) * s == (2 * m - 1) * s
  {
  }

  /** If `(c - 1) * s < m * s + r` with `s >= 2` and `r < m`, then `c + 1 <= 2 * m`. */
  lemma {:induction false} NotTwiceOver(c: int, m: int, s: int, r: int)
    requires s >= 2 && 0 <= r < m && (c - 1) * s < m * s + r
    ensures c + 1 <= 2 * m
  {
    if m >= 2 {
      ScaleLe(2, s, m - 1);
      assert 2 * (m - 1) <= s * (m - 1);
      assert s * (m - 1) == (m - 1) * s;
      SumOfMultiples(m, s);
      CancelFactor(c - 1, 2 * m - 1, s);
    } else {
      assert m * s == 1 * s;
      CancelFactor(c - 1, 1, s);
    }
  }

  /** `max_labels` is a target rather than a bound: with more samples than
      labels, at least `max_labels` and at most twice as many positions are
      labelled (15 samples with a budget of 8 get 15 labels). */
  lemma {:induction false} TickCountBounds(n: nat, maxLabels: nat)
    requires maxLabels > 0 && n > maxLabels
    ensures maxLabels <= |Ticks(n, maxLabels)| <= 2 * maxLabels
  {
    var step := Stride(n, maxLabels);
    var rem := n - step * maxLabels;
    var c := |Range(0, n, step)|;
    RangeLength(0, n, step);
    AtLeast(c, maxLabels, step);
    if step == 1 {
      assert n < 2 * maxLabels;
    } else {
      NotTwiceOver(c, maxLabels, step, rem);
    }
  }

  /** The budget is exceeded as soon as `n // max_labels` is 1 and the
      range keeps every index: 15 samples with 8 labels get 15 labels. */
  lemma FifteenSamplesEightLabels()
    ensures |Ticks(15, 8)| == 15 > 8
  {
    assert Stride(15, 8) == 1;
    UnitRange(0, 15);
  }
}
