/**
 * The span planner: splits a document of `n` tokens into windows of exactly
 * `spanLength` tokens that overlap by a computed amount, so that each window
 * fits one call of the generation model.
 *
 * The source computes `ceil` on floating-point quotients of non-negative
 * integers; here it is the exact integer ceiling division.
 */
module Planner {

  /** The window width the source uses. */
  const SpanLength: nat := 256

  function Min(a: int, b: int): int { if a <= b then a else b }
  function Max(a: int, b: int): int { if a >= b then a else b }

  /** `ceil(a / b)`: the least multiple of `b` that reaches `a`, counted in `b`s. */
  function CeilDiv(a: nat, b: nat): (q: nat)
    requires b > 0
    ensures a <= q * b < a + b
  {
    var q := (a + b - 1) / b;
    assert a + b - 1 == q * b + (a + b - 1) % b;
    q
  }

  /** A window `[start, end)` of token offsets into the document. */
  datatype Span = Span(start: int, end: int)

  /** `num_spans`: how many windows the document needs. */
  function NumSpans(n: nat, spanLength: nat): (k: nat)
    requires spanLength > 0
    ensures n <= k * spanLength < n + spanLength
  {
    CeilDiv(n, spanLength)
  }

  /**
   * `overlap`: the shift back applied after each window, the ceiling of the
   * excess `k * spanLength - n` over `max(k - 1, 1)` gaps between windows.
   */
  function Overlap(n: nat, spanLength: nat): (ov: nat)
    requires spanLength > 0
    ensures var k := NumSpans(n, spanLength);
      k * spanLength - n <= ov * Max(k - 1, 1) < k * spanLength - n + Max(k - 1, 1)
  {
    var k := NumSpans(n, spanLength);
    CeilDiv(k * spanLength - n, Max(k - 1, 1))
  }

  /**
   * The boundaries the source produces: window `i` starts at
   * `start + spanLength * i` where `start` has been decreased by `overlap`
   * once per earlier window.
   */
  function Boundaries(n: nat, spanLength: nat): seq<Span>
    requires spanLength > 0
  {
    var ov: int := Overlap(n, spanLength);
    seq(NumSpans(n, spanLength), i =>
      Span(-ov * i + spanLength * i, -ov * i + spanLength * (i + 1)))
  }

  /** The planning loop as the source writes it. */
  method PlanSpans(numTokens: nat, spanLength: nat) returns (boundaries: seq<Span>)
    requires spanLength > 0
    ensures boundaries == Boundaries(numTokens, spanLength)
  {
    var numSpans := CeilDiv(numTokens, spanLength);
    var overlap := CeilDiv(numSpans * spanLength - numTokens, Max(numSpans - 1, 1));
    boundaries := [];
    var start := 0;
    for i := 0 to numSpans
      invariant |boundaries| == i
      invariant start == -overlap * i
      invariant forall j :: 0 <= j < i ==> boundaries[j] == Boundaries(numTokens, spanLength)[j]
    {
      boundaries := boundaries + [Span(start + spanLength * i, start + spanLength * (i + 1))];
      start := start - overlap;
    }
  }

  // ---------------------------------------------------------------------
  // Arithmetic helpers
  // ---------------------------------------------------------------------

  lemma MulMonotone(a: int, b: int, c: nat)
    requires a <= b
    ensures a * c <= b * c
  {
  }

  lemma MulStrictMonotone(a: int, b: int, c: int)
    requires a < b && c > 0
    ensures a * c < b * c
  {
  }

  /** Windows of one width whose starts advance by a fixed stride from 0. */
  function Progression(k: nat, stride: int, width: int): seq<Span> {
    seq(k, i => Span(i * stride, i * stride + width))
  }

  /** The source's windows are such a progression, with stride `spanLength - overlap`. */
  lemma BoundariesAsProgression(n: nat, spanLength: nat)
    requires spanLength > 0
    ensures Boundaries(n, spanLength)
         == Progression(NumSpans(n, spanLength), spanLength - Overlap(n, spanLength), spanLength)
  {
    var ov: int := Overlap(n, spanLength);
    var b := Boundaries(n, spanLength);
    var p := Progression(NumSpans(n, spanLength), spanLength - ov, spanLength);
    forall i | 0 <= i < |b|
      ensures b[i] == p[i]
    {
      assert -ov * i + spanLength * i == i * (spanLength - ov);
      assert -ov * i + spanLength * (i + 1) == i * (spanLength - ov) + spanLength;
    }
  }

  /** A progression whose stride is positive and at most its width is ordered and gapless. */
  lemma ProgressionOrdered(k: nat, stride: int, width: int)
    requires 0 < stride <= width
    ensures var b := Progression(k, stride, width);
      forall i, j :: 0 <= i < j < |b| ==> 0 <= b[i].start < b[j].start
    ensures var b := Progression(k, stride, width);
      forall i :: 0 <= i < |b| - 1 ==> b[i + 1].start <= b[i].end
  {
    var b := Progression(k, stride, width);
    forall i, j | 0 <= i < j < |b|
      ensures 0 <= b[i].start < b[j].start
    {
      MulMonotone(0, i, stride);
      MulStrictMonotone(i, j, stride);
    }
    forall i | 0 <= i < |b| - 1
      ensures b[i + 1].start <= b[i].end
    {
      assert (i + 1) * stride == i * stride + stride;
    }
  }

  /** A document longer than one window needs at least two. */
  lemma {:induction false} SeveralSpans(n: nat, spanLength: nat)
    requires spanLength > 0 && n > spanLength
    ensures var k := NumSpans(n, spanLength);
      k >= 2 && 0 <= k * spanLength - n < spanLength
  {
    var k := NumSpans(n, spanLength);
    if k <= 1 {
      MulMonotone(k, 1, spanLength);
    }
  }

  /** `ceil(d / m)` and `floor(d / m)` are at most `d` when `m >= 1`. */
  lemma QuotientAtMost(d: nat, m: nat, q: nat)
    requires m >= 1 && q * m < d + m
    ensures q <= d
  {
    if q > d {
      MulMonotone(d + 1, q, m);
      MulMonotone(1, m, d);
    }
  }

  /** With two or more windows, the shift back is less than the window width. */
  lemma OverlapBelowWidth(n: nat, spanLength: nat)
    requires spanLength > 0 && n > spanLength
    ensures var k := NumSpans(n, spanLength);
      k >= 2 && Overlap(n, spanLength) <= k * spanLength - n < spanLength
  {
    SeveralSpans(n, spanLength);
    var k := NumSpans(n, spanLength);
    QuotientAtMost(k * spanLength - n, k - 1, Overlap(n, spanLength));
  }

  // ---------------------------------------------------------------------
  // The shape of the plan
  // ---------------------------------------------------------------------

  /**
   * There are `ceil(n / spanLength)` windows, each exactly `spanLength` wide,
   * the first one `[0, spanLength)`, and none when the document is empty.
   */
  lemma PlanShape(n: nat, spanLength: nat)
    requires spanLength > 0
    ensures var b := Boundaries(n, spanLength);
      (|b| - 1) * spanLength < n <= |b| * spanLength
    ensures var b := Boundaries(n, spanLength);
      forall i :: 0 <= i < |b| ==> b[i].end - b[i].start == spanLength
    ensures Boundaries(n, spanLength) == [] <==> n == 0
    ensures Boundaries(n, spanLength) != [] ==> Boundaries(n, spanLength)[0] == Span(0, spanLength)
  {
    var b := Boundaries(n, spanLength);
    BoundariesAsProgression(n, spanLength);
    if n == 0 && |b| >= 1 {
      MulMonotone(1, |b|, spanLength);
    }
  }

  /** A document of at most one window gets exactly the window `[0, spanLength)`. */
  lemma ShortDocument(n: nat, spanLength: nat)
    requires spanLength > 0 && 0 < n <= spanLength
    ensures Boundaries(n, spanLength) == [Span(0, spanLength)]
    ensures Overlap(n, spanLength) == spanLength - n
  {
    var k := NumSpans(n, spanLength);
    if k >= 2 {
      MulMonotone(2, k, spanLength);
    }
    assert k == 1;
    assert Overlap(n, spanLength) == CeilDiv(spanLength - n, 1);
    assert |Boundaries(n, spanLength)| == 1 && Boundaries(n, spanLength)[0] == Span(0, spanLength);
  }

  /**
   * For a document longer than one window: the shift back is below the
   * width, so window starts begin at 0 and strictly increase, and each
   * window starts no later than its predecessor ends.
   */
  lemma StartsIncrease(n: nat, spanLength: nat)
    requires spanLength > 0 && n > spanLength
    ensures 0 <= Overlap(n, spanLength) < spanLength
    ensures var b := Boundaries(n, spanLength);
      forall i, j :: 0 <= i < j < |b| ==> 0 <= b[i].start < b[j].start
    ensures var b := Boundaries(n, spanLength);
      forall i :: 0 <= i < |b| - 1 ==> b[i + 1].start <= b[i].end
  {
    OverlapBelowWidth(n, spanLength);
    BoundariesAsProgression(n, spanLength);
    var p := Progression(NumSpans(n, spanLength), spanLength - Overlap(n, spanLength), spanLength);
    assert Boundaries(n, spanLength) == p;
    ProgressionOrdered(NumSpans(n, spanLength), spanLength - Overlap(n, spanLength), spanLength);
  }

  /** The end of the last window. */
  function LastEnd(n: nat, spanLength: nat): int
    requires spanLength > 0 && n > 0
  {
    PlanShape(n, spanLength);
    var b := Boundaries(n, spanLength);
    b[|b| - 1].end
  }

  /** How far the last window falls short of the document's end. */
  lemma LastEndShortfall(n: nat, spanLength: nat)
    requires spanLength > 0 && n > spanLength
    ensures var k := NumSpans(n, spanLength);
      LastEnd(n, spanLength) == n - (Overlap(n, spanLength) * (k - 1) - (k * spanLength - n))
  {
    SeveralSpans(n, spanLength);
    BoundariesAsProgression(n, spanLength);
    var k := NumSpans(n, spanLength);
    var ov: int := Overlap(n, spanLength);
    var m := k - 1;
    assert LastEnd(n, spanLength) == m * (spanLength - ov) + spanLength;
    LastStartAlgebra(m, spanLength, ov);
  }

  /** The start of window `m` plus the width, written against the `m + 1` windows' total width. */
  lemma LastStartAlgebra(m: int, width: int, ov: int)
    ensures m * (width - ov) + width == (m + 1) * width - ov * m
  {
  }

  /** A multiple of `m` below `m` is zero. */
  lemma SmallMultiple(e: int, m: nat, r: int)
    requires m >= 1 && e * m == r && 0 <= r < m
    ensures e == 0 && r == 0
  {
    if e >= 1 { MulMonotone(1, e, m); }
    if e <= -1 { MulMonotone(e, -1, m); }
  }

  /** `q = ceil(d / m)` times `m` is `d` exactly when `m` divides `d`. */
  lemma CeilExact(d: nat, m: nat)
    requires m >= 1
    ensures CeilDiv(d, m) * m == d <==> d % m == 0
  {
    var q := CeilDiv(d, m);
    var f := d / m;
    var r := d % m;
    assert d == f * m + r;
    if r == 0 {
      assert (q - f) * m == q * m - f * m;
      SmallMultiple(q - f, m, q * m - d);
    }
    if q * m == d {
      assert (q - f) * m == q * m - f * m;
      SmallMultiple(q - f, m, r);
    }
  }

  /**
   * No window ends past the document, so every slice is a full window; the
   * last window ends exactly at the document's end only when the total
   * overlap divides evenly among the internal boundaries.
   */
  lemma EndsWithinDocument(n: nat, spanLength: nat)
    requires spanLength > 0 && n > spanLength
    ensures var b := Boundaries(n, spanLength);
      forall i :: 0 <= i < |b| ==> b[i].end <= LastEnd(n, spanLength) <= n
    ensures var k := NumSpans(n, spanLength);
      LastEnd(n, spanLength) == n <==> (k * spanLength - n) % (k - 1) == 0
  {
    SeveralSpans(n, spanLength);
    StartsIncrease(n, spanLength);
    PlanShape(n, spanLength);
    LastEndShortfall(n, spanLength);
    var k := NumSpans(n, spanLength);
    CeilExact(k * spanLength - n, k - 1);
    var b := Boundaries(n, spanLength);
    forall i | 0 <= i < k
      ensures b[i].end <= b[k - 1].end
    {
      if i < k - 1 {
        assert b[i].start < b[k - 1].start;
      }
    }
  }

  /** Every window's start is in the document: the plan never starts before 0. */
  lemma StartsNeverNegative(n: nat, spanLength: nat)
    requires spanLength > 0
    ensures var b := Boundaries(n, spanLength);
      forall i :: 0 <= i < |b| ==> b[i].start >= 0
  {
    var b := Boundaries(n, spanLength);
    if n > spanLength {
      StartsIncrease(n, spanLength);
      if |b| > 1 {
        assert b[0].start < b[1].start;
      }
    } else if n > 0 {
      ShortDocument(n, spanLength);
    } else {
      PlanShape(n, spanLength);
    }
  }

  // ---------------------------------------------------------------------
  // Coverage
  // ---------------------------------------------------------------------

  /** Token `t` lies in some window of `b`. */
  ghost predicate Covered(b: seq<Span>, t: int) {
    exists i :: 0 <= i < |b| && b[i].start <= t < b[i].end
  }

  /**
   * Windows that start at 0 and each start no later than the previous one
   * ends leave no gap: every token before the `i`-th end is covered.
   */
  lemma {:induction false} NoGapUpTo(b: seq<Span>, i: nat)
    requires i < |b|
    requires b[0].start <= 0
    requires forall j :: 0 <= j < |b| - 1 ==> b[j + 1].start <= b[j].end
    ensures forall t :: 0 <= t < b[i].end ==> Covered(b, t)
  {
    if i > 0 {
      NoGapUpTo(b, i - 1);
      forall t | 0 <= t < b[i].end
        ensures Covered(b, t)
      {
        if t >= b[i - 1].end {
          assert b[i].start <= t;
        }
      }
    } else {
      forall t | 0 <= t < b[0].end
        ensures Covered(b, t)
      {
        assert b[0].start <= t < b[0].end;
      }
    }
  }

  /** The plan leaves no gap up to its last end. */
  lemma CoveredUpToLastEnd(n: nat, spanLength: nat)
    requires spanLength > 0 && n > 0
    ensures forall t :: 0 <= t < Min(n, LastEnd(n, spanLength)) ==> Covered(Boundaries(n, spanLength), t)
  {
    var b := Boundaries(n, spanLength);
    PlanShape(n, spanLength);
    if n > spanLength {
      StartsIncrease(n, spanLength);
    } else {
      ShortDocument(n, spanLength);
    }
    NoGapUpTo(b, |b| - 1);
  }

  /** The window `[start, end)` as a slice `ids[start:end]` of a sequence of length `n`. */
  function SliceBound(i: int, n: nat): (c: nat)
    ensures c <= n
  {
    if i < 0 then Max(i + n, 0) else Min(i, n)
  }

  function SliceLength(n: nat, sp: Span): nat {
    var s := SliceBound(sp.start, n);
    var e := SliceBound(sp.end, n);
    if e >= s then e - s else 0
  }

  /**
   * All slices have the same length, `min(n, spanLength)`, so they can be
   * stacked into one tensor: full windows for long documents, the whole
   * document (a single window) for short ones.
   */
  lemma SlicesStackable(n: nat, spanLength: nat)
    requires spanLength > 0
    ensures var b := Boundaries(n, spanLength);
      forall i :: 0 <= i < |b| ==> SliceLength(n, b[i]) == Min(n, spanLength)
  {
    var b := Boundaries(n, spanLength);
    PlanShape(n, spanLength);
    StartsNeverNegative(n, spanLength);
    if n > spanLength {
      EndsWithinDocument(n, spanLength);
    } else if n > 0 {
      ShortDocument(n, spanLength);
    }
  }

  // ---------------------------------------------------------------------
  // Examples, and the tokens the plan can miss
  // ---------------------------------------------------------------------

  /** 300 tokens: `[0, 256)` and `[44, 300)`, which end exactly at the document's end. */
  lemma ExampleThreeHundred()
    ensures Boundaries(300, 256) == [Span(0, 256), Span(44, 300)]
  {
    assert Overlap(300, 256) == 212;
  }

  /**
   * 601 tokens: three windows with a shift back of 84, the last one
   * `[344, 600)`, so token 600 is in no window.
   */
  lemma ExampleLastTokenMissed()
    ensures Boundaries(601, 256) == [Span(0, 256), Span(172, 428), Span(344, 600)]
    ensures !Covered(Boundaries(601, 256), 600)
  {
    assert NumSpans(601, 256) == 3;
    assert Overlap(601, 256) == 84;
    var b := Boundaries(601, 256);
    assert b == [Span(0, 256), Span(172, 428), Span(344, 600)];
  }

  /** The stride of the corrected plan: the overlap rounded down instead of up. */
  function FloorStride(n: nat, spanLength: nat): int
    requires spanLength > 0
  {
    var k := NumSpans(n, spanLength);
    spanLength - (k * spanLength - n) / Max(k - 1, 1)
  }

  /** Windows advancing by `stride` whose starts are capped at `cap`. */
  function Capped(k: nat, stride: int, width: int, cap: int): seq<Span> {
    seq(k, i => Span(Min(i * stride, cap), Min(i * stride, cap) + width))
  }

  /**
   * A plan that keeps the window count and width but rounds the overlap down
   * and pins the last window to the document's end.
   */
  function CoveringBoundaries(n: nat, spanLength: nat): seq<Span>
    requires spanLength > 0
  {
    if n <= spanLength then Boundaries(n, spanLength)
    else Capped(NumSpans(n, spanLength), FloorStride(n, spanLength), spanLength, n - spanLength)
  }

  /**
   * Rounding the overlap down keeps the stride positive and at most the
   * width, and makes the last uncapped start reach the document's last window.
   */
  lemma FloorStrideReaches(n: nat, spanLength: nat)
    requires spanLength > 0 && n > spanLength
    ensures var k := NumSpans(n, spanLength);
      0 < FloorStride(n, spanLength) <= spanLength &&
      (k - 1) * FloorStride(n, spanLength) >= n - spanLength
  {
    SeveralSpans(n, spanLength);
    var k := NumSpans(n, spanLength);
    var m := k - 1;
    var d := k * spanLength - n;
    var ov := d / m;
    assert d == ov * m + d % m;
    QuotientAtMost(d, m, ov);
    var stride := FloorStride(n, spanLength);
    assert stride == spanLength - ov;
    StrideReach(m, spanLength, n, ov, d % m);
  }

  /** `m` strides of `width - ov` fall short of `n - width` by the remainder `r`. */
  lemma StrideReach(m: int, width: int, n: int, ov: int, r: int)
    requires (m + 1) * width - n == ov * m + r
    ensures m * (width - ov) == n - width + r
  {
  }

  /** Capped windows start at 0, stay at or below the cap, and leave no gap. */
  lemma CappedOrdered(k: nat, stride: int, width: int, cap: int)
    requires 0 < stride <= width && cap >= 0
    ensures var c := Capped(k, stride, width, cap);
      forall i :: 0 <= i < |c| ==> 0 <= c[i].start <= cap && c[i].end - c[i].start == width
    ensures var c := Capped(k, stride, width, cap);
      forall i :: 0 <= i < |c| - 1 ==> c[i + 1].start <= c[i].end
  {
    var c := Capped(k, stride, width, cap);
    forall i | 0 <= i < |c|
      ensures 0 <= c[i].start
    {
      MulMonotone(0, i, stride);
    }
    forall i | 0 <= i < |c| - 1
      ensures c[i + 1].start <= c[i].end
    {
      assert (i + 1) * stride == i * stride + stride;
    }
  }

  /**
   * The corrected plan has the same count and width, stays inside the
   * document (every slice is as long as the document allows) and covers every
   * token.
   */
  lemma CoveringBoundariesCover(n: nat, spanLength: nat)
    requires spanLength > 0
    ensures var c := CoveringBoundaries(n, spanLength);
      |c| == NumSpans(n, spanLength) &&
      forall i :: 0 <= i < |c| ==> c[i].end - c[i].start == spanLength
    ensures var c := CoveringBoundaries(n, spanLength);
      forall i :: 0 <= i < |c| ==> 0 <= c[i].start && SliceLength(n, c[i]) == Min(n, spanLength)
    ensures forall t :: 0 <= t < n ==> Covered(CoveringBoundaries(n, spanLength), t)
  {
    var c := CoveringBoundaries(n, spanLength);
    PlanShape(n, spanLength);
    if n <= spanLength {
      SlicesStackable(n, spanLength);
      StartsNeverNegative(n, spanLength);
      if n > 0 {
        ShortDocument(n, spanLength);
        NoGapUpTo(c, 0);
      }
    } else {
      var k := NumSpans(n, spanLength);
      var stride := FloorStride(n, spanLength);
      FloorStrideReaches(n, spanLength);
      CappedOrdered(k, stride, spanLength, n - spanLength);
      assert c[k - 1].start == n - spanLength;
      NoGapUpTo(c, k - 1);
    }
  }
}
