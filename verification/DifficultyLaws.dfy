/** Bounds, direction and monotonicity of the retarget, and the algebra of the miner suffix. */
module DifficultyLaws {
  import opened Bytes
  import opened Difficulty

  // ---------- the ratio and the scaled difficulty ----------

  lemma RatioAntitone(a: real, b: real)
    requires 0.0 < a <= b
    ensures Ratio(b) <= Ratio(a)
  {
    var t := BLOCK_TIME_TARGET as real;
    var x, y := t / a, t / b;
    assert x * a == t && y * b == t;
    assert (x - y) * a == y * (b - a);
    assert y > 0.0 by { SignOfFactor(y, b); }
    assert y * (b - a) >= 0.0;
    SignOfFactor(x - y, a);
  }

  lemma RatioSide(a: real)
    requires 0.0 < a
    ensures 0.25 <= Ratio(a) <= 4.0
    ensures Ratio(a) >= 1.0 <==> a <= BLOCK_TIME_TARGET as real
  {
    var t := BLOCK_TIME_TARGET as real;
    var x := t / a;
    assert x * a == t;
    assert (x - 1.0) * a == t - a;
    if a <= t {
      SignOfFactor(x - 1.0, a);
    } else {
      assert (1.0 - x) * a == a - t;
      SignOfFactor(1.0 - x, a);
    }
  }

  lemma ScaleMonotone(cur: int, x: real, y: real)
    requires cur >= 1 && x <= y
    ensures Scale(cur, x) <= Scale(cur, y)
  {
    assert cur as real * (y - x) >= 0.0;
  }

  lemma ProductBetween(c: real, x: real)
    requires c > 0.0 && 0.25 <= x <= 4.0
    ensures c * 0.25 <= Times(c, x) <= c * 4.0
    ensures x >= 1.0 ==> Times(c, x) >= c
    ensures x < 1.0 ==> Times(c, x) < c
  {
  }

  lemma FloorBetween(c: int, p: real)
    requires c as real * 0.25 <= p <= c as real * 4.0
    ensures c / 4 <= p.Floor <= 4 * c
    ensures p >= c as real ==> p.Floor >= c
    ensures p < c as real ==> p.Floor < c
  {
    assert (c / 4) as real <= p;
  }

  lemma ScaleBounds(cur: int, x: real)
    requires cur >= 1 && 0.25 <= x <= 4.0
    ensures cur / 4 <= Scale(cur, x) <= 4 * cur
    ensures x >= 1.0 ==> Scale(cur, x) >= cur
    ensures x < 1.0 ==> Scale(cur, x) < cur
  {
    ProductBetween(cur as real, x);
    FloorBetween(cur, Times(cur as real, x));
  }

  // ---------- laws of one retarget ----------

  /** A retarget stays between the clamped quarter and the quadruple of the current value. */
  lemma RetargetBounds(cur: int, avg: real)
    requires MIN_DIFFICULTY <= cur <= MAX_DIFFICULTY && avg > 0.0
    ensures Clamp(cur / 4) <= Retarget(cur, avg) <= 4 * cur
    ensures MIN_DIFFICULTY <= Retarget(cur, avg) <= MAX_DIFFICULTY
  {
    RatioSide(avg);
    ScaleBounds(cur, Ratio(avg));
  }

  /** Blocks on or under target strictly raise the difficulty; slower ones strictly lower it. */
  lemma RetargetDirection(cur: int, avg: real)
    requires MIN_DIFFICULTY < cur < MAX_DIFFICULTY && avg > 0.0
    ensures Retarget(cur, avg) > cur <==> avg <= BLOCK_TIME_TARGET as real
    ensures Retarget(cur, avg) < cur <==> avg > BLOCK_TIME_TARGET as real
  {
    RatioSide(avg);
    ScaleBounds(cur, Ratio(avg));
  }

  /** At the two ends only one direction is left. */
  lemma RetargetAtLimits(avg: real)
    requires avg > 0.0
    ensures avg > BLOCK_TIME_TARGET as real ==> Retarget(MIN_DIFFICULTY, avg) == MIN_DIFFICULTY
    ensures avg <= BLOCK_TIME_TARGET as real ==> Retarget(MAX_DIFFICULTY, avg) == MAX_DIFFICULTY
    ensures Retarget(MIN_DIFFICULTY, BLOCK_TIME_TARGET as real) == MIN_DIFFICULTY
  {
    RatioSide(avg);
    ScaleBounds(MIN_DIFFICULTY, Ratio(avg));
    ScaleBounds(MAX_DIFFICULTY, Ratio(avg));
  }

  lemma RatioAtLeastTwo(a: real)
    requires 0.0 < a
    ensures Ratio(a) >= 2.0 <==> a <= 75.0
  {
    var x := BLOCK_TIME_TARGET as real / a;
    assert x * a == BLOCK_TIME_TARGET as real;
    assert (x - 2.0) * a == 2.0 * (75.0 - a);
    if a <= 75.0 {
      SignOfFactor(x - 2.0, a);
    } else {
      assert (2.0 - x) * a == 2.0 * (a - 75.0);
      SignOfFactor(2.0 - x, a);
    }
  }

  /** A retarget changes nothing exactly at the least difficulty on slow blocks and at the greatest on fast ones. */
  lemma RetargetIdleIff(cur: int, avg: real)
    requires MIN_DIFFICULTY <= cur <= MAX_DIFFICULTY && avg > 0.0
    ensures Retarget(cur, avg) == cur <==>
              (cur == MIN_DIFFICULTY && avg > 75.0) || (cur == MAX_DIFFICULTY && avg <= BLOCK_TIME_TARGET as real)
  {
    RatioSide(avg);
    ScaleBounds(cur, Ratio(avg));
    if cur == MIN_DIFFICULTY {
      RatioAtLeastTwo(avg);
      assert Times(1.0, Ratio(avg)) == Ratio(avg);
    } else if cur < MAX_DIFFICULTY {
      RetargetDirection(cur, avg);
    }
  }

  lemma RetargetAntitone(cur: int, a: real, b: real)
    requires MIN_DIFFICULTY <= cur <= MAX_DIFFICULTY && 0.0 < a <= b
    ensures Retarget(cur, b) <= Retarget(cur, a)
  {
    RatioAntitone(a, b);
    ScaleMonotone(cur, Ratio(b), Ratio(a));
    RatioSide(a);
    RatioSide(b);
    ScaleBounds(cur, Ratio(a));
    ScaleBounds(cur, Ratio(b));
  }

  // ---------- lifted to timestamp windows ----------

  ghost predicate Slower(s: seq<nat>, t: seq<nat>) {
    |s| == |t| && forall i :: 0 <= i < |s| ==> s[i] <= t[i]
  }

  lemma ProductMonotone(a: nat, b: nat, n: nat)
    requires a <= b
    ensures a * n <= b * n
  {
  }

  lemma {:induction false} TotalsMonotone(s: seq<nat>, t: seq<nat>)
    requires Slower(s, t)
    ensures TotalTime(s) <= TotalTime(t) && WeightedTime(s) <= WeightedTime(t)
  {
    if s != [] {
      var n := |s| - 1;
      TotalsMonotone(s[..n], t[..n]);
      ProductMonotone(ClampInterval(s[n]), ClampInterval(t[n]), |s|);
    }
  }

  lemma QuotientMonotone(a: real, b: real, n: real)
    requires n > 0.0 && a <= b
    ensures a / n <= b / n
  {
    assert (b / n - a / n) * n == b - a;
    SignOfFactor(b / n - a / n, n);
  }

  lemma MeansMonotone(s: seq<nat>, t: seq<nat>)
    requires Slower(s, t) && s != []
    ensures Mean(s) <= Mean(t) && WeightedMean(s) <= WeightedMean(t)
  {
    TotalsMonotone(s, t);
    assert WeightedMean(s) >= 1.0;
    QuotientMonotone(TotalTime(s) as real, TotalTime(t) as real, |s| as real);
    QuotientMonotone(WeightedTime(s) as real, WeightedTime(t) as real, WeightSum(|s|) as real);
  }

  lemma IntervalsOfLast(ts: seq<nat>, n: nat)
    requires n >= 1
    ensures Intervals(Last(ts, n)) == Last(Intervals(ts), n - 1)
  {
    var a, b := Intervals(Last(ts, n)), Last(Intervals(ts), n - 1);
    assert |a| == |b|;
    if |ts| > n {
      forall i | 0 <= i < |a| ensures a[i] == b[i] {
        assert Last(ts, n)[i] == ts[|ts| - n + i] && Last(ts, n)[i + 1] == ts[|ts| - n + i + 1];
      }
    }
  }

  lemma SlowerLast(s: seq<nat>, t: seq<nat>, n: nat)
    requires Slower(s, t)
    ensures Slower(Last(s, n), Last(t, n))
  {
  }

  /** Pointwise slower blocks never give a higher difficulty, whichever calculator is in force. */
  lemma SlowerNeverHarder(prev: int, height: nat, ts: seq<nat>, ts': seq<nat>)
    requires Slower(Intervals(ts), Intervals(ts')) && |ts| == |ts'|
    ensures NextDifficulty(prev, height, ts') <= NextDifficulty(prev, height, ts)
  {
    if height > 0 && SufficientWindow(height, ts) {
      var n := if height >= DGW_WINDOW then DGW_WINDOW else if |ts| < LWMA_WINDOW then |ts| else LWMA_WINDOW;
      IntervalsOfLast(ts, n);
      IntervalsOfLast(ts', n);
      SlowerLast(Intervals(ts), Intervals(ts'), n - 1);
      MeansMonotone(Last(Intervals(ts), n - 1), Last(Intervals(ts'), n - 1));
      RetargetAntitone(Normalize(prev), AverageTime(height, ts), AverageTime(height, ts'));
    }
  }

  /** Bounds and direction of every calculator once its window is long enough. */
  lemma NextDifficultyLaws(prev: int, height: nat, ts: seq<nat>)
    requires height > 0 && SufficientWindow(height, ts)
    ensures var cur, next, avg := Normalize(prev), NextDifficulty(prev, height, ts), AverageTime(height, ts);
            && Clamp(cur / 4) <= next <= 4 * cur
            && MIN_DIFFICULTY <= next <= MAX_DIFFICULTY
            && (MIN_DIFFICULTY < cur < MAX_DIFFICULTY ==>
                  (next > cur <==> avg <= BLOCK_TIME_TARGET as real) && next != cur)
  {
    var cur, avg := Normalize(prev), AverageTime(height, ts);
    RetargetBounds(cur, avg);
    if MIN_DIFFICULTY < cur < MAX_DIFFICULTY {
      RetargetDirection(cur, avg);
    }
  }

  // ---------- the retarget in whole numbers ----------

  /** The seconds between two times as the averages count them: at least one and at most 900. */
  function Counted(earlier: nat, later: nat): nat {
    if later <= earlier then 1 else if later - earlier > 900 then 900 else later - earlier
  }

  function Span(ts: seq<nat>): nat {
    if |ts| < 2 then 0 else Counted(ts[0], ts[1]) + Span(ts[1..])
  }

  /** The same with growing weights, `w` for the first interval. */
  function WeightedSpan(ts: seq<nat>, w: nat): nat {
    if |ts| < 2 then 0 else Counted(ts[0], ts[1]) * w + WeightedSpan(ts[1..], w + 1)
  }

  lemma {:induction false} SpanSnoc(ts: seq<nat>, t: nat, w: nat)
    requires ts != []
    ensures var last := Counted(ts[|ts| - 1], t);
            && Span(ts + [t]) == Span(ts) + last
            && WeightedSpan(ts + [t], w) == WeightedSpan(ts, w) + last * (w + |ts| - 1)
  {
    if |ts| > 1 {
      assert (ts + [t])[1..] == ts[1..] + [t];
      SpanSnoc(ts[1..], t, w + 1);
    } else {
      assert (ts + [t])[1..] == [t];
    }
  }

  lemma LastInterval(ts: seq<nat>)
    requires |ts| >= 2
    ensures var n := |ts| - 1;
            && Intervals(ts) == Intervals(ts[..n]) + [ElapsedBlockTime(ts[n - 1], ts[n])]
            && ts == ts[..n] + [ts[n]]
            && ClampInterval(ElapsedBlockTime(ts[n - 1], ts[n])) == Counted(ts[n - 1], ts[n])
  {
  }

  lemma {:induction false} SpanIsTotal(ts: seq<nat>)
    ensures TotalTime(Intervals(ts)) == Span(ts)
  {
    if |ts| >= 2 {
      var n := |ts| - 1;
      SpanIsTotal(ts[..n]);
      LastInterval(ts);
      SpanSnoc(ts[..n], ts[n], 1);
      TotalTimeSnoc(Intervals(ts[..n]), ElapsedBlockTime(ts[n - 1], ts[n]));
    }
  }

  lemma LastWeighted(ts: seq<nat>)
    requires |ts| >= 2
    ensures var n := |ts| - 1;
            WeightedTime(Intervals(ts)) == WeightedTime(Intervals(ts[..n])) + Counted(ts[n - 1], ts[n]) * n
  {
    var n := |ts| - 1;
    LastInterval(ts);
    TotalTimeSnoc(Intervals(ts[..n]), ElapsedBlockTime(ts[n - 1], ts[n]));
  }

  lemma {:induction false} WeightedSpanIsTotal(ts: seq<nat>)
    ensures WeightedTime(Intervals(ts)) == WeightedSpan(ts, 1)
  {
    if |ts| >= 2 {
      var n := |ts| - 1;
      WeightedSpanIsTotal(ts[..n]);
      LastWeighted(ts);
      SpanSnoc(ts[..n], ts[n], 1);
      assert ts[..n] + [ts[n]] == ts;
    }
  }

  /** The current value times 150 over the average, held between a quarter and the quadruple. */
  function Proportioned(cur: int, total: nat, count: nat): int
    requires total > 0
  {
    if total > 600 * count then cur / 4 else if 150 * count > 4 * total then 4 * cur else cur * 150 * count / total
  }

  /** One retarget for `count` intervals of `total` seconds, in whole numbers. */
  function Retargeted(cur: int, total: nat, count: nat): int
    requires total > 0
  {
    var v := Proportioned(cur, total, count);
    if v != cur then if v < 1 then 1 else if v > TWO_256 - 1 then TWO_256 - 1 else v
    else if total > 150 * count then if cur > 1 then cur - 1 else cur
    else if 1 < cur < TWO_256 - 1 then cur + 1 else cur
  }

  lemma RatioOfTotals(total: nat, count: nat)
    requires total > 0 && count > 0
    ensures var avg := total as real / count as real;
            && avg > 0.0 && (avg <= BLOCK_TIME_TARGET as real <==> total <= 150 * count)
            && (total > 600 * count ==> Ratio(avg) == 0.25)
            && (150 * count > 4 * total ==> Ratio(avg) == 4.0)
            && (total <= 600 * count && 150 * count <= 4 * total ==>
                  Ratio(avg) * total as real == 150.0 * count as real)
  {
    var t, n := total as real, count as real;
    var avg := t / n;
    assert avg * n == t;
    assert avg > 0.0 by { SignOfFactor(avg, n); }
    var x := 150.0 / avg;
    assert x * avg == 150.0;
    assert x * t == x * (avg * n) == 150.0 * n;
    assert (avg - 150.0) * n == t - 150.0 * n;
    if total <= 150 * count {
      SignOfFactor(150.0 - avg, n);
    } else {
      SignOfFactor(avg - 150.0, n);
    }
    if total > 600 * count {
      assert (0.25 - x) * t == 0.25 * t - 150.0 * n;
      SignOfFactor(0.25 - x, t);
    } else {
      assert (x - 0.25) * t == 150.0 * n - 0.25 * t;
      SignOfFactor(x - 0.25, t);
    }
    if 150 * count > 4 * total {
      assert (x - 4.0) * t == 150.0 * n - 4.0 * t;
      SignOfFactor(x - 4.0, t);
    } else {
      assert (4.0 - x) * t == 4.0 * t - 150.0 * n;
      SignOfFactor(4.0 - x, t);
    }
  }

  lemma FloorOfProduct(cur: int, x: real, total: nat, product: int)
    requires total > 0 && cur >= 0 && product >= 0 && Times(cur as real, x) * total as real == product as real
    ensures Scale(cur, x) == product / total
  {
    var y, q := Times(cur as real, x), product / total;
    assert product == q * total + product % total;
    assert (y - q as real) * total as real == (product % total) as real;
    SignOfFactor(y - q as real, total as real);
    assert ((q + 1) as real - y) * total as real == (total - product % total) as real;
    SignOfFactor((q + 1) as real - y, total as real);
  }

  lemma ScaleByTotals(cur: int, total: nat, count: nat)
    requires cur >= 1 && total > 0 && count > 0
    ensures total as real / count as real > 0.0
    ensures Scale(cur, Ratio(total as real / count as real)) == Proportioned(cur, total, count)
  {
    RatioOfTotals(total, count);
    var x := Ratio(total as real / count as real);
    if total > 600 * count {
      FloorOfProduct(cur, x, 4, cur);
    } else if 150 * count > 4 * total {
      FloorOfProduct(cur, x, 1, 4 * cur);
    } else {
      assert Times(cur as real, x) * total as real == cur as real * (x * total as real);
      assert cur as real * (150.0 * count as real) == (cur * 150 * count) as real;
      FloorOfProduct(cur, x, total, cur * 150 * count);
    }
  }

  /** The closed form of a retarget by the mean of some intervals. */
  lemma RetargetClosedForm(cur: int, total: nat, count: nat)
    requires MIN_DIFFICULTY <= cur <= MAX_DIFFICULTY && total > 0 && count > 0
    ensures total as real / count as real > 0.0
    ensures Retarget(cur, total as real / count as real) == Retargeted(cur, total, count)
  {
    RatioOfTotals(total, count);
    ScaleByTotals(cur, total, count);
  }

  lemma QuotientCases(p: nat, total: nat, cur: nat)
    requires total > 0
    ensures p / total == cur <==> cur * total <= p < (cur + 1) * total
    ensures p / total < 1 <==> p < total
    ensures p / total >= TWO_256 <==> p >= TWO_256 * total
    ensures p / total * total <= p < (p / total + 1) * total
  {
    QuotientAtLeast(p, total, cur);
    QuotientAtLeast(p, total, cur + 1);
    QuotientAtLeast(p, total, 1);
    QuotientAtLeast(p, total, TWO_256);
    QuotientAtLeast(p, total, p / total);
    QuotientAtLeast(p, total, p / total + 1);
  }

  /**
   * How far one retarget moves. Between the ratio limits, with p = cur * 150 * count: where p / total is another
   * value within the range, the new value v is that quotient, v * total <= p < (v + 1) * total; where it is the
   * current value the step is one. At the limits it is the quadruple, or a quarter rounded down.
   */
  lemma RetargetProportion(cur: int, total: nat, count: nat)
    requires MIN_DIFFICULTY <= cur <= MAX_DIFFICULTY && total > 0 && count > 0
    ensures total as real / count as real > 0.0
    ensures var v, p := Retarget(cur, total as real / count as real), cur * 150 * count;
            if total > 600 * count then v == (if cur < 4 then 1 else cur / 4) && (cur == 1 || v < cur)
            else if 150 * count > 4 * total then v == if 4 * cur < TWO_256 then 4 * cur else TWO_256 - 1
            else if cur * total <= p < (cur + 1) * total then
              v == if 150 * count >= total && 1 < cur < TWO_256 - 1 then cur + 1
                   else if 150 * count < total && cur > 1 then cur - 1 else cur
            else if p < total then v == 1
            else if p >= TWO_256 * total then v == TWO_256 - 1
            else v * total <= p < (v + 1) * total
  {
    RetargetClosedForm(cur, total, count);
    if total <= 600 * count && 150 * count <= 4 * total {
      QuotientCases(cur * 150 * count, total, cur);
    }
  }

  lemma SpanPositive(ts: seq<nat>)
    requires |ts| >= 2
    ensures Span(ts) > 0 && WeightedSpan(ts, 1) > 0
  {
    SpanIsTotal(ts);
    WeightedSpanIsTotal(ts);
    TotalTimeBounds(Intervals(ts));
    WeightedTimeBounds(Intervals(ts));
  }

  lemma {:induction false} WeightSumIs(n: nat)
    ensures 2 * WeightSum(n) == n * (n + 1)
  {
    if n > 0 {
      WeightSumIs(n - 1);
    }
  }

  lemma MeanRetargetClosedForm(cur: int, ts: seq<nat>)
    requires MIN_DIFFICULTY <= cur <= MAX_DIFFICULTY && |ts| >= 2
    ensures Span(ts) > 0 && Retarget(cur, Mean(Intervals(ts))) == Retargeted(cur, Span(ts), |ts| - 1)
  {
    SpanPositive(ts);
    SpanIsTotal(ts);
    RetargetClosedForm(cur, Span(ts), |ts| - 1);
  }

  lemma WeightedRetargetClosedForm(cur: int, ts: seq<nat>)
    requires MIN_DIFFICULTY <= cur <= MAX_DIFFICULTY && |ts| == 60
    ensures WeightedSpan(ts, 1) > 0
    ensures Retarget(cur, WeightedMean(Intervals(ts))) == Retargeted(cur, WeightedSpan(ts, 1), 1770)
  {
    SpanPositive(ts);
    WeightedSpanIsTotal(ts);
    WeightSumIs(59);
    RetargetClosedForm(cur, WeightedSpan(ts, 1), 1770);
  }

  /** Dark Gravity Wave in whole numbers: from height 24 on, the last twenty-three intervals. */
  lemma WaveClosedForm(prev: int, height: nat, ts: seq<nat>)
    requires height >= 24 && |ts| >= 24
    ensures var total := Span(ts[|ts| - 24..]);
            total > 0 && NextDifficulty(prev, height, ts) == Retargeted(Normalize(prev), total, 23)
  {
    assert Last(ts, DGW_WINDOW) == ts[|ts| - 24..];
    MeanRetargetClosedForm(Normalize(prev), ts[|ts| - 24..]);
  }

  /** The two averages below that height: fifty-nine weighted intervals, or all of fewer times unweighted. */
  lemma LowHeightClosedForm(prev: int, height: nat, ts: seq<nat>)
    requires 0 < height < 24 && |ts| >= 2
    ensures |ts| >= 60 ==>
              var total := WeightedSpan(ts[|ts| - 60..], 1);
              total > 0 && NextDifficulty(prev, height, ts) == Retargeted(Normalize(prev), total, 1770)
    ensures |ts| < 60 ==>
              Span(ts) > 0 && NextDifficulty(prev, height, ts) == Retargeted(Normalize(prev), Span(ts), |ts| - 1)
  {
    if |ts| >= 60 {
      assert Last(ts, LWMA_WINDOW) == ts[|ts| - 60..];
      WeightedRetargetClosedForm(Normalize(prev), ts[|ts| - 60..]);
    } else {
      MeanRetargetClosedForm(Normalize(prev), ts);
    }
  }

  /** With too few times the previous value is only held inside the range, and genesis has a value of its own. */
  lemma ShortWindowKeeps(prev: int, height: nat, ts: seq<nat>)
    requires height == 0 || |ts| < 2 || (height >= 24 && |ts| < 24)
    ensures NextDifficulty(prev, height, ts) ==
              if height == 0 then 131072 else if prev < 1 then 1 else if prev < TWO_256 then prev else TWO_256 - 1
  {
  }

  // ---------- the miner suffix ----------

  lemma AddressBound(miner: Address)
    ensures 0 < ToNat(miner) + 1 < MINER_DOMAIN
  {
    ToNatBound(miner);
    assert Pow256(20) == MINER_DOMAIN - 1 by {
      assert Pow256(4) == 256 * 256 * 256 * 256;
      assert Pow256(8) == 256 * 256 * 256 * 256 * Pow256(4);
      assert Pow256(12) == 256 * 256 * 256 * 256 * Pow256(8);
      assert Pow256(16) == 256 * 256 * 256 * 256 * Pow256(12);
      assert Pow256(20) == 256 * 256 * 256 * 256 * Pow256(16);
    }
  }

  /** Stripping the suffix gives back the normalised base, for every base and miner. */
  lemma SuffixStrips(b: int, miner: Address)
    ensures Normalize(ForMiner(b, miner)) == Normalize(b)
  {
    AddressBound(miner);
    QuotientUnique(ForMiner(b, miner), MINER_DOMAIN, Normalize(b), ToNat(miner) + 1);
  }

  /** What the digits of a full difficulty are, and which base a stored value has. */
  lemma SuffixMeaning(b: int, miner: Address)
    ensures var full := ForMiner(b, miner);
            full / MINER_DOMAIN == Normalize(b) && full % MINER_DOMAIN == ToNat(miner) + 1
    ensures b <= 0 ==> Normalize(b) == 1
    ensures 0 < b < MINER_DOMAIN ==> Normalize(b) == b
    ensures b >= MINER_DOMAIN && b < TWO_256 * MINER_DOMAIN ==>
              Normalize(b) * MINER_DOMAIN <= b < (Normalize(b) + 1) * MINER_DOMAIN
    ensures b >= TWO_256 * MINER_DOMAIN ==> Normalize(b) == TWO_256 - 1
    ensures Target(b) * Normalize(b) <= TWO_256 < (Target(b) + 1) * Normalize(b)
  {
    AddressBound(miner);
    QuotientUnique(ForMiner(b, miner), MINER_DOMAIN, Normalize(b), ToNat(miner) + 1);
    QuotientAtLeast(TWO_256, Normalize(b), Target(b));
    QuotientAtLeast(TWO_256, Normalize(b), Target(b) + 1);
  }

  /** Equal full difficulties come from one base and one miner; and conversely. */
  lemma SuffixInjective(b: int, m: Address, b': int, m': Address)
    ensures ForMiner(b, m) == ForMiner(b', m') <==> Normalize(b) == Normalize(b') && m == m'
  {
    if ForMiner(b, m) == ForMiner(b', m') {
      AddressBound(m);
      AddressBound(m');
      DivisionUnique(MINER_DOMAIN, Normalize(b), ToNat(m) + 1, Normalize(b'), ToNat(m') + 1);
      ToNatInjective(m, m');
    }
  }

  /** The target ignores the miner, and a new suffix replaces the old one. */
  lemma SuffixIsTransparent(b: int, m: Address, m': Address)
    ensures Target(ForMiner(b, m)) == Target(b)
    ensures ForMiner(ForMiner(b, m), m') == ForMiner(b, m')
  {
    SuffixStrips(b, m);
  }

  /**
   * Normalising twice is normalising once exactly for values under the square of the suffix domain,
   * which the documented range does not reach.
   */
  lemma NormalizeIdempotent(v: int)
    ensures Normalize(Normalize(v)) == Normalize(v) <==> v < MINER_DOMAIN * MINER_DOMAIN
    ensures Normalize(v) < MINER_DOMAIN <==> v < MINER_DOMAIN * MINER_DOMAIN
    ensures v <= MAX_DIFFICULTY ==> Normalize(v) < MINER_DOMAIN
  {
    var w := Normalize(v);
    if w >= MINER_DOMAIN {
      assert w / MINER_DOMAIN < w;
    }
    if MINER_DOMAIN <= v <= MAX_DIFFICULTY {
      assert v / MINER_DOMAIN <= MAX_DIFFICULTY / MINER_DOMAIN;
    }
  }

  /** A base difficulty that reaches the suffix domain is read as a full one and collapses. */
  lemma NormalizeCollapses()
    ensures Normalize(MINER_DOMAIN - 1) == MINER_DOMAIN - 1
    ensures Normalize(MINER_DOMAIN) == MIN_DIFFICULTY
  {
  }
}
