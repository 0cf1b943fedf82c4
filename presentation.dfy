/**
 * The usage summary: the progress bar, the severity of the notification,
 * the remaining count and the two-line message (src/index.ts:67-76,
 * 173-186). Exact real arithmetic stands in for JavaScript doubles.
 */
module Presentation {
  import opened Numbers

  const DefaultBarWidth: nat := 20
  const FilledCell: char := '\U{2588}'
  const EmptyCell: char := '\U{2591}'

  /** `n` copies of `c`: `c.repeat(n)`. */
  function Repeat(c: char, n: nat): (r: string)
    ensures |r| == n && forall i | 0 <= i < n :: r[i] == c
  {
    seq(n, _ => c)
  }

  /**
   * The percentage the bar shows: `used / total * 100` rounded to the
   * nearest integer, capped at 100.
   */
  function BarPercentage(used: real, total: real): (p: int)
    requires used >= 0.0 && total > 0.0
    ensures 0 <= p <= 100
    ensures p == 100 <==> used / total * 100.0 >= 99.5
    ensures p < 100 ==> p as real - 0.5 <= used / total * 100.0 < p as real + 0.5
  {
    var rounded := JsRound(used / total * 100.0);
    if rounded < 100 then rounded else 100
  }

  /**
   * The number of filled cells, taken from the already rounded percentage:
   * `Math.round(percentage / 100 * width)`.
   */
  function FilledCells(percentage: int, width: nat): (f: nat)
    requires 0 <= percentage <= 100
    ensures f <= width
    ensures percentage == 100 ==> f == width
    ensures percentage == 0 ==> f == 0
    // The nearest whole number of cells to the percentage's share of the width.
    ensures f as real - 0.5 <= percentage as real / 100.0 * width as real < f as real + 0.5
  {
    var fraction := percentage as real / 100.0;
    var exact := fraction * width as real;
    MulAtMostOne(fraction, width as real);
    JsRoundWithin(exact, width);
    JsRound(exact)
  }

  lemma {:induction false} JsRoundWithin(x: real, bound: nat)
    requires 0.0 <= x <= bound as real
    ensures 0 <= JsRound(x) <= bound
    ensures x == bound as real ==> JsRound(x) == bound
    ensures x == 0.0 ==> JsRound(x) == 0
  {
  }

  lemma {:induction false} MulAtMostOne(a: real, b: real)
    requires 0.0 <= a <= 1.0 && b >= 0.0
    ensures 0.0 <= a * b <= b
    ensures a == 1.0 ==> a * b == b
    ensures a == 0.0 ==> a * b == 0.0
  {
  }

  /**
   * `createProgressBar(used, total, width)`: `width` cells, the filled ones
   * first.
   */
  function ProgressBar(used: real, total: real, width: nat := DefaultBarWidth): (bar: string)
    requires used >= 0.0 && total > 0.0
    ensures |bar| == width
    ensures forall i | 0 <= i < width ::
      bar[i] == if i < FilledCells(BarPercentage(used, total), width) then FilledCell else EmptyCell
  {
    var filled := FilledCells(BarPercentage(used, total), width);
    Repeat(FilledCell, filled) + Repeat(EmptyCell, width - filled)
  }

  /** At or over quota, every cell is filled. */
  lemma {:induction false} FullBarAtQuota(used: real, total: real, width: nat)
    requires total > 0.0 && used >= total
    ensures ProgressBar(used, total, width) == Repeat(FilledCell, width)
  {
    assert used / total >= 1.0;
  }

  /** No usage, no filled cell. */
  lemma {:induction false} EmptyBarWithoutUsage(total: real, width: nat)
    requires total > 0.0
    ensures ProgressBar(0.0, total, width) == Repeat(EmptyCell, width)
  {
  }

  /** More usage never shows fewer filled cells. */
  lemma {:induction false} FilledCellsMonotone(used1: real, used2: real, total: real, width: nat)
    requires 0.0 <= used1 <= used2 && total > 0.0
    ensures FilledCells(BarPercentage(used1, total), width) <= FilledCells(BarPercentage(used2, total), width)
  {
    BarPercentageMonotone(used1, used2, total);
    FilledCellsMonotoneInPercentage(BarPercentage(used1, total), BarPercentage(used2, total), width);
  }

  lemma {:induction false} BarPercentageMonotone(used1: real, used2: real, total: real)
    requires 0.0 <= used1 <= used2 && total > 0.0
    ensures BarPercentage(used1, total) <= BarPercentage(used2, total)
  {
    DivMonotone(used1, used2, total);
    JsRoundMonotone(used1 / total * 100.0, used2 / total * 100.0);
  }

  lemma {:induction false} FilledCellsMonotoneInPercentage(p1: int, p2: int, width: nat)
    requires 0 <= p1 <= p2 <= 100
    ensures FilledCells(p1, width) <= FilledCells(p2, width)
  {
    var f1, f2 := p1 as real / 100.0, p2 as real / 100.0;
    MulMonotone(f1, f2, width as real);
    JsRoundMonotone(f1 * width as real, f2 * width as real);
  }

  lemma {:induction false} DivMonotone(a: real, b: real, d: real)
    requires a <= b && d > 0.0
    ensures a / d * 100.0 <= b / d * 100.0
  {
    assert a / d <= b / d;
  }

  lemma {:induction false} MulMonotone(a: real, b: real, c: real)
    requires a <= b && c >= 0.0
    ensures a * c <= b * c
  {
  }

  // ------------------------------------------------------------- severity

  datatype ToastVariant = Info | Success | Warning | Error

  /** `(used / quota) * 100`, unrounded and uncapped. */
  function UsagePercent(used: real, quota: int): (r: real)
    requires quota > 0
    ensures r * quota as real == 100.0 * used
    ensures used >= 0.0 ==> r >= 0.0
  {
    PercentOfQuota(used, quota as real);
    used / quota as real * 100.0
  }

  /** The notification style for a usage percentage. */
  function Severity(percentage: real): (v: ToastVariant)
    ensures v != Success
  {
    if percentage >= 90.0 then Error
    else if percentage >= 75.0 then Warning
    else Info
  }

  function Rank(v: ToastVariant): nat {
    match v
    case Info => 0
    case Success => 0
    case Warning => 1
    case Error => 2
  }

  /** More usage never lowers the severity. */
  lemma {:induction false} SeverityMonotone(used1: real, used2: real, quota: int)
    requires used1 <= used2 && quota > 0
    ensures Rank(Severity(UsagePercent(used1, quota))) <= Rank(Severity(UsagePercent(used2, quota)))
  {
    DivMonotone(used1, used2, quota as real);
  }

  /** The thresholds restated on the counts themselves. */
  lemma {:induction false} SeverityOfCounts(used: real, quota: int)
    requires quota > 0
    ensures Severity(UsagePercent(used, quota)) == Error <==> 10.0 * used >= 9.0 * quota as real
    ensures Severity(UsagePercent(used, quota)) == Warning <==>
      4.0 * used >= 3.0 * quota as real && 10.0 * used < 9.0 * quota as real
    ensures Severity(UsagePercent(used, quota)) == Info <==> 4.0 * used < 3.0 * quota as real
  {
    var q := quota as real;
    var percentage := UsagePercent(used, quota);
    assert percentage * q == 100.0 * used;
    ScaledComparison(percentage, q, 90.0);
    ScaledComparison(percentage, q, 75.0);
    assert percentage >= 90.0 <==> percentage * q >= 90.0 * q;
    assert percentage >= 90.0 <==> 100.0 * used >= 90.0 * q;
    assert percentage >= 90.0 <==> 10.0 * used >= 9.0 * q;
  }

  lemma {:induction false} PercentOfQuota(used: real, q: real)
    requires q > 0.0
    ensures used / q * 100.0 * q == 100.0 * used
  {
  }

  /** Comparing with `c` is comparing after scaling by a positive `q`. */
  lemma {:induction false} ScaledComparison(x: real, q: real, c: real)
    requires q > 0.0
    ensures x >= c <==> x * q >= c * q
  {
    if x >= c {
      MulMonotone(c, x, q);
    } else {
      MulMonotone(x, c, q);
      assert x * q != c * q;
    }
  }

  // ------------------------------------------------------------- message

  /** `Math.max(0, quota - used)`. */
  function Remaining(used: real, quota: int): (r: real)
    ensures r >= 0.0 && r >= quota as real - used
    ensures r == 0.0 || r == quota as real - used
  {
    if quota as real - used > 0.0 then quota as real - used else 0.0
  }

  /** What is used and what remains cover the quota, exactly while within it. */
  lemma {:induction false} UsedPlusRemaining(used: real, quota: int)
    ensures used + Remaining(used, quota) >= quota as real
    ensures used <= quota as real ==> used + Remaining(used, quota) == quota as real
  {
  }

  /** First line of the summary: "<bar> <percent>%". */
  function SummaryLine(used: real, quota: int): (line: string)
    requires used >= 0.0 && quota > 0
    ensures ProgressBar(used, quota as real) + " " <= line
    ensures line[|line| - 1] == '%'
    ensures line[|ProgressBar(used, quota as real)| + 1..|line| - 1] == Display(UsagePercent(used, quota))
    ensures '\n' !in line
  {
    ProgressBar(used, quota as real) + " " + Display(UsagePercent(used, quota)) + "%"
  }

  /** Second line of the summary: "<used>/<quota> • <remaining> left". */
  function CountLine(used: real, quota: int): (line: string)
    requires used >= 0.0 && quota > 0
    ensures Display(used) + "/" + DecimalString(quota) <= line
    ensures line[|Display(used) + "/" + DecimalString(quota)|..] == " \U{2022} " + Display(Remaining(used, quota)) + " left"
    ensures '\n' !in line
  {
    var counts := Display(used) + "/" + DecimalString(quota);
    var left := " \U{2022} " + Display(Remaining(used, quota)) + " left";
    assert (counts + left)[|counts|..] == left;
    DisplayIsOneLine(used);
    DisplayIsOneLine(Remaining(used, quota));
    DisplayIsOneLine(quota as real);
    counts + left
  }

  /** Numbers are shown without line breaks. */
  lemma {:induction false} DisplayIsOneLine(x: real)
    requires x >= 0.0
    ensures '\n' !in Display(x)
    ensures x == x.Floor as real ==> '\n' !in DecimalString(x.Floor)
  {
  }

  /** The message of the usage notification: exactly two lines. */
  function UsageMessage(used: real, quota: int): (m: string)
    requires used >= 0.0 && quota > 0
    ensures var k := |SummaryLine(used, quota)|;
      k < |m| && m[..k] == SummaryLine(used, quota) && m[k] == '\n' && m[k + 1..] == CountLine(used, quota)
  {
    SummaryLine(used, quota) + "\n" + CountLine(used, quota)
  }
}

module PresentationExamples {
  import opened Numbers
  import opened Presentation

  /** 285 of 300: 95 %, nineteen filled cells, shown as an error. */
  lemma {:induction false} NearlyExhausted()
    ensures BarPercentage(285.0, 300.0) == 95
    ensures ProgressBar(285.0, 300.0) == Repeat(FilledCell, 19) + Repeat(EmptyCell, 1)
    ensures Severity(UsagePercent(285.0, 300)) == Error
  {
    assert 285.0 / 300.0 * 100.0 == 95.0;
    assert JsRound(95.0) == 95;
    assert 95 as real / 100.0 * 20 as real == 19.0;
    assert JsRound(19.0) == 19;
  }

  /**
   * The two lines of the message for 285 of 300. The values come in as
   * parameters pinned by `requires`, which keeps the verifier from unfolding
   * the literals everywhere and keeps these proofs small.
   */
  lemma {:induction false} NearlyExhaustedSummary(used: real, quota: int)
    requires used == 285.0 && quota == 300
    ensures SummaryLine(used, quota) == Repeat(FilledCell, 19) + Repeat(EmptyCell, 1) + " 95%"
  {
    NearlyExhausted();
    assert UsagePercent(used, quota) == 95.0;
    assert Display(95.0) == "95" by {
      assert DecimalString(95) == "95";
    }
  }

  lemma {:induction false} NearlyExhaustedCounts(used: real, quota: int)
    requires used == 285.0 && quota == 300
    ensures CountLine(used, quota) == "285/300 \U{2022} 15 left"
  {
    var shownUsed := Display(used);
    assert shownUsed == "285" by {
      assert shownUsed == DecimalString(285) by {
        assert IsIntegral(used) && used.Floor == 285;
      }
      assert DecimalString(285) == "285";
    }
    var shownQuota := DecimalString(quota);
    assert shownQuota == "300";
    var shownLeft := Display(Remaining(used, quota));
    assert shownLeft == "15" by {
      assert Remaining(used, quota) == 15.0;
      assert shownLeft == DecimalString(15) by {
        assert IsIntegral(15.0) && (15.0).Floor == 15;
      }
      assert DecimalString(15) == "15";
    }
    assert CountLine(used, quota) == shownUsed + "/" + shownQuota + " \U{2022} " + shownLeft + " left";
  }


  /** Nothing used: 0 %, an empty bar, informational. */
  lemma {:induction false} NothingUsed()
    ensures ProgressBar(0.0, 300.0) == Repeat(EmptyCell, 20)
    ensures Severity(UsagePercent(0.0, 300)) == Info
  {
    EmptyBarWithoutUsage(300.0, 20);
  }
}
