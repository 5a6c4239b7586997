/**
 * Horizontal legend placement: each item is put at the running `currentX`,
 * which then grows by the item's width. Positions are offsets from the
 * legend's start `chartWidth / 2 - totalWidth / 2`.
 */
module Legend {

  /** Homework3 places legend items a fixed 60 units apart. */
  const FixedStep: int := 60

  function Sum(ws: seq<int>): int
    decreases |ws|
  {
    if ws == [] then 0 else Sum(ws[..|ws| - 1]) + ws[|ws| - 1]
  }

  /**
   * The `currentX` accumulator of the legend's `transform` callback: item `i`
   * sits at the sum of the widths before it, and after the last item the
   * accumulator holds the total width.
   */
  method Offsets(widths: seq<int>) returns (xs: seq<int>, currentX: int)
    ensures |xs| == |widths|
    ensures forall i :: 0 <= i < |widths| ==> xs[i] == Sum(widths[..i])
    ensures currentX == Sum(widths)
  {
    xs, currentX := [], 0;
    for i := 0 to |widths|
      invariant |xs| == i
      invariant forall k :: 0 <= k < i ==> xs[k] == Sum(widths[..k])
      invariant currentX == Sum(widths[..i])
    {
      assert widths[..i + 1][..i] == widths[..i];
      xs := xs + [currentX];
      currentX := currentX + widths[i];
    }
    assert widths[..|widths|] == widths;
  }

  /** Consecutive items are exactly one width apart. */
  lemma OffsetStep(widths: seq<int>, i: nat)
    requires i < |widths|
    ensures Sum(widths[..i + 1]) == Sum(widths[..i]) + widths[i]
  {
    assert widths[..i + 1][..i] == widths[..i];
  }

  /** Homework3's widths: every item is `FixedStep` wide. */
  function FixedWidths(n: nat): (ws: seq<int>)
    ensures |ws| == n
  {
    seq(n, _ => FixedStep)
  }

  /** With fixed widths, item `i` sits at `60 * i` and the legend is `60 * n` wide. */
  lemma {:induction false} FixedOffsets(n: nat, i: nat)
    requires i <= n
    ensures Sum(FixedWidths(n)[..i]) == FixedStep * i
    decreases i
  {
    if i > 0 {
      FixedOffsets(n, i - 1);
      OffsetStep(FixedWidths(n), i - 1);
    }
  }

  /** Homework2's per-item width `Type_1.length * 6 + 30`. */
  function ItemWidth(name: string): nat {
    6 * |name| + 30
  }

  /**
   * The start `chartWidth / 2 - totalWidth / 2`: the gap left of the legend
   * equals the gap right of it, so the legend is centred in the chart.
   */
  function LegendStart(chartWidth: real, totalWidth: int): (start: real)
    ensures start - 0.0 == chartWidth - (start + totalWidth as real)
  {
    chartWidth / 2.0 - (totalWidth as real) / 2.0
  }
}
