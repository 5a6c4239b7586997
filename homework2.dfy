/**
 * The legend of Homework2's parallel-coordinates chart
 * (Homework2/rsacosta/main.js:420-443): the 14 largest groups, each as wide
 * as `Type_1.length * 6 + 30`, placed one after the other from a start that
 * centres the whole legend on the chart. Counting, grouping and sorting are
 * the same as in Homework3 and are modelled once, in the modules `BarChart`
 * and `Grouping`.
 */
module Homework2 {
  import opened Tally
  import opened Records
  import opened Grouping
  import opened Legend

  /** `topTypes.map(d => d.Type_1.length * 6 + 30)`. */
  function TypeWidths(topTypes: seq<TypeCount>): (widths: seq<int>)
    ensures |widths| == |topTypes|
  {
    seq(|topTypes|, i requires 0 <= i < |topTypes| => ItemWidth(topTypes[i].name))
  }

  /** Every width is positive, so the total width is at least 30 per item. */
  lemma {:induction false} WidthsTotal(topTypes: seq<TypeCount>)
    ensures Sum(TypeWidths(topTypes)) >= 30 * |topTypes|
    decreases |topTypes|
  {
    if topTypes != [] {
      var init := topTypes[..|topTypes| - 1];
      WidthsTotal(init);
      assert TypeWidths(topTypes)[..|topTypes| - 1] == TypeWidths(init);
    }
  }

  /**
   * Sorting the groups, taking the top 14 and placing them: `xs[i]` is the
   * `translate` x of legend item `i`. Each item starts exactly where the
   * previous one's width ends, the first starts at `chartWidth / 2 -
   * totalWidth / 2`, and the last ends at `chartWidth / 2 + totalWidth / 2`,
   * so the legend is centred.
   */
  method LegendLayout(data: seq<Record>, chartWidth: real)
    returns (topTypes: seq<TypeCount>, xs: seq<real>, totalWidth: int)
    ensures topTypes == TopTypes(TypeAverages(data))
    ensures |xs| == |topTypes|
    ensures totalWidth == Sum(TypeWidths(topTypes)) >= 30 * |topTypes|
    ensures |xs| > 0 ==> xs[0] == chartWidth / 2.0 - (totalWidth as real) / 2.0
    ensures forall i :: 0 <= i < |xs| - 1 ==> xs[i + 1] - xs[i] == ItemWidth(topTypes[i].name) as real
    ensures |xs| > 0 ==>
      xs[|xs| - 1] + ItemWidth(topTypes[|xs| - 1].name) as real == chartWidth / 2.0 + (totalWidth as real) / 2.0
  {
    var typeAverages := SortedTypeAverages(data);
    topTypes := TopTypes(typeAverages);
    var typeWidths := TypeWidths(topTypes);
    WidthsTotal(topTypes);
    var offsets, currentX := Offsets(typeWidths);
    totalWidth := currentX;
    var start := LegendStart(chartWidth, totalWidth);
    xs := seq(|offsets|, i requires 0 <= i < |offsets| => start + offsets[i] as real);
    forall i | 0 <= i < |xs| - 1
      ensures xs[i + 1] - xs[i] == ItemWidth(topTypes[i].name) as real
    {
      OffsetStep(typeWidths, i);
    }
    if |xs| > 0 {
      var n := |xs|;
      assert typeWidths[..0] == [];
      OffsetStep(typeWidths, n - 1);
      assert typeWidths[..n] == typeWidths;
    }
  }
}
