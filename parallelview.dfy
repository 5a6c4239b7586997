/**
 * What the parallel-coordinates group of Homework3 holds in each of its two
 * views (Homework3/rsacosta3/main.js:473-826). The aggregate view draws the
 * mini legend (the 14 largest groups, 60 units apart, centred on the chart)
 * and one line per group; the detail view of a type draws a back button, one
 * line per record of that type and the "Showing N" label. Titles, axes,
 * scales, animation and tooltips are not part of the model.
 */
module ParallelView {
  import opened Options
  import opened Seqs
  import opened Records
  import opened Tally
  import opened Grouping
  import opened Legend
  import opened TypeColors

  /** One clickable or counted element of the parallel chart group. */
  datatype Mark =
    | LegendItem(entry: TypeCount, x: real, color: string)
    | TypeLine(entry: TypeCount, color: string)
    | BackButton
    | RecordLine(record: Record, color: string)
    | ShowingLabel(count: nat, typeName: string)

  /**
   * The mini legend: item `i` is translated to `currentX` after `i` steps
   * of 60 from `chartWidth / 2 - (topTypes.length * 60) / 2`.
   */
  function LegendMarks(topTypes: seq<TypeCount>, chartWidth: real): (marks: seq<Mark>)
    ensures |marks| == |topTypes|
  {
    var start := LegendStart(chartWidth, FixedStep * |topTypes|);
    seq(|topTypes|, i requires 0 <= i < |topTypes| =>
      LegendItem(topTypes[i], start + (FixedStep * i) as real, ColorOf(topTypes[i].name)))
  }

  /** One line per group, in the sorted order of `typeAverages`. */
  function TypeLines(typeAverages: seq<TypeCount>): (marks: seq<Mark>)
    ensures |marks| == |typeAverages|
  {
    seq(|typeAverages|, i requires 0 <= i < |typeAverages| =>
      TypeLine(typeAverages[i], ColorOf(typeAverages[i].name)))
  }

  /** The group after `createParallelCoordinatesChart(data)`. */
  function AggregateMarks(data: seq<Record>, chartWidth: real): seq<Mark> {
    LegendMarks(TopTypes(TypeAverages(data)), chartWidth) + TypeLines(TypeAverages(data))
  }

  /** One line per record, all in the colour of the chosen type. */
  function RecordLines(records: seq<Record>, color: string): (marks: seq<Mark>)
    ensures |marks| == |records|
  {
    seq(|records|, i requires 0 <= i < |records| => RecordLine(records[i], color))
  }

  /** The group after `showIndividualPokemon(data, t)`. */
  function DetailMarks(data: seq<Record>, t: string): seq<Mark> {
    [BackButton] + RecordLines(OfType(data, t), ColorOf(t)) + [ShowingLabel(|OfType(data, t)|, t)]
  }

  /** The two views of the parallel-coordinates chart. */
  datatype ParallelState = Aggregate | Detail(selectedType: string)

  /** What the group holds in view `state`. */
  function ViewMarks(data: seq<Record>, chartWidth: real, state: ParallelState): seq<Mark> {
    match state
    case Aggregate => AggregateMarks(data, chartWidth)
    case Detail(t) => DetailMarks(data, t)
  }

  /**
   * `createParallelCoordinatesChart` with its running `currentX`: the
   * groups are sorted in place, the legend offsets accumulate in steps of
   * 60, and the type lines follow the sorted groups.
   */
  method BuildAggregateMarks(data: seq<Record>, chartWidth: real) returns (marks: seq<Mark>)
    ensures marks == AggregateMarks(data, chartWidth)
  {
    var typeAverages := SortedTypeAverages(data);
    var topTypes := TopTypes(typeAverages);
    var n := |topTypes|;
    var offsets, _ := Offsets(FixedWidths(n));
    var start := LegendStart(chartWidth, FixedStep * n);
    var legend := seq(n, i requires 0 <= i < n =>
      LegendItem(topTypes[i], start + offsets[i] as real, ColorOf(topTypes[i].name)));
    forall i | 0 <= i < n
      ensures legend[i] == LegendMarks(topTypes, chartWidth)[i]
    {
      FixedOffsets(n, i);
    }
    marks := legend + TypeLines(typeAverages);
  }

  /** Legend items sit 60 apart from a start that centres them on the chart. */
  lemma LegendPlacement(topTypes: seq<TypeCount>, chartWidth: real)
    ensures var marks := LegendMarks(topTypes, chartWidth);
            && (forall i :: 0 <= i < |marks| ==> marks[i].LegendItem? && marks[i].entry == topTypes[i])
            && (forall i :: 0 <= i < |marks| - 1 ==> marks[i + 1].x - marks[i].x == FixedStep as real)
            && (|marks| > 0 ==> marks[0].x - 0.0 == chartWidth - (marks[|marks| - 1].x + FixedStep as real))
  {
  }

  /**
   * The aggregate view opens with the legend of `LegendPlacement`, made of
   * at most 14 groups: the largest, in non-increasing count order, none
   * left out having a larger count than one shown.
   */
  lemma AggregateLegend(data: seq<Record>, chartWidth: real)
    ensures var averages := TypeAverages(data);
            var top := TopTypes(averages);
            && |top| == (if |averages| <= LegendLimit then |averages| else LegendLimit)
            && top == averages[..|top|]
            && |top| <= |AggregateMarks(data, chartWidth)|
            && AggregateMarks(data, chartWidth)[..|top|] == LegendMarks(top, chartWidth)
            && (forall i, j :: 0 <= i < j < |top| ==> top[i].count >= top[j].count)
            && (forall i, j :: 0 <= i < |top| <= j < |averages| ==> top[i].count >= averages[j].count)
  {
    var averages := TypeAverages(data);
    var top := TopTypes(averages);
    ByCountOrdered(Entries(NestKeys(data)));
    LegendIsTop(averages);
    assert AggregateMarks(data, chartWidth)[..|top|] == LegendMarks(top, chartWidth);
  }

  /** After the legend come the type lines, one per group in sorted order, and no back button. */
  lemma AggregateLines(data: seq<Record>, chartWidth: real)
    ensures var marks := AggregateMarks(data, chartWidth);
            var averages := TypeAverages(data);
            var n := |TopTypes(averages)|;
            && |marks| == n + |averages|
            && (forall i :: n <= i < |marks| ==> marks[i].TypeLine? && marks[i].entry == averages[i - n])
            && BackButton !in marks
  {
    var averages := TypeAverages(data);
    var top := TopTypes(averages);
    var legend := LegendMarks(top, chartWidth);
    var lines := TypeLines(averages);
    var marks := AggregateMarks(data, chartWidth);
    assert forall i :: 0 <= i < |top| ==> marks[i] == legend[i];
    assert forall i :: |top| <= i < |marks| ==> marks[i] == lines[i - |top|];
    forall m | m in marks ensures m != BackButton {
      var k :| 0 <= k < |marks| && marks[k] == m;
    }
  }

  /**
   * The detail view of `t`: a back button, then only and all the records
   * whose `Type_1` is `t`, drawn in the type's colour, then a label counting
   * those lines. Their order and multiplicity are `DetailInDataOrder`.
   */
  lemma DetailMeaning(data: seq<Record>, t: string)
    ensures var marks := DetailMarks(data, t);
            && |marks| >= 2 && marks[0] == BackButton
            && marks[|marks| - 1] == ShowingLabel(|marks| - 2, t)
            && (forall i :: 0 < i < |marks| - 1 ==>
                  marks[i].RecordLine? && marks[i].record.type1 == Some(t) && marks[i].color == ColorOf(t))
            && (forall i :: 0 <= i < |data| && data[i].type1 == Some(t) ==>
                  RecordLine(data[i], ColorOf(t)) in marks)
            && (forall m :: m in marks ==> !m.LegendItem? && !m.TypeLine?)
  {
    var recs := OfType(data, t);
    FilterKeeps(data, TypeIs(t));
    var marks := DetailMarks(data, t);
    forall i | 0 < i < |marks| - 1
      ensures marks[i] == RecordLine(recs[i - 1], ColorOf(t))
    {
    }
    forall i | 0 <= i < |data| && data[i].type1 == Some(t)
      ensures RecordLine(data[i], ColorOf(t)) in marks
    {
      FilterMembership(data, TypeIs(t), data[i]);
      var k :| 0 <= k < |recs| && recs[k] == data[i];
      assert marks[k + 1] == RecordLine(data[i], ColorOf(t));
    }
  }

  /**
   * The record lines of the detail view are those of `OfType(data, t)`, a
   * subsequence of the data that holds each record of type `t` as often as
   * the data does.
   */
  lemma DetailInDataOrder(data: seq<Record>, t: string)
    ensures IsSubseq(OfType(data, t), data)
    ensures forall i :: 0 <= i < |data| && data[i].type1 == Some(t) ==>
      multiset(OfType(data, t))[data[i]] == multiset(data)[data[i]]
    ensures DetailMarks(data, t)[1..|DetailMarks(data, t)| - 1] == RecordLines(OfType(data, t), ColorOf(t))
  {
    FilterSpec(data, TypeIs(t));
  }

  /**
   * Clicking a legend item or a type line drills down to its group's key:
   * the "Showing N" label then repeats the group's count, except for the key
   * "undefined", whose group holds the records without a type while the
   * detail filter `d.Type_1 === "undefined"` matches none of them.
   */
  lemma DrillDownCount(data: seq<Record>, chartWidth: real, i: nat)
    requires i < |AggregateMarks(data, chartWidth)|
    requires AggregateMarks(data, chartWidth)[i].LegendItem? || AggregateMarks(data, chartWidth)[i].TypeLine?
    ensures var e := AggregateMarks(data, chartWidth)[i].entry;
            var shown := DetailMarks(data, e.name)[|DetailMarks(data, e.name)| - 1];
            && shown.count == e.count - (if e.name == "undefined" then MissingCount(data) else 0)
            && (e.name != "undefined" ==> shown.count == e.count >= 1)
  {
    var e := AggregateMarks(data, chartWidth)[i].entry;
    AggregateLegend(data, chartWidth);
    AggregateLines(data, chartWidth);
    var top := TopTypes(TypeAverages(data));
    if i < |top| {
      LegendPlacement(top, chartWidth);
      assert AggregateMarks(data, chartWidth)[i] == LegendMarks(top, chartWidth)[i];
      assert e == top[i] == TypeAverages(data)[i];
    }
    assert e in TypeAverages(data);
    GroupCountsExact(data);
  }
}
