/**
 * The module-level state of Homework3's dashboard
 * (Homework3/rsacosta3/main.js:19-22, 192-239, 449-469, 473-834): the loaded
 * `pokemonData`, the quadrant's `currentTypeFilter`, the global
 * `filteredData`, and what the three charts currently show. Each chart is
 * represented by the data it draws: the bar list, the drop-down options and
 * the plotted records with their look, and the marks of the
 * parallel-coordinates group.
 */
module Homework3 {
  import opened Options
  import opened Records
  import opened Tally
  import opened BarChart
  import opened Quadrant
  import opened ParallelView

  class Dashboard {
    /** `pokemonData`, stored by the load callback. */
    var pokemonData: seq<Record>
    /** `dimensions.chartWidth`. */
    var chartWidth: real
    /** The drop-down's current value. */
    var currentTypeFilter: string
    /** The global `filteredData`, `null` at start. */
    var filteredData: Option<seq<Record>>
    /** The bars of the bar chart, left to right. */
    var bars: seq<TypeCount>
    /** The options of the type drop-down. */
    var filterOptions: seq<Option<string>>
    /** The records plotted as points in the quadrant chart. */
    var points: seq<Record>
    /** The look of each plotted point. */
    var pointStyles: seq<PointStyle>
    /** Which view the parallel-coordinates chart shows. */
    var parallelState: ParallelState
    /** The marks currently in `parallelChartGroup`. */
    var parallelGroup: seq<Mark>

    /** The bar chart shows the counts of `pokemonData`. */
    ghost predicate BarsValid()
      reads this`bars, this`pokemonData
    {
      bars == BarData(pokemonData)
    }

    /** The drop-down offers the options built from `pokemonData`. */
    ghost predicate OptionsValid()
      reads this`filterOptions, this`pokemonData
    {
      filterOptions == FilterOptions(pokemonData)
    }

    /** The quadrant plots the records the current filter lets through, one look each. */
    ghost predicate PointsValid()
      reads this`points, this`pointStyles, this`pokemonData, this`currentTypeFilter
    {
      points == TypeFilter(pokemonData, currentTypeFilter) && |pointStyles| == |points|
    }

    /** The parallel chart's group holds the marks of its current view. */
    ghost predicate ParallelValid()
      reads this`parallelGroup, this`parallelState, this`pokemonData, this`chartWidth
    {
      parallelGroup == ViewMarks(pokemonData, chartWidth, parallelState)
    }

    /** Every chart shows what its data and the current filter and view call for. */
    ghost predicate Valid()
      reads this
    {
      BarsValid() && OptionsValid() && PointsValid() && ParallelValid()
    }

    /**
     * The initial globals followed by the load callback: `pokemonData` is
     * stored and the three charts are built from it, the quadrant with the
     * initial filter "All".
     */
    constructor (data: seq<Record>, chartWidth: real)
      ensures Valid()
      ensures pokemonData == data && this.chartWidth == chartWidth
      ensures currentTypeFilter == AllOption && filteredData == None
      ensures points == data && pointStyles == PlainStyles(|data|)
      ensures parallelState == Aggregate
    {
      var typeData := CreateBarData(data);
      var marks := BuildAggregateMarks(data, chartWidth);
      pokemonData := data;
      this.chartWidth := chartWidth;
      currentTypeFilter := AllOption;
      filteredData := None;
      bars := typeData;
      filterOptions := FilterOptions(data);
      points := TypeFilter(data, AllOption);
      pointStyles := PlainStyles(|data|);
      parallelState := Aggregate;
      parallelGroup := marks;
    }

    /**
     * The drop-down's `change` handler: the filter takes the chosen value
     * and the quadrant redraws the filtered records with their plain look.
     */
    method ChangeTypeFilter(value: string)
      requires Valid()
      modifies `currentTypeFilter, `points, `pointStyles
      ensures Valid()
      ensures currentTypeFilter == value
      ensures points == TypeFilter(pokemonData, value)
      ensures pointStyles == PlainStyles(|points|)
    {
      currentTypeFilter := value;
      points := TypeFilter(pokemonData, currentTypeFilter);
      pointStyles := PlainStyles(|points|);
    }

    /**
     * `brushed` as written. Without a selection it returns. With one it
     * computes the selected points, then the assignment to the constant
     * `filteredData` throws, so neither the global `filteredData` nor any
     * point's look changes: the method modifies nothing.
     */
    method Brushed(selection: Option<Rect>, xPos: Record -> real, yPos: Record -> real)
      returns (outcome: BrushOutcome)
      ensures outcome == BrushedAsWritten(points, selection, xPos, yPos)
      ensures outcome.NoSelection? <==> selection.None?
      ensures outcome.AssignmentToConstant? ==>
        forall i :: 0 <= i < |outcome.selectedPoints| ==>
          Inside(selection.value, xPos(outcome.selectedPoints[i]), yPos(outcome.selectedPoints[i]))
      ensures outcome.AssignmentToConstant? ==>
        forall i :: 0 <= i < |points| && Inside(selection.value, xPos(points[i]), yPos(points[i])) ==>
          points[i] in outcome.selectedPoints
    {
      match selection
      case None =>
        outcome := NoSelection;
      case Some(rect) =>
        var selectedPoints := SelectedPoints(points, rect, xPos, yPos);
        SelectionMeaning(points, rect, xPos, yPos);
        outcome := AssignmentToConstant(selectedPoints);
    }

    /**
     * `brushed` as its comments intend: the selection is stored in the
     * global `filteredData` and the selected points are highlighted, the
     * others dimmed.
     */
    method BrushedAsIntended(selection: Option<Rect>, xPos: Record -> real, yPos: Record -> real)
      requires Valid()
      modifies `filteredData, `pointStyles
      ensures Valid()
      ensures selection.None? ==> filteredData == old(filteredData) && pointStyles == old(pointStyles)
      ensures selection.Some? ==>
        && filteredData == Some(SelectedPoints(points, selection.value, xPos, yPos))
        && (forall i :: 0 <= i < |points| ==>
              (pointStyles[i] == Highlighted <==> Inside(selection.value, xPos(points[i]), yPos(points[i]))))
        && (forall i :: 0 <= i < |points| ==> pointStyles[i] != Plain)
    {
      if selection.Some? {
        var rect := selection.value;
        var selectedPoints := SelectedPoints(points, rect, xPos, yPos);
        filteredData := Some(selectedPoints);
        pointStyles := Highlight(points, selectedPoints);
        HighlightMatchesBrush(points, rect, xPos, yPos);
      }
    }

    /**
     * `showIndividualPokemon(pokemonData, t)`: the group is cleared, then
     * holds the back button, the lines of the records of type `t` and the
     * count label.
     */
    method ShowIndividualPokemon(t: string)
      requires Valid()
      modifies `parallelState, `parallelGroup
      ensures Valid()
      ensures parallelState == Detail(t)
      ensures parallelGroup == DetailMarks(pokemonData, t)
    {
      parallelGroup := [];
      parallelState := Detail(t);
      parallelGroup := parallelGroup + DetailMarks(pokemonData, t);
      assert parallelGroup == ViewMarks(pokemonData, chartWidth, parallelState);
    }

    /** The back button: the group is cleared and rebuilt from `pokemonData`. */
    method Back()
      requires Valid()
      modifies `parallelState, `parallelGroup
      ensures Valid()
      ensures parallelState == Aggregate
      ensures parallelGroup == AggregateMarks(pokemonData, chartWidth)
    {
      var marks := BuildAggregateMarks(pokemonData, chartWidth);
      parallelGroup := [];
      parallelState := Aggregate;
      parallelGroup := parallelGroup + marks;
    }

    /**
     * A click on mark `i` of the parallel chart: a legend item or type line
     * drills down to its type, the back button returns to the aggregate
     * view, and every other mark has no click handler.
     */
    method ClickMark(i: nat)
      requires Valid() && i < |parallelGroup|
      modifies `parallelState, `parallelGroup
      ensures Valid()
      ensures match old(parallelGroup[i])
              case LegendItem(e, _, _) => parallelState == Detail(e.name)
              case TypeLine(e, _) => parallelState == Detail(e.name)
              case BackButton => parallelState == Aggregate
              case _ => parallelState == old(parallelState) && parallelGroup == old(parallelGroup)
    {
      match parallelGroup[i]
      case LegendItem(e, _, _) => ShowIndividualPokemon(e.name);
      case TypeLine(e, _) => ShowIndividualPokemon(e.name);
      case BackButton => Back();
      case RecordLine(_, _) =>
      case ShowingLabel(_, _) =>
    }
  }
}
