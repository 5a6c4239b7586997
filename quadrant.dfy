/**
 * The data side of Homework3's quadrant chart
 * (Homework3/rsacosta3/main.js:192-469): the type filter, the options of the
 * filter drop-down, and the records a rectangular brush selects. Plotted
 * positions are given as functions of a record; the D3 scales that compute
 * them are not modelled.
 */
module Quadrant {
  import opened Options
  import opened Seqs
  import opened Records
  import opened TypeColors
  import Sorting

  /** The drop-down's catch-all option, also the initial `currentTypeFilter`. */
  const AllOption: string := "All"

  // ---------------------------------------------------------------------------
  // Type filter

  /**
   * `currentTypeFilter === "All" ? data : data.filter(d => d.Type_1 === currentTypeFilter)`.
   * A type literally named "All" therefore cannot be shown on its own.
   */
  function TypeFilter(data: seq<Record>, filter: string): seq<Record> {
    if filter == AllOption then data else OfType(data, filter)
  }

  /**
   * "All" shows the whole dataset unchanged; any other filter shows exactly
   * the records of that type, in dataset order and with their multiplicity.
   */
  lemma TypeFilterMeaning(data: seq<Record>, filter: string)
    ensures filter == AllOption ==> TypeFilter(data, filter) == data
    ensures filter != AllOption ==> IsSubseq(TypeFilter(data, filter), data)
    ensures filter != AllOption ==>
      forall i :: 0 <= i < |TypeFilter(data, filter)| ==> TypeFilter(data, filter)[i].type1 == Some(filter)
    ensures filter != AllOption ==>
      forall i :: 0 <= i < |data| && data[i].type1 == Some(filter) ==>
        multiset(TypeFilter(data, filter))[data[i]] == multiset(data)[data[i]]
  {
    FilterSpec(data, TypeIs(filter));
  }

  // ---------------------------------------------------------------------------
  // Drop-down options

  /** Lexicographic order on strings, character by character. */
  predicate StrLe(a: string, b: string)
    decreases |a|
  {
    a == [] || (b != [] && (a[0] < b[0] || (a[0] == b[0] && StrLe(a[1..], b[1..]))))
  }

  /**
   * The order of `Array.prototype.sort()` without a comparator: `undefined`
   * goes last, everything else is compared as a string.
   */
  predicate OptLe(a: Option<string>, b: Option<string>) {
    b.None? || (a.Some? && StrLe(a.value, b.value))
  }

  lemma {:induction false} StrLeTotal(a: string, b: string)
    ensures StrLe(a, b) || StrLe(b, a)
    decreases |a|
  {
    if a != [] && b != [] && a[0] == b[0] {
      StrLeTotal(a[1..], b[1..]);
    }
  }

  lemma {:induction false} StrLeTrans(a: string, b: string, c: string)
    requires StrLe(a, b) && StrLe(b, c)
    ensures StrLe(a, c)
    decreases |a|
  {
    if a != [] && b != [] && c != [] && a[0] == b[0] && b[0] == c[0] {
      StrLeTrans(a[1..], b[1..], c[1..]);
    }
  }

  lemma OptLeIsOrder()
    ensures Sorting.Total(OptLe) && Sorting.Transitive(OptLe)
  {
    forall a: Option<string>, b: Option<string> ensures OptLe(a, b) || OptLe(b, a) {
      if a.Some? && b.Some? {
        StrLeTotal(a.value, b.value);
      }
    }
    forall a: Option<string>, b: Option<string>, c: Option<string> | OptLe(a, b) && OptLe(b, c)
      ensures OptLe(a, c)
    {
      if c.Some? {
        StrLeTrans(a.value, b.value, c.value);
      }
    }
  }

  /** `data.map(d => d.Type_1)`. */
  function TypesOf(data: seq<Record>): (ts: seq<Option<string>>)
    ensures |ts| == |data|
  {
    seq(|data|, i requires 0 <= i < |data| => data[i].type1)
  }

  /** `["All", ...new Set(data.map(d => d.Type_1))].sort()`. */
  function FilterOptions(data: seq<Record>): seq<Option<string>> {
    Sorting.SortBy([Some(AllOption)] + Dedup(TypesOf(data)), OptLe)
  }

  /** The set of distinct types holds each type of the data once and nothing else. */
  lemma DistinctTypes(data: seq<Record>)
    ensures forall v :: multiset(Dedup(TypesOf(data)))[v] == if Occurs(data, v) then 1 else 0
  {
    var ts := TypesOf(data);
    var d := Dedup(ts);
    NoDupMultiplicity(d);
    forall v ensures v in d <==> Occurs(data, v) {
      if v in d {
        var k :| 0 <= k < |d| && d[k] == v;
        var i :| 0 <= i < |ts| && ts[i] == v;
      }
      if Occurs(data, v) {
        var i :| 0 <= i < |data| && data[i].type1 == v;
        assert ts[i] == v;
      }
    }
  }

  /**
   * The options are in sort order and are "All" plus every distinct
   * `Type_1` once; a type literally named "All" adds a second "All".
   */
  lemma FilterOptionsMeaning(data: seq<Record>)
    ensures Sorting.Sorted(FilterOptions(data), OptLe)
    ensures forall v :: v in FilterOptions(data) <==> v == Some(AllOption) || Occurs(data, v)
    ensures forall v :: v != Some(AllOption) ==>
      multiset(FilterOptions(data))[v] == (if Occurs(data, v) then 1 else 0)
    ensures multiset(FilterOptions(data))[Some(AllOption)]
      == if Occurs(data, Some(AllOption)) then 2 else 1
  {
    var d := Dedup(TypesOf(data));
    var input := [Some(AllOption)] + d;
    OptLeIsOrder();
    Sorting.SortSorted(input, OptLe);
    Sorting.SortPermutes(input, OptLe);
    DistinctTypes(data);
    var m := multiset(FilterOptions(data));
    assert m == multiset{Some(AllOption)} + multiset(d);
    forall v ensures v in FilterOptions(data) <==> v == Some(AllOption) || Occurs(data, v) {
      assert v in FilterOptions(data) <==> m[v] > 0;
    }
  }

  /**
   * A point's fill `typeColors[d.Type_1] || "#ccc"`: a record without a type
   * is looked up under "undefined" and so gets the fallback.
   */
  function PointColor(r: Record): (c: string)
    ensures c == Fallback <==> PropertyKey(r.type1) !in Palette
    ensures r.type1.None? ==> c == Fallback
  {
    ColorMeaning(PropertyKey(r.type1));
    ColorOf(PropertyKey(r.type1))
  }

  // ---------------------------------------------------------------------------
  // Brush selection

  /** A brush selection `[[x0, y0], [x1, y1]]`. */
  datatype Rect = Rect(x0: real, y0: real, x1: real, y1: real)

  /** Inside the closed rectangle. */
  predicate Inside(rect: Rect, x: real, y: real) {
    rect.x0 <= x <= rect.x1 && rect.y0 <= y <= rect.y1
  }

  function InBrush(rect: Rect, xPos: Record -> real, yPos: Record -> real): Record -> bool {
    (r: Record) => Inside(rect, xPos(r), yPos(r))
  }

  /** `filteredData.filter(d => xPos >= x0 && xPos <= x1 && yPos >= y0 && yPos <= y1)`. */
  function SelectedPoints(points: seq<Record>, rect: Rect, xPos: Record -> real, yPos: Record -> real): seq<Record> {
    Filter(points, InBrush(rect, xPos, yPos))
  }

  /**
   * The selection is a subsequence of the plotted records, every selected
   * record lies in the rectangle, and every plotted record in it is selected
   * as many times as it is plotted.
   */
  lemma SelectionMeaning(points: seq<Record>, rect: Rect, xPos: Record -> real, yPos: Record -> real)
    ensures IsSubseq(SelectedPoints(points, rect, xPos, yPos), points)
    ensures forall i :: 0 <= i < |SelectedPoints(points, rect, xPos, yPos)| ==>
      var r := SelectedPoints(points, rect, xPos, yPos)[i]; Inside(rect, xPos(r), yPos(r))
    ensures forall i :: 0 <= i < |points| && Inside(rect, xPos(points[i]), yPos(points[i])) ==>
      points[i] in SelectedPoints(points, rect, xPos, yPos)
    ensures forall i :: 0 <= i < |points| && Inside(rect, xPos(points[i]), yPos(points[i])) ==>
      multiset(SelectedPoints(points, rect, xPos, yPos))[points[i]] == multiset(points)[points[i]]
  {
    var p := InBrush(rect, xPos, yPos);
    FilterSpec(points, p);
    forall i | 0 <= i < |points| && Inside(rect, xPos(points[i]), yPos(points[i]))
      ensures points[i] in SelectedPoints(points, rect, xPos, yPos)
    {
      FilterMembership(points, p, points[i]);
    }
  }

  /** What the `brushed` handler does as written. */
  datatype BrushOutcome =
    | NoSelection
      /** The selection was computed, then `filteredData = selectedPoints` threw a TypeError. */
    | AssignmentToConstant(selectedPoints: seq<Record>)

  /**
   * `brushed` as written: it returns when there is no selection; otherwise it
   * computes the selection and then assigns to the block-scoped constant
   * `filteredData`, which throws, so nothing after it runs.
   */
  function BrushedAsWritten(points: seq<Record>, selection: Option<Rect>, xPos: Record -> real, yPos: Record -> real): (outcome: BrushOutcome)
    ensures outcome.NoSelection? <==> selection.None?
    ensures selection.Some? ==>
      && outcome.AssignmentToConstant?
      && IsSubseq(outcome.selectedPoints, points)
      && (forall i :: 0 <= i < |outcome.selectedPoints| ==>
            Inside(selection.value, xPos(outcome.selectedPoints[i]), yPos(outcome.selectedPoints[i])))
      && (forall i :: 0 <= i < |points| && Inside(selection.value, xPos(points[i]), yPos(points[i])) ==>
            points[i] in outcome.selectedPoints)
      && (forall i :: 0 <= i < |points| && Inside(selection.value, xPos(points[i]), yPos(points[i])) ==>
            multiset(outcome.selectedPoints)[points[i]] == multiset(points)[points[i]])
  {
    match selection
    case None => NoSelection
    case Some(rect) =>
      SelectionMeaning(points, rect, xPos, yPos);
      AssignmentToConstant(SelectedPoints(points, rect, xPos, yPos))
  }

  /** A point's look: as drawn (opacity 0.7), selected (1) or dimmed (0.1). */
  datatype PointStyle = Plain | Highlighted | Dimmed

  /** Freshly drawn points, all with their plain look (opacity 0.7). */
  function PlainStyles(n: nat): (styles: seq<PointStyle>)
    ensures |styles| == n
  {
    seq(n, _ => Plain)
  }

  /** `.attr("opacity", d => selectedPoints.includes(d) ? 1 : 0.1)` over the plotted records. */
  function Highlight(points: seq<Record>, selected: seq<Record>): (styles: seq<PointStyle>)
    ensures |styles| == |points|
  {
    seq(|points|, i requires 0 <= i < |points| => if points[i] in selected then Highlighted else Dimmed)
  }

  /**
   * The intended highlighting marks exactly the points inside the brush and
   * dims exactly the points outside it.
   */
  lemma HighlightMatchesBrush(points: seq<Record>, rect: Rect, xPos: Record -> real, yPos: Record -> real)
    ensures forall i :: 0 <= i < |points| ==>
      && (Highlight(points, SelectedPoints(points, rect, xPos, yPos))[i] == Highlighted
          <==> Inside(rect, xPos(points[i]), yPos(points[i])))
      && (Highlight(points, SelectedPoints(points, rect, xPos, yPos))[i] == Dimmed
          <==> !Inside(rect, xPos(points[i]), yPos(points[i])))
  {
    forall i | 0 <= i < |points|
      ensures Highlight(points, SelectedPoints(points, rect, xPos, yPos))[i] == Highlighted
              <==> Inside(rect, xPos(points[i]), yPos(points[i]))
      ensures Highlight(points, SelectedPoints(points, rect, xPos, yPos))[i] == Dimmed
              <==> !Inside(rect, xPos(points[i]), yPos(points[i]))
    {
      FilterMembership(points, InBrush(rect, xPos, yPos), points[i]);
    }
  }

  /**
   * The bug shown on one record: a brush around its point selects it, yet as
   * written the handler ends in the failed assignment, so the point keeps its
   * plain style where the intended code would highlight it.
   */
  lemma BrushSelectionLost()
    ensures var rec := Record("Bulbasaur", Some("Grass"), 318, 45);
            var xPos := (r: Record) => r.total as real;
            var yPos := (r: Record) => r.catchRate as real;
            var rect := Rect(300.0, 0.0, 400.0, 100.0);
            BrushedAsWritten([rec], Some(rect), xPos, yPos) == AssignmentToConstant([rec])
            && Highlight([rec], SelectedPoints([rec], rect, xPos, yPos)) == [Highlighted]
  {
    var rec := Record("Bulbasaur", Some("Grass"), 318, 45);
    var xPos := (r: Record) => r.total as real;
    var yPos := (r: Record) => r.catchRate as real;
    var rect := Rect(300.0, 0.0, 400.0, 100.0);
    assert [rec][1..] == [];
    assert xPos(rec) == 318.0 && yPos(rec) == 45.0;
    assert Inside(rect, xPos(rec), yPos(rec));
    assert InBrush(rect, xPos, yPos)(rec);
    assert SelectedPoints([rec], rect, xPos, yPos) == [rec] + Filter([], InBrush(rect, xPos, yPos));
  }
}
