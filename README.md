# Pokémon dashboard data model

A Dafny model of the data-shaping logic in the two versions of a D3 Pokémon
dashboard (`Homework2/rsacosta/main.js` and `Homework3/rsacosta3/main.js`).
The SVG drawing is not modelled. What is modelled is what each chart is
drawn from:

- the bar chart's per-type counts, sorted by descending count;
- the per-type groups of the parallel-coordinates chart, their top-14 legend
  and the legend's horizontal positions;
- Homework3's quadrant chart: the type filter, the drop-down options and the
  brush selection;
- Homework3's drill-down between the aggregate and the per-type view;
- the type colour table with its `"#ccc"` fallback.

A record is `Records.Record(name, type1, total, catchRate)`. `type1` is
`None` when the CSV row has no `Type_1`. The bar chart skips a record
unless its type is truthy (`Records.HasType`). `d3.nest` instead groups by
`String(d.Type_1)`, so records without a type form a group keyed
`"undefined"`.

JavaScript's `Array.prototype.sort` is stable. It is modelled by the stable
insertion sort `Sorting.SortBy`. The in-place sorts are
`Sorting.SortInPlace`, which works on an `array` and is proved equal to
`SortBy` of the old contents. The key order of `Object.entries` on the count
dictionary is first-insertion order (`Seqs.Dedup`).

Homework2 and Homework3 share the counting, grouping, sorting and colour
code. That code is modelled once, and the table below cites both files where
both contain it.

Module by file:

| file | module | what it holds |
|---|---|---|
| `options.dfy` | `Options` | `Option` |
| `seqs.dfy` | `Seqs` | dedup, filter and their lemmas |
| `sorting.dfy` | `Sorting` | stable sort, on sequences and in place |
| `records.dfy` | `Records` | records and their keys |
| `tally.dfy` | `Tally` | `{type, count}` lists built from keys |
| `barchart.dfy` | `BarChart` | the bar chart |
| `grouping.dfy` | `Grouping` | nest groups and the top 14 |
| `legend.dfy` | `Legend` | running legend offsets |
| `colors.dfy` | `TypeColors` | the colour table |
| `quadrant.dfy` | `Quadrant` | filter, options, brush |
| `parallelview.dfy` | `ParallelView` | the parallel chart's two views |
| `dashboard.dfy` | `Homework3` | class `Dashboard`, Homework3's global state and handlers |
| `homework2.dfy` | `Homework2` | Homework2's width-based, centred legend |

Two facts the proofs bring out:

- A drop-down value of `"All"` always means every record. A type literally
  named "All" therefore cannot be shown on its own.
- The aggregate view's `"undefined"` group counts the records without a type.
  Drilling into it filters on `d.Type_1 === "undefined"`, which none of them
  meets (`ParallelView.DrillDownCount`).

## Model

| member | source | states |
|---|---|---|
| BarChart.CountTypes | Homework3/rsacosta3/main.js:92-98 | the `forEach` over the records leaves each key mapped to the number of records of that type; the keys, in first-insertion order, are the distinct truthy types; the same loop is at Homework2/rsacosta/main.js:95-101 |
| BarChart.CreateBarData | Homework3/rsacosta3/main.js:100-102 | `Object.entries(...).map(...).sort(...)`, sorted in place, equals the stable sort of the entries by descending count; the same step is at Homework2/rsacosta/main.js:103-105 |
| BarChart.BarOccurrences | Homework3/rsacosta3/main.js:93-97 | for a non-empty type, its count is the number of records of exactly that type |
| BarChart.BarPresentCount | Homework3/rsacosta3/main.js:93-98 | the number of records that add to some count is the number of records with a truthy type |
| BarChart.BarKeyPresent | Homework3/rsacosta3/main.js:94-96 | a type gets a key iff it is non-empty and some record has it |
| BarChart.BarCountsSum | Homework3/rsacosta3/main.js:92-102 | the bar counts sum to the number of records with a truthy type |
| BarChart.BarOnePerType | Homework3/rsacosta3/main.js:100-102 | the bar list names each distinct non-empty type exactly once, and no other name |
| BarChart.BarCountsExact | Homework3/rsacosta3/main.js:93-101 | every bar has a non-empty name, and its count is the number of records of that type, at least 1 |
| BarChart.BarOrder | Homework3/rsacosta3/main.js:102 | bars are in non-increasing count order; among equal counts the dictionary's insertion order is kept (stable sort) |
| Tally.EntriesMeaning | Homework3/rsacosta3/main.js:100-101 | the entries list each present key once, in first-occurrence order, each with its number of occurrences, at least 1 |
| Tally.EntriesSum | Homework3/rsacosta3/main.js:92-101 | the entry counts sum to the number of keys counted |
| Tally.ByCountOrdered | Homework3/rsacosta3/main.js:102 | sorting with `(a, b) => b.count - a.count` yields non-increasing counts |
| Tally.ByCountStable | Homework3/rsacosta3/main.js:521 | the sort keeps the relative order of entries with equal counts |
| Tally.ByCountTotals | Homework3/rsacosta3/main.js:521 | the sort permutes its input: same multiset of entries, same names, same total |
| Sorting.SortInPlace | Homework3/rsacosta3/main.js:521 | the in-place array sort leaves the array equal to the stable sort of its old contents |
| Sorting.SortPermutes | Homework2/rsacosta/main.js:421 | the stable sort is a permutation of its input |
| Sorting.SortSorted | Homework2/rsacosta/main.js:421 | for a total, transitive order the stable sort's result is sorted |
| Grouping.SortedTypeAverages | Homework3/rsacosta3/main.js:482-521 | grouping with `d3.nest` (482-497) and then sorting `typeAverages` in place (520-521) gives the groups in non-increasing count order; the same code is at Homework2/rsacosta/main.js:392-421 |
| Grouping.NestOccurrences | Homework3/rsacosta3/main.js:482-489 | a group's size is the number of records of its type; the "undefined" group also holds every record without a type |
| Grouping.NestPresentCount | Homework3/rsacosta3/main.js:482-484 | every record falls in some group |
| Grouping.NestKeyPresent | Homework3/rsacosta3/main.js:483 | a key exists iff some record's `String(Type_1)` equals it |
| Grouping.GroupsOnePerKey | Homework2/rsacosta/main.js:392-400 | one group per distinct `String(Type_1)` key and no other group |
| Grouping.GroupCountsExact | Homework2/rsacosta/main.js:395-399 | each group's `count` is its member count, at least 1 |
| Grouping.GroupCountsSum | Homework2/rsacosta/main.js:392-400 | the group counts sum to the number of records |
| Grouping.GroupMatchesBar | Homework2/rsacosta/main.js:96-100 | for a non-empty type, its group count equals its bar count, plus the untyped records when the type is "undefined" |
| Grouping.LegendOfData | Homework3/rsacosta3/main.js:520-522 | the legend has at most 14 groups, in non-increasing count order, and none left out has a larger count than one shown |
| Legend.Offsets | Homework3/rsacosta3/main.js:524-538 | the running `currentX` puts item i at the sum of the widths before it, and ends at the total width; Homework2/rsacosta/main.js:427-441 runs the same accumulator over its `typeWidths` |
| Legend.OffsetStep | Homework2/rsacosta/main.js:440-441 | consecutive items are exactly one item width apart |
| Legend.FixedOffsets | Homework3/rsacosta3/main.js:534-537 | with Homework3's fixed step, item i sits 60·i after the start |
| Legend.LegendStart | Homework2/rsacosta/main.js:426-427 | the start `chartWidth/2 - totalWidth/2` leaves equal gaps on both sides of the legend |
| TypeColors.ColorMeaning | Homework3/rsacosta3/main.js:55-74 | a type gets `"#ccc"` exactly when it is not in the colour table; every colour is `#` followed by lower-case hex digits, six for a table colour and three for the fallback |
| Quadrant.PointColor | Homework3/rsacosta3/main.js:384 | a point gets the fallback colour iff its type key is not in the table; records without a type always do |
| Quadrant.TypeFilterMeaning | Homework3/rsacosta3/main.js:237-239 | "All" yields the dataset unchanged; any other value yields exactly the records of that type, in dataset order and with their multiplicity |
| Quadrant.StrLeTotal | Homework3/rsacosta3/main.js:208 | the string order of the default sort relates any two strings |
| Quadrant.StrLeTrans | Homework3/rsacosta3/main.js:208 | the string order of the default sort is transitive |
| Quadrant.OptLeIsOrder | Homework3/rsacosta3/main.js:208 | the default sort order, with `undefined` last, is total and transitive |
| Quadrant.DistinctTypes | Homework3/rsacosta3/main.js:208 | `new Set(data.map(d => d.Type_1))` holds each type of the data once and nothing else |
| Quadrant.FilterOptionsMeaning | Homework3/rsacosta3/main.js:208 | the options are sorted and are "All" plus each distinct `Type_1` exactly once; a type named "All" appears a second time |
| Quadrant.SelectionMeaning | Homework3/rsacosta3/main.js:455-459 | the selection is a subsequence of the plotted records, each selected record lies in the closed rectangle, and each plotted record in it is selected as many times as it is plotted |
| Quadrant.BrushedAsWritten | Homework3/rsacosta3/main.js:450-462 | without a selection the handler returns; with one it ends in the failed assignment, carrying the selection it computed: a subsequence of the plotted records, all inside the closed rectangle, holding every plotted record inside it as many times as it is plotted |
| Quadrant.HighlightMatchesBrush | Homework3/rsacosta3/main.js:455-467 | the intended highlight marks a point iff it lies in the brush, and dims a point iff it lies outside it |
| Quadrant.BrushSelectionLost | Homework3/rsacosta3/main.js:462 | a one-record dataset brushed around its point ends in the failed assignment, while the intended code highlights the point |
| ParallelView.BuildAggregateMarks | Homework3/rsacosta3/main.js:473-538 | grouping, in-place sort, top 14 and the running `currentX` give the legend items at `start + 60·i`, followed by one line per sorted group |
| ParallelView.LegendPlacement | Homework3/rsacosta3/main.js:524-538 | legend item i shows the i-th top group; consecutive items are exactly 60 apart; the legend is centred on the chart |
| ParallelView.AggregateLegend | Homework3/rsacosta3/main.js:520-538 | the aggregate view opens with the legend of at most 14 groups: the largest, in non-increasing count order, none left out larger than one shown |
| ParallelView.AggregateLines | Homework3/rsacosta3/main.js:616-631 | after the legend comes one type line per group, in the sorted order of `typeAverages`; the aggregate view has no back button |
| ParallelView.DetailMeaning | Homework3/rsacosta3/main.js:672-825 | the detail view has a back button, then exactly the records of the type, each in the type's colour, then a label counting those lines; it has no legend or type line |
| ParallelView.DetailInDataOrder | Homework3/rsacosta3/main.js:672 | the record lines are the type's records in dataset order, each as often as in the data |
| ParallelView.DrillDownCount | Homework3/rsacosta3/main.js:549-560 | drilling into a legend item or type line shows a "Showing N" label equal to the group's count, except for the "undefined" group, which loses its untyped records |
| Homework3.Dashboard.constructor | Homework3/rsacosta3/main.js:829-834 | loading stores `pokemonData` and builds all three charts from it; the filter starts at "All", the global `filteredData` at null, and the parallel chart in the aggregate view |
| Homework3.Dashboard.ChangeTypeFilter | Homework3/rsacosta3/main.js:218-221 | the drop-down change stores the value and redraws the quadrant with exactly the filtered records, nothing else changing |
| Homework3.Dashboard.Brushed | Homework3/rsacosta3/main.js:450-462 | the handler as written: it computes the correct selection and changes no state, neither `filteredData` nor any point's look |
| Homework3.Dashboard.BrushedAsIntended | Homework3/rsacosta3/main.js:461-467 | the intended handler stores the selection in the global `filteredData` and highlights exactly the points inside the brush |
| Homework3.Dashboard.ShowIndividualPokemon | Homework3/rsacosta3/main.js:670-675 | the group is cleared, then holds the detail view of the type; the state becomes `Detail(t)` |
| Homework3.Dashboard.Back | Homework3/rsacosta3/main.js:707-711 | the group is cleared and rebuilt from `pokemonData`; the state becomes `Aggregate` |
| Homework3.Dashboard.ClickMark | Homework3/rsacosta3/main.js:549-711 | a click on a legend item (549-560) or a type line (659-661) moves to `Detail` of its type, a click on the back button (707-711) moves to `Aggregate`, and other marks change nothing |
| Homework2.WidthsTotal | Homework2/rsacosta/main.js:425-426 | the total width is at least 30 per item |
| Homework2.LegendLayout | Homework2/rsacosta/main.js:420-443 | each item starts where the previous item's width ends; the first starts at `chartWidth/2 - total/2` and the last ends at `chartWidth/2 + total/2`, so the legend is centred |

## Left out

- D3, SVG and DOM work: element creation, attributes, axes, scales, transitions, line-draw animation and tooltips. This is UI over a library whose source is not part of this model.
- CSV loading and both resize handlers, which are asynchronous I/O. Records are parameters, already parsed.
- The unary-`+` coercion loops (Homework3/rsacosta3/main.js:193-196 and 475-479; Homework2/rsacosta/main.js:190-193 and 385-389). They are JavaScript number parsing, so record fields are modelled as already numeric.
- `d3.mean`, `d3.median`, `d3.min` and `d3.max`, the per-stat averages, and the quadrant geometry built on them. These are floating-point computations.
- Plotted positions in the quadrant are given as functions of a record, since the scales that compute them are not modelled.
- Quadrant.Highlight: `selectedPoints.includes(d)` compares objects by identity; the model compares records by value.
- Legend.LegendStart: the start is an exact real, with no IEEE-754 rounding.
- Homework2.TypeWidths: `length` counts UTF-16 code units, the model counts characters; the two differ only for characters outside the Basic Multilingual Plane.
- Quadrant.FilterOptions: the default sort compares UTF-16 code units, the model compares characters; the orders differ only for characters outside the Basic Multilingual Plane.
- Quadrant.FilterOptions: an option whose value is `undefined` gets no `value` attribute, so its text is submitted instead; `ChangeTypeFilter` accepts any string and does not model that mapping.
- Key order of `Object.entries`: JavaScript lists integer-like keys first, in numeric order. The model uses insertion order for every key.
- Dictionary keys inherited from `Object.prototype` (such as `"constructor"`) are not modelled. A type of that name would start its count from a function rather than from 0.
- TypeColors.ColorMeaning: distinctness of the eighteen table colours is not stated.
- The brush groups appended by every filter change accumulate in the real DOM. The model keeps only the data each chart shows.

## Findings

| source | as written | input that shows it | evidently intended | confidence | as-written member | corrected member |
|---|---|---|---|---|---|---|
| Homework3/rsacosta3/main.js:462 | `filteredData = selectedPoints` assigns to the `const filteredData` declared at line 237, which shadows the global of line 20. The assignment throws a TypeError, so the highlighting at lines 465-467 never runs and the global is never written | any non-empty brush selection, e.g. one record at (318, 45) brushed with the rectangle [[300, 0], [400, 100]] | store the selection in the global `filteredData` and highlight the selected points, dimming the rest | not executed | Quadrant.BrushSelectionLost | Homework3.Dashboard.BrushedAsIntended |
