/**
 * The per-type grouping of `createParallelCoordinatesChart`
 * (Homework3/rsacosta3/main.js:482-497 and 520-522; the same code is at
 * Homework2/rsacosta/main.js:392-407 and 420-422): `d3.nest` groups every
 * record under `String(d.Type_1)`, each group records its size as `count`,
 * the list is sorted in place by non-increasing count, and its first 14
 * entries make the legend. The per-stat means are not modelled.
 */
module Grouping {
  import opened Options
  import opened Records
  import opened Tally
  import Sorting
  import BarChart

  /** The legend shows at most this many types. */
  const LegendLimit: nat := 14

  /** `typeAverages` after its in-place sort (only `Type_1` and `count` are kept). */
  function TypeAverages(data: seq<Record>): seq<TypeCount> {
    ByCount(Entries(NestKeys(data)))
  }

  /** `.slice(0, 14)`: the legend's entries. */
  function TopTypes(typeAverages: seq<TypeCount>): seq<TypeCount> {
    if |typeAverages| <= LegendLimit then typeAverages else typeAverages[..LegendLimit]
  }

  /**
   * Grouping with `d3.nest` and mapping each group to `{Type_1, count}`,
   * then `typeAverages.sort((a, b) => b.count - a.count)` on that array.
   */
  method SortedTypeAverages(data: seq<Record>) returns (typeAverages: seq<TypeCount>)
    ensures typeAverages == TypeAverages(data)
  {
    var groups := Entries(NestKeys(data));
    var a := new TypeCount[|groups|](i requires 0 <= i < |groups| => groups[i]);
    assert a[..] == groups;
    Sorting.SortInPlace(a, CountAtLeast);
    typeAverages := a[..];
  }

  // ---------------------------------------------------------------------------
  // Group keys in terms of the records

  /**
   * A group's size is the number of records of that type; the key
   * "undefined" also collects every record without a `Type_1`.
   */
  lemma {:induction false} NestOccurrences(data: seq<Record>, t: string)
    ensures Occurrences(NestKeys(data), t) == |OfType(data, t)| + (if t == "undefined" then MissingCount(data) else 0)
    decreases |data|
  {
    if data != [] {
      var n := |data| - 1;
      PrefixSnoc(data, n);
      assert data[..n + 1] == data;
      NestOccurrences(data[..n], t);
      OccurrencesSnoc(NestKeys(data[..n]), NestKey(data[n]), t);
    }
  }

  lemma {:induction false} NestPresentCount(data: seq<Record>)
    ensures |PresentKeys(NestKeys(data))| == |data|
    decreases |data|
  {
    if data != [] {
      var n := |data| - 1;
      PrefixSnoc(data, n);
      assert data[..n + 1] == data;
      NestPresentCount(data[..n]);
      var ks := NestKeys(data[..n]);
      assert (ks + [NestKey(data[n])])[..|ks|] == ks;
    }
  }

  lemma NestKeyPresent(data: seq<Record>, t: string)
    ensures Some(t) in NestKeys(data) <==> exists i :: 0 <= i < |data| && PropertyKey(data[i].type1) == t
  {
    var ks := NestKeys(data);
    if Some(t) in ks {
      var i :| 0 <= i < |ks| && ks[i] == Some(t);
      KeysAt(data, i);
    }
    if exists i :: 0 <= i < |data| && PropertyKey(data[i].type1) == t {
      var i :| 0 <= i < |data| && PropertyKey(data[i].type1) == t;
      KeysAt(data, i);
    }
  }

  // ---------------------------------------------------------------------------
  // What the grouping promises

  /** One group per distinct key `String(Type_1)`, including "" and "undefined". */
  lemma GroupsOnePerKey(data: seq<Record>)
    ensures forall t :: multiset(Names(TypeAverages(data)))[t]
                        == if exists i :: 0 <= i < |data| && PropertyKey(data[i].type1) == t then 1 else 0
  {
    ByCountTotals(Entries(NestKeys(data)));
    EntriesMeaning(NestKeys(data));
    forall t ensures multiset(Names(TypeAverages(data)))[t]
                     == if exists i :: 0 <= i < |data| && PropertyKey(data[i].type1) == t then 1 else 0
    {
      NestKeyPresent(data, t);
    }
  }

  /** Each group's `count` is the size of its group, and groups are never empty. */
  lemma GroupCountsExact(data: seq<Record>)
    ensures forall e :: e in TypeAverages(data) ==>
      e.count == |OfType(data, e.name)| + (if e.name == "undefined" then MissingCount(data) else 0) >= 1
  {
    var ks := NestKeys(data);
    ByCountTotals(Entries(ks));
    EntriesMeaning(ks);
    forall e | e in TypeAverages(data)
      ensures e.count == |OfType(data, e.name)| + (if e.name == "undefined" then MissingCount(data) else 0) >= 1
    {
      assert e in multiset(TypeAverages(data));
      assert e in Entries(ks);
      NestOccurrences(data, e.name);
    }
  }

  /** The group counts add up to the number of records. */
  lemma GroupCountsSum(data: seq<Record>)
    ensures SumCounts(TypeAverages(data)) == |data|
  {
    ByCountTotals(Entries(NestKeys(data)));
    EntriesSum(NestKeys(data));
    NestPresentCount(data);
  }

  /**
   * For a non-empty type the parallel chart's group count equals the bar
   * chart's count, except that the group "undefined" also holds the records
   * without a `Type_1`, which the bar chart skips.
   */
  lemma {:induction false} GroupMatchesBar(data: seq<Record>, t: string)
    requires t != ""
    ensures Occurrences(NestKeys(data), t)
         == Occurrences(BarKeys(data), t) + (if t == "undefined" then MissingCount(data) else 0)
  {
    NestOccurrences(data, t);
    BarChart.BarOccurrences(data, t);
  }

  /**
   * The legend holds at most 14 types, in non-increasing count order, and no
   * type left out of it has a larger count than one shown.
   */
  lemma LegendIsTop(typeAverages: seq<TypeCount>)
    requires forall i, j :: 0 <= i < j < |typeAverages| ==> typeAverages[i].count >= typeAverages[j].count
    ensures |TopTypes(typeAverages)| == if |typeAverages| <= LegendLimit then |typeAverages| else LegendLimit
    ensures TopTypes(typeAverages) == typeAverages[..|TopTypes(typeAverages)|]
    ensures forall i, j :: 0 <= i < |TopTypes(typeAverages)| <= j < |typeAverages| ==>
      TopTypes(typeAverages)[i].count >= typeAverages[j].count
    ensures forall i, j :: 0 <= i < j < |TopTypes(typeAverages)| ==>
      TopTypes(typeAverages)[i].count >= TopTypes(typeAverages)[j].count
  {
  }

  /** The legend of the parallel chart: the 14 largest groups, largest first. */
  lemma LegendOfData(data: seq<Record>)
    ensures |TopTypes(TypeAverages(data))| <= LegendLimit
    ensures forall i, j :: 0 <= i < j < |TopTypes(TypeAverages(data))| ==>
      TopTypes(TypeAverages(data))[i].count >= TopTypes(TypeAverages(data))[j].count
    ensures forall i, j :: 0 <= i < |TopTypes(TypeAverages(data))| <= j < |TypeAverages(data)| ==>
      TopTypes(TypeAverages(data))[i].count >= TypeAverages(data)[j].count
  {
    ByCountOrdered(Entries(NestKeys(data)));
    LegendIsTop(TypeAverages(data));
  }
}
