/**
 * The data side of `createBarChart` (Homework3/rsacosta3/main.js:91-102; the
 * same code is at Homework2/rsacosta/main.js:93-105): count the records per
 * truthy `Type_1` in a dictionary, list its entries and sort them by
 * non-increasing count. One bar is drawn per entry, in this order.
 */
module BarChart {
  import opened Options
  import opened Seqs
  import opened Records
  import opened Tally
  import Sorting

  /** The `typeData` list the bars are drawn from. */
  function BarData(data: seq<Record>): seq<TypeCount> {
    ByCount(Entries(BarKeys(data)))
  }

  /**
   * The `data.forEach` loop filling the `typeCounts` dictionary. `order` is
   * the dictionary's key insertion order, which `Object.entries` follows.
   */
  method CountTypes(data: seq<Record>) returns (typeCounts: map<string, nat>, order: seq<string>)
    ensures order == Distinct(BarKeys(data))
    ensures forall t :: t in typeCounts <==> t in order
    ensures forall t :: t in typeCounts ==> typeCounts[t] == Occurrences(BarKeys(data), t)
  {
    typeCounts, order := map[], [];
    ghost var seen: seq<Option<string>> := [];
    for i := 0 to |data|
      invariant seen == BarKeys(data[..i])
      invariant order == Distinct(seen)
      invariant forall t :: t in typeCounts <==> t in order
      invariant CountsMatch(typeCounts, seen)
    {
      var d := data[i];
      PrefixSnoc(data, i);
      DistinctSnoc(seen, BarKey(d));
      if d.type1.Some? && d.type1.value != "" {
        var ty := d.type1.value;
        DistinctMembers(seen);
        OccurrencesPositive(seen, ty);
        CountsBump(typeCounts, seen, ty);
        if ty !in typeCounts {
          order := order + [ty];
        }
        typeCounts := typeCounts[ty := (if ty in typeCounts then typeCounts[ty] else 0) + 1];
      } else {
        CountsSkip(typeCounts, seen);
      }
      seen := seen + [BarKey(d)];
    }
    assert data[..|data|] == data;
  }

  /**
   * `createBarChart` up to the drawing: the dictionary loop, `Object.entries`
   * mapped to `{type, count}` and the in-place sort of that fresh array.
   */
  method CreateBarData(data: seq<Record>) returns (typeData: seq<TypeCount>)
    ensures typeData == BarData(data)
  {
    var typeCounts, order := CountTypes(data);
    var entries := DictEntries(typeCounts, order);
    DictEntriesAreEntries(BarKeys(data), typeCounts, order);
    var a := new TypeCount[|entries|](i requires 0 <= i < |entries| => entries[i]);
    assert a[..] == entries;
    Sorting.SortInPlace(a, CountAtLeast);
    typeData := a[..];
  }

  // ---------------------------------------------------------------------------
  // Keys of the bar chart in terms of the records

  lemma {:induction false} BarOccurrences(data: seq<Record>, t: string)
    requires t != ""
    ensures Occurrences(BarKeys(data), t) == |OfType(data, t)|
    decreases |data|
  {
    if data != [] {
      var n := |data| - 1;
      PrefixSnoc(data, n);
      assert data[..n + 1] == data;
      BarOccurrences(data[..n], t);
      OccurrencesSnoc(BarKeys(data[..n]), BarKey(data[n]), t);
    }
  }

  lemma {:induction false} BarPresentCount(data: seq<Record>)
    ensures |PresentKeys(BarKeys(data))| == TypedCount(data)
    decreases |data|
  {
    if data != [] {
      var n := |data| - 1;
      PrefixSnoc(data, n);
      assert data[..n + 1] == data;
      BarPresentCount(data[..n]);
      var ks := BarKeys(data[..n]);
      assert (ks + [BarKey(data[n])])[..|ks|] == ks;
    }
  }

  lemma BarKeyPresent(data: seq<Record>, t: string)
    ensures Some(t) in BarKeys(data) <==> t != "" && Occurs(data, Some(t))
  {
    var ks := BarKeys(data);
    if Some(t) in ks {
      var i :| 0 <= i < |ks| && ks[i] == Some(t);
      KeysAt(data, i);
    }
    if t != "" && Occurs(data, Some(t)) {
      var i :| 0 <= i < |data| && data[i].type1 == Some(t);
      KeysAt(data, i);
    }
  }

  // ---------------------------------------------------------------------------
  // What the bar list promises

  /** The bar counts add up to the number of records with a non-empty type. */
  lemma BarCountsSum(data: seq<Record>)
    ensures SumCounts(BarData(data)) == TypedCount(data)
  {
    ByCountTotals(Entries(BarKeys(data)));
    EntriesSum(BarKeys(data));
    BarPresentCount(data);
  }

  /** One bar per distinct non-empty `Type_1` and none for anything else. */
  lemma BarOnePerType(data: seq<Record>)
    ensures forall t :: multiset(Names(BarData(data)))[t]
                        == if t != "" && Occurs(data, Some(t)) then 1 else 0
  {
    ByCountTotals(Entries(BarKeys(data)));
    EntriesMeaning(BarKeys(data));
    forall t ensures multiset(Names(BarData(data)))[t]
                     == if t != "" && Occurs(data, Some(t)) then 1 else 0
    {
      BarKeyPresent(data, t);
    }
  }

  /** Each bar's count is the number of records of its type, at least one. */
  lemma BarCountsExact(data: seq<Record>)
    ensures forall e :: e in BarData(data) ==> e.name != "" && e.count == |OfType(data, e.name)| >= 1
  {
    var ks := BarKeys(data);
    ByCountTotals(Entries(ks));
    EntriesMeaning(ks);
    forall e | e in BarData(data) ensures e.name != "" && e.count == |OfType(data, e.name)| >= 1 {
      assert e in multiset(BarData(data));
      assert e in Entries(ks);
      OccurrencesPositive(ks, e.name);
      BarKeyPresent(data, e.name);
      BarOccurrences(data, e.name);
    }
  }

  /**
   * The bars are in non-increasing count order, and bars with equal counts
   * keep the order in which their types first appear in the data.
   */
  lemma BarOrder(data: seq<Record>)
    ensures forall i, j :: 0 <= i < j < |BarData(data)| ==> BarData(data)[i].count >= BarData(data)[j].count
    ensures forall c: nat :: Filter(BarData(data), WithCount(c)) == Filter(Entries(BarKeys(data)), WithCount(c))
  {
    ByCountOrdered(Entries(BarKeys(data)));
    forall c: nat ensures Filter(BarData(data), WithCount(c)) == Filter(Entries(BarKeys(data)), WithCount(c)) {
      ByCountStable(Entries(BarKeys(data)), c);
    }
  }
}
