/**
 * Counting records per key, as a JavaScript object used as a dictionary
 * does it: keys are enumerated in the order they were first inserted. A key
 * sequence holds one optional key per record; `None` means "not counted".
 */
module Tally {
  import opened Options
  import opened Seqs
  import opened Sorting

  /** A `{type, count}` pair of the bar chart, or the `Type_1`/`count` part of a type average. */
  datatype TypeCount = TypeCount(name: string, count: nat)

  /** The keys that are present, in record order. */
  function PresentKeys(ks: seq<Option<string>>): seq<string>
    decreases |ks|
  {
    if ks == [] then []
    else
      var init := PresentKeys(ks[..|ks| - 1]);
      match ks[|ks| - 1]
      case Some(k) => init + [k]
      case None => init
  }

  /** The distinct present keys, in order of first insertion. */
  function Distinct(ks: seq<Option<string>>): seq<string> {
    Dedup(PresentKeys(ks))
  }

  /** How many records carry key `k`. */
  function Occurrences(ks: seq<Option<string>>, k: string): nat
    decreases |ks|
  {
    if ks == [] then 0
    else Occurrences(ks[..|ks| - 1], k) + (if ks[|ks| - 1] == Some(k) then 1 else 0)
  }

  /** One `TypeCount` per name, with that name's number of occurrences. */
  function EntriesFor(ks: seq<Option<string>>, names: seq<string>): seq<TypeCount>
    decreases |names|
  {
    if names == [] then []
    else
      var k := names[|names| - 1];
      EntriesFor(ks, names[..|names| - 1]) + [TypeCount(k, Occurrences(ks, k))]
  }

  /** `Object.entries` of the count dictionary: one entry per key, in insertion order. */
  function Entries(ks: seq<Option<string>>): seq<TypeCount> {
    EntriesFor(ks, Distinct(ks))
  }

  function Names(es: seq<TypeCount>): seq<string>
    decreases |es|
  {
    if es == [] then [] else Names(es[..|es| - 1]) + [es[|es| - 1].name]
  }

  function SumCounts(es: seq<TypeCount>): nat
    decreases |es|
  {
    if es == [] then 0 else SumCounts(es[..|es| - 1]) + es[|es| - 1].count
  }

  /** The comparator `(a, b) => b.count - a.count` as an order: `a` may stay before `b`. */
  predicate CountAtLeast(a: TypeCount, b: TypeCount) {
    a.count >= b.count
  }

  /** `.sort((a, b) => b.count - a.count)`: stable, by non-increasing count. */
  function ByCount(es: seq<TypeCount>): seq<TypeCount> {
    SortBy(es, CountAtLeast)
  }

  /** The entries with count `c`. */
  function WithCount(c: nat): TypeCount -> bool {
    (e: TypeCount) => e.count == c
  }

  // ---------------------------------------------------------------------------
  // Keys and occurrences

  lemma {:induction false} PresentKeysMembers(ks: seq<Option<string>>)
    ensures forall k :: k in PresentKeys(ks) <==> Some(k) in ks
    ensures |PresentKeys(ks)| <= |ks|
    decreases |ks|
  {
    if ks != [] {
      assert ks == ks[..|ks| - 1] + [ks[|ks| - 1]];
      PresentKeysMembers(ks[..|ks| - 1]);
    }
  }

  /** A key is listed once exactly when some record carries it. */
  lemma DistinctMembers(ks: seq<Option<string>>)
    ensures NoDup(Distinct(ks))
    ensures forall k :: k in Distinct(ks) <==> Some(k) in ks
  {
    PresentKeysMembers(ks);
    var p := PresentKeys(ks);
    forall k ensures k in Distinct(ks) <==> k in p {
      if k in p {
        var i :| 0 <= i < |p| && p[i] == k;
      }
      if k in Distinct(ks) {
        var i :| 0 <= i < |Distinct(ks)| && Distinct(ks)[i] == k;
      }
    }
  }

  /** A key occurs at least once exactly when some record carries it. */
  lemma {:induction false} OccurrencesPositive(ks: seq<Option<string>>, k: string)
    ensures Occurrences(ks, k) > 0 <==> Some(k) in ks
    decreases |ks|
  {
    if ks != [] {
      assert ks == ks[..|ks| - 1] + [ks[|ks| - 1]];
      OccurrencesPositive(ks[..|ks| - 1], k);
    }
  }

  /** One more record changes only the count of its own key. */
  lemma OccurrencesSnoc(ks: seq<Option<string>>, x: Option<string>, k: string)
    ensures Occurrences(ks + [x], k) == Occurrences(ks, k) + (if x == Some(k) then 1 else 0)
  {
    assert (ks + [x])[..|ks|] == ks;
  }

  /** One more record inserts its key at the end, unless the key is already there. */
  lemma DistinctSnoc(ks: seq<Option<string>>, x: Option<string>)
    ensures Distinct(ks + [x])
         == if x.Some? && x.value !in Distinct(ks) then Distinct(ks) + [x.value] else Distinct(ks)
  {
    assert (ks + [x])[..|ks|] == ks;
    var p := PresentKeys(ks);
    if x.Some? {
      assert PresentKeys(ks + [x]) == p + [x.value];
      assert (p + [x.value])[..|p|] == p;
    }
  }

  // ---------------------------------------------------------------------------
  // Entries

  /** `Object.entries(typeCounts)` mapped to `{type, count}`, keys in insertion order. */
  function DictEntries(typeCounts: map<string, nat>, order: seq<string>): seq<TypeCount>
    requires forall t :: t in order ==> t in typeCounts
  {
    seq(|order|, i requires 0 <= i < |order| => TypeCount(order[i], typeCounts[order[i]]))
  }

  lemma {:induction false} EntriesForShape(ks: seq<Option<string>>, names: seq<string>)
    ensures |EntriesFor(ks, names)| == |names|
    ensures Names(EntriesFor(ks, names)) == names
    ensures forall i :: 0 <= i < |names| ==>
      EntriesFor(ks, names)[i] == TypeCount(names[i], Occurrences(ks, names[i]))
    decreases |names|
  {
    if names != [] {
      var init, k := names[..|names| - 1], names[|names| - 1];
      EntriesForShape(ks, init);
      var prev := EntriesFor(ks, init);
      var es := prev + [TypeCount(k, Occurrences(ks, k))];
      assert EntriesFor(ks, names) == es;
      assert es[..|es| - 1] == prev;
      assert Names(es) == Names(prev) + [k];
      assert names == init + [k];
      forall i | 0 <= i < |names|
        ensures es[i] == TypeCount(names[i], Occurrences(ks, names[i]))
      {
        if i < |init| {
          assert es[i] == prev[i] && names[i] == init[i];
        }
      }
    }
  }

  /**
   * `Object.entries` of the count dictionary lists every key that occurs,
   * each once, with its number of occurrences, which is at least one.
   */
  lemma EntriesMeaning(ks: seq<Option<string>>)
    ensures Names(Entries(ks)) == Distinct(ks)
    ensures forall k :: multiset(Names(Entries(ks)))[k] == if Some(k) in ks then 1 else 0
    ensures forall e :: e in Entries(ks) ==> e.count == Occurrences(ks, e.name) && e.count >= 1
  {
    EntriesForShape(ks, Distinct(ks));
    DistinctMembers(ks);
    NoDupMultiplicity(Distinct(ks));
    forall e | e in Entries(ks) ensures e.count == Occurrences(ks, e.name) && e.count >= 1 {
      var i :| 0 <= i < |Entries(ks)| && Entries(ks)[i] == e;
      assert Distinct(ks)[i] in Distinct(ks);
      OccurrencesPositive(ks, e.name);
    }
  }

  /** Every key of the dictionary maps to its number of occurrences in `ks`. */
  ghost predicate CountsMatch(typeCounts: map<string, nat>, ks: seq<Option<string>>) {
    forall t :: t in typeCounts ==> typeCounts[t] == Occurrences(ks, t)
  }

  /** `typeCounts[type] = (typeCounts[type] || 0) + 1` keeps the counts right. */
  lemma CountsBump(typeCounts: map<string, nat>, ks: seq<Option<string>>, ty: string)
    requires CountsMatch(typeCounts, ks)
    requires ty in typeCounts || Occurrences(ks, ty) == 0
    ensures CountsMatch(typeCounts[ty := (if ty in typeCounts then typeCounts[ty] else 0) + 1], ks + [Some(ty)])
  {
    forall t ensures Occurrences(ks + [Some(ty)], t) == Occurrences(ks, t) + (if t == ty then 1 else 0) {
      OccurrencesSnoc(ks, Some(ty), t);
    }
  }

  /** A record that is not counted leaves the counts right. */
  lemma CountsSkip(typeCounts: map<string, nat>, ks: seq<Option<string>>)
    requires CountsMatch(typeCounts, ks)
    ensures CountsMatch(typeCounts, ks + [None])
  {
    forall t ensures Occurrences(ks + [None], t) == Occurrences(ks, t) {
      OccurrencesSnoc(ks, None, t);
    }
  }

  /** A dictionary holding every key's occurrences lists exactly `Entries`. */
  lemma DictEntriesAreEntries(ks: seq<Option<string>>, typeCounts: map<string, nat>, order: seq<string>)
    requires order == Distinct(ks)
    requires forall t :: t in order ==> t in typeCounts && typeCounts[t] == Occurrences(ks, t)
    ensures DictEntries(typeCounts, order) == Entries(ks)
  {
    EntriesForShape(ks, order);
  }

  /** Summing over names is additive in the names. */
  lemma SumEntriesSnoc(ks: seq<Option<string>>, names: seq<string>, k: string)
    ensures SumCounts(EntriesFor(ks, names + [k])) == SumCounts(EntriesFor(ks, names)) + Occurrences(ks, k)
  {
    assert (names + [k])[..|names|] == names;
    var es := EntriesFor(ks, names + [k]);
    assert es[..|es| - 1] == EntriesFor(ks, names);
  }

  /**
   * One more record adds one to the sum over a duplicate-free list of names
   * exactly when its key is among them.
   */
  lemma {:induction false} SumEntriesNewRecord(ks: seq<Option<string>>, x: Option<string>, names: seq<string>)
    requires NoDup(names)
    ensures SumCounts(EntriesFor(ks + [x], names))
         == SumCounts(EntriesFor(ks, names)) + (if x.Some? && x.value in names then 1 else 0)
    decreases |names|
  {
    if names != [] {
      var init, k := names[..|names| - 1], names[|names| - 1];
      assert names == init + [k];
      assert NoDup(init);
      SumEntriesNewRecord(ks, x, init);
      SumEntriesSnoc(ks + [x], init, k);
      SumEntriesSnoc(ks, init, k);
      OccurrencesSnoc(ks, x, k);
      if x.Some? && x.value == k {
        assert k !in init;
      }
    }
  }

  /** The entries' counts add up to the number of records with a key. */
  lemma {:induction false} EntriesSum(ks: seq<Option<string>>)
    ensures SumCounts(Entries(ks)) == |PresentKeys(ks)|
    decreases |ks|
  {
    if ks != [] {
      var init, x := ks[..|ks| - 1], ks[|ks| - 1];
      assert ks == init + [x];
      EntriesSum(init);
      DistinctMembers(init);
      var d := Distinct(init);
      SumEntriesNewRecord(init, x, d);
      if x.Some? && x.value !in d {
        assert Distinct(ks) == d + [x.value];
        SumEntriesSnoc(ks, d, x.value);
        OccurrencesSnoc(init, x, x.value);
        OccurrencesPositive(init, x.value);
      }
    }
  }

  // ---------------------------------------------------------------------------
  // Sorting by count

  /** The sort puts counts in non-increasing order. */
  lemma ByCountOrdered(es: seq<TypeCount>)
    ensures forall i, j :: 0 <= i < j < |ByCount(es)| ==> ByCount(es)[i].count >= ByCount(es)[j].count
  {
    SortSorted(es, CountAtLeast);
  }

  lemma {:induction false} InsertByCountStable(t: seq<TypeCount>, x: TypeCount, c: nat)
    ensures Filter(Insert(t, x, CountAtLeast), WithCount(c)) == Filter(t, WithCount(c)) + Filter([x], WithCount(c))
    decreases |t|
  {
    if t == [] {
      assert [x] == [] + [x];
    } else if CountAtLeast(t[|t| - 1], x) {
      FilterAppend(t, [x], WithCount(c));
    } else {
      var init, last := t[..|t| - 1], t[|t| - 1];
      InsertByCountStable(init, x, c);
      FilterAppend(Insert(init, x, CountAtLeast), [last], WithCount(c));
      FilterAppend(init, [last], WithCount(c));
      assert t == init + [last];
    }
  }

  /** Stability: entries with equal counts keep their relative order. */
  lemma {:induction false} ByCountStable(es: seq<TypeCount>, c: nat)
    ensures Filter(ByCount(es), WithCount(c)) == Filter(es, WithCount(c))
    decreases |es|
  {
    if es != [] {
      var init, last := es[..|es| - 1], es[|es| - 1];
      ByCountStable(init, c);
      InsertByCountStable(SortBy(init, CountAtLeast), last, c);
      FilterAppend(init, [last], WithCount(c));
      assert es == init + [last];
    }
  }

  lemma {:induction false} InsertByCountTotals(t: seq<TypeCount>, x: TypeCount)
    ensures SumCounts(Insert(t, x, CountAtLeast)) == SumCounts(t) + x.count
    ensures multiset(Names(Insert(t, x, CountAtLeast))) == multiset(Names(t)) + multiset{x.name}
    decreases |t|
  {
    if t == [] {
    } else if CountAtLeast(t[|t| - 1], x) {
      assert (t + [x])[..|t|] == t;
    } else {
      var init, last := t[..|t| - 1], t[|t| - 1];
      InsertByCountTotals(init, x);
      var mid := Insert(init, x, CountAtLeast);
      assert (mid + [last])[..|mid|] == mid;
    }
  }

  /** Sorting moves entries but keeps their names and their total. */
  lemma {:induction false} ByCountTotals(es: seq<TypeCount>)
    ensures SumCounts(ByCount(es)) == SumCounts(es)
    ensures multiset(Names(ByCount(es))) == multiset(Names(es))
    ensures multiset(ByCount(es)) == multiset(es)
    decreases |es|
  {
    SortPermutes(es, CountAtLeast);
    if es != [] {
      var init, last := es[..|es| - 1], es[|es| - 1];
      ByCountTotals(init);
      InsertByCountTotals(SortBy(init, CountAtLeast), last);
    }
  }
}
