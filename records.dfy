/**
 * One row of the Pokémon CSV, as the charts use it. Fields are taken as
 * already converted to numbers; `type1` is `None` when the row has no
 * `Type_1` property at all (JavaScript `undefined`).
 */
module Records {
  import opened Options
  import Seqs

  datatype Record = Record(name: string, type1: Option<string>, total: int, catchRate: int)

  /** The guard `if (type)` on `d.Type_1`: present and not the empty string. */
  predicate HasType(r: Record) {
    r.type1.Some? && r.type1.value != ""
  }

  /** Some record of `data` has `Type_1` equal to `v`. */
  ghost predicate Occurs(data: seq<Record>, v: Option<string>) {
    exists i :: 0 <= i < |data| && data[i].type1 == v
  }

  /** The key the bar chart counts a record under, or `None` when it is skipped. */
  function BarKey(r: Record): Option<string> {
    if HasType(r) then Some(r.type1.value) else None
  }

  /**
   * A value used as an object property name or a `d3.nest` key is converted
   * to a string: `undefined` becomes the string "undefined".
   */
  function PropertyKey(v: Option<string>): string {
    match v
    case Some(s) => s
    case None => "undefined"
  }

  /** `d3.nest().key(d => d.Type_1)` groups every record, under `String(d.Type_1)`. */
  function NestKey(r: Record): Option<string> {
    Some(PropertyKey(r.type1))
  }

  /** The bar-chart keys of `data`, record by record. */
  function BarKeys(data: seq<Record>): (ks: seq<Option<string>>)
    ensures |ks| == |data|
    decreases |data|
  {
    if data == [] then [] else BarKeys(data[..|data| - 1]) + [BarKey(data[|data| - 1])]
  }

  /** The `d3.nest` keys of `data`, record by record. */
  function NestKeys(data: seq<Record>): (ks: seq<Option<string>>)
    ensures |ks| == |data|
    decreases |data|
  {
    if data == [] then [] else NestKeys(data[..|data| - 1]) + [NestKey(data[|data| - 1])]
  }

  /** Number of records that pass the `if (type)` guard. */
  function TypedCount(data: seq<Record>): nat
    decreases |data|
  {
    if data == [] then 0
    else TypedCount(data[..|data| - 1]) + (if HasType(data[|data| - 1]) then 1 else 0)
  }

  /** Number of records without a `Type_1` property. */
  function MissingCount(data: seq<Record>): nat
    decreases |data|
  {
    if data == [] then 0
    else MissingCount(data[..|data| - 1]) + (if data[|data| - 1].type1.None? then 1 else 0)
  }

  /** The key sequences are taken record by record. */
  lemma KeysAt(data: seq<Record>, i: nat)
    requires i < |data|
    ensures BarKeys(data)[i] == BarKey(data[i])
    ensures NestKeys(data)[i] == NestKey(data[i])
    decreases |data|
  {
    if i < |data| - 1 {
      assert data[..|data| - 1][i] == data[i];
      KeysAt(data[..|data| - 1], i);
    }
  }

  /** The test `d => d.Type_1 === t` of the type filter and the drill-down. */
  function TypeIs(t: string): Record -> bool {
    (r: Record) => r.type1 == Some(t)
  }

  /** `data.filter(d => d.Type_1 === t)`: the records of type `t`, in dataset order. */
  function OfType(data: seq<Record>, t: string): seq<Record> {
    Seqs.Filter(data, TypeIs(t))
  }

  lemma PrefixSnoc(data: seq<Record>, i: nat)
    requires i < |data|
    ensures data[..i + 1] == data[..i] + [data[i]]
    ensures BarKeys(data[..i + 1]) == BarKeys(data[..i]) + [BarKey(data[i])]
    ensures NestKeys(data[..i + 1]) == NestKeys(data[..i]) + [NestKey(data[i])]
    ensures forall t :: OfType(data[..i + 1], t)
                     == OfType(data[..i], t) + (if data[i].type1 == Some(t) then [data[i]] else [])
  {
    assert data[..i + 1][..i] == data[..i];
    assert data[..i + 1] == data[..i] + [data[i]];
    forall t ensures OfType(data[..i + 1], t)
                     == OfType(data[..i], t) + (if data[i].type1 == Some(t) then [data[i]] else [])
    {
      Seqs.FilterAppend(data[..i], [data[i]], TypeIs(t));
      assert [data[i]][1..] == [];
      assert TypeIs(t)(data[i]) == (data[i].type1 == Some(t));
      assert Seqs.Filter([data[i]], TypeIs(t)) == if data[i].type1 == Some(t) then [data[i]] else [];
      assert OfType(data[..i + 1], t) == Seqs.Filter(data[..i] + [data[i]], TypeIs(t));
    }
  }
}
