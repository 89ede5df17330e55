/** The backend's data helpers. They work on the raw JSON objects loaded from the
    data file, not on validated records, so a field may be missing or hold a value of
    any JSON scalar type, and the helpers compare, test and add those values with
    Python's `==`, truthiness and `sum`. */
module Utils {
  import opened Seqs

  /** A JSON scalar as `json.load` returns it. Integers and floats are both numbers;
      a JSON number is kept as its exact value. */
  datatype Json = JNull | JBool(b: bool) | JNum(x: real) | JStr(s: string)

  /** A JSON object: a Python `dict` from field names to values. */
  type Item = map<string, Json>

  /** `item.get(key)`: `None` for a missing key as for a JSON `null`. */
  function Get(item: Item, key: string): Json
  {
    if key in item then item[key] else JNull
  }

  /** `bool` is a subclass of `int` in Python, so `True` and `False` are numbers. */
  predicate IsNumeric(v: Json)
  {
    v.JBool? || v.JNum?
  }

  function NumVal(v: Json): real
    requires IsNumeric(v)
  {
    match v
    case JBool(b) => if b then 1.0 else 0.0
    case JNum(x) => x
  }

  /** Python's `==` on JSON scalars: numbers and booleans compare by value, strings by
      their characters, `None` only with `None`. */
  predicate PyEq(a: Json, b: Json)
  {
    if IsNumeric(a) && IsNumeric(b) then NumVal(a) == NumVal(b)
    else if a.JStr? && b.JStr? then a.s == b.s
    else a.JNull? && b.JNull?
  }

  /** Python truthiness: `None`, `False`, `0`, `0.0` and `""` are falsy. */
  predicate PyTruthy(v: Json)
  {
    match v
    case JNull => false
    case JBool(b) => b
    case JNum(x) => x != 0.0
    case JStr(s) => s != ""
  }

  /** The representative of a value's class under `==`: booleans become the numbers
      they equal. */
  function Canon(v: Json): Json
  {
    match v
    case JBool(b) => JNum(if b then 1.0 else 0.0)
    case _ => v
  }

  /** `==` is equality of representatives, hence an equivalence. */
  lemma PyEqIsCanonEq(a: Json, b: Json)
    ensures PyEq(a, b) <==> Canon(a) == Canon(b)
    ensures PyEq(a, Canon(a))
  {
  }

  /** A string equals only the same string: `True == 1` but never `"1" == 1`. */
  lemma PyEqString(v: Json, t: string)
    ensures PyEq(v, JStr(t)) <==> v == JStr(t)
  {
  }

  // ---------------------------------------------------------------------------
  // filter_data_by_topic

  function TopicIs(topic: Json): Item -> bool
  {
    (item: Item) => PyEq(Get(item, "topic"), topic)
  }

  /** `[item for item in data if item.get('topic') == topic]`. */
  function FilterByTopic(data: seq<Item>, topic: Json): (r: seq<Item>)
    ensures forall item :: item in r <==> item in data && PyEq(Get(item, "topic"), topic)
  {
    Filter(data, TopicIs(topic))
  }

  /** The kept items are in input order, and an item is dropped only when its topic
      differs. */
  lemma FilterByTopicKeepsOrder(data: seq<Item>, topic: Json)
    ensures IsSubsequence(FilterByTopic(data, topic), data)
    ensures |FilterByTopic(data, topic)| <= |data|
    ensures (forall item :: item in data ==> PyEq(Get(item, "topic"), topic)) ==> FilterByTopic(data, topic) == data
  {
    FilterIsSubsequence(data, TopicIs(topic));
    if forall item :: item in data ==> PyEq(Get(item, "topic"), topic) {
      FilterAll(data, TopicIs(topic));
    }
  }

  /** Asking for topic `None` returns the items with no topic or a `null` one. */
  lemma FilterByNoTopic(data: seq<Item>)
    ensures forall item :: item in FilterByTopic(data, JNull) <==>
      item in data && ("topic" !in item || item["topic"] == JNull)
  {
  }

  // ---------------------------------------------------------------------------
  // calculate_average_impact

  predicate HasImpact(item: Item)
  {
    Get(item, "impact") != JNull
  }

  /** `[item['impact'] for item in data if item.get('impact') is not None]`: the impact
      of each item that has one, in item order. */
  function Impacts(data: seq<Item>): (r: seq<Json>)
    ensures |r| == |Filter(data, HasImpact)| <= |data|
    ensures forall i :: 0 <= i < |r| ==> r[i] == Get(Filter(data, HasImpact)[i], "impact")
    ensures forall v :: v in r ==> v != JNull
    ensures r == [] <==> forall item :: item in data ==> !HasImpact(item)
  {
    if data == [] then []
    else
      var rest := Impacts(data[1..]);
      assert forall item :: item in data <==> item == data[0] || item in data[1..];
      (if HasImpact(data[0]) then [data[0]["impact"]] else []) + rest
  }

  lemma CollectedImpactHasItem(data: seq<Item>, i: nat)
    requires i < |Impacts(data)|
    ensures var item := Filter(data, HasImpact)[i];
      item in data && HasImpact(item) && Get(item, "impact") == Impacts(data)[i]
  {
    var kept := Filter(data, HasImpact);
    assert kept[i] in kept;
  }

  lemma ItemImpactCollected(data: seq<Item>, item: Item)
    requires item in data && HasImpact(item)
    ensures Get(item, "impact") in Impacts(data)
  {
    var kept := Filter(data, HasImpact);
    assert item in kept;
    var i :| 0 <= i < |kept| && kept[i] == item;
    assert Impacts(data)[i] == Get(item, "impact");
  }

  /** The collected values are exactly the impacts that some item has. */
  lemma ImpactsMembers(data: seq<Item>)
    ensures forall v :: v in Impacts(data) <==>
      exists item :: item in data && HasImpact(item) && Get(item, "impact") == v
  {
    forall v | v in Impacts(data)
      ensures exists item :: item in data && HasImpact(item) && Get(item, "impact") == v
    {
      var i :| 0 <= i < |Impacts(data)| && Impacts(data)[i] == v;
      CollectedImpactHasItem(data, i);
    }
    forall item | item in data && HasImpact(item) ensures Get(item, "impact") in Impacts(data) {
      ItemImpactCollected(data, item);
    }
  }

  /** `sum(values)` when every summand is a number. */
  function SumOf(vs: seq<Json>): real
    requires forall v :: v in vs ==> IsNumeric(v)
  {
    if vs == [] then 0.0 else NumVal(vs[0]) + SumOf(vs[1..])
  }

  /** The outcome of the helper: a value, or the `TypeError` that `sum` raises on a
      string. */
  datatype Outcome = Value(avg: real) | TypeError

  /** `sum(impacts) / len(impacts) if impacts else 0`. */
  function AverageImpact(data: seq<Item>): (r: Outcome)
    ensures r.TypeError? <==> exists v :: v in Impacts(data) && !IsNumeric(v)
    ensures Impacts(data) == [] ==> r == Value(0.0)
    ensures (forall item :: item in data ==> !HasImpact(item)) ==> r == Value(0.0)
    ensures r.Value? && Impacts(data) != [] ==> r.avg == Mean(SumOf(Impacts(data)), |Impacts(data)|)
  {
    var impacts := Impacts(data);
    if exists v :: v in impacts && !IsNumeric(v) then TypeError
    else if impacts == [] then Value(0.0)
    else Value(Mean(SumOf(impacts), |impacts|))
  }

  /** The impacts depend only on which items have one. */
  lemma SameKeptSameImpacts(a: seq<Item>, b: seq<Item>)
    requires Filter(a, HasImpact) == Filter(b, HasImpact)
    ensures Impacts(a) == Impacts(b)
  {
  }

  /** `None` impacts take part in neither the sum nor the count. */
  lemma ImpactsSkipNone(data: seq<Item>, d: Item)
    requires !HasImpact(d)
    ensures Impacts(data + [d]) == Impacts(data)
    ensures Impacts([d] + data) == Impacts(data)
    ensures AverageImpact(data + [d]) == AverageImpact(data)
  {
    assert Filter([d], HasImpact) == [] by { assert [d][1..] == []; }
    FilterConcat(data, [d], HasImpact);
    FilterConcat([d], data, HasImpact);
    SameKeptSameImpacts(data + [d], data);
    SameKeptSameImpacts([d] + data, data);
  }

  /** `n * x` as repeated addition, which keeps the induction below linear. */
  function Times(n: nat, x: real): real
  {
    if n == 0 then 0.0 else Times(n - 1, x) + x
  }

  lemma {:induction false} TimesIsProduct(n: nat, x: real)
    ensures Times(n, x) == n as real * x
  {
    if n > 0 {
      TimesIsProduct(n - 1, x);
      assert n as real * x == (n - 1) as real * x + x;
    }
  }

  lemma {:induction false} SumBounds(vs: seq<Json>, lo: real, hi: real)
    requires forall v :: v in vs ==> IsNumeric(v) && lo <= NumVal(v) <= hi
    ensures Times(|vs|, lo) <= SumOf(vs) <= Times(|vs|, hi)
  {
    if vs != [] {
      assert vs[0] in vs;
      assert forall v :: v in vs[1..] ==> v in vs;
      SumBounds(vs[1..], lo, hi);
    }
  }

  lemma QuotientAbove(total: real, n: real, lo: real)
    requires n > 0.0 && n * lo <= total
    ensures lo <= total / n
  {
  }

  lemma QuotientBelow(total: real, n: real, hi: real)
    requires n > 0.0 && total <= n * hi
    ensures total / n <= hi
  {
  }

  lemma MeanBetween(total: real, n: nat, lo: real, hi: real)
    requires n > 0 && Times(n, lo) <= total <= Times(n, hi)
    ensures lo <= Mean(total, n) <= hi
  {
    TimesIsProduct(n, lo);
    TimesIsProduct(n, hi);
    QuotientAbove(total, n as real, lo);
    QuotientBelow(total, n as real, hi);
  }

  /** The average lies between the least and the greatest impact. */
  lemma AverageImpactBounded(data: seq<Item>, lo: real, hi: real)
    requires forall v :: v in Impacts(data) ==> IsNumeric(v) && lo <= NumVal(v) <= hi
    requires Impacts(data) != []
    ensures AverageImpact(data).Value?
    ensures lo <= AverageImpact(data).avg <= hi
  {
    var vs := Impacts(data);
    SumBounds(vs, lo, hi);
    MeanBetween(SumOf(vs), |vs|, lo, hi);
  }

  // ---------------------------------------------------------------------------
  // get_unique_sectors

  /** `set(item['sector'] for item in data if item.get('sector'))`. A Python set keeps
      one member of each class of `==`-equal values; the model keeps that class's
      representative. */
  function UniqueSectors(data: seq<Item>): (r: set<Json>)
    ensures forall v :: v in r ==> PyTruthy(v) && Canon(v) == v
  {
    if data == [] then {}
    else
      var sector := Get(data[0], "sector");
      (if PyTruthy(sector) then {Canon(sector)} else {}) + UniqueSectors(data[1..])
  }

  /** The set holds exactly the truthy sectors, up to `==`: each member equals the
      sector of some item, each truthy sector equals a member, and no two members are
      equal. */
  lemma {:induction false} UniqueSectorsMembers(data: seq<Item>)
    ensures forall v :: v in UniqueSectors(data) ==> exists item :: item in data && PyEq(Get(item, "sector"), v)
    ensures forall item :: item in data && PyTruthy(Get(item, "sector")) ==>
      exists v :: v in UniqueSectors(data) && PyEq(Get(item, "sector"), v)
    ensures forall u, v :: u in UniqueSectors(data) && v in UniqueSectors(data) && PyEq(u, v) ==> u == v
  {
    if data != [] {
      UniqueSectorsMembers(data[1..]);
      var sector := Get(data[0], "sector");
      PyEqIsCanonEq(sector, sector);
      forall v | v in UniqueSectors(data) ensures exists item :: item in data && PyEq(Get(item, "sector"), v) {
        if v !in UniqueSectors(data[1..]) {
          assert PyEq(Get(data[0], "sector"), v);
        } else {
          var item :| item in data[1..] && PyEq(Get(item, "sector"), v);
          assert item in data;
        }
      }
      forall item | item in data && PyTruthy(Get(item, "sector"))
        ensures exists v :: v in UniqueSectors(data) && PyEq(Get(item, "sector"), v)
      {
        if item != data[0] {
          assert item in data[1..];
          var v :| v in UniqueSectors(data[1..]) && PyEq(Get(item, "sector"), v);
          assert v in UniqueSectors(data);
        } else {
          assert Canon(sector) in UniqueSectors(data);
        }
      }
      forall u, v | u in UniqueSectors(data) && v in UniqueSectors(data) && PyEq(u, v) ensures u == v {
        PyEqIsCanonEq(u, v);
      }
    }
  }

  /** There are no more sectors than items. */
  lemma {:induction false} UniqueSectorsBounded(data: seq<Item>)
    ensures |UniqueSectors(data)| <= |data|
  {
    if data != [] {
      UniqueSectorsBounded(data[1..]);
    }
  }
}
