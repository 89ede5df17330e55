/** The dashboard's filter engine and its insight statistics: the `useEffect` that
    recomputes the filtered records, the option lists of the filter selects, the
    filter-state updates and `getInsights`. */
module Dashboard {
  import opened Seqs
  import opened Records

  /** The filter selections: one string per filter key, `""` meaning "no constraint". */
  datatype FilterState = FilterState(
    endYear: string, topic: string, sector: string, region: string,
    pestle: string, source: string, country: string, city: string)

  /** `filters[key]`. */
  function Constraint(f: FilterState, k: FilterKey): string
  {
    match k
    case EndYear => f.endYear
    case Topic => f.topic
    case Sector => f.sector
    case Region => f.region
    case Pestle => f.pestle
    case Source => f.source
    case Country => f.country
    case City => f.city
  }

  /** `{ ...filters, [name]: value }`, the new state `handleFilterChange` installs. */
  function WithConstraint(f: FilterState, k: FilterKey, v: string): (r: FilterState)
    ensures Constraint(r, k) == v
    ensures forall k' :: k' != k ==> Constraint(r, k') == Constraint(f, k')
  {
    match k
    case EndYear => f.(endYear := v)
    case Topic => f.(topic := v)
    case Sector => f.(sector := v)
    case Region => f.(region := v)
    case Pestle => f.(pestle := v)
    case Source => f.(source := v)
    case Country => f.(country := v)
    case City => f.(city := v)
  }

  /** The initial filter state, which "Clear All" restores. */
  function ClearAll(): (r: FilterState)
    ensures forall k :: Constraint(r, k) == ""
  {
    FilterState("", "", "", "", "", "", "", "")
  }

  /** `Object.values(filters).some(v => v)`: whether "Clear All" is offered. */
  predicate HasActiveFilter(f: FilterState)
  {
    exists k :: k in EntryOrder && Constraint(f, k) != ""
  }

  lemma EveryKeyHasAnEntry(k: FilterKey)
    ensures k in EntryOrder
  {
    match k
    case EndYear => assert EntryOrder[0] == k;
    case Topic => assert EntryOrder[1] == k;
    case Sector => assert EntryOrder[2] == k;
    case Region => assert EntryOrder[3] == k;
    case Pestle => assert EntryOrder[4] == k;
    case Source => assert EntryOrder[5] == k;
    case Country => assert EntryOrder[6] == k;
    case City => assert EntryOrder[7] == k;
  }

  /** "Clear All" is offered exactly when some constraint is non-empty. */
  lemma ActiveFilterIffConstrained(f: FilterState)
    ensures HasActiveFilter(f) <==> exists k :: Constraint(f, k) != ""
  {
    forall k | Constraint(f, k) != "" ensures k in EntryOrder {
      EveryKeyHasAnEntry(k);
    }
  }

  // ---------------------------------------------------------------------------
  // The filter engine

  /** `String(item[key]) === String(value)`; `value` comes from a select, so it is
      already a string. */
  predicate MatchesOn(r: Record, k: FilterKey, v: string)
  {
    ToStr(Field(r, k)) == v
  }

  /** The callback given to `filter` for key `k` and value `v`. */
  function Matching(k: FilterKey, v: string): Record -> bool
  {
    (r: Record) => MatchesOn(r, k, v)
  }

  /** One turn of the `forEach`: a non-empty constraint narrows the records, an empty
      one leaves them alone. */
  function ApplyConstraint(s: seq<Record>, f: FilterState, k: FilterKey): seq<Record>
  {
    var v := Constraint(f, k);
    if v != "" then Filter(s, Matching(k, v)) else s
  }

  /** Applying the constraints of keys `ks` one after the other, in that order. */
  function ApplyInOrder(s: seq<Record>, f: FilterState, ks: seq<FilterKey>): seq<Record>
    decreases |ks|
  {
    if ks == [] then s else ApplyInOrder(ApplyConstraint(s, f, ks[0]), f, ks[1..])
  }

  /** `r` meets every non-empty constraint of `f` on a key in `ks`. */
  ghost predicate SatisfiesOn(r: Record, f: FilterState, ks: seq<FilterKey>)
  {
    forall k :: k in ks && Constraint(f, k) != "" ==> MatchesOn(r, k, Constraint(f, k))
  }

  ghost function FilteredOn(s: seq<Record>, f: FilterState, ks: seq<FilterKey>): seq<Record>
  {
    Filter(s, (r: Record) => SatisfiesOn(r, f, ks))
  }

  /** The records that meet all of the constraints together, in their original order. */
  ghost function Filtered(s: seq<Record>, f: FilterState): (r: seq<Record>)
  {
    FilteredOn(s, f, EntryOrder)
  }

  /** Adding one more key to the conjunction is one more turn of the `forEach`. */
  lemma {:induction false} ApplyConstraintExtends(s: seq<Record>, f: FilterState, ks: seq<FilterKey>, k: FilterKey)
    ensures ApplyConstraint(FilteredOn(s, f, ks), f, k) == FilteredOn(s, f, ks + [k])
  {
    var v := Constraint(f, k);
    forall r ensures SatisfiesOn(r, f, ks + [k]) <==> SatisfiesOn(r, f, ks) && (v != "" ==> MatchesOn(r, k, v)) {
      assert k in ks + [k];
      assert forall k' :: k' in ks + [k] <==> k' in ks || k' == k;
    }
    if v == "" {
      FilterAgree(s, (r: Record) => SatisfiesOn(r, f, ks), (r: Record) => SatisfiesOn(r, f, ks + [k]));
    } else {
      FilterFilter(s, (r: Record) => SatisfiesOn(r, f, ks), Matching(k, v),
        (r: Record) => SatisfiesOn(r, f, ks + [k]));
    }
  }

  /** The turn of the `forEach` for the `i`-th entry. */
  lemma FilterStep(s: seq<Record>, f: FilterState, i: nat)
    requires i < |EntryOrder|
    ensures ApplyConstraint(FilteredOn(s, f, EntryOrder[..i]), f, EntryOrder[i]) == FilteredOn(s, f, EntryOrder[..i + 1])
  {
    ApplyConstraintExtends(s, f, EntryOrder[..i], EntryOrder[i]);
    assert EntryOrder[..i + 1] == EntryOrder[..i] + [EntryOrder[i]];
  }

  lemma {:induction false} NoKeysKeepsAll(s: seq<Record>, f: FilterState)
    ensures FilteredOn(s, f, []) == s
  {
    FilterAll(s, (r: Record) => SatisfiesOn(r, f, []));
  }

  /** The filter effect: starting from all records, each non-empty constraint narrows
      the result, visiting the keys in `Object.entries` order. */
  method ApplyFilters(data: seq<Record>, filters: FilterState) returns (result: seq<Record>)
    ensures result == Filtered(data, filters)
  {
    result := data;
    NoKeysKeepsAll(data, filters);
    for i := 0 to |EntryOrder|
      invariant result == FilteredOn(data, filters, EntryOrder[..i])
    {
      var key := EntryOrder[i];
      var value := Constraint(filters, key);
      FilterStep(data, filters, i);
      if value != "" {
        result := Filter(result, Matching(key, value));
      }
    }
    assert EntryOrder[..|EntryOrder|] == EntryOrder;
  }

  /** The result is exactly the records that meet every non-empty constraint. */
  lemma FilteredMembers(s: seq<Record>, f: FilterState)
    ensures forall r :: r in Filtered(s, f) <==>
      r in s && forall k :: Constraint(f, k) != "" ==> ToStr(Field(r, k)) == Constraint(f, k)
  {
    forall k ensures k in EntryOrder { EveryKeyHasAnEntry(k); }
  }

  /** The result keeps the records in their original order and never grows. */
  lemma FilteredIsSubsequence(s: seq<Record>, f: FilterState)
    ensures IsSubsequence(Filtered(s, f), s)
    ensures |Filtered(s, f)| <= |s|
  {
    FilterIsSubsequence(s, (r: Record) => SatisfiesOn(r, f, EntryOrder));
  }

  /** With every constraint empty the records come back unchanged. */
  lemma {:induction false} NoConstraintsKeepsAll(s: seq<Record>, f: FilterState)
    requires forall k :: Constraint(f, k) == ""
    ensures Filtered(s, f) == s
  {
    FilterAll(s, (r: Record) => SatisfiesOn(r, f, EntryOrder));
  }

  lemma ClearAllKeepsAll(s: seq<Record>)
    ensures Filtered(s, ClearAll()) == s
    ensures !HasActiveFilter(ClearAll())
  {
    NoConstraintsKeepsAll(s, ClearAll());
  }

  /** Filtering the filtered records again with the same constraints changes nothing. */
  lemma {:induction false} FilteredIdempotent(s: seq<Record>, f: FilterState)
    ensures Filtered(Filtered(s, f), f) == Filtered(s, f)
  {
    FilterIdempotent(s, (r: Record) => SatisfiesOn(r, f, EntryOrder));
  }

  lemma {:induction false} ApplyInOrderFrom(s: seq<Record>, f: FilterState, pre: seq<FilterKey>, ks: seq<FilterKey>)
    ensures ApplyInOrder(FilteredOn(s, f, pre), f, ks) == FilteredOn(s, f, pre + ks)
    decreases |ks|
  {
    if ks == [] {
      assert pre + ks == pre;
    } else {
      ApplyConstraintExtends(s, f, pre, ks[0]);
      ApplyInOrderFrom(s, f, pre + [ks[0]], ks[1..]);
      assert pre + [ks[0]] + ks[1..] == pre + ks;
    }
  }

  /** Visiting the constraints in any order that reaches every key gives the same
      result as the filter effect. */
  lemma {:induction false} AnyOrderGivesFiltered(s: seq<Record>, f: FilterState, ks: seq<FilterKey>)
    requires forall k :: k in ks
    ensures ApplyInOrder(s, f, ks) == Filtered(s, f)
  {
    NoKeysKeepsAll(s, f);
    ApplyInOrderFrom(s, f, [], ks);
    assert [] + ks == ks;
    forall k ensures k in EntryOrder { EveryKeyHasAnEntry(k); }
    SameKeysSameResult(s, f, ks, EntryOrder);
  }

  /** Two constraints applied in either order give the same records. */
  lemma {:induction false} ConstraintsCommute(s: seq<Record>, f: FilterState, a: FilterKey, b: FilterKey)
    ensures ApplyConstraint(ApplyConstraint(s, f, a), f, b) == ApplyConstraint(ApplyConstraint(s, f, b), f, a)
  {
    NoKeysKeepsAll(s, f);
    ApplyConstraintExtends(s, f, [], a);
    ApplyConstraintExtends(s, f, [], b);
    assert [] + [a] == [a] && [] + [b] == [b];
    ApplyConstraintExtends(s, f, [a], b);
    ApplyConstraintExtends(s, f, [b], a);
    assert [a] + [b] == [a, b] && [b] + [a] == [b, a];
    SameKeysSameResult(s, f, [a, b], [b, a]);
  }

  lemma SameKeysSameResult(s: seq<Record>, f: FilterState, ks: seq<FilterKey>, ks': seq<FilterKey>)
    requires forall k :: k in ks <==> k in ks'
    ensures FilteredOn(s, f, ks) == FilteredOn(s, f, ks')
  {
    FilterAgree(s, (r: Record) => SatisfiesOn(r, f, ks), (r: Record) => SatisfiesOn(r, f, ks'));
  }

  lemma NumeralStartsWithDigitOrMinus(n: int)
    ensures IntToDecimal(n)[0] == '-' || IsDigit(IntToDecimal(n)[0])
  {
  }

  /** A year constraint, the numeral of `y`, matches exactly the records whose
      `end_year` is `y`; so `"0"` matches an `end_year` of `0` and nothing else. */
  lemma YearConstraintMatches(r: Record, y: int)
    ensures MatchesOn(r, EndYear, IntToDecimal(y)) <==> r.endYear == Some(y)
  {
    NumeralStartsWithDigitOrMinus(y);
    match r.endYear
    case None =>
      assert ToStr(Field(r, EndYear)) == "null";
    case Some(x) =>
      if IntToDecimal(x) == IntToDecimal(y) {
        IntToDecimalInjective(x, y);
      }
  }

  // ---------------------------------------------------------------------------
  // The options of the filter selects

  /** `data.map(item => item[key])`. */
  function FieldValues(data: seq<Record>, key: FilterKey): seq<Value>
  {
    seq(|data|, i requires 0 <= i < |data| => Field(data[i], key))
  }

  /** `getUniqueValues(data, key)`: the distinct truthy values of the field. */
  function UniqueValues(data: seq<Record>, key: FilterKey): (r: seq<Value>)
  {
    if |data| == 0 then [] else Distinct(Filter(FieldValues(data, key), Truthy))
  }

  /** The options are distinct, truthy, and are exactly the truthy values some record
      holds. */
  lemma UniqueValuesMembers(data: seq<Record>, key: FilterKey)
    ensures NoDuplicates(UniqueValues(data, key))
    ensures |UniqueValues(data, key)| <= |data|
    ensures forall v :: v in UniqueValues(data, key) <==>
      Truthy(v) && exists i :: 0 <= i < |data| && Field(data[i], key) == v
    ensures data == [] ==> UniqueValues(data, key) == []
  {
    var vs := FieldValues(data, key);
    forall v ensures v in vs <==> exists i :: 0 <= i < |data| && Field(data[i], key) == v {
      if v in vs {
        var i :| 0 <= i < |vs| && vs[i] == v;
        assert Field(data[i], key) == v;
      }
      if exists i :: 0 <= i < |data| && Field(data[i], key) == v {
        var i :| 0 <= i < |data| && Field(data[i], key) == v;
        assert vs[i] == v;
      }
    }
  }

  /** The options appear in the order in which their first record appears. */
  lemma UniqueValuesFirstSeenOrder(data: seq<Record>, key: FilterKey)
    ensures forall i, j :: 0 <= i < j < |UniqueValues(data, key)| ==>
      UniqueValues(data, key)[i] in FieldValues(data, key) &&
      UniqueValues(data, key)[j] in FieldValues(data, key) &&
      IndexOf(FieldValues(data, key), UniqueValues(data, key)[i]) <
      IndexOf(FieldValues(data, key), UniqueValues(data, key)[j])
  {
    if |data| > 0 {
      var vs := FieldValues(data, key);
      var t := Filter(vs, Truthy);
      var u := Distinct(t);
      DistinctFirstOrder(t);
      assert u == UniqueValues(data, key);
      forall i, j | 0 <= i < j < |u|
        ensures u[i] in vs && u[j] in vs && IndexOf(vs, u[i]) < IndexOf(vs, u[j])
      {
        assert u[i] in t && u[j] in t;
        FilterKeepsFirstOrder(vs, Truthy, u[i], u[j]);
      }
      assert forall i, j :: 0 <= i < j < |UniqueValues(data, key)| ==>
        UniqueValues(data, key)[i] in vs && UniqueValues(data, key)[j] in vs &&
        IndexOf(vs, UniqueValues(data, key)[i]) < IndexOf(vs, UniqueValues(data, key)[j]);
    } else {
      assert UniqueValues(data, key) == [];
    }
  }

  /** Records read back from the backend have no `city`, so the city select never has
      an option. */
  lemma NoCityOptions(data: seq<Record>)
    ensures UniqueValues(data, City) == []
  {
    FilterNone(FieldValues(data, City), Truthy);
  }

  // ---------------------------------------------------------------------------
  // getInsights

  /** The statistics of the insights panel. The averages are exact quotients: the
      dashboard shows them rounded to one decimal. */
  datatype Insights = Insights(
    sectors: nat, regions: nat,
    avgIntensity: real, avgLikelihood: real, avgImpact: real,
    highIntensityCount: nat, recentCount: nat, totalRecords: nat)

  /** `d.intensity || 0`, and likewise for the other numeric fields. */
  function IntensityOf(d: Record): int { OrZero(d.intensity) }
  function LikelihoodOf(d: Record): int { OrZero(d.likelihood) }
  function ImpactOf(d: Record): int { OrZero(d.impact) }

  predicate IsHighIntensity(d: Record) { OrZero(d.intensity) > 4 }
  predicate IsRecent(d: Record) { OrZero(d.endYear) >= 2024 }

  /** The statistics of a non-empty record set. */
  function Summarize(data: seq<Record>): (r: Insights)
    requires |data| > 0
    ensures r.totalRecords == |data|
    ensures r.highIntensityCount <= r.totalRecords && r.recentCount <= r.totalRecords
    ensures r.sectors <= r.totalRecords && r.regions <= r.totalRecords
    ensures r.avgIntensity == Mean(Sum(data, IntensityOf) as real, |data|)
    ensures r.avgLikelihood == Mean(Sum(data, LikelihoodOf) as real, |data|)
    ensures r.avgImpact == Mean(Sum(data, ImpactOf) as real, |data|)
  {
    UniqueValuesMembers(data, Sector);
    UniqueValuesMembers(data, Region);
    Insights(
      |UniqueValues(data, Sector)|,
      |UniqueValues(data, Region)|,
      Mean(Sum(data, IntensityOf) as real, |data|),
      Mean(Sum(data, LikelihoodOf) as real, |data|),
      Mean(Sum(data, ImpactOf) as real, |data|),
      |Filter(data, IsHighIntensity)|,
      |Filter(data, IsRecent)|,
      |data|)
  }

  /** `getInsights()` over the filtered records; `None` stands for `null`. */
  function GetInsights(data: seq<Record>): (r: Option<Insights>)
    ensures r.None? <==> |data| == 0
  {
    if |data| == 0 then None else Some(Summarize(data))
  }

  /** No record is high-intensity exactly when the count is 0, and every record is
      recent exactly when the count is the number of records. */
  lemma InsightCountsExtremes(data: seq<Record>)
    requires data != []
    ensures GetInsights(data).value.highIntensityCount == 0 <==>
      forall d :: d in data ==> OrZero(d.intensity) <= 4
    ensures GetInsights(data).value.highIntensityCount == |data| <==>
      forall d :: d in data ==> OrZero(d.intensity) > 4
    ensures GetInsights(data).value.recentCount == 0 <==>
      forall d :: d in data ==> OrZero(d.endYear) < 2024
    ensures GetInsights(data).value.recentCount == |data| <==>
      forall d :: d in data ==> OrZero(d.endYear) >= 2024
  {
    FilterLength(data, IsHighIntensity);
    FilterLength(data, IsRecent);
  }

  /** A record without an `end_year` is never counted as recent: adding it leaves the
      count as it was. */
  lemma MissingEndYearNotRecent(data: seq<Record>, d: Record)
    requires data != []
    requires d.endYear.None?
    ensures GetInsights(data + [d]).value.recentCount == GetInsights(data).value.recentCount
    ensures GetInsights(data + [d]).value.totalRecords == GetInsights(data).value.totalRecords + 1
  {
    FilterConcat(data, [d], IsRecent);
  }

  /** A record without an intensity is never counted as high-intensity. */
  lemma MissingIntensityNotHigh(data: seq<Record>, d: Record)
    requires data != []
    requires d.intensity.None?
    ensures GetInsights(data + [d]).value.highIntensityCount == GetInsights(data).value.highIntensityCount
    ensures GetInsights(data + [d]).value.totalRecords == GetInsights(data).value.totalRecords + 1
  {
    FilterConcat(data, [d], IsHighIntensity);
  }
}
