# Data-visualisation dashboard: filter, chart and backend helpers in Dafny

This project models the logic of a small analytics dashboard. The dashboard loads
"insight" records from a backend and runs a filter and aggregation pipeline over
them in the browser:

- A filter state holds one selection per field. Every non-empty selection narrows
  the records, comparing `String(item[key])` with the selected string.
- The filter selects offer the distinct truthy values of each field.
- An insights panel counts sectors, regions, high-intensity records and recent
  records, and averages intensity, likelihood and impact.
- A chart groups the records by topic and sums their intensity. It sorts the
  groups by descending sum (stable) and shows the top ten. Beside it sit the
  total and average intensity, the top topic and the number of distinct topics.
- On the backend, three helpers filter records by topic, average the non-null
  impacts and collect the truthy sectors. The `/data` endpoint sets every blank
  integer field to `null` before answering.

The model takes the source's own form:

- The filter `useEffect` is a method with a loop over the filter keys. It is
  proved equal to the conjunction of all non-empty constraints.
- The chart's in-place `sort` is an insertion sort over an `array`. It is proved
  equal to a stable descending sort function.
- The `topicMap` accumulation of the top topic is a loop over the records.
- The backend cleaning pass is a nested loop that updates an array of JSON
  objects in place.
- Everything else is pure functions with lemmas.

Modules:

| module | file | models |
|---|---|---|
| `Seqs` | `seqs.dfy` | `filter`, a `Set` read back as an array, first occurrences, sums and averages |
| `Records` | `records.dfy` | the record of the response schema; JavaScript's `String()`, truthiness and `x \|\| 0` |
| `Dashboard` | `dashboard.dfy` | the filter state and engine, the select options and `getInsights` |
| `Chart` | `chart.dfy` | the rollup, the sort and slice, and the summary statistics |
| `Utils` | `utils.dfy` | the backend's data helpers over raw JSON objects |
| `Routes` | `routes.dfy` | the cleaning loop of `get_data` |

JavaScript's semantics are written out:

- A record's field reads as `Undefined`, `Null`, an integer or a string.
- `String(v)` is the total function `ToStr`: `"undefined"`, `"null"`, the decimal
  numeral, or the string itself.
- `new Set(...)` spread back to an array keeps first occurrences in order (`Distinct`).
- `Array.prototype.sort` is stable.
- `Object.entries` lists keys in insertion order.

Python's semantics are written out in the same way:

- `==` makes `True` equal `1`, and a string equals only the same string.
- Truthiness treats `None`, `False`, `0` and `""` as false.
- `sum` raises a `TypeError` on a string.
- `dict.get` returns `None` for a missing key.

A few behaviours of the code are easy to misread, and the model follows the code:

- The dashboard offers a `city` filter (frontend/src/components/Dashboard.js:21,
  179), but the response schema (backend/app/schemas.py:4-21) has no `city`
  field, so a record in the browser has no `city` key.
  - `item.city` is `undefined`, and `String(undefined)` is `"undefined"`.
  - The city select never has an option (`Dashboard.NoCityOptions`).
- The top topic skips records with a falsy topic (frontend/src/components/Chart.js:270),
  while the chart's rollup files them under the group `"Unknown"`
  (frontend/src/components/Chart.js:21).
- `topicsCount` counts `null` (and `""`) as a topic value of its own
  (frontend/src/components/Chart.js:276). So records without a topic add one to
  the count, not zero (`Chart.MissingTopicCountedOnce`).
- Malformed input is not an error. `getUniqueValues` returns `[]` for a
  non-array, and the model's inputs are sequences by type.

## Model

| member | source | states |
|---|---|---|
| Seqs.Distinct | frontend/src/components/Dashboard.js:74 | `[...new Set(s)]` has no duplicates, holds exactly the elements of `s`, and is no longer than `s` |
| Seqs.DistinctFirstOrder | frontend/src/components/Dashboard.js:74 | the distinct values appear in the order of their first occurrence in `s` |
| Seqs.FilterLength | frontend/src/components/Dashboard.js:91-92 | `filter` keeps every element exactly when all pass, and none exactly when none passes |
| Records.NatToDecimal | frontend/src/components/Dashboard.js:66 | the numeral `String(n)` is a non-empty run of digits, one digit exactly when `n < 10`, and it starts with `0` only for 0 |
| Records.NatToDecimalValue | frontend/src/components/Dashboard.js:66 | the digits of `String(n)` denote `n` |
| Records.IntToDecimalValue | frontend/src/components/Dashboard.js:66 | `String(n)` starts with a minus sign exactly when `n < 0`, and the digits denote the magnitude of `n` |
| Records.IntToDecimalInjective | frontend/src/components/Dashboard.js:66 | different integers have different numerals, so comparing `String(item.end_year)` with a numeral compares the years |
| Records.ToStr | frontend/src/components/Dashboard.js:66 | `String(v)`: `"undefined"`, `"null"`, the numeral of an integer (specified by `Records.IntToDecimalValue` and `Records.IntToDecimalInjective`) or the string itself |
| Records.Truthy | frontend/src/components/Dashboard.js:74 | the truthiness that `filter(Boolean)` tests; `Dashboard.UniqueValuesMembers` states what it lets through |
| Records.OrZero | frontend/src/components/Chart.js:20 | `x \|\| 0` on a numeric field; `Chart.GroupSumIsSumOfMembers` and `Dashboard.Summarize` state the sums built from it |
| Dashboard.WithConstraint | frontend/src/components/Dashboard.js:77-79 | `handleFilterChange` sets the chosen key to the new value and leaves every other key as it was |
| Dashboard.ClearAll | frontend/src/components/Dashboard.js:226-229 | "Clear All" empties every constraint |
| Dashboard.ClearAllKeepsAll | frontend/src/components/Dashboard.js:226-229 | after "Clear All" every record passes the filter, and the button is no longer offered |
| Dashboard.ActiveFilterIffConstrained | frontend/src/components/Dashboard.js:216 | "Clear All" is shown exactly when some constraint is non-empty |
| Dashboard.ApplyFilters | frontend/src/components/Dashboard.js:62-70 | the `forEach` over the entries yields exactly the records meeting every non-empty constraint, in their original order |
| Dashboard.ApplyConstraintExtends | frontend/src/components/Dashboard.js:65-67 | one more turn of the `forEach` adds that key's constraint to the conjunction; an empty value adds nothing |
| Dashboard.FilterStep | frontend/src/components/Dashboard.js:64-68 | the turn for the `i`-th entry takes the records meeting the first `i` constraints to those meeting the first `i + 1` |
| Dashboard.FilteredMembers | frontend/src/components/Dashboard.js:62-70 | a record is in the result exactly when it is in the input and `String(item[k])` equals every non-empty constraint `k` |
| Dashboard.FilteredIsSubsequence | frontend/src/components/Dashboard.js:66 | the result is a subsequence of the input, so order is kept and it never grows |
| Dashboard.NoConstraintsKeepsAll | frontend/src/components/Dashboard.js:65 | with every constraint empty the records come back unchanged |
| Dashboard.FilteredIdempotent | frontend/src/components/Dashboard.js:62-70 | filtering the filtered records again with the same state changes nothing |
| Dashboard.AnyOrderGivesFiltered | frontend/src/components/Dashboard.js:64 | visiting the keys in any order that covers them all gives the same result as the entry order |
| Dashboard.ConstraintsCommute | frontend/src/components/Dashboard.js:64-68 | two constraints applied in either order give the same records |
| Dashboard.YearConstraintMatches | frontend/src/components/Dashboard.js:66 | the constraint `String(y)` on `end_year` keeps exactly the records whose year is `y` (so `"0"` matches `0`, and never a record without a year) |
| Dashboard.UniqueValues | frontend/src/components/Dashboard.js:72-75 | `getUniqueValues`; specified by `Dashboard.UniqueValuesMembers` and `Dashboard.UniqueValuesFirstSeenOrder` |
| Dashboard.UniqueValuesMembers | frontend/src/components/Dashboard.js:72-75 | the options are duplicate-free, truthy, exactly the truthy values some record holds, at most one per record, and none for no data |
| Dashboard.UniqueValuesFirstSeenOrder | frontend/src/components/Dashboard.js:74 | the options come in the order in which their first record holds them |
| Dashboard.NoCityOptions | frontend/src/components/Dashboard.js:179-181 | the city select has no options, since no record has a `city` |
| Seqs.Mean | frontend/src/components/Dashboard.js:87-89 | an average times the number of values is the total; the backend's `sum / len` (backend/app/utils.py:12) is the same quotient |
| Dashboard.Summarize | frontend/src/components/Dashboard.js:85-103 | `totalRecords` is the record count, and the other counts never exceed it. Each average times the count is the sum of `x \|\| 0` |
| Dashboard.GetInsights | frontend/src/components/Dashboard.js:83 | the insights are `null` exactly for an empty record set |
| Dashboard.InsightCountsExtremes | frontend/src/components/Dashboard.js:91-92 | the high-intensity and recent counts are 0 exactly when no record qualifies, and the full count exactly when every record does |
| Dashboard.MissingEndYearNotRecent | frontend/src/components/Dashboard.js:92 | a record without `end_year` adds to `totalRecords` but not to the recent count |
| Dashboard.MissingIntensityNotHigh | frontend/src/components/Dashboard.js:91 | a record without `intensity` adds to `totalRecords` but not to the high-intensity count |
| Chart.GroupKey | frontend/src/components/Chart.js:21 | `d.topic \|\| 'Unknown'`; `Chart.RollupCoversRecords` states that every record's key is a group |
| Chart.Rollup | frontend/src/components/Chart.js:18-22 | `d3.rollups` mapped to `{topic, intensity}`; specified by the `Chart.Rollup…` lemmas below |
| Chart.TotalIntensity | frontend/src/components/Chart.js:263 | `totalIntensity`; `Chart.RollupPreservesTotal` states that the group sums add up to it |
| Chart.GroupSumIsSumOfMembers | frontend/src/components/Chart.js:20 | a group's value is `d3.sum` of `d.intensity \|\| 0` over the records of that group |
| Chart.RollupTopicsDistinct | frontend/src/components/Chart.js:18-22 | no two groups have the same topic |
| Chart.RollupCoversRecords | frontend/src/components/Chart.js:21 | every record's group (`"Unknown"` for a falsy topic) is among the groups |
| Chart.RollupGroupsSound | frontend/src/components/Chart.js:18-22 | every group holds at least one record and carries the sum over its records |
| Chart.RollupFirstSeenOrder | frontend/src/components/Chart.js:18-22 | the groups come in the order of their first record, and there are none only for no records |
| Chart.RollupPreservesTotal | frontend/src/components/Chart.js:18-22 | the group sums add up to the total intensity |
| Chart.SortDescSorted | frontend/src/components/Chart.js:24 | the sorted groups are in non-increasing order of intensity |
| Chart.SortDescPermutes | frontend/src/components/Chart.js:24 | the sort is a permutation of its input |
| Chart.SortDescStable | frontend/src/components/Chart.js:24 | the groups of any one intensity keep their relative order |
| Chart.InsertLast | frontend/src/components/Chart.js:24 | one insertion step of the in-place sort puts the next group after every group at least as intense |
| Chart.SortByIntensity | frontend/src/components/Chart.js:24 | the in-place sort leaves the array holding the stable descending sort of its old contents |
| Chart.ChartSeries | frontend/src/components/Chart.js:18-25 | the bars are the first ten of the sorted rollup |
| Chart.TopGroups | frontend/src/components/Chart.js:24-25 | the sorted, sliced series; specified by `Chart.TopGroupsShape`, `Chart.TopGroupsFromRollup` and `Chart.TopGroupsAreMostIntense` |
| Chart.TopGroupsShape | frontend/src/components/Chart.js:24-25 | there are `min(10, groups)` bars, which are the first ones of the sorted rollup, largest first; there are no bars only when there are no records |
| Chart.TopGroupsFromRollup | frontend/src/components/Chart.js:24-25 | every bar is a group of the rollup |
| Chart.TopGroupsAreMostIntense | frontend/src/components/Chart.js:24-25 | no group left out of the bars is more intense than a bar shown |
| Chart.AverageIntensity | frontend/src/components/Chart.js:263-264 | the average is 0 for no data, and otherwise the average times the count is the total intensity |
| Chart.AccumulateTopics | frontend/src/components/Chart.js:268-271 | `topicMap` holds exactly the truthy topics, each with its summed intensity, with keys in first-insertion order |
| Chart.TopicSumAbsent | frontend/src/components/Chart.js:270 | a topic that no record carries sums to 0 |
| Chart.TruthyTopicsMembers | frontend/src/components/Chart.js:270 | the topics that enter `topicMap` are exactly the truthy topics of some record |
| Chart.TopTopic | frontend/src/components/Chart.js:265-274 | the label is `"N/A"` or `"topic (sum)"` for the first entry of the stable descending sort of the topic totals |
| Chart.SortDescHead | frontend/src/components/Chart.js:272-273 | the first sorted entry is a most intense one, and no entry before it in input order is equally intense |
| Chart.TopTopicAbsent | frontend/src/components/Chart.js:266-273 | the top topic is `"N/A"` exactly when no record has a truthy topic |
| Chart.TopTopicIsFirstMaximum | frontend/src/components/Chart.js:265-274 | the top topic is a truthy topic with the largest sum, and the first in record order among ties |
| Chart.TopicsCount | frontend/src/components/Chart.js:276 | `topicsCount` is 0 for no records and otherwise between 1 and the number of records |
| Chart.MissingTopicCountedOnce | frontend/src/components/Chart.js:276 | once one record lacks a topic, another record without one leaves the count unchanged |
| Utils.PyEq | backend/app/utils.py:8 | Python `==` on JSON scalars; `Utils.PyEqIsCanonEq` and `Utils.PyEqString` specify it |
| Utils.PyTruthy | backend/app/utils.py:15 | Python truthiness; `Utils.UniqueSectorsMembers` states what it lets through |
| Utils.PyEqIsCanonEq | backend/app/utils.py:8 | Python `==` on JSON scalars is equality of representatives, with booleans as the numbers they equal |
| Utils.PyEqString | backend/app/utils.py:8 | a value equals the string `t` exactly when it is that string |
| Utils.FilterByTopic | backend/app/utils.py:7-8 | an item is kept exactly when it is in the input and `item.get('topic') == topic` |
| Utils.FilterByTopicKeepsOrder | backend/app/utils.py:8 | the kept items are a subsequence of the input, and all are kept when all match |
| Utils.FilterByNoTopic | backend/app/utils.py:8 | asking for topic `None` keeps the items whose topic is missing or `null` |
| Utils.Impacts | backend/app/utils.py:11 | the collected values are the impacts of the items that have one, in item order and one per such item; none is `None`, and there are none exactly when no item has an impact |
| Utils.ImpactsMembers | backend/app/utils.py:11 | a value is collected exactly when some item has it as its non-`None` impact |
| Utils.AverageImpact | backend/app/utils.py:10-12 | a `TypeError` exactly when some impact is a string; 0 when no item has an impact; otherwise the mean of the collected impacts, which times their count is their sum |
| Utils.ImpactsSkipNone | backend/app/utils.py:11 | an item without an impact changes neither the impacts nor the average |
| Utils.MeanBetween | backend/app/utils.py:12 | a total between `n * lo` and `n * hi` has its mean between `lo` and `hi` |
| Utils.AverageImpactBounded | backend/app/utils.py:12 | the average lies between the least and the greatest impact |
| Utils.UniqueSectors | backend/app/utils.py:14-15 | every member of the sector set is truthy and a representative of its `==` class |
| Utils.UniqueSectorsMembers | backend/app/utils.py:15 | each member equals some item's sector, each truthy sector equals a member, and no two members are equal |
| Utils.UniqueSectorsBounded | backend/app/utils.py:15 | there are no more sectors than items |
| Routes.CleanItem | backend/app/routes.py:13-17 | one item after the inner loop; specified by the `Routes.CleanItem…` lemmas below |
| Routes.CleanFieldsStep | backend/app/routes.py:15-17 | one turn of the inner loop sets the field to `None` when it is present and blank, and changes nothing otherwise |
| Routes.CleanData | backend/app/routes.py:12-18 | every item is cleaned in place, and the returned list holds the cleaned items in the same order and number |
| Routes.CleanItemKeepsKeys | backend/app/routes.py:16 | cleaning adds no field and removes none |
| Routes.CleanItemFields | backend/app/routes.py:13-17 | a blank integer field becomes `None`; any other field, and an integer field with another value, is unchanged |
| Routes.CleanItemLeavesNoEmptyInt | backend/app/routes.py:13-17 | after cleaning no integer field holds `""` |
| Routes.CleanItemIdempotent | backend/app/routes.py:14-17 | cleaning twice is cleaning once |
| Routes.BlankValues | backend/app/routes.py:16 | `item[field] == ""` holds only for the empty string, so the blank values are exactly `""` and `None` |

## Left out

- Rendering is not modelled: the React components, their state hooks and effect scheduling, the D3 drawing and the mouse-tracking effect. They produce no values the pipeline uses.
- I/O is not modelled: `fetchData`, the HTTP client, `load_json_data`'s file read and the `HTTPException` wrapping of `get_data`.
- The SQLAlchemy model is not modelled. Pydantic validation is represented only by the record's field list.
- Numbers are exact. JSON numbers are exact rationals with no int/float distinction. The averages are exact quotients with no floating-point rounding. `toFixed(1)` is not modelled.
- `calculate_average_impact` returns the integer `0` for no impacts; the model returns `0.0`.
- Dashboard.Summarize: the averages are stated as exact quotients, not as the one-decimal strings the panel shows.
- Chart.AverageIntensity: likewise an exact quotient, not the `toFixed(1)` string.
- Chart.TopTopic: `Object.entries` being insertion-ordered is assumed for every key. JavaScript lists array-index-like keys (a topic such as `"2024"`) first and in numeric order. A topic named `__proto__` does not become an own key of `topicMap`, and for a topic named after a key that `topicMap` inherits from `Object.prototype` (`constructor`, `toString`, `valueOf`, `hasOwnProperty` and the like) `topicMap[d.topic] || 0` reads a function, so the "sum" becomes a string concatenation. None of these cases is modelled.
- Chart.TopTopic: the label's sum uses the integer numeral, since the schema types intensity as an integer. Non-integer intensities are not modelled.
- `dataLength` (frontend/src/components/Chart.js:277) is the length of the record sequence, so there is no separate member for it.
- `!data`, `data ?` and `Array.isArray` guards are not modelled: the record list is always a sequence.
- Utils.UniqueSectors: Python keeps whichever of several `==`-equal values it met first (`True` or `1`). The model keeps the class representative, so the set's size and membership up to `==` are modelled, but not which member is stored.
- Only JSON scalars are modelled: `null`, booleans, numbers and strings. Arrays and objects as field values are not modelled. The data file's fields are scalars.
- Routes.CleanData: the returned list holds the same dictionary objects as `raw_data` in Python. The model returns their values, so a later change through one list showing in the other is not captured.
