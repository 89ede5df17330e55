/** The chart component's data side: the topic rollup behind the bar chart, the
    stable descending sort and the top-ten slice, and the summary statistics shown
    beside the chart (total and average intensity, the top topic, the number of
    topics). */
module Chart {
  import opened Seqs
  import opened Records

  /** One bar: a topic and the summed intensity of its records. */
  datatype Group = Group(topic: string, intensity: int)

  /** `d.topic || 'Unknown'`: the group a record falls into. */
  function GroupKey(d: Record): string
  {
    if d.topic.Some? && d.topic.value != "" then d.topic.value else "Unknown"
  }

  /** `d.intensity || 0`. */
  function Weight(d: Record): int
  {
    OrZero(d.intensity)
  }

  function GroupIntensity(g: Group): int
  {
    g.intensity
  }

  /** `data.reduce((sum, d) => sum + (d.intensity || 0), 0)`. */
  function TotalIntensity(data: seq<Record>): int
  {
    Sum(data, Weight)
  }

  function GroupKeys(data: seq<Record>): seq<string>
  {
    seq(|data|, i requires 0 <= i < |data| => GroupKey(data[i]))
  }

  /** The summed intensity of the records whose group is `k`. */
  function GroupSum(data: seq<Record>, k: string): int
  {
    if data == [] then 0
    else (if GroupKey(data[0]) == k then Weight(data[0]) else 0) + GroupSum(data[1..], k)
  }

  function GroupsFor(data: seq<Record>, ks: seq<string>): seq<Group>
  {
    seq(|ks|, i requires 0 <= i < |ks| => Group(ks[i], GroupSum(data, ks[i])))
  }

  /** `d3.rollups(data, v => d3.sum(v, d => d.intensity || 0), d => d.topic || 'Unknown')`
      mapped to `{topic, intensity}`: one group per key, in the order in which the
      keys first occur. */
  function Rollup(data: seq<Record>): seq<Group>
  {
    GroupsFor(data, Distinct(GroupKeys(data)))
  }

  function IsInGroup(k: string): Record -> bool
  {
    (d: Record) => GroupKey(d) == k
  }

  /** A group's value is the reducer `d3.sum(v, d => d.intensity || 0)` applied to
      the records of that group. */
  lemma {:induction false} GroupSumIsSumOfMembers(data: seq<Record>, k: string)
    ensures GroupSum(data, k) == Sum(Filter(data, IsInGroup(k)), Weight)
  {
    if data != [] {
      GroupSumIsSumOfMembers(data[1..], k);
      var rest := Filter(data[1..], IsInGroup(k));
      if GroupKey(data[0]) == k {
        assert Filter(data, IsInGroup(k)) == [data[0]] + rest;
        assert ([data[0]] + rest)[1..] == rest;
      } else {
        assert Filter(data, IsInGroup(k)) == [] + rest;
        assert [] + rest == rest;
      }
    }
  }

  lemma GroupKeysMembers(data: seq<Record>)
    ensures forall k :: k in GroupKeys(data) <==> exists d :: d in data && GroupKey(d) == k
  {
    var ks := GroupKeys(data);
    forall k ensures k in ks <==> exists d :: d in data && GroupKey(d) == k {
      if k in ks {
        var i :| 0 <= i < |ks| && ks[i] == k;
        assert data[i] in data && GroupKey(data[i]) == k;
      }
      if exists d :: d in data && GroupKey(d) == k {
        var d :| d in data && GroupKey(d) == k;
        var i :| 0 <= i < |data| && data[i] == d;
        assert ks[i] == k;
      }
    }
  }

  /** Every record falls into exactly one group: the groups' topics are distinct. */
  lemma RollupTopicsDistinct(data: seq<Record>)
    ensures forall i, j :: 0 <= i < j < |Rollup(data)| ==> Rollup(data)[i].topic != Rollup(data)[j].topic
  {
    var ks := Distinct(GroupKeys(data));
    assert |Rollup(data)| == |ks| && forall i :: 0 <= i < |ks| ==> Rollup(data)[i].topic == ks[i];
  }

  /** A record's group (`"Unknown"` for a falsy topic) is among the groups. */
  lemma RollupCoversRecords(data: seq<Record>)
    ensures forall d :: d in data ==> exists i :: 0 <= i < |Rollup(data)| && Rollup(data)[i].topic == GroupKey(d)
  {
    var ks := Distinct(GroupKeys(data));
    var r := Rollup(data);
    var gk := GroupKeys(data);
    forall d | d in data ensures exists i :: 0 <= i < |r| && r[i].topic == GroupKey(d) {
      var n :| 0 <= n < |data| && data[n] == d;
      assert gk[n] in gk;
      var i :| 0 <= i < |ks| && ks[i] == gk[n];
      assert r[i].topic == GroupKey(d);
    }
  }

  /** Every group holds at least one record and carries the sum over its records. */
  lemma RollupGroupsSound(data: seq<Record>)
    ensures forall i :: 0 <= i < |Rollup(data)| ==>
      && Rollup(data)[i].intensity == GroupSum(data, Rollup(data)[i].topic)
      && exists d :: d in data && GroupKey(d) == Rollup(data)[i].topic
  {
    var ks := Distinct(GroupKeys(data));
    var r := Rollup(data);
    var gk := GroupKeys(data);
    forall i | 0 <= i < |r| ensures exists d :: d in data && GroupKey(d) == r[i].topic {
      assert ks[i] in gk;
      var n :| 0 <= n < |gk| && gk[n] == ks[i];
      assert data[n] in data && GroupKey(data[n]) == r[i].topic;
    }
  }

  /** The groups come in the order in which their first record occurs, and there are
      none only for no data. */
  lemma RollupFirstSeenOrder(data: seq<Record>)
    ensures forall i, j :: 0 <= i < j < |Rollup(data)| ==>
      IndexOf(GroupKeys(data), Rollup(data)[i].topic) < IndexOf(GroupKeys(data), Rollup(data)[j].topic)
    ensures |Rollup(data)| == 0 <==> |data| == 0
  {
    var ks := Distinct(GroupKeys(data));
    var r := Rollup(data);
    assert |r| == |ks| && forall i :: 0 <= i < |r| ==> r[i].topic == ks[i];
    DistinctFirstOrder(GroupKeys(data));
    if |data| > 0 {
      assert GroupKeys(data)[0] in ks;
    }
  }

  lemma {:induction false} GroupsForNoRecords(ks: seq<string>)
    ensures Sum(GroupsFor([], ks), GroupIntensity) == 0
  {
    if ks != [] {
      assert GroupsFor([], ks)[1..] == GroupsFor([], ks[1..]);
      GroupsForNoRecords(ks[1..]);
    }
  }

  /** Adding the record `d` in front adds its weight to the one group whose key it has. */
  lemma {:induction false} GroupsForCons(d: Record, rest: seq<Record>, ks: seq<string>)
    requires NoDuplicates(ks)
    ensures Sum(GroupsFor([d] + rest, ks), GroupIntensity) ==
      (if GroupKey(d) in ks then Weight(d) else 0) + Sum(GroupsFor(rest, ks), GroupIntensity)
  {
    if ks != [] {
      assert GroupsFor([d] + rest, ks)[1..] == GroupsFor([d] + rest, ks[1..]);
      assert GroupsFor(rest, ks)[1..] == GroupsFor(rest, ks[1..]);
      assert ([d] + rest)[1..] == rest;
      GroupsForCons(d, rest, ks[1..]);
      assert GroupKey(d) == ks[0] ==> GroupKey(d) !in ks[1..];
    }
  }

  lemma {:induction false} GroupsForTotal(data: seq<Record>, ks: seq<string>)
    requires NoDuplicates(ks)
    requires forall d :: d in data ==> GroupKey(d) in ks
    ensures Sum(GroupsFor(data, ks), GroupIntensity) == TotalIntensity(data)
  {
    if data == [] {
      GroupsForNoRecords(ks);
    } else {
      assert data == [data[0]] + data[1..];
      GroupsForCons(data[0], data[1..], ks);
      GroupsForTotal(data[1..], ks);
    }
  }

  /** The group sums add up to the total intensity. */
  lemma RollupPreservesTotal(data: seq<Record>)
    ensures Sum(Rollup(data), GroupIntensity) == TotalIntensity(data)
  {
    GroupKeysMembers(data);
    GroupsForTotal(data, Distinct(GroupKeys(data)));
  }

  // ---------------------------------------------------------------------------
  // `chartData.sort((a, b) => b.intensity - a.intensity)`: a stable sort, largest first

  predicate NonIncreasing(s: seq<Group>)
  {
    forall i, j :: 0 <= i < j < |s| ==> s[i].intensity >= s[j].intensity
  }

  /** Insert `x` into `t` after every element at least as intense as `x`. */
  function Insert(t: seq<Group>, x: Group): seq<Group>
    decreases |t|
  {
    if t == [] || t[|t| - 1].intensity >= x.intensity then t + [x]
    else Insert(t[..|t| - 1], x) + [t[|t| - 1]]
  }

  /** Insertion sort, the reference for the comparator sort. */
  function SortDesc(s: seq<Group>): seq<Group>
  {
    if s == [] then [] else Insert(SortDesc(s[..|s| - 1]), s[|s| - 1])
  }

  function HasIntensity(w: int): Group -> bool
  {
    (g: Group) => g.intensity == w
  }

  /** The groups whose intensity is `w`, in order. */
  function Ties(s: seq<Group>, w: int): seq<Group>
  {
    Filter(s, HasIntensity(w))
  }

  lemma {:induction false} InsertPermutes(t: seq<Group>, x: Group)
    ensures multiset(Insert(t, x)) == multiset(t) + multiset{x}
    decreases |t|
  {
    if !(t == [] || t[|t| - 1].intensity >= x.intensity) {
      InsertPermutes(t[..|t| - 1], x);
      assert t == t[..|t| - 1] + [t[|t| - 1]];
    }
  }

  lemma {:induction false} InsertSorted(t: seq<Group>, x: Group)
    requires NonIncreasing(t)
    ensures NonIncreasing(Insert(t, x))
    decreases |t|
  {
    if !(t == [] || t[|t| - 1].intensity >= x.intensity) {
      var t', y := t[..|t| - 1], t[|t| - 1];
      InsertSorted(t', x);
      InsertPermutes(t', x);
      var u := Insert(t', x);
      forall i | 0 <= i < |u| ensures u[i].intensity >= y.intensity {
        assert u[i] in multiset(u);
        assert u[i] in t' || u[i] == x;
      }
    }
  }

  lemma TiesOfOne(x: Group, w: int)
    ensures Ties([x], w) == if x.intensity == w then [x] else []
  {
    assert [x][1..] == [];
  }

  lemma {:induction false} InsertKeepsTies(t: seq<Group>, x: Group, w: int)
    ensures Ties(Insert(t, x), w) == Ties(t + [x], w)
    decreases |t|
  {
    if !(t == [] || t[|t| - 1].intensity >= x.intensity) {
      var t', y := t[..|t| - 1], t[|t| - 1];
      assert t == t' + [y];
      TiesOfOne(x, w);
      TiesOfOne(y, w);
      calc {
        Ties(Insert(t, x), w);
        Ties(Insert(t', x) + [y], w);
        { FilterConcat(Insert(t', x), [y], HasIntensity(w)); }
        Ties(Insert(t', x), w) + Ties([y], w);
        { InsertKeepsTies(t', x, w); }
        Ties(t' + [x], w) + Ties([y], w);
        { FilterConcat(t', [x], HasIntensity(w)); }
        Ties(t', w) + Ties([x], w) + Ties([y], w);
        Ties(t', w) + Ties([y], w) + Ties([x], w);
        { FilterConcat(t', [y], HasIntensity(w)); }
        Ties(t, w) + Ties([x], w);
        { FilterConcat(t, [x], HasIntensity(w)); }
        Ties(t + [x], w);
      }
    }
  }

  /** The sort yields a non-increasing sequence ... */
  lemma {:induction false} SortDescSorted(s: seq<Group>)
    ensures NonIncreasing(SortDesc(s))
  {
    if s != [] {
      SortDescSorted(s[..|s| - 1]);
      InsertSorted(SortDesc(s[..|s| - 1]), s[|s| - 1]);
    }
  }

  /** ... that is a permutation of its input ... */
  lemma {:induction false} SortDescPermutes(s: seq<Group>)
    ensures multiset(SortDesc(s)) == multiset(s)
  {
    if s != [] {
      var s', x := s[..|s| - 1], s[|s| - 1];
      assert s == s' + [x];
      SortDescPermutes(s');
      InsertPermutes(SortDesc(s'), x);
    }
  }

  /** ... and the sort is stable: the groups of any one intensity keep their
      relative order. */
  lemma {:induction false} SortDescStable(s: seq<Group>, w: int)
    ensures Ties(SortDesc(s), w) == Ties(s, w)
  {
    if s != [] {
      var s', x := s[..|s| - 1], s[|s| - 1];
      assert s == s' + [x];
      calc {
        Ties(SortDesc(s), w);
        Ties(Insert(SortDesc(s'), x), w);
        { InsertKeepsTies(SortDesc(s'), x, w); }
        Ties(SortDesc(s') + [x], w);
        { FilterConcat(SortDesc(s'), [x], HasIntensity(w)); }
        Ties(SortDesc(s'), w) + Ties([x], w);
        { SortDescStable(s', w); }
        Ties(s', w) + Ties([x], w);
        { FilterConcat(s', [x], HasIntensity(w)); }
        Ties(s, w);
      }
    }
  }

  lemma SortDescLength(s: seq<Group>)
    ensures |SortDesc(s)| == |s|
  {
    SortDescPermutes(s);
    assert |multiset(SortDesc(s))| == |multiset(s)|;
  }

  /** One step of the inner loop: `x` moves left past a less intense element. */
  lemma InsertShift(t: seq<Group>, j: nat, x: Group)
    requires 0 < j <= |t| && t[j - 1].intensity < x.intensity
    ensures Insert(t[..j], x) + t[j..] == Insert(t[..j - 1], x) + t[j - 1..]
  {
    assert t[..j][..j - 1] == t[..j - 1];
    assert t[j - 1..] == [t[j - 1]] + t[j..];
  }

  /** Where the inner loop stops, `x` goes. */
  lemma InsertStop(t: seq<Group>, j: nat, x: Group)
    requires j <= |t| && (j == 0 || t[j - 1].intensity >= x.intensity)
    ensures Insert(t[..j], x) + t[j..] == t[..j] + [x] + t[j..]
  {
  }

  lemma SortDescPrefix(s: seq<Group>, i: nat)
    requires i < |s|
    ensures SortDesc(s[..i + 1]) == Insert(SortDesc(s[..i]), s[i])
  {
    assert s[..i + 1][..i] == s[..i];
  }

  /** Swapping `x` with the element before it. */
  lemma SwapStep(t: seq<Group>, j: nat, x: Group, rest: seq<Group>)
    requires 0 < j <= |t|
    ensures var s := t[..j] + [x] + t[j..] + rest;
      && s[j - 1] == t[j - 1] && s[j] == x
      && s[j - 1 := x][j := t[j - 1]] == t[..j - 1] + [x] + t[j - 1..] + rest
  {
    var s := t[..j] + [x] + t[j..] + rest;
    var s' := t[..j - 1] + [x] + t[j - 1..] + rest;
    assert |s[j - 1 := x][j := t[j - 1]]| == |s'|;
    forall k | 0 <= k < |s'| ensures s[j - 1 := x][j := t[j - 1]][k] == s'[k] {
      if k < j - 1 {
        assert s[k] == t[k] && s'[k] == t[k];
      } else if k > j {
        assert s[k] == s'[k];
      }
    }
  }

  /** The inner loop of the insertion sort: move `a[i]` left past the less intense
      elements before it. */
  method InsertLast(a: array<Group>, i: nat)
    requires i < a.Length
    modifies a
    ensures a[..] == Insert(old(a[..i]), old(a[i])) + old(a[i + 1..])
  {
    ghost var t, rest := a[..i], a[i + 1..];
    var x := a[i];
    var j := i;
    assert t[..i] == t && a[..] == t + [x] + rest;
    while j > 0 && a[j - 1].intensity < x.intensity
      invariant 0 <= j <= i
      invariant a[..] == t[..j] + [x] + t[j..] + rest
      invariant Insert(t, x) == Insert(t[..j], x) + t[j..]
    {
      SwapStep(t, j, x, rest);
      InsertShift(t, j, x);
      a[j - 1], a[j] := x, a[j - 1];
      j := j - 1;
    }
    if j > 0 {
      SwapStep(t, j, x, rest);
    }
    InsertStop(t, j, x);
  }

  /** `chartData.sort(...)`, in place: `Array.prototype.sort` is stable, so the sort
      is this insertion sort's. */
  method SortByIntensity(a: array<Group>)
    modifies a
    ensures a[..] == SortDesc(old(a[..]))
  {
    ghost var input := a[..];
    for i := 0 to a.Length
      invariant a[..] == SortDesc(input[..i]) + input[i..]
    {
      SortDescLength(input[..i]);
      assert a[..i] == SortDesc(input[..i]) && a[i] == input[i] && a[i + 1..] == input[i + 1..];
      SortDescPrefix(input, i);
      InsertLast(a, i);
    }
    assert input[..a.Length] == input;
  }

  function Min(a: int, b: int): int
  {
    if a < b then a else b
  }

  /** `topChartData`: the ten most intense groups, largest first. */
  function TopGroups(data: seq<Record>): seq<Group>
  {
    var sorted := SortDesc(Rollup(data));
    sorted[..Min(10, |sorted|)]
  }

  /** The rollup, the in-place sort and `slice(0, 10)` of `drawChart`. */
  method ChartSeries(data: seq<Record>) returns (top: seq<Group>)
    ensures top == TopGroups(data)
  {
    var chartData := Rollup(data);
    var a := new Group[|chartData|](i requires 0 <= i < |chartData| => chartData[i]);
    assert a[..] == chartData;
    SortByIntensity(a);
    top := a[..Min(10, a.Length)];
  }

  /** There are `min(10, groups)` bars, largest first, and none only for no data. */
  lemma TopGroupsShape(data: seq<Record>)
    ensures |TopGroups(data)| == Min(10, |Rollup(data)|)
    ensures TopGroups(data) == SortDesc(Rollup(data))[..|TopGroups(data)|]
    ensures NonIncreasing(TopGroups(data))
    ensures TopGroups(data) == [] <==> data == []
  {
    SortDescSorted(Rollup(data));
    SortDescLength(Rollup(data));
    RollupFirstSeenOrder(data);
  }

  /** Every bar is a group of the rollup. */
  lemma TopGroupsFromRollup(data: seq<Record>)
    ensures forall g :: g in TopGroups(data) ==> g in Rollup(data)
  {
    var sorted := SortDesc(Rollup(data));
    SortDescPermutes(Rollup(data));
    forall g | g in TopGroups(data) ensures g in Rollup(data) {
      assert g in sorted;
      assert g in multiset(sorted);
    }
  }

  lemma PrefixExcludes(s: seq<Group>, n: nat, j: nat)
    requires n <= |s| && j < |s| && s[j] !in s[..n]
    ensures n <= j
  {
  }

  /** No group left out of the bars is more intense than a bar shown. */
  lemma TopGroupsAreMostIntense(data: seq<Record>)
    ensures forall g, h :: g in TopGroups(data) && h in Rollup(data) && h !in TopGroups(data) ==>
      g.intensity >= h.intensity
  {
    var r := Rollup(data);
    var sorted := SortDesc(r);
    SortDescSorted(r);
    SortDescPermutes(r);
    SortDescLength(r);
    var top := TopGroups(data);
    var n := |top|;
    assert top == sorted[..n];
    forall g, h | g in top && h in r && h !in top ensures g.intensity >= h.intensity {
      assert h in multiset(sorted);
      var i :| 0 <= i < n && top[i] == g;
      var j :| 0 <= j < |sorted| && sorted[j] == h;
      PrefixExcludes(sorted, n, j);
    }
  }

  // ---------------------------------------------------------------------------
  // The summary statistics

  /** `avgIntensity` of the chart summary, before `toFixed(1)`. */
  function AverageIntensity(data: seq<Record>): (r: real)
    ensures |data| == 0 ==> r == 0.0
    ensures |data| > 0 ==> |data| as real * r == TotalIntensity(data) as real
  {
    if |data| > 0 then Mean(TotalIntensity(data) as real, |data|) else 0.0
  }

  /** `if (d.topic)`: the records that enter `topicMap`. */
  predicate HasTopic(d: Record)
  {
    d.topic.Some? && d.topic.value != ""
  }

  /** The truthy topics of the records, in record order. */
  function TruthyTopics(data: seq<Record>): seq<string>
  {
    if data == [] then []
    else
      var d := data[|data| - 1];
      TruthyTopics(data[..|data| - 1]) + (if HasTopic(d) then [d.topic.value] else [])
  }

  /** `topicMap[t]` once every record is added: the summed intensity of topic `t`. */
  function TopicSum(data: seq<Record>, t: string): int
  {
    if data == [] then 0
    else
      var d := data[|data| - 1];
      TopicSum(data[..|data| - 1], t) + (if HasTopic(d) && d.topic.value == t then Weight(d) else 0)
  }

  /** `Object.entries(topicMap)`: each topic with its sum, in insertion order. */
  function TopicTotals(data: seq<Record>): seq<Group>
  {
    var ks := Distinct(TruthyTopics(data));
    seq(|ks|, i requires 0 <= i < |ks| => Group(ks[i], TopicSum(data, ks[i])))
  }

  /** `sorted[0]` of the `topTopic` computation, if there is one. */
  function TopTopicEntry(data: seq<Record>): Option<Group>
  {
    if |data| == 0 then None
    else
      var sorted := SortDesc(TopicTotals(data));
      if |sorted| > 0 then Some(sorted[0]) else None
  }

  /** `${topic} (${sum})`, or `"N/A"`. */
  function Label(e: Option<Group>): string
  {
    match e
    case None => "N/A"
    case Some(g) => g.topic + " (" + IntToDecimal(g.intensity) + ")"
  }

  /** A topic that no record carries sums to 0. */
  lemma {:induction false} TopicSumAbsent(data: seq<Record>, t: string)
    requires t !in TruthyTopics(data)
    ensures TopicSum(data, t) == 0
  {
    if data != [] {
      TopicSumAbsent(data[..|data| - 1], t);
    }
  }

  lemma TopicsPrefix(data: seq<Record>, i: nat)
    requires i < |data|
    ensures TruthyTopics(data[..i + 1]) ==
      TruthyTopics(data[..i]) + (if HasTopic(data[i]) then [data[i].topic.value] else [])
    ensures forall t ::
              TopicSum(data[..i + 1], t) ==
              TopicSum(data[..i], t) + (if HasTopic(data[i]) && data[i].topic.value == t then Weight(data[i]) else 0)
  {
    assert data[..i + 1][..i] == data[..i];
  }

  /** The `forEach` that fills `topicMap`: the sum of every truthy topic, and the
      topics in the order in which a JavaScript object keeps its string keys, which
      is the order of their first insertion. */
  method AccumulateTopics(data: seq<Record>) returns (topicMap: map<string, int>, order: seq<string>)
    ensures order == Distinct(TruthyTopics(data))
    ensures forall t :: t in topicMap <==> t in order
    ensures forall t :: t in topicMap ==> topicMap[t] == TopicSum(data, t)
  {
    topicMap, order := map[], [];
    for i := 0 to |data|
      invariant order == Distinct(TruthyTopics(data[..i]))
      invariant forall t :: t in topicMap <==> t in order
      invariant forall t :: t in topicMap ==> topicMap[t] == TopicSum(data[..i], t)
    {
      var d := data[i];
      TopicsPrefix(data, i);
      if d.topic.Some? && d.topic.value != "" {
        var t := d.topic.value;
        DistinctSnoc(TruthyTopics(data[..i]), t);
        if t !in topicMap {
          TopicSumAbsent(data[..i], t);
        }
        topicMap := topicMap[t := (if t in topicMap then topicMap[t] else 0) + Weight(d)];
        if t !in order {
          order := order + [t];
        }
        forall t' | t' in topicMap ensures topicMap[t'] == TopicSum(data[..i + 1], t') {
          if t' != t {
            assert TopicSum(data[..i + 1], t') == TopicSum(data[..i], t');
          }
        }
      } else {
        assert TruthyTopics(data[..i + 1]) == TruthyTopics(data[..i]);
      }
    }
    assert data[..|data|] == data;
  }

  /** `topTopic`: sort `Object.entries(topicMap)` by descending sum and render the
      first entry. */
  method TopTopic(data: seq<Record>) returns (caption: string)
    ensures caption == Label(TopTopicEntry(data))
  {
    if |data| == 0 {
      return "N/A";
    }
    var topicMap, order := AccumulateTopics(data);
    var entries := seq(|order|, j requires 0 <= j < |order| => Group(order[j], topicMap[order[j]]));
    assert entries == TopicTotals(data);
    var a := new Group[|entries|](j requires 0 <= j < |entries| => entries[j]);
    assert a[..] == entries;
    SortByIntensity(a);
    caption := if a.Length > 0 then Label(Some(a[0])) else "N/A";
  }

  lemma {:induction false} TruthyTopicsMembers(data: seq<Record>)
    ensures forall t :: t in TruthyTopics(data) <==> exists d :: d in data && HasTopic(d) && d.topic.value == t
  {
    if data != [] {
      var prefix, d := data[..|data| - 1], data[|data| - 1];
      TruthyTopicsMembers(prefix);
      assert data == prefix + [d];
    }
  }

  /** The first group of the stable descending sort is a most intense group, and the
      first of the most intense groups in the input: `s[m]` with no most intense group
      before it. */
  lemma SortDescHead(s: seq<Group>) returns (m: nat)
    requires s != []
    ensures |SortDesc(s)| > 0
    ensures m < |s| && s[m] == SortDesc(s)[0]
    ensures forall e :: e in s ==> e.intensity <= s[m].intensity
    ensures forall j :: 0 <= j < m ==> s[j].intensity != s[m].intensity
  {
    var sorted := SortDesc(s);
    SortDescSorted(s);
    SortDescPermutes(s);
    SortDescLength(s);
    var g := sorted[0];
    forall e | e in s ensures e.intensity <= g.intensity {
      assert e in multiset(sorted);
      var k :| 0 <= k < |sorted| && sorted[k] == e;
    }
    SortDescStable(s, g.intensity);
    var h := FilterHead(sorted, HasIntensity(g.intensity));
    assert h == 0;
    m := FilterHead(s, HasIntensity(g.intensity));
  }

  lemma TopicTotalsShape(data: seq<Record>)
    ensures |TopicTotals(data)| == |Distinct(TruthyTopics(data))|
    ensures forall i :: 0 <= i < |TopicTotals(data)| ==>
      TopicTotals(data)[i] == Group(Distinct(TruthyTopics(data))[i], TopicSum(data, Distinct(TruthyTopics(data))[i]))
  {
  }

  /** `topTopic` is `"N/A"` exactly when no record has a truthy topic. */
  lemma TopTopicAbsent(data: seq<Record>)
    ensures TopTopicEntry(data).None? <==> forall d :: d in data ==> !HasTopic(d)
  {
    TruthyTopicsMembers(data);
    TopicTotalsShape(data);
    var es := TopicTotals(data);
    SortDescLength(es);
    var ks := Distinct(TruthyTopics(data));
    if |ks| > 0 {
      assert ks[0] in TruthyTopics(data);
    }
    if exists d :: d in data && HasTopic(d) {
      var d :| d in data && HasTopic(d);
      assert d.topic.value in ks;
    }
  }

  /** Otherwise it names a truthy topic with the largest sum, the first such topic in
      record order when several tie. */
  lemma TopTopicIsFirstMaximum(data: seq<Record>)
    requires TopTopicEntry(data).Some?
    ensures var g := TopTopicEntry(data).value;
      && g.topic in TruthyTopics(data)
      && g.intensity == TopicSum(data, g.topic)
      && (forall t :: t in TruthyTopics(data) ==> TopicSum(data, t) <= g.intensity)
      && (forall t :: t in TruthyTopics(data) && TopicSum(data, t) == g.intensity ==>
            IndexOf(TruthyTopics(data), g.topic) <= IndexOf(TruthyTopics(data), t))
  {
    var tt := TruthyTopics(data);
    var ks := Distinct(tt);
    var es := TopicTotals(data);
    TopicTotalsShape(data);
    var m := SortDescHead(es);
    var g := es[m];
    assert TopTopicEntry(data).value == g;
    forall t | t in tt ensures TopicSum(data, t) <= g.intensity {
      var j :| 0 <= j < |ks| && ks[j] == t;
      assert es[j] in es;
    }
    DistinctFirstOrder(tt);
    forall t | t in tt && TopicSum(data, t) == g.intensity ensures IndexOf(tt, g.topic) <= IndexOf(tt, t) {
      var j :| 0 <= j < |ks| && ks[j] == t;
      assert es[j].intensity == g.intensity;
      assert m <= j;
    }
  }

  /** `new Set(data.map(d => d.topic))`: the distinct topic values, `null` included. */
  function Topics(data: seq<Record>): seq<Option<string>>
  {
    seq(|data|, i requires 0 <= i < |data| => data[i].topic)
  }

  /** `topicsCount`: between 1 and the number of records for non-empty data, 0 for
      none. */
  function TopicsCount(data: seq<Record>): (n: nat)
    ensures |data| == 0 ==> n == 0
    ensures |data| > 0 ==> 1 <= n <= |data|
  {
    var ts := Topics(data);
    assert |data| > 0 ==> ts[0] in ts;
    |Distinct(ts)|
  }

  /** Records without a topic all count as the one value `null`. */
  lemma MissingTopicCountedOnce(data: seq<Record>, d: Record)
    requires d.topic.None?
    requires exists e :: e in data && e.topic.None?
    ensures TopicsCount(data + [d]) == TopicsCount(data)
  {
    var e :| e in data && e.topic.None?;
    var i :| 0 <= i < |data| && data[i] == e;
    assert Topics(data)[i] == None;
    assert Topics(data + [d]) == Topics(data) + [None];
    assert (Topics(data) + [None])[..|Topics(data)|] == Topics(data);
  }
}
