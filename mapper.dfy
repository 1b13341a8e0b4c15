/** The day aggregation of WeatherApiResponseMapper (its
    `groupForecastsByDay` and `mapToDomain`): group the 3-hour samples by
    local calendar day, keep the warmest sample of each day, order the
    survivors by time, keep the first five and convert them. The legacy
    WeatherRepository.kt carries a private copy of the same code
    (lines 41-51), so both repositories use these definitions. */
module ResponseMapper {
  import opened Models
  import opened Classify

  /** Forecasts shown at most. */
  const MaxDays: nat := 5

  function Min(a: int, b: int): int {
    if a <= b then a else b
  }

  /** The local calendar day of a sample: `dateFormat.format(Date(item.dt * 1000))`. */
  function DayOf(cal: Calendar, x: ForecastItem): string {
    cal.dayKey(x.dt)
  }

  /** The distinct days present in the input. */
  function DayKeySet(items: seq<ForecastItem>, cal: Calendar): set<string> {
    set x | x in items :: DayOf(cal, x)
  }

  lemma DayKeySetSnoc(prefix: seq<ForecastItem>, last: ForecastItem, cal: Calendar)
    ensures DayKeySet(prefix + [last], cal) == DayKeySet(prefix, cal) + {DayOf(cal, last)}
  {
    var items := prefix + [last];
    forall k | k in DayKeySet(items, cal) ensures k in DayKeySet(prefix, cal) + {DayOf(cal, last)} {
      var x :| x in items && DayOf(cal, x) == k;
      if x != last {
        assert x in prefix;
      }
    }
    forall k | k in DayKeySet(prefix, cal) ensures k in DayKeySet(items, cal) {
      var x :| x in prefix && DayOf(cal, x) == k;
      assert x in items;
    }
  }

  // ---------------------------------------------------------------------
  // `forecasts.groupBy { day }`: a LinkedHashMap whose keys come in order of
  // first occurrence and whose value lists keep the input order.
  // ---------------------------------------------------------------------

  /** The keys of the grouping, in order of first occurrence. */
  function DayKeys(items: seq<ForecastItem>, cal: Calendar): (keys: seq<string>)
    ensures forall i, j :: 0 <= i < j < |keys| ==> keys[i] != keys[j]
    ensures forall k :: k in keys <==> k in DayKeySet(items, cal)
    ensures |keys| == |DayKeySet(items, cal)|
  {
    if items == [] then []
    else
      var prefix := items[..|items| - 1];
      var last := items[|items| - 1];
      var keys := DayKeys(prefix, cal);
      assert items == prefix + [last];
      DayKeySetSnoc(prefix, last, cal);
      if DayOf(cal, last) in keys then
        assert DayKeySet(items, cal) == DayKeySet(prefix, cal);
        keys
      else
        keys + [DayOf(cal, last)]
  }

  /** The position of the first sample of day `k`. */
  ghost function FirstIndex(items: seq<ForecastItem>, cal: Calendar, k: string): (p: int)
    requires k in DayKeySet(items, cal)
    ensures 0 <= p < |items| && DayOf(cal, items[p]) == k
    ensures forall q :: 0 <= q < p ==> DayOf(cal, items[q]) != k
    decreases |items|
  {
    var prefix := items[..|items| - 1];
    var last := items[|items| - 1];
    assert items == prefix + [last];
    DayKeySetSnoc(prefix, last, cal);
    if k in DayKeySet(prefix, cal) then
      FirstIndex(prefix, cal, k)
    else
      AbsentDay(prefix, cal, k);
      |items| - 1
  }

  /** No sample of a list is on a day the list does not have. */
  lemma AbsentDay(items: seq<ForecastItem>, cal: Calendar, k: string)
    requires k !in DayKeySet(items, cal)
    ensures forall q :: 0 <= q < |items| ==> DayOf(cal, items[q]) != k
  {
    forall q | 0 <= q < |items| ensures DayOf(cal, items[q]) != k {
      assert items[q] in items;
    }
  }

  /** The keys of `groupBy` come in order of the first sample of their day. */
  lemma {:induction false} DayKeysInFirstOccurrenceOrder(items: seq<ForecastItem>, cal: Calendar)
    ensures forall k :: k in DayKeys(items, cal) ==> k in DayKeySet(items, cal)
    ensures forall i, j :: 0 <= i < j < |DayKeys(items, cal)| ==>
              FirstIndex(items, cal, DayKeys(items, cal)[i]) < FirstIndex(items, cal, DayKeys(items, cal)[j])
  {
    if items != [] {
      var prefix := items[..|items| - 1];
      var last := items[|items| - 1];
      assert items == prefix + [last];
      DayKeySetSnoc(prefix, last, cal);
      DayKeysInFirstOccurrenceOrder(prefix, cal);
      OrderExtends(prefix, last, cal, DayKeys(prefix, cal), DayKeys(items, cal));
    }
  }

  /** The step of the induction: the keys of `prefix + [last]` are those of
      `prefix`, followed by the day of `last` when that day is new. */
  lemma OrderExtends(prefix: seq<ForecastItem>, last: ForecastItem, cal: Calendar,
                     pk: seq<string>, keys: seq<string>)
    requires forall k :: k in pk <==> k in DayKeySet(prefix, cal)
    requires forall i, j :: 0 <= i < j < |pk| ==> FirstIndex(prefix, cal, pk[i]) < FirstIndex(prefix, cal, pk[j])
    requires keys == pk || (keys == pk + [DayOf(cal, last)] && DayOf(cal, last) !in DayKeySet(prefix, cal))
    ensures forall k :: k in keys ==> k in DayKeySet(prefix + [last], cal)
    ensures forall i, j :: 0 <= i < j < |keys| ==>
              FirstIndex(prefix + [last], cal, keys[i]) < FirstIndex(prefix + [last], cal, keys[j])
  {
    DayKeySetSnoc(prefix, last, cal);
    forall i, j | 0 <= i < j < |keys|
      ensures FirstIndex(prefix + [last], cal, keys[i]) < FirstIndex(prefix + [last], cal, keys[j])
    {
      assert keys[i] == pk[i] && pk[i] in pk;
      FirstIndexSnoc(prefix, last, cal, pk[i]);
      if j < |pk| {
        assert keys[j] == pk[j] && pk[j] in pk;
        FirstIndexSnoc(prefix, last, cal, pk[j]);
      } else {
        FirstIndexOfNewDay(prefix, last, cal);
      }
    }
  }

  /** Appending a sample keeps the first sample of a day already present. */
  lemma FirstIndexSnoc(prefix: seq<ForecastItem>, last: ForecastItem, cal: Calendar, k: string)
    requires k in DayKeySet(prefix, cal)
    ensures k in DayKeySet(prefix + [last], cal)
    ensures FirstIndex(prefix + [last], cal, k) == FirstIndex(prefix, cal, k)
  {
    DayKeySetSnoc(prefix, last, cal);
    assert (prefix + [last])[..|prefix|] == prefix;
  }

  /** An appended sample of a new day is the first sample of that day. */
  lemma FirstIndexOfNewDay(prefix: seq<ForecastItem>, last: ForecastItem, cal: Calendar)
    requires DayOf(cal, last) !in DayKeySet(prefix, cal)
    ensures DayOf(cal, last) in DayKeySet(prefix + [last], cal)
    ensures FirstIndex(prefix + [last], cal, DayOf(cal, last)) == |prefix|
  {
    DayKeySetSnoc(prefix, last, cal);
    assert (prefix + [last])[..|prefix|] == prefix;
  }


  /** The value list of key `k`: the samples of that day, in input order. */
  function DayGroup(items: seq<ForecastItem>, cal: Calendar, k: string): (g: seq<ForecastItem>)
    ensures forall x :: x in g <==> x in items && DayOf(cal, x) == k
    ensures g == [] <==> k !in DayKeySet(items, cal)
  {
    if items == [] then []
    else
      var prefix := items[..|items| - 1];
      var last := items[|items| - 1];
      assert items == prefix + [last];
      DayKeySetSnoc(prefix, last, cal);
      var g := DayGroup(prefix, cal, k);
      if DayOf(cal, last) == k then g + [last] else g
  }

  /** `grouped.values`: one non-empty list per day, in key order. */
  function GroupByDay(items: seq<ForecastItem>, cal: Calendar): (groups: seq<seq<ForecastItem>>)
    ensures |groups| == |DayKeySet(items, cal)|
    ensures forall i :: 0 <= i < |groups| ==> groups[i] != []
    ensures forall i :: 0 <= i < |groups| ==> groups[i] == DayGroup(items, cal, DayKeys(items, cal)[i])
  {
    var keys := DayKeys(items, cal);
    assert forall i :: 0 <= i < |keys| ==> keys[i] in keys;
    seq(|keys|, i requires 0 <= i < |keys| => DayGroup(items, cal, keys[i]))
  }

  // ---------------------------------------------------------------------
  // `maxByOrNull { it.main.temp }` and `mapNotNull`
  // ---------------------------------------------------------------------

  /** `g.maxByOrNull { it.main.temp }`: the library walks the list front to
      back and replaces its candidate only by a strictly warmer sample, so
      the FIRST of the warmest samples wins. */
  function MaxByTemp(g: seq<ForecastItem>): (m: Option<ForecastItem>)
    ensures m.None? <==> g == []
    ensures m.Some? ==> forall x :: x in g ==> x.main.temp <= m.value.main.temp
    ensures m.Some? ==> exists p :: 0 <= p < |g| && g[p] == m.value
                          && forall q :: 0 <= q < p ==> g[q].main.temp < m.value.main.temp
  {
    if g == [] then None
    else
      var prefix := g[..|g| - 1];
      var last := g[|g| - 1];
      assert g == prefix + [last];
      match MaxByTemp(prefix)
      case None =>
        Some(last)
      case Some(best) =>
        if best.main.temp < last.main.temp then Some(last) else Some(best)
  }

  /** `values.mapNotNull { it.maxByOrNull { temp } }`: the warmest sample of
      each group; since no group is empty, nothing is dropped. */
  function WarmestPerGroup(groups: seq<seq<ForecastItem>>): (reps: seq<ForecastItem>)
    ensures |reps| <= |groups|
    ensures (forall i :: 0 <= i < |groups| ==> groups[i] != []) ==>
              |reps| == |groups| && forall i :: 0 <= i < |groups| ==> Some(reps[i]) == MaxByTemp(groups[i])
  {
    if groups == [] then []
    else
      match MaxByTemp(groups[0])
      case None => WarmestPerGroup(groups[1..])
      case Some(m) => [m] + WarmestPerGroup(groups[1..])
  }

  // ---------------------------------------------------------------------
  // `sortedBy { it.dt }` (a stable sort) and `take(n)`
  // ---------------------------------------------------------------------

  ghost predicate SortedByDt(s: seq<ForecastItem>) {
    forall i, j :: 0 <= i < j < |s| ==> s[i].dt <= s[j].dt
  }

  /** Puts `x` in front of the first element that is not earlier than it. */
  function InsertByDt(x: ForecastItem, sorted: seq<ForecastItem>): (r: seq<ForecastItem>)
    ensures multiset(r) == multiset(sorted) + multiset{x}
    ensures |r| == |sorted| + 1
    ensures r[0] == x || (sorted != [] && r[0] == sorted[0])
  {
    if sorted == [] || x.dt <= sorted[0].dt then
      [x] + sorted
    else
      var rest := InsertByDt(x, sorted[1..]);
      assert sorted == [sorted[0]] + sorted[1..];
      [sorted[0]] + rest
  }

  lemma {:induction false} InsertKeepsSorted(x: ForecastItem, sorted: seq<ForecastItem>)
    requires SortedByDt(sorted)
    ensures SortedByDt(InsertByDt(x, sorted))
  {
    if sorted != [] && sorted[0].dt < x.dt {
      InsertKeepsSorted(x, sorted[1..]);
    }
  }

  /** A stable insertion sort on `dt`: a permutation of the input, ordered. */
  function SortByDt(s: seq<ForecastItem>): (r: seq<ForecastItem>)
    ensures multiset(r) == multiset(s)
    ensures |r| == |s|
    ensures SortedByDt(r)
  {
    if s == [] then []
    else
      var rest := SortByDt(s[1..]);
      assert s == [s[0]] + s[1..];
      InsertKeepsSorted(s[0], rest);
      InsertByDt(s[0], rest)
  }

  /** `take(n)`: the first `n` elements, or all of them when there are fewer. */
  function Take<T>(s: seq<T>, n: nat): (r: seq<T>)
    ensures |r| == Min(n, |s|)
    ensures forall i :: 0 <= i < |r| ==> r[i] == s[i]
  {
    if |s| <= n then s else s[..n]
  }

  // ---------------------------------------------------------------------
  // The day representative: the first warmest sample of the day
  // ---------------------------------------------------------------------

  /** `items[p]` is a sample of day `k`, no sample of that day is warmer, and
      every sample of that day before it is strictly cooler. */
  ghost predicate IsFirstWarmestAt(items: seq<ForecastItem>, cal: Calendar, k: string, p: int) {
    && 0 <= p < |items|
    && DayOf(cal, items[p]) == k
    && (forall q :: 0 <= q < |items| && DayOf(cal, items[q]) == k ==> items[q].main.temp <= items[p].main.temp)
    && (forall q :: 0 <= q < p && DayOf(cal, items[q]) == k ==> items[q].main.temp < items[p].main.temp)
  }

  /** At most one position satisfies the policy: the choice is determined. */
  lemma FirstWarmestUnique(items: seq<ForecastItem>, cal: Calendar, k: string, p: int, p': int)
    requires IsFirstWarmestAt(items, cal, k, p) && IsFirstWarmestAt(items, cal, k, p')
    ensures p == p'
  {
  }

  lemma MaxByTempSnoc(g: seq<ForecastItem>, last: ForecastItem)
    ensures MaxByTemp(g + [last]) == match MaxByTemp(g)
      case None => Some(last)
      case Some(best) => if best.main.temp < last.main.temp then Some(last) else Some(best)
  {
    assert (g + [last])[..|g|] == g;
  }

  lemma DayGroupSnoc(prefix: seq<ForecastItem>, last: ForecastItem, cal: Calendar, k: string)
    ensures DayGroup(prefix + [last], cal, k)
         == if DayOf(cal, last) == k then DayGroup(prefix, cal, k) + [last] else DayGroup(prefix, cal, k)
  {
    assert (prefix + [last])[..|prefix|] == prefix;
  }

  /** Grouping and then taking `maxByOrNull` of the day's list picks, in the
      whole input, the first sample of the day with the day's highest
      temperature. */
  lemma {:induction false} GroupMaxIsFirstWarmest(items: seq<ForecastItem>, cal: Calendar, k: string)
    requires k in DayKeySet(items, cal)
    ensures MaxByTemp(DayGroup(items, cal, k)).Some?
    ensures exists p :: IsFirstWarmestAt(items, cal, k, p) && items[p] == MaxByTemp(DayGroup(items, cal, k)).value
  {
    var prefix := items[..|items| - 1];
    var last := items[|items| - 1];
    assert items == prefix + [last];
    DayKeySetSnoc(prefix, last, cal);
    if k in DayKeySet(prefix, cal) {
      GroupMaxIsFirstWarmest(prefix, cal, k);
      GroupMaxStep(prefix, last, cal, k);
    } else {
      GroupMaxFirstOfDay(prefix, last, cal, k);
    }
  }

  /** The step of the induction when the day already had samples. */
  lemma GroupMaxStep(prefix: seq<ForecastItem>, last: ForecastItem, cal: Calendar, k: string)
    requires MaxByTemp(DayGroup(prefix, cal, k)).Some?
    requires exists p :: IsFirstWarmestAt(prefix, cal, k, p) && prefix[p] == MaxByTemp(DayGroup(prefix, cal, k)).value
    ensures MaxByTemp(DayGroup(prefix + [last], cal, k)).Some?
    ensures exists p :: IsFirstWarmestAt(prefix + [last], cal, k, p)
                     && (prefix + [last])[p] == MaxByTemp(DayGroup(prefix + [last], cal, k)).value
  {
    var g0 := DayGroup(prefix, cal, k);
    var best := MaxByTemp(g0).value;
    var p :| IsFirstWarmestAt(prefix, cal, k, p) && prefix[p] == best;
    DayGroupSnoc(prefix, last, cal, k);
    MaxByTempSnoc(g0, last);
    if DayOf(cal, last) == k && best.main.temp < last.main.temp {
      WarmerLastIsFirstWarmest(prefix, last, cal, k, p);
      assert (prefix + [last])[|prefix|] == last;
    } else {
      FirstWarmestExtends(prefix, last, cal, k, p);
    }
  }

  /** The step of the induction when `last` is the first sample of its day. */
  lemma GroupMaxFirstOfDay(prefix: seq<ForecastItem>, last: ForecastItem, cal: Calendar, k: string)
    requires k !in DayKeySet(prefix, cal) && DayOf(cal, last) == k
    ensures MaxByTemp(DayGroup(prefix + [last], cal, k)) == Some(last)
    ensures IsFirstWarmestAt(prefix + [last], cal, k, |prefix|) && (prefix + [last])[|prefix|] == last
  {
    var g0 := DayGroup(prefix, cal, k);
    DayGroupSnoc(prefix, last, cal, k);
    MaxByTempSnoc(g0, last);
    FirstOfDayIsFirstWarmest(prefix, last, cal, k);
  }

  /** A later sample that is not warmer leaves the choice where it was. */
  lemma FirstWarmestExtends(prefix: seq<ForecastItem>, last: ForecastItem, cal: Calendar, k: string, p: int)
    requires IsFirstWarmestAt(prefix, cal, k, p)
    requires DayOf(cal, last) == k ==> last.main.temp <= prefix[p].main.temp
    ensures IsFirstWarmestAt(prefix + [last], cal, k, p) && (prefix + [last])[p] == prefix[p]
  {
  }

  /** The first sample of a day is its choice so far. */
  lemma FirstOfDayIsFirstWarmest(prefix: seq<ForecastItem>, last: ForecastItem, cal: Calendar, k: string)
    requires DayOf(cal, last) == k && k !in DayKeySet(prefix, cal)
    ensures IsFirstWarmestAt(prefix + [last], cal, k, |prefix|)
  {
    var items := prefix + [last];
    forall q | 0 <= q < |prefix| ensures DayOf(cal, items[q]) != k {
      assert items[q] == prefix[q];
      assert prefix[q] in prefix;
    }
  }

  /** A strictly warmer sample of the day takes over. */
  lemma WarmerLastIsFirstWarmest(prefix: seq<ForecastItem>, last: ForecastItem, cal: Calendar, k: string, p: int)
    requires IsFirstWarmestAt(prefix, cal, k, p)
    requires DayOf(cal, last) == k && prefix[p].main.temp < last.main.temp
    ensures IsFirstWarmestAt(prefix + [last], cal, k, |prefix|)
  {
    var items := prefix + [last];
    forall q | 0 <= q < |prefix| && DayOf(cal, items[q]) == k ensures items[q].main.temp < last.main.temp {
      assert items[q] == prefix[q];
    }
  }

  /** The sample that stands for day `k`. */
  function DayRepresentative(items: seq<ForecastItem>, cal: Calendar, k: string): (r: ForecastItem)
    requires k in DayKeySet(items, cal)
    ensures r in items && DayOf(cal, r) == k
    ensures exists p :: IsFirstWarmestAt(items, cal, k, p) && items[p] == r
  {
    GroupMaxIsFirstWarmest(items, cal, k);
    MaxByTemp(DayGroup(items, cal, k)).value
  }

  ghost predicate DistinctDays(s: seq<ForecastItem>, cal: Calendar) {
    forall i, j :: 0 <= i < j < |s| ==> DayOf(cal, s[i]) != DayOf(cal, s[j])
  }

  /** `grouped.values.mapNotNull { maxByOrNull }`: exactly one sample per
      day, in order of first occurrence of the day, each the day's
      representative. */
  lemma RepresentativesPerDay(items: seq<ForecastItem>, cal: Calendar)
    ensures var reps := WarmestPerGroup(GroupByDay(items, cal));
      && |reps| == |DayKeys(items, cal)|
      && (forall i :: 0 <= i < |reps| ==> DayOf(cal, reps[i]) == DayKeys(items, cal)[i])
      && (forall i :: 0 <= i < |reps| ==> reps[i] == DayRepresentative(items, cal, DayKeys(items, cal)[i]))
      && DistinctDays(reps, cal)
  {
    var keys := DayKeys(items, cal);
    var reps := WarmestPerGroup(GroupByDay(items, cal));
    forall i | 0 <= i < |reps|
      ensures DayOf(cal, reps[i]) == keys[i]
      ensures reps[i] == DayRepresentative(items, cal, keys[i])
    {
      assert keys[i] in keys;
      GroupMaxIsFirstWarmest(items, cal, keys[i]);
      assert reps[i] in DayGroup(items, cal, keys[i]);
    }
  }

  /** Inserting a sample of a day the list does not have keeps the days distinct. */
  lemma {:induction false} InsertKeepsDaysDistinct(x: ForecastItem, t: seq<ForecastItem>, cal: Calendar)
    requires DistinctDays(t, cal)
    requires forall y :: y in t ==> DayOf(cal, y) != DayOf(cal, x)
    ensures DistinctDays(InsertByDt(x, t), cal)
  {
    if t != [] && t[0].dt < x.dt {
      var rest := InsertByDt(x, t[1..]);
      InsertKeepsDaysDistinct(x, t[1..], cal);
      forall y | y in rest ensures DayOf(cal, y) != DayOf(cal, t[0]) {
        OtherDay(y, x, t, rest, cal);
      }
      ConsKeepsDaysDistinct(t[0], rest, cal);
    }
  }

  /** An element of `rest`, which holds `x` and the tail of `t`, is not on
      the day of the head of `t`. */
  lemma OtherDay(y: ForecastItem, x: ForecastItem, t: seq<ForecastItem>, rest: seq<ForecastItem>, cal: Calendar)
    requires t != [] && DistinctDays(t, cal)
    requires forall z :: z in t ==> DayOf(cal, z) != DayOf(cal, x)
    requires multiset(rest) == multiset(t[1..]) + multiset{x}
    requires y in rest
    ensures DayOf(cal, y) != DayOf(cal, t[0])
  {
    assert y in multiset(rest);
    if y != x {
      assert y in multiset(t[1..]);
      var j :| 0 <= j < |t[1..]| && t[1..][j] == y;
      assert t[j + 1] == y;
    } else {
      assert t[0] in t;
    }
  }

  /** A head on a day of its own keeps the days distinct. */
  lemma ConsKeepsDaysDistinct(h: ForecastItem, rest: seq<ForecastItem>, cal: Calendar)
    requires DistinctDays(rest, cal)
    requires forall y :: y in rest ==> DayOf(cal, y) != DayOf(cal, h)
    ensures DistinctDays([h] + rest, cal)
  {
    var r := [h] + rest;
    forall i, j | 0 <= i < j < |r| ensures DayOf(cal, r[i]) != DayOf(cal, r[j]) {
      if i == 0 {
        assert r[j] == rest[j - 1];
        assert r[j] in rest;
      } else {
        assert r[i] == rest[i - 1] && r[j] == rest[j - 1];
      }
    }
  }

  /** Sorting keeps the days distinct. */
  lemma {:induction false} SortKeepsDaysDistinct(s: seq<ForecastItem>, cal: Calendar)
    requires DistinctDays(s, cal)
    ensures DistinctDays(SortByDt(s), cal)
  {
    if s != [] {
      var rest := SortByDt(s[1..]);
      SortKeepsDaysDistinct(s[1..], cal);
      forall y | y in rest ensures DayOf(cal, y) != DayOf(cal, s[0]) {
        assert y in multiset(rest);
        assert y in s[1..];
      }
      InsertKeepsDaysDistinct(s[0], rest, cal);
    }
  }

  // ---------------------------------------------------------------------
  // The mapper's two functions
  // ---------------------------------------------------------------------

  /** `groupForecastsByDay(forecasts)`. */
  function GroupForecastsByDay(items: seq<ForecastItem>, cal: Calendar): (days: seq<ForecastItem>)
    ensures |days| <= MaxDays
    ensures forall x :: x in days ==> x in items
  {
    RepresentativesAreSamples(items, cal);
    Take(SortByDt(WarmestPerGroup(GroupByDay(items, cal))), MaxDays)
  }

  /** The kept day representatives are input samples. */
  lemma RepresentativesAreSamples(items: seq<ForecastItem>, cal: Calendar)
    ensures forall x :: x in Take(SortByDt(WarmestPerGroup(GroupByDay(items, cal))), MaxDays) ==> x in items
  {
    var sorted := SortByDt(WarmestPerGroup(GroupByDay(items, cal)));
    var days := Take(sorted, MaxDays);
    SortedRepresentatives(items, cal);
    forall x | x in days ensures x in items {
      var i :| 0 <= i < |days| && days[i] == x;
      assert days[i] == sorted[i];
      var r := DayRepresentative(items, cal, DayOf(cal, sorted[i]));
    }
  }

  /** `map { convertToWeatherForecast(it) }`. */
  function ConvertAll(daily: seq<ForecastItem>, cal: Calendar): (r: seq<WeatherForecast>)
    ensures |r| == |daily|
    ensures forall i :: 0 <= i < |r| ==> r[i] == ConvertToWeatherForecast(daily[i], cal)
  {
    seq(|daily|, i requires 0 <= i < |daily| => ConvertToWeatherForecast(daily[i], cal))
  }

  /** `mapToDomain(forecasts)`. */
  function MapToDomain(items: seq<ForecastItem>, cal: Calendar): (r: seq<WeatherForecast>)
    ensures |r| <= MaxDays
    ensures forall f :: f in r ==> exists x :: x in items && f == ConvertToWeatherForecast(x, cal)
  {
    Take(ConvertAll(GroupForecastsByDay(items, cal), cal), MaxDays)
  }

  // ---------------------------------------------------------------------
  // What the mapper promises
  // ---------------------------------------------------------------------

  /** Sorted, with no two samples of the same day, the times are strictly
      increasing: two samples with the same time fall on the same day. */
  lemma StrictlyAscending(s: seq<ForecastItem>, cal: Calendar)
    requires SortedByDt(s) && DistinctDays(s, cal)
    ensures forall i, j :: 0 <= i < j < |s| ==> s[i].dt < s[j].dt
  {
  }

  /** Every day has its representative in the sorted list, and nothing else is. */
  lemma SortedRepresentatives(items: seq<ForecastItem>, cal: Calendar)
    ensures var sorted := SortByDt(WarmestPerGroup(GroupByDay(items, cal)));
      && |sorted| == |DayKeySet(items, cal)|
      && SortedByDt(sorted)
      && DistinctDays(sorted, cal)
      && (forall m :: 0 <= m < |sorted| ==> DayOf(cal, sorted[m]) in DayKeySet(items, cal))
      && (forall m :: 0 <= m < |sorted| ==> sorted[m] == DayRepresentative(items, cal, DayOf(cal, sorted[m])))
      && (forall k :: k in DayKeySet(items, cal) ==> exists m :: 0 <= m < |sorted| && DayOf(cal, sorted[m]) == k)
  {
    var reps := WarmestPerGroup(GroupByDay(items, cal));
    RepresentativesPerDay(items, cal);
    SortKeepsDaysDistinct(reps, cal);
    PermutedRepresentatives(items, cal, DayKeys(items, cal), reps, SortByDt(reps));
  }

  /** The facts about the sorted list, stated for any permutation of the
      per-day representatives. */
  lemma PermutedRepresentatives(items: seq<ForecastItem>, cal: Calendar, keys: seq<string>,
                                reps: seq<ForecastItem>, sorted: seq<ForecastItem>)
    requires forall k :: k in keys <==> k in DayKeySet(items, cal)
    requires |reps| == |keys|
    requires forall i :: 0 <= i < |reps| ==> DayOf(cal, reps[i]) == keys[i]
    requires forall i :: 0 <= i < |reps| ==> reps[i] == DayRepresentative(items, cal, keys[i])
    requires multiset(sorted) == multiset(reps)
    ensures forall m :: 0 <= m < |sorted| ==> DayOf(cal, sorted[m]) in DayKeySet(items, cal)
    ensures forall m :: 0 <= m < |sorted| ==> sorted[m] == DayRepresentative(items, cal, DayOf(cal, sorted[m]))
    ensures forall k :: k in DayKeySet(items, cal) ==> exists m :: 0 <= m < |sorted| && DayOf(cal, sorted[m]) == k
  {
    forall m | 0 <= m < |sorted|
      ensures DayOf(cal, sorted[m]) in DayKeySet(items, cal)
      ensures sorted[m] == DayRepresentative(items, cal, DayOf(cal, sorted[m]))
    {
      var j := IndexIn(sorted[m], reps, sorted);
      assert keys[j] in keys;
    }
    forall k | k in DayKeySet(items, cal)
      ensures exists m :: 0 <= m < |sorted| && DayOf(cal, sorted[m]) == k
    {
      var j :| 0 <= j < |keys| && keys[j] == k;
      var m := IndexIn(reps[j], sorted, reps);
      assert DayOf(cal, sorted[m]) == k;
    }
  }

  /** A position of `x` in `t`, found through a list with the same elements. */
  ghost function IndexIn(x: ForecastItem, t: seq<ForecastItem>, u: seq<ForecastItem>): (j: int)
    requires multiset(t) == multiset(u) && x in u
    ensures 0 <= j < |t| && t[j] == x
  {
    assert x in multiset(u);
    assert x in multiset(t);
    var j :| 0 <= j < |t| && t[j] == x;
    j
  }

  /** Every entry is the representative of its own day, and the times
      strictly increase. */
  ghost predicate RepresentativesInOrder(items: seq<ForecastItem>, cal: Calendar, days: seq<ForecastItem>) {
    && (forall i :: 0 <= i < |days| ==> days[i] in items)
    && (forall i :: 0 <= i < |days| ==>
          DayOf(cal, days[i]) in DayKeySet(items, cal) && days[i] == DayRepresentative(items, cal, DayOf(cal, days[i])))
    && (forall i, j :: 0 <= i < j < |days| ==> days[i].dt < days[j].dt)
  }

  /** Every day of the input is present, unless five days whose
      representatives all come earlier fill the list. */
  ghost predicate EarliestDaysKept(items: seq<ForecastItem>, cal: Calendar, days: seq<ForecastItem>) {
    forall k :: k in DayKeySet(items, cal) ==>
      (exists i :: 0 <= i < |days| && DayOf(cal, days[i]) == k)
      || (|days| == MaxDays && forall i :: 0 <= i < |days| ==> days[i].dt < DayRepresentative(items, cal, k).dt)
  }

  /** What survives the cut after five is still a set of distinct-day
      representatives in strictly increasing time. */
  lemma FirstDaysOfSorted(items: seq<ForecastItem>, cal: Calendar, sorted: seq<ForecastItem>, days: seq<ForecastItem>)
    requires |days| <= |sorted| && forall i :: 0 <= i < |days| ==> days[i] == sorted[i]
    requires DistinctDays(sorted, cal)
    requires forall i, j :: 0 <= i < j < |sorted| ==> sorted[i].dt < sorted[j].dt
    requires forall m :: 0 <= m < |sorted| ==> DayOf(cal, sorted[m]) in DayKeySet(items, cal)
    requires forall m :: 0 <= m < |sorted| ==> sorted[m] == DayRepresentative(items, cal, DayOf(cal, sorted[m]))
    ensures DistinctDays(days, cal)
    ensures RepresentativesInOrder(items, cal, days)
  {
  }

  /** A day is left out of the cut only when the five kept days all come
      before it. */
  lemma DaysCovered(items: seq<ForecastItem>, cal: Calendar, sorted: seq<ForecastItem>, days: seq<ForecastItem>)
    requires |days| == Min(MaxDays, |sorted|) && forall i :: 0 <= i < |days| ==> days[i] == sorted[i]
    requires forall i, j :: 0 <= i < j < |sorted| ==> sorted[i].dt < sorted[j].dt
    requires forall m :: 0 <= m < |sorted| ==> DayOf(cal, sorted[m]) in DayKeySet(items, cal)
    requires forall m :: 0 <= m < |sorted| ==> sorted[m] == DayRepresentative(items, cal, DayOf(cal, sorted[m]))
    requires forall k :: k in DayKeySet(items, cal) ==> exists m :: 0 <= m < |sorted| && DayOf(cal, sorted[m]) == k
    ensures EarliestDaysKept(items, cal, days)
  {
    forall k | k in DayKeySet(items, cal)
      ensures (exists i :: 0 <= i < |days| && DayOf(cal, days[i]) == k)
              || (|days| == MaxDays && forall i :: 0 <= i < |days| ==> days[i].dt < DayRepresentative(items, cal, k).dt)
    {
      var m :| 0 <= m < |sorted| && DayOf(cal, sorted[m]) == k;
      KeptOrLater(sorted, days, m);
      if m < |days| {
        assert DayOf(cal, days[m]) == k;
      } else {
        assert sorted[m] == DayRepresentative(items, cal, k);
      }
    }
  }

  /** An entry of a strictly increasing list is either kept by the cut after
      five, or later than everything that was kept. */
  lemma KeptOrLater(sorted: seq<ForecastItem>, days: seq<ForecastItem>, m: int)
    requires |days| == Min(MaxDays, |sorted|) && forall i :: 0 <= i < |days| ==> days[i] == sorted[i]
    requires forall i, j :: 0 <= i < j < |sorted| ==> sorted[i].dt < sorted[j].dt
    requires 0 <= m < |sorted|
    ensures m < |days| || (|days| == MaxDays && forall i :: 0 <= i < |days| ==> days[i].dt < sorted[m].dt)
  {
  }

  /** An input has a local day exactly when it has a sample. */
  lemma NoDaysIffNoItems(items: seq<ForecastItem>, cal: Calendar)
    ensures |DayKeySet(items, cal)| == 0 <==> items == []
  {
    if items != [] {
      assert DayOf(cal, items[0]) in DayKeySet(items, cal);
    }
  }

  /** One representative per local day, cut at five. */
  lemma DailyCount(items: seq<ForecastItem>, cal: Calendar)
    ensures |GroupForecastsByDay(items, cal)| == Min(MaxDays, |DayKeySet(items, cal)|)
  {
    RepresentativesPerDay(items, cal);
  }

  /** The result of `groupForecastsByDay`: at most five samples, one per
      local day, each the first warmest sample of its day, strictly ordered
      by time; a day of the input is missing only when five days with
      earlier representatives fill the result. */
  lemma GroupForecastsByDaySpec(items: seq<ForecastItem>, cal: Calendar)
    ensures |GroupForecastsByDay(items, cal)| == Min(MaxDays, |DayKeySet(items, cal)|)
    ensures DistinctDays(GroupForecastsByDay(items, cal), cal)
    ensures RepresentativesInOrder(items, cal, GroupForecastsByDay(items, cal))
    ensures EarliestDaysKept(items, cal, GroupForecastsByDay(items, cal))
  {
    var sorted := SortByDt(WarmestPerGroup(GroupByDay(items, cal)));
    assert GroupForecastsByDay(items, cal) == Take(sorted, MaxDays);
    SortedRepresentatives(items, cal);
    CutOfRepresentatives(items, cal, sorted, Take(sorted, MaxDays));
  }

  /** The four facts of `GroupForecastsByDaySpec`, for the cut of any sorted
      list that holds exactly one representative per day. */
  lemma CutOfRepresentatives(items: seq<ForecastItem>, cal: Calendar, sorted: seq<ForecastItem>, days: seq<ForecastItem>)
    requires |sorted| == |DayKeySet(items, cal)|
    requires SortedByDt(sorted) && DistinctDays(sorted, cal)
    requires forall m :: 0 <= m < |sorted| ==> DayOf(cal, sorted[m]) in DayKeySet(items, cal)
    requires forall m :: 0 <= m < |sorted| ==> sorted[m] == DayRepresentative(items, cal, DayOf(cal, sorted[m]))
    requires forall k :: k in DayKeySet(items, cal) ==> exists m :: 0 <= m < |sorted| && DayOf(cal, sorted[m]) == k
    requires |days| == Min(MaxDays, |sorted|) && forall i :: 0 <= i < |days| ==> days[i] == sorted[i]
    ensures |days| == Min(MaxDays, |DayKeySet(items, cal)|)
    ensures DistinctDays(days, cal)
    ensures RepresentativesInOrder(items, cal, days)
    ensures EarliestDaysKept(items, cal, days)
  {
    StrictlyAscending(sorted, cal);
    FirstDaysOfSorted(items, cal, sorted, days);
    DaysCovered(items, cal, sorted, days);
  }


  /** The result of `mapToDomain`: one converted forecast per entry of
      `groupForecastsByDay`, in the same order (the second `take(5)` removes
      nothing); in particular its length is min(5, number of local days), and
      no input means no forecast. */
  lemma MapToDomainSpec(items: seq<ForecastItem>, cal: Calendar)
    ensures |MapToDomain(items, cal)| == |GroupForecastsByDay(items, cal)| == Min(MaxDays, |DayKeySet(items, cal)|)
    ensures forall i :: 0 <= i < |MapToDomain(items, cal)| ==>
              MapToDomain(items, cal)[i] == ConvertToWeatherForecast(GroupForecastsByDay(items, cal)[i], cal)
    ensures items == [] <==> MapToDomain(items, cal) == []
  {
    DailyCount(items, cal);
    var days := GroupForecastsByDay(items, cal);
    assert MapToDomain(items, cal) == ConvertAll(days, cal);
    NoDaysIffNoItems(items, cal);
  }
}
