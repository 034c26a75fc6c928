/**
 * The dashboard's gain counts: how many collection tasks started in the
 * last week and today, and the per-day bars of the week. Dates are day
 * numbers: `localDay` is the task's calendar day in the browser's zone
 * (`None` for an unparsable date), `utcDay` the day of its ISO timestamp,
 * whose `YYYY-MM-DD` keys sort as the day numbers do.
 */
module DashEchartStore {
  import opened Base
  import opened Seqs

  datatype Task = Task(localDay: Option<int>, utcDay: int)

  /** One bar of the chart: a day and how many tasks fall on it. */
  datatype Bar = Bar(key: int, value: nat)

  /** The bars are in strictly ascending day order, so no day appears twice. */
  predicate Ascending(chart: seq<Bar>)
  {
    forall i, j :: 0 <= i < j < |chart| ==> chart[i].key < chart[j].key
  }

  /** The count the chart shows for `key`, 0 when it has no bar. */
  function CountOf(chart: seq<Bar>, key: int): (r: nat)
    decreases |chart|
  {
    if chart == [] then 0
    else (if chart[0].key == key then chart[0].value else 0) + CountOf(chart[1..], key)
  }

  function Total(chart: seq<Bar>): (r: nat)
    decreases |chart|
  {
    if chart == [] then 0 else chart[0].value + Total(chart[1..])
  }

  /** `r` is `chart` with one more task on day `key`, still in ascending order. */
  ghost predicate Bumped(chart: seq<Bar>, key: int, r: seq<Bar>)
  {
    && Ascending(r)
    && Total(r) == Total(chart) + 1
    && (forall k :: CountOf(r, k) == CountOf(chart, k) + (if k == key then 1 else 0))
    && (forall b :: b in r ==> b.key == key || exists c :: c in chart && c.key == b.key)
  }

  /** `map.set(key, (map.get(key) || 0) + 1)` on the bars kept sorted. */
  function Bump(chart: seq<Bar>, key: int): (r: seq<Bar>)
    requires Ascending(chart)
    ensures Ascending(r)
    ensures Total(r) == Total(chart) + 1
    ensures forall k :: CountOf(r, k) == CountOf(chart, k) + (if k == key then 1 else 0)
    ensures forall b :: b in r ==> b.key == key || exists c :: c in chart && c.key == b.key
    decreases |chart|
  {
    if chart == [] then [Bar(key, 1)]
    else if key < chart[0].key then
      BumpBefore(chart, key);
      [Bar(key, 1)] + chart
    else if key == chart[0].key then
      BumpHere(chart, key);
      [Bar(key, chart[0].value + 1)] + chart[1..]
    else
      var rest := Bump(chart[1..], key);
      BumpAfter(chart, key, rest);
      [chart[0]] + rest
  }

  /** A day before every bar gets a new first bar. */
  lemma BumpBefore(chart: seq<Bar>, key: int)
    requires Ascending(chart) && chart != [] && key < chart[0].key
    ensures Bumped(chart, key, [Bar(key, 1)] + chart)
  {
    var r := [Bar(key, 1)] + chart;
    assert r[1..] == chart;
  }

  /** The day of the first bar raises that bar. */
  lemma BumpHere(chart: seq<Bar>, key: int)
    requires Ascending(chart) && chart != [] && key == chart[0].key
    ensures Bumped(chart, key, [Bar(key, chart[0].value + 1)] + chart[1..])
  {
    var r := [Bar(key, chart[0].value + 1)] + chart[1..];
    assert r[1..] == chart[1..];
  }

  /** A later day keeps the first bar in front of the bumped rest. */
  lemma BumpAfter(chart: seq<Bar>, key: int, rest: seq<Bar>)
    requires Ascending(chart) && chart != [] && key > chart[0].key
    requires Bumped(chart[1..], key, rest)
    ensures Bumped(chart, key, [chart[0]] + rest)
  {
    var r := [chart[0]] + rest;
    assert r[1..] == rest;
    forall b | b in rest ensures b.key > chart[0].key {
      if b.key != key {
        var c :| c in chart[1..] && c.key == b.key;
      }
    }
  }

  /** How many times day `k` occurs among the keys. */
  function Occurrences(keys: seq<int>, k: int): (r: nat)
  {
    Count((d: int) => d == k, keys)
  }

  /** The bars of a list of day keys. */
  function ChartOf(keys: seq<int>): (r: seq<Bar>)
    ensures Ascending(r)
    ensures Total(r) == |keys|
    ensures forall k :: CountOf(r, k) == Occurrences(keys, k)
    decreases |keys|
  {
    if keys == [] then []
    else
      var rest := ChartOf(keys[1..]);
      assert forall k :: Occurrences(keys, k) == (if keys[0] == k then 1 else 0) + Occurrences(keys[1..], k);
      Bump(rest, keys[0])
  }

  /** A task in the last week: its day is no earlier than a week before today. */
  predicate InLastWeek(t: Task, today: int)
  {
    t.localDay.Some? && t.localDay.value >= today - 7
  }

  predicate IsToday(t: Task, today: int)
  {
    t.localDay == Some(today)
  }

  datatype GainQuantity = GainQuantity(value: nat, dailyValue: nat, chartData: seq<Bar>)

  /**
   * `getGainQuantity`: the tasks of the last week, those of today, and one
   * bar per ISO day among the week's tasks, in day order.
   */
  function GetGainQuantity(tasks: seq<Task>, today: int): (r: GainQuantity)
    ensures r.value == Count((t: Task) => InLastWeek(t, today), tasks)
    ensures r.dailyValue == Count((t: Task) => IsToday(t, today), tasks)
    ensures Ascending(r.chartData)
    ensures Total(r.chartData) == r.value
    ensures forall k :: CountOf(r.chartData, k) == Occurrences(Map((t: Task) => t.utcDay, Filter((t: Task) => InLastWeek(t, today), tasks)), k)
  {
    var recent := Filter((t: Task) => InLastWeek(t, today), tasks);
    var todays := Filter((t: Task) => IsToday(t, today), tasks);
    GainQuantity(|recent|, |todays|, ChartOf(Map((t: Task) => t.utcDay, recent)))
  }

  /** Today's tasks are among the week's, so the daily count never exceeds the weekly one. */
  lemma DailyWithinWeekly(tasks: seq<Task>, today: int)
    ensures GetGainQuantity(tasks, today).dailyValue <= GetGainQuantity(tasks, today).value
  {
    CountMono((t: Task) => IsToday(t, today), (t: Task) => InLastWeek(t, today), tasks);
  }

  /** No bar is empty: every day shown has at least one task. */
  lemma {:induction false} BarsArePositive(keys: seq<int>)
    ensures forall b :: b in ChartOf(keys) ==> b.value >= 1
    decreases |keys|
  {
    if keys != [] {
      BarsArePositive(keys[1..]);
      BumpKeepsPositive(ChartOf(keys[1..]), keys[0]);
    }
  }

  lemma {:induction false} BumpKeepsPositive(chart: seq<Bar>, key: int)
    requires Ascending(chart)
    requires forall b :: b in chart ==> b.value >= 1
    ensures forall b :: b in Bump(chart, key) ==> b.value >= 1
    decreases |chart|
  {
    if chart != [] && key > chart[0].key {
      BumpKeepsPositive(chart[1..], key);
    }
  }

  /** The store: the task list and the day count the setters write. */
  datatype EchartState = EchartState(gainQuantity: seq<Task>, gainQuantityDay: int)

  /** `setGainQuantity`: the task list is replaced; the day count stays. */
  function SetGainQuantity(s: EchartState, tasks: seq<Task>): (r: EchartState)
    ensures r.gainQuantity == tasks && r.gainQuantityDay == s.gainQuantityDay
  {
    s.(gainQuantity := tasks)
  }

  /** `setGainQuantity_day`: the day count is replaced; the task list stays. */
  function SetGainQuantityDay(s: EchartState, n: int): (r: EchartState)
    ensures r.gainQuantityDay == n && r.gainQuantity == s.gainQuantity
  {
    s.(gainQuantityDay := n)
  }
}
