/**
 * The lightweight-server API client: how a query is flattened into the
 * `Name.index` parameters the API expects, the request bodies of the
 * instance actions, the payload actually signed (the request without its
 * Action and Version, which travel as headers), and the layout of the
 * TC3-HMAC-SHA256 signature. Hashing, the HTTP call, `JSON.stringify` and
 * date formatting are parameters.
 */
module TencentCloud {
  import opened Base
  import opened Strings
  import opened Seqs
  import opened JsonValues
  import opened JsObjects

  const API_VERSION := "2020-03-24"
  const API_HOST := "lighthouse.tencentcloudapi.com"
  const DEFAULT_REGION := "ap-guangzhou"
  const SUPPORTED_REGIONS := ["ap-guangzhou"]
  const DEFAULT_LIMIT := 100

  /** A parsed reply object. */
  type Fields = map<string, Json>

  datatype Filter = Filter(name: string, values: seq<string>)

  datatype InstanceQuery = InstanceQuery(
    instanceIds: Option<seq<string>>, filters: Option<seq<Filter>>,
    offset: Option<int>, limit: Option<int>, orderField: Option<string>, order: Option<string>,
    region: Option<string>)

  /** `params.region || config.region`. */
  function RegionFor(region: Option<string>): (r: string)
    ensures region.Some? && region.value != "" ==> r == region.value
    ensures region.None? || region.value == "" ==> r == DEFAULT_REGION
  {
    if region.Some? && region.value != "" then region.value else DEFAULT_REGION
  }

  function IdKey(i: nat): (r: string)
    ensures |r| > 0 && r[0] == 'I'
  {
    "InstanceIds." + NatToString(i)
  }

  function FilterNameKey(f: nat): (r: string)
    ensures |r| > 0 && r[0] == 'F'
  {
    "Filters." + NatToString(f) + ".Name"
  }

  function FilterValueKey(f: nat, j: nat): (r: string)
    ensures |r| > 0 && r[0] == 'F'
  {
    "Filters." + NatToString(f) + ".Values." + NatToString(j)
  }

  /** Decimal digits only. */
  predicate IsDigits(s: string)
  {
    forall i :: 0 <= i < |s| ==> '0' <= s[i] <= '9'
  }

  /** The number written after the twelve characters of "InstanceIds.", or -1. */
  function IdIndex(k: string): int
  {
    if |k| >= 12 && IsDigits(k[12..]) then DigitsValue(k[12..]) else -1
  }

  lemma IdIndexOf(i: nat)
    ensures IdIndex(IdKey(i)) == i
  {
    assert IdKey(i)[12..] == NatToString(i);
    NatToStringRoundTrip(i);
  }

  /** The filter number of a "Filters.<f>.…" key: the digits between the eighth character and the next '.', or -1. */
  function FilterIndex(k: string): int
  {
    if |k| < 8 then -1
    else
      var t := k[8..];
      var p := IndexOf(t, ".");
      if p < 0 || !IsDigits(t[..p]) then -1 else DigitsValue(t[..p])
  }

  lemma FilterIndexOf(g: nat, rest: string)
    ensures FilterIndex("Filters." + NatToString(g) + "." + rest) == g
  {
    var d := NatToString(g);
    var k := "Filters." + d + "." + rest;
    assert k[8..] == d + "." + rest;
    IndexOfAfter(d, ".", rest);
    assert (d + "." + rest)[..|d|] == d;
    NatToStringRoundTrip(g);
  }

  /** The number after the last '.', or -1 when that piece is not a number. */
  function ValueIndex(k: string): int
  {
    var p := LastPiece(k, {'.'});
    if IsDigits(p) then DigitsValue(p) else -1
  }

  /** Every key of filter `g` decodes to `g`; value keys decode to their value number, the name key to none. */
  lemma FilterKeysDecode(g: nat, j: nat)
    ensures FilterIndex(FilterNameKey(g)) == g && FilterIndex(FilterValueKey(g, j)) == g
    ensures ValueIndex(FilterValueKey(g, j)) == j && ValueIndex(FilterNameKey(g)) == -1
  {
    NameKeyDecodes(g);
    ValueKeyDecodes(g, j);
  }

  lemma NameKeyDecodes(g: nat)
    ensures FilterIndex(FilterNameKey(g)) == g && ValueIndex(FilterNameKey(g)) == -1
  {
    var d := NatToString(g);
    assert FilterNameKey(g) == "Filters." + d + "." + "Name";
    FilterIndexOf(g, "Name");
    assert FilterNameKey(g) == ("Filters." + d) + ['.'] + "Name";
    LastPieceAfter("Filters." + d, '.', "Name", {'.'});
    assert "Name"[0] == 'N';
  }

  lemma ValueKeyDecodes(g: nat, j: nat)
    ensures FilterIndex(FilterValueKey(g, j)) == g && ValueIndex(FilterValueKey(g, j)) == j
  {
    ValueKeyFilter(g, j);
    ValueKeyValue(g, j);
  }

  /** Splitting the middle piece `c` of a key into `c1` and `c2`, regrouped either way. */
  lemma SplitMiddle(a: string, b: string, c: string, c1: string, c2: string, n: string)
    requires c == c1 + c2
    ensures a + b + c + n == a + b + c1 + (c2 + n)
    ensures a + b + c + n == (a + b + c1) + c2 + n
  {
  }

  lemma ValueKeyFilter(g: nat, j: nat)
    ensures FilterIndex(FilterValueKey(g, j)) == g
  {
    var n := NatToString(j);
    assert ".Values." == "." + "Values.";
    SplitMiddle("Filters.", NatToString(g), ".Values.", ".", "Values.", n);
    FilterIndexOf(g, "Values." + n);
  }

  lemma ValueKeyValue(g: nat, j: nat)
    ensures ValueIndex(FilterValueKey(g, j)) == j
  {
    var front := "Filters." + NatToString(g) + ".Values";
    var n := NatToString(j);
    assert ".Values." == ".Values" + ['.'];
    SplitMiddle("Filters.", NatToString(g), ".Values.", ".Values", ['.'], n);
    LastPieceAfter(front, '.', n, {'.'});
    NatToStringRoundTrip(j);
  }

  /** The ids and filters a query carries; an absent list counts as empty. */
  function IdsOf(q: InstanceQuery): seq<string> { q.instanceIds.GetOr([]) }
  function FiltersOf(q: InstanceQuery): seq<Filter> { q.filters.GetOr([]) }

  /** `InstanceIds.i` for each id, in order. */
  function IdEntries(ids: seq<string>): (r: Obj)
    ensures |r| == |ids|
    ensures forall i :: 0 <= i < |ids| ==> r[i] == (IdKey(i), JStr(ids[i]))
  {
    seq(|ids|, i requires 0 <= i < |ids| => (IdKey(i), JStr(ids[i])))
  }

  /** `Filters.f.Values.j` for each value of filter `f`, in order. */
  function ValueEntries(f: nat, values: seq<string>): (r: Obj)
    ensures |r| == |values|
    ensures forall j :: 0 <= j < |values| ==> r[j] == (FilterValueKey(f, j), JStr(values[j]))
  {
    seq(|values|, j requires 0 <= j < |values| => (FilterValueKey(f, j), JStr(values[j])))
  }

  /** The parameters of filter `f`: its name, then its values. */
  function Block(f: nat, flt: Filter): Obj
  {
    [(FilterNameKey(f), JStr(flt.name))] + ValueEntries(f, flt.values)
  }

  /** The parameters of the filters from number `f` on. */
  function FilterEntries(filters: seq<Filter>, f: nat): Obj
    requires f <= |filters|
    decreases |filters| - f
  {
    if f == |filters| then [] else Block(f, filters[f]) + FilterEntries(filters, f + 1)
  }

  /** Offset and Limit whenever given (0 included), OrderField and Order only when non-empty. */
  function OptionEntries(q: InstanceQuery): Obj
  {
    Opt(q.offset.Some?, "Offset", JNum(q.offset.GetOr(0)))
    + (Opt(q.limit.Some?, "Limit", JNum(q.limit.GetOr(0)))
    + (Opt(q.orderField.Some? && q.orderField.value != "", "OrderField", JStr(q.orderField.GetOr("")))
    + Opt(q.order.Some? && q.order.value != "", "Order", JStr(q.order.GetOr("")))))
  }

  /** What `prepareParams` produces, declaratively: the ids, then each filter, then the options. */
  function ParamEntries(q: InstanceQuery): Obj
  {
    IdEntries(IdsOf(q)) + FilterEntries(FiltersOf(q), 0) + OptionEntries(q)
  }

  lemma IdEntriesDistinct(ids: seq<string>)
    ensures DistinctKeys(IdEntries(ids))
  {
    var e := IdEntries(ids);
    forall i, j | 0 <= i < j < |e| ensures e[i].0 != e[j].0 {
      IdIndexOf(i);
      IdIndexOf(j);
    }
    DistinctKeysIndex(e);
  }

  lemma BlockDistinct(f: nat, flt: Filter)
    ensures DistinctKeys(Block(f, flt))
    ensures forall i :: 0 <= i < |Block(f, flt)| ==> FilterIndex(Block(f, flt)[i].0) == f && Block(f, flt)[i].0[0] == 'F'
  {
    var b := Block(f, flt);
    forall i | 0 <= i < |b| ensures ValueIndex(b[i].0) == i - 1 && FilterIndex(b[i].0) == f && b[i].0[0] == 'F' {
      FilterKeysDecode(f, if i == 0 then 0 else i - 1);
    }
    DistinctKeysIndex(b);
  }

  /** The filter parameters have distinct keys, each naming a filter numbered `f` or later. */
  lemma {:induction false} FilterEntriesDistinct(filters: seq<Filter>, f: nat)
    requires f <= |filters|
    ensures DistinctKeys(FilterEntries(filters, f))
    ensures forall i :: 0 <= i < |FilterEntries(filters, f)| ==>
      FilterIndex(FilterEntries(filters, f)[i].0) >= f && FilterEntries(filters, f)[i].0[0] == 'F'
    decreases |filters| - f
  {
    if f < |filters| {
      var b := Block(f, filters[f]);
      var rest := FilterEntries(filters, f + 1);
      BlockDistinct(f, filters[f]);
      FilterEntriesDistinct(filters, f + 1);
      DistinctKeysJoin(b, rest);
    }
  }

  /** The four option names. */
  predicate IsOptionKey(k: string)
  {
    k == "Offset" || k == "Limit" || k == "OrderField" || k == "Order"
  }

  /** The options have distinct keys among the four option names, and a Limit option holds the query's limit. */
  lemma OptionEntriesShape(q: InstanceQuery)
    ensures DistinctKeys(OptionEntries(q))
    ensures forall i :: 0 <= i < |OptionEntries(q)| ==> IsOptionKey(OptionEntries(q)[i].0)
    ensures KeysStartWith(OptionEntries(q), {'O', 'L'})
    ensures forall i :: 0 <= i < |OptionEntries(q)| && OptionEntries(q)[i].0 == "Limit" ==>
      q.limit.Some? && OptionEntries(q)[i].1 == JNum(q.limit.value)
  {
    OptionKeysDistinct(q);
    var o := OptionEntries(q);
    forall i | 0 <= i < |o|
      ensures IsOptionKey(o[i].0) && |o[i].0| > 0 && o[i].0[0] in {'O', 'L'}
      ensures o[i].0 == "Limit" ==> q.limit.Some? && o[i].1 == JNum(q.limit.value)
    {
      assert o[i] in o;
      OptionMember(q, o[i]);
    }
  }

  /** An option property is one of the four; Offset and Limit are present only when given. */
  lemma OptionMember(q: InstanceQuery, e: (string, Json))
    requires e in OptionEntries(q)
    ensures || (q.offset.Some? && e == ("Offset", JNum(q.offset.value)))
            || (q.limit.Some? && e == ("Limit", JNum(q.limit.value)))
            || e == ("OrderField", JStr(q.orderField.GetOr("")))
            || e == ("Order", JStr(q.order.GetOr("")))
  {
  }

  /** The four option keys differ, so the options never repeat a key. */
  lemma OptionKeysDistinct(q: InstanceQuery)
    ensures DistinctKeys(OptionEntries(q))
  {
    var o1 := Opt(q.offset.Some?, "Offset", JNum(q.offset.GetOr(0)));
    var o2 := Opt(q.limit.Some?, "Limit", JNum(q.limit.GetOr(0)));
    var o3 := Opt(q.orderField.Some? && q.orderField.value != "", "OrderField", JStr(q.orderField.GetOr("")));
    var o4 := Opt(q.order.Some? && q.order.value != "", "Order", JStr(q.order.GetOr("")));
    assert DistinctKeys(o4);
    OptLacks(q.order.Some? && q.order.value != "", "Order", JStr(q.order.GetOr("")), "OrderField");
    OptFront(q.orderField.Some? && q.orderField.value != "", "OrderField", JStr(q.orderField.GetOr("")), o4);
    OptLacks(q.orderField.Some? && q.orderField.value != "", "OrderField", JStr(q.orderField.GetOr("")), "Limit");
    OptLacks(q.order.Some? && q.order.value != "", "Order", JStr(q.order.GetOr("")), "Limit");
    HasKeyAppend(o3, o4, "Limit");
    OptFront(q.limit.Some?, "Limit", JNum(q.limit.GetOr(0)), o3 + o4);
    OptLacks(q.limit.Some?, "Limit", JNum(q.limit.GetOr(0)), "Offset");
    OptLacks(q.orderField.Some? && q.orderField.value != "", "OrderField", JStr(q.orderField.GetOr("")), "Offset");
    OptLacks(q.order.Some? && q.order.value != "", "Order", JStr(q.order.GetOr("")), "Offset");
    HasKeyAppend(o3, o4, "Offset");
    HasKeyAppend(o2, o3 + o4, "Offset");
    OptFront(q.offset.Some?, "Offset", JNum(q.offset.GetOr(0)), o2 + (o3 + o4));
  }

  /** A guarded property in front of properties without its key keeps the keys distinct. */
  lemma OptFront(p: bool, k: string, v: Json, b: Obj)
    requires DistinctKeys(b) && !HasKey(b, k)
    ensures DistinctKeys(Opt(p, k, v) + b)
  {
    if p {
      assert ([(k, v)] + b)[1..] == b;
    } else {
      assert [] + b == b;
    }
  }

  /** Every key of `o` is non-empty and begins with one of `letters`. */
  ghost predicate KeysStartWith(o: Obj, letters: set<char>)
  {
    forall i :: 0 <= i < |o| ==> |o[i].0| > 0 && o[i].0[0] in letters
  }

  lemma KeysStartWithAppend(a: Obj, b: Obj, la: set<char>, lb: set<char>)
    requires KeysStartWith(a, la) && KeysStartWith(b, lb)
    ensures KeysStartWith(a + b, la + lb)
  {
    forall i | 0 <= i < |a + b| ensures |(a + b)[i].0| > 0 && (a + b)[i].0[0] in la + lb {
      if i < |a| {
        assert (a + b)[i] == a[i];
      } else {
        assert (a + b)[i] == b[i - |a|];
      }
    }
  }

  /** Id keys start with 'I' and filter keys with 'F'. */
  lemma ParamKeyLetters(q: InstanceQuery)
    ensures KeysStartWith(IdEntries(IdsOf(q)) + FilterEntries(FiltersOf(q), 0), {'I', 'F'})
  {
    var ids := IdEntries(IdsOf(q));
    var fs := FilterEntries(FiltersOf(q), 0);
    assert KeysStartWith(ids, {'I'});
    FilterEntriesDistinct(FiltersOf(q), 0);
    assert KeysStartWith(fs, {'F'});
    KeysStartWithAppend(ids, fs, {'I'}, {'F'});
    assert {'I'} + {'F'} == {'I', 'F'};
  }

  /** The keys `prepareParams` writes are distinct. */
  lemma ParamKeysDistinct(q: InstanceQuery)
    ensures DistinctKeys(ParamEntries(q))
  {
    var ids := IdEntries(IdsOf(q));
    var fs := FilterEntries(FiltersOf(q), 0);
    var os := OptionEntries(q);
    assert DistinctKeys(ids + fs) by {
      IdEntriesDistinct(IdsOf(q));
      FilterEntriesDistinct(FiltersOf(q), 0);
      forall i, j | 0 <= i < |ids| && 0 <= j < |fs| ensures ids[i].0 != fs[j].0 {
        assert ids[i].0[0] == 'I' && fs[j].0[0] == 'F';
      }
      DistinctKeysJoin(ids, fs);
    }
    OptionEntriesShape(q);
    ParamKeyLetters(q);
    forall i, j | 0 <= i < |ids + fs| && 0 <= j < |os| ensures (ids + fs)[i].0 != os[j].0 {
      var k := (ids + fs)[i].0;
      assert k[0] == 'I' || k[0] == 'F';
      assert os[j].0[0] in {'O', 'L'};
    }
    DistinctKeysJoin(ids + fs, os);
  }

  /**
   * `prepareParams`, as the source writes it: assignments of each id, each
   * filter's name and values, and the options, into an empty object.
   * Every key is new when it is assigned, so the result lists the entries
   * of `ParamEntries` in that order, with no key twice.
   */
  method PrepareParams(q: InstanceQuery) returns (r: Obj)
    ensures r == ParamEntries(q)
    ensures DistinctKeys(r)
  {
    var ids := IdsOf(q);
    var filters := FiltersOf(q);
    ghost var ie := IdEntries(ids);
    ghost var fe := FilterEntries(filters, 0);
    ghost var oe := OptionEntries(q);
    ParamKeysDistinct(q);
    assert DistinctKeys(ie + fe + oe);
    r := [];
    if q.instanceIds.Some? && |q.instanceIds.value| > 0 {
      EmptyPrefix(ie, fe, oe);
      r := AssignIds(r, ids, fe + oe);
    } else {
      assert |ie| == 0;
    }
    assert r == ie;
    if q.filters.Some? && |q.filters.value| > 0 {
      r := AssignFilters(r, filters, oe);
    } else {
      assert filters == [] && fe == [];
      assert r + fe == r;
    }
    r := AssignOptions(r, q);
  }

  /** An empty front adds nothing to a concatenation. */
  lemma EmptyPrefix<T>(a: seq<T>, b: seq<T>, c: seq<T>)
    ensures [] + a + (b + c) == a + b + c
  {
  }

  /** The id loop: `result[`InstanceIds.${index}`] = id` for each id. */
  method AssignIds(r0: Obj, ids: seq<string>, ghost rest: Obj) returns (r: Obj)
    requires DistinctKeys(r0 + IdEntries(ids) + rest)
    ensures r == r0 + IdEntries(ids)
  {
    r := r0;
    var i := 0;
    while i < |ids|
      invariant 0 <= i <= |ids|
      invariant r == r0 + IdEntries(ids)[..i]
    {
      PutNext(r0, IdEntries(ids), i, rest);
      r := Put(r, IdKey(i), JStr(ids[i]));
      i := i + 1;
    }
  }

  /** The filter loop: each filter's name, then its values. */
  method AssignFilters(r0: Obj, filters: seq<Filter>, ghost rest: Obj) returns (r: Obj)
    requires DistinctKeys(r0 + FilterEntries(filters, 0) + rest)
    ensures r == r0 + FilterEntries(filters, 0)
  {
    r := r0;
    var f := 0;
    while f < |filters|
      invariant 0 <= f <= |filters|
      invariant r + FilterEntries(filters, f) == r0 + FilterEntries(filters, 0)
    {
      assert FilterEntries(filters, f) == Block(f, filters[f]) + FilterEntries(filters, f + 1);
      ShiftBlock(r, Block(f, filters[f]), FilterEntries(filters, f + 1), rest, r0 + FilterEntries(filters, 0));
      r := AssignFilter(r, f, filters[f], FilterEntries(filters, f + 1) + rest);
      f := f + 1;
    }
  }

  /** Moving the next block from what is to come to what is written. */
  lemma ShiftBlock<T>(x: seq<T>, b: seq<T>, c: seq<T>, rest: seq<T>, y: seq<T>)
    requires x + (b + c) == y
    ensures x + b + (c + rest) == y + rest
    ensures (x + b) + c == y
  {
  }

  /** One filter: its name, then its values. */
  method AssignFilter(r0: Obj, f: nat, flt: Filter, ghost rest: Obj) returns (r: Obj)
    requires DistinctKeys(r0 + Block(f, flt) + rest)
    ensures r == r0 + Block(f, flt)
  {
    var head := [(FilterNameKey(f), JStr(flt.name))];
    var ve := ValueEntries(f, flt.values);
    Regroup4(r0, head, ve, rest);
    FreshHead(r0, head + (ve + rest));
    r := Put(r0, FilterNameKey(f), JStr(flt.name));
    r := AssignValues(r, f, flt.values, rest);
  }

  /** The three groupings of four consecutive parts. */
  lemma Regroup4<T>(a: seq<T>, b: seq<T>, c: seq<T>, d: seq<T>)
    ensures a + (b + (c + d)) == a + (b + c) + d
    ensures (a + b) + c + d == a + (b + c) + d
  {
  }

  /** The inner loop: `result[`Filters.${filterIndex}.Values.${valueIndex}`] = value`. */
  method AssignValues(r0: Obj, f: nat, values: seq<string>, ghost rest: Obj) returns (r: Obj)
    requires DistinctKeys(r0 + ValueEntries(f, values) + rest)
    ensures r == r0 + ValueEntries(f, values)
  {
    r := r0;
    var j := 0;
    while j < |values|
      invariant 0 <= j <= |values|
      invariant r == r0 + ValueEntries(f, values)[..j]
    {
      PutNext(r0, ValueEntries(f, values), j, rest);
      r := Put(r, FilterValueKey(f, j), JStr(values[j]));
      j := j + 1;
    }
  }

  /** The four option assignments, each under its condition. */
  method AssignOptions(r0: Obj, q: InstanceQuery) returns (r: Obj)
    requires DistinctKeys(r0 + OptionEntries(q))
    ensures r == r0 + OptionEntries(q)
  {
    var oField := Opt(q.orderField.Some? && q.orderField.value != "", "OrderField", JStr(q.orderField.GetOr("")));
    var oOrder := Opt(q.order.Some? && q.order.value != "", "Order", JStr(q.order.GetOr("")));
    var oLimit := Opt(q.limit.Some?, "Limit", JNum(q.limit.GetOr(0)));
    r := AssignOpt(r0, q.offset.Some?, "Offset", JNum(q.offset.GetOr(0)), oLimit + (oField + oOrder));
    r := AssignOpt(r, q.limit.Some?, "Limit", JNum(q.limit.GetOr(0)), oField + oOrder);
    r := AssignOpt(r, q.orderField.Some? && q.orderField.value != "", "OrderField", JStr(q.orderField.GetOr("")), oOrder);
    assert oOrder + [] == oOrder;
    r := AssignOpt(r, q.order.Some? && q.order.value != "", "Order", JStr(q.order.GetOr("")), []);
    assert r + [] == r;
  }

  /**
   * One guarded assignment `if (present) result[k] = v`, with `rest` the
   * entries still to come: what is written so far followed by what is still
   * to come is unchanged, and keeps distinct keys.
   */
  method AssignOpt(r0: Obj, present: bool, k: string, v: Json, ghost rest: Obj) returns (r: Obj)
    requires DistinctKeys(r0 + (Opt(present, k, v) + rest))
    ensures r + rest == r0 + (Opt(present, k, v) + rest)
    ensures r == r0 + Opt(present, k, v)
    ensures DistinctKeys(r + rest)
  {
    r := r0;
    if present {
      FreshHead(r0, [(k, v)] + rest);
      r := Put(r0, k, v);
      assert r + rest == r0 + ([(k, v)] + rest);
    } else {
      assert Opt(present, k, v) + rest == rest;
    }
  }

  /** `params.limit ?? 100`. */
  function LimitOr(limit: Option<int>): int
  {
    if limit.Some? then limit.value else DEFAULT_LIMIT
  }

  /** Action, Version and the defaulted Limit, before the query's parameters are spread over them. */
  function DescribeBase(q: InstanceQuery): Obj
  {
    [("Action", JStr("DescribeInstances")), ("Version", JStr(API_VERSION)), ("Limit", JNum(LimitOr(q.limit)))]
  }

  /** The DescribeInstances request of `getInstances`: `{Action, Version, Limit, ...prepareParams(params)}`. */
  function DescribeRequest(q: InstanceQuery): Obj
  {
    Assign(DescribeBase(q), ParamEntries(q))
  }

  /** `buildRequestPayload`: a copy of the request without Action and Version, which travel as headers. */
  function RequestPayload(data: Obj): Obj
  {
    Without(data, ["Action", "Version"])
  }

  /** No key `prepareParams` writes is Action or Version, and a Limit it writes holds the query's limit. */
  lemma ParamEntriesKeys(q: InstanceQuery)
    ensures forall i :: 0 <= i < |ParamEntries(q)| ==> ParamEntries(q)[i].0 !in ["Action", "Version"]
    ensures forall i :: 0 <= i < |ParamEntries(q)| && ParamEntries(q)[i].0 == "Limit" ==>
      q.limit.Some? && ParamEntries(q)[i].1 == JNum(q.limit.value)
  {
    var both: Obj := IdEntries(IdsOf(q)) + FilterEntries(FiltersOf(q), 0);
    var os := OptionEntries(q);
    ParamKeyLetters(q);
    LetterKeysSafe(both, q.limit);
    OptionKeysSafe(q);
    SafeKeysAppend(both, os, q.limit);
    assert ParamEntries(q) == both + os;
  }

  /** No key is Action or Version, and a Limit property holds `limit`. */
  ghost predicate SafeKeys(o: Obj, limit: Option<int>)
  {
    forall i :: 0 <= i < |o| ==>
      o[i].0 !in ["Action", "Version"] && (o[i].0 == "Limit" ==> limit.Some? && o[i].1 == JNum(limit.value))
  }

  lemma SafeKeysAppend(a: Obj, b: Obj, limit: Option<int>)
    requires SafeKeys(a, limit) && SafeKeys(b, limit)
    ensures SafeKeys(a + b, limit)
  {
    forall i | 0 <= i < |a + b|
      ensures (a + b)[i].0 !in ["Action", "Version"]
      ensures (a + b)[i].0 == "Limit" ==> limit.Some? && (a + b)[i].1 == JNum(limit.value)
    {
      if i < |a| {
        assert (a + b)[i] == a[i];
      } else {
        assert (a + b)[i] == b[i - |a|];
      }
    }
  }

  /** Keys beginning with 'I' or 'F' are none of Action, Version and Limit. */
  lemma LetterKeysSafe(o: Obj, limit: Option<int>)
    requires KeysStartWith(o, {'I', 'F'})
    ensures SafeKeys(o, limit)
  {
    forall i | 0 <= i < |o| ensures o[i].0 != "Action" && o[i].0 != "Version" && o[i].0 != "Limit" {
      assert o[i].0[0] in {'I', 'F'};
    }
  }

  lemma OptionKeysSafe(q: InstanceQuery)
    ensures SafeKeys(OptionEntries(q), q.limit)
  {
    var os := OptionEntries(q);
    OptionEntriesShape(q);
    forall i | 0 <= i < |os| ensures os[i].0 !in ["Action", "Version"] {
      assert IsOptionKey(os[i].0);
    }
  }

  /**
   * The signed body of a DescribeInstances call: Limit first, holding the
   * query's limit or 100, then every other parameter of the query in the
   * order `prepareParams` wrote it.
   */
  lemma DescribePayload(q: InstanceQuery)
    ensures RequestPayload(DescribeRequest(q)) == [("Limit", JNum(LimitOr(q.limit)))] + Without(ParamEntries(q), ["Limit"])
  {
    var base := DescribeBase(q);
    var w := Without(ParamEntries(q), ["Limit"]);
    DescribeAssign(q);
    DescribeBodyKeys(q);
    DescribeBaseWithout(q);
    WithoutAppend(base, w, ["Action", "Version"]);
  }

  /** Spreading the parameters over the base object keeps the base and appends every parameter but Limit. */
  lemma DescribeAssign(q: InstanceQuery)
    ensures DescribeRequest(q) == DescribeBase(q) + Without(ParamEntries(q), ["Limit"])
  {
    var base := DescribeBase(q);
    var all := ParamEntries(q);
    var limit := ("Limit", JNum(LimitOr(q.limit)));
    ParamKeysDistinct(q);
    ParamEntriesKeys(q);
    assert KeysOf(base) == ["Action", "Version", "Limit"];
    assert base[1..][1..] == [limit] && base[1..][1..][1..] == [];
    assert Get(base[1..][1..], "Limit") == Some(limit.1);
    assert Get(base[1..], "Limit") == Get(base[1..][1..], "Limit");
    assert Get(base, "Limit") == Some(limit.1);
    forall i | 0 <= i < |all| && HasKey(base, all[i].0) ensures Get(base, all[i].0) == Some(all[i].1) {
      KeysOfHasKey(base, all[i].0);
      assert all[i].0 == "Limit";
    }
    AssignAppends(base, all);
    WithoutAgree(all, KeysOf(base), ["Limit"]);
  }

  /** No parameter left after dropping Limit is a header key. */
  lemma DescribeBodyKeys(q: InstanceQuery)
    ensures Without(Without(ParamEntries(q), ["Limit"]), ["Action", "Version"]) == Without(ParamEntries(q), ["Limit"])
  {
    var all := ParamEntries(q);
    var w := Without(all, ["Limit"]);
    ParamEntriesKeys(q);
    forall i | 0 <= i < |w| ensures w[i].0 !in ["Action", "Version"] {
      assert HasKey(w, w[i].0) by { HasKeyIndex(w, w[i].0); }
      HasKeyIndex(all, w[i].0);
    }
    WithoutNothing(w, ["Action", "Version"]);
  }

  /** Of the base object only Limit survives the payload. */
  lemma DescribeBaseWithout(q: InstanceQuery)
    ensures Without(DescribeBase(q), ["Action", "Version"]) == [("Limit", JNum(LimitOr(q.limit)))]
  {
    var base := DescribeBase(q);
    var limit := ("Limit", JNum(LimitOr(q.limit)));
    assert base[1..][1..] == [limit] && base[1..][1..][1..] == [];
    assert Without([limit], ["Action", "Version"]) == [limit];
  }

  /** Removing Action and Version twice is removing them once. */
  lemma PayloadIdempotent(data: Obj)
    ensures RequestPayload(RequestPayload(data)) == RequestPayload(data)
  {
    WithoutNothing(RequestPayload(data), ["Action", "Version"]);
  }

  datatype InstanceAction = Reboot | Isolate | Terminate

  /** The error each action raises for an empty id list, before any request. */
  function NoIdsMessage(a: InstanceAction): (r: string)
  {
    match a
    case Reboot => "重启实例失败: 未提供实例ID"
    case Isolate => "隔离实例失败: 未提供实例ID"
    case Terminate => "销毁实例失败: 未提供实例ID"
  }

  function ActionName(a: InstanceAction): string
  {
    match a
    case Reboot => "RebootInstances"
    case Isolate => "IsolateInstances"
    case Terminate => "TerminateInstances"
  }

  /**
   * The request of reboot, isolate and terminate: refused for an empty id
   * list; otherwise Action, Version and the ids as an array, and for
   * isolation also the instruction to return the data disks.
   */
  function ActionRequest(a: InstanceAction, ids: seq<string>): (r: Result<Obj>)
    ensures r.Err? <==> ids == []
    ensures r.Err? ==> r.msg == NoIdsMessage(a)
    ensures r.Ok? ==> Get(r.value, "Action") == Some(JStr(ActionName(a))) && Get(r.value, "Version") == Some(JStr(API_VERSION))
    ensures r.Ok? ==> DistinctKeys(r.value)
  {
    if ids == [] then Err(NoIdsMessage(a))
    else
      var o := [("Action", JStr(ActionName(a))), ("Version", JStr(API_VERSION)), ("InstanceIds", StringArray(ids))]
        + (if a == Isolate then [("IsolateDataDisk", JBool(true))] else []);
      DistinctKeysIndex(o);
      Ok(o)
  }

  /** The signed body of an instance action: the ids, and for isolation the data-disk flag after them. */
  lemma ActionPayload(a: InstanceAction, ids: seq<string>)
    requires ids != []
    ensures RequestPayload(ActionRequest(a, ids).value) ==
      [("InstanceIds", StringArray(ids))] + (if a == Isolate then [("IsolateDataDisk", JBool(true))] else [])
  {
    var body := [("InstanceIds", StringArray(ids))] + (if a == Isolate then [("IsolateDataDisk", JBool(true))] else []);
    assert ActionRequest(a, ids).value == Headers(ActionName(a)) + body;
    assert !HasKey(body, "Action") && !HasKey(body, "Version") by {
      HasKeyIndex(body, "Action");
      HasKeyIndex(body, "Version");
    }
    PayloadAfterHeaders(ActionName(a), body);
  }

  datatype CreateParams = CreateParams(
    bundleId: string, blueprintId: string, chargePrepaid: Json,
    instanceName: Option<string>, firewallTemplateId: Option<string>, dryRun: Option<bool>,
    loginConfiguration: Option<Json>, region: Option<string>)

  /** One property when `present`, none otherwise. */
  function Opt(present: bool, k: string, v: Json): Obj
  {
    if present then [(k, v)] else []
  }

  /** `if (present) o[k] = v`: on a key `o` lacks, the property is appended exactly when present. */
  function PutIf(o: Obj, present: bool, k: string, v: Json): (r: Obj)
    ensures !HasKey(o, k) ==> r == o + Opt(present, k, v)
    ensures HasKey(r, k) <==> HasKey(o, k) || present
  {
    if present then Put(o, k, v)
    else
      assert o + [] == o;
      o
  }

  /** The three properties every create request carries. */
  function CreateRequired(p: CreateParams): Obj
  {
    [("BundleId", JStr(p.bundleId)), ("BlueprintId", JStr(p.blueprintId)), ("InstanceChargePrepaid", p.chargePrepaid)]
  }

  /**
   * `createInstances`: the object literal with Action, Version and the
   * three required fields, then assignments of the name and firewall
   * template only when non-empty, DryRun whenever given (false included),
   * and the login configuration when truthy.
   */
  function CreateRequest(p: CreateParams): Obj
  {
    var a := [("Action", JStr("CreateInstances")), ("Version", JStr(API_VERSION))] + CreateRequired(p);
    var b := PutIf(a, p.instanceName.Some? && p.instanceName.value != "", "InstanceName", JStr(p.instanceName.GetOr("")));
    var c := PutIf(b, p.firewallTemplateId.Some? && p.firewallTemplateId.value != "", "FirewallTemplateId", JStr(p.firewallTemplateId.GetOr("")));
    var d := PutIf(c, p.dryRun.Some?, "DryRun", JBool(p.dryRun.GetOr(false)));
    PutIf(d, p.loginConfiguration.Some? && Truthy(p.loginConfiguration.value), "LoginConfiguration", p.loginConfiguration.GetOr(JNull))
  }

  /** The optional properties of a create request, in the order they are assigned. */
  function CreateOptional(p: CreateParams): Obj
  {
    Opt(p.instanceName.Some? && p.instanceName.value != "", "InstanceName", JStr(p.instanceName.GetOr("")))
    + Opt(p.firewallTemplateId.Some? && p.firewallTemplateId.value != "", "FirewallTemplateId", JStr(p.firewallTemplateId.GetOr("")))
    + Opt(p.dryRun.Some?, "DryRun", JBool(p.dryRun.GetOr(false)))
    + Opt(p.loginConfiguration.Some? && Truthy(p.loginConfiguration.value), "LoginConfiguration", p.loginConfiguration.GetOr(JNull))
  }

  /**
   * The signed body of a create call: the three required properties, then
   * each optional one that was set, in the order of assignment; Action and
   * Version are not part of it.
   */
  lemma CreatePayload(p: CreateParams)
    ensures RequestPayload(CreateRequest(p)) == CreateRequired(p) + CreateOptional(p)
    ensures Get(CreateRequest(p), "Action") == Some(JStr("CreateInstances"))
    ensures Get(CreateRequest(p), "Version") == Some(JStr(API_VERSION))
  {
    var body := CreateRequired(p) + CreateOptional(p);
    assert CreateRequest(p) == Headers("CreateInstances") + body by {
      CreateRequestShape(p);
    }
    CreateBodyKeys(p);
    PayloadAfterHeaders("CreateInstances", body);
  }

  /** The Action and Version properties every request object starts with. */
  function Headers(action: string): Obj
  {
    [("Action", JStr(action)), ("Version", JStr(API_VERSION))]
  }

  /** A request object is its two headers and a body with neither key: the payload is the body. */
  lemma PayloadAfterHeaders(action: string, body: Obj)
    requires !HasKey(body, "Action") && !HasKey(body, "Version")
    ensures RequestPayload(Headers(action) + body) == body
    ensures Get(Headers(action) + body, "Action") == Some(JStr(action))
    ensures Get(Headers(action) + body, "Version") == Some(JStr(API_VERSION))
  {
    var head := Headers(action);
    assert Without(head, ["Action", "Version"]) == [] by {
      assert head[1..][1..] == [];
      assert Without(head[1..], ["Action", "Version"]) == Without(head[1..][1..], ["Action", "Version"]);
    }
    assert Without(body, ["Action", "Version"]) == body by {
      HasKeyIndex(body, "Action");
      HasKeyIndex(body, "Version");
      WithoutNothing(body, ["Action", "Version"]);
    }
    WithoutAppend(head, body, ["Action", "Version"]);
    GetAppend(head, body, "Action");
    GetAppend(head, body, "Version");
    assert Get(head[1..], "Version") == Some(JStr(API_VERSION));
  }

  /** Neither header key is among the properties of a create call. */
  lemma CreateBodyKeys(p: CreateParams)
    ensures !HasKey(CreateRequired(p) + CreateOptional(p), "Action")
    ensures !HasKey(CreateRequired(p) + CreateOptional(p), "Version")
  {
    CreateBodyLacks(p, "Action");
    CreateBodyLacks(p, "Version");
  }

  /** One header key is neither a required nor an optional property of a create call. */
  lemma CreateBodyLacks(p: CreateParams, k: string)
    requires k == "Action" || k == "Version"
    ensures !HasKey(CreateRequired(p) + CreateOptional(p), k)
  {
    var req := CreateRequired(p);
    HasKeyIndex(req, k);
    FourOptsLack(
      p.instanceName.Some? && p.instanceName.value != "", "InstanceName", JStr(p.instanceName.GetOr("")),
      p.firewallTemplateId.Some? && p.firewallTemplateId.value != "", "FirewallTemplateId", JStr(p.firewallTemplateId.GetOr("")),
      p.dryRun.Some?, "DryRun", JBool(p.dryRun.GetOr(false)),
      p.loginConfiguration.Some? && Truthy(p.loginConfiguration.value), "LoginConfiguration", p.loginConfiguration.GetOr(JNull), k);
    HasKeyAppend(req, CreateOptional(p), k);
  }

  /** Four guarded properties lack every other key. */
  lemma FourOptsLack(p1: bool, k1: string, v1: Json, p2: bool, k2: string, v2: Json,
                     p3: bool, k3: string, v3: Json, p4: bool, k4: string, v4: Json, k: string)
    requires k != k1 && k != k2 && k != k3 && k != k4
    ensures !HasKey(Opt(p1, k1, v1) + Opt(p2, k2, v2) + Opt(p3, k3, v3) + Opt(p4, k4, v4), k)
  {
    var o1, o2, o3, o4 := Opt(p1, k1, v1), Opt(p2, k2, v2), Opt(p3, k3, v3), Opt(p4, k4, v4);
    OptLacks(p1, k1, v1, k);
    OptLacks(p2, k2, v2, k);
    OptLacks(p3, k3, v3, k);
    OptLacks(p4, k4, v4, k);
    HasKeyAppend(o1, o2, k);
    HasKeyAppend(o1 + o2, o3, k);
    HasKeyAppend(o1 + o2 + o3, o4, k);
  }

  /** The create request is the literal followed by the optional properties that were set. */
  lemma CreateRequestShape(p: CreateParams)
    ensures CreateRequest(p) == [("Action", JStr("CreateInstances")), ("Version", JStr(API_VERSION))] + CreateRequired(p) + CreateOptional(p)
  {
    var a := [("Action", JStr("CreateInstances")), ("Version", JStr(API_VERSION))] + CreateRequired(p);
    CreateLiteralKeys(p);
    FourPuts(a,
      p.instanceName.Some? && p.instanceName.value != "", "InstanceName", JStr(p.instanceName.GetOr("")),
      p.firewallTemplateId.Some? && p.firewallTemplateId.value != "", "FirewallTemplateId", JStr(p.firewallTemplateId.GetOr("")),
      p.dryRun.Some?, "DryRun", JBool(p.dryRun.GetOr(false)),
      p.loginConfiguration.Some? && Truthy(p.loginConfiguration.value), "LoginConfiguration", p.loginConfiguration.GetOr(JNull));
  }

  /** The object literal of a create call holds none of the optional keys. */
  lemma CreateLiteralKeys(p: CreateParams)
    ensures var a := [("Action", JStr("CreateInstances")), ("Version", JStr(API_VERSION))] + CreateRequired(p);
      !HasKey(a, "InstanceName") && !HasKey(a, "FirewallTemplateId") && !HasKey(a, "DryRun") && !HasKey(a, "LoginConfiguration")
  {
    var a := [("Action", JStr("CreateInstances")), ("Version", JStr(API_VERSION))] + CreateRequired(p);
    forall k | HasKey(a, k) ensures k in {"Action", "Version", "BundleId", "BlueprintId", "InstanceChargePrepaid"} {
      HasKeyIndex(a, k);
    }
  }

  /** Four guarded assignments of distinct keys new to `a` append the present ones in order. */
  lemma FourPuts(a: Obj, p1: bool, k1: string, v1: Json, p2: bool, k2: string, v2: Json,
                 p3: bool, k3: string, v3: Json, p4: bool, k4: string, v4: Json)
    requires !HasKey(a, k1) && !HasKey(a, k2) && !HasKey(a, k3) && !HasKey(a, k4)
    requires k1 != k2 && k1 != k3 && k1 != k4 && k2 != k3 && k2 != k4 && k3 != k4
    ensures PutIf(PutIf(PutIf(PutIf(a, p1, k1, v1), p2, k2, v2), p3, k3, v3), p4, k4, v4)
      == a + (Opt(p1, k1, v1) + Opt(p2, k2, v2) + Opt(p3, k3, v3) + Opt(p4, k4, v4))
  {
    var o1, o2, o3, o4 := Opt(p1, k1, v1), Opt(p2, k2, v2), Opt(p3, k3, v3), Opt(p4, k4, v4);
    var b := PutIf(a, p1, k1, v1);
    assert b == a + o1;
    var c := PutIf(b, p2, k2, v2);
    assert c == a + (o1 + o2) by {
      OptLacks(p1, k1, v1, k2);
      PutIfAfter(a, o1, p2, k2, v2);
    }
    var d := PutIf(c, p3, k3, v3);
    assert d == a + (o1 + o2 + o3) by {
      OptLacks(p1, k1, v1, k3);
      OptLacks(p2, k2, v2, k3);
      HasKeyAppend(o1, o2, k3);
      PutIfAfter(a, o1 + o2, p3, k3, v3);
    }
    assert PutIf(d, p4, k4, v4) == a + (o1 + o2 + o3 + o4) by {
      OptLacks(p1, k1, v1, k4);
      OptLacks(p2, k2, v2, k4);
      OptLacks(p3, k3, v3, k4);
      HasKeyAppend(o1, o2, k4);
      HasKeyAppend(o1 + o2, o3, k4);
      PutIfAfter(a, o1 + o2 + o3, p4, k4, v4);
    }
  }

  /** A guarded assignment of a key that neither `a` nor `done` holds extends `done`. */
  lemma PutIfAfter(a: Obj, done: Obj, p: bool, k: string, v: Json)
    requires !HasKey(a, k) && !HasKey(done, k)
    ensures PutIf(a + done, p, k, v) == a + (done + Opt(p, k, v))
  {
    HasKeyAppend(a, done, k);
    AppendAssoc(a, done, Opt(p, k, v));
  }

  /** A guarded property carries only its own key. */
  lemma OptLacks(p: bool, k: string, v: Json, other: string)
    requires k != other
    ensures !HasKey(Opt(p, k, v), other)
  {
  }

  /** A reply of the API: an error message, or the `Response` object. */
  datatype Reply = ApiError(message: string) | ApiResponse(body: Fields)

  /** `sendRequest`: an error inside the reply is raised as `API错误: …`. */
  function Send(reply: Reply): (r: Result<Fields>)
    ensures reply.ApiError? <==> r.Err?
    ensures reply.ApiError? ==> r.msg == "API错误: " + reply.message
    ensures reply.ApiResponse? ==> r.value == reply.body
  {
    match reply
    case ApiError(m) => Err("API错误: " + m)
    case ApiResponse(b) => Ok(b)
  }

  const VNC_PAGE := "https://img.qcloud.com/qcloud/app/active_vnc/index.html?InstanceVncUrl="

  /** `getInstanceVncUrl`: the VNC page with the returned address, or an error when there is none. */
  function VncUrl(reply: Result<Fields>): (r: Result<string>)
    ensures r.Ok? <==> reply.Ok? && "InstanceVncUrl" in reply.value && Truthy(reply.value["InstanceVncUrl"]) && reply.value["InstanceVncUrl"].JStr?
    ensures r.Ok? ==> r.value == VNC_PAGE + reply.value["InstanceVncUrl"].s
    ensures reply.Err? ==> r == Err(reply.msg)
  {
    match reply
    case Err(m) => Err(m)
    case Ok(body) =>
      if "InstanceVncUrl" in body && Truthy(body["InstanceVncUrl"]) && body["InstanceVncUrl"].JStr? then
        Ok(VNC_PAGE + body["InstanceVncUrl"].s)
      else Err("获取VNC URL失败")
  }

  /** `InstanceSet || []` and `InstanceIdSet || []`: a reply's list, or none. */
  function ListOf(body: Fields, name: string): (r: seq<Json>)
    ensures name in body && body[name].JArr? ==> r == body[name].items
    ensures name !in body || !Truthy(body[name]) ==> r == []
  {
    if name in body && body[name].JArr? then body[name].items else []
  }

  /** An instance as listed, tagged with its region. */
  function WithRegion(instance: Json, region: string): (r: Json)
    ensures instance.JObj? ==> r == JObj(instance.fields["Region" := JStr(region)])
    ensures !instance.JObj? ==> r == instance
  {
    if instance.JObj? then JObj(instance.fields["Region" := JStr(region)]) else instance
  }

  /**
   * `getAllRegionInstances`: for each supported region, its instances each
   * tagged with the region; a region whose query fails has none.
   */
  function AllRegionInstances(query: string -> Result<seq<Json>>): (r: map<string, seq<Json>>)
    ensures r.Keys == set g | g in SUPPORTED_REGIONS
    ensures forall g :: g in r && query(g).Err? ==> r[g] == []
    ensures forall g :: g in r && query(g).Ok? ==> r[g] == Map((i: Json) => WithRegion(i, g), query(g).value)
  {
    map g | g in SUPPORTED_REGIONS :: match query(g) case Err(_) => [] case Ok(xs) => Map((i: Json) => WithRegion(i, g), xs)
  }

  const CANONICAL_HEADERS := "content-type:application/json\nhost:" + API_HOST + "\n"
  const SIGNED_HEADERS := "content-type;host"
  const SERVICE := "lighthouse"
  const ALGORITHM := "TC3-HMAC-SHA256"

  /** The hash functions the signature is built from: SHA-256 as hex, HMAC-SHA256 keyed by the first argument, and hex encoding. */
  datatype Crypto = Crypto(sha256Hex: string -> string, hmac: (string, string) -> string, hex: string -> string)

  /** The intermediate texts of a signature and the Authorization header. */
  datatype Signed = Signed(canonicalRequest: string, credentialScope: string, stringToSign: string, authorization: string)

  function CanonicalRequest(payloadHash: string): string
  {
    Join(["POST", "/", "", CANONICAL_HEADERS, SIGNED_HEADERS, payloadHash], "\n")
  }

  function CredentialScope(date: string): string
  {
    date + "/" + SERVICE + "/tc3_request"
  }

  /**
   * `sign` (steps 1 to 4 of the TC3-HMAC-SHA256 signature version 3): the
   * canonical request over the payload's hash, the credential scope of
   * the day, the string to sign, the derived signing key, and the header.
   * `date` is the UTC day of `timestamp` and `payloadJson` the serialised
   * payload.
   */
  function Sign(c: Crypto, secretId: string, secretKey: string, timestamp: int, date: string, payloadJson: string): (r: Signed)
    ensures r.canonicalRequest == CanonicalRequest(c.sha256Hex(payloadJson))
    ensures r.credentialScope == CredentialScope(date)
    ensures r.stringToSign == Join([ALGORITHM, IntToString(timestamp), r.credentialScope, c.sha256Hex(r.canonicalRequest)], "\n")
    ensures StartsWith(r.authorization, ALGORITHM + " Credential=" + secretId + "/" + r.credentialScope + ", SignedHeaders=" + SIGNED_HEADERS + ", Signature=")
    ensures r.authorization == ALGORITHM + " Credential=" + secretId + "/" + r.credentialScope + ", SignedHeaders=" + SIGNED_HEADERS
      + ", Signature=" + c.hex(c.hmac(c.hmac(c.hmac(c.hmac("TC3" + secretKey, date), SERVICE), "tc3_request"), r.stringToSign))
  {
    var canonical := CanonicalRequest(c.sha256Hex(payloadJson));
    var scope := CredentialScope(date);
    var toSign := Join([ALGORITHM, IntToString(timestamp), scope, c.sha256Hex(canonical)], "\n");
    var secretDate := c.hmac("TC3" + secretKey, date);
    var secretService := c.hmac(secretDate, SERVICE);
    var secretSigning := c.hmac(secretService, "tc3_request");
    var signature := c.hex(c.hmac(secretSigning, toSign));
    var head := ALGORITHM + " Credential=" + secretId + "/" + scope + ", SignedHeaders=" + SIGNED_HEADERS + ", Signature=";
    assert (head + signature)[..|head|] == head;
    Signed(canonical, scope, toSign, head + signature)
  }

  /** The canonical request reads back, line by line, as method, path, empty query, the two headers, a blank line, the signed headers and the hash. */
  lemma CanonicalRequestLines(payloadHash: string)
    requires NoneOf(payloadHash, {'\n'})
    ensures Split(CanonicalRequest(payloadHash), {'\n'}) ==
      ["POST", "/", "", "content-type:application/json", "host:" + API_HOST, "", SIGNED_HEADERS, payloadHash]
  {
    var lines := ["POST", "/", "", "content-type:application/json", "host:" + API_HOST, "", SIGNED_HEADERS, payloadHash];
    CanonicalRequestJoin(payloadHash);
    forall k | 0 <= k < |lines| ensures NoneOf(lines[k], {'\n'}) {
    }
    SplitJoin(lines, '\n', {'\n'});
  }

  /** The canonical request as its eight lines joined by newlines. */
  lemma CanonicalRequestJoin(payloadHash: string)
    ensures CanonicalRequest(payloadHash) ==
      Join(["POST", "/", "", "content-type:application/json", "host:" + API_HOST, "", SIGNED_HEADERS, payloadHash], "\n")
  {
    var pre := ["POST", "/", ""];
    var h1, h2 := "content-type:application/json", "host:" + API_HOST;
    var rest := [SIGNED_HEADERS, payloadHash];
    JoinHeaders(h1, h2, rest, "\n");
    assert CANONICAL_HEADERS == h1 + "\n" + h2 + "\n";
    JoinSameTail(pre, [h1, h2, ""] + rest, [CANONICAL_HEADERS] + rest, "\n");
    assert pre + ([CANONICAL_HEADERS] + rest) == ["POST", "/", "", CANONICAL_HEADERS, SIGNED_HEADERS, payloadHash];
    assert pre + ([h1, h2, ""] + rest) == ["POST", "/", "", h1, h2, "", SIGNED_HEADERS, payloadHash];
  }

  /** Two header lines and the blank line after them join like the header block ending in a separator. */
  lemma JoinHeaders(h1: string, h2: string, rest: seq<string>, sep: string)
    requires |rest| >= 1
    ensures Join([h1, h2, ""] + rest, sep) == Join([h1 + sep + h2 + sep] + rest, sep)
  {
    var j := Join(rest, sep);
    JoinFront("", rest, sep);
    JoinFront(h2, [""] + rest, sep);
    JoinFront(h1, [h2] + ([""] + rest), sep);
    JoinFront(h1 + sep + h2 + sep, rest, sep);
    assert [h1, h2, ""] + rest == [h1] + ([h2] + ([""] + rest));
    HeaderBlock(h1, h2, sep, j);
  }

  /** A list of at least two pieces joins as its first piece, the separator and the rest joined. */
  lemma JoinFront(x: string, rest: seq<string>, sep: string)
    requires |rest| >= 1
    ensures Join([x] + rest, sep) == x + sep + Join(rest, sep)
  {
    assert ([x] + rest)[1..] == rest;
    JoinCons([x] + rest, sep);
  }

  /** The regrouping of texts behind `JoinHeaders`. */
  lemma HeaderBlock(h1: string, h2: string, sep: string, j: string)
    ensures h1 + sep + (h2 + sep + ("" + sep + j)) == (h1 + sep + h2 + sep) + sep + j
  {
    assert "" + sep == sep;
  }

  /** Lists that join to the same text still do so behind a common front. */
  lemma {:induction false} JoinSameTail(pre: seq<string>, x: seq<string>, y: seq<string>, sep: string)
    requires |x| >= 1 && |y| >= 1 && Join(x, sep) == Join(y, sep)
    ensures Join(pre + x, sep) == Join(pre + y, sep)
    decreases |pre|
  {
    if pre != [] {
      assert (pre + x)[1..] == pre[1..] + x && (pre + y)[1..] == pre[1..] + y;
      JoinSameTail(pre[1..], x, y, sep);
      JoinCons(pre + x, sep);
      JoinCons(pre + y, sep);
    } else {
      assert pre + x == x && pre + y == y;
    }
  }

  /** The credential scope reads back as the day, the service and the terminator. */
  lemma CredentialScopeParts(date: string)
    requires NoneOf(date, {'/'})
    ensures Split(CredentialScope(date), {'/'}) == [date, SERVICE, "tc3_request"]
  {
    var parts := [date, SERVICE, "tc3_request"];
    assert CredentialScope(date) == Join(parts, "/");
    SplitJoin(parts, '/', {'/'});
  }

  /** The string to sign reads back as its four lines. */
  lemma StringToSignLines(c: Crypto, secretId: string, secretKey: string, timestamp: int, date: string, payloadJson: string)
    requires NoneOf(date, {'\n'})
    requires forall s :: NoneOf(c.sha256Hex(s), {'\n'})
    ensures var r := Sign(c, secretId, secretKey, timestamp, date, payloadJson);
      Split(r.stringToSign, {'\n'}) == [ALGORITHM, IntToString(timestamp), CredentialScope(date), c.sha256Hex(r.canonicalRequest)]
  {
    var r := Sign(c, secretId, secretKey, timestamp, date, payloadJson);
    var parts := [ALGORITHM, IntToString(timestamp), CredentialScope(date), c.sha256Hex(r.canonicalRequest)];
    assert NoneOf(IntToString(timestamp), {'\n'});
    assert NoneOf(CredentialScope(date), {'\n'});
    forall k | 0 <= k < |parts| ensures NoneOf(parts[k], {'\n'}) {
    }
    SplitJoin(parts, '\n', {'\n'});
  }
}
