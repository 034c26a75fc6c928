/**
 * The array idioms the components use on immutable lists: `filter`,
 * `map`, `find`, `includes`, de-duplication through a `Set`, and the
 * "append if absent" edit, each with what it guarantees.
 */
module Seqs {
  import opened Base
  import Arith

  /** `a` is obtained from `b` by deleting elements, keeping the order of the rest. */
  predicate IsSubseq<T(==)>(a: seq<T>, b: seq<T>)
    decreases |b|
  {
    a == [] || (|b| > 0 && ((a[0] == b[0] && IsSubseq(a[1..], b[1..])) || IsSubseq(a, b[1..])))
  }

  lemma {:induction false} SubseqRefl<T>(a: seq<T>)
    ensures IsSubseq(a, a)
    decreases |a|
  {
    if a != [] {
      SubseqRefl(a[1..]);
    }
  }

  lemma {:induction false} SubseqMembers<T>(a: seq<T>, b: seq<T>)
    requires IsSubseq(a, b)
    ensures forall x :: x in a ==> x in b
    ensures |a| <= |b|
    decreases |b|
  {
    if a != [] {
      if a[0] == b[0] && IsSubseq(a[1..], b[1..]) {
        SubseqMembers(a[1..], b[1..]);
        assert forall x :: x in a ==> x == a[0] || x in a[1..];
      } else {
        SubseqMembers(a, b[1..]);
      }
    }
  }

  lemma {:induction false} SubseqTrans<T>(a: seq<T>, b: seq<T>, c: seq<T>)
    requires IsSubseq(a, b) && IsSubseq(b, c)
    ensures IsSubseq(a, c)
    decreases |c|
  {
    if a != [] {
      assert |b| > 0 && |c| > 0;
      if b[0] == c[0] && IsSubseq(b[1..], c[1..]) {
        if a[0] == b[0] && IsSubseq(a[1..], b[1..]) {
          SubseqTrans(a[1..], b[1..], c[1..]);
        } else {
          SubseqTrans(a, b[1..], c[1..]);
        }
      } else {
        SubseqTrans(a, b, c[1..]);
      }
    }
  }

  /** `s.filter(keep)`. */
  function Filter<T>(keep: T -> bool, s: seq<T>): (r: seq<T>)
    ensures |r| <= |s|
    ensures forall x :: x in r ==> x in s && keep(x)
    ensures forall i :: 0 <= i < |s| && keep(s[i]) ==> s[i] in r
    ensures IsSubseq(r, s)
    decreases |s|
  {
    if s == [] then []
    else
      var rest := Filter(keep, s[1..]);
      if keep(s[0]) then
        assert ([s[0]] + rest)[1..] == rest;
        [s[0]] + rest
      else rest
  }

  /**
   * Each value occurs in the filtered list as often as in the list when it
   * passes, and not at all otherwise. With `IsSubseq` this pins the result:
   * the passing elements, every one of them, in their order.
   */
  lemma {:induction false} FilterMultiset<T>(keep: T -> bool, s: seq<T>)
    ensures forall x :: multiset(Filter(keep, s))[x] == if keep(x) then multiset(s)[x] else 0
    decreases |s|
  {
    if s != [] {
      FilterMultiset(keep, s[1..]);
      assert s == [s[0]] + s[1..];
      assert multiset(s) == multiset{s[0]} + multiset(s[1..]);
    }
  }

  /** Filtering keeps the list when every element passes. */
  lemma {:induction false} FilterAll<T>(keep: T -> bool, s: seq<T>)
    requires forall i :: 0 <= i < |s| ==> keep(s[i])
    ensures Filter(keep, s) == s
    decreases |s|
  {
    if s != [] {
      FilterAll(keep, s[1..]);
    }
  }

  /** Filtering with a test nothing passes leaves nothing. */
  lemma {:induction false} FilterNone<T>(keep: T -> bool, s: seq<T>)
    requires forall i :: 0 <= i < |s| ==> !keep(s[i])
    ensures Filter(keep, s) == []
    decreases |s|
  {
    if s != [] {
      FilterNone(keep, s[1..]);
    }
  }

  /** Filtering distributes over concatenation. */
  /** Filtering out the second element only, when the filter keeps the first and all after the second. */
  lemma FilterDropsSecond<T>(keep: T -> bool, u: T, c: T, tail: seq<T>)
    requires keep(u) && !keep(c)
    requires forall i :: 0 <= i < |tail| ==> keep(tail[i])
    ensures Filter(keep, [u] + ([c] + tail)) == [u] + tail
  {
    FilterAppend(keep, [u], [c] + tail);
    FilterAppend(keep, [c], tail);
    assert Filter(keep, [u]) == [u];
    assert Filter(keep, [c]) == [];
    FilterAll(keep, tail);
  }

  lemma {:induction false} FilterAppend<T>(keep: T -> bool, a: seq<T>, b: seq<T>)
    ensures Filter(keep, a + b) == Filter(keep, a) + Filter(keep, b)
    decreases |a|
  {
    if a != [] {
      assert (a + b)[1..] == a[1..] + b;
      FilterAppend(keep, a[1..], b);
    } else {
      assert a + b == b;
    }
  }

  /** Two filters in a row are one filter on the conjunction. */
  lemma {:induction false} FilterFilter<T>(p: T -> bool, q: T -> bool, s: seq<T>)
    ensures Filter(q, Filter(p, s)) == Filter(x => p(x) && q(x), s)
    decreases |s|
  {
    if s != [] {
      FilterFilter(p, q, s[1..]);
    }
  }

  /** A filter that is skipped when its test holds for everything is still that filter. */
  lemma GuardedFilter<T>(run: bool, keep: T -> bool, s: seq<T>)
    requires !run ==> forall x :: keep(x)
    ensures (if run then Filter(keep, s) else s) == Filter(keep, s)
  {
    if !run {
      FilterAll(keep, s);
    }
  }

  /** Three filters in a row are one filter on a test equivalent to all three. */
  lemma {:induction false} FilterThree<T>(p: T -> bool, q: T -> bool, r: T -> bool, all: T -> bool, s: seq<T>)
    requires forall x :: all(x) == (p(x) && q(x) && r(x))
    ensures Filter(r, Filter(q, Filter(p, s))) == Filter(all, s)
    decreases |s|
  {
    if s != [] {
      FilterThree(p, q, r, all, s[1..]);
    }
  }

  /** Filters with tests that agree everywhere give the same list. */
  lemma {:induction false} FilterExt<T>(p: T -> bool, q: T -> bool, s: seq<T>)
    requires forall x :: p(x) == q(x)
    ensures Filter(p, s) == Filter(q, s)
    decreases |s|
  {
    if s != [] {
      FilterExt(p, q, s[1..]);
    }
  }

  /** The number of elements satisfying `p`, i.e. `s.filter(p).length`. */
  function Count<T>(p: T -> bool, s: seq<T>): (r: nat)
    ensures r <= |s|
  {
    |Filter(p, s)|
  }

  /** Two tests no element passes together count at most the whole list between them. */
  lemma {:induction false} CountDisjoint<T>(p: T -> bool, q: T -> bool, s: seq<T>)
    requires forall x :: !(p(x) && q(x))
    ensures Count(p, s) + Count(q, s) <= |s|
    decreases |s|
  {
    if s != [] {
      CountDisjoint(p, q, s[1..]);
    }
  }

  /** A stronger test never counts more. */
  lemma {:induction false} CountMono<T>(p: T -> bool, q: T -> bool, s: seq<T>)
    requires forall x :: p(x) ==> q(x)
    ensures Count(p, s) <= Count(q, s)
    decreases |s|
  {
    if s != [] {
      CountMono(p, q, s[1..]);
    }
  }

  /** `s.filter(y => y !== x)`: every copy of `x` goes, nothing else does. */
  function Remove<T(==)>(s: seq<T>, x: T): (r: seq<T>)
    ensures x !in r
    ensures forall y :: y in r ==> y in s
    ensures forall i :: 0 <= i < |s| && s[i] != x ==> s[i] in r
    ensures multiset(r) == multiset(s)[x := 0]
    ensures IsSubseq(r, s)
  {
    RemoveMultiset(s, x);
    Filter(y => y != x, s)
  }

  lemma RemoveMultiset<T>(s: seq<T>, x: T)
    ensures multiset(Filter(y => y != x, s)) == multiset(s)[x := 0]
  {
    var keep := y => y != x;
    FilterMultiset(keep, s);
    MultisetZeroed(multiset(s), multiset(Filter(keep, s)), x);
  }

  /** A multiset that agrees with `m` except for no copies of `x` is `m` with `x` zeroed. */
  lemma MultisetZeroed<T>(m: multiset<T>, n: multiset<T>, x: T)
    requires forall z :: n[z] == if z == x then 0 else m[z]
    ensures n == m[x := 0]
  {
  }

  /** Removing an absent element changes nothing. */
  lemma RemoveAbsent<T>(s: seq<T>, x: T)
    requires x !in s
    ensures Remove(s, x) == s
  {
    FilterAll(y => y != x, s);
  }

  /** Removing a value just appended to a list without it gives the list back. */
  lemma RemoveAppended<T>(s: seq<T>, x: T)
    requires x !in s
    ensures Remove(s + [x], x) == s
  {
    FilterAppend(y => y != x, s, [x]);
    FilterAll(y => y != x, s);
    assert Filter(y => y != x, [x]) == [];
  }

  /** A subsequence of a duplicate-free list is duplicate-free. */
  lemma {:induction false} SubseqDistinct<T>(a: seq<T>, b: seq<T>)
    requires IsSubseq(a, b) && Distinct(b)
    ensures Distinct(a)
    decreases |b|
  {
    if a != [] {
      if a[0] == b[0] && IsSubseq(a[1..], b[1..]) {
        SubseqDistinct(a[1..], b[1..]);
        SubseqMembers(a[1..], b[1..]);
        forall j | 1 <= j < |a| ensures a[j] != a[0] {
          assert a[j] == a[1..][j - 1];
          assert a[j] in b[1..];
        }
      } else {
        SubseqDistinct(a, b[1..]);
      }
    }
  }

  /** `list.includes(x) ? list : [...list, x]`. */
  function AppendUnique<T(==)>(s: seq<T>, x: T): (r: seq<T>)
    ensures x in r
    ensures x in s ==> r == s
    ensures x !in s ==> r == s + [x]
  {
    if x in s then s else s + [x]
  }

  /** No value occurs twice. */
  predicate Distinct<T(==)>(s: seq<T>)
  {
    forall i, j :: 0 <= i < j < |s| ==> s[i] != s[j]
  }

  /** Appending only absent values keeps a list duplicate-free. */
  lemma AppendUniqueDistinct<T>(s: seq<T>, x: T)
    requires Distinct(s)
    ensures Distinct(AppendUnique(s, x))
  {
  }

  /** `s.find(p)`: the first element satisfying `p`, if any. */
  function Find<T>(p: T -> bool, s: seq<T>): (r: Option<T>)
    ensures r.Some? ==> r.value in s && p(r.value)
    ensures r.None? <==> (forall x :: x in s ==> !p(x))
    ensures s != [] && p(s[0]) ==> r == Some(s[0])
    decreases |s|
  {
    if s == [] then None else if p(s[0]) then Some(s[0]) else Find(p, s[1..])
  }

  /** The first element satisfying `p` is the one found. */
  lemma {:induction false} FindAt<T>(p: T -> bool, s: seq<T>, j: int)
    requires 0 <= j < |s| && p(s[j]) && forall k :: 0 <= k < j ==> !p(s[k])
    ensures Find(p, s) == Some(s[j])
    decreases j
  {
    if j > 0 {
      FindAt(p, s[1..], j - 1);
    }
  }

  /** `FindAt` for every position at once. */
  lemma FindFirst<T>(p: T -> bool, s: seq<T>)
    ensures forall j :: 0 <= j < |s| && p(s[j]) && (forall k :: 0 <= k < j ==> !p(s[k])) ==> Find(p, s) == Some(s[j])
  {
    forall j | 0 <= j < |s| && p(s[j]) && (forall k :: 0 <= k < j ==> !p(s[k])) ensures Find(p, s) == Some(s[j]) {
      FindAt(p, s, j);
    }
  }

  /** The element found is the first one satisfying `p`. */
  lemma {:induction false} FindIsFirst<T>(p: T -> bool, s: seq<T>)
    requires Find(p, s).Some?
    ensures exists i :: 0 <= i < |s| && s[i] == Find(p, s).value && forall j :: 0 <= j < i ==> !p(s[j])
    decreases |s|
  {
    if !p(s[0]) {
      FindIsFirst(p, s[1..]);
      var i :| 0 <= i < |s[1..]| && s[1..][i] == Find(p, s[1..]).value && forall j :: 0 <= j < i ==> !p(s[1..][j]);
      assert s[i + 1] == s[1..][i];
      forall j | 0 <= j < i + 1 ensures !p(s[j]) {
        if j > 0 {
          assert s[j] == s[1..][j - 1];
        }
      }
    }
  }

  /** `s.map(f)`. */
  function Map<T, U>(f: T -> U, s: seq<T>): (r: seq<U>)
    ensures |r| == |s|
    ensures forall i :: 0 <= i < |s| ==> r[i] == f(s[i])
  {
    seq(|s|, i requires 0 <= i < |s| => f(s[i]))
  }

  /** Mapping distributes over concatenation. */
  lemma MapAppend<T, U>(f: T -> U, a: seq<T>, b: seq<T>)
    ensures Map(f, a + b) == Map(f, a) + Map(f, b)
  {
    assert forall i :: 0 <= i < |a| + |b| ==> Map(f, a + b)[i] == (Map(f, a) + Map(f, b))[i];
  }

  /**
   * The first element of `s` whose key is `k`: the one a "seen set"
   * de-duplication keeps.
   */
  function FirstWithKey<T, K(==)>(s: seq<T>, key: T -> K, k: K): (r: Option<T>)
    ensures r.Some? ==> r.value in s && key(r.value) == k
    decreases |s|
  {
    if s == [] then None else if key(s[0]) == k then Some(s[0]) else FirstWithKey(s[1..], key, k)
  }

  /**
   * De-duplication by key with a running set of keys already seen:
   * an element is kept iff its key was not seen before it.
   */
  function DedupFrom<T, K(==)>(s: seq<T>, key: T -> K, seen: set<K>): (r: seq<T>)
    ensures IsSubseq(r, s)
    ensures forall x :: x in r ==> key(x) !in seen
    ensures forall x :: x in s && key(x) !in seen ==> exists y :: y in r && key(y) == key(x)
    decreases |s|
  {
    if s == [] then []
    else if key(s[0]) in seen then DedupFrom(s[1..], key, seen)
    else
      var rest := DedupFrom(s[1..], key, seen + {key(s[0])});
      assert ([s[0]] + rest)[1..] == rest;
      assert forall x :: x in s && key(x) !in seen && key(x) != key(s[0]) ==> x in s[1..];
      [s[0]] + rest
  }

  /** `new Set` de-duplication by key, keeping first occurrences. */
  function DedupBy<T, K(==)>(s: seq<T>, key: T -> K): (r: seq<T>)
    ensures IsSubseq(r, s)
    ensures forall x :: x in s ==> exists y :: y in r && key(y) == key(x)
  {
    DedupFrom(s, key, {})
  }

  /** The kept elements have pairwise distinct keys, and each is the first of its key. */
  lemma {:induction false} DedupFromSpec<T, K>(s: seq<T>, key: T -> K, seen: set<K>)
    ensures forall i, j :: 0 <= i < j < |DedupFrom(s, key, seen)| ==>
      key(DedupFrom(s, key, seen)[i]) != key(DedupFrom(s, key, seen)[j])
    ensures forall i :: 0 <= i < |DedupFrom(s, key, seen)| ==>
      FirstWithKey(s, key, key(DedupFrom(s, key, seen)[i])) == Some(DedupFrom(s, key, seen)[i])
    decreases |s|
  {
    if s != [] {
      if key(s[0]) in seen {
        DedupFromSpec(s[1..], key, seen);
        var r := DedupFrom(s[1..], key, seen);
        assert DedupFrom(s, key, seen) == r;
        forall i | 0 <= i < |r| ensures FirstWithKey(s, key, key(r[i])) == Some(r[i]) {
          assert r[i] in r;
          assert key(r[i]) != key(s[0]);
        }
      } else {
        var seen' := seen + {key(s[0])};
        DedupFromSpec(s[1..], key, seen');
        var rest := DedupFrom(s[1..], key, seen');
        var r := [s[0]] + rest;
        assert DedupFrom(s, key, seen) == r;
        forall i, j | 0 <= i < j < |r| ensures key(r[i]) != key(r[j]) {
          assert r[j] == rest[j - 1] && r[j] in rest;
          if i > 0 {
            assert r[i] == rest[i - 1];
          }
        }
        forall i | 0 <= i < |r| ensures FirstWithKey(s, key, key(r[i])) == Some(r[i]) {
          if i > 0 {
            assert r[i] == rest[i - 1] && r[i] in rest;
            assert key(r[i]) != key(s[0]);
          }
        }
      }
    }
  }

  /** `DedupBy` in one statement: distinct keys, first occurrences kept, every key represented. */
  lemma DedupBySpec<T, K>(s: seq<T>, key: T -> K)
    ensures forall i, j :: 0 <= i < j < |DedupBy(s, key)| ==>
      key(DedupBy(s, key)[i]) != key(DedupBy(s, key)[j])
    ensures forall i :: 0 <= i < |DedupBy(s, key)| ==>
      FirstWithKey(s, key, key(DedupBy(s, key)[i])) == Some(DedupBy(s, key)[i])
  {
    DedupFromSpec(s, key, {});
  }

  /**
   * Filtering and then de-duplicating by key: every kept element passes the
   * test, keys are distinct, each kept element is the first passing one with
   * its key, and every passing key is represented.
   */
  lemma FilterDedupSpec<T, K>(keep: T -> bool, key: T -> K, s: seq<T>)
    ensures var r := DedupBy(Filter(keep, s), key);
      && (forall i :: 0 <= i < |r| ==> keep(r[i]))
      && (forall i, j :: 0 <= i < j < |r| ==> key(r[i]) != key(r[j]))
      && (forall i :: 0 <= i < |r| ==> FirstWithKey(Filter(keep, s), key, key(r[i])) == Some(r[i]))
      && (forall i :: 0 <= i < |s| && keep(s[i]) ==> exists j :: 0 <= j < |r| && key(r[j]) == key(s[i]))
  {
    var p := Filter(keep, s);
    var r := DedupBy(p, key);
    DedupBySpec(p, key);
    FilterDedupPasses(keep, key, s);
    forall i | 0 <= i < |s| && keep(s[i]) ensures exists j :: 0 <= j < |r| && key(r[j]) == key(s[i]) {
      KeyRepresented(p, r, key, s[i]);
    }
  }

  /** Every element kept after filtering and de-duplicating passes the test. */
  lemma FilterDedupPasses<T, K>(keep: T -> bool, key: T -> K, s: seq<T>)
    ensures var r := DedupBy(Filter(keep, s), key);
      forall i :: 0 <= i < |r| ==> keep(r[i])
  {
    var p := Filter(keep, s);
    var r := DedupBy(p, key);
    SubseqMembers(r, p);
    forall i | 0 <= i < |r| ensures keep(r[i]) {
      assert r[i] in r;
    }
  }

  /** An element of `p` has its key represented in the de-duplication of `p`. */
  lemma KeyRepresented<T, K>(p: seq<T>, r: seq<T>, key: T -> K, x: T)
    requires r == DedupBy(p, key) && x in p
    ensures exists j :: 0 <= j < |r| && key(r[j]) == key(x)
  {
    var y :| y in r && key(y) == key(x);
    var j :| 0 <= j < |r| && r[j] == y;
  }

  /** The position of the first occurrence of `x` in `s`. */
  function FirstIndex<T(==)>(s: seq<T>, x: T): (r: nat)
    requires x in s
    ensures r < |s| && s[r] == x
    ensures forall j :: 0 <= j < r ==> s[j] != x
    decreases |s|
  {
    if s[0] == x then 0 else 1 + FirstIndex(s[1..], x)
  }

  /** The identity, as the key of a de-duplication by value. */
  function Id<T>(x: T): T
  {
    x
  }

  /** The values of `r` occur in `s`, and an earlier one of them first occurs earlier in `s`. */
  predicate InFirstOccurrenceOrder<T(==)>(s: seq<T>, r: seq<T>)
  {
    (forall i :: 0 <= i < |r| ==> r[i] in s)
    && forall i, j :: 0 <= i < j < |r| ==> r[i] in s && r[j] in s && FirstIndex(s, r[i]) < FirstIndex(s, r[j])
  }

  /** What `DedupFrom` keeps by value comes in the order of first occurrence. */
  lemma {:induction false} DedupFromOrder<T>(s: seq<T>, seen: set<T>)
    ensures InFirstOccurrenceOrder(s, DedupFrom(s, Id, seen))
    decreases |s|
  {
    if s != [] {
      if Id(s[0]) in seen {
        DedupFromOrder(s[1..], seen);
        var r := DedupFrom(s[1..], Id, seen);
        assert DedupFrom(s, Id, seen) == r;
        assert s[0] !in r;
        OrderPastHead(s, r);
      } else {
        var seen' := seen + {Id(s[0])};
        DedupFromOrder(s[1..], seen');
        var rest := DedupFrom(s[1..], Id, seen');
        assert DedupFrom(s, Id, seen) == [s[0]] + rest;
        assert s[0] !in rest;
        OrderPastHead(s, rest);
        OrderWithHead(s, rest);
      }
    }
  }

  /** An order in the tail is an order in the whole list, for values other than the head. */
  lemma OrderPastHead<T>(s: seq<T>, r: seq<T>)
    requires s != [] && s[0] !in r && InFirstOccurrenceOrder(s[1..], r)
    ensures InFirstOccurrenceOrder(s, r)
  {
    forall y | y in s[1..] && y != s[0] ensures y in s && FirstIndex(s, y) == 1 + FirstIndex(s[1..], y) {
      var k :| 0 <= k < |s[1..]| && s[1..][k] == y;
      assert s[k + 1] == y;
    }
    forall i | 0 <= i < |r| ensures r[i] in s[1..] && r[i] != s[0] {
      assert r[i] in r;
    }
  }

  /** The head of the list goes in front of an order that does not contain it. */
  lemma OrderWithHead<T>(s: seq<T>, r: seq<T>)
    requires s != [] && s[0] !in r && InFirstOccurrenceOrder(s, r)
    ensures InFirstOccurrenceOrder(s, [s[0]] + r)
  {
    var r' := [s[0]] + r;
    forall i, j | 0 <= i < j < |r'| ensures r'[i] in s && r'[j] in s && FirstIndex(s, r'[i]) < FirstIndex(s, r'[j]) {
      assert r'[j] == r[j - 1] && r[j - 1] in r;
      if i > 0 {
        assert r'[i] == r[i - 1];
      }
    }
  }

  /** Filtering keeps the relative order of first occurrences. */
  lemma {:induction false} FilterIndexMono<T>(keep: T -> bool, s: seq<T>, a: T, b: T)
    requires a in Filter(keep, s) && b in Filter(keep, s)
    requires FirstIndex(Filter(keep, s), a) < FirstIndex(Filter(keep, s), b)
    ensures a in s && b in s && FirstIndex(s, a) < FirstIndex(s, b)
    decreases |s|
  {
    var f := Filter(keep, s);
    var t := Filter(keep, s[1..]);
    if keep(s[0]) {
      assert f == [s[0]] + t;
      if a != s[0] {
        assert b != s[0];
        assert f[1..] == t;
        FilterIndexMono(keep, s[1..], a, b);
      }
    } else {
      assert f == t;
      FilterIndexMono(keep, s[1..], a, b);
    }
  }

  /** A first-occurrence order in a filtered list is one in the list itself. */
  lemma FilterOrder<T>(keep: T -> bool, s: seq<T>, r: seq<T>)
    requires InFirstOccurrenceOrder(Filter(keep, s), r)
    ensures InFirstOccurrenceOrder(s, r)
  {
    forall i, j | 0 <= i < j < |r| ensures r[i] in s && r[j] in s && FirstIndex(s, r[i]) < FirstIndex(s, r[j]) {
      FilterIndexMono(keep, s, r[i], r[j]);
    }
    forall i | 0 <= i < |r| ensures r[i] in s {
      assert r[i] in Filter(keep, s);
    }
  }

  /** `Array.from(new Set(s))`: first occurrences, in order. */
  function Dedup<T(==)>(s: seq<T>): (r: seq<T>)
    ensures IsSubseq(r, s)
    ensures forall x :: x in r ==> x in s
    ensures forall i :: 0 <= i < |s| ==> s[i] in r
    ensures Distinct(r)
    ensures InFirstOccurrenceOrder(s, r)
  {
    var id := Id;
    var r := DedupBy(s, id);
    DedupBySpec(s, id);
    DedupFromOrder(s, {});
    SubseqMembers(r, s);
    assert forall i :: 0 <= i < |s| ==> s[i] in r by {
      forall i | 0 <= i < |s| ensures s[i] in r {
        assert s[i] in s;
        var y :| y in r && id(y) == id(s[i]);
      }
    }
    r
  }

  /** A prefix whose keys are distinct and unseen survives de-duplication untouched. */
  lemma {:induction false} DedupFromPrefix<T, K>(a: seq<T>, b: seq<T>, key: T -> K, seen: set<K>)
    requires forall i, j :: 0 <= i < j < |a| ==> key(a[i]) != key(a[j])
    requires forall i :: 0 <= i < |a| ==> key(a[i]) !in seen
    ensures |DedupFrom(a + b, key, seen)| >= |a|
    ensures DedupFrom(a + b, key, seen)[..|a|] == a
    decreases |a|
  {
    if a != [] {
      assert (a + b)[0] == a[0] && (a + b)[1..] == a[1..] + b;
      DedupFromPrefix(a[1..], b, key, seen + {key(a[0])});
      var rest := DedupFrom(a[1..] + b, key, seen + {key(a[0])});
      assert DedupFrom(a + b, key, seen) == [a[0]] + rest;
      assert ([a[0]] + rest)[..|a|] == [a[0]] + rest[..|a| - 1];
      assert a == [a[0]] + a[1..];
    }
  }

  /** `new Set([...a, ...b])` keeps a duplicate-free `a` as its prefix. */
  lemma DedupKeepsPrefix<T>(a: seq<T>, b: seq<T>)
    requires Distinct(a)
    ensures |Dedup(a + b)| >= |a| && Dedup(a + b)[..|a|] == a
  {
    DedupFromPrefix(a, b, Id, {});
  }

  /** Concatenation of a list of lists. */
  function Flatten<T>(xss: seq<seq<T>>): (r: seq<T>)
    ensures xss == [] ==> r == []
    decreases |xss|
  {
    if xss == [] then [] else xss[0] + Flatten(xss[1..])
  }

  /** A non-empty list is its front and its last element. */
  lemma InitLast<T>(s: seq<T>)
    requires |s| >= 1
    ensures s == s[..|s| - 1] + [s[|s| - 1]]
  {
  }

  /** Concatenation regroups to the right. */
  lemma AppendAssoc<T>(a: seq<T>, b: seq<T>, c: seq<T>)
    ensures a + b + c == a + (b + c)
  {
  }

  /** A non-empty list is its head in front of its tail. */
  lemma ConsSplit<T>(s: seq<T>)
    requires s != []
    ensures [s[0]] + s[1..] == s
  {
  }

  /** The front of a concatenation whose second part is non-empty. */
  lemma InitOfAppend<T>(a: seq<T>, t: seq<T>)
    requires |t| >= 1
    ensures (a + t)[..|a + t| - 1] == a + t[..|t| - 1]
    ensures (a + t)[|a + t| - 1] == t[|t| - 1]
  {
  }

  /** A prefix shorter than the list is also a prefix of its front. */
  lemma PrefixOfInit<T>(p: seq<T>, s: seq<T>)
    requires |p| < |s| && s[..|p|] == p
    ensures s[..|s| - 1][..|p|] == p
  {
  }

  /** Flattening distributes over concatenation. */
  lemma {:induction false} FlattenAppend<T>(a: seq<seq<T>>, b: seq<seq<T>>)
    ensures Flatten(a + b) == Flatten(a) + Flatten(b)
    decreases |a|
  {
    if a == [] {
      assert a + b == b;
    } else {
      assert (a + b)[1..] == a[1..] + b;
      FlattenAppend(a[1..], b);
    }
  }

  /**
   * Consecutive chunks of `n` elements, the last one possibly shorter:
   * the lists `s.slice(i, i + n)` for `i = 0, n, 2n, ...` below `|s|`.
   */
  function Chunks<T>(s: seq<T>, n: nat): (r: seq<seq<T>>)
    requires n > 0
    ensures Flatten(r) == s
    ensures forall k :: 0 <= k < |r| ==> 0 < |r[k]| <= n
    ensures forall k :: 0 <= k < |r| - 1 ==> |r[k]| == n
    ensures s == [] <==> r == []
    decreases |s|
  {
    if s == [] then []
    else if |s| <= n then
      assert Flatten([s]) == s + Flatten([]);
      [s]
    else
      var rest := Chunks(s[n..], n);
      assert ([s[..n]] + rest)[1..] == rest;
      assert s[..n] + s[n..] == s;
      [s[..n]] + rest
  }

  /** Dropping `n` elements shifts every later slice by `n`. */
  lemma SliceShift<T>(s: seq<T>, n: nat, lo: nat, hi: nat)
    requires n <= lo <= hi <= |s|
    ensures s[n..][lo - n..hi - n] == s[lo..hi]
  {
  }

  /** Chunk `k` is the slice of the list that starts at `lo = k·n` and holds at most `n` elements. */
  lemma {:induction false} ChunkIsSlice<T>(s: seq<T>, n: nat, k: nat, lo: nat)
    requires n > 0 && k < |Chunks(s, n)| && lo == k * n
    ensures lo < |s|
    ensures Chunks(s, n)[k] == s[lo..if lo + n <= |s| then lo + n else |s|]
    decreases |s|
  {
    if k == 0 {
      ChunkFirst(s, n);
    } else {
      ChunkTail(s, n, k);
      PrevOffset(k, n, lo);
      ChunkIsSlice(s[n..], n, k - 1, lo - n);
      SliceOfTail(s, n, lo, Chunks(s[n..], n)[k - 1]);
    }
  }

  /** A slice of the list without its first `n` elements, read back as a slice of the whole list. */
  lemma SliceOfTail<T>(s: seq<T>, n: nat, lo: nat, x: seq<T>)
    requires n <= lo && lo - n < |s| - n
    requires x == s[n..][lo - n..if (lo - n) + n <= |s| - n then (lo - n) + n else |s| - n]
    ensures x == s[lo..if lo + n <= |s| then lo + n else |s|]
  {
    var hi := if lo + n <= |s| then lo + n else |s|;
    SliceShift(s, n, lo, hi);
  }

  /** The offset of the chunk before chunk `k`. */
  lemma PrevOffset(k: nat, n: nat, lo: nat)
    requires k > 0 && lo == k * n
    ensures lo >= n && lo - n == (k - 1) * n
  {
    Arith.MulSucc(k - 1, n);
    Arith.MulMono(0, k - 1, n);
  }

  /** The first chunk is the first `n` elements, or the whole list when it is shorter. */
  lemma ChunkFirst<T>(s: seq<T>, n: nat)
    requires n > 0 && s != []
    ensures Chunks(s, n)[0] == s[0..if n <= |s| then n else |s|]
  {
    if |s| <= n {
      assert Chunks(s, n) == [s];
      assert s[0..|s|] == s;
    } else {
      assert Chunks(s, n)[0] == s[..n];
    }
  }

  /** Past the first chunk, the chunks are those of the list without its first `n` elements. */
  lemma ChunkTail<T>(s: seq<T>, n: nat, k: nat)
    requires n > 0 && 0 < k < |Chunks(s, n)|
    ensures |s| > n && k - 1 < |Chunks(s[n..], n)| && Chunks(s, n)[k] == Chunks(s[n..], n)[k - 1]
  {
    assert |s| > n;
    var rest := Chunks(s[n..], n);
    assert Chunks(s, n) == [s[..n]] + rest;
  }

  /** There are exactly `⌈|s| / n⌉` chunks. */
  lemma {:induction false} ChunkCount<T>(s: seq<T>, n: nat)
    requires n > 0
    ensures |Chunks(s, n)| == Arith.CeilDiv(|s|, n)
    decreases |s|
  {
    if s == [] {
    } else if |s| <= n {
      Arith.CeilDivUnique(|s|, n, 1);
    } else {
      ChunkCount(s[n..], n);
      var c' := Arith.CeilDiv(|s| - n, n);
      Arith.MulSucc(c', n);
      Arith.MulSucc(c' - 1, n);
      Arith.CeilDivUnique(|s|, n, c' + 1);
    }
  }

  /** `key` never increases along `s`. */
  predicate SortedDesc<T>(key: T -> int, s: seq<T>)
  {
    forall i, j :: 0 <= i < j < |s| ==> key(s[i]) >= key(s[j])
  }

  /** Insert `x` before the first element whose key is not larger, so earlier equal keys stay first. */
  function InsertDesc<T(==)>(key: T -> int, x: T, s: seq<T>): (r: seq<T>)
    requires SortedDesc(key, s)
    ensures SortedDesc(key, r)
    ensures multiset(r) == multiset(s) + multiset{x}
    ensures forall i :: 0 <= i < |r| ==> r[i] == x || r[i] in s
    decreases |s|
  {
    if s == [] then [x]
    else if key(x) >= key(s[0]) then [x] + s
    else
      var rest := InsertDesc(key, x, s[1..]);
      assert s == [s[0]] + s[1..];
      HeadBoundsRest(key, x, s, rest);
      SortedCons(key, s[0], rest);
      [s[0]] + rest
  }

  /** The head of a sorted list bounds everything inserted after it, when it beats the inserted element. */
  lemma HeadBoundsRest<T>(key: T -> int, x: T, s: seq<T>, rest: seq<T>)
    requires s != [] && SortedDesc(key, s) && key(x) < key(s[0])
    requires forall i :: 0 <= i < |rest| ==> rest[i] == x || rest[i] in s[1..]
    ensures forall i :: 0 <= i < |rest| ==> key(s[0]) >= key(rest[i])
  {
    forall i | 0 <= i < |rest| ensures key(s[0]) >= key(rest[i]) {
      if rest[i] != x {
        var j :| 0 <= j < |s[1..]| && s[1..][j] == rest[i];
        assert s[j + 1] == rest[i];
      }
    }
  }

  /** A head no smaller than any element keeps a sorted list sorted. */
  lemma SortedCons<T>(key: T -> int, h: T, t: seq<T>)
    requires SortedDesc(key, t)
    requires forall i :: 0 <= i < |t| ==> key(h) >= key(t[i])
    ensures SortedDesc(key, [h] + t)
  {
    var r := [h] + t;
    forall i, j | 0 <= i < j < |r| ensures key(r[i]) >= key(r[j]) {
      assert r[j] == t[j - 1];
      if i > 0 {
        assert r[i] == t[i - 1];
      }
    }
  }

  /** A stable sort on `key`, largest first: `s.sort((a, b) => key(b) - key(a))`. */
  function SortDesc<T(==)>(key: T -> int, s: seq<T>): (r: seq<T>)
    ensures SortedDesc(key, r)
    ensures multiset(r) == multiset(s)
    ensures |r| == |s|
    decreases |s|
  {
    if s == [] then []
    else
      assert s == [s[0]] + s[1..];
      InsertDesc(key, s[0], SortDesc(key, s[1..]))
  }

  /** The test "has key `k`". */
  function KeyIs<T>(key: T -> int, k: int): T -> bool
  {
    x => key(x) == k
  }

  /** Filtering a list with a head: the head, when kept, then the filtered tail. */
  lemma FilterCons<T>(keep: T -> bool, x: T, s: seq<T>)
    ensures Filter(keep, [x] + s) == (if keep(x) then [x] else []) + Filter(keep, s)
  {
    assert ([x] + s)[1..] == s;
  }

  /** Inserting places `x` before every element with its key already in the list. */
  lemma {:induction false} InsertDescStable<T>(key: T -> int, x: T, s: seq<T>, k: int)
    requires SortedDesc(key, s)
    ensures Filter(KeyIs(key, k), InsertDesc(key, x, s)) == (if key(x) == k then [x] else []) + Filter(KeyIs(key, k), s)
    decreases |s|
  {
    var keep := KeyIs(key, k);
    if s == [] {
      FilterCons(keep, x, []);
    } else if key(x) >= key(s[0]) {
      FilterCons(keep, x, s);
    } else {
      assert s == [s[0]] + s[1..];
      InsertDescStable(key, x, s[1..], k);
      var rest := InsertDesc(key, x, s[1..]);
      FilterCons(keep, s[0], rest);
      FilterCons(keep, s[0], s[1..]);
      if key(x) == k {
        assert !keep(s[0]);
      }
    }
  }

  /**
   * `SortDesc` is stable: the elements sharing any one key come out in the
   * order they went in.
   */
  lemma {:induction false} SortDescStable<T>(key: T -> int, s: seq<T>, k: int)
    ensures Filter(KeyIs(key, k), SortDesc(key, s)) == Filter(KeyIs(key, k), s)
    decreases |s|
  {
    if s != [] {
      assert s == [s[0]] + s[1..];
      SortDescStable(key, s[1..], k);
      InsertDescStable(key, s[0], SortDesc(key, s[1..]), k);
      FilterCons(KeyIs(key, k), s[0], s[1..]);
    }
  }
}
