/**
 * Plain JavaScript objects as request bodies are built: a list of
 * properties in insertion order, the order `JSON.stringify` writes them.
 * Assigning to a present key replaces its value where it stands; assigning
 * to a new key appends it; `{...o, ...src}` assigns `src`'s properties in
 * turn; `delete` removes a property.
 */
module JsObjects {
  import opened Base
  import opened JsonValues

  type Obj = seq<(string, Json)>

  /** `k in o`. */
  predicate HasKey(o: Obj, k: string)
    decreases |o|
  {
    o != [] && (o[0].0 == k || HasKey(o[1..], k))
  }

  /** No key occurs twice, as in any object `JSON.stringify` is given. */
  predicate DistinctKeys(o: Obj)
    decreases |o|
  {
    o == [] || (!HasKey(o[1..], o[0].0) && DistinctKeys(o[1..]))
  }

  /** A key is present exactly when some property carries it. */
  lemma {:induction false} HasKeyIndex(o: Obj, k: string)
    ensures HasKey(o, k) <==> exists i :: 0 <= i < |o| && o[i].0 == k
    decreases |o|
  {
    if o != [] {
      HasKeyIndex(o[1..], k);
      if HasKey(o[1..], k) {
        var i :| 0 <= i < |o[1..]| && o[1..][i].0 == k;
        assert o[i + 1].0 == k;
      }
      if exists i :: 0 < i < |o| && o[i].0 == k {
        var i :| 0 < i < |o| && o[i].0 == k;
        assert o[1..][i - 1].0 == k;
      }
    }
  }

  lemma {:induction false} HasKeyAppend(a: Obj, b: Obj, k: string)
    ensures HasKey(a + b, k) <==> HasKey(a, k) || HasKey(b, k)
    decreases |a|
  {
    if a == [] {
      assert a + b == b;
    } else {
      assert (a + b)[0] == a[0];
      assert (a + b)[1..] == a[1..] + b;
      HasKeyAppend(a[1..], b, k);
    }
  }

  /** Joining two lists with distinct keys and no key in common keeps the keys distinct. */
  lemma {:induction false} DistinctKeysAppend(a: Obj, b: Obj)
    requires DistinctKeys(a) && DistinctKeys(b)
    requires forall k :: HasKey(a, k) ==> !HasKey(b, k)
    ensures DistinctKeys(a + b)
    decreases |a|
  {
    if a == [] {
      assert a + b == b;
    } else {
      assert (a + b)[0] == a[0];
      assert (a + b)[1..] == a[1..] + b;
      HasKeyAppend(a[1..], b, a[0].0);
      forall k | HasKey(a[1..], k) ensures !HasKey(b, k) {
        assert HasKey(a, k);
      }
      DistinctKeysAppend(a[1..], b);
    }
  }

  /** Keys that differ pairwise are distinct keys. */
  lemma {:induction false} DistinctKeysIndex(o: Obj)
    requires forall i, j :: 0 <= i < j < |o| ==> o[i].0 != o[j].0
    ensures DistinctKeys(o)
    decreases |o|
  {
    if o != [] {
      HasKeyIndex(o[1..], o[0].0);
      forall i | 0 <= i < |o[1..]| ensures o[1..][i].0 != o[0].0 {
        assert o[1..][i] == o[i + 1];
      }
      DistinctKeysIndex(o[1..]);
    }
  }

  /** Two lists with distinct keys, no key of one equal to a key of the other, join into a list with distinct keys. */
  lemma DistinctKeysJoin(a: Obj, b: Obj)
    requires DistinctKeys(a) && DistinctKeys(b)
    requires forall i, j :: 0 <= i < |a| && 0 <= j < |b| ==> a[i].0 != b[j].0
    ensures DistinctKeys(a + b)
  {
    forall k | HasKey(a, k) ensures !HasKey(b, k) {
      HasKeyIndex(a, k);
      HasKeyIndex(b, k);
    }
    DistinctKeysAppend(a, b);
  }

  /** A prefix of a list with distinct keys has distinct keys, and none of the keys that follow. */
  lemma {:induction false} DistinctKeysSplit(a: Obj, b: Obj)
    requires DistinctKeys(a + b)
    ensures DistinctKeys(a) && DistinctKeys(b)
    ensures forall k :: HasKey(a, k) ==> !HasKey(b, k)
    decreases |a|
  {
    if a == [] {
      assert a + b == b;
    } else {
      assert (a + b)[0] == a[0];
      assert (a + b)[1..] == a[1..] + b;
      HasKeyAppend(a[1..], b, a[0].0);
      DistinctKeysSplit(a[1..], b);
    }
  }

  /** `o[k]`: the value of the first property named `k`. */
  function Get(o: Obj, k: string): (r: Option<Json>)
    ensures r.None? <==> !HasKey(o, k)
    decreases |o|
  {
    if o == [] then None
    else if o[0].0 == k then Some(o[0].1)
    else Get(o[1..], k)
  }

  /** Looking up in a concatenation looks in the first part, then in the second. */
  lemma {:induction false} GetAppend(a: Obj, b: Obj, k: string)
    ensures Get(a + b, k) == if HasKey(a, k) then Get(a, k) else Get(b, k)
    decreases |a|
  {
    if a == [] {
      assert a + b == b;
    } else {
      assert (a + b)[0] == a[0];
      assert (a + b)[1..] == a[1..] + b;
      GetAppend(a[1..], b, k);
    }
  }

  /** `o[k] = v`: replaced in place when `k` is present, appended otherwise. */
  function Put(o: Obj, k: string, v: Json): (r: Obj)
    ensures !HasKey(o, k) ==> r == o + [(k, v)]
    ensures HasKey(o, k) ==> |r| == |o| && forall i :: 0 <= i < |o| ==> r[i].0 == o[i].0
    ensures Get(r, k) == Some(v)
    decreases |o|
  {
    if o == [] then [(k, v)]
    else if o[0].0 == k then
      assert ([(k, v)] + o[1..])[1..] == o[1..];
      [(k, v)] + o[1..]
    else
      var rest := Put(o[1..], k, v);
      assert ([o[0]] + rest)[1..] == rest;
      [o[0]] + rest
  }

  /** Assigning one key leaves the value of every other key as it was. */
  lemma {:induction false} PutOther(o: Obj, k: string, v: Json, k2: string)
    requires k2 != k
    ensures Get(Put(o, k, v), k2) == Get(o, k2)
    decreases |o|
  {
    if o != [] && o[0].0 != k {
      PutOther(o[1..], k, v, k2);
    }
  }

  /** Assigning a key the value it already has changes nothing. */
  lemma {:induction false} PutSame(o: Obj, k: string, v: Json)
    requires Get(o, k) == Some(v)
    ensures Put(o, k, v) == o
    decreases |o|
  {
    if o[0].0 != k {
      PutSame(o[1..], k, v);
    }
  }

  /** Assigning a key no property carries appends it. */
  lemma PutFresh(o: Obj, k: string, v: Json)
    requires forall i :: 0 <= i < |o| ==> o[i].0 != k
    ensures Put(o, k, v) == o + [(k, v)]
  {
    HasKeyIndex(o, k);
  }

  /** In a list with distinct keys, the key of a property does not occur before it, so assigning it appends. */
  lemma FreshHead(a: Obj, b: Obj)
    requires DistinctKeys(a + b) && b != []
    ensures !HasKey(a, b[0].0)
    ensures Put(a, b[0].0, b[0].1) == a + [b[0]]
  {
    DistinctKeysSplit(a, b);
  }

  /**
   * One step of a loop assigning the entries `e` in order: when all keys
   * are distinct, assigning entry `j` after the first `j` appends it.
   */
  lemma PutNext(r0: Obj, e: Obj, j: nat, rest: Obj)
    requires j < |e| && DistinctKeys(r0 + e + rest)
    ensures Put(r0 + e[..j], e[j].0, e[j].1) == r0 + e[..j + 1]
  {
    var r := r0 + e[..j];
    var todo := e[j..] + rest;
    assert r + todo == r0 + e + rest;
    FreshHead(r, todo);
    assert todo[0] == e[j];
    assert e[..j + 1] == e[..j] + [e[j]];
  }

  /** The properties of `o` whose key is not listed in `drop`, in order; `delete o.k` for each listed key. */
  function Without(o: Obj, drop: seq<string>): (r: Obj)
    ensures forall i :: 0 <= i < |r| ==> r[i].0 !in drop
    ensures forall k :: HasKey(r, k) ==> HasKey(o, k)
    ensures DistinctKeys(o) ==> DistinctKeys(r)
    decreases |o|
  {
    if o == [] then []
    else
      var rest := Without(o[1..], drop);
      if o[0].0 in drop then rest
      else
        assert ([o[0]] + rest)[1..] == rest;
        [o[0]] + rest
  }

  lemma {:induction false} WithoutAppend(a: Obj, b: Obj, drop: seq<string>)
    ensures Without(a + b, drop) == Without(a, drop) + Without(b, drop)
    decreases |a|
  {
    if a == [] {
      assert a + b == b;
    } else {
      assert (a + b)[0] == a[0];
      assert (a + b)[1..] == a[1..] + b;
      WithoutAppend(a[1..], b, drop);
      if a[0].0 !in drop {
        assert [a[0]] + (Without(a[1..], drop) + Without(b, drop)) == ([a[0]] + Without(a[1..], drop)) + Without(b, drop);
      }
    }
  }

  /** Dropping keys no property carries leaves the list as it is. */
  lemma {:induction false} WithoutNothing(o: Obj, drop: seq<string>)
    requires forall i :: 0 <= i < |o| ==> o[i].0 !in drop
    ensures Without(o, drop) == o
    decreases |o|
  {
    if o != [] {
      WithoutNothing(o[1..], drop);
    }
  }

  /** Two drop lists that agree on the keys present remove the same properties. */
  lemma {:induction false} WithoutAgree(o: Obj, d1: seq<string>, d2: seq<string>)
    requires forall i :: 0 <= i < |o| ==> (o[i].0 in d1 <==> o[i].0 in d2)
    ensures Without(o, d1) == Without(o, d2)
    decreases |o|
  {
    if o != [] {
      WithoutAgree(o[1..], d1, d2);
    }
  }

  /** The keys of `o`, in order. */
  function KeysOf(o: Obj): (r: seq<string>)
    ensures |r| == |o|
    ensures forall i :: 0 <= i < |o| ==> r[i] == o[i].0
    decreases |o|
  {
    if o == [] then [] else [o[0].0] + KeysOf(o[1..])
  }

  /** `{...o, ...src}`: each property of `src` assigned to `o` in turn. */
  function Assign(o: Obj, src: Obj): (r: Obj)
    decreases |src|
  {
    if src == [] then o else Assign(Put(o, src[0].0, src[0].1), src[1..])
  }

  /**
   * When `src` has distinct keys and agrees with `o` on every key they
   * share, the spread keeps `o` as it is and appends the properties of
   * `src` that `o` lacks, in their order.
   */
  lemma {:induction false} AssignAppends(o: Obj, src: Obj)
    requires DistinctKeys(src)
    requires forall i :: 0 <= i < |src| && HasKey(o, src[i].0) ==> Get(o, src[i].0) == Some(src[i].1)
    ensures Assign(o, src) == o + Without(src, KeysOf(o))
    decreases |src|, 1
  {
    if src == [] {
      assert o + Without(src, KeysOf(o)) == o;
    } else {
      var e := src[0];
      var tail := src[1..];
      HasKeyIndex(o, e.0);
      if HasKey(o, e.0) {
        PutSame(o, e.0, e.1);
        forall i | 0 <= i < |tail| && HasKey(o, tail[i].0)
          ensures Get(o, tail[i].0) == Some(tail[i].1)
        {
          assert tail[i] == src[i + 1];
        }
        AssignAppends(o, tail);
        KeysOfHasKey(o, e.0);
        assert Without(src, KeysOf(o)) == Without(tail, KeysOf(o));
      } else {
        AssignFresh(o, src);
      }
    }
  }

  /** The keys listed by `KeysOf` are the keys present. */
  lemma {:induction false} KeysOfHasKey(o: Obj, k: string)
    ensures k in KeysOf(o) <==> HasKey(o, k)
    decreases |o|
  {
    if o != [] {
      assert KeysOf(o) == [o[0].0] + KeysOf(o[1..]);
      KeysOfHasKey(o[1..], k);
    }
  }

  /** The step of `AssignAppends` for a first property whose key `o` lacks. */
  lemma AssignFresh(o: Obj, src: Obj)
    requires src != [] && DistinctKeys(src) && !HasKey(o, src[0].0)
    requires forall i :: 0 <= i < |src| && HasKey(o, src[i].0) ==> Get(o, src[i].0) == Some(src[i].1)
    ensures Assign(o, src) == o + Without(src, KeysOf(o))
    decreases |src|, 0
  {
    AssignFreshHead(o, src);
    AppendedAgrees(o, src);
    AssignAppends(o + [src[0]], src[1..]);
    AppendedRegroup(o, src);
  }

  /** Assigning a first property whose key `o` lacks appends it. */
  lemma AssignFreshHead(o: Obj, src: Obj)
    requires src != [] && !HasKey(o, src[0].0)
    ensures Assign(o, src) == Assign(o + [src[0]], src[1..])
  {
    assert Put(o, src[0].0, src[0].1) == o + [src[0]];
  }

  /** `o + [src[0]]` followed by the rest of `src` without its keys is `o` followed by `src` without the keys of `o`. */
  lemma AppendedRegroup(o: Obj, src: Obj)
    requires src != [] && DistinctKeys(src) && !HasKey(o, src[0].0)
    ensures (o + [src[0]]) + Without(src[1..], KeysOf(o + [src[0]])) == o + Without(src, KeysOf(o))
  {
    AppendedDrops(o, src);
    Regroup(o, src[0], Without(src[1..], KeysOf(o + [src[0]])), Without(src[1..], KeysOf(o)), Without(src, KeysOf(o)));
  }

  /** Regrouping a concatenation once its last part is rewritten. */
  lemma Regroup<T>(o: seq<T>, e: T, w': seq<T>, w: seq<T>, full: seq<T>)
    requires w' == w && full == [e] + w
    ensures (o + [e]) + w' == o + full
  {
  }

  /** After appending the first property of `src`, `o` still agrees with the rest of `src`. */
  lemma AppendedAgrees(o: Obj, src: Obj)
    requires src != [] && DistinctKeys(src)
    requires forall i :: 0 <= i < |src| && HasKey(o, src[i].0) ==> Get(o, src[i].0) == Some(src[i].1)
    ensures forall i :: 0 <= i < |src[1..]| && HasKey(o + [src[0]], src[1..][i].0) ==> Get(o + [src[0]], src[1..][i].0) == Some(src[1..][i].1)
  {
    var e := src[0];
    var tail := src[1..];
    var o' := o + [e];
    assert !HasKey(tail, e.0);
    HasKeyIndex(tail, e.0);
    forall i | 0 <= i < |tail| && HasKey(o', tail[i].0)
      ensures Get(o', tail[i].0) == Some(tail[i].1)
    {
      assert tail[i] == src[i + 1];
      HasKeyAppend(o, [e], tail[i].0);
      GetAppend(o, [e], tail[i].0);
    }
  }

  /** Dropping the keys of `o` from `src`, when `o` lacks its first key, keeps that property and treats the rest as `o + [src[0]]` would. */
  lemma AppendedDrops(o: Obj, src: Obj)
    requires src != [] && DistinctKeys(src) && !HasKey(o, src[0].0)
    ensures Without(src[1..], KeysOf(o + [src[0]])) == Without(src[1..], KeysOf(o))
    ensures Without(src, KeysOf(o)) == [src[0]] + Without(src[1..], KeysOf(o))
  {
    var e := src[0];
    var tail := src[1..];
    var o' := o + [e];
    assert !HasKey(tail, e.0);
    HasKeyIndex(tail, e.0);
    forall i | 0 <= i < |tail| ensures (tail[i].0 in KeysOf(o') <==> tail[i].0 in KeysOf(o)) {
      KeysOfHasKey(o', tail[i].0);
      KeysOfHasKey(o, tail[i].0);
      HasKeyAppend(o, [e], tail[i].0);
    }
    WithoutAgree(tail, KeysOf(o'), KeysOf(o));
    KeysOfHasKey(o, e.0);
  }
}
