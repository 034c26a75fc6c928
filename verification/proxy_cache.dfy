/**
 * The development proxy's response cache: responses to the cloud API are
 * kept for five minutes under a key made of the URL and, for a POST, the
 * body; the cache holds at most about a hundred entries. The cache is the
 * list of its entries in insertion order (a `Map`'s iteration order); the
 * clock is the parameter `now`.
 */
module ProxyCache {
  import opened Base
  import opened Strings
  import opened Seqs

  const CACHE_TTL := 300000
  const MAX_CACHE_SIZE := 100
  const CACHEABLE_CONTENT_TYPES := ["application/json", "text/plain", "application/xml"]

  /** The three response headers kept with a cached body. */
  datatype Headers = Headers(contentType: Option<string>, contentLanguage: Option<string>, cacheControl: Option<string>)

  datatype Entry = Entry(key: string, data: string, headers: Headers, timestamp: int)

  predicate DistinctKeys(c: seq<Entry>)
  {
    forall i, j :: 0 <= i < j < |c| ==> c[i].key != c[j].key
  }

  /** `cache.get(key)`. */
  function Get(c: seq<Entry>, key: string): (r: Option<Entry>)
    ensures r.Some? ==> r.value in c && r.value.key == key
    ensures r.None? <==> forall e :: e in c ==> e.key != key
  {
    Find((e: Entry) => e.key == key, c)
  }

  /** `cache.delete(key)`. */
  function Delete(c: seq<Entry>, key: string): (r: seq<Entry>)
    ensures forall e :: e in r <==> e in c && e.key != key
    ensures IsSubseq(r, c)
    ensures DistinctKeys(c) ==> DistinctKeys(r)
  {
    var r := Filter((e: Entry) => e.key != key, c);
    assert DistinctKeys(c) ==> DistinctKeys(r) by {
      if DistinctKeys(c) {
        SubseqDistinctKeys(r, c);
      }
    }
    r
  }

  /** A subsequence of entries with distinct keys has distinct keys. */
  lemma {:induction false} SubseqDistinctKeys(a: seq<Entry>, b: seq<Entry>)
    requires IsSubseq(a, b) && DistinctKeys(b)
    ensures DistinctKeys(a)
    decreases |b|
  {
    if a != [] && b != [] {
      if a[0] == b[0] && IsSubseq(a[1..], b[1..]) {
        SubseqDistinctKeys(a[1..], b[1..]);
        SubseqMembers(a[1..], b[1..]);
        forall j | 0 < j < |a| ensures a[0].key != a[j].key {
          assert a[j] in a[1..];
          var m :| 0 <= m < |b[1..]| && b[1..][m] == a[j];
          assert b[m + 1] == a[j];
        }
        forall i, j | 0 <= i < j < |a| ensures a[i].key != a[j].key {
          if i > 0 {
            assert a[1..][i - 1] == a[i] && a[1..][j - 1] == a[j];
          }
        }
      } else {
        SubseqDistinctKeys(a, b[1..]);
      }
    }
  }

  /** `cache.set(key, ...)`: an existing key keeps its place with the new entry; a new key goes last. */
  function Set(c: seq<Entry>, e: Entry): (r: seq<Entry>)
    requires DistinctKeys(c)
    ensures DistinctKeys(r)
    ensures Get(r, e.key) == Some(e)
    ensures forall d :: d in c && d.key != e.key ==> d in r
    ensures forall d :: d in r ==> d == e || (d in c && d.key != e.key)
    ensures |r| == if Get(c, e.key).Some? then |c| else |c| + 1
  {
    if Get(c, e.key).Some? then
      ReplaceKeepsPlace(c, e);
      Replaced(c, e)
    else
      AppendGoesLast(c, e);
      c + [e]
  }

  /** Every entry with the key of `e` replaced by `e`. */
  function Replaced(c: seq<Entry>, e: Entry): seq<Entry>
  {
    Map((d: Entry) => if d.key == e.key then e else d, c)
  }

  /** Replacing the one entry of a present key keeps the keys distinct and makes `e` the entry found. */
  lemma ReplaceKeepsPlace(c: seq<Entry>, e: Entry)
    requires DistinctKeys(c) && Get(c, e.key).Some?
    ensures var r := Replaced(c, e);
      DistinctKeys(r) && Get(r, e.key) == Some(e) && |r| == |c|
      && (forall d :: d in c && d.key != e.key ==> d in r)
      && (forall d :: d in r ==> d == e || (d in c && d.key != e.key))
  {
    var r := Replaced(c, e);
    var i :| 0 <= i < |c| && c[i].key == e.key;
    ReplaceFound(c, e, i);
    forall d | d in c && d.key != e.key ensures d in r {
      var j :| 0 <= j < |c| && c[j] == d;
      ReplacedAt(c, e, j);
    }
    forall d | d in r ensures d == e || (d in c && d.key != e.key) {
      var j :| 0 <= j < |r| && r[j] == d;
      ReplacedAt(c, e, j);
    }
  }

  /** Position `j` after the replacement. */
  lemma ReplacedAt(c: seq<Entry>, e: Entry, j: nat)
    requires j < |c|
    ensures |Replaced(c, e)| == |c|
    ensures Replaced(c, e)[j] == if c[j].key == e.key then e else c[j]
  {
  }

  /** The replaced entry sits where the old one was, and is the one found for its key. */
  lemma ReplaceFound(c: seq<Entry>, e: Entry, i: nat)
    requires DistinctKeys(c) && i < |c| && c[i].key == e.key
    ensures DistinctKeys(Replaced(c, e)) && Get(Replaced(c, e), e.key) == Some(e)
  {
    var r := Replaced(c, e);
    assert forall j :: 0 <= j < |c| ==> r[j] == (if c[j].key == e.key then e else c[j]);
    assert forall j :: 0 <= j < |c| && j != i ==> c[j].key != e.key;
    assert r[..i] == c[..i];
    FindFirst(r, e, i);
  }

  /** Appending an entry of an absent key keeps the keys distinct and makes it the entry found. */
  lemma AppendGoesLast(c: seq<Entry>, e: Entry)
    requires DistinctKeys(c) && Get(c, e.key).None?
    ensures var r := c + [e];
      DistinctKeys(r) && Get(r, e.key) == Some(e)
      && (forall d :: d in r ==> d == e || (d in c && d.key != e.key))
  {
    var r := c + [e];
    assert forall j :: 0 <= j < |c| ==> r[j] == c[j];
    FindFirst(r, e, |c|);
  }

  /** With distinct keys the entry at `i` is the one found for its key. */
  lemma FindFirst(c: seq<Entry>, e: Entry, i: nat)
    requires i < |c| && c[i] == e
    requires forall j :: 0 <= j < i ==> c[j].key != e.key
    ensures Get(c, e.key) == Some(e)
  {
    if i > 0 {
      FindFirst(c[1..], e, i - 1);
    }
  }

  /** `c[i]` is the entry the oldest-entry scan picks: the first with the smallest timestamp. */
  predicate IsOldest(c: seq<Entry>, i: int)
  {
    0 <= i < |c|
    && (forall j :: 0 <= j < |c| ==> c[i].timestamp <= c[j].timestamp)
    && (forall j :: 0 <= j < i ==> c[j].timestamp > c[i].timestamp)
  }

  /** The scan of `cleanCache` for the oldest entry, keeping the first of equal timestamps. */
  method FindOldest(c: seq<Entry>) returns (oldest: Option<nat>)
    ensures c == [] <==> oldest.None?
    ensures oldest.Some? ==> IsOldest(c, oldest.value)
  {
    oldest := None;
    var i := 0;
    while i < |c|
      invariant 0 <= i <= |c|
      invariant i == 0 <==> oldest.None?
      invariant oldest.Some? ==> oldest.value < i
      invariant oldest.Some? ==> forall j :: 0 <= j < i ==> c[oldest.value].timestamp <= c[j].timestamp
      invariant oldest.Some? ==> forall j :: 0 <= j < oldest.value ==> c[j].timestamp > c[oldest.value].timestamp
    {
      if oldest.None? || c[i].timestamp < c[oldest.value].timestamp {
        oldest := Some(i);
      }
      i := i + 1;
    }
  }

  /** An entry is expired once it is more than the TTL old. */
  predicate Expired(e: Entry, now: int)
  {
    now - e.timestamp > CACHE_TTL
  }

  /**
   * `cleanCache`: over the size limit, the oldest entry goes (unless its key
   * is the empty string, which is falsy); then every expired entry goes.
   * Nothing else is removed and the order is kept.
   */
  method CleanCache(c: seq<Entry>, now: int) returns (r: seq<Entry>)
    requires DistinctKeys(c)
    ensures DistinctKeys(r) && IsSubseq(r, c)
    ensures forall e :: e in r ==> !Expired(e, now)
    ensures |c| <= MAX_CACHE_SIZE ==> forall e :: e in c && !Expired(e, now) ==> e in r
    ensures |c| > MAX_CACHE_SIZE ==>
      exists i :: IsOldest(c, i) && (c[i].key != "" ==> c[i] !in r)
        && (forall e :: e in c && !Expired(e, now) && e.key != c[i].key ==> e in r)
        && (c[i].key == "" ==> forall e :: e in c && !Expired(e, now) ==> e in r)
  {
    var afterLimit := c;
    if |c| > MAX_CACHE_SIZE {
      var oldest := FindOldest(c);
      var i := oldest.value;
      SubseqRefl(c);
      if c[i].key != "" {
        afterLimit := Delete(c, c[i].key);
        assert c[i] !in afterLimit;
      }
      r := Filter((e: Entry) => !Expired(e, now), afterLimit);
      SubseqTrans(r, afterLimit, c);
      SubseqDistinctKeys(r, c);
      assert IsOldest(c, i);
    } else {
      r := Filter((e: Entry) => !Expired(e, now), c);
      SubseqDistinctKeys(r, c);
    }
  }

  /** A request as the middleware sees it. */
  datatype Body = NoBody | TextBody(text: string) | ObjectBody(json: string) | Unserializable
  datatype Request = Request(verb: string, originalUrl: string, url: string, path: string, body: Body)

  /** `req.body` is truthy: present, and not the empty string. */
  predicate HasBody(b: Body)
  {
    !b.NoBody? && b != TextBody("")
  }

  /**
   * `generateCacheKey`: the original URL (or the URL when it is empty); a
   * POST with a body appends ':' and the body text, or the object's JSON,
   * unless the body cannot be serialised.
   */
  function CacheKey(req: Request): (r: string)
    ensures var base := if req.originalUrl != "" then req.originalUrl else req.url;
      (req.verb == "POST" && HasBody(req.body) && !req.body.Unserializable? ==>
        r == base + ":" + (if req.body.TextBody? then req.body.text else req.body.json))
      && (!(req.verb == "POST" && HasBody(req.body)) || req.body.Unserializable? ==> r == base)
  {
    var base := if req.originalUrl != "" then req.originalUrl else req.url;
    if req.verb == "POST" && HasBody(req.body) then
      match req.body
      case TextBody(t) => base + ":" + t
      case ObjectBody(j) => base + ":" + j
      case _ => base
    else base
  }

  /** Two POSTs to one URL with different text bodies are cached apart. */
  lemma BodiesSeparateKeys(req: Request, a: string, b: string)
    requires req.verb == "POST" && a != "" && b != "" && a != b
    ensures CacheKey(req.(body := TextBody(a))) != CacheKey(req.(body := TextBody(b)))
  {
    var base := if req.originalUrl != "" then req.originalUrl else req.url;
    assert CacheKey(req.(body := TextBody(a)))[|base| + 1..] == a;
    assert CacheKey(req.(body := TextBody(b)))[|base| + 1..] == b;
  }

  /** Only GET and POST requests outside the real-time and stream paths use the cache. */
  predicate UsesCache(req: Request)
  {
    (req.verb == "GET" || req.verb == "POST")
    && !Contains(req.path, "/real-time/") && !Contains(req.path, "/stream/")
  }

  /** What the middleware does with a request: pass it on untouched, answer from the cache, or pass it on and cache the answer. */
  datatype Decision = Bypass | Hit(data: string, headers: Headers) | Miss(key: string)

  /**
   * `cacheMiddleware` on a request: a request that does not use the cache
   * is passed on; a cached entry younger than the TTL answers it; a stale
   * one is deleted and, like a missing one, the request goes on with its
   * answer to be cached under the key.
   */
  function Lookup(c: seq<Entry>, req: Request, now: int): (r: (Decision, seq<Entry>))
    requires DistinctKeys(c)
    ensures DistinctKeys(r.1)
    ensures !UsesCache(req) ==> r == (Bypass, c)
    ensures UsesCache(req) ==> (r.0.Hit? <==> Get(c, CacheKey(req)).Some? && now - Get(c, CacheKey(req)).value.timestamp < CACHE_TTL)
    ensures r.0.Hit? ==> r.1 == c && r.0.data == Get(c, CacheKey(req)).value.data
    ensures UsesCache(req) && !r.0.Hit? ==> r.0 == Miss(CacheKey(req)) && r.1 == Delete(c, CacheKey(req))
  {
    if !UsesCache(req) then (Bypass, c)
    else
      var key := CacheKey(req);
      match Get(c, key)
      case Some(e) =>
        if now - e.timestamp < CACHE_TTL then (Hit(e.data, e.headers), c)
        else (Miss(key), Delete(c, key))
      case None =>
        assert Delete(c, key) == c by {
          FilterAll((e: Entry) => e.key != key, c);
        }
        (Miss(key), c)
  }

  /** A response is cached when its content type contains one of the cacheable types. */
  predicate Cacheable(contentType: string)
  {
    exists t :: t in CACHEABLE_CONTENT_TYPES && Contains(contentType, t)
  }

  /**
   * The replaced `res.send`: a cacheable response is stored under the key
   * with the time; when that takes the cache over the limit it is cleaned.
   * Any other response leaves the cache alone.
   */
  method StoreResponse(c: seq<Entry>, key: string, body: string, headers: Headers, now: int) returns (r: seq<Entry>)
    requires DistinctKeys(c)
    ensures DistinctKeys(r)
    ensures !Cacheable(headers.contentType.GetOr("")) ==> r == c
    ensures Cacheable(headers.contentType.GetOr("")) && |Set(c, Entry(key, body, headers, now))| <= MAX_CACHE_SIZE ==>
      r == Set(c, Entry(key, body, headers, now))
    ensures Cacheable(headers.contentType.GetOr("")) && |c| <= MAX_CACHE_SIZE && (forall e :: e in c ==> e.key != "") && key != "" ==>
      |r| <= MAX_CACHE_SIZE
  {
    if !Cacheable(headers.contentType.GetOr("")) {
      return c;
    }
    r := Set(c, Entry(key, body, headers, now));
    if |r| > MAX_CACHE_SIZE {
      var stored := r;
      r := CleanCache(stored, now);
      if |c| <= MAX_CACHE_SIZE && (forall e :: e in c ==> e.key != "") && key != "" {
        var i :| IsOldest(stored, i) && (stored[i].key != "" ==> stored[i] !in r);
        assert stored[i] in stored;
        assert stored[i].key != "";
        OneFewer(r, stored, stored[i]);
      }
    }
  }

  /** A subsequence missing one element of the whole is shorter than it. */
  lemma {:induction false} OneFewer<T>(a: seq<T>, b: seq<T>, x: T)
    requires IsSubseq(a, b) && x in b && x !in a
    ensures |a| < |b|
    decreases |b|
  {
    SubseqLength(a, b);
    if |a| == |b| {
      SubseqEqual(a, b);
    }
  }

  lemma {:induction false} SubseqLength<T>(a: seq<T>, b: seq<T>)
    requires IsSubseq(a, b)
    ensures |a| <= |b|
    decreases |b|
  {
    if a != [] && b != [] {
      if a[0] == b[0] && IsSubseq(a[1..], b[1..]) {
        SubseqLength(a[1..], b[1..]);
      } else {
        SubseqLength(a, b[1..]);
      }
    }
  }

  lemma {:induction false} SubseqEqual<T>(a: seq<T>, b: seq<T>)
    requires IsSubseq(a, b) && |a| == |b|
    ensures a == b
    decreases |b|
  {
    if a != [] && b != [] {
      if a[0] == b[0] && IsSubseq(a[1..], b[1..]) {
        SubseqEqual(a[1..], b[1..]);
        assert a == [a[0]] + a[1..] && b == [b[0]] + b[1..];
      } else {
        SubseqLength(a, b[1..]);
      }
    }
  }
}
