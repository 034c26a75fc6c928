/**
 * Query strings as the API helpers build them with `URLSearchParams`:
 * ordered name/value pairs, serialised as `name=value` joined by `&`, and
 * appended to a base URL after a `?`. The form encoding of names and
 * values is the parameter `enc`.
 */
module Http {
  import opened Strings
  import opened Seqs

  /** Query parameters as name/value pairs, in the order they are appended. */
  type Params = seq<(string, string)>

  /** One `name=value` pair of `URLSearchParams.toString()`. */
  function PairText(p: (string, string), enc: string -> string): string
  {
    enc(p.0) + "=" + enc(p.1)
  }

  /** `URLSearchParams.toString()`: the encoded pairs joined by `&`; empty exactly when there are no pairs. */
  function QueryString(params: Params, enc: string -> string): (r: string)
    ensures r == "" <==> params == []
  {
    var parts := Map((p: (string, string)) => PairText(p, enc), params);
    assert parts != [] ==> |Join(parts, "&")| >= |parts[0]| >= 1 by {
      if parts != [] {
        JoinLonger(parts, "&");
      }
    }
    Join(parts, "&")
  }

  /** A join is at least as long as its first part. */
  lemma JoinLonger(parts: seq<string>, sep: string)
    requires parts != []
    ensures |Join(parts, sep)| >= |parts[0]|
  {
  }

  /**
   * The encoder escapes `&`, so splitting the query string on `&` gives back
   * one `name=value` text per pair, in order.
   */
  lemma QueryStringSplits(params: Params, enc: string -> string)
    requires params != []
    requires forall s :: NoneOf(enc(s), {'&'})
    ensures Split(QueryString(params, enc), {'&'}) == Map((p: (string, string)) => PairText(p, enc), params)
  {
    var parts := Map((p: (string, string)) => PairText(p, enc), params);
    forall k | 0 <= k < |parts| ensures NoneOf(parts[k], {'&'}) {
      NoneOfAppend(enc(params[k].0), "=", {'&'});
      NoneOfAppend(enc(params[k].0) + "=", enc(params[k].1), {'&'});
    }
    SplitJoin(parts, '&', {'&'});
  }

  /** `query ? `${base}?${query}` : base`. */
  function WithQuery(base: string, query: string): (r: string)
    ensures query == "" ==> r == base
    ensures query != "" ==> r == base + "?" + query
  {
    if query == "" then base else base + "?" + query
  }

  /** A URL cut at its first `?` into the address and the query. */
  function SplitUrl(url: string): (r: (string, string))
    ensures |r.0| <= |url|
    decreases |url|
  {
    if url == [] then ([], [])
    else if url[0] == '?' then ([], url[1..])
    else
      var rest := SplitUrl(url[1..]);
      ([url[0]] + rest.0, rest.1)
  }

  /** Reading back an address without `?` and its query gives both back. */
  lemma {:induction false} SplitUrlRoundTrip(base: string, query: string)
    requires NoneOf(base, {'?'})
    ensures SplitUrl(WithQuery(base, query)) == (base, query)
    decreases |base|
  {
    var url := WithQuery(base, query);
    if base == [] {
      if query != "" {
        assert url == ['?'] + query;
      }
    } else {
      SplitUrlRoundTrip(base[1..], query);
      assert url[0] == base[0] && url[1..] == WithQuery(base[1..], query);
      assert [base[0]] + base[1..] == base;
    }
  }
}
