/**
 * The chat-record API helpers: which parameters each request sends (every
 * truthy one, every defined one, or a fixed required pair), how the query
 * is attached to the base URL, the required-parameter checks of the token
 * usage query, and the error each helper raises for a failed response.
 * The base URLs come from the environment and are inputs; a base that is
 * interpolated directly is the text JavaScript prints for it.
 */
module MySqlApi {
  import opened Base
  import opened Strings
  import opened Seqs
  import opened JsonValues
  import opened Http

  /** A parameter value: the helpers pass strings and numbers. */
  datatype Value = Text(s: string) | Number(n: int)

  /** One property of the parameter object; an explicitly undefined one has no value. */
  type Entry = (string, Option<Value>)

  /** `value.toString()`; an undefined value is never appended. */
  function ValueText(v: Option<Value>): string
  {
    match v
    case None => ""
    case Some(Text(s)) => s
    case Some(Number(n)) => IntToString(n)
  }

  /** `if (value)`: undefined, the empty string and 0 are falsy. */
  predicate IsTruthy(v: Option<Value>)
  {
    match v
    case None => false
    case Some(Text(s)) => s != ""
    case Some(Number(n)) => n != 0
  }

  /** `if (value !== undefined)`. */
  predicate IsDefined(v: Option<Value>)
  {
    v.Some?
  }

  function PairOf(e: Entry): (string, string)
  {
    (e.0, ValueText(e.1))
  }

  /** The name/text pairs of the properties `keep` accepts, in property order. */
  function Kept(keep: Option<Value> -> bool, entries: seq<Entry>): (r: Params)
    ensures |r| <= |entries|
    decreases |entries|
  {
    if entries == [] then []
    else
      var rest := Kept(keep, entries[1..]);
      if keep(entries[0].1) then [PairOf(entries[0])] + rest else rest
  }

  /** `Object.entries(params).forEach(([key, value]) => { if (value) ... })`. */
  function TruthyParams(entries: seq<Entry>): (r: Params)
    ensures |r| <= |entries|
  {
    Kept(IsTruthy, entries)
  }

  /** The same loop with `if (value !== undefined)`: empty strings and 0 are sent too. */
  function DefinedParams(entries: seq<Entry>): (r: Params)
    ensures |r| <= |entries|
  {
    Kept(IsDefined, entries)
  }

  /** A pair is sent exactly when some accepted property produces it. */
  lemma {:induction false} KeptMembers(keep: Option<Value> -> bool, entries: seq<Entry>, p: (string, string))
    ensures p in Kept(keep, entries)
      <==> exists i :: 0 <= i < |entries| && keep(entries[i].1) && p == PairOf(entries[i])
    decreases |entries|
  {
    if entries != [] {
      KeptMembers(keep, entries[1..], p);
      if p in Kept(keep, entries[1..]) {
        var i :| 0 <= i < |entries[1..]| && keep(entries[1..][i].1) && p == PairOf(entries[1..][i]);
        assert entries[i + 1] == entries[1..][i];
      }
      if exists i :: 0 <= i < |entries| && keep(entries[i].1) && p == PairOf(entries[i]) {
        var i :| 0 <= i < |entries| && keep(entries[i].1) && p == PairOf(entries[i]);
        if i > 0 {
          assert entries[1..][i - 1] == entries[i];
        }
      }
    }
  }

  /** The truthy rule sends exactly the pairs of truthy properties. */
  lemma TruthyMembers(entries: seq<Entry>, p: (string, string))
    ensures p in TruthyParams(entries)
      <==> exists i :: 0 <= i < |entries| && IsTruthy(entries[i].1) && p == PairOf(entries[i])
  {
    KeptMembers(IsTruthy, entries, p);
  }

  /** The defined rule sends exactly the pairs of defined properties. */
  lemma DefinedMembers(entries: seq<Entry>, p: (string, string))
    ensures p in DefinedParams(entries)
      <==> exists i :: 0 <= i < |entries| && IsDefined(entries[i].1) && p == PairOf(entries[i])
  {
    KeptMembers(IsDefined, entries, p);
  }

  /** Keeping distributes over concatenation. */
  lemma {:induction false} KeptAppend(keep: Option<Value> -> bool, a: seq<Entry>, b: seq<Entry>)
    ensures Kept(keep, a + b) == Kept(keep, a) + Kept(keep, b)
    decreases |a|
  {
    if a == [] {
      assert a + b == b;
    } else {
      assert (a + b)[1..] == a[1..] + b;
      KeptAppend(keep, a[1..], b);
    }
  }

  /** With no undefined property every property is sent, in order. */
  lemma {:induction false} DefinedSendsAll(entries: seq<Entry>)
    requires forall i :: 0 <= i < |entries| ==> entries[i].1.Some?
    ensures DefinedParams(entries) == Map(PairOf, entries)
    decreases |entries|
  {
    if entries != [] {
      DefinedSendsAll(entries[1..]);
      assert Map(PairOf, entries) == [PairOf(entries[0])] + Map(PairOf, entries[1..]);
    }
  }

  /** A weaker test keeps a subsequence of what a stronger one keeps. */
  lemma {:induction false} KeptWithin(p: Option<Value> -> bool, q: Option<Value> -> bool, entries: seq<Entry>)
    requires forall v :: p(v) ==> q(v)
    ensures IsSubseq(Kept(p, entries), Kept(q, entries))
    decreases |entries|
  {
    if entries != [] {
      var e := entries[0];
      KeptWithin(p, q, entries[1..]);
      var tp := Kept(p, entries[1..]);
      var tq := Kept(q, entries[1..]);
      if p(e.1) {
        assert ([PairOf(e)] + tp)[1..] == tp;
        assert ([PairOf(e)] + tq)[1..] == tq;
      } else if q(e.1) {
        assert ([PairOf(e)] + tq)[1..] == tq;
        if tp != [] {
          assert IsSubseq(tp, ([PairOf(e)] + tq)[1..]);
        }
      }
    }
  }

  /** The truthy pairs are the defined pairs with some left out, in the same order. */
  lemma TruthyWithinDefined(entries: seq<Entry>)
    ensures IsSubseq(TruthyParams(entries), DefinedParams(entries))
  {
    KeptWithin(IsTruthy, IsDefined, entries);
  }

  /**
   * A property holding "" or 0 is where the two rules differ: the defined
   * rule sends it, the truthy rule sends no parameter of that name.
   */
  lemma FalsyOnlyWhenDefined(entries: seq<Entry>, i: nat)
    requires i < |entries| && IsDefined(entries[i].1) && !IsTruthy(entries[i].1)
    requires forall j, k :: 0 <= j < k < |entries| ==> entries[j].0 != entries[k].0
    ensures PairOf(entries[i]) in DefinedParams(entries)
    ensures forall p :: p in TruthyParams(entries) ==> p.0 != entries[i].0
  {
    DefinedMembers(entries, PairOf(entries[i]));
    forall p | p in TruthyParams(entries) ensures p.0 != entries[i].0 {
      TruthyMembers(entries, p);
    }
  }

  /** `roomUrl || ''`: an unset or empty base becomes the empty string. */
  function BaseOr(base: Option<string>): (r: string)
    ensures base.Some? ==> r == base.value
    ensures base.None? ==> r == ""
  {
    if base.Some? then base.value else ""
  }

  /** A fixed optional string parameter: sent when it is a non-empty string. */
  function OptionalText(name: string, v: Option<string>): (r: Params)
    ensures r == TruthyParams([(name, if v.Some? then Some(Text(v.value)) else None)])
  {
    if v.Some? && v.value != "" then [(name, v.value)] else []
  }

  // ---------------------------------------------------------------------
  // The request URLs
  // ---------------------------------------------------------------------

  /**
   * `getChatMessagesApi` and `getChatMpMessagesApi`: `${base}/messages?`
   * followed by the encoded truthy parameters; the URL ends at the `?`
   * exactly when no parameter is truthy.
   */
  function MessagesUrl(base: string, entries: seq<Entry>, enc: string -> string): (r: string)
    ensures StartsWith(r, base + "/messages?")
    ensures r[|base + "/messages?"|..] == QueryString(TruthyParams(entries), enc)
    ensures r == base + "/messages?" <==> forall i :: 0 <= i < |entries| ==> !IsTruthy(entries[i].1)
  {
    var head := base + "/messages?";
    var r := head + QueryString(TruthyParams(entries), enc);
    assert r[..|head|] == head && r[|head|..] == QueryString(TruthyParams(entries), enc);
    NothingTruthy(entries);
    r
  }

  /** No parameter is sent exactly when no property is truthy. */
  lemma NothingTruthy(entries: seq<Entry>)
    ensures TruthyParams(entries) == [] <==> forall i :: 0 <= i < |entries| ==> !IsTruthy(entries[i].1)
  {
    if exists i :: 0 <= i < |entries| && IsTruthy(entries[i].1) {
      var i :| 0 <= i < |entries| && IsTruthy(entries[i].1);
      TruthyMembers(entries, PairOf(entries[i]));
    }
    if TruthyParams(entries) != [] {
      TruthyMembers(entries, TruthyParams(entries)[0]);
    }
  }

  /** `getRoomListMessagesApi` and `getRoomMpListMessagesApi`: `${base}?` and `wx_user_id` when given. */
  function RoomListUrl(base: string, wxUserId: Option<string>, enc: string -> string): (r: string)
    ensures wxUserId.Some? && wxUserId.value != "" ==> r == base + "?" + QueryString([("wx_user_id", wxUserId.value)], enc)
    ensures wxUserId.None? || wxUserId.value == "" ==> r == base + "?"
  {
    base + "?" + QueryString(OptionalText("wx_user_id", wxUserId), enc)
  }

  /** `getMpRoomListApi`: the base alone, or with `?gh_user_id=…` when an account is given. */
  function MpRoomListUrl(base: Option<string>, ghUserId: Option<string>, enc: string -> string): (r: string)
    ensures ghUserId.None? || ghUserId.value == "" ==> r == BaseOr(base)
    ensures ghUserId.Some? && ghUserId.value != "" ==> r == BaseOr(base) + "?" + QueryString([("gh_user_id", ghUserId.value)], enc)
  {
    WithQuery(BaseOr(base), QueryString(OptionalText("gh_user_id", ghUserId), enc))
  }

  /** `getMpChatMessageApi`: every defined parameter, and the base alone when there is none. */
  function MpChatUrl(base: Option<string>, entries: seq<Entry>, enc: string -> string): (r: string)
    ensures DefinedParams(entries) == [] ==> r == BaseOr(base)
    ensures DefinedParams(entries) != [] ==> r == BaseOr(base) + "?" + QueryString(DefinedParams(entries), enc)
  {
    WithQuery(BaseOr(base), QueryString(DefinedParams(entries), enc))
  }

  /** `getWxChatHistorySummaryApi`: always both identifiers, after a `?`. */
  function SummaryUrl(base: Option<string>, wxid: string, roomId: string, enc: string -> string): (r: string)
    ensures r == BaseOr(base) + "?" + enc("wx_user_id") + "=" + enc(wxid) + "&" + enc("room_id") + "=" + enc(roomId)
  {
    var params: Params := [("wx_user_id", wxid), ("room_id", roomId)];
    var parts := Map((p: (string, string)) => PairText(p, enc), params);
    assert parts == [PairText(params[0], enc), PairText(params[1], enc)];
    assert parts[1..] == [PairText(params[1], enc)];
    BaseOr(base) + "?" + QueryString(params, enc)
  }

  /** An address without `?` and the query of a message list read back from its URL. */
  lemma MpChatUrlReadsBack(base: Option<string>, entries: seq<Entry>, enc: string -> string)
    requires NoneOf(BaseOr(base), {'?'})
    ensures SplitUrl(MpChatUrl(base, entries, enc)) == (BaseOr(base), QueryString(DefinedParams(entries), enc))
  {
    SplitUrlRoundTrip(BaseOr(base), QueryString(DefinedParams(entries), enc));
  }

  // ---------------------------------------------------------------------
  // Token usage
  // ---------------------------------------------------------------------

  const MSG_MISSING_PLATFORM := "Missing required parameter: token_source_platform"
  const MSG_MISSING_WX_USER := "Missing required parameter: wx_user_id"

  datatype TokenUsageQuery = TokenUsageQuery(
    platform: string, wxUserId: string, roomId: Option<string>, startTime: Option<string>,
    endTime: Option<string>, limit: Option<int>, offset: Option<int>)

  /** The optional properties of a token usage query, in the order they are appended. */
  function OptionalEntries(q: TokenUsageQuery): (r: seq<Entry>)
    ensures |r| == 5
  {
    [("room_id", if q.roomId.Some? then Some(Text(q.roomId.value)) else None),
     ("start_time", if q.startTime.Some? then Some(Text(q.startTime.value)) else None),
     ("end_time", if q.endTime.Some? then Some(Text(q.endTime.value)) else None),
     ("limit", if q.limit.Some? then Some(Number(q.limit.value)) else None),
     ("offset", if q.offset.Some? then Some(Number(q.offset.value)) else None)]
  }

  /** A numeric parameter appended when it is non-zero. */
  function OptionalNumber(name: string, v: Option<int>): (r: Params)
    ensures r == TruthyParams([(name, if v.Some? then Some(Number(v.value)) else None)])
  {
    if v.Some? && v.value != 0 then [(name, IntToString(v.value))] else []
  }

  /**
   * `getTokenUsageApi`'s parameters: a missing query or platform, then a
   * missing user, is an error; otherwise the platform and the user come
   * first and each optional parameter follows when it is truthy.
   */
  function TokenUsageParams(q: Option<TokenUsageQuery>): (r: Result<Params>)
    ensures q.None? || q.value.platform == "" ==> r == Err(MSG_MISSING_PLATFORM)
    ensures q.Some? && q.value.platform != "" && q.value.wxUserId == "" ==> r == Err(MSG_MISSING_WX_USER)
    ensures r.Ok? <==> q.Some? && q.value.platform != "" && q.value.wxUserId != ""
    ensures r.Ok? ==> (|r.value| >= 2
      && r.value[0] == ("token_source_platform", q.value.platform)
      && r.value[1] == ("wx_user_id", q.value.wxUserId))
  {
    if q.None? || q.value.platform == "" then Err(MSG_MISSING_PLATFORM)
    else if q.value.wxUserId == "" then Err(MSG_MISSING_WX_USER)
    else
      var p := q.value;
      Ok([("token_source_platform", p.platform), ("wx_user_id", p.wxUserId)]
        + OptionalText("room_id", p.roomId) + OptionalText("start_time", p.startTime)
        + OptionalText("end_time", p.endTime) + OptionalNumber("limit", p.limit)
        + OptionalNumber("offset", p.offset))
  }

  /** The optional part is exactly the truthy-parameter rule applied to the optional properties. */
  lemma TokenUsageOptionalAreTruthy(q: TokenUsageQuery)
    requires q.platform != "" && q.wxUserId != ""
    ensures TokenUsageParams(Some(q)).value
      == [("token_source_platform", q.platform), ("wx_user_id", q.wxUserId)] + TruthyParams(OptionalEntries(q))
  {
    var es := OptionalEntries(q);
    var a, b, c, d, e := [es[0]], [es[1]], [es[2]], [es[3]], [es[4]];
    assert es == a + (b + (c + (d + e)));
    KeptFive(IsTruthy, a, b, c, d, e);
    TokenUsageRegroup([("token_source_platform", q.platform), ("wx_user_id", q.wxUserId)],
      OptionalText("room_id", q.roomId), OptionalText("start_time", q.startTime),
      OptionalText("end_time", q.endTime), OptionalNumber("limit", q.limit), OptionalNumber("offset", q.offset));
  }

  /** Keeping five consecutive parts keeps each of them in turn. */
  lemma KeptFive(keep: Option<Value> -> bool, a: seq<Entry>, b: seq<Entry>, c: seq<Entry>, d: seq<Entry>, e: seq<Entry>)
    ensures Kept(keep, a + (b + (c + (d + e)))) == Kept(keep, a) + (Kept(keep, b) + (Kept(keep, c) + (Kept(keep, d) + Kept(keep, e))))
  {
    KeptAppend(keep, d, e);
    KeptAppend(keep, c, d + e);
    KeptAppend(keep, b, c + (d + e));
    KeptAppend(keep, a, b + (c + (d + e)));
  }

  /** Regrouping the concatenated parameter parts. */
  lemma TokenUsageRegroup<T>(p: seq<T>, a: seq<T>, b: seq<T>, c: seq<T>, d: seq<T>, e: seq<T>)
    ensures p + a + b + c + d + e == p + (a + (b + (c + (d + e))))
  {
  }

  /** `getTokenUsageApi`'s URL: the required pair is always present, so the query always follows a `?`. */
  function TokenUsageUrl(base: Option<string>, q: Option<TokenUsageQuery>, enc: string -> string): (r: Result<string>)
    ensures r.Err? <==> TokenUsageParams(q).Err?
    ensures r.Err? ==> r.msg == TokenUsageParams(q).msg
    ensures r.Ok? ==> r.value == BaseOr(base) + "?" + QueryString(TokenUsageParams(q).value, enc)
  {
    match TokenUsageParams(q)
    case Err(msg) => Err(msg)
    case Ok(params) => Ok(WithQuery(BaseOr(base), QueryString(params, enc)))
  }

  // ---------------------------------------------------------------------
  // Responses
  // ---------------------------------------------------------------------

  /** The helpers, each with the message it throws for a non-ok response. */
  datatype Endpoint = ChatMessages | RoomList | MpMessages | MpRoomMessages | MpRoomList | MpChat | TokenUsage | Summary

  function FailureMessage(e: Endpoint): string
  {
    match e
    case ChatMessages => "Failed to fetch chat messages"
    case RoomList => "Failed to fetch chat messages"
    case MpMessages => "Failed to fetch chat MP messages"
    case MpRoomMessages => "Failed to fetch chat MP room messages"
    case MpRoomList => "Failed to fetch WeChat public account room list"
    case MpChat => "Failed to fetch WeChat public account chat messages"
    case TokenUsage => "Failed to fetch token usage records"
    case Summary => "Failed to fetch chat history summary"
  }

  datatype Response = Response(ok: bool, body: Json)

  /** Every failure message names what could not be fetched. */
  lemma FailureMessageNamesFetch(e: Endpoint)
    ensures StartsWith(FailureMessage(e), "Failed to fetch ")
  {
    assert FailureMessage(e)[..16] == "Failed to fetch ";
  }

  /** A non-ok response raises the helper's message; an ok one gives its parsed body. */
  function Answer(e: Endpoint, response: Response): (r: Result<Json>)
    ensures r.Ok? <==> response.ok
    ensures r.Ok? ==> r.value == response.body
    ensures r.Err? ==> StartsWith(r.msg, "Failed to fetch ")
  {
    FailureMessageNamesFetch(e);
    if response.ok then Ok(response.body) else Err(FailureMessage(e))
  }
}
