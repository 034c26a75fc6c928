/**
 * The Dify chat client: which API key a configuration uses, the query
 * parameters of the message and conversation lists, the defaults filled
 * into a chat request, and the server-sent-event reader of a streaming
 * reply. The reader gets the response body as the list of decoded text
 * chunks it reads; `JSON.parse` is the parameter `parse`, which yields
 * `None` where it would throw.
 */
module Dify {
  import opened Base
  import opened Strings
  import opened Seqs
  import opened JsonValues
  import opened JsObjects
  import opened Http

  // ---------------------------------------------------------------------
  // API keys
  // ---------------------------------------------------------------------

  /** The four configuration names the switch compares against (the values of `ConfigKey`). */
  datatype ConfigNames = ConfigNames(sales: string, health: string, beauty: string, finance: string)

  /** The four API keys read from the environment; an unset variable is `None`. */
  datatype ApiKeys = ApiKeys(sales: Option<string>, health: Option<string>, beauty: Option<string>, finance: Option<string>)

  /**
   * `getApiKey`: a `switch` with strict equality, so the first matching case
   * wins; an absent or unknown configuration falls back to the beauty key.
   */
  function GetApiKey(config: Option<string>, names: ConfigNames, keys: ApiKeys): (r: Option<string>)
    ensures config == Some(names.sales) ==> r == keys.sales
    ensures config == Some(names.health) && names.health != names.sales ==> r == keys.health
    ensures config == Some(names.finance) && names.finance !in {names.sales, names.health, names.beauty} ==> r == keys.finance
    ensures config.None? || config.value !in {names.sales, names.health, names.finance} ==> r == keys.beauty
  {
    match config
    case None => keys.beauty
    case Some(c) =>
      if c == names.sales then keys.sales
      else if c == names.health then keys.health
      else if c == names.beauty then keys.beauty
      else if c == names.finance then keys.finance
      else keys.beauty
  }

  /** With four distinct names every configuration gets its own key. */
  lemma OwnKeys(names: ConfigNames, keys: ApiKeys)
    requires |{names.sales, names.health, names.beauty, names.finance}| == 4
    ensures GetApiKey(Some(names.sales), names, keys) == keys.sales
    ensures GetApiKey(Some(names.health), names, keys) == keys.health
    ensures GetApiKey(Some(names.beauty), names, keys) == keys.beauty
    ensures GetApiKey(Some(names.finance), names, keys) == keys.finance
  {
    RepeatedName(names.sales, names.health, names.beauty, names.finance);
  }

  /** Four names with a repetition among them make a set of at most three. */
  lemma RepeatedName(a: string, b: string, c: string, d: string)
    ensures a == b || a == c || a == d || b == c || b == d || c == d ==> |{a, b, c, d}| <= 3
  {
    if a == b || a == c || a == d {
      assert {a, b, c, d} == {b, c, d};
      AtMostThree(b, c, d);
    } else if b == c || b == d {
      assert {a, b, c, d} == {a, c, d};
      AtMostThree(a, c, d);
    } else if c == d {
      assert {a, b, c, d} == {a, b, c};
      AtMostThree(a, b, c);
    }
  }

  lemma AtMostThree(a: string, b: string, c: string)
    ensures |{a, b, c}| <= 3
  {
    assert {a, b, c} == {a} + {b} + {c};
  }

  // ---------------------------------------------------------------------
  // Query parameters of the message and conversation lists
  // ---------------------------------------------------------------------

  const DEFAULT_PAGE_LIMIT := "20"

  /** `limit ? limit.toString() : '20'`: an absent or zero limit sends 20. */
  function LimitParam(limit: Option<int>): (r: (string, string))
    ensures r.0 == "limit"
    ensures limit.None? || limit.value == 0 ==> r.1 == DEFAULT_PAGE_LIMIT
  {
    if limit.Some? && limit.value != 0 then ("limit", IntToString(limit.value)) else ("limit", DEFAULT_PAGE_LIMIT)
  }

  /** A positive limit is sent as its decimal digits, and reads back as the same number. */
  lemma LimitRoundTrip(n: nat)
    requires n > 0
    ensures DigitsValue(LimitParam(Some(n)).1) == n
  {
    NatToStringRoundTrip(n);
  }

  /** `...(last_id ? { last_id } : {})`: the cursor is sent only when it is a non-empty string. */
  function LastIdParam(lastId: Option<string>): (r: Params)
    ensures |r| <= 1
    ensures r != [] <==> lastId.Some? && lastId.value != ""
    ensures r != [] ==> r[0] == ("last_id", lastId.value)
  {
    if lastId.Some? && lastId.value != "" then [("last_id", lastId.value)] else []
  }

  datatype MessagesQuery = MessagesQuery(user: string, conversationId: string, lastId: Option<string>, limit: Option<int>)

  /** `getMessagesApi`: user, conversation, the cursor when given, and the limit, in that order. */
  function MessageParams(q: MessagesQuery): (r: Params)
    ensures |r| == 3 || |r| == 4
    ensures r[0] == ("user", q.user) && r[1] == ("conversation_id", q.conversationId)
    ensures |r| == 4 <==> q.lastId.Some? && q.lastId.value != ""
    ensures |r| == 4 ==> r[2] == ("last_id", q.lastId.value)
    ensures r[|r| - 1] == LimitParam(q.limit)
  {
    [("user", q.user), ("conversation_id", q.conversationId)] + LastIdParam(q.lastId) + [LimitParam(q.limit)]
  }

  /** The sort order is declared in the parameters but never sent. */
  datatype ConversationsQuery = ConversationsQuery(user: string, lastId: Option<string>, limit: Option<int>, sortBy: Option<string>)

  /** `getConversationsApi`: user, the cursor when given, and the limit. */
  function ConversationParams(q: ConversationsQuery): (r: Params)
    ensures |r| == 2 || |r| == 3
    ensures r[0] == ("user", q.user) && r[|r| - 1] == LimitParam(q.limit)
    ensures forall i :: 0 <= i < |r| ==> r[i].0 != "sort_by"
  {
    [("user", q.user)] + LastIdParam(q.lastId) + [LimitParam(q.limit)]
  }

  /**
   * The two lists send the same parameters, except that the message list
   * also names its conversation.
   */
  lemma ConversationParamsAreMessageParams(q: ConversationsQuery, conversationId: string)
    ensures ConversationParams(q)
      == Filter((p: (string, string)) => p.0 != "conversation_id", MessageParams(MessagesQuery(q.user, conversationId, q.lastId, q.limit)))
  {
    var keep := (p: (string, string)) => p.0 != "conversation_id";
    var u := ("user", q.user);
    var c := ("conversation_id", conversationId);
    var last := LastIdParam(q.lastId);
    var tail := last + [LimitParam(q.limit)];
    assert MessageParams(MessagesQuery(q.user, conversationId, q.lastId, q.limit)) == [u] + ([c] + tail) by {
      assert [u, c] + last == [u] + ([c] + last);
    }
    assert ConversationParams(q) == [u] + tail;
    FilterDropsSecond(keep, u, c, tail);
  }

  // ---------------------------------------------------------------------
  // The chat request
  // ---------------------------------------------------------------------

  const RESPONSE_MODE := "response_mode"
  const INPUTS := "inputs"

  /** `value || fallback` on a property that may be missing. */
  function OrDefault(v: Option<Json>, fallback: Json): (r: Json)
    ensures v.Some? && Truthy(v.value) ==> r == v.value
    ensures v.None? || !Truthy(v.value) ==> r == fallback
  {
    if v.Some? && Truthy(v.value) then v.value else fallback
  }

  /**
   * `{...data, response_mode: data.response_mode || 'blocking', inputs:
   * data.inputs || {}}`: the two fields get their defaults, every other
   * property keeps its value, and the property order of `data` is kept.
   */
  function ChatRequest(data: Obj): (r: Obj)
    ensures Get(r, RESPONSE_MODE) == Some(OrDefault(Get(data, RESPONSE_MODE), JStr("blocking")))
    ensures Get(r, INPUTS) == Some(OrDefault(Get(data, INPUTS), JObj(map[])))
    ensures forall k :: k != RESPONSE_MODE && k != INPUTS ==> Get(r, k) == Get(data, k)
    ensures |r| >= |data| && forall i :: 0 <= i < |data| ==> r[i].0 == data[i].0
  {
    var mode := OrDefault(Get(data, RESPONSE_MODE), JStr("blocking"));
    var inputs := OrDefault(Get(data, INPUTS), JObj(map[]));
    var withMode := Put(data, RESPONSE_MODE, mode);
    var r := Put(withMode, INPUTS, inputs);
    PutOther(withMode, INPUTS, inputs, RESPONSE_MODE);
    forall k | k != RESPONSE_MODE && k != INPUTS ensures Get(r, k) == Get(data, k) {
      PutOther(data, RESPONSE_MODE, mode, k);
      PutOther(withMode, INPUTS, inputs, k);
    }
    r
  }

  /** Filling in the defaults a second time changes nothing. */
  lemma ChatRequestIdempotent(data: Obj)
    ensures ChatRequest(ChatRequest(data)) == ChatRequest(data)
  {
    var r := ChatRequest(data);
    var mode := OrDefault(Get(r, RESPONSE_MODE), JStr("blocking"));
    var inputs := OrDefault(Get(r, INPUTS), JObj(map[]));
    assert Truthy(JStr("blocking")) && Truthy(JObj(map[]));
    assert mode == Get(r, RESPONSE_MODE).value;
    assert inputs == Get(r, INPUTS).value;
    PutSame(r, RESPONSE_MODE, mode);
    PutSame(r, INPUTS, inputs);
  }

  /** Whether the request is streamed: the mode is exactly 'streaming' and a listener was given. */
  predicate Streams(request: Obj, hasListener: bool)
  {
    Get(request, RESPONSE_MODE) == Some(JStr("streaming")) && hasListener
  }

  /** A request that names no mode is sent blocking, with or without a listener. */
  lemma DefaultModeIsBlocking(data: Obj, hasListener: bool)
    requires !HasKey(data, RESPONSE_MODE)
    ensures !Streams(ChatRequest(data), hasListener)
  {
  }

  // ---------------------------------------------------------------------
  // Server-sent-event framing
  // ---------------------------------------------------------------------

  const BLANK_LINE := "\n\n"
  const DATA_PREFIX := "data: "

  /** Whether `s` starts with the blank line that ends an event. */
  predicate AtSeparator(s: string)
  {
    |s| >= 2 && s[0] == '\n' && s[1] == '\n'
  }

  /**
   * `s.split('\n\n')`: the pieces between the separators, found left to
   * right without overlap; there is always at least one piece.
   */
  function Frames(s: string): (r: seq<string>)
    ensures |r| >= 1
    decreases |s|
  {
    if s == [] then [[]]
    else if AtSeparator(s) then [[]] + Frames(s[2..])
    else
      var rest := Frames(s[1..]);
      [[s[0]] + rest[0]] + rest[1..]
  }

  /** Joining the pieces with the separator gives back the text. */
  lemma {:induction false} FramesJoin(s: string)
    ensures Join(Frames(s), BLANK_LINE) == s
    decreases |s|
  {
    if s == [] {
    } else if AtSeparator(s) {
      FramesJoin(s[2..]);
      JoinEmptyFirst(Frames(s[2..]), BLANK_LINE);
      assert s == BLANK_LINE + s[2..];
    } else {
      var rest := Frames(s[1..]);
      FramesJoin(s[1..]);
      assert Frames(s) == [[s[0]] + rest[0]] + rest[1..];
      JoinGrowFirst(s[0], rest, BLANK_LINE);
      assert s == [s[0]] + s[1..];
    }
  }

  /** Whether `s` holds a blank line anywhere. */
  predicate HasBlankLine(s: string)
  {
    exists i :: 0 <= i < |s| - 1 && s[i] == '\n' && s[i + 1] == '\n'
  }

  /** The first piece is empty only at a separator or at the end, and otherwise starts where the text does. */
  lemma FirstFrameStart(s: string)
    ensures Frames(s)[0] == [] ==> s == [] || AtSeparator(s)
    ensures Frames(s)[0] != [] ==> s != [] && Frames(s)[0][0] == s[0]
  {
  }

  /**
   * The pieces are the ones a leftmost split finds: none holds a blank line,
   * and no piece but the last ends in a line break (else the separator would
   * have been found one character earlier).
   */
  lemma {:induction false} FramesAreLeftmost(s: string)
    ensures forall k :: 0 <= k < |Frames(s)| ==> !HasBlankLine(Frames(s)[k])
    ensures forall k :: 0 <= k < |Frames(s)| - 1 ==> Frames(s)[k] == [] || Frames(s)[k][|Frames(s)[k]| - 1] != '\n'
    decreases |s|
  {
    if s == [] {
    } else if AtSeparator(s) {
      FramesAreLeftmost(s[2..]);
      LeftmostAfterSeparator(Frames(s[2..]));
    } else {
      var rest := Frames(s[1..]);
      FramesAreLeftmost(s[1..]);
      FirstFrameStart(s[1..]);
      LeftmostGrow(s[0], rest);
    }
  }

  /** No piece holds a blank line, and no piece but the last ends in a line break. */
  ghost predicate Leftmost(fs: seq<string>)
  {
    (forall k :: 0 <= k < |fs| ==> !HasBlankLine(fs[k]))
    && (forall k :: 0 <= k < |fs| - 1 ==> fs[k] == [] || fs[k][|fs[k]| - 1] != '\n')
  }

  /** An empty piece in front keeps the pieces leftmost. */
  lemma LeftmostAfterSeparator(fs: seq<string>)
    requires Leftmost(fs)
    ensures Leftmost([[]] + fs)
  {
    var r := [[]] + fs;
    forall k | 1 <= k < |r| ensures r[k] == fs[k - 1] {
    }
  }

  /**
   * A character put in front of the first piece keeps the pieces leftmost
   * unless it is a line break that completes a blank line.
   */
  lemma LeftmostGrow(c: char, rest: seq<string>)
    requires |rest| >= 1 && Leftmost(rest)
    requires c == '\n' && rest[0] == [] ==> |rest| == 1
    requires c == '\n' && rest[0] != [] ==> rest[0][0] != '\n'
    ensures Leftmost([[c] + rest[0]] + rest[1..])
  {
    var head := [c] + rest[0];
    var r := [head] + rest[1..];
    forall k | 1 <= k < |r| ensures r[k] == rest[k] {
    }
    forall i | 0 <= i < |head| - 1 ensures !(head[i] == '\n' && head[i + 1] == '\n') {
      if i == 0 {
        assert head[1] == rest[0][0];
      } else {
        assert head[i] == rest[0][i - 1] && head[i + 1] == rest[0][i];
      }
    }
    if |r| > 1 && rest[0] == [] {
      assert head[|head| - 1] == c;
    }
  }

  /** A text that is one piece is that piece. */
  lemma OneFrame(s: string)
    requires |Frames(s)| == 1
    ensures Frames(s)[0] == s
  {
    FramesJoin(s);
  }

  /**
   * Appending text only touches the last piece: the earlier pieces are
   * final, and the last one is split again together with what follows.
   * This is what lets the reader keep just the last piece as its buffer.
   */
  lemma {:induction false} FramesAppend(s: string, c: string)
    ensures var parts := Frames(s);
      Frames(s + c) == parts[..|parts| - 1] + Frames(parts[|parts| - 1] + c)
    decreases |s|
  {
    var parts := Frames(s);
    if s == [] {
      assert parts == [[]];
      assert s + c == c;
    } else if AtSeparator(s) {
      FramesAppendAtSeparator(s, c);
    } else if |s| == 1 {
      assert s[1..] == [] && [s[0]] == s;
      assert Frames(s[1..]) == [[]];
      assert parts == [[s[0]] + []] + [[]][1..];
      assert [s[0]] + [] == s && Frames(s[1..])[1..] == [];
      assert parts == [s];
    } else {
      FramesAppendInside(s, c);
    }
  }

  lemma FramesAppendAtSeparator(s: string, c: string)
    requires AtSeparator(s)
    ensures var parts := Frames(s);
      Frames(s + c) == parts[..|parts| - 1] + Frames(parts[|parts| - 1] + c)
    decreases |s|, 0
  {
    var parts := Frames(s);
    var tail := Frames(s[2..]);
    assert (s + c)[2..] == s[2..] + c;
    assert Frames(s + c) == [[]] + Frames(s[2..] + c);
    FramesAppend(s[2..], c);
    InitOfCons(parts, [], tail);
    assert [[]] + (tail[..|tail| - 1] + Frames(tail[|tail| - 1] + c))
      == [[]] + tail[..|tail| - 1] + Frames(tail[|tail| - 1] + c);
  }

  lemma FramesAppendInside(s: string, c: string)
    requires |s| >= 2 && !AtSeparator(s)
    ensures var parts := Frames(s);
      Frames(s + c) == parts[..|parts| - 1] + Frames(parts[|parts| - 1] + c)
    decreases |s|, 0
  {
    var parts := Frames(s);
    var rest := Frames(s[1..]);
    assert (s + c)[1..] == s[1..] + c;
    assert Frames(s + c) == [[s[0]] + Frames(s[1..] + c)[0]] + Frames(s[1..] + c)[1..];
    FramesAppend(s[1..], c);
    if |rest| == 1 {
      OneFrame(s[1..]);
      assert [s[0]] + s[1..] == s;
      assert parts == [s];
    } else {
      var init := rest[..|rest| - 1];
      var last := Frames(rest[|rest| - 1] + c);
      assert Frames(s[1..] + c) == init + last;
      assert parts[..|parts| - 1] == [[s[0]] + rest[0]] + init[1..];
      assert parts[|parts| - 1] == rest[|rest| - 1];
    }
  }

  // ---------------------------------------------------------------------
  // Handling the events
  // ---------------------------------------------------------------------

  /** The event a piece carries: pieces starting with `data: ` are parsed from offset 6; others carry none. */
  function FrameEvent(frame: string, parse: string -> Option<Json>): (r: Option<Json>)
    ensures !StartsWith(frame, DATA_PREFIX) ==> r.None?
    ensures StartsWith(frame, DATA_PREFIX) ==> r == parse(frame[|DATA_PREFIX|..])
  {
    if StartsWith(frame, DATA_PREFIX) then parse(frame[6..]) else None
  }

  /** `eventData.event === 'error'`. */
  predicate IsErrorEvent(e: Json)
  {
    e.JObj? && "event" in e.fields && e.fields["event"] == JStr("error")
  }

  /** The listener calls made so far, and whether an error event ended the reading. */
  datatype Handled = Handled(events: seq<Json>, stopped: bool)

  /** One piece of the loop body: after an error nothing more happens; an unparsable piece is skipped. */
  function Step(h: Handled, frame: string, parse: string -> Option<Json>): Handled
  {
    if h.stopped then h
    else match FrameEvent(frame, parse)
      case None => h
      case Some(e) => Handled(h.events + [e], IsErrorEvent(e))
  }

  /** The pieces handled in order, as the reading loop does. */
  function HandleFrames(frames: seq<string>, parse: string -> Option<Json>): Handled
    decreases |frames|
  {
    if frames == [] then Handled([], false)
    else Step(HandleFrames(frames[..|frames| - 1], parse), frames[|frames| - 1], parse)
  }

  /** Every event the pieces carry, in order: the reference the handler is compared against. */
  function AllEvents(frames: seq<string>, parse: string -> Option<Json>): (r: seq<Json>)
    ensures |r| <= |frames|
    decreases |frames|
  {
    if frames == [] then []
    else
      var e := FrameEvent(frames[|frames| - 1], parse);
      AllEvents(frames[..|frames| - 1], parse) + (if e.Some? then [e.value] else [])
  }

  predicate HasError(events: seq<Json>)
  {
    exists i :: 0 <= i < |events| && IsErrorEvent(events[i])
  }

  /** The events up to and including the first error event, or all of them. */
  function UpToError(events: seq<Json>): (r: seq<Json>)
    ensures |r| <= |events| && r == events[..|r|]
    ensures !HasError(events) ==> r == events
    decreases |events|
  {
    if events == [] then []
    else if IsErrorEvent(events[0]) then [events[0]]
    else
      var rest := UpToError(events[1..]);
      assert !HasError(events) ==> !HasError(events[1..]) by {
        if !HasError(events) {
          forall i | 0 <= i < |events[1..]| ensures !IsErrorEvent(events[1..][i]) {
            assert events[1..][i] == events[i + 1];
          }
        }
      }
      [events[0]] + rest
  }

  /** Cutting at the first error of a concatenation cuts the first part if it holds an error. */
  lemma {:induction false} UpToErrorAppend(a: seq<Json>, b: seq<Json>)
    ensures HasError(a) ==> UpToError(a + b) == UpToError(a)
    ensures !HasError(a) ==> UpToError(a + b) == a + UpToError(b)
    decreases |a|
  {
    if a == [] {
      assert a + b == b;
    } else {
      assert (a + b)[0] == a[0];
      assert (a + b)[1..] == a[1..] + b;
      UpToErrorAppend(a[1..], b);
      if !IsErrorEvent(a[0]) {
        HasErrorCons(a);
        assert UpToError(a + b) == [a[0]] + UpToError(a[1..] + b);
        if !HasError(a) {
          ConsSplit(a);
          AppendAssoc([a[0]], a[1..], UpToError(b));
        }
      } else {
        assert HasError(a) by { assert IsErrorEvent(a[0]); }
      }
    }
  }

  /** Past a first event that is no error, the events hold an error exactly when the rest does. */
  lemma HasErrorCons(a: seq<Json>)
    requires a != [] && !IsErrorEvent(a[0])
    ensures HasError(a) <==> HasError(a[1..])
  {
    if HasError(a) {
      var i :| 0 <= i < |a| && IsErrorEvent(a[i]);
      assert a[1..][i - 1] == a[i];
    }
    if HasError(a[1..]) {
      var i :| 0 <= i < |a[1..]| && IsErrorEvent(a[1..][i]);
      assert a[i + 1] == a[1..][i];
    }
  }

  /** A one-element list holds an error exactly when its element is one. */
  lemma HasErrorSingle(e: Json)
    ensures HasError([e]) <==> IsErrorEvent(e)
  {
    if IsErrorEvent(e) {
      assert [e][0] == e;
    }
  }

  /**
   * The handler delivers exactly the events the pieces carry, up to and
   * including the first error event, and stops exactly when there is one.
   */
  lemma {:induction false} HandleFramesSpec(frames: seq<string>, parse: string -> Option<Json>)
    ensures HandleFrames(frames, parse).events == UpToError(AllEvents(frames, parse))
    ensures HandleFrames(frames, parse).stopped <==> HasError(AllEvents(frames, parse))
    decreases |frames|
  {
    if frames != [] {
      var init := frames[..|frames| - 1];
      var e := FrameEvent(frames[|frames| - 1], parse);
      var a := AllEvents(init, parse);
      var tail := if e.Some? then [e.value] else [];
      HandleFramesSpec(init, parse);
      UpToErrorAppend(a, tail);
      HasErrorAppend(a, tail);
      if e.Some? {
        HasErrorSingle(e.value);
        assert UpToError(tail) == tail;
      } else {
        assert a + tail == a;
      }
    }
  }

  lemma HasErrorAppend(a: seq<Json>, b: seq<Json>)
    ensures HasError(a + b) <==> HasError(a) || HasError(b)
  {
    if HasError(a) {
      var i :| 0 <= i < |a| && IsErrorEvent(a[i]);
      assert (a + b)[i] == a[i];
    }
    if HasError(b) {
      var i :| 0 <= i < |b| && IsErrorEvent(b[i]);
      assert (a + b)[|a| + i] == b[i];
    }
    if HasError(a + b) {
      var i :| 0 <= i < |a + b| && IsErrorEvent((a + b)[i]);
      if i < |a| {
        assert (a + b)[i] == a[i];
      } else {
        assert (a + b)[i] == b[i - |a|];
      }
    }
  }

  /** Once stopped, handling further pieces changes nothing. */
  lemma {:induction false} StoppedStays(prefix: seq<string>, frames: seq<string>, parse: string -> Option<Json>)
    requires |prefix| <= |frames| && frames[..|prefix|] == prefix
    requires HandleFrames(prefix, parse).stopped
    ensures HandleFrames(frames, parse) == HandleFrames(prefix, parse)
    decreases |frames|
  {
    if |frames| > |prefix| {
      PrefixOfInit(prefix, frames);
      StoppedStays(prefix, frames[..|frames| - 1], parse);
    } else {
      assert frames == prefix;
    }
  }

  /** The leftover buffer at the end of the stream is parsed once, without the error check. */
  function FinalEvent(buffer: string, parse: string -> Option<Json>): (r: seq<Json>)
    ensures |r| <= 1
  {
    var e := FrameEvent(buffer, parse);
    if e.Some? then [e.value] else []
  }

  /**
   * The listener calls for a whole response text: every piece but the last
   * is handled in the loop; unless an error event stopped it, the last
   * piece (the leftover buffer) is handled at the end.
   */
  function StreamEvents(text: string, parse: string -> Option<Json>): seq<Json>
  {
    EventsOfFrames(Frames(text), parse)
  }

  /** The listener calls for the pieces of a text, the last of which is left in the buffer. */
  function EventsOfFrames(frames: seq<string>, parse: string -> Option<Json>): seq<Json>
    requires |frames| >= 1
  {
    var h := HandleFrames(frames[..|frames| - 1], parse);
    if h.stopped then h.events else h.events + FinalEvent(frames[|frames| - 1], parse)
  }

  /**
   * What the listener sees: every event the finished pieces carry, cut at
   * the first error event; when there is none, also the event of the
   * leftover piece.
   */
  lemma StreamEventsSpec(text: string, parse: string -> Option<Json>)
    ensures var frames := Frames(text);
      var evs := AllEvents(frames[..|frames| - 1], parse);
      StreamEvents(text, parse) == if HasError(evs) then UpToError(evs) else evs + FinalEvent(frames[|frames| - 1], parse)
  {
    StreamEventsOfFrames(text, parse);
    EventsOfFramesSpec(Frames(text), parse);
  }

  /** The events of a text are the events of its pieces. */
  lemma StreamEventsOfFrames(text: string, parse: string -> Option<Json>)
    ensures StreamEvents(text, parse) == EventsOfFrames(Frames(text), parse)
  {
  }

  lemma EventsOfFramesSpec(frames: seq<string>, parse: string -> Option<Json>)
    requires |frames| >= 1
    ensures var evs := AllEvents(frames[..|frames| - 1], parse);
      EventsOfFrames(frames, parse) == if HasError(evs) then UpToError(evs) else evs + FinalEvent(frames[|frames| - 1], parse)
  {
    HandleFramesSpec(frames[..|frames| - 1], parse);
  }

  /** Only the very last event the listener receives can be an error event. */
  lemma ErrorOnlyLast(text: string, parse: string -> Option<Json>)
    ensures ErrorOnlyAtEnd(StreamEvents(text, parse))
  {
    var frames := Frames(text);
    EventsOfFramesSpec(frames, parse);
    UpToErrorNoEarlyError(AllEvents(frames[..|frames| - 1], parse));
  }

  /** Once the finished pieces stop the reading, nothing after them matters. */
  lemma StoppedEvents(finished: seq<string>, tail: seq<string>, parse: string -> Option<Json>)
    requires |tail| >= 1 && HandleFrames(finished, parse).stopped
    ensures EventsOfFrames(finished + tail, parse) == HandleFrames(finished, parse).events
  {
    InitOfAppend(finished, tail);
    assert (finished + tail[..|tail| - 1])[..|finished|] == finished;
    StoppedStays(finished, finished + tail[..|tail| - 1], parse);
  }

  /** No event but the last is an error event. */
  predicate ErrorOnlyAtEnd(events: seq<Json>)
  {
    forall i :: 0 <= i < |events| - 1 ==> !IsErrorEvent(events[i])
  }

  /** Before the cut there is no error event. */
  lemma {:induction false} UpToErrorNoEarlyError(events: seq<Json>)
    ensures ErrorOnlyAtEnd(UpToError(events))
    decreases |events|
  {
    if events != [] && !IsErrorEvent(events[0]) {
      UpToErrorNoEarlyError(events[1..]);
      var rest := UpToError(events[1..]);
      var r := UpToError(events);
      assert r == [events[0]] + rest;
      forall i | 0 <= i < |r| - 1 ensures !IsErrorEvent(r[i]) {
        if i > 0 {
          assert r[i] == rest[i - 1];
        }
      }
    }
  }

  // ---------------------------------------------------------------------
  // The reading loop
  // ---------------------------------------------------------------------

  /**
   * The stream reader of `sendChatMessageApi`: append each chunk to the
   * buffer, split it on blank lines, handle every piece but the last, keep
   * the last as the new buffer; return at an error event; at the end,
   * handle a leftover buffer. However the response is cut into chunks,
   * the listener sees the events of the whole text.
   */
  method ProcessStream(chunks: seq<string>, parse: string -> Option<Json>) returns (events: seq<Json>)
    ensures events == StreamEvents(Flatten(chunks), parse)
  {
    var buffer := "";
    events := [];
    ghost var done: seq<string> := [];
    var i := 0;
    assert chunks[..0] == [];
    while i < |chunks|
      invariant 0 <= i <= |chunks|
      invariant Frames(Flatten(chunks[..i])) == done + [buffer]
      invariant HandleFrames(done, parse) == Handled(events, false)
    {
      var pieces := Frames(buffer + chunks[i]);
      var lines := pieces[..|pieces| - 1];
      NextChunk(chunks, i, done, buffer, pieces);
      var stopped;
      events, stopped := HandleLines(done, lines, events, parse);
      if stopped {
        StopInsideChunk(chunks, i, done, buffer, lines, parse);
        return;
      }
      buffer := pieces[|pieces| - 1];
      done := done + lines;
      i := i + 1;
    }
    assert chunks[..i] == chunks;
    FinalFrame(done, buffer, events, Flatten(chunks), parse);
    if buffer != "" && StartsWith(buffer, DATA_PREFIX) {
      var e := parse(buffer[6..]);
      if e.Some? {
        events := events + [e.value];
      }
    }
  }

  /**
   * The inner loop over the finished pieces of one chunk: each carried
   * event goes to the listener, and an error event stops the reading.
   */
  method HandleLines(ghost done: seq<string>, lines: seq<string>, events0: seq<Json>, parse: string -> Option<Json>)
    returns (events: seq<Json>, stopped: bool)
    requires HandleFrames(done, parse) == Handled(events0, false)
    ensures Handled(events, stopped) == HandleFrames(done + lines, parse)
  {
    events := events0;
    var j := 0;
    assert done + lines[..0] == done;
    while j < |lines|
      invariant 0 <= j <= |lines|
      invariant HandleFrames(done + lines[..j], parse) == Handled(events, false)
    {
      assert (done + lines[..j + 1])[..|done + lines[..j + 1]| - 1] == done + lines[..j];
      var e := FrameEvent(lines[j], parse);
      if e.Some? {
        events := events + [e.value];
        if IsErrorEvent(e.value) {
          StoppedStays(done + lines[..j + 1], done + lines, parse);
          return events, true;
        }
      }
      j := j + 1;
    }
    assert lines[..j] == lines;
    return events, false;
  }

  /** Splitting after one more chunk: the finished pieces grow by those of the old buffer plus the chunk. */
  lemma NextChunk(chunks: seq<string>, i: nat, done: seq<string>, buffer: string, pieces: seq<string>)
    requires i < |chunks|
    requires Frames(Flatten(chunks[..i])) == done + [buffer]
    requires pieces == Frames(buffer + chunks[i])
    ensures Frames(Flatten(chunks[..i + 1])) == (done + pieces[..|pieces| - 1]) + [pieces[|pieces| - 1]]
  {
    assert chunks[..i + 1] == chunks[..i] + [chunks[i]];
    FlattenAppend(chunks[..i], [chunks[i]]);
    assert Flatten([chunks[i]]) == chunks[i] + Flatten([]);
    assert Flatten(chunks[..i + 1]) == Flatten(chunks[..i]) + chunks[i];
    FramesOfExtension(Flatten(chunks[..i]), chunks[i], done, buffer);
    InitLast(pieces);
    SnocAssoc(done, pieces[..|pieces| - 1], pieces[|pieces| - 1]);
  }

  /** An error event among the pieces of one chunk ends the stream: the events so far are all the listener gets. */
  lemma StopInsideChunk(chunks: seq<string>, i: nat, done: seq<string>, buffer: string, lines: seq<string>, parse: string -> Option<Json>)
    requires i < |chunks|
    requires Frames(Flatten(chunks[..i])) == done + [buffer]
    requires lines == Frames(buffer + chunks[i])[..|Frames(buffer + chunks[i])| - 1]
    requires HandleFrames(done + lines, parse).stopped
    ensures StreamEvents(Flatten(chunks), parse) == HandleFrames(done + lines, parse).events
  {
    var pieces := Frames(buffer + chunks[i]);
    var finished := done + lines;
    var rest := Flatten(chunks[i + 1..]);
    NextChunk(chunks, i, done, buffer, pieces);
    FlattenSplit(chunks, i + 1);
    FramesOfExtension(Flatten(chunks[..i + 1]), rest, finished, pieces[|pieces| - 1]);
    StoppedEvents(finished, Frames(pieces[|pieces| - 1] + rest), parse);
  }

  /** The chunks read so far and the ones still to come make up the body. */
  lemma FlattenSplit(chunks: seq<string>, k: nat)
    requires k <= |chunks|
    ensures Flatten(chunks) == Flatten(chunks[..k]) + Flatten(chunks[k..])
  {
    assert chunks == chunks[..k] + chunks[k..];
    FlattenAppend(chunks[..k], chunks[k..]);
  }

  lemma SnocAssoc<T>(a: seq<T>, b: seq<T>, x: T)
    ensures a + (b + [x]) == (a + b) + [x]
  {
  }

  /** Text added after a split leaves its finished pieces alone. */
  lemma FramesOfExtension(s: string, c: string, finished: seq<string>, last: string)
    requires Frames(s) == finished + [last]
    ensures Frames(s + c) == finished + Frames(last + c)
  {
    FramesAppend(s, c);
    InitOfAppend(finished, [last]);
  }

  /** Without an error event the loop ends with the finished pieces handled and the last piece in the buffer. */
  lemma FinalFrame(done: seq<string>, buffer: string, events: seq<Json>, text: string, parse: string -> Option<Json>)
    requires Frames(text) == done + [buffer]
    requires HandleFrames(done, parse) == Handled(events, false)
    ensures StreamEvents(text, parse) == events + FinalEvent(buffer, parse)
  {
    InitOfAppend(done, [buffer]);
  }

  // ---------------------------------------------------------------------
  // Sending a chat message
  // ---------------------------------------------------------------------

  /** The answer to the streaming POST: its status, and the chunks of the body if it has one. */
  datatype StreamResponse = StreamResponse(ok: bool, status: int, body: Option<seq<string>>)

  /** The POST to /chat-messages: the request body and the bearer key. */
  datatype ChatCall = ChatCall(body: Obj, apiKey: Option<string>)

  /** A blocking call returns the response data; a streamed call delivers events or fails. */
  datatype ChatOutcome = Blocking(call: ChatCall) | Streamed(call: ChatCall, result: Result<seq<Json>>)

  /**
   * `sendChatMessageApi`: the request with its defaults goes out under the
   * configuration's key; a streamed call fails on a non-ok status or a
   * missing body, and otherwise delivers the events of the whole body.
   */
  function SendChatMessage(data: Obj, hasListener: bool, config: Option<string>, names: ConfigNames, keys: ApiKeys,
                           response: StreamResponse, parse: string -> Option<Json>): (r: ChatOutcome)
    ensures r.call == ChatCall(ChatRequest(data), GetApiKey(config, names, keys))
    ensures r.Streamed? <==> Streams(ChatRequest(data), hasListener)
    ensures r.Streamed? && !response.ok ==> r.result == Err("HTTP error! status: " + IntToString(response.status))
    ensures r.Streamed? && response.ok && response.body.None? ==> r.result == Err("Response body is null")
    ensures r.Streamed? && response.ok && response.body.Some? ==> r.result == Ok(StreamEvents(Flatten(response.body.value), parse))
  {
    var request := ChatRequest(data);
    var call := ChatCall(request, GetApiKey(config, names, keys));
    if !Streams(request, hasListener) then Blocking(call)
    else if !response.ok then Streamed(call, Err("HTTP error! status: " + IntToString(response.status)))
    else if response.body.None? then Streamed(call, Err("Response body is null"))
    else Streamed(call, Ok(StreamEvents(Flatten(response.body.value), parse)))
  }
}
