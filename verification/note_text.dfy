/**
 * The topic and @-user list codec of the note editor: a comma-separated
 * field (ASCII ',' or full-width '，') read into a list of names, and a
 * list shown again as "a, b, c".
 */
module NoteText {
  import opened Strings
  import opened JsonValues
  import opened Seqs

  /** `TOPIC_SEPARATOR_REGEX`, the character class `[,，]`. */
  const SEPARATORS: set<char> := {',', '，'}

  /** A list entry as the parser produces it: non-empty, no separator, no surrounding whitespace. */
  predicate IsEntry(t: string)
  {
    t != [] && NoneOf(t, SEPARATORS) && IsTrimmed(t)
  }

  /** Trim every piece and drop the empty ones. */
  function Clean(pieces: seq<string>): (r: seq<string>)
    ensures forall k :: 0 <= k < |r| ==> r[k] != [] && IsTrimmed(r[k])
    ensures |r| <= |pieces|
    decreases |pieces|
  {
    if pieces == [] then []
    else
      var t := Trim(pieces[0]);
      if t == [] then Clean(pieces[1..]) else [t] + Clean(pieces[1..])
  }

  predicate NotEmpty(t: string)
  {
    t != []
  }

  /** Cleaning is `pieces.map(p => p.trim()).filter(p => p)`. */
  lemma {:induction false} CleanIsTrimThenFilter(pieces: seq<string>)
    ensures Clean(pieces) == Filter(NotEmpty, Map(Trim, pieces))
    decreases |pieces|
  {
    if pieces != [] {
      CleanIsTrimThenFilter(pieces[1..]);
      var m := Map(Trim, pieces);
      assert m[1..] == Map(Trim, pieces[1..]);
    }
  }

  /** Cleaning pieces that hold no separator yields entries. */
  lemma {:induction false} CleanEntries(pieces: seq<string>)
    requires forall k :: 0 <= k < |pieces| ==> NoneOf(pieces[k], SEPARATORS)
    ensures forall k :: 0 <= k < |Clean(pieces)| ==> IsEntry(Clean(pieces)[k])
    decreases |pieces|
  {
    if pieces != [] {
      TrimNoneOf(pieces[0], SEPARATORS);
      CleanEntries(pieces[1..]);
    }
  }

  /**
   * `parseTopics` / `parseAtUsers`: the empty field is the empty list;
   * otherwise split on either comma, trim, and drop blank entries.
   */
  function ParseList(text: string): (r: seq<string>)
    ensures forall k :: 0 <= k < |r| ==> IsEntry(r[k])
    ensures text == [] ==> r == []
    ensures r == Filter(NotEmpty, Map(Trim, Split(text, SEPARATORS)))
  {
    CleanIsTrimThenFilter(Split(text, SEPARATORS));
    if text == [] then
      assert Split(text, SEPARATORS) == [[]];
      []
    else
      CleanEntries(Split(text, SEPARATORS));
      Clean(Split(text, SEPARATORS))
  }

  /** `formatTopicsForDisplay` / `formatAtUsersForDisplay`: the entries joined by ", ". */
  function FormatList(items: seq<string>): string
  {
    Join(items, ", ")
  }

  lemma CleanEntryHead(t: string, rest: seq<string>)
    requires t != [] && IsTrimmed(t)
    ensures Clean([t] + rest) == [t] + Clean(rest)
  {
    TrimTrimmed(t);
    assert ([t] + rest)[1..] == rest;
  }

  /** A blank typed after a comma is trimmed away with the rest of the padding. */
  lemma CleanLeadingBlank(p: string, rest: seq<string>)
    ensures Clean([[' '] + p] + rest) == Clean([p] + rest)
  {
    TrimLeadingSpace(' ', p);
    assert ([[' '] + p] + rest)[1..] == rest;
    assert ([p] + rest)[1..] == rest;
  }

  /** The displayed text of `a :: rest` splits into `a`, then the pieces of `rest`'s text with a blank in front of the first. */
  lemma SplitFormatCons(items: seq<string>)
    requires |items| >= 2
    requires NoneOf(items[0], SEPARATORS)
    ensures var p := Split(FormatList(items[1..]), SEPARATORS);
      Split(FormatList(items), SEPARATORS) == [items[0]] + ([[' '] + p[0]] + p[1..])
  {
    var tail := FormatList(items[1..]);
    assert FormatList(items) == items[0] + [','] + ([' '] + tail);
    SplitAtSep(items[0], ',', [' '] + tail, SEPARATORS);
    SplitCons(' ', tail, SEPARATORS);
  }

  /** Splitting the displayed text of a non-empty entry list and cleaning the pieces recovers the list. */
  lemma {:induction false} CleanSplitFormat(items: seq<string>)
    requires |items| >= 1
    requires forall k :: 0 <= k < |items| ==> IsEntry(items[k])
    ensures Clean(Split(FormatList(items), SEPARATORS)) == items
    decreases |items|
  {
    if |items| == 1 {
      SplitNoSep(items[0], SEPARATORS);
      CleanEntryHead(items[0], []);
    } else {
      CleanSplitFormat(items[1..]);
      CleanSplitStep(items);
    }
  }

  /** The step of `CleanSplitFormat`: the first entry is recovered in front of the recovered rest. */
  lemma CleanSplitStep(items: seq<string>)
    requires |items| >= 2 && IsEntry(items[0])
    requires Clean(Split(FormatList(items[1..]), SEPARATORS)) == items[1..]
    ensures Clean(Split(FormatList(items), SEPARATORS)) == items
  {
    var p := Split(FormatList(items[1..]), SEPARATORS);
    var q := [[' '] + p[0]] + p[1..];
    SplitFormatCons(items);
    CleanEntryHead(items[0], q);
    CleanLeadingBlank(p[0], p[1..]);
    assert [p[0]] + p[1..] == p;
    assert items == [items[0]] + items[1..];
  }

  /** Showing a parsed list and parsing it again gives the same list. */
  lemma ParseFormatRoundTrip(items: seq<string>)
    requires forall k :: 0 <= k < |items| ==> IsEntry(items[k])
    ensures ParseList(FormatList(items)) == items
  {
    if items != [] {
      CleanSplitFormat(items);
      assert FormatList(items) != [] by {
        if |items| > 1 {
          assert FormatList(items) == items[0] + ", " + FormatList(items[1..]);
        }
      }
    }
  }

  /** `parseTopics(formatTopicsForDisplay(parseTopics(s))) == parseTopics(s)`. */
  lemma ParseIsStable(text: string)
    ensures ParseList(FormatList(ParseList(text))) == ParseList(text)
  {
    ParseFormatRoundTrip(ParseList(text));
  }

  /**
   * `safeParseAtUsers`: the stored array when the field holds a JSON
   * array, and the empty list for an empty field, unparsable text or any
   * other JSON value.
   */
  function SafeParseAtUsers(field: JsonText): (r: seq<Json>)
    ensures r != [] ==> field.Parsed? && field.value.JArr?
    ensures field.Parsed? && field.value.JArr? ==> r == field.value.items
  {
    match field
    case Parsed(JArr(items)) => items
    case _ => []
  }

  /** Reading back the @-user field the editor stored gives the parsed names. */
  lemma SafeParseStored(text: string)
    ensures SafeParseAtUsers(Parsed(StringArray(ParseList(text)))) == StringArray(ParseList(text)).items
    ensures |SafeParseAtUsers(Parsed(StringArray(ParseList(text))))| == |ParseList(text)|
  {
  }
}
