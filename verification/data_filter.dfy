/**
 * The comment filter page: likes, length and keyword filters over the
 * collected comments, de-duplication by content, the numeric inputs and
 * the hand-over to the analysis page.
 */
module DataFilter {
  import opened Base
  import opened Strings
  import opened Seqs
  import NoteText

  datatype Comment = Comment(id: string, content: string, likeCount: int)

  /** The keyword field: split on ',', trim each piece, drop blanks. */
  function KeywordList(text: string): (r: seq<string>)
    ensures forall k :: 0 <= k < |r| ==> r[k] != [] && IsTrimmed(r[k])
    ensures |r| <= |Split(text, {','})|
    ensures r == Filter(NoteText.NotEmpty, Map(Trim, Split(text, {','})))
  {
    NoteText.CleanIsTrimThenFilter(Split(text, {','}));
    NoteText.Clean(Split(text, {','}))
  }

  /** The keyword filter runs when the field is not blank and yields at least one keyword. */
  predicate KeywordsActive(text: string)
  {
    Trim(text) != [] && |KeywordList(text)| > 0
  }

  /** Case-insensitive match of one of the keywords, read as literal text. */
  predicate MatchesAny(content: string, keywords: seq<string>)
  {
    exists k :: 0 <= k < |keywords| && Contains(Lower(content), Lower(keywords[k]))
  }

  predicate LikesOk(c: Comment, minLikes: int) { minLikes <= 0 || c.likeCount >= minLikes }
  predicate LengthOk(c: Comment, minLength: int) { minLength <= 0 || |c.content| >= minLength }
  predicate KeywordsOk(c: Comment, text: string) { !KeywordsActive(text) || MatchesAny(c.content, KeywordList(text)) }

  /** The reference condition: a comment survives the three filters iff it meets all of them. */
  predicate Passes(c: Comment, minLikes: int, minLength: int, text: string)
  {
    LikesOk(c, minLikes) && LengthOk(c, minLength) && KeywordsOk(c, text)
  }

  function ByLikes(s: seq<Comment>, minLikes: int): (r: seq<Comment>)
    ensures r == Filter(c => LikesOk(c, minLikes), s)
  {
    GuardedFilter(minLikes > 0, c => LikesOk(c, minLikes), s);
    if minLikes > 0 then Filter(c => LikesOk(c, minLikes), s) else s
  }

  function ByLength(s: seq<Comment>, minLength: int): (r: seq<Comment>)
    ensures r == Filter(c => LengthOk(c, minLength), s)
  {
    GuardedFilter(minLength > 0, c => LengthOk(c, minLength), s);
    if minLength > 0 then Filter(c => LengthOk(c, minLength), s) else s
  }

  function ByKeywords(s: seq<Comment>, text: string): (r: seq<Comment>)
    ensures r == Filter(c => KeywordsOk(c, text), s)
  {
    GuardedFilter(KeywordsActive(text), c => KeywordsOk(c, text), s);
    if KeywordsActive(text) then Filter(c => KeywordsOk(c, text), s) else s
  }

  /** A `Set` of contents already seen: the first comment with each content stays. */
  function UniqueContents(s: seq<Comment>): seq<Comment>
  {
    DedupBy(s, (c: Comment) => c.content)
  }

  /**
   * `applyFilters`: with no original comments the current filtered list is
   * left as it is; otherwise the three filters run in order and duplicates
   * by content are dropped.
   */
  function ApplyFilters(original: seq<Comment>, current: seq<Comment>, minLikes: int, minLength: int, text: string): (r: seq<Comment>)
    ensures original == [] ==> r == current
    ensures original != [] ==> IsSubseq(r, original)
  {
    if original == [] then current
    else
      var s := ByKeywords(ByLength(ByLikes(original, minLikes), minLength), text);
      SubseqTrans(ByLength(ByLikes(original, minLikes), minLength), ByLikes(original, minLikes), original);
      SubseqTrans(s, ByLength(ByLikes(original, minLikes), minLength), original);
      SubseqTrans(UniqueContents(s), s, original);
      UniqueContents(s)
  }

  /** The three filters in a row keep exactly the comments that meet `Passes`, in order. */
  lemma StagesAreOneFilter(original: seq<Comment>, minLikes: int, minLength: int, text: string)
    ensures ByKeywords(ByLength(ByLikes(original, minLikes), minLength), text)
         == Filter(c => Passes(c, minLikes, minLength, text), original)
  {
    FilterThree(c => LikesOk(c, minLikes), c => LengthOk(c, minLength), c => KeywordsOk(c, text),
                c => Passes(c, minLikes, minLength, text), original);
  }

  /**
   * What the filtered list holds, stated against `Passes`: every kept comment
   * passes, contents are pairwise distinct, each kept comment is the first
   * passing comment with its content, and every passing content is kept.
   */
  lemma ApplyFiltersSpec(original: seq<Comment>, current: seq<Comment>, minLikes: int, minLength: int, text: string)
    requires original != []
    ensures var r := ApplyFilters(original, current, minLikes, minLength, text);
      && (forall i :: 0 <= i < |r| ==> Passes(r[i], minLikes, minLength, text))
      && (forall i, j :: 0 <= i < j < |r| ==> r[i].content != r[j].content)
      && (forall i :: 0 <= i < |r| ==>
            FirstWithKey(Filter(c => Passes(c, minLikes, minLength, text), original), (c: Comment) => c.content, r[i].content) == Some(r[i]))
      && (forall i :: 0 <= i < |original| && Passes(original[i], minLikes, minLength, text) ==>
            exists j :: 0 <= j < |r| && r[j].content == original[i].content)
  {
    StagesAreOneFilter(original, minLikes, minLength, text);
    assert ApplyFilters(original, current, minLikes, minLength, text)
        == DedupBy(Filter(c => Passes(c, minLikes, minLength, text), original), (c: Comment) => c.content);
    FilterDedupSpec(c => Passes(c, minLikes, minLength, text), (c: Comment) => c.content, original);
  }

  /** The likes threshold bounds every kept comment from below. */
  lemma LikesThreshold(original: seq<Comment>, current: seq<Comment>, minLikes: int, minLength: int, text: string)
    requires original != [] && minLikes > 0
    ensures forall c :: c in ApplyFilters(original, current, minLikes, minLength, text) ==> c.likeCount >= minLikes
  {
    ApplyFiltersSpec(original, current, minLikes, minLength, text);
    var r := ApplyFilters(original, current, minLikes, minLength, text);
    forall c | c in r ensures c.likeCount >= minLikes {
      var i :| 0 <= i < |r| && r[i] == c;
    }
  }

  /** `parseInt(value) || 0`: a number that does not parse counts as no threshold. */
  function LikesInput(parsed: Option<int>): (r: int)
    ensures r == parsed.GetOr(0)
    ensures parsed.None? ==> r == 0
  {
    if parsed.Some? && parsed.value != 0 then parsed.value else 0
  }

  /** `parseInt(value) || 2`: a missing or zero length becomes 2, so the threshold is never 0. */
  function MinLengthInput(parsed: Option<int>): (r: int)
    ensures r != 0
    ensures parsed.Some? && parsed.value != 0 ==> r == parsed.value
    ensures parsed.None? || parsed.value == 0 ==> r == 2
  {
    if parsed.Some? && parsed.value != 0 then parsed.value else 2
  }

  /** The outcome of "pass to analysis": the list written to session storage, or an error. */
  datatype Handover = Handover(stored: Option<seq<Comment>>, success: string, error: string)

  function PassToAnalysis(filtered: seq<Comment>, previous: Handover): (r: Handover)
    ensures r.stored.Some? <==> filtered != []
    ensures r.stored.Some? ==> r.stored.value == filtered && r.success != [] && r.error == previous.error
    ensures r.stored.None? ==> r.error != [] && r.success == previous.success
  {
    if |filtered| > 0 then Handover(Some(filtered), "数据已传递到分析页面，请切换到分析标签页查看", previous.error)
    else Handover(None, previous.success, "没有可传递的数据")
  }
}
