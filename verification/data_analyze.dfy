/**
 * The analysis page: filter options built from the intent records, the
 * keyword/intent filter, starting an analysis run, checking its status and
 * exporting the intent list as CSV.
 */
module DataAnalyze {
  import opened Base
  import opened Strings
  import opened Seqs

  /** The option meaning "do not filter on this dimension". */
  const ALL: string := "全部"

  /** One analysed comment; the numeric columns are carried as their printed text. */
  datatype IntentRow = IntentRow(
    id: string, commentId: string, author: string, content: string, intent: string,
    score: string, keyword: string, analysis: string, createdAt: string)

  /**
   * One option list: '全部' first, then either the server's list (when the
   * response carries one) or the distinct non-empty record values in order
   * of first appearance.
   */
  function OptionList(serverList: Option<seq<string>>, values: seq<string>): (r: seq<string>)
    ensures |r| >= 1 && r[0] == ALL
    ensures serverList.Some? ==> r[1..] == serverList.value
    ensures serverList.None? ==> Distinct(r[1..]) && IsSubseq(r[1..], values)
    ensures serverList.None? ==> forall k :: 1 <= k < |r| ==> r[k] != []
    ensures serverList.None? ==> forall i :: 0 <= i < |values| && values[i] != [] ==> values[i] in r[1..]
    ensures serverList.None? ==> InFirstOccurrenceOrder(values, r[1..])
  {
    if serverList.Some? then [ALL] + serverList.value
    else
      var d := DistinctValues(values);
      assert ([ALL] + d)[1..] == d;
      [ALL] + d
  }

  /** The distinct non-empty values, in order of first appearance. */
  function DistinctValues(values: seq<string>): (d: seq<string>)
    ensures Distinct(d) && IsSubseq(d, values)
    ensures forall k :: 0 <= k < |d| ==> d[k] != []
    ensures forall i :: 0 <= i < |values| && values[i] != [] ==> values[i] in d
    ensures InFirstOccurrenceOrder(values, d)
  {
    var nonEmpty := Filter((v: string) => v != [], values);
    var d := Dedup(nonEmpty);
    SubseqTrans(d, nonEmpty, values);
    FilterOrder((v: string) => v != [], values, d);
    assert forall k :: 0 <= k < |d| ==> d[k] in d;
    d
  }

  datatype Options = Options(keywords: seq<string>, intents: seq<string>)

  /** The option lists after a fetch; a response without data leaves only '全部'. */
  function BuildOptions(hasData: bool, records: seq<IntentRow>, serverKeywords: Option<seq<string>>, serverIntents: Option<seq<string>>): (r: Options)
    ensures !hasData ==> r.keywords == [ALL] && r.intents == [ALL]
    ensures hasData ==> r.keywords == OptionList(serverKeywords, Map((x: IntentRow) => x.keyword, records))
    ensures hasData ==> r.intents == OptionList(serverIntents, Map((x: IntentRow) => x.intent, records))
  {
    if !hasData then Options([ALL], [ALL])
    else Options(OptionList(serverKeywords, Map((x: IntentRow) => x.keyword, records)),
                 OptionList(serverIntents, Map((x: IntentRow) => x.intent, records)))
  }

  /** A record passes a dimension when '全部' is chosen or its value is exactly the choice. */
  predicate Selected(value: string, choice: string)
  {
    choice == ALL || value == choice
  }

  datatype IntentView = IntentView(filtered: seq<IntentRow>, page: int)

  /**
   * The filter effect: nothing happens while there are no records; otherwise
   * the records matching both choices are shown from page 1.
   */
  function FilterIntents(records: seq<IntentRow>, view: IntentView, keyword: string, intent: string): (r: IntentView)
    ensures records == [] ==> r == view
    ensures records != [] ==> r.page == 1 && IsSubseq(r.filtered, records)
    ensures records != [] ==> forall x :: x in r.filtered ==> Selected(x.keyword, keyword) && Selected(x.intent, intent)
    ensures records != [] ==> forall i :: 0 <= i < |records| && Selected(records[i].keyword, keyword) && Selected(records[i].intent, intent) ==> records[i] in r.filtered
    ensures records != [] ==> forall x :: multiset(r.filtered)[x] == if Selected(x.keyword, keyword) && Selected(x.intent, intent) then multiset(records)[x] else 0
  {
    if records == [] then view
    else
      var byKeyword := ByChoice(records, keyword, true);
      var byIntent := ByChoice(byKeyword, intent, false);
      ByChoiceSpec(records, keyword, true);
      ByChoiceSpec(byKeyword, intent, false);
      SubseqTrans(byIntent, byKeyword, records);
      IntentView(byIntent, 1)
  }

  /** One of the two narrowing steps: by keyword, or by intent; the `all` choice keeps every row. */
  function ByChoice(rows: seq<IntentRow>, choice: string, onKeyword: bool): seq<IntentRow>
  {
    if choice == ALL then rows
    else Filter(Matches(choice, onKeyword), rows)
  }

  /** The test of a narrowing step other than `all`. */
  function Matches(choice: string, onKeyword: bool): IntentRow -> bool
  {
    (x: IntentRow) => (if onKeyword then x.keyword else x.intent) == choice
  }

  /**
   * A narrowing step keeps, in order, exactly the rows whose field the
   * choice selects, each as many times as it occurs.
   */
  lemma ByChoiceSpec(rows: seq<IntentRow>, choice: string, onKeyword: bool)
    ensures var r := ByChoice(rows, choice, onKeyword);
      IsSubseq(r, rows)
      && (forall x :: x in r <==> x in rows && Selected(if onKeyword then x.keyword else x.intent, choice))
      && (forall x :: multiset(r)[x] == if Selected(if onKeyword then x.keyword else x.intent, choice) then multiset(rows)[x] else 0)
  {
    if choice == ALL {
      SubseqRefl(rows);
    } else {
      FilterMultiset(Matches(choice, onKeyword), rows);
    }
  }

  /** The comments handed over from the filter page, reduced to what analysis needs. */
  datatype FilteredComment = FilteredComment(id: string, content: string)

  datatype AnalysisConf = AnalysisConf(profileSentence: string, commentIds: seq<string>)

  const MAX_ANALYSED := 20

  /** `handleStartAnalysis`: no comments is an error; otherwise the first 20 ids, in order. */
  function StartAnalysis(comments: seq<FilteredComment>, profileSentence: string): (r: Result<AnalysisConf>)
    ensures comments == [] <==> r.Err?
    ensures r.Ok? ==> r.value.profileSentence == profileSentence
    ensures r.Ok? ==> |r.value.commentIds| == (if |comments| < MAX_ANALYSED then |comments| else MAX_ANALYSED)
    ensures r.Ok? ==> forall i :: 0 <= i < |r.value.commentIds| ==> r.value.commentIds[i] == comments[i].id
  {
    if |comments| == 0 then Err("没有可分析的评论数据")
    else
      var ids := Map((c: FilteredComment) => c.id, comments);
      Ok(AnalysisConf(profileSentence, if |ids| <= MAX_ANALYSED then ids else ids[..MAX_ANALYSED]))
  }

  datatype Run = Run(runId: string, state: string, endDate: string)

  datatype StatusCheck = StatusCheck(task: Run, status: string, refetch: bool, error: Option<string>)

  const MSG_NO_STATUS := "无法获取任务状态，请稍后再试"
  const MSG_RUN_FAILED := "分析任务失败，请检查日志"

  /**
   * `checkAnalysisStatus` once the run list is in: a run that is not listed
   * is an error; otherwise the task takes the run's state, 'success' and
   * 'failed' become the page status (success also refetches the intents),
   * and any other state leaves the status as it was.
   */
  function CheckStatus(task: Run, status: string, runs: seq<Run>): (r: StatusCheck)
    ensures Find((x: Run) => x.runId == task.runId, runs).None? ==> r == StatusCheck(task, status, false, Some(MSG_NO_STATUS))
    ensures Find((x: Run) => x.runId == task.runId, runs).Some? ==>
      var found := Find((x: Run) => x.runId == task.runId, runs).value;
      && r.task.runId == task.runId && r.task.state == found.state && r.refetch == (found.state == "success")
      && r.status == (if found.state == "success" || found.state == "failed" then found.state else status)
      && r.task.endDate == (if found.endDate != [] then found.endDate else task.endDate)
      && r.error == (if found.state == "failed" then Some(MSG_RUN_FAILED) else None)
  {
    match Find((x: Run) => x.runId == task.runId, runs)
    case None => StatusCheck(task, status, false, Some(MSG_NO_STATUS))
    case Some(found) =>
      var updated := task.(state := found.state, endDate := if found.endDate != [] then found.endDate else task.endDate);
      if found.state == "success" then StatusCheck(updated, "success", true, None)
      else if found.state == "failed" then StatusCheck(updated, "failed", false, Some(MSG_RUN_FAILED))
      else StatusCheck(updated, status, false, None)
  }

  /** A run in any state other than success or failed leaves a running page running. */
  lemma OtherStatesKeepRunning(task: Run, runs: seq<Run>)
    requires Find((x: Run) => x.runId == task.runId, runs).Some?
    requires Find((x: Run) => x.runId == task.runId, runs).value.state !in {"success", "failed"}
    ensures CheckStatus(task, "running", runs).status == "running"
  {
  }

  /** Doubling every '"', as section 2 rule 7 of RFC 4180 asks inside a quoted field. */
  function Escape(s: string): (r: string)
    ensures |r| >= |s|
    decreases |s|
  {
    if s == [] then [] else (if s[0] == '"' then "\"\"" else [s[0]]) + Escape(s[1..])
  }

  /** `"${text.replace(/"/g, '""')}"`. */
  function Quote(s: string): (r: string)
    ensures |r| >= 2 && r[0] == '"' && r[|r| - 1] == '"'
  {
    "\"" + Escape(s) + "\""
  }

  /** Reading an escaped field body: '""' stands for one '"', a lone '"' is malformed. */
  function Unescape(t: string): (r: Option<string>)
    decreases |t|
  {
    if t == [] then Some([])
    else if t[0] == '"' then
      if |t| >= 2 && t[1] == '"' then
        match Unescape(t[2..])
        case None => None
        case Some(rest) => Some("\"" + rest)
      else None
    else
      match Unescape(t[1..])
      case None => None
      case Some(rest) => Some([t[0]] + rest)
  }

  /** Strip the surrounding quotes of a field and unescape what is inside. */
  function Unquote(f: string): (r: Option<string>)
    ensures r.Some? ==> |f| >= 2 && f[0] == '"' && f[|f| - 1] == '"'
  {
    if |f| >= 2 && f[0] == '"' && f[|f| - 1] == '"' then Unescape(f[1..|f| - 1]) else None
  }

  lemma {:induction false} UnescapeEscape(s: string)
    ensures Unescape(Escape(s)) == Some(s)
    decreases |s|
  {
    if s != [] {
      UnescapeEscape(s[1..]);
      var e := Escape(s);
      if s[0] == '"' {
        assert e[2..] == Escape(s[1..]);
      } else {
        assert e[1..] == Escape(s[1..]);
      }
      assert [s[0]] + s[1..] == s;
    }
  }

  /** An exported content or analysis cell reads back as the original text. */
  lemma QuoteRoundTrip(s: string)
    ensures Unquote(Quote(s)) == Some(s)
  {
    var q := Quote(s);
    assert q[1..|q| - 1] == Escape(s);
    UnescapeEscape(s);
  }

  lemma {:induction false} EscapeNoneOf(s: string, seps: set<char>)
    requires NoneOf(s, seps) && '"' !in seps
    ensures NoneOf(Escape(s), seps)
    decreases |s|
  {
    if s != [] {
      EscapeNoneOf(s[1..], seps);
    }
  }

  const HEADERS: seq<string> := ["ID", "评论ID", "作者", "内容", "意向", "分数", "关键词", "分析", "创建时间"]

  function CsvHeader(): string
  {
    Join(HEADERS, ",")
  }

  /** The nine cells of a row, content and analysis quoted. */
  function RowCells(x: IntentRow): (r: seq<string>)
    ensures |r| == |HEADERS|
    ensures Unquote(r[3]) == Some(x.content) && Unquote(r[7]) == Some(x.analysis)
  {
    QuoteRoundTrip(x.content);
    QuoteRoundTrip(x.analysis);
    [x.id, x.commentId, x.author, Quote(x.content), x.intent, x.score, x.keyword, Quote(x.analysis), x.createdAt]
  }

  function CsvRow(x: IntentRow): string
  {
    Join(RowCells(x), ",")
  }

  function CsvLines(items: seq<IntentRow>): (r: seq<string>)
    ensures |r| == |items| + 1
    ensures forall i :: 0 <= i < |items| ==> r[i + 1] == CsvRow(items[i])
  {
    [CsvHeader()] + Map(CsvRow, items)
  }

  /** The first line is the header. */
  lemma CsvLinesHeader(items: seq<IntentRow>)
    ensures CsvLines(items)[0] == CsvHeader()
  {
  }

  /** `handleExportData`: nothing to export is an error; otherwise the lines joined by '\n'. */
  function ExportCsv(items: seq<IntentRow>): (r: Result<string>)
    ensures items == [] <==> r.Err?
    ensures r.Ok? ==> r.value == Join(CsvLines(items), "\n")
  {
    if |items| == 0 then Err("没有可导出的数据") else Ok(Join(CsvLines(items), "\n"))
  }

  /** The header line has exactly the nine named columns. */
  lemma HeaderColumns()
    ensures |HEADERS| == 9
    ensures Split(CsvHeader(), {','}) == HEADERS
  {
    HeaderCellsPlain();
    SplitJoin(HEADERS, ',', {','});
  }

  /** No column name holds a comma. */
  lemma HeaderCellsPlain()
    ensures forall k :: 0 <= k < |HEADERS| ==> NoneOf(HEADERS[k], {','})
  {
    forall k | 0 <= k < |HEADERS| ensures NoneOf(HEADERS[k], {','}) {
    }
  }

  lemma {:induction false} JoinNoneOf(parts: seq<string>, sep: string, seps: set<char>)
    requires NoneOf(sep, seps)
    requires forall k :: 0 <= k < |parts| ==> NoneOf(parts[k], seps)
    ensures NoneOf(Join(parts, sep), seps)
    decreases |parts|
  {
    if |parts| > 1 {
      JoinNoneOf(parts[1..], sep, seps);
    }
  }

  /** No cell of the record holds a line break. */
  predicate OneLine(x: IntentRow)
  {
    NoneOf(x.id, {'\n'}) && NoneOf(x.commentId, {'\n'}) && NoneOf(x.author, {'\n'})
    && NoneOf(x.content, {'\n'}) && NoneOf(x.intent, {'\n'}) && NoneOf(x.score, {'\n'})
    && NoneOf(x.keyword, {'\n'}) && NoneOf(x.analysis, {'\n'}) && NoneOf(x.createdAt, {'\n'})
  }

  lemma RowOneLine(x: IntentRow)
    requires OneLine(x)
    ensures NoneOf(CsvRow(x), {'\n'})
  {
    EscapeNoneOf(x.content, {'\n'});
    EscapeNoneOf(x.analysis, {'\n'});
    JoinNoneOf(RowCells(x), ",", {'\n'});
  }

  lemma HeaderOneLine()
    ensures NoneOf(CsvHeader(), {'\n'})
  {
    forall k | 0 <= k < |HEADERS| ensures NoneOf(HEADERS[k], {'\n'}) {
    }
    JoinNoneOf(HEADERS, ",", {'\n'});
  }

  /**
   * When no cell holds a line break, the export splits back into the header
   * followed by one line per record, in order.
   */
  lemma ExportLines(items: seq<IntentRow>)
    requires items != []
    requires forall i :: 0 <= i < |items| ==> OneLine(items[i])
    ensures ExportCsv(items).Ok?
    ensures Split(ExportCsv(items).value, {'\n'}) == CsvLines(items)
  {
    var lines := CsvLines(items);
    HeaderOneLine();
    forall k | 0 <= k < |lines| ensures NoneOf(lines[k], {'\n'}) {
      if k > 0 {
        RowOneLine(items[k - 1]);
      }
    }
    SplitJoin(lines, '\n', {'\n'});
  }
}
