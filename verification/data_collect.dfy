/**
 * The collection page: the merged, newest-first task list, per-user task
 * isolation, the status and quantity cells of the task table, the
 * jump-to-page control of the notes table and the keyword pick after a
 * keyword fetch. The page window and page slice are in `Paging`.
 */
module DataCollect {
  import opened Base
  import opened Strings
  import opened Seqs
  import opened JsonValues
  import Arith

  /** A collection run; `startDate` is its start time in milliseconds, `conf` its serialised configuration. */
  datatype CollectTask = CollectTask(runId: string, state: string, startDate: int, endDate: string, note: string, conf: JsonText)

  /** `conf.email` when the configuration parses to an object with a string email. */
  function ConfEmail(conf: JsonText): (r: Option<string>)
    ensures r.Some? ==> conf.Parsed? && conf.value.JObj?
  {
    if conf.Parsed? && conf.value.JObj? && "email" in conf.value.fields && conf.value.fields["email"].JStr?
    then Some(conf.value.fields["email"].s)
    else None
  }

  predicate OwnedBy(t: CollectTask, email: string)
  {
    ConfEmail(t.conf) == Some(email)
  }

  function StartOf(t: CollectTask): int { t.startDate }

  /**
   * The notes runs followed by the comments runs, newest start first; runs
   * that started at the same time keep that order (the sort is stable).
   */
  function MergeTasks(notesRuns: seq<CollectTask>, commentsRuns: seq<CollectTask>): (r: seq<CollectTask>)
    ensures SortedDesc(StartOf, r)
    ensures multiset(r) == multiset(notesRuns) + multiset(commentsRuns)
    ensures forall d :: Filter(KeyIs(StartOf, d), r) == Filter(KeyIs(StartOf, d), notesRuns + commentsRuns)
  {
    var r := SortDesc(StartOf, notesRuns + commentsRuns);
    forall d ensures Filter(KeyIs(StartOf, d), r) == Filter(KeyIs(StartOf, d), notesRuns + commentsRuns) {
      SortDescStable(StartOf, notesRuns + commentsRuns, d);
    }
    r
  }

  /**
   * Task isolation: a non-admin with an email sees exactly the runs whose
   * configuration parses and names that email; everyone else sees all runs.
   */
  function VisibleTasks(tasks: seq<CollectTask>, isAdmin: bool, email: string): (r: seq<CollectTask>)
    ensures IsSubseq(r, tasks)
    ensures isAdmin || email == [] ==> r == tasks
    ensures !isAdmin && email != [] ==> forall t :: t in r ==> OwnedBy(t, email)
    ensures !isAdmin && email != [] ==> forall i :: 0 <= i < |tasks| && OwnedBy(tasks[i], email) ==> tasks[i] in r
    ensures !isAdmin && email != [] ==> forall t :: multiset(r)[t] == if OwnedBy(t, email) then multiset(tasks)[t] else 0
  {
    SubseqRefl(tasks);
    var keep := (t: CollectTask) => OwnedBy(t, email);
    FilterMultiset(keep, tasks);
    if !isAdmin && email != [] then Filter(keep, tasks) else tasks
  }

  /** Isolation never shows a run whose configuration is unparsable. */
  lemma UnparsableHidden(tasks: seq<CollectTask>, email: string, t: CollectTask)
    requires email != [] && t in VisibleTasks(tasks, false, email)
    ensures t.conf.Parsed?
  {
  }

  /** The label of the status badge. */
  function StatusLabel(state: string, note: string): (r: string)
    ensures state == "success" ==> r == (if note != "paused" then "成功" else "已结束")
    ensures state == "running" ==> r == "运行中"
    ensures state == "failed" ==> r == "失败"
  {
    if state == "success" && note != "paused" then "成功"
    else if state == "running" then "运行中"
    else if state == "failed" then "失败"
    else if state == "success" && note == "paused" then "已结束"
    else state
  }

  /** The raw state is shown exactly for the states the badge does not know. */
  lemma StatusLabelRaw(state: string, note: string)
    ensures StatusLabel(state, note) == state <==> state !in {"success", "running", "failed"}
  {
  }

  /** The quantity cell: what was asked for, and whether the run collects comments. */
  datatype Quantity = Quantity(amount: Json, isCommentTask: bool, keyword: Json)

  function Field(j: Json, name: string): Json
  {
    if j.JObj? && name in j.fields then j.fields[name] else JNull
  }

  /**
   * A comments run (its id contains 'xhs_comments') shows `max_comments`,
   * any other `max_notes`, each falling back to 0; a configuration that does
   * not parse, or parses to `null` (reading a field of it throws), leaves
   * the defaults 0, notes and ''.
   */
  function TaskQuantity(runId: string, conf: JsonText): (r: Quantity)
    ensures !conf.Parsed? || conf.value == JNull ==> r == Quantity(JNum(0), false, JStr(""))
    ensures conf.Parsed? && conf.value != JNull ==> r.isCommentTask == Contains(runId, "xhs_comments")
    ensures conf.Parsed? && conf.value != JNull ==>
      var field := if Contains(runId, "xhs_comments") then "max_comments" else "max_notes";
      r.amount == (if Truthy(Field(conf.value, field)) then Field(conf.value, field) else JNum(0))
    ensures conf.Parsed? && conf.value != JNull ==>
      r.keyword == (if Truthy(Field(conf.value, "keyword")) then Field(conf.value, "keyword") else JStr(""))
    ensures Truthy(r.amount) || r.amount == JNum(0)
  {
    if !conf.Parsed? || conf.value == JNull then Quantity(JNum(0), false, JStr(""))
    else
      var c := conf.value;
      var isComment := Contains(runId, "xhs_comments");
      var asked := if isComment then Field(c, "max_comments") else Field(c, "max_notes");
      var kw := if Truthy(Field(c, "keyword")) then Field(c, "keyword") else JStr("");
      Quantity(if Truthy(asked) then asked else JNum(0), isComment, kw)
  }

  /** The total of "big" pages when the server gives none: 1000 notes per page, rounded up. */
  function NotesTotalPages(total: nat, serverPages: nat): (r: nat)
    ensures serverPages != 0 ==> r == serverPages
    ensures serverPages == 0 ==> r * 1000 >= total && (r > 0 ==> (r - 1) * 1000 < total)
  {
    if serverPages != 0 then serverPages else Arith.CeilDiv(total, 1000)
  }

  datatype Jump = Ignored | Invalid | Go(page: int)

  /**
   * `handleJumpToNotesPage`: an empty field or no keyword does nothing; a
   * page that does not parse or lies outside `[1, totalPages]` is refused.
   */
  function JumpToNotesPage(input: string, parsed: Option<int>, keyword: string, totalPages: int): (r: Jump)
    ensures input == [] || keyword == [] ==> r == Ignored
    ensures r.Go? ==> parsed == Some(r.page) && 1 <= r.page <= totalPages
    ensures input != [] && keyword != [] && parsed.Some? && 1 <= parsed.value <= totalPages ==> r == Go(parsed.value)
  {
    if input == [] || keyword == [] then Ignored
    else if parsed.None? || parsed.value < 1 || parsed.value > totalPages then Invalid
    else Go(parsed.value)
  }

  function Reverse<T>(s: seq<T>): (r: seq<T>)
    ensures |r| == |s|
    ensures forall i :: 0 <= i < |s| ==> r[i] == s[|s| - 1 - i]
  {
    seq(|s|, i requires 0 <= i < |s| => s[|s| - 1 - i])
  }

  datatype KeywordPick = NoKeywords | Picked(list: seq<string>, selected: string)

  /**
   * After a keyword fetch the list is shown reversed, and the shared latest
   * keyword stays selected when it is in the list; otherwise the first of
   * the reversed list, i.e. the last one fetched.
   */
  function PickKeyword(fetched: seq<string>, latest: string): (r: KeywordPick)
    ensures fetched == [] <==> r.NoKeywords?
    ensures r.Picked? ==> r.selected in fetched && r.list == Reverse(fetched)
    ensures r.Picked? && latest != [] && latest in fetched ==> r.selected == latest
    ensures r.Picked? && (latest == [] || latest !in fetched) ==> r.selected == fetched[|fetched| - 1]
  {
    if |fetched| == 0 then NoKeywords
    else
      var rev := Reverse(fetched);
      assert forall x :: x in rev <==> x in fetched by {
        forall x | x in fetched ensures x in rev {
          var i :| 0 <= i < |fetched| && fetched[i] == x;
          assert rev[|fetched| - 1 - i] == x;
        }
      }
      Picked(rev, if latest != [] && latest in rev then latest else rev[0])
  }
}
