/**
 * The automation task page: creating a task from the form, stopping,
 * resuming and deleting tasks by id, the status badges, and which of the
 * stop and resume buttons a row offers. Task ids and timestamps come from
 * the clock and are parameters.
 */
module Automation {
  import opened Base
  import opened Strings
  import opened Seqs

  const RUNNING := "running"
  const STOPPED := "stopped"
  const COMPLETED := "completed"
  const FAILED := "failed"

  datatype Task = Task(
    id: string, name: string, status: string, createdAt: string, completedAt: Option<string>,
    progress: int, device: Option<string>, account: Option<string>)

  /** The new-task form: name, chosen device and chosen account. */
  datatype Form = Form(name: string, device: string, account: string)

  const EMPTY_FORM := Form("", "", "")

  datatype Page = Page(tasks: seq<Task>, form: Form)

  /** A task needs a name that is not blank, a device and an account. */
  predicate CanCreate(f: Form)
  {
    Trim(f.name) != "" && f.device != "" && f.account != ""
  }

  /**
   * Creating a task puts it, running at progress 0, before all others and
   * clears the form; an incomplete form changes nothing.
   */
  function CreateTask(p: Page, id: string, now: string): (r: Page)
    ensures !CanCreate(p.form) ==> r == p
    ensures CanCreate(p.form) ==> r.form == EMPTY_FORM && |r.tasks| == |p.tasks| + 1 && r.tasks[1..] == p.tasks
    ensures CanCreate(p.form) ==> (r.tasks[0].id == id && r.tasks[0].name == p.form.name
      && r.tasks[0].status == RUNNING && r.tasks[0].progress == 0
      && r.tasks[0].device == Some(p.form.device) && r.tasks[0].account == Some(p.form.account))
  {
    if !CanCreate(p.form) then p
    else
      var t := Task(id, p.form.name, RUNNING, now, None, 0, Some(p.form.device), Some(p.form.account));
      Page([t] + p.tasks, EMPTY_FORM)
  }

  /** Every task with the id gets the status; all other tasks are unchanged. */
  function SetStatus(tasks: seq<Task>, id: string, status: string): (r: seq<Task>)
    ensures |r| == |tasks|
    ensures forall i :: 0 <= i < |tasks| ==> r[i] == (if tasks[i].id == id then tasks[i].(status := status) else tasks[i])
  {
    Map((t: Task) => if t.id == id then t.(status := status) else t, tasks)
  }

  /** The stop button: the task with the id is stopped, every other task is kept as it is. */
  function Stop(tasks: seq<Task>, id: string): (r: seq<Task>)
    ensures |r| == |tasks|
    ensures forall i :: 0 <= i < |tasks| ==> r[i] == (if tasks[i].id == id then tasks[i].(status := STOPPED) else tasks[i])
    ensures forall i :: 0 <= i < |r| ==> (r[i].id == id ==> r[i].status == STOPPED)
  {
    SetStatus(tasks, id, STOPPED)
  }

  /** The resume button: the task with the id runs again, every other task is kept as it is. */
  function Resume(tasks: seq<Task>, id: string): (r: seq<Task>)
    ensures |r| == |tasks|
    ensures forall i :: 0 <= i < |tasks| ==> r[i] == (if tasks[i].id == id then tasks[i].(status := RUNNING) else tasks[i])
    ensures forall i :: 0 <= i < |r| ==> (r[i].id == id ==> r[i].status == RUNNING)
  {
    SetStatus(tasks, id, RUNNING)
  }

  /** Resuming a task that was running before it was stopped gives back the same list. */
  lemma ResumeAfterStop(tasks: seq<Task>, id: string)
    requires forall i :: 0 <= i < |tasks| && tasks[i].id == id ==> tasks[i].status == RUNNING
    ensures Resume(Stop(tasks, id), id) == tasks
  {
    var r := Resume(Stop(tasks, id), id);
    assert forall i :: 0 <= i < |tasks| ==> r[i] == tasks[i];
  }

  /** Delete removes every task with the id and keeps the rest in order. */
  function Delete(tasks: seq<Task>, id: string): (r: seq<Task>)
    ensures IsSubseq(r, tasks)
    ensures forall t :: t in r <==> t in tasks && t.id != id
    ensures forall t :: multiset(r)[t] == if t.id != id then multiset(tasks)[t] else 0
  {
    var keep := (t: Task) => t.id != id;
    FilterMultiset(keep, tasks);
    Filter(keep, tasks)
  }

  /** The row buttons besides delete. */
  datatype RowAction = StopButton | ResumeButton | NoButton

  /** Stop is offered only for a running task and resume only for a stopped one. */
  function Offered(t: Task): (r: RowAction)
    ensures r == StopButton <==> t.status == RUNNING
    ensures r == ResumeButton <==> t.status == STOPPED
  {
    if t.status == RUNNING then StopButton
    else if t.status == STOPPED then ResumeButton
    else NoButton
  }

  /** Using the offered button flips the row to the other button; nothing else on the page changes. */
  lemma OfferedButtonFlips(tasks: seq<Task>, i: nat)
    requires i < |tasks| && Offered(tasks[i]) != NoButton
    ensures var after := if Offered(tasks[i]) == StopButton then Stop(tasks, tasks[i].id) else Resume(tasks, tasks[i].id);
      Offered(after[i]) != NoButton && Offered(after[i]) != Offered(tasks[i])
      && forall j :: 0 <= j < |tasks| && tasks[j].id != tasks[i].id ==> after[j] == tasks[j]
  {
  }

  datatype Badge = Badge(text: string, color: string)

  /** The status badge; any status outside the four known ones reads 未知. */
  function StatusBadge(status: string): (r: Badge)
    ensures status == RUNNING <==> r.text == "运行中"
    ensures status == STOPPED <==> r.text == "已停止"
    ensures status == COMPLETED <==> r.text == "已完成"
    ensures status == FAILED <==> r.text == "失败"
    ensures status !in {RUNNING, STOPPED, COMPLETED, FAILED} <==> r == Badge("未知", "text-gray-600 bg-gray-100")
  {
    if status == RUNNING then Badge("运行中", "text-blue-600 bg-blue-100")
    else if status == STOPPED then Badge("已停止", "text-yellow-600 bg-yellow-100")
    else if status == COMPLETED then Badge("已完成", "text-green-600 bg-green-100")
    else if status == FAILED then Badge("失败", "text-red-600 bg-red-100")
    else Badge("未知", "text-gray-600 bg-gray-100")
  }

  /** A stopped task reads 已停止 and a resumed one 运行中. */
  lemma StopResumeBadges(tasks: seq<Task>, i: nat)
    requires i < |tasks|
    ensures StatusBadge(Stop(tasks, tasks[i].id)[i].status).text == "已停止"
    ensures StatusBadge(Resume(tasks, tasks[i].id)[i].status).text == "运行中"
  {
  }
}
