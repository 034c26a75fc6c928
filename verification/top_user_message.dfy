/**
 * The user banner of the content pages: the name it greets the user with
 * and the three task counters computed from the automation runs.
 */
module TopUserMessage {
  import opened Base
  import opened Strings
  import opened Seqs

  /** The name used when neither a display name nor an email is known. */
  const DEFAULT_NAME := "用户"

  /** `email.split("@")[0]`: the text before the first `@`. */
  function LocalPart(email: string): (r: string)
    ensures NoneOf(r, {'@'})
    ensures StartsWith(email, r)
    ensures NoneOf(email, {'@'}) ==> r == email
    decreases |email|
  {
    if email == [] || email[0] == '@' then []
    else [email[0]] + LocalPart(email[1..])
  }

  /** The profile's display name, else the email's local part, else 用户; empty texts count as absent. */
  function DisplayName(profileName: Option<string>, email: Option<string>): (r: string)
    ensures r != ""
    ensures profileName.Some? && profileName.value != "" ==> r == profileName.value
    ensures !(profileName.Some? && profileName.value != "") && email.Some? && LocalPart(email.value) != ""
      ==> r == LocalPart(email.value)
    ensures r == DEFAULT_NAME || (profileName.Some? && r == profileName.value) || (email.Some? && r == LocalPart(email.value))
  {
    if profileName.Some? && profileName.value != "" then profileName.value
    else if email.Some? && LocalPart(email.value) != "" then LocalPart(email.value)
    else DEFAULT_NAME
  }

  /** A run of the automation pipeline; `conf` is absent when the run has none, and its email may be absent. */
  datatype Run = Run(state: string, note: Option<string>, conf: Option<Option<string>>)

  datatype Counters = Counters(tasks: nat, running: nat, finished: nat)

  predicate IsRunning(r: Run)
  {
    r.state == "running"
  }

  /** Succeeded without being paused, or failed. */
  predicate IsFinished(r: Run)
  {
    (r.state == "success" && r.note != Some("paused")) || r.state == "failed"
  }

  /** A run belongs to the user when its configuration names the user's email. */
  predicate OwnedBy(r: Run, email: string)
  {
    r.conf.Some? && r.conf.value == Some(email)
  }

  /**
   * `fetchTasks`: the running counter is set first; a user who is not an
   * administrator and has an email counts only their runs, which fails
   * (leaving the other two counters as they were) when a run has no
   * configuration. A failed fetch changes nothing.
   */
  function FetchCounters(prev: Counters, runs: Option<seq<Run>>, isAdmin: bool, email: Option<string>): (r: Counters)
    ensures runs.None? ==> r == prev
    ensures runs.Some? ==> r.running == Count(IsRunning, runs.value)
    ensures runs.Some? && (isAdmin || email.None? || email.value == "") ==>
      r.tasks == |runs.value| && r.finished == Count(IsFinished, runs.value)
    ensures runs.Some? && !isAdmin && email.Some? && email.value != "" ==>
      if exists i :: 0 <= i < |runs.value| && runs.value[i].conf.None? then
        r.tasks == prev.tasks && r.finished == prev.finished
      else
        r.tasks == Count((x: Run) => OwnedBy(x, email.value), runs.value) && r.finished == Count(IsFinished, runs.value)
  {
    match runs
    case None => prev
    case Some(rs) =>
      var running := Count(IsRunning, rs);
      var finished := Count(IsFinished, rs);
      if !isAdmin && email.Some? && email.value != "" then
        if exists i :: 0 <= i < |rs| && rs[i].conf.None? then prev.(running := running)
        else Counters(Count((x: Run) => OwnedBy(x, email.value), rs), running, finished)
      else Counters(|rs|, running, finished)
  }

  /** Running and finished runs are disjoint, so together they never exceed the runs fetched. */
  lemma RunningAndFinishedFit(runs: seq<Run>, prev: Counters, isAdmin: bool, email: Option<string>)
    requires isAdmin || email.None? || email.value == ""
    ensures var c := FetchCounters(prev, Some(runs), isAdmin, email);
      c.running + c.finished <= c.tasks
  {
    CountDisjoint(IsRunning, IsFinished, runs);
  }
}
