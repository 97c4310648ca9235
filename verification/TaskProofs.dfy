/** What completing tasks promises: one completion, one successor, and a chain of
    successors that keeps the gap and the reminder's lead. */
module TaskProofs {
  import opened Outcomes
  import opened Calendar
  import opened Reminders
  import opened Tasks
  import opened Lifecycle
  import opened SuccessorProofs

  // One completion.

  /** Every reminder of the task is closed. */
  predicate AllClosed(after: Rows, id: Id) {
    forall r | r in after.reminders && after.reminders[r].task == Some(id) ::
      Closed(after.reminders[r].status) && after.reminders[r].isSent
  }

  /** Rows and tasks other than the task's are as they were. */
  predicate OthersKept(s: Rows, after: Rows, id: Id) {
    && (forall r | r in s.reminders && s.reminders[r].task != Some(id) ::
          r in after.reminders && after.reminders[r] == s.reminders[r])
    && (forall t | t in s.tasks && t != id :: t in after.tasks && after.tasks[t] == s.tasks[t])
  }

  /** At most the next task is added, open, and with at most one reminder, which
      is pending at its reminder time. */
  predicate AddsOnly(s: Rows, after: Rows, next: Option<Id>) {
    && after.tasks.Keys == s.tasks.Keys + (if next.Some? then {next.value} else {})
    && after.reminders.Keys <= s.reminders.Keys + {s.minted + 1}
    && (next.Some? ==>
          && next.value !in s.tasks && after.tasks[next.value].status.Open?
          && forall r | r in after.reminders && after.reminders[r].task == next ::
               after.reminders[r].status.Pending? && after.tasks[next.value].remindAt == Some(after.reminders[r].remindAt))
  }

  lemma FinishedClosesAll(s: Rows, id: Id, user: Id, now: Moment)
    requires Inv(s) && id in s.tasks && s.tasks[id].user == user
    ensures var after := Finished(s, id, user, now);
      AllClosed(after, id) && OthersKept(s, after, id) && after.reminders.Keys == s.reminders.Keys
    ensures forall r | r in s.reminders :: Finished(s, id, user, now).reminders[r].task != Some(s.minted)
  {
    forall r | r in s.reminders ensures RowOk(s.tasks, s.minted, s.reminders[r]) {
    }
  }

  lemma ContinueAddsOne(s: Rows, id: Id, user: Id, next: Task, now: Moment)
    requires id in s.tasks && AllClosed(s, id) && next.status.Open?
    requires (forall r | r in s.reminders :: r < s.minted && s.reminders[r].task != Some(s.minted))
    requires forall t | t in s.tasks :: t < s.minted
    ensures AllClosed(Continue(s, user, next, now), id)
    ensures forall r | r in s.reminders :: Continue(s, user, next, now).reminders[r] == s.reminders[r]
    ensures forall t | t in s.tasks :: Continue(s, user, next, now).tasks[t] == s.tasks[t]
    ensures AddsOnly(s, Continue(s, user, next, now), Some(s.minted))
  {
  }

  /** Completing closes every reminder of the task, changes no other row or task,
      and adds at most one task with at most one pending reminder. */
  lemma {:induction false} CompletionEffect(s: Rows, id: Id, user: Id, following: Outcome<Option<Moment>>, now: Moment)
    requires Inv(s) && CompleteWith(s, id, user, following, now).Returned?
    requires CompleteWith(s, id, user, following, now).value.1.Completed?
    ensures var (after, result) := CompleteWith(s, id, user, following, now).value;
      && id in after.tasks && after.tasks[id].status.Done?
      && AllClosed(after, id) && OthersKept(s, after, id) && AddsOnly(s, after, result.next)
  {
    FinishedClosesAll(s, id, user, now);
    if following.value.Some? {
      ContinueAddsOne(Finished(s, id, user, now), id, user, Successor(s.tasks[id], following.value.value, now), now);
    }
  }

  /** Whether an event completes the task. */
  predicate Completes(s: Rows, t: Timed, id: Id) {
    && id in s.tasks && s.tasks[id].status.Open?
    && id in Step(s, t).tasks && Step(s, t).tasks[id].status.Done?
  }

  function Completions(s: Rows, events: seq<Timed>, id: Id): nat
    decreases |events|
  {
    if events == [] then 0
    else (if Completes(s, events[0], id) then 1 else 0) + Completions(Step(s, events[0]), events[1..], id)
  }

  predicate Reopens(e: Event, id: Id) {
    e.UpdateEvent? && e.task == id && e.target.ToOpen?
  }

  /** An edit that clears the rule; together with a reopening it would raise. */
  predicate ClearsRule(e: Event, id: Id) {
    e.UpdateEvent? && e.task == id && e.updates.rule == Set(None) && !e.target.ToOpen?
  }

  predicate ClosedTask(s: Rows, id: Id) {
    id in s.tasks && !s.tasks[id].status.Open?
  }

  predicate ClosedRecurring(s: Rows, id: Id) {
    ClosedTask(s, id) && s.tasks[id].rule.Some?
  }

  lemma UpdateKeepsClosed(s: Rows, id: Id, user: Id, expected: Option<TaskStatus>, target: Target, u: Updates,
      latest: Option<Id>, now: Moment, task: Id)
    requires Inv(s) && IsLatest(s, user, id, latest) && ClosedTask(s, task)
    requires !(id == task && target.ToOpen?) || s.tasks[task].rule.Some?
    ensures var after := Settle(s, Update(s, id, user, expected, target, u, latest, now));
      && ClosedTask(after, task)
      && (s.tasks[task].rule.Some? && (id == task ==> target.ToOpen? || u.rule != Set(None)) ==> after.tasks[task].rule.Some?)
  {
    if id != task {
      OtherUpdateLeaves(s, id, user, expected, target, u, latest, now, task);
    } else if Reaches(s, id, user, expected) && Acceptable(u) && !target.ToOpen? {
      RetargetStaysClosed(s, id, user, Edited(s.tasks[id], u), target, now);
    }
  }

  lemma OtherUpdateLeaves(s: Rows, id: Id, user: Id, expected: Option<TaskStatus>, target: Target, u: Updates,
      latest: Option<Id>, now: Moment, other: Id)
    requires Inv(s) && IsLatest(s, user, id, latest) && other in s.tasks && other != id
    ensures var after := Settle(s, Update(s, id, user, expected, target, u, latest, now));
      other in after.tasks && after.tasks[other] == s.tasks[other]
  {
    if Reaches(s, id, user, expected) && Acceptable(u) {
      RetargetLeavesOthers(s, id, user, Edited(s.tasks[id], u), target, now, other);
    }
  }

  lemma RetargetStaysClosed(s: Rows, id: Id, user: Id, t: Task, target: Target, now: Moment)
    requires Inv(s) && ClosedTask(s, id) && s.tasks[id].user == user && t.user == user && t.status == s.tasks[id].status && !target.ToOpen?
    ensures var r := Retarget(s, id, user, t, target, now);
      r.Returned? ==> ClosedTask(r.value, id) && r.value.tasks[id].rule == t.rule
  {
  }

  lemma RetargetLeavesOthers(s: Rows, id: Id, user: Id, t: Task, target: Target, now: Moment, other: Id)
    requires Inv(s) && id in s.tasks && s.tasks[id].user == user && t.user == user && other in s.tasks && other != id
    ensures var r := Retarget(s, id, user, t, target, now);
      r.Returned? ==> other in r.value.tasks && r.value.tasks[other] == s.tasks[other]
  {
    if target.ToDone? {
      CompletionLeavesOthers(s.(tasks := s.tasks[id := t]), id, user, NextAnchor(t, now), now, other);
    }
  }

  lemma CompletionLeavesOthers(s: Rows, id: Id, user: Id, following: Outcome<Option<Moment>>, now: Moment, other: Id)
    requires other in s.tasks && other < s.minted && (other != id || !s.tasks[id].status.Open?)
    ensures var after := AfterCompletion(s, CompleteWith(s, id, user, following, now));
      other in after.tasks && after.tasks[other] == s.tasks[other]
  {
  }

  lemma StepKeepsClosed(s: Rows, t: Timed, id: Id)
    requires Inv(s) && ClosedTask(s, id)
    requires !Reopens(t.event, id) || s.tasks[id].rule.Some?
    ensures ClosedTask(Step(s, t), id)
    ensures s.tasks[id].rule.Some? && !ClearsRule(t.event, id) ==> Step(s, t).tasks[id].rule.Some?
  {
    match t.event
    case CompleteEvent(task, user) =>
      CompletionLeavesOthers(s, task, user, NextAnchorOf(s, task, t.now), t.now, id);
    case UpdateEvent(task, user, expected, target, u, latest) =>
      if Selects(s, t.event) {
        UpdateKeepsClosed(s, task, user, expected, target, u, latest, t.now, id);
      }
    case _ =>
  }

  lemma {:induction false} ClosedNeverCompletes(s: Rows, events: seq<Timed>, id: Id)
    requires Inv(s) && AllOwned(s, events) && ClosedTask(s, id)
    requires (forall t | t in events :: !Reopens(t.event, id))
          || (s.tasks[id].rule.Some? && forall t | t in events :: !ClearsRule(t.event, id))
    ensures Completions(s, events, id) == 0 && ClosedTask(Run(s, events), id)
    decreases |events|
  {
    if events != [] {
      StepKeepsInv(s, events[0]);
      StepKeepsClosed(s, events[0], id);
      ClosedNeverCompletes(Step(s, events[0]), events[1..], id);
    }
  }

  /** Whatever else runs in between, a task is completed at most once unless it is
      reopened; and the successors it leaves are at most one per completion. */
  lemma {:induction false} CompletedAtMostOnce(s: Rows, events: seq<Timed>, id: Id)
    requires Inv(s) && AllOwned(s, events) && forall t | t in events :: !Reopens(t.event, id)
    ensures Completions(s, events, id) <= 1
    decreases |events|
  {
    if events != [] {
      StepKeepsInv(s, events[0]);
      if Completes(s, events[0], id) {
        ClosedNeverCompletes(Step(s, events[0]), events[1..], id);
      } else {
        CompletedAtMostOnce(Step(s, events[0]), events[1..], id);
      }
    }
  }

  /** A recurring occurrence, once closed, stays closed and is never completed
      again while nobody clears its rule, whatever other edits, changes of the
      rule included, and attempts to reopen it are made. */
  lemma RecurringStaysClosed(s: Rows, events: seq<Timed>, id: Id)
    requires Inv(s) && AllOwned(s, events) && ClosedRecurring(s, id) && forall t | t in events :: !ClearsRule(t.event, id)
    ensures Completions(s, events, id) == 0 && ClosedTask(Run(s, events), id)
  {
    ClosedNeverCompletes(s, events, id);
  }

  /** And only so long: the guard looks at the rule alone, so clearing the rule of
      any closed recurring task lets the next edit reopen it. */
  lemma ClearingTheRuleReopens(s: Rows, id: Id, latest: Option<Id>, now: Moment)
    requires Inv(s) && ClosedRecurring(s, id) && IsLatest(s, s.tasks[id].user, id, latest)
    ensures var none := Updates(Keep, Keep, Keep, Keep, Keep, Keep, Keep, false);
      var user := s.tasks[id].user;
      var first := Update(s, id, user, None, Unchanged, none.(rule := Set(None)), latest, now);
      && Update(s, id, user, None, ToOpen, none, latest, now) == Raised
      && first.Returned? && first.value.reminders == s.reminders && id in first.value.tasks && id < first.value.minted
      && var second := Update(first.value, id, user, None, ToOpen, none, latest, now);
      second.Returned? && id in second.value.tasks && second.value.tasks[id].status.Open?
  {
  }

  // Repeated requests.

  datatype Request = Request(user: Id, now: Moment)

  function Requested(s: Rows, id: Id, requests: seq<Request>): Rows
    decreases |requests|
  {
    if requests == [] then s
    else Requested(AfterCompletion(s, Complete(s, id, requests[0].user, requests[0].now)), id, requests[1..])
  }

  /** A request that completes the task now. */
  predicate Effective(s: Rows, id: Id, q: Request) {
    var r := Complete(s, id, q.user, q.now);
    r.Returned? && r.value.1.Completed?
  }

  lemma EffectiveCloses(s: Rows, id: Id, q: Request)
    requires Inv(s) && Effective(s, id, q)
    ensures ClosedTask(Complete(s, id, q.user, q.now).value.0, id)
  {
  }

  lemma IneffectiveIsSilent(s: Rows, id: Id, q: Request)
    requires !Effective(s, id, q)
    ensures AfterCompletion(s, Complete(s, id, q.user, q.now)) == s
  {
  }

  /** Skipping a request that changed nothing. */
  lemma SkipOne(s: Rows, id: Id, requests: seq<Request>)
    requires requests != [] && !Effective(s, id, requests[0])
    ensures Requested(s, id, requests) == Requested(s, id, requests[1..])
  {
    IneffectiveIsSilent(s, id, requests[0]);
  }

  lemma OneMoreWithout<T>(all: seq<T>, p: T -> bool, n: nat)
    requires 0 < |all| && n < |all| && !p(all[0]) && forall i :: 0 <= i < n ==> !p(all[1..][i])
    ensures forall i :: 0 <= i < n + 1 ==> !p(all[i])
  {
    forall i | 0 < i < n + 1 ensures !p(all[i]) {
      assert all[i] == all[1..][i - 1];
    }
  }

  /** Retried completion requests, from whomever, come to exactly the first
      effective one; without one they change nothing. */
  lemma {:induction false} RequestsAreIdempotent(s: Rows, id: Id, requests: seq<Request>) returns (first: nat)
    requires Inv(s)
    ensures first <= |requests| && forall i :: 0 <= i < first ==> !Effective(s, id, requests[i])
    ensures first == |requests| ==> Requested(s, id, requests) == s
    ensures first < |requests| ==> Effective(s, id, requests[first])
    ensures first < |requests| ==>
      Requested(s, id, requests) == Complete(s, id, requests[first].user, requests[first].now).value.0
    decreases |requests|
  {
    first := 0;
    if requests == [] {
    } else if Effective(s, id, requests[0]) {
      EffectiveCloses(s, id, requests[0]);
      ClosedAbsorbs(Complete(s, id, requests[0].user, requests[0].now).value.0, id, requests[1..]);
    } else {
      var later := RequestsAreIdempotent(s, id, requests[1..]);
      SkipOne(s, id, requests);
      OneMoreWithout(requests, q => Effective(s, id, q), later);
      first := later + 1;
    }
  }

  lemma {:induction false} ClosedAbsorbs(s: Rows, id: Id, requests: seq<Request>)
    requires ClosedTask(s, id)
    ensures Requested(s, id, requests) == s
    decreases |requests|
  {
    if requests != [] {
      ClosedAbsorbs(s, id, requests[1..]);
    }
  }

  // The alarm bound to a deadline.

  predicate Alarmed(s: Rows, row: Id, task: Id, at: Moment) {
    && row in s.reminders && s.reminders[row].task == Some(task)
    && s.reminders[row].status.Pending? && s.reminders[row].lease.None? && s.reminders[row].remindAt == at
  }

  /** Moving the deadline moves the alarm: it keeps its distance from the deadline
      and exactly one row is set to it, the row that was waiting if there was one;
      without a deadline no alarm is left. */
  lemma AlarmFollowsDeadline(s: Rows, id: Id, u: Updates, latest: Option<Id>, now: int)
    requires Inv(s) && id in s.tasks && ValidTask(s.tasks[id]) && IsLatest(s, s.tasks[id].user, id, latest)
    requires MovesAlarm(s.tasks[id], u) && SyncAlarm(s, id, u, latest, now).Returned?
    ensures var t, after := s.tasks[id], SyncAlarm(s, id, u, latest, now).value;
      id in after.tasks
      && (t.due.Some? && t.dueMinutes.Some? ==>
            && after.tasks[id].remindAt.Some? && ValidMoment(after.tasks[id].remindAt.value)
            && Instant(after.tasks[id].remindAt.value)
                 == Instant(Moment(t.due.value, 60 * t.dueMinutes.value)) - 60 * t.remindBefore.value
            && Alarmed(after, if latest.Some? then latest.value else s.minted, id, after.tasks[id].remindAt.value))
      && (t.due.None? || t.dueMinutes.None? ==>
            && after.tasks[id].remindAt.None?
            && forall r | r in after.reminders :: !Unfinished(after.reminders[r], t.user, id))
  {
    var t := s.tasks[id];
    if t.due.Some? && t.dueMinutes.Some? {
      EarlierSubtracts(Moment(t.due.value, 60 * t.dueMinutes.value), 60 * t.remindBefore.value);
    }
  }
}
