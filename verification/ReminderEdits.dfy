/** What the requests about one reminder leave behind, and exactly when they take
    effect. */
module ReminderEdits {
  import opened Common
  import opened Outcomes
  import opened Calendar
  import opened Recurrence
  import opened Reminders
  import opened Tasks
  import opened Lifecycle

  // Snoozing.

  /** A snooze of a row by its owner, or by the program, to a free moment. */
  predicate Snoozes(s: Rows, e: Event, id: Id) {
    && e.SnoozeEvent? && e.id == id && id in s.reminders
    && (e.asker.None? || e.asker.value == s.reminders[id].user)
    && !Taken(s.reminders, id, s.reminders[id].series, e.at)
  }

  function SnoozeRequests(s: Rows, events: seq<Timed>, id: Id): nat
    decreases |events|
  {
    if events == [] then 0
    else (if Snoozes(s, events[0].event, id) then 1 else 0) + SnoozeRequests(Step(s, events[0]), events[1..], id)
  }

  /** The row is still there, snoozed as often as before. */
  predicate SameSnoozes(s: Rows, after: Rows, id: Id) {
    id in s.reminders && id in after.reminders && after.reminders[id].snoozes == s.reminders[id].snoozes
  }

  lemma CompletionKeepsSnoozes(s: Rows, task: Id, user: Id, following: Outcome<Option<Moment>>, now: Moment, id: Id)
    requires Inv(s) && id in s.reminders
    ensures SameSnoozes(s, AfterCompletion(s, CompleteWith(s, task, user, following, now)), id)
  {
  }

  lemma RetargetKeepsSnoozes(s: Rows, task: Id, user: Id, t: Task, target: Target, now: Moment, id: Id)
    requires Inv(s) && id in s.reminders && task in s.tasks && t.user == user == s.tasks[task].user
    requires t.status == s.tasks[task].status
    ensures SameSnoozes(s, Settle(s, Retarget(s, task, user, t, target, now)), id)
  {
    if target.ToDone? {
      EditKeeps(s, task, t);
      CompletionKeepsSnoozes(s.(tasks := s.tasks[task := t]), task, user, NextAnchor(t, now), now, id);
    }
  }

  lemma SyncKeepsSnoozes(s: Rows, task: Id, u: Updates, latest: Option<Id>, now: int, id: Id)
    requires Inv(s) && id in s.reminders && task in s.tasks && IsLatest(s, s.tasks[task].user, task, latest)
    ensures SameSnoozes(s, Settle(s, SyncAlarm(s, task, u, latest, now)), id)
  {
  }

  lemma UpdateKeepsSnoozes(s: Rows, task: Id, user: Id, expected: Option<TaskStatus>, target: Target, u: Updates,
      latest: Option<Id>, now: Moment, id: Id)
    requires Inv(s) && id in s.reminders && IsLatest(s, user, task, latest)
    ensures SameSnoozes(s, Settle(s, Update(s, task, user, expected, target, u, latest, now)), id)
  {
    if Reaches(s, task, user, expected) && Acceptable(u) {
      var t := Edited(s.tasks[task], u);
      RetargetKeeps(s, task, user, t, target, now);
      RetargetKeepsSnoozes(s, task, user, t, target, now, id);
      var r := Retarget(s, task, user, t, target, now);
      if r.Returned? && r.value.tasks[task].status.Open? {
        SyncKeepsSnoozes(r.value, task, u, latest, Instant(now), id);
      }
    }
  }

  lemma MarkKeepsSnoozes(s: Rows, row: Id, token: Option<Id>, following: Outcome<Option<Moment>>, now: int, id: Id)
    requires Inv(s) && id in s.reminders
    ensures SameSnoozes(s, Settle(s, MarkWith(s, row, token, following, now)), id)
  {
  }

  lemma RowEventKeepsSnoozes(s: Rows, t: Timed, id: Id)
    requires Inv(s) && id in s.reminders
    requires !t.event.SnoozeEvent? && !t.event.CompleteEvent? && !t.event.UpdateEvent? && !t.event.MarkEvent?
    ensures SameSnoozes(s, Step(s, t), id)
  {
  }

  lemma StepCountsSnoozes(s: Rows, t: Timed, id: Id)
    requires Inv(s) && id in s.reminders
    ensures id in Step(s, t).reminders
    ensures Step(s, t).reminders[id].snoozes ==
            if Snoozes(s, t.event, id) then Min(5, s.reminders[id].snoozes + 1) else s.reminders[id].snoozes
  {
    match t.event
    case SnoozeEvent(row, asker, at) =>
      assert RowOk(s.tasks, s.minted, s.reminders[id]);
    case MarkEvent(row, token) =>
      MarkKeepsSnoozes(s, row, token, FollowingOf(s, row, Instant(t.now)), Instant(t.now), id);
    case CompleteEvent(task, user) => CompletionKeepsSnoozes(s, task, user, NextAnchorOf(s, task, t.now), t.now, id);
    case UpdateEvent(task, user, expected, target, u, latest) =>
      if Selects(s, t.event) {
        UpdateKeepsSnoozes(s, task, user, expected, target, u, latest, t.now, id);
      }
    case _ => RowEventKeepsSnoozes(s, t, id);
  }

  /** Over every run a row is snoozed exactly as often as its owner asks for a free
      moment, up to five times in its life, whatever else happens to it. */
  lemma {:induction false} SnoozedExactly(s: Rows, events: seq<Timed>, id: Id)
    requires Inv(s) && AllOwned(s, events) && id in s.reminders
    ensures id in Run(s, events).reminders
    ensures Run(s, events).reminders[id].snoozes == Min(5, s.reminders[id].snoozes + SnoozeRequests(s, events, id))
    decreases |events|
  {
    if events == [] {
      assert RowOk(s.tasks, s.minted, s.reminders[id]);
    } else {
      StepKeepsInv(s, events[0]);
      StepCountsSnoozes(s, events[0], id);
      SnoozedExactly(Step(s, events[0]), events[1..], id);
    }
  }

  /** Only one row may change. */
  predicate OnlyRow(s: Rows, after: Rows, id: Id) {
    && after.tasks == s.tasks && after.minted == s.minted && after.reminders.Keys == s.reminders.Keys
    && forall other | other in s.reminders && other != id :: after.reminders[other] == s.reminders[other]
  }

  /** A snooze takes effect exactly for an existing row of the asker that was
      snoozed fewer than five times, and raises for a moment that is taken; it
      moves the row, makes it waiting and unsent with no failure counted, and ends
      the repetition of one that was sent. */
  lemma SnoozeMovesTheRow(s: Rows, id: Id, asker: Option<Id>, at: Moment)
    requires id in s.reminders && (asker.None? || asker.value == s.reminders[id].user) && s.reminders[id].snoozes < 5
    ensures Snooze(s, id, asker, at).Returned? <==> !Taken(s.reminders, id, s.reminders[id].series, at)
    ensures Snooze(s, id, asker, at).Returned? ==>
      var r, after := s.reminders[id], Snooze(s, id, asker, at).value;
      && OnlyRow(s, after, id)
      && var moved := after.reminders[id];
      && moved.remindAt == moved.occurrence == at && moved.status.Snoozed? && !moved.isSent
      && moved.lease.None? && moved.nextAttempt.None? && moved.attempts == 0 && moved.snoozes == r.snoozes + 1
      && moved.rule == (if r.isSent then None else r.rule)
      && moved.user == r.user && moved.task == r.task && moved.series == r.series && moved.created == r.created
  {
  }

  lemma RefusedSnoozeIsSilent(s: Rows, id: Id, asker: Option<Id>, at: Moment)
    requires id !in s.reminders || (asker.Some? && asker.value != s.reminders[id].user) || s.reminders[id].snoozes >= 5
    ensures Snooze(s, id, asker, at) == Returned(s)
  {
  }

  // Answering and retrying.

  /** A resolution reaches exactly the user's own row, whatever its status, and
      closes it with nothing else changed. */
  lemma ResolveClosesTheRow(s: Rows, id: Id, user: Id)
    requires Inv(s)
    ensures var after := Resolve(s, id, user);
      && OnlyRow(s, after, id)
      && (id in s.reminders && s.reminders[id].user == user ==>
            after.reminders[id] == s.reminders[id].(status := Resolved, isSent := true))
      && (id !in s.reminders || s.reminders[id].user != user ==> after == s)
  {
    if id in s.reminders {
      assert RowOk(s.tasks, s.minted, s.reminders[id]);
    }
  }

  /** A retry takes effect exactly for the user's own row that failed for good, of
      no task or an open one; the row waits again, at once and with a fresh count
      of failures. */
  lemma RetriedExactly(s: Rows, id: Id, user: Id, now: int)
    requires Inv(s)
    ensures var after := Retry(s, id, user, now);
      && OnlyRow(s, after, id)
      && (after != s <==>
            id in s.reminders && s.reminders[id].user == user && s.reminders[id].status.Failed?
            && OpenTask(s.tasks, s.reminders[id].task))
      && (after != s ==>
            after.reminders[id] ==
              s.reminders[id].(status := Pending, attempts := 0, nextAttempt := Some(now), lease := None))
  {
    if id in s.reminders {
      assert RowOk(s.tasks, s.minted, s.reminders[id]);
    }
  }

  // Creating and setting a task's reminder.

  /** A new reminder stands in a series of its own, as requested. */
  lemma CreatedAsRequested(s: Rows, user: Id, task: Option<Id>, at: Moment, rule: Option<Rule>, now: int)
    requires Inv(s)
    ensures Create(s, user, task, at, rule, now).Returned? <==> task.None? || task.value in s.tasks
    ensures Create(s, user, task, at, rule, now).Returned? ==>
      var after := Create(s, user, task, at, rule, now).value;
      && after.tasks == s.tasks && after.reminders.Keys == s.reminders.Keys + {s.minted}
      && (forall other | other in s.reminders :: after.reminders[other] == s.reminders[other])
      && SetAs(after.reminders[s.minted], user, task, at, rule)
      && forall other | other in s.reminders :: s.reminders[other].series != after.reminders[s.minted].series
  {
    forall other | other in s.reminders ensures s.reminders[other].series < s.minted {
      assert RowOk(s.tasks, s.minted, s.reminders[other]);
    }
  }

  /** A waiting row at a moment, not claimed and with no failure counted. */
  predicate SetAs(r: Reminder, user: Id, task: Option<Id>, at: Moment, rule: Option<Rule>) {
    && r.user == user && r.task == task && r.rule == rule && r.remindAt == r.occurrence == at
    && r.status.Pending? && !r.isSent && r.lease.None? && r.nextAttempt.None? && r.attempts == 0
  }

  /** A task has its reminder as requested: on its unfinished row that was created
      last, which keeps its series, or else on a new row. It raises exactly for a
      missing task without a row and for a moment taken in the row's series. */
  lemma UpsertedAsRequested(s: Rows, user: Id, task: Id, latest: Option<Id>, at: Moment, rule: Option<Rule>, now: int)
    requires Inv(s) && IsLatest(s, user, task, latest)
    ensures Upsert(s, user, task, latest, at, rule, now).Returned? <==>
      if latest.None? then task in s.tasks
      else !Taken(s.reminders, latest.value, s.reminders[latest.value].series, at)
    ensures Upsert(s, user, task, latest, at, rule, now).Returned? ==>
      var after := Upsert(s, user, task, latest, at, rule, now).value;
      var row := if latest.Some? then latest.value else s.minted;
      && row in after.reminders && SetAs(after.reminders[row], user, Some(task), at, rule)
      && (latest.Some? ==>
            OnlyRow(s, after, row) && after.reminders[row].series == s.reminders[row].series
            && after.reminders[row].snoozes == s.reminders[row].snoozes)
  {
  }

  // Closing.

  /** The unfinished and the delivered rows of a user's task get the status, and no
      other row changes. */
  lemma ClosedExactly(reminders: map<Id, Reminder>, user: Id, task: Id, status: Status, id: Id)
    requires id in reminders
    ensures CloseAll(reminders, user, task, status).Keys == reminders.Keys
    ensures var r := reminders[id];
      CloseAll(reminders, user, task, status)[id] ==
        if r.task == Some(task) && r.user == user && (Waiting(r.status) || r.status.Failed? || r.status.Delivered?)
        then r.(status := status, isSent := true, lease := None) else r
  {
  }
}
