/** What an update or a completion leaves, field by field, and exactly when each
    takes effect. */
module TaskEdits {
  import opened Outcomes
  import opened Calendar
  import opened Recurrence
  import opened Reminders
  import opened Tasks
  import opened Lifecycle
  import opened SuccessorProofs
  import opened TaskProofs

  /** A field holds the requested value, or its old one when none was requested. */
  predicate Takes<T(==)>(change: Change<T>, before: T, after: T) {
    match change
    case Keep => after == before
    case Set(value) => after == value
  }

  /** The fields that an update sets as they are. */
  predicate TakesFields(u: Updates, before: Task, after: Task) {
    && after.user == before.user
    && (match u.card case Keep => after.card == before.card case Set(card) => card == Some(after.card))
    && Takes(u.scheduled, before.scheduled, after.scheduled)
    && Takes(u.due, before.due, after.due)
    && Takes(u.dueMinutes, before.dueMinutes, after.dueMinutes)
    && Takes(u.remindBefore, before.remindBefore, after.remindBefore)
    && Takes(u.rule, before.rule, after.rule)
  }

  /** What a target does to the status and the completion time. */
  predicate TakesStatus(target: Target, before: Task, after: Task, now: int) {
    match target
    case Unchanged => after.status == before.status && after.completed == before.completed
    case ToDone =>
      if before.status.Open? then after.status.Done? && after.completed == Some(now)
      else after.status == before.status && after.completed == before.completed
    case ToCancelled => after.status.Dropped? && after.completed == Some(now)
    case ToOpen => after.status.Open? && after.completed.None?
    case Unknown => false
  }

  /** An open task whose alarm is bound to a deadline that the update names. */
  predicate Rebinds(u: Updates, after: Task) {
    after.status.Open? && after.remindBefore.Some? && (u.due.Set? || u.dueMinutes.Set? || u.remindBefore.Set?)
  }

  /** The reminder time is as requested, or follows the requested deadline. */
  predicate TakesReminder(u: Updates, before: Task, after: Task) {
    if !Rebinds(u, after) then Takes(u.remindAt, before.remindAt, after.remindAt)
    else if after.due.None? || after.dueMinutes.None? then after.remindAt.None?
    else
      && after.remindAt.Some? && ValidMoment(after.remindAt.value)
      && Instant(after.remindAt.value)
           == Instant(Moment(after.due.value, 60 * after.dueMinutes.value)) - 60 * after.remindBefore.value
  }

  /** Every reminder of the user's task is over. */
  predicate NoneUnfinished(s: Rows, user: Id, task: Id) {
    forall r | r in s.reminders :: !Unfinished(s.reminders[r], user, task)
  }

  /** What happens to the reminders: a cancelled task has none left, a rebound one
      exactly the alarm, and otherwise an update that does not complete the task
      leaves them alone. */
  predicate TakesAlarm(s: Rows, after: Rows, id: Id, user: Id, target: Target, u: Updates, latest: Option<Id>)
    requires id in s.tasks && id in after.tasks
  {
    var t := after.tasks[id];
    && (target.ToCancelled? ==> NoneUnfinished(after, user, id))
    && (Rebinds(u, t) ==>
          if t.due.None? || t.dueMinutes.None? then NoneUnfinished(after, user, id)
          else t.remindAt.Some? && Alarmed(after, if latest.Some? then latest.value else s.minted, id, t.remindAt.value))
    && (!Rebinds(u, t) && (target.Unchanged? || target.ToOpen?) ==> after.reminders == s.reminders)
    && (target.ToDone? && s.tasks[id].status.Open? ==> AllClosed(after, id))
  }

  predicate ValidUpdates(u: Updates) {
    && (u.due.Set? && u.due.value.Some? ==> ValidDate(u.due.value.value))
    && (u.dueMinutes.Set? && u.dueMinutes.value.Some? ==> u.dueMinutes.value.value < 24 * 60)
  }

  /** The rows between the status part of an update and the alarm part. */
  predicate Retargeted(s: Rows, middle: Rows, id: Id, user: Id, target: Target, u: Updates, now: Moment)
    requires id in s.tasks
  {
    && id in middle.tasks && TakesFields(u, s.tasks[id], middle.tasks[id])
    && TakesStatus(target, s.tasks[id], middle.tasks[id], Instant(now))
    && Takes(u.remindAt, s.tasks[id].remindAt, middle.tasks[id].remindAt)
    && (target.Unchanged? || target.ToOpen? ==> middle.reminders == s.reminders)
    && (target.ToCancelled? ==> NoneUnfinished(middle, user, id))
    && (middle.tasks[id].status.Open? ==> middle.reminders == s.reminders && middle.minted == s.minted)
  }

  lemma CompletionStores(s: Rows, id: Id, user: Id, following: Outcome<Option<Moment>>, now: Moment)
    requires Inv(s) && id in s.tasks && CompleteWith(s, id, user, following, now).Returned? && s.tasks[id].user == user
    ensures var after := CompleteWith(s, id, user, following, now).value.0;
      && id in after.tasks
      && after.tasks[id] == if s.tasks[id].status.Open?
                            then s.tasks[id].(status := Done, completed := Some(Instant(now))) else s.tasks[id]
  {
  }

  lemma DoneTakes(s: Rows, id: Id, user: Id, u: Updates, now: Moment)
    requires Inv(s) && id in s.tasks && s.tasks[id].user == user && Acceptable(u)
    requires Retarget(s, id, user, Edited(s.tasks[id], u), ToDone, now).Returned?
    ensures Retargeted(s, Retarget(s, id, user, Edited(s.tasks[id], u), ToDone, now).value, id, user, ToDone, u, now)
  {
    var t := Edited(s.tasks[id], u);
    var edited := s.(tasks := s.tasks[id := t]);
    EditKeeps(s, id, t);
    CompletionStores(edited, id, user, NextAnchorOf(edited, id, now), now);
  }

  lemma RetargetTakes(s: Rows, id: Id, user: Id, u: Updates, target: Target, now: Moment)
    requires Inv(s) && id in s.tasks && s.tasks[id].user == user && Acceptable(u)
    requires Retarget(s, id, user, Edited(s.tasks[id], u), target, now).Returned?
    ensures Retargeted(s, Retarget(s, id, user, Edited(s.tasks[id], u), target, now).value, id, user, target, u, now)
  {
    if target.ToDone? {
      DoneTakes(s, id, user, u, now);
    }
  }

  lemma RetargetClosesDone(s: Rows, id: Id, user: Id, u: Updates, now: Moment)
    requires Inv(s) && id in s.tasks && s.tasks[id].user == user && Acceptable(u) && s.tasks[id].status.Open?
    requires Retarget(s, id, user, Edited(s.tasks[id], u), ToDone, now).Returned?
    ensures AllClosed(Retarget(s, id, user, Edited(s.tasks[id], u), ToDone, now).value, id)
  {
    var edited := s.(tasks := s.tasks[id := Edited(s.tasks[id], u)]);
    CompletionEffect(edited, id, user, NextAnchorOf(edited, id, now), now);
  }

  /** What the alarm part does to a task left open. */
  predicate Synced(middle: Rows, after: Rows, id: Id, u: Updates, latest: Option<Id>)
    requires id in middle.tasks
  {
    var t := middle.tasks[id];
    && id in after.tasks && after.tasks[id] == t.(remindAt := after.tasks[id].remindAt)
    && (!Rebinds(u, t) ==> after == middle)
    && (Rebinds(u, t) ==> TakesReminder(u, t, after.tasks[id]))
    && (Rebinds(u, t) ==>
          if t.due.None? || t.dueMinutes.None? then NoneUnfinished(after, t.user, id)
          else Alarmed(after, if latest.Some? then latest.value else middle.minted, id, after.tasks[id].remindAt.value))
  }

  lemma SyncTakes(s: Rows, id: Id, u: Updates, latest: Option<Id>, now: int)
    requires id in s.tasks && s.tasks[id].status.Open? && IsLatest(s, s.tasks[id].user, id, latest)
    requires SyncAlarm(s, id, u, latest, now).Returned?
    requires s.tasks[id].due.Some? ==> ValidDate(s.tasks[id].due.value)
    requires s.tasks[id].dueMinutes.Some? ==> s.tasks[id].dueMinutes.value < 24 * 60
    ensures Synced(s, SyncAlarm(s, id, u, latest, now).value, id, u, latest)
  {
    var t := s.tasks[id];
    if t.due.Some? && t.dueMinutes.Some? && t.remindBefore.Some? {
      EarlierSubtracts(Moment(t.due.value, 60 * t.dueMinutes.value), 60 * t.remindBefore.value);
    }
  }

  /** What an update that reached its row leaves behind. */
  predicate StoresTheRequest(s: Rows, after: Rows, id: Id, user: Id, target: Target, u: Updates, latest: Option<Id>,
      now: Moment)
    requires id in s.tasks
  {
    && id in after.tasks
    && TakesFields(u, s.tasks[id], after.tasks[id])
    && TakesStatus(target, s.tasks[id], after.tasks[id], Instant(now))
    && TakesReminder(u, s.tasks[id], after.tasks[id])
    && TakesAlarm(s, after, id, user, target, u, latest)
  }

  lemma StatusAndAlarm(s: Rows, middle: Rows, after: Rows, id: Id, user: Id, target: Target, u: Updates,
      latest: Option<Id>, now: Moment)
    requires id in s.tasks && s.tasks[id].user == user && Retargeted(s, middle, id, user, target, u, now)
    requires target.ToDone? && s.tasks[id].status.Open? ==> AllClosed(middle, id)
    requires if middle.tasks[id].status.Open? then Synced(middle, after, id, u, latest) else after == middle
    ensures StoresTheRequest(s, after, id, user, target, u, latest, now)
  {
  }

  /** Every update that reaches its row and returns stores each requested value
      and keeps every other field, whatever the target; the reminder time and the
      alarm follow the requested deadline when they are bound to it. */
  lemma UpdateStoresTheRequest(s: Rows, id: Id, user: Id, expected: Option<TaskStatus>, target: Target, u: Updates,
      latest: Option<Id>, now: Moment)
    requires Inv(s) && IsLatest(s, user, id, latest)
    requires id in s.tasks && s.tasks[id].user == user && (expected.None? || expected == Some(s.tasks[id].status))
    requires ValidTask(s.tasks[id]) && ValidUpdates(u)
    requires Update(s, id, user, expected, target, u, latest, now).Returned?
    ensures StoresTheRequest(s, Update(s, id, user, expected, target, u, latest, now).value, id, user, target, u, latest, now)
  {
    var middle := Retarget(s, id, user, Edited(s.tasks[id], u), target, now).value;
    RetargetTakes(s, id, user, u, target, now);
    if target.ToDone? && s.tasks[id].status.Open? {
      RetargetClosesDone(s, id, user, u, now);
    }
    if middle.tasks[id].status.Open? {
      SyncTakes(middle, id, u, latest, Instant(now));
    }
    StatusAndAlarm(s, middle, Update(s, id, user, expected, target, u, latest, now).value, id, user, target, u, latest, now);
  }

  // When they take effect.

  /** The new alarm would repeat an occurrence of its series. */
  predicate AlarmTaken(s: Rows, u: Updates, after: Task, latest: Option<Id>) {
    && Rebinds(u, after) && after.due.Some? && after.dueMinutes.Some? && latest.Some? && latest.value in s.reminders
    && Taken(s.reminders, latest.value, s.reminders[latest.value].series,
             Earlier(Moment(after.due.value, 60 * after.dueMinutes.value), 60 * after.remindBefore.value))
  }

  lemma MissedUpdateIsSilent(s: Rows, id: Id, user: Id, expected: Option<TaskStatus>, target: Target, u: Updates,
      latest: Option<Id>, now: Moment)
    requires Inv(s) && IsLatest(s, user, id, latest)
    requires id !in s.tasks || s.tasks[id].user != user || (expected.Some? && expected.value != s.tasks[id].status)
    ensures Update(s, id, user, expected, target, u, latest, now) == Returned(s)
  {
  }

  /** An update that reaches its row is refused exactly for reopening a closed
      recurring task, for arguments that it does not take, for an unknown status,
      when a task to complete finds no next occurrence, and when the new alarm is
      taken. */
  lemma UpdateReturnsExactly(s: Rows, id: Id, user: Id, expected: Option<TaskStatus>, target: Target, u: Updates,
      latest: Option<Id>, now: Moment)
    requires Inv(s) && IsLatest(s, user, id, latest)
    requires id in s.tasks && s.tasks[id].user == user && (expected.None? || expected == Some(s.tasks[id].status))
    ensures Update(s, id, user, expected, target, u, latest, now).Returned? <==>
      && !(target.ToOpen? && !s.tasks[id].status.Open? && s.tasks[id].rule.Some?)
      && !u.unsupported && u.card != Set(None) && !target.Unknown?
      && (target.ToDone? && s.tasks[id].status.Open? ==> NextAnchor(Edited(s.tasks[id], u), now).Returned?)
      && (target.ToOpen? || (target.Unchanged? && s.tasks[id].status.Open?) ==>
            !AlarmTaken(s, u, Edited(s.tasks[id], u).(status := Open), latest))
  {
  }

  /** A completion takes effect exactly for the user's open task whose next
      occurrence, if it repeats, can be found; its time is stored and the
      reminders that it closes are reported. */
  lemma CompletesExactly(s: Rows, id: Id, user: Id, now: Moment)
    requires Inv(s)
    ensures var r := Complete(s, id, user, now);
      && (r.Returned? && r.value.1.Completed? <==>
            id in s.tasks && s.tasks[id].user == user && s.tasks[id].status.Open? && NextAnchor(s.tasks[id], now).Returned?)
      && (r.Returned? && r.value.1.Missing? <==> id !in s.tasks || s.tasks[id].user != user)
      && (r.Returned? && r.value.1.Completed? ==>
            && r.value.0.tasks[id] == s.tasks[id].(status := Done, completed := Some(Instant(now)))
            && forall row :: row in r.value.1.closed <==>
                 row in s.reminders && s.reminders[row].task == Some(id) && s.reminders[row].user == user
                 && !s.reminders[row].status.Resolved? && !s.reminders[row].status.Cancelled?)
  {
  }

  /** The task that continues a completed one is a new open one of the same user,
      with the same card, due time, alarm distance and rule. */
  lemma SuccessorInherits(s: Rows, id: Id, user: Id, now: Moment)
    requires Complete(s, id, user, now).Returned? && Complete(s, id, user, now).value.1.Completed?
    requires Complete(s, id, user, now).value.1.next.Some?
    ensures var t, u := s.tasks[id], Complete(s, id, user, now).value.0.tasks[s.minted];
      && Complete(s, id, user, now).value.1.next == Some(s.minted)
      && u.user == t.user && u.card == t.card && u.status.Open? && u.completed.None?
      && u.dueMinutes == t.dueMinutes && u.remindBefore == t.remindBefore && u.rule == t.rule
      && u.scheduled.Some? == t.scheduled.Some? && u.due.Some? == t.due.Some? && u.remindAt.Some? == t.remindAt.Some?
  {
  }
}
