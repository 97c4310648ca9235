/** The rows changed in place: the functions of bot/db/crud/reminders.py and
    bot/services/tasks.py, each proved to take the step that Reminders and Tasks
    define. A raising method leaves the rows unchanged: its session rolls back. */
module PlannerRows {
  import opened Outcomes
  import opened Calendar
  import opened Recurrence
  import opened Reminders
  import opened Tasks
  import opened Lifecycle
  import opened SuccessorProofs

  datatype ReminderClaim = ReminderClaim(id: Id, token: Id)

  /** The order in which due rows are claimed. */
  predicate Before(r: Reminder, id: Id, other: Reminder, otherId: Id) {
    Instant(r.remindAt) < Instant(other.remindAt) || (Instant(r.remindAt) == Instant(other.remindAt) && id < otherId)
  }

  predicate IsFirst(reminders: map<Id, Reminder>, ids: set<Id>, first: Id)
    requires ids <= reminders.Keys
  {
    first in ids && forall id :: id in ids && id != first ==> Before(reminders[first], first, reminders[id], id)
  }

  lemma {:induction false} FirstExists(reminders: map<Id, Reminder>, ids: set<Id>) returns (first: Id)
    requires ids != {} && ids <= reminders.Keys
    ensures IsFirst(reminders, ids, first)
    decreases |ids|
  {
    var one :| one in ids;
    var others := ids - {one};
    if others == {} {
      assert ids == {one};
      first := one;
    } else {
      var next := FirstExists(reminders, others);
      first := if Before(reminders[one], one, reminders[next], next) then one else next;
    }
  }

  /** The due rows that no other session has locked. */
  function DueRows(s: Rows, locked: set<Id>, now: int): set<Id> {
    set id | id in s.reminders && Due(s, id, now) && id !in locked
  }

  type Claims = seq<ReminderClaim>

  /** The rows after the claims of one call, each taking the next token. */
  function ClaimAll(s: Rows, claims: Claims, now: int): Rows {
    if claims == [] then s else Claim(ClaimAll(s, claims[..|claims| - 1], now), claims[|claims| - 1].id, now)
  }

  /** The rows not yet claimed. */
  function Left(all: set<Id>, claims: Claims): (r: set<Id>)
    ensures r <= all
  {
    if claims == [] then all else Left(all, claims[..|claims| - 1]) - {claims[|claims| - 1].id}
  }

  /** Each claim is of the first row that the claims before it left. */
  predicate Picks(reminders: map<Id, Reminder>, all: set<Id>, claims: Claims)
    requires all <= reminders.Keys
  {
    claims != [] ==>
      && Picks(reminders, all, claims[..|claims| - 1])
      && IsFirst(reminders, Left(all, claims[..|claims| - 1]), claims[|claims| - 1].id)
  }

  /** Claims take consecutive new tokens. */
  predicate Numbered(claims: Claims, minted: Id) {
    forall i :: 0 <= i < |claims| ==> claims[i].token == minted + i
  }

  lemma SameFirst(reminders: map<Id, Reminder>, others: map<Id, Reminder>, ids: set<Id>, first: Id)
    requires ids <= reminders.Keys && ids <= others.Keys && IsFirst(reminders, ids, first)
    requires forall id :: id in ids ==> reminders[id] == others[id]
    ensures IsFirst(others, ids, first)
  {
    forall id | id in ids && id != first ensures Before(others[first], first, others[id], id) {
      assert Before(reminders[first], first, reminders[id], id);
    }
  }

  /** Every claimed row holds the token of its claim, and no other row changed. */
  lemma {:induction false} ClaimedRowsHoldTheirTokens(s: Rows, all: set<Id>, claims: Claims, now: int)
    requires all <= DueRows(s, {}, now) && Picks(s.reminders, all, claims) && Numbered(claims, s.minted)
    ensures var after := ClaimAll(s, claims, now);
      && after.minted == s.minted + |claims| && after.tasks == s.tasks && after.reminders.Keys == s.reminders.Keys
      && (forall c :: c in claims ==> c.id in s.reminders && Holds(after.reminders[c.id], c.token) && c.id !in Left(all, claims))
      && (forall id :: id in Left(all, claims) ==> after.reminders[id] == s.reminders[id])
  {
    if claims != [] {
      var earlier, last := claims[..|claims| - 1], claims[|claims| - 1];
      ClaimedRowsHoldTheirTokens(s, all, earlier, now);
      assert last.id in DueRows(s, {}, now);
      assert last.token == s.minted + |earlier|;
      forall c | c in claims ensures c == last || c in earlier {
      }
    }
  }

  /** Closing one of the rows leaves one row less to close. */
  lemma CloseOne(reminders: map<Id, Reminder>, user: Id, task: Id, status: Status, id: Id)
    requires id in ClosedBy(reminders, user, task) && (status.Resolved? || status.Cancelled?)
    ensures var after := reminders[id := reminders[id].(status := status, isSent := true, lease := None)];
      && ClosedBy(after, user, task) == ClosedBy(reminders, user, task) - {id}
      && CloseAll(after, user, task, status) == CloseAll(reminders, user, task, status)
  {
  }

  lemma NothingToClose(reminders: map<Id, Reminder>, user: Id, task: Id, status: Status)
    requires ClosedBy(reminders, user, task) == {}
    ensures CloseAll(reminders, user, task, status) == reminders
  {
    forall id | id in reminders ensures !Closes(reminders[id], user, task) {
      assert id !in ClosedBy(reminders, user, task);
    }
  }

  lemma OverwriteTask(s: Rows, id: Id, t: Task, later: Task)
    ensures s.tasks[id := t][id := later] == s.tasks[id := later]
  {
  }

  /** Storing the edit first comes to the same. */
  lemma EditFirst(s: Rows, id: Id, user: Id, t: Task, target: Target, u: Updates, latest: Option<Id>, now: Moment)
    requires id in s.tasks && id < s.minted && t.user == user && IsLatest(s, user, id, latest)
    ensures Apply(s.(tasks := s.tasks[id := t]), id, user, t, target, u, latest, now)
         == Apply(s, id, user, t, target, u, latest, now)
  {
    var edited := s.(tasks := s.tasks[id := t]);
    assert edited.tasks[id := t] == edited.tasks;
    OverwriteTask(s, id, t, t.(status := Dropped, completed := Some(Instant(now))));
    OverwriteTask(s, id, t, t.(status := Open, completed := None));
    assert Tasks.Retarget(edited, id, user, t, target, now) == Tasks.Retarget(s, id, user, t, target, now);
  }

  /** How a transaction ends for its caller. */
  function Ending(r: Outcome<Rows>): Outcome<()> {
    if r.Returned? then Returned(()) else Raised
  }

  /** The moments of stored rows are real dates, as the column types ensure. */
  predicate Dated(s: Rows) {
    && (forall id | id in s.reminders :: ValidMoment(s.reminders[id].remindAt))
    && (forall id | id in s.tasks :: ValidTask(s.tasks[id]))
  }

  lemma {:induction false} CatchingUpNeverDies(f: Stride, a: Moment, now: int, steps: nat)
    ensures !CatchUp(f, a, now, steps).Died?
    decreases steps
  {
    if steps > 0 && f(a).Some? {
      CatchingUpNeverDies(f, f(a).value, now, steps - 1);
    }
  }

  class Planner {
    var reminders: map<Id, Reminder>
    var tasks: map<Id, Task>
    var minted: Id

    function Contents(): Rows
      reads this
    {
      Rows(reminders, tasks, minted)
    }

    constructor ()
      ensures Contents() == EMPTY
    {
      reminders, tasks, minted := map[], map[], 0;
    }

    /** Writes a row; the unique constraint may refuse it. */
    method Flush(id: Id, r: Reminder) returns (outcome: Outcome<()>)
      modifies this
      ensures Contents() == Settle(old(Contents()), Store(old(Contents()), id, r))
      ensures outcome == Ending(Store(old(Contents()), id, r))
    {
      if Taken(reminders, id, r.series, r.occurrence) { return Raised; }
      reminders := reminders[id := r];
      return Returned(());
    }

    /** Claims the first of some due rows. */
    method ClaimFirst(due: set<Id>, now: int) returns (claim: ReminderClaim)
      requires due != {} && due <= DueRows(Contents(), {}, now)
      modifies this
      ensures Contents() == Claim(old(Contents()), claim.id, now)
      ensures due <= old(reminders).Keys && IsFirst(old(reminders), due, claim.id)
      ensures due - {claim.id} <= DueRows(Contents(), {}, now)
      ensures claim.token == old(minted) && minted == old(minted) + 1 && tasks == old(tasks)
      ensures reminders.Keys == old(reminders.Keys) && Holds(reminders[claim.id], claim.token)
      ensures forall id :: id in reminders && id != claim.id ==> reminders[id] == old(reminders)[id]
    {
      ghost var first := FirstExists(reminders, due);
      var id :| id in due && IsFirst(reminders, due, id);
      assert id in DueRows(Contents(), {}, now);
      var token := minted;
      minted := minted + 1;
      reminders := reminders[id := reminders[id].(lease := Some(Lease(token, now + LEASE_SECONDS)))];
      return ReminderClaim(id, token);
    }

    /** `claim_due_reminders`: row after row the first of those left, each with a
        new token, until the limit is reached or none is left. */
    method ClaimDueReminders(now: int, limit: nat, locked: set<Id>) returns (claims: Claims)
      modifies this
      ensures Contents() == ClaimAll(old(Contents()), claims, now)
      ensures Picks(old(reminders), DueRows(old(Contents()), locked, now), claims) && Numbered(claims, old(minted))
      ensures |claims| <= limit
      ensures |claims| == limit || Left(DueRows(old(Contents()), locked, now), claims) == {}
    {
      claims := [];
      var due := DueRows(Contents(), locked, now);
      ghost var was, all := Contents(), due;
      while due != {} && |claims| < limit
        invariant Contents() == ClaimAll(was, claims, now) && |claims| <= limit
        invariant Picks(was.reminders, all, claims) && due == Left(all, claims)
        invariant Numbered(claims, was.minted) && minted == was.minted + |claims|
        invariant due <= DueRows(Contents(), {}, now)
        invariant forall id :: id in due ==> reminders[id] == was.reminders[id]
        decreases |due|
      {
        ghost var before := reminders;
        var claim := ClaimFirst(due, now);
        SameFirst(before, was.reminders, due, claim.id);
        assert (claims + [claim])[..|claims|] == claims;
        claims := claims + [claim];
        due := due - {claim.id};
      }
    }

    /** `mark_sent` */
    method MarkSent(id: Id, token: Option<Id>, now: int) returns (outcome: Outcome<()>)
      requires Dated(Contents())
      modifies this
      ensures Contents() == Settle(old(Contents()), Reminders.MarkSent(old(Contents()), id, token, now))
      ensures outcome == Ending(Reminders.MarkSent(old(Contents()), id, token, now))
    {
      if id !in reminders || (token.Some? && !Holds(reminders[id], token.value)) || reminders[id].isSent {
        return Returned(());
      }
      var reminder := reminders[id];
      if reminder.rule.Some? {
        CatchingUpNeverDies(By(reminder.rule.value), reminder.remindAt, now, LOOP_BOUND);
        var following :- NextFutureOccurrence(reminder.remindAt, reminder.rule.value, now);
        if following.Some? {
          if Taken(reminders, minted, reminder.series, following.value) { return Raised; }
          reminders := reminders[id := Sent(reminder)];
          reminders := reminders[minted :=
            NewReminder(reminder.user, reminder.task, reminder.series, following.value, reminder.rule, now)];
          minted := minted + 1;
          return Returned(());
        }
      }
      reminders := reminders[id := reminder.(isSent := true, status := Delivered, lease := None, nextAttempt := None)];
      return Returned(());
    }

    /** `snooze_reminder` */
    method SnoozeReminder(id: Id, user: Option<Id>, at: Moment) returns (outcome: Outcome<()>)
      modifies this
      ensures Contents() == Settle(old(Contents()), Snooze(old(Contents()), id, user, at))
      ensures outcome == Ending(Snooze(old(Contents()), id, user, at))
    {
      if id !in reminders || (user.Some? && reminders[id].user != user.value) { return Returned(()); }
      var reminder := reminders[id];
      if reminder.snoozes >= MAX_SNOOZES { return Returned(()); }
      if reminder.isSent && reminder.rule.Some? {
        reminder := reminder.(rule := None);
      }
      reminder := reminder.(remindAt := at, occurrence := at, isSent := false, status := Snoozed);
      reminder := reminder.(lease := None, nextAttempt := None, attempts := 0, snoozes := reminder.snoozes + 1);
      outcome := Flush(id, reminder);
    }

    /** `resolve_reminder` */
    method ResolveReminder(id: Id, user: Id) returns (found: bool)
      modifies this
      ensures Contents() == Resolve(old(Contents()), id, user)
      ensures found <==> id in old(reminders) && old(reminders)[id].user == user
    {
      if id !in reminders || reminders[id].user != user { return false; }
      if !reminders[id].status.Resolved? {
        reminders := reminders[id := reminders[id].(status := Resolved, isSent := true)];
      }
      return true;
    }

    /** `record_delivery_failure` */
    method RecordDeliveryFailure(id: Id, terminal: bool, token: Option<Id>, retryAfter: nat, now: int)
      modifies this
      ensures Contents() == Fail(old(Contents()), id, terminal, token, retryAfter, now)
    {
      if id !in reminders || (token.Some? && (!Holds(reminders[id], token.value) || reminders[id].isSent)) { return; }
      var reminder := reminders[id];
      reminder := reminder.(attempts := reminder.attempts + 1);
      if terminal || reminder.attempts >= MAX_FAILURES {
        reminder := reminder.(status := Failed, isSent := false);
      }
      reminder := reminder.(nextAttempt := Some(now + Backoff(reminder.attempts, retryAfter)), lease := None);
      reminders := reminders[id := reminder];
    }

    /** `retry_failed_reminder` */
    method RetryFailedReminder(id: Id, user: Id, now: int) returns (queued: bool)
      modifies this
      ensures Contents() == Retry(old(Contents()), id, user, now)
      ensures queued ==> id in reminders && reminders[id].status.Pending? && OpenTask(tasks, reminders[id].task)
      ensures !queued ==> Contents() == old(Contents())
    {
      if id !in reminders || reminders[id].user != user || !reminders[id].status.Failed? { return false; }
      var reminder := reminders[id];
      if reminder.task.Some? {
        if reminder.task.value !in tasks || !tasks[reminder.task.value].status.Open? { return false; }
      }
      reminders := reminders[id := reminder.(status := Pending, isSent := false, attempts := 0, nextAttempt := Some(now), lease := None)];
      return true;
    }

    /** The row that an upsert moves: the latest unfinished one. */
    method LatestUnfinished(user: Id, task: Id) returns (latest: Option<Id>)
      ensures IsLatest(Contents(), user, task, latest)
    {
      latest := None;
      var ids := reminders.Keys;
      while ids != {}
        invariant ids <= reminders.Keys
        invariant latest.Some? ==> latest.value in reminders && Unfinished(reminders[latest.value], user, task)
        invariant forall id :: id in reminders && id !in ids && Unfinished(reminders[id], user, task) ==>
          latest.Some? && reminders[id].created <= reminders[latest.value].created
        decreases |ids|
      {
        var id :| id in ids;
        ids := ids - {id};
        if Unfinished(reminders[id], user, task) && (latest.None? || reminders[latest.value].created < reminders[id].created) {
          latest := Some(id);
        }
      }
    }

    /** `upsert_task_reminder`; ties between creation times may go either way. */
    method UpsertTaskReminder(user: Id, task: Id, at: Moment, rule: Option<Rule>, now: int)
      returns (outcome: Outcome<()>, latest: Option<Id>)
      modifies this
      ensures IsLatest(old(Contents()), user, task, latest)
      ensures Contents() == Settle(old(Contents()), Upsert(old(Contents()), user, task, latest, at, rule, now))
      ensures outcome == Ending(Upsert(old(Contents()), user, task, latest, at, rule, now))
    {
      latest := LatestUnfinished(user, task);
      if latest.Some? {
        var reminder := reminders[latest.value];
        reminder := reminder.(remindAt := at, occurrence := at, rule := rule, isSent := false, status := Pending);
        reminder := reminder.(lease := None, nextAttempt := None, attempts := 0);
        outcome := Flush(latest.value, reminder);
      } else {
        if task !in tasks { return Raised, latest; }
        reminders := reminders[minted := NewReminder(user, Some(task), minted + 1, at, rule, now)];
        minted := minted + 2;
        return Returned(()), latest;
      }
    }

    /** Closes the task's reminders one by one, and counts them. */
    method CloseTaskReminders(user: Id, task: Id, status: Status) returns (closed: set<Id>)
      requires status.Resolved? || status.Cancelled?
      modifies `reminders
      ensures reminders == CloseAll(old(reminders), user, task, status)
      ensures closed == ClosedBy(old(reminders), user, task)
    {
      closed := ClosedBy(reminders, user, task);
      ghost var was := reminders;
      var todo := closed;
      while todo != {}
        invariant todo == ClosedBy(reminders, user, task)
        invariant CloseAll(reminders, user, task, status) == CloseAll(was, user, task, status)
        decreases |todo|
      {
        var id :| id in todo;
        CloseOne(reminders, user, task, status, id);
        reminders := reminders[id := reminders[id].(status := status, isSent := true, lease := None)];
        todo := todo - {id};
      }
      NothingToClose(reminders, user, task, status);
    }

    /** `complete_task_workflow` */
    method CompleteTask(id: Id, user: Id, now: Moment) returns (outcome: Outcome<Completion>)
      requires Dated(Contents())
      modifies this
      ensures Contents() == AfterCompletion(old(Contents()), Complete(old(Contents()), id, user, now))
      ensures Complete(old(Contents()), id, user, now).Returned? ==>
        outcome == Returned(Complete(old(Contents()), id, user, now).value.1)
      ensures !Complete(old(Contents()), id, user, now).Returned? ==> outcome == Raised
    {
      if id !in tasks || tasks[id].user != user { return Returned(Missing); }
      if !tasks[id].status.Open? { return Returned(AlreadyClosed); }
      var task := tasks[id];
      ghost var was := Contents();
      var following := FindNextAnchor(task, now);
      if !following.Returned? { return Raised; }
      tasks := tasks[id := task.(status := Done, completed := Some(Instant(now)))];
      var closed := CloseTaskReminders(user, id, Resolved);
      assert Contents() == Finished(was, id, user, now);
      if following.value.None? { return Returned(Completed(closed, None)); }
      var next := AddSuccessor(user, Successor(task, following.value.value, now), now);
      return Returned(Completed(closed, Some(next)));
    }

    method FindNextAnchor(task: Task, now: Moment) returns (r: Outcome<Option<Moment>>)
      requires ValidTask(task)
      ensures r == NextAnchor(task, now)
      ensures r.Returned? && r.value.Some? ==> Anchor(task).Some?
      ensures !r.Died?
    {
      if task.rule.None? || Anchor(task).None? { return Returned(None); }
      ValidAnchor(task);
      CatchingUpNeverDies(By(task.rule.value), Anchor(task).value, Instant(now), LOOP_BOUND);
      r := NextTaskOccurrence(Anchor(task).value, task.rule.value, Instant(now));
    }

    method AddSuccessor(user: Id, next: Task, now: Moment) returns (id: Id)
      modifies this
      ensures Contents() == Continue(old(Contents()), user, next, now) && id == old(minted)
    {
      id := minted;
      tasks := tasks[id := next];
      minted := minted + 3;
      if next.remindAt.Some? {
        reminders := reminders[id + 1 := NewReminder(user, Some(id), id + 2, next.remindAt.value, None, Instant(now))];
      }
    }

    /** `_sync_bound_alarm` */
    method SyncBoundAlarm(id: Id, u: Updates, now: int) returns (outcome: Outcome<()>, latest: Option<Id>)
      requires id in tasks
      modifies this
      ensures IsLatest(old(Contents()), old(tasks)[id].user, id, latest)
      ensures outcome == Ending(SyncAlarm(old(Contents()), id, u, latest, now))
      ensures outcome.Returned? ==> Contents() == SyncAlarm(old(Contents()), id, u, latest, now).value
    {
      var task := tasks[id];
      if !MovesAlarm(task, u) {
        latest := LatestUnfinished(task.user, id);
        return Returned(()), latest;
      }
      if task.due.None? || task.dueMinutes.None? {
        latest := LatestUnfinished(task.user, id);
        tasks := tasks[id := task.(remindAt := None)];
        var _ := CloseTaskReminders(task.user, id, Cancelled);
        return Returned(()), latest;
      }
      var at := Earlier(Moment(task.due.value, 60 * task.dueMinutes.value), 60 * task.remindBefore.value);
      tasks := tasks[id := task.(remindAt := Some(at))];
      outcome, latest := UpsertTaskReminder(task.user, id, at, None, now);
    }

    /** Puts the rows back, as rolling a session back does. */
    method Rollback(saved: Rows)
      modifies this
      ensures Contents() == saved
    {
      reminders, tasks, minted := saved.reminders, saved.tasks, saved.minted;
    }

    /** The lifecycle part of an update, on the edited task. */
    method Retarget(id: Id, user: Id, target: Target, now: Moment) returns (outcome: Outcome<()>)
      requires Dated(Contents()) && id in tasks && id < minted && tasks[id].user == user
      modifies this
      ensures outcome == Ending(Tasks.Retarget(old(Contents()), id, user, old(tasks)[id], target, now))
      ensures outcome.Returned? ==> Contents() == Tasks.Retarget(old(Contents()), id, user, old(tasks)[id], target, now).value
    {
      var task := tasks[id];
      assert tasks[id := task] == tasks;
      match target {
        case Unchanged =>
        case ToDone =>
          var _ :- CompleteTask(id, user, now);
        case ToCancelled =>
          tasks := tasks[id := task.(status := Dropped, completed := Some(Instant(now)))];
          var _ := CloseTaskReminders(task.user, id, Cancelled);
        case ToOpen =>
          tasks := tasks[id := task.(status := Open, completed := None)];
        case Unknown =>
          return Raised;
      }
      return Returned(());
    }

    method ApplyUpdate(id: Id, user: Id, target: Target, u: Updates,
        now: Moment) returns (outcome: Outcome<()>, latest: Option<Id>)
      requires Dated(Contents()) && id in tasks && id < minted && tasks[id].user == user
      modifies this
      ensures IsLatest(old(Contents()), user, id, latest)
      ensures outcome == Ending(Apply(old(Contents()), id, user, old(tasks)[id], target, u, latest, now))
      ensures outcome.Returned? ==> Contents() == Apply(old(Contents()), id, user, old(tasks)[id], target, u, latest, now).value
    {
      latest := LatestUnfinished(user, id);
      outcome := Retarget(id, user, target, now);
      if outcome.Returned? && tasks[id].status.Open? {
        outcome, latest := SyncBoundAlarm(id, u, Instant(now));
      }
    }

    /** `update_task_workflow` */
    method UpdateTask(id: Id, user: Id, expected: Option<TaskStatus>, target: Target, u: Updates, now: Moment)
      returns (outcome: Outcome<()>, latest: Option<Id>)
      requires Dated(Contents()) && (id in tasks ==> id < minted)
      requires id in tasks && Acceptable(u) ==> ValidTask(Edited(tasks[id], u))
      modifies this
      ensures IsLatest(old(Contents()), user, id, latest)
      ensures outcome == Ending(Update(old(Contents()), id, user, expected, target, u, latest, now))
      ensures Contents() == Settle(old(Contents()), Update(old(Contents()), id, user, expected, target, u, latest, now))
    {
      latest := LatestUnfinished(user, id);
      if !Reaches(Contents(), id, user, expected) { return Returned(()), latest; }
      if target.ToOpen? && !tasks[id].status.Open? && tasks[id].rule.Some? { return Raised, latest; }
      if !Acceptable(u) { return Raised, latest; }
      outcome, latest := EditTask(id, user, Edited(tasks[id], u), target, u, now);
    }

    method EditTask(id: Id, user: Id, task: Task, target: Target, u: Updates, now: Moment)
      returns (outcome: Outcome<()>, latest: Option<Id>)
      requires Dated(Contents()) && ValidTask(task) && id in tasks && id < minted && task.user == user
      modifies this
      ensures IsLatest(old(Contents()), user, id, latest)
      ensures outcome == Ending(Apply(old(Contents()), id, user, task, target, u, latest, now))
      ensures Contents() == Settle(old(Contents()), Apply(old(Contents()), id, user, task, target, u, latest, now))
    {
      var saved := Contents();
      tasks := tasks[id := task];
      outcome, latest := ApplyUpdate(id, user, target, u, now);
      EditFirst(saved, id, user, task, target, u, latest, now);
      if !outcome.Returned? {
        Rollback(saved);
      }
    }
  }
}
