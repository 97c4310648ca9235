/** Reminder rows and the tasks they belong to: the transactions of
    bot/db/crud/reminders.py and bot/services/tasks.py, each one atomic step. A
    transaction that raises leaves the rows as they were. */
module Reminders {
  import opened Common
  import opened Outcomes
  import opened Calendar
  import opened Recurrence

  /** Row ids, series ids and lease tokens are minted from one counter, so that
      a new one never occurred before. */
  type Id = nat

  datatype Status = Pending | Snoozed | Failed | Delivered | Resolved | Cancelled
  datatype Lease = Lease(token: Id, expires: int)

  datatype Reminder = Reminder(
    user: Id, task: Option<Id>, series: Id, occurrence: Moment, remindAt: Moment, rule: Option<Rule>,
    isSent: bool, status: Status, lease: Option<Lease>, nextAttempt: Option<int>,
    attempts: nat, snoozes: nat, created: int)

  datatype TaskStatus = Open | Done | Dropped

  /** `card` stands for the title, category, priority, tags, project and trip. */
  datatype Task = Task(
    user: Id, card: int, status: TaskStatus, completed: Option<int>,
    scheduled: Option<Date>, due: Option<Date>, dueMinutes: Option<nat>,
    remindAt: Option<Moment>, remindBefore: Option<nat>, rule: Option<Rule>)

  datatype Rows = Rows(reminders: map<Id, Reminder>, tasks: map<Id, Task>, minted: Id)

  const MAX_SNOOZES := 5
  const MAX_FAILURES := 5
  const LEASE_SECONDS := 300

  predicate Waiting(status: Status) {
    status.Pending? || status.Snoozed?
  }

  /** The statuses that `is_sent` goes with. */
  predicate Closed(status: Status) {
    status.Delivered? || status.Resolved? || status.Cancelled?
  }

  predicate Holds(r: Reminder, token: Id) {
    r.lease.Some? && r.lease.value.token == token
  }

  predicate OpenTask(tasks: map<Id, Task>, task: Option<Id>) {
    task.None? || (task.value in tasks && tasks[task.value].status.Open?)
  }

  /** The unique constraint on (series, occurrence), for a row to be stored. */
  predicate Taken(reminders: map<Id, Reminder>, id: Id, series: Id, occurrence: Moment) {
    exists other | other in reminders ::
      other != id && reminders[other].series == series && reminders[other].occurrence == occurrence
  }

  function Put(s: Rows, id: Id, r: Reminder): Rows {
    s.(reminders := s.reminders[id := r])
  }

  /** Stores a changed row, or raises. */
  function Store(s: Rows, id: Id, r: Reminder): Outcome<Rows> {
    if Taken(s.reminders, id, r.series, r.occurrence) then Raised else Returned(Put(s, id, r))
  }

  function NewReminder(user: Id, task: Option<Id>, series: Id, at: Moment, rule: Option<Rule>, now: int): Reminder {
    Reminder(user, task, series, at, at, rule, false, Pending, None, None, 0, 0, now)
  }

  /** A row in a series of its own; its task, if any, must exist. */
  function Create(s: Rows, user: Id, task: Option<Id>, at: Moment, rule: Option<Rule>, now: int): Outcome<Rows> {
    if task.Some? && task.value !in s.tasks then Raised
    else Returned(Put(s, s.minted, NewReminder(user, task, s.minted + 1, at, rule, now)).(minted := s.minted + 2))
  }

  predicate RowDue(r: Reminder, tasks: map<Id, Task>, now: int) {
    && !r.isSent && Waiting(r.status) && Instant(r.remindAt) <= now
    && (r.nextAttempt.None? || r.nextAttempt.value <= now)
    && (r.lease.None? || r.lease.value.expires <= now)
    && OpenTask(tasks, r.task)
  }

  predicate Due(s: Rows, id: Id, now: int) {
    id in s.reminders && RowDue(s.reminders[id], s.tasks, now)
  }

  /** One row of `claim_due_reminders`. */
  function Claim(s: Rows, id: Id, now: int): Rows {
    if Due(s, id, now)
    then Put(s, id, s.reminders[id].(lease := Some(Lease(s.minted, now + LEASE_SECONDS)))).(minted := s.minted + 1)
    else s
  }

  predicate ClaimIsActive(s: Rows, id: Id, token: Id, now: int) {
    && id in s.reminders
    && var r := s.reminders[id];
    Holds(r, token) && !r.isSent && Waiting(r.status) && r.lease.value.expires > now
  }

  /** The occurrence that continues a delivered row's series. */
  function Following(r: Reminder, now: int): Outcome<Option<Moment>> {
    if r.rule.None? then Returned(None) else CatchUp(By(r.rule.value), r.remindAt, now, LOOP_BOUND)
  }

  function FollowingOf(s: Rows, id: Id, now: int): Outcome<Option<Moment>> {
    if id in s.reminders then Following(s.reminders[id], now) else Raised
  }

  function Sent(r: Reminder): Reminder {
    r.(isSent := true, status := Delivered, lease := None, nextAttempt := None)
  }

  /** `mark_sent`, given the occurrence that follows. */
  function MarkWith(s: Rows, id: Id, token: Option<Id>, following: Outcome<Option<Moment>>, now: int): Outcome<Rows> {
    if id !in s.reminders || (token.Some? && !Holds(s.reminders[id], token.value)) || s.reminders[id].isSent then Returned(s)
    else
      var r := s.reminders[id];
      match following
      case Returned(None) => Returned(Put(s, id, Sent(r)))
      case Returned(Some(next)) =>
        if Taken(s.reminders, s.minted, r.series, next) then Raised
        else
          var successor := NewReminder(r.user, r.task, r.series, next, r.rule, now);
          Returned(Put(Put(s, id, Sent(r)), s.minted, successor).(minted := s.minted + 1))
      case _ => Raised
  }

  function MarkSent(s: Rows, id: Id, token: Option<Id>, now: int): Outcome<Rows> {
    MarkWith(s, id, token, FollowingOf(s, id, now), now)
  }

  /** `snooze_reminder` */
  function Snooze(s: Rows, id: Id, user: Option<Id>, at: Moment): Outcome<Rows> {
    if id !in s.reminders || (user.Some? && s.reminders[id].user != user.value) then Returned(s)
    else if s.reminders[id].snoozes >= MAX_SNOOZES then Returned(s)
    else
      var r := s.reminders[id];
      Store(s, id, r.(rule := if r.isSent then None else r.rule, remindAt := at, occurrence := at,
                      isSent := false, status := Snoozed, lease := None, nextAttempt := None,
                      attempts := 0, snoozes := r.snoozes + 1))
  }

  /** `resolve_reminder` */
  function Resolve(s: Rows, id: Id, user: Id): Rows {
    if id !in s.reminders || s.reminders[id].user != user || s.reminders[id].status.Resolved? then s
    else Put(s, id, s.reminders[id].(status := Resolved, isSent := true))
  }

  /** Seconds before the next attempt after so many failures. */
  function Backoff(attempts: nat, retryAfter: nat): int {
    if retryAfter > Doubling(attempts) then retryAfter else Doubling(attempts)
  }

  /** `record_delivery_failure` */
  function Fail(s: Rows, id: Id, terminal: bool, token: Option<Id>, retryAfter: nat, now: int): Rows {
    if id !in s.reminders || (token.Some? && (!Holds(s.reminders[id], token.value) || s.reminders[id].isSent)) then s
    else
      var r := s.reminders[id];
      var next := now + Backoff(r.attempts + 1, retryAfter);
      var counted := r.(attempts := r.attempts + 1, lease := None, nextAttempt := Some(next));
      var final := terminal || counted.attempts >= MAX_FAILURES;
      Put(s, id, if final then counted.(status := Failed, isSent := false) else counted)
  }

  /** `retry_failed_reminder` */
  function Retry(s: Rows, id: Id, user: Id, now: int): Rows {
    if id !in s.reminders || s.reminders[id].user != user then s
    else
      var r := s.reminders[id];
      if !r.status.Failed? || !OpenTask(s.tasks, r.task) then s
      else Put(s, id, r.(status := Pending, isSent := false, attempts := 0, nextAttempt := Some(now), lease := None))
  }

  predicate Unfinished(r: Reminder, user: Id, task: Id) {
    r.user == user && r.task == Some(task) && (Waiting(r.status) || r.status.Failed?)
  }

  /** The row `upsert_task_reminder` selects: the unfinished one created last. */
  predicate IsLatest(s: Rows, user: Id, task: Id, target: Option<Id>) {
    match target
    case None => forall id | id in s.reminders :: !Unfinished(s.reminders[id], user, task)
    case Some(id) =>
      && id in s.reminders && Unfinished(s.reminders[id], user, task)
      && forall other | other in s.reminders ::
           Unfinished(s.reminders[other], user, task) ==> s.reminders[other].created <= s.reminders[id].created
  }

  /** `upsert_task_reminder`, given the row it selects. */
  function Upsert(s: Rows, user: Id, task: Id, target: Option<Id>, at: Moment, rule: Option<Rule>,
      now: int): Outcome<Rows>
    requires IsLatest(s, user, task, target)
  {
    match target
    case None => Create(s, user, Some(task), at, rule, now)
    case Some(id) =>
      Store(s, id, s.reminders[id].(remindAt := at, occurrence := at, rule := rule, isSent := false, status := Pending,
                                    lease := None, nextAttempt := None, attempts := 0))
  }

  predicate Closes(r: Reminder, user: Id, task: Id) {
    r.task == Some(task) && r.user == user && !r.status.Resolved? && !r.status.Cancelled?
  }

  /** The rows of a task closed together, on completion and on cancellation. */
  function CloseAll(reminders: map<Id, Reminder>, user: Id, task: Id, status: Status): map<Id, Reminder> {
    map id | id in reminders ::
      if Closes(reminders[id], user, task) then reminders[id].(status := status, isSent := true, lease := None)
      else reminders[id]
  }
}
