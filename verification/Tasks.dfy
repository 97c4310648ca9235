/** Task completion, editing and recurrence: bot/services/tasks.py. */
module Tasks {
  import opened Outcomes
  import opened Calendar
  import opened Recurrence
  import opened Reminders

  const NINE := 9 * 3600

  /** The moment `seconds` earlier. */
  function Earlier(m: Moment, seconds: nat): Moment
    decreases seconds
  {
    if seconds <= m.tod then m.(tod := m.tod - seconds)
    else Earlier(Moment(PreviousDay(m.date), DAY - 1), seconds - m.tod - 1)
  }

  function TimeOfDay(t: Task): nat {
    if t.dueMinutes.Some? then 60 * t.dueMinutes.value else NINE
  }

  /** The scheduled date, or the due date, at the due time. */
  function Anchor(t: Task): Option<Moment> {
    if t.scheduled.Some? then Some(Moment(t.scheduled.value, TimeOfDay(t)))
    else if t.due.Some? then Some(Moment(t.due.value, TimeOfDay(t)))
    else None
  }

  /** Where a completed task recurs, if it does. */
  function NextAnchor(t: Task, now: Moment): Outcome<Option<Moment>> {
    if t.rule.None? || Anchor(t).None? then Returned(None)
    else CatchUp(By(t.rule.value), Anchor(t).value, Instant(now), LOOP_BOUND)
  }

  function NextAnchorOf(s: Rows, id: Id, now: Moment): Outcome<Option<Moment>> {
    if id in s.tasks then NextAnchor(s.tasks[id], now) else Raised
  }

  /** `_next_reminder_for_occurrence` */
  function NextReminder(anchor: Moment, reminder: Moment, next: Moment, now: Moment): Moment {
    var lead := Instant(anchor) - Instant(reminder);
    var candidate := Earlier(next, if lead < 0 then 0 else lead);
    if Instant(candidate) <= Instant(now) then now else candidate
  }

  /** The task that continues a completed one. */
  function Successor(t: Task, next: Moment, now: Moment): Task
    requires Anchor(t).Some?
  {
    var anchor := Anchor(t).value;
    Task(t.user, t.card, Open, None,
      if t.scheduled.Some? then Some(next.date) else None,
      if t.due.Some? then Some(AddDays(next.date, Ordinal(t.due.value) - Ordinal(anchor.date))) else None,
      t.dueMinutes,
      if t.remindAt.Some? then Some(NextReminder(anchor, t.remindAt.value, next, now)) else None,
      t.remindBefore, t.rule)
  }

  /** What a completion request reports. */
  datatype Completion = Missing | AlreadyClosed | Completed(closed: set<Id>, next: Option<Id>)

  function ClosedBy(reminders: map<Id, Reminder>, user: Id, task: Id): set<Id> {
    set id | id in reminders && Closes(reminders[id], user, task)
  }

  /** The completed task and its closed reminders. */
  function Finished(s: Rows, id: Id, user: Id, now: Moment): Rows
    requires id in s.tasks
  {
    var done := s.tasks[id].(status := Done, completed := Some(Instant(now)));
    Rows(CloseAll(s.reminders, user, id, Resolved), s.tasks[id := done], s.minted)
  }

  /** Adds the next task, and its reminder when it has one. */
  function Continue(s: Rows, user: Id, next: Task, now: Moment): Rows {
    var id := s.minted;
    var withTask := s.(tasks := s.tasks[id := next], minted := id + 3);
    if next.remindAt.None? then withTask
    else Put(withTask, id + 1, NewReminder(user, Some(id), id + 2, next.remindAt.value, None, Instant(now)))
  }

  /** `complete_task_workflow`, given where the task recurs. */
  function CompleteWith(s: Rows, id: Id, user: Id, following: Outcome<Option<Moment>>,
      now: Moment): Outcome<(Rows, Completion)> {
    if id !in s.tasks || s.tasks[id].user != user then Returned((s, Missing))
    else if !s.tasks[id].status.Open? then Returned((s, AlreadyClosed))
    else
      var closed := ClosedBy(s.reminders, user, id);
      match following
      case Returned(Some(next)) =>
        if Anchor(s.tasks[id]).None? then Raised
        else
          var successor := Successor(s.tasks[id], next, now);
          Returned((Continue(Finished(s, id, user, now), user, successor, now), Completed(closed, Some(s.minted))))
      case Returned(None) => Returned((Finished(s, id, user, now), Completed(closed, None)))
      case _ => Raised
  }

  function Complete(s: Rows, id: Id, user: Id, now: Moment): Outcome<(Rows, Completion)> {
    CompleteWith(s, id, user, NextAnchorOf(s, id, now), now)
  }

  // Editing.

  datatype Change<T> = Keep | Set(value: T)

  /** The keyword arguments of `update_task_workflow`; `unsupported` stands for
      any argument outside its list. */
  datatype Updates = Updates(
    card: Change<Option<int>>, scheduled: Change<Option<Date>>, due: Change<Option<Date>>,
    dueMinutes: Change<Option<nat>>, remindAt: Change<Option<Moment>>, remindBefore: Change<Option<nat>>,
    rule: Change<Option<Rule>>, unsupported: bool)

  datatype Target = Unchanged | ToDone | ToCancelled | ToOpen | Unknown

  function New<T>(change: Change<T>, current: T): T {
    if change.Keep? then current else change.value
  }

  predicate Acceptable(u: Updates) {
    !u.unsupported && (u.card.Keep? || u.card.value.Some?)
  }

  function Edited(t: Task, u: Updates): Task
    requires Acceptable(u)
  {
    Task(t.user, if u.card.Keep? then t.card else u.card.value.value, t.status, t.completed,
         New(u.scheduled, t.scheduled), New(u.due, t.due), New(u.dueMinutes, t.dueMinutes),
         New(u.remindAt, t.remindAt), New(u.remindBefore, t.remindBefore), New(u.rule, t.rule))
  }

  predicate MovesAlarm(t: Task, u: Updates) {
    t.remindBefore.Some? && !(u.due.Keep? && u.dueMinutes.Keep? && u.remindBefore.Keep?)
  }

  /** `_sync_bound_alarm` */
  function SyncAlarm(s: Rows, id: Id, u: Updates, latest: Option<Id>, now: int): Outcome<Rows>
    requires id in s.tasks && IsLatest(s, s.tasks[id].user, id, latest)
  {
    var t := s.tasks[id];
    if !MovesAlarm(t, u) then Returned(s)
    else if t.due.None? || t.dueMinutes.None? then
      Returned(Rows(CloseAll(s.reminders, t.user, id, Cancelled), s.tasks[id := t.(remindAt := None)], s.minted))
    else
      var at := Earlier(Moment(t.due.value, 60 * t.dueMinutes.value), 60 * t.remindBefore.value);
      Upsert(s.(tasks := s.tasks[id := t.(remindAt := Some(at))]), t.user, id, latest, at, None, now)
  }

  /** The rows after the status part of an update; `t` is the edited task. */
  function Retarget(s: Rows, id: Id, user: Id, t: Task, target: Target, now: Moment): (r: Outcome<Rows>)
    requires id in s.tasks && id < s.minted && t.user == user
    ensures r.Returned? ==> id in r.value.tasks && r.value.tasks[id].user == user
    ensures r.Returned? && r.value.tasks[id].status.Open? ==> r.value.reminders == s.reminders
  {
    var edited := s.(tasks := s.tasks[id := t]);
    match target
    case Unchanged => Returned(edited)
    case ToDone =>
      (match Complete(edited, id, user, now)
       case Returned((after, _)) => Returned(after)
       case Raised => Raised
       case Died => Died)
    case ToCancelled =>
      var dropped := t.(status := Dropped, completed := Some(Instant(now)));
      Returned(Rows(CloseAll(s.reminders, t.user, id, Cancelled), s.tasks[id := dropped], s.minted))
    case ToOpen => Returned(s.(tasks := s.tasks[id := t.(status := Open, completed := None)]))
    case Unknown => Raised
  }

  /** Whether an update reaches the row: it exists, belongs to the user and has
      the status that the caller expects. */
  predicate Reaches(s: Rows, id: Id, user: Id, expected: Option<TaskStatus>) {
    id in s.tasks && s.tasks[id].user == user && (expected.None? || s.tasks[id].status == expected.value)
  }

  /** The status part of an update and then the alarm of a task left open. */
  function Apply(s: Rows, id: Id, user: Id, t: Task, target: Target, u: Updates, latest: Option<Id>,
      now: Moment): Outcome<Rows>
    requires id in s.tasks && id < s.minted && t.user == user && IsLatest(s, user, id, latest)
  {
    match Retarget(s, id, user, t, target, now)
    case Returned(after) =>
      if !after.tasks[id].status.Open? then Returned(after) else SyncAlarm(after, id, u, latest, Instant(now))
    case Raised => Raised
    case Died => Died
  }

  /** `update_task_workflow`; an edit cannot reopen a recurring occurrence. */
  function Update(s: Rows, id: Id, user: Id, expected: Option<TaskStatus>, target: Target, u: Updates,
      latest: Option<Id>, now: Moment): Outcome<Rows>
    requires IsLatest(s, user, id, latest) && (id in s.tasks ==> id < s.minted)
  {
    if !Reaches(s, id, user, expected) then Returned(s)
    else if target.ToOpen? && !s.tasks[id].status.Open? && s.tasks[id].rule.Some? then Raised
    else if !Acceptable(u) then Raised
    else Apply(s, id, user, Edited(s.tasks[id], u), target, u, latest, now)
  }
}
