/** Every order of reminder and task transactions, with any crashes between
    them, is a sequence of events; what each event keeps. */
module Lifecycle {
  import opened Outcomes
  import opened Calendar
  import opened Recurrence
  import opened Reminders
  import opened Tasks

  datatype Event =
    | CreateEvent(user: Id, about: Option<Id>, at: Moment, rule: Option<Rule>)
    | ClaimEvent(id: Id)
    | MarkEvent(id: Id, token: Option<Id>)
    | FailEvent(id: Id, terminal: bool, token: Option<Id>, retryAfter: nat)
    | SnoozeEvent(id: Id, asker: Option<Id>, at: Moment)
    | ResolveEvent(id: Id, user: Id)
    | RetryEvent(id: Id, user: Id)
    | UpsertEvent(user: Id, task: Id, latest: Option<Id>, at: Moment, rule: Option<Rule>)
    | NewTaskEvent(created: Task)
    | CompleteEvent(task: Id, user: Id)
    | UpdateEvent(task: Id, user: Id, expected: Option<TaskStatus>, target: Target, updates: Updates, latest: Option<Id>)

  datatype Timed = At(now: Moment, event: Event)

  /** A raised exception rolls the transaction back. */
  function Settle(s: Rows, r: Outcome<Rows>): Rows {
    if r.Returned? then r.value else s
  }

  /** An event whose selected row is not the one the query gives cannot happen. */
  predicate Selects(s: Rows, e: Event) {
    match e
    case UpsertEvent(user, task, latest, _, _) => IsLatest(s, user, task, latest)
    case UpdateEvent(task, user, _, _, _, latest) => IsLatest(s, user, task, latest) && (task in s.tasks ==> task < s.minted)
    case _ => true
  }

  function Step(s: Rows, t: Timed): Rows {
    var now := Instant(t.now);
    if !Selects(s, t.event) then s
    else match t.event
      case CreateEvent(user, task, at, rule) => Settle(s, Create(s, user, task, at, rule, now))
      case ClaimEvent(id) => Claim(s, id, now)
      case MarkEvent(id, token) => Settle(s, MarkSent(s, id, token, now))
      case FailEvent(id, terminal, token, retryAfter) => Fail(s, id, terminal, token, retryAfter, now)
      case SnoozeEvent(id, user, at) => Settle(s, Snooze(s, id, user, at))
      case ResolveEvent(id, user) => Resolve(s, id, user)
      case RetryEvent(id, user) => Retry(s, id, user, now)
      case UpsertEvent(user, task, latest, at, rule) => Settle(s, Upsert(s, user, task, latest, at, rule, now))
      case NewTaskEvent(task) => s.(tasks := s.tasks[s.minted := task.(status := Open)], minted := s.minted + 1)
      case CompleteEvent(task, user) => AfterCompletion(s, Complete(s, task, user, t.now))
      case UpdateEvent(task, user, expected, target, updates, latest) =>
        Settle(s, Update(s, task, user, expected, target, updates, latest, t.now))
  }

  function AfterCompletion(s: Rows, r: Outcome<(Rows, Completion)>): Rows {
    if r.Returned? then r.value.0 else s
  }

  function Run(s: Rows, events: seq<Timed>): Rows
    decreases |events|
  {
    if events == [] then s else Run(Step(s, events[0]), events[1..])
  }

  const EMPTY := Rows(map[], map[], 0)

  // What holds in every reachable state.

  predicate RowOk(tasks: map<Id, Task>, minted: Id, r: Reminder) {
    && r.isSent == Closed(r.status)
    && r.series < minted
    && (r.lease.Some? ==> r.lease.value.token < minted)
    && (r.task.Some? ==> r.task.value in tasks && tasks[r.task.value].user == r.user)
    && (Waiting(r.status) && r.lease.Some? ==> OpenTask(tasks, r.task))
    && (Waiting(r.status) ==> r.attempts < MAX_FAILURES)
    && r.snoozes <= MAX_SNOOZES
  }

  predicate Unique(reminders: map<Id, Reminder>) {
    forall id | id in reminders :: !Taken(reminders, id, reminders[id].series, reminders[id].occurrence)
  }

  predicate Inv(s: Rows) {
    && (forall id | id in s.reminders :: id < s.minted && RowOk(s.tasks, s.minted, s.reminders[id]))
    && (forall id | id in s.tasks :: id < s.minted)
    && Unique(s.reminders)
  }

  /** What all callers do: a row made for a task belongs to the task's owner. */
  predicate Owned(s: Rows, e: Event) {
    match e
    case CreateEvent(user, task, _, _) => task.Some? && task.value in s.tasks ==> s.tasks[task.value].user == user
    case UpsertEvent(user, task, _, _, _) => task in s.tasks ==> s.tasks[task].user == user
    case _ => true
  }

  predicate AllOwned(s: Rows, events: seq<Timed>)
    decreases |events|
  {
    events == [] || (Owned(s, events[0].event) && AllOwned(Step(s, events[0]), events[1..]))
  }

  // Changes of one row.

  lemma PutKeeps(s: Rows, id: Id, r: Reminder)
    requires Inv(s) && id < s.minted && RowOk(s.tasks, s.minted, r)
    requires !Taken(s.reminders, id, r.series, r.occurrence)
    ensures Inv(Put(s, id, r))
  {
    var after := Put(s, id, r).reminders;
    forall i | i in after ensures !Taken(after, i, after[i].series, after[i].occurrence) {
      forall j | j in after && j != i && after[j].series == after[i].series ensures after[j].occurrence != after[i].occurrence {
        if i != id {
          assert !Taken(s.reminders, i, after[i].series, after[i].occurrence);
        }
      }
    }
  }

  lemma MintKeeps(s: Rows, minted: Id)
    requires Inv(s) && s.minted <= minted
    ensures Inv(s.(minted := minted))
  {
  }

  /** Changing a row in place, without moving its occurrence. */
  lemma ChangeKeeps(s: Rows, id: Id, r: Reminder)
    requires Inv(s) && id in s.reminders && RowOk(s.tasks, s.minted, r)
    requires r.series == s.reminders[id].series && r.occurrence == s.reminders[id].occurrence
    ensures Inv(Put(s, id, r))
  {
    PutKeeps(s, id, r);
  }

  lemma CreateKeeps(s: Rows, user: Id, task: Option<Id>, at: Moment, rule: Option<Rule>, now: int)
    requires Inv(s) && Owned(s, CreateEvent(user, task, at, rule))
    ensures Inv(Settle(s, Create(s, user, task, at, rule, now)))
  {
    if Create(s, user, task, at, rule, now).Returned? {
      MintKeeps(s, s.minted + 2);
      PutKeeps(s.(minted := s.minted + 2), s.minted, NewReminder(user, task, s.minted + 1, at, rule, now));
    }
  }

  lemma ClaimKeeps(s: Rows, id: Id, now: int)
    requires Inv(s)
    ensures Inv(Claim(s, id, now))
  {
    if Due(s, id, now) {
      MintKeeps(s, s.minted + 1);
      ChangeKeeps(s.(minted := s.minted + 1), id, s.reminders[id].(lease := Some(Lease(s.minted, now + LEASE_SECONDS))));
    }
  }

  lemma MarkKeeps(s: Rows, id: Id, token: Option<Id>, following: Outcome<Option<Moment>>, now: int)
    requires Inv(s)
    ensures Inv(Settle(s, MarkWith(s, id, token, following, now)))
  {
    if id in s.reminders && MarkWith(s, id, token, following, now) != Returned(s) {
      var r := s.reminders[id];
      ChangeKeeps(s, id, Sent(r));
      match following
      case Returned(Some(next)) =>
        if !Taken(s.reminders, s.minted, r.series, next) {
          var sent := Put(s, id, Sent(r));
          MintKeeps(sent, s.minted + 1);
          assert !Taken(sent.reminders, s.minted, r.series, next) by {
            StillFree(s, id, Sent(r), s.minted, r.series, next);
          }
          PutKeeps(sent.(minted := s.minted + 1), s.minted, NewReminder(r.user, r.task, r.series, next, r.rule, now));
        }
      case _ =>
    }
  }

  lemma StillFree(s: Rows, id: Id, r: Reminder, other: Id, series: Id, occurrence: Moment)
    requires id in s.reminders && r.series == s.reminders[id].series && r.occurrence == s.reminders[id].occurrence
    requires !Taken(s.reminders, other, series, occurrence)
    ensures !Taken(Put(s, id, r).reminders, other, series, occurrence)
  {
    var after := Put(s, id, r).reminders;
    forall i | i in after && i != other && after[i].series == series ensures after[i].occurrence != occurrence {
      assert s.reminders[i].series == series;
    }
  }

  lemma FailKeeps(s: Rows, id: Id, terminal: bool, token: Option<Id>, retryAfter: nat, now: int)
    requires Inv(s)
    ensures Inv(Fail(s, id, terminal, token, retryAfter, now))
  {
    if id in s.reminders && Fail(s, id, terminal, token, retryAfter, now) != s {
      ChangeKeeps(s, id, Fail(s, id, terminal, token, retryAfter, now).reminders[id]);
    }
  }

  lemma SnoozeKeeps(s: Rows, id: Id, user: Option<Id>, at: Moment)
    requires Inv(s)
    ensures Inv(Settle(s, Snooze(s, id, user, at)))
  {
    var r := Snooze(s, id, user, at);
    if r.Returned? && r.value != s {
      PutKeeps(s, id, r.value.reminders[id]);
    }
  }

  lemma ResolveKeeps(s: Rows, id: Id, user: Id)
    requires Inv(s)
    ensures Inv(Resolve(s, id, user))
  {
    if Resolve(s, id, user) != s {
      ChangeKeeps(s, id, s.reminders[id].(status := Resolved, isSent := true));
    }
  }

  lemma RetryKeeps(s: Rows, id: Id, user: Id, now: int)
    requires Inv(s)
    ensures Inv(Retry(s, id, user, now))
  {
    if Retry(s, id, user, now) != s {
      ChangeKeeps(s, id, Retry(s, id, user, now).reminders[id]);
    }
  }

  lemma UpsertKeeps(s: Rows, user: Id, task: Id, latest: Option<Id>, at: Moment, rule: Option<Rule>, now: int)
    requires Inv(s) && IsLatest(s, user, task, latest) && Owned(s, UpsertEvent(user, task, latest, at, rule))
    ensures Inv(Settle(s, Upsert(s, user, task, latest, at, rule, now)))
  {
    match latest
    case None => CreateKeeps(s, user, Some(task), at, rule, now);
    case Some(id) =>
      var r := Upsert(s, user, task, latest, at, rule, now);
      if r.Returned? {
        PutKeeps(s, id, r.value.reminders[id]);
      }
  }

  // Changes of a task.

  /** Closing the rows of a task together with any change of its status. */
  lemma CloseKeeps(s: Rows, id: Id, t: Task, status: Status)
    requires Inv(s) && id in s.tasks && t.user == s.tasks[id].user && (status.Resolved? || status.Cancelled?)
    ensures Inv(Rows(CloseAll(s.reminders, t.user, id, status), s.tasks[id := t], s.minted))
  {
    var after := Rows(CloseAll(s.reminders, t.user, id, status), s.tasks[id := t], s.minted);
    forall i | i in after.reminders ensures RowOk(after.tasks, s.minted, after.reminders[i]) {
      assert RowOk(s.tasks, s.minted, s.reminders[i]);
    }
    forall i | i in after.reminders ensures !Taken(after.reminders, i, after.reminders[i].series, after.reminders[i].occurrence) {
      assert !Taken(s.reminders, i, s.reminders[i].series, s.reminders[i].occurrence);
    }
  }

  /** Editing a task without closing it. */
  lemma EditKeeps(s: Rows, id: Id, t: Task)
    requires Inv(s) && id in s.tasks && t.user == s.tasks[id].user && (t.status.Open? || t.status == s.tasks[id].status)
    ensures Inv(s.(tasks := s.tasks[id := t]))
  {
    forall i | i in s.reminders ensures RowOk(s.tasks[id := t], s.minted, s.reminders[i]) {
      assert RowOk(s.tasks, s.minted, s.reminders[i]);
    }
  }

  lemma NewTaskKeeps(s: Rows, t: Task, minted: Id)
    requires Inv(s) && s.minted < minted
    ensures Inv(s.(tasks := s.tasks[s.minted := t], minted := minted))
  {
    forall i | i in s.reminders ensures RowOk(s.tasks[s.minted := t], minted, s.reminders[i]) {
      assert RowOk(s.tasks, s.minted, s.reminders[i]);
    }
  }

  lemma ContinueKeeps(s: Rows, user: Id, next: Task, now: Moment)
    requires Inv(s) && next.user == user
    ensures Inv(Continue(s, user, next, now))
  {
    NewTaskKeeps(s, next, s.minted + 3);
    var withTask := s.(tasks := s.tasks[s.minted := next], minted := s.minted + 3);
    if next.remindAt.Some? {
      PutKeeps(withTask, s.minted + 1, NewReminder(user, Some(s.minted), s.minted + 2, next.remindAt.value, None, Instant(now)));
    }
  }

  lemma CompleteKeeps(s: Rows, id: Id, user: Id, following: Outcome<Option<Moment>>, now: Moment)
    requires Inv(s)
    ensures Inv(AfterCompletion(s, CompleteWith(s, id, user, following, now)))
  {
    if id in s.tasks && s.tasks[id].user == user && s.tasks[id].status.Open? {
      var t := s.tasks[id];
      CloseKeeps(s, id, t.(status := Done, completed := Some(Instant(now))), Resolved);
      match following
      case Returned(Some(next)) =>
        if Anchor(t).Some? {
          ContinueKeeps(Finished(s, id, user, now), user, Successor(t, next, now), now);
        }
      case _ =>
    }
  }

  lemma RetargetKeeps(s: Rows, id: Id, user: Id, t: Task, target: Target, now: Moment)
    requires Inv(s) && id in s.tasks && s.tasks[id].user == user && t.user == user && t.status == s.tasks[id].status
    ensures Inv(Settle(s, Retarget(s, id, user, t, target, now)))
  {
    EditKeeps(s, id, t);
    match target
    case ToDone => CompleteKeeps(s.(tasks := s.tasks[id := t]), id, user, NextAnchor(t, now), now);
    case ToCancelled => CloseKeeps(s, id, t.(status := Dropped, completed := Some(Instant(now))), Cancelled);
    case ToOpen => EditKeeps(s, id, t.(status := Open, completed := None));
    case _ =>
  }

  lemma SyncKeeps(s: Rows, id: Id, u: Updates, latest: Option<Id>, now: int)
    requires Inv(s) && id in s.tasks && IsLatest(s, s.tasks[id].user, id, latest)
    ensures Inv(Settle(s, SyncAlarm(s, id, u, latest, now)))
  {
    var t := s.tasks[id];
    if MovesAlarm(t, u) {
      if t.due.None? || t.dueMinutes.None? {
        CloseKeeps(s, id, t.(remindAt := None), Cancelled);
      } else {
        var at := Earlier(Moment(t.due.value, 60 * t.dueMinutes.value), 60 * t.remindBefore.value);
        var edited := s.(tasks := s.tasks[id := t.(remindAt := Some(at))]);
        EditKeeps(s, id, t.(remindAt := Some(at)));
        UpsertKeeps(edited, t.user, id, latest, at, None, now);
      }
    }
  }

  lemma UpdateKeeps(s: Rows, id: Id, user: Id, expected: Option<TaskStatus>, target: Target, u: Updates,
      latest: Option<Id>, now: Moment)
    requires Inv(s) && IsLatest(s, user, id, latest)
    ensures Inv(Settle(s, Update(s, id, user, expected, target, u, latest, now)))
  {
    if Reaches(s, id, user, expected) && Acceptable(u) {
      var t := Edited(s.tasks[id], u);
      RetargetKeeps(s, id, user, t, target, now);
      var r := Retarget(s, id, user, t, target, now);
      if r.Returned? && r.value.tasks[id].status.Open? {
        SyncKeeps(r.value, id, u, latest, Instant(now));
      }
    }
  }

  lemma StepKeepsInv(s: Rows, t: Timed)
    requires Inv(s) && Owned(s, t.event)
    ensures Inv(Step(s, t))
  {
    var now := Instant(t.now);
    if Selects(s, t.event) {
      match t.event
      case CreateEvent(user, task, at, rule) => CreateKeeps(s, user, task, at, rule, now);
      case ClaimEvent(id) => ClaimKeeps(s, id, now);
      case MarkEvent(id, token) => MarkKeeps(s, id, token, FollowingOf(s, id, now), now);
      case FailEvent(id, terminal, token, retryAfter) => FailKeeps(s, id, terminal, token, retryAfter, now);
      case SnoozeEvent(id, user, at) => SnoozeKeeps(s, id, user, at);
      case ResolveEvent(id, user) => ResolveKeeps(s, id, user);
      case RetryEvent(id, user) => RetryKeeps(s, id, user, now);
      case UpsertEvent(user, task, latest, at, rule) => UpsertKeeps(s, user, task, latest, at, rule, now);
      case NewTaskEvent(task) => NewTaskKeeps(s, task.(status := Open), s.minted + 1);
      case CompleteEvent(task, user) => CompleteKeeps(s, task, user, NextAnchorOf(s, task, t.now), t.now);
      case UpdateEvent(task, user, expected, target, updates, latest) =>
        UpdateKeeps(s, task, user, expected, target, updates, latest, t.now);
    }
  }

  /** `is_sent` goes exactly with the closed statuses, no waiting row of a closed
      task is leased, a row waits with at most four failures counted, and none is
      snoozed more than five times. */
  lemma {:induction false} RunKeepsInv(s: Rows, events: seq<Timed>)
    requires Inv(s) && AllOwned(s, events)
    ensures Inv(Run(s, events))
    decreases |events|
  {
    if events != [] {
      StepKeepsInv(s, events[0]);
      RunKeepsInv(Step(s, events[0]), events[1..]);
    }
  }
}
