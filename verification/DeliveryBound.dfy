/** How often one reminder row can be delivered. */
module DeliveryBound {
  import opened Outcomes
  import opened Calendar
  import opened Recurrence
  import opened Reminders
  import opened Tasks
  import opened Lifecycle
  import opened SeriesProofs

  /** Only a snooze makes a sent row unsent again, and snoozes are never undone. */
  predicate Fair(r: Reminder, after: Reminder) {
    r.snoozes <= after.snoozes && (r.isSent && !after.isSent ==> r.snoozes < after.snoozes)
  }

  predicate AllFair(s: Rows, after: Rows) {
    forall id | id in s.reminders :: id in after.reminders && Fair(s.reminders[id], after.reminders[id])
  }

  lemma FairTwice(s: Rows, mid: Rows, after: Rows)
    requires AllFair(s, mid) && AllFair(mid, after)
    ensures AllFair(s, after)
  {
    forall id | id in s.reminders ensures id in after.reminders && Fair(s.reminders[id], after.reminders[id]) {
      assert Fair(s.reminders[id], mid.reminders[id]) && Fair(mid.reminders[id], after.reminders[id]);
    }
  }

  lemma ClosingIsFair(reminders: map<Id, Reminder>, user: Id, task: Id, status: Status)
    ensures forall id | id in reminders :: Fair(reminders[id], CloseAll(reminders, user, task, status)[id])
  {
  }

  lemma ContinueIsFair(s: Rows, user: Id, next: Task, now: Moment)
    requires forall id | id in s.reminders :: id < s.minted
    ensures AllFair(s, Continue(s, user, next, now))
  {
  }

  lemma CompletionIsFair(s: Rows, task: Id, user: Id, following: Outcome<Option<Moment>>, now: Moment)
    requires Inv(s)
    ensures AllFair(s, AfterCompletion(s, CompleteWith(s, task, user, following, now)))
  {
    if task in s.tasks && s.tasks[task].user == user && s.tasks[task].status.Open? {
      var finished := Finished(s, task, user, now);
      ClosingIsFair(s.reminders, user, task, Resolved);
      if following.Returned? && following.value.Some? && Anchor(s.tasks[task]).Some? {
        var next := Successor(s.tasks[task], following.value.value, now);
        ContinueIsFair(finished, user, next, now);
        FairTwice(s, finished, Continue(finished, user, next, now));
      }
    }
  }

  lemma UpsertIsFair(s: Rows, user: Id, task: Id, latest: Option<Id>, at: Moment, rule: Option<Rule>, now: int)
    requires Inv(s) && IsLatest(s, user, task, latest)
    ensures AllFair(s, Settle(s, Upsert(s, user, task, latest, at, rule, now)))
  {
    if latest.Some? {
      assert RowOk(s.tasks, s.minted, s.reminders[latest.value]);
    }
  }

  lemma RetargetIsFair(s: Rows, task: Id, user: Id, t: Task, target: Target, now: Moment)
    requires Inv(s) && task in s.tasks && s.tasks[task].user == user && t.user == user && t.status == s.tasks[task].status
    ensures AllFair(s, Settle(s, Retarget(s, task, user, t, target, now)))
  {
    if target.ToDone? {
      EditKeeps(s, task, t);
      CompletionIsFair(s.(tasks := s.tasks[task := t]), task, user, NextAnchor(t, now), now);
    }
  }

  lemma SyncIsFair(s: Rows, task: Id, u: Updates, latest: Option<Id>, now: int)
    requires Inv(s) && task in s.tasks && IsLatest(s, s.tasks[task].user, task, latest)
    ensures AllFair(s, Settle(s, SyncAlarm(s, task, u, latest, now)))
  {
    var t := s.tasks[task];
    if MovesAlarm(t, u) && t.due.Some? && t.dueMinutes.Some? {
      var at := Earlier(Moment(t.due.value, 60 * t.dueMinutes.value), 60 * t.remindBefore.value);
      EditKeeps(s, task, t.(remindAt := Some(at)));
      UpsertIsFair(s.(tasks := s.tasks[task := t.(remindAt := Some(at))]), t.user, task, latest, at, None, now);
    }
  }

  lemma UpdateIsFair(s: Rows, task: Id, user: Id, expected: Option<TaskStatus>, target: Target, u: Updates,
      latest: Option<Id>, now: Moment)
    requires Inv(s) && IsLatest(s, user, task, latest)
    ensures AllFair(s, Settle(s, Update(s, task, user, expected, target, u, latest, now)))
  {
    if Reaches(s, task, user, expected) && Acceptable(u) {
      var t := Edited(s.tasks[task], u);
      RetargetKeeps(s, task, user, t, target, now);
      RetargetIsFair(s, task, user, t, target, now);
      var r := Retarget(s, task, user, t, target, now);
      if r.Returned? && r.value.tasks[task].status.Open? {
        SyncIsFair(r.value, task, u, latest, Instant(now));
        FairTwice(s, r.value, Settle(r.value, SyncAlarm(r.value, task, u, latest, Instant(now))));
      }
    }
  }

  lemma StepIsFair(s: Rows, t: Timed)
    requires Inv(s) && AsCalled(t.event)
    ensures AllFair(s, Step(s, t))
  {
    if Selects(s, t.event) {
      match t.event
      case UpsertEvent(user, task, latest, at, rule) => UpsertIsFair(s, user, task, latest, at, rule, Instant(t.now));
      case CompleteEvent(task, user) => CompletionIsFair(s, task, user, NextAnchorOf(s, task, t.now), t.now);
      case UpdateEvent(task, user, expected, target, u, latest) =>
        UpdateIsFair(s, task, user, expected, target, u, latest, t.now);
      case MarkEvent(id, token) => MarkIsFair(s, id, token, FollowingOf(s, id, Instant(t.now)), Instant(t.now));
      case _ => RowEventIsFair(s, t);
    }
  }

  lemma MarkIsFair(s: Rows, id: Id, token: Option<Id>, following: Outcome<Option<Moment>>, now: int)
    requires Inv(s)
    ensures AllFair(s, Settle(s, MarkWith(s, id, token, following, now)))
  {
  }

  lemma RowEventIsFair(s: Rows, t: Timed)
    requires Inv(s) && AsCalled(t.event)
    requires !t.event.UpsertEvent? && !t.event.CompleteEvent? && !t.event.UpdateEvent? && !t.event.MarkEvent?
    ensures AllFair(s, Step(s, t))
  {
    if t.event.RetryEvent? && t.event.id in s.reminders {
      assert RowOk(s.tasks, s.minted, s.reminders[t.event.id]);
    }
  }

  /** Whether an event delivers the row. */
  predicate Delivers(s: Rows, t: Timed, id: Id) {
    && id in s.reminders && !s.reminders[id].isSent
    && id in Step(s, t).reminders && Step(s, t).reminders[id].status.Delivered?
  }

  function Deliveries(s: Rows, events: seq<Timed>, id: Id): nat
    decreases |events|
  {
    if events == [] then 0
    else (if Delivers(s, events[0], id) then 1 else 0) + Deliveries(Step(s, events[0]), events[1..], id)
  }

  function Pending(r: Reminder): nat {
    if r.isSent then 0 else 1
  }

  /** Deliveries of a row are paid for by its pending delivery and by snoozes. */
  lemma {:induction false} DeliveriesArePaid(s: Rows, events: seq<Timed>, id: Id)
    requires Inv(s) && AllOwned(s, events) && AllAsCalled(events) && id in s.reminders
    ensures id in Run(s, events).reminders
    ensures var r, later := s.reminders[id], Run(s, events).reminders[id];
      Deliveries(s, events, id) + Pending(later) + r.snoozes <= Pending(r) + later.snoozes
    decreases |events|
  {
    if events != [] {
      var after := Step(s, events[0]);
      assert AsCalled(events[0].event);
      StepKeepsInv(s, events[0]);
      StepIsFair(s, events[0]);
      assert Fair(s.reminders[id], after.reminders[id]) && RowOk(after.tasks, after.minted, after.reminders[id]);
      DeliveriesArePaid(after, events[1..], id);
    }
  }

  /** Over every run of calls as the program makes them, from the empty tables, a
      reminder is delivered at most once more than it is snoozed, so at most six
      times, however many workers, retries and crashes there are. */
  lemma DeliveredAtMostSixTimes(events: seq<Timed>, id: Id)
    requires AllOwned(EMPTY, events) && AllAsCalled(events)
    ensures var after := Run(EMPTY, events);
      id in after.reminders ==> Deliveries(EMPTY, events, id) <= 1 + after.reminders[id].snoozes <= 1 + MAX_SNOOZES
  {
    RunKeepsInv(EMPTY, events);
    DeliveredFromNothing(EMPTY, events, id);
    if id in Run(EMPTY, events).reminders {
      var after := Run(EMPTY, events);
      assert RowOk(after.tasks, after.minted, after.reminders[id]);
    }
  }

  lemma {:induction false} DeliveredFromNothing(s: Rows, events: seq<Timed>, id: Id)
    requires Inv(s) && AllOwned(s, events) && AllAsCalled(events) && id !in s.reminders
    ensures id in Run(s, events).reminders ==> Deliveries(s, events, id) <= 1 + Run(s, events).reminders[id].snoozes
    decreases |events|
  {
    if events != [] {
      assert AsCalled(events[0].event);
      StepKeepsInv(s, events[0]);
      var after := Step(s, events[0]);
      if id in after.reminders {
        DeliveriesArePaid(after, events[1..], id);
      } else {
        DeliveredFromNothing(after, events[1..], id);
      }
    }
  }
}
