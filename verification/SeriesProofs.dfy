/** Recurring series never fork: at most one row of a series is unsent and
    repeats. */
module SeriesProofs {
  import opened Outcomes
  import opened Calendar
  import opened Recurrence
  import opened Reminders
  import opened Tasks
  import opened Lifecycle

  /** The row that carries its series on. */
  predicate Carries(r: Reminder, series: Id) {
    !r.isSent && r.rule.Some? && r.series == series
  }

  /** Whether another row than `id` carries the series. */
  predicate CarriedElsewhere(s: Rows, id: Id, series: Id) {
    exists other | other in s.reminders :: other != id && Carries(s.reminders[other], series)
  }

  /** No series forks. */
  predicate Single(s: Rows) {
    forall id | id in s.reminders && Carries(s.reminders[id], s.reminders[id].series) ::
      !CarriedElsewhere(s, id, s.reminders[id].series)
  }

  lemma PutSingleExactly(s: Rows, id: Id, r: Reminder)
    requires Single(s)
    requires id in s.reminders && Carries(s.reminders[id], s.reminders[id].series) ==> r.series == s.reminders[id].series
    ensures Single(Put(s, id, r)) <==> !(Carries(r, r.series) && CarriedElsewhere(s, id, r.series))
  {
    var after := Put(s, id, r);
    if Carries(r, r.series) && CarriedElsewhere(s, id, r.series) {
      var other :| other in s.reminders && other != id && Carries(s.reminders[other], r.series);
      assert CarriedElsewhere(after, id, r.series) by {
        assert after.reminders[other] == s.reminders[other];
      }
      assert after.reminders[id] == r;
    } else {
      forall i, j | i in after.reminders && j in after.reminders && i != j && Carries(after.reminders[i], after.reminders[i].series)
        ensures !Carries(after.reminders[j], after.reminders[i].series)
      {
        if i != id && j != id {
          assert !CarriedElsewhere(s, i, s.reminders[i].series);
        }
      }
    }
  }

  /** A row that does not newly carry a series never forks one. */
  lemma PutKeepsSingle(s: Rows, id: Id, r: Reminder)
    requires Single(s)
    requires Carries(r, r.series) ==> id in s.reminders && Carries(s.reminders[id], r.series)
    requires id in s.reminders ==> r.series == s.reminders[id].series
    ensures Single(Put(s, id, r))
  {
    PutSingleExactly(s, id, r);
  }

  /** A row of a new series cannot fork it. */
  lemma NewSeriesIsSingle(s: Rows, id: Id, r: Reminder)
    requires Inv(s) && Single(s) && id !in s.reminders && r.series >= s.minted
    ensures Single(Put(s, id, r))
  {
    PutSingleExactly(s, id, r);
    forall other | other in s.reminders ensures s.reminders[other].series != r.series {
      assert RowOk(s.tasks, s.minted, s.reminders[other]);
    }
  }

  lemma MarkKeepsSingle(s: Rows, id: Id, token: Option<Id>, following: Outcome<Option<Moment>>, now: int)
    requires Inv(s) && Single(s)
    requires id in s.reminders && s.reminders[id].rule.None? ==> following == Returned(None)
    ensures Single(Settle(s, MarkWith(s, id, token, following, now)))
  {
    if id in s.reminders && MarkWith(s, id, token, following, now) != Returned(s) {
      var r := s.reminders[id];
      var sent := Put(s, id, Sent(r));
      PutKeepsSingle(s, id, Sent(r));
      match following
      case Returned(Some(next)) =>
        assert !CarriedElsewhere(s, id, r.series);
        var successor := NewReminder(r.user, r.task, r.series, next, r.rule, now);
        assert !CarriedElsewhere(sent, s.minted, r.series) by {
          forall other | other in sent.reminders && other != s.minted ensures !Carries(sent.reminders[other], r.series) {
            assert other == id || !Carries(s.reminders[other], r.series);
          }
        }
        PutSingleExactly(sent, s.minted, successor);
      case _ =>
    }
  }

  lemma CloseKeepsSingle(reminders: map<Id, Reminder>, user: Id, task: Id, status: Status, s: Rows, after: Rows)
    requires s.reminders == reminders && Single(s) && after.reminders == CloseAll(reminders, user, task, status)
    ensures Single(after)
  {
    forall i, j | i in after.reminders && j in after.reminders && i != j && Carries(after.reminders[i], after.reminders[i].series)
      ensures !Carries(after.reminders[j], after.reminders[i].series)
    {
      assert !CarriedElsewhere(s, i, s.reminders[i].series);
    }
  }

  lemma CreateKeepsSingle(s: Rows, user: Id, task: Option<Id>, at: Moment, rule: Option<Rule>, now: int)
    requires Inv(s) && Single(s)
    ensures Single(Settle(s, Create(s, user, task, at, rule, now)))
  {
    NewSeriesIsSingle(s, s.minted, NewReminder(user, task, s.minted + 1, at, rule, now));
  }

  lemma CompleteKeepsSingle(s: Rows, id: Id, user: Id, following: Outcome<Option<Moment>>, now: Moment)
    requires Inv(s) && Single(s)
    ensures Single(AfterCompletion(s, CompleteWith(s, id, user, following, now)))
  {
    if id in s.tasks && s.tasks[id].user == user && s.tasks[id].status.Open? {
      var t := s.tasks[id];
      var finished := Finished(s, id, user, now);
      CloseKeepsSingle(s.reminders, user, id, Resolved, s, finished);
      CloseKeeps(s, id, t.(status := Done, completed := Some(Instant(now))), Resolved);
      match following
      case Returned(Some(next)) =>
        if Anchor(t).Some? && t.remindAt.Some? {
          var successor := Successor(t, next, now);
          var reminder := NewReminder(user, Some(s.minted), s.minted + 2, successor.remindAt.value, None, Instant(now));
          PutKeepsSingle(finished, s.minted + 1, reminder);
        }
      case _ =>
    }
  }

  // Which calls could fork a series.

  /** An upsert with a rule whose row belongs to a series carried elsewhere. */
  predicate UpsertForks(s: Rows, latest: Option<Id>, at: Moment, rule: Option<Rule>) {
    && rule.Some? && latest.Some? && latest.value in s.reminders
    && !Taken(s.reminders, latest.value, s.reminders[latest.value].series, at)
    && CarriedElsewhere(s, latest.value, s.reminders[latest.value].series)
  }

  /** A final failure recorded without a token for a sent, repeating row. */
  predicate FailureForks(s: Rows, id: Id, terminal: bool, token: Option<Id>) {
    && id in s.reminders && s.reminders[id].isSent && s.reminders[id].rule.Some?
    && token.None? && (terminal || s.reminders[id].attempts + 1 >= MAX_FAILURES)
    && CarriedElsewhere(s, id, s.reminders[id].series)
  }

  predicate Forks(s: Rows, e: Event) {
    match e
    case UpsertEvent(user, task, latest, at, rule) => IsLatest(s, user, task, latest) && UpsertForks(s, latest, at, rule)
    case FailEvent(id, terminal, token, _) => FailureForks(s, id, terminal, token)
    case _ => false
  }

  lemma UpsertSingleExactly(s: Rows, user: Id, task: Id, latest: Option<Id>, at: Moment, rule: Option<Rule>, now: int)
    requires Inv(s) && Single(s) && IsLatest(s, user, task, latest)
    ensures Single(Settle(s, Upsert(s, user, task, latest, at, rule, now))) <==> !UpsertForks(s, latest, at, rule)
  {
    match latest
    case None => CreateKeepsSingle(s, user, Some(task), at, rule, now);
    case Some(id) =>
      var r := Upsert(s, user, task, latest, at, rule, now);
      if r.Returned? {
        PutSingleExactly(s, id, r.value.reminders[id]);
      }
  }

  lemma FailSingleExactly(s: Rows, id: Id, terminal: bool, token: Option<Id>, retryAfter: nat, now: int)
    requires Inv(s) && Single(s)
    ensures Single(Fail(s, id, terminal, token, retryAfter, now)) <==> !FailureForks(s, id, terminal, token)
  {
    var after := Fail(s, id, terminal, token, retryAfter, now);
    if after != s {
      PutSingleExactly(s, id, after.reminders[id]);
      assert after == Put(s, id, after.reminders[id]);
      if !s.reminders[id].isSent && s.reminders[id].rule.Some? {
        assert !CarriedElsewhere(s, id, s.reminders[id].series);
      }
    }
  }

  lemma UpdateKeepsSingle(s: Rows, id: Id, user: Id, expected: Option<TaskStatus>, target: Target, u: Updates,
      latest: Option<Id>, now: Moment)
    requires Inv(s) && Single(s) && IsLatest(s, user, id, latest)
    ensures Single(Settle(s, Update(s, id, user, expected, target, u, latest, now)))
  {
    if Reaches(s, id, user, expected) && Acceptable(u) {
      var t := Edited(s.tasks[id], u);
      RetargetKeeps(s, id, user, t, target, now);
      RetargetKeepsSingle(s, id, user, t, target, now);
      var r := Retarget(s, id, user, t, target, now);
      if r.Returned? && r.value.tasks[id].status.Open? {
        SyncKeepsSingle(r.value, id, u, latest, Instant(now));
      }
    }
  }

  lemma RetargetKeepsSingle(s: Rows, id: Id, user: Id, t: Task, target: Target, now: Moment)
    requires Inv(s) && Single(s) && id in s.tasks && s.tasks[id].user == user && t.user == user && t.status == s.tasks[id].status
    ensures Single(Settle(s, Retarget(s, id, user, t, target, now)))
  {
    EditKeeps(s, id, t);
    match target
    case ToDone => CompleteKeepsSingle(s.(tasks := s.tasks[id := t]), id, user, NextAnchor(t, now), now);
    case ToCancelled => CloseKeepsSingle(s.reminders, t.user, id, Cancelled, s, Settle(s, Retarget(s, id, user, t, target, now)));
    case _ =>
  }

  lemma SyncKeepsSingle(s: Rows, id: Id, u: Updates, latest: Option<Id>, now: int)
    requires Inv(s) && Single(s) && id in s.tasks && IsLatest(s, s.tasks[id].user, id, latest)
    ensures Single(Settle(s, SyncAlarm(s, id, u, latest, now)))
  {
    var t := s.tasks[id];
    if MovesAlarm(t, u) {
      if t.due.None? || t.dueMinutes.None? {
        CloseKeepsSingle(s.reminders, t.user, id, Cancelled, s, Settle(s, SyncAlarm(s, id, u, latest, now)));
      } else {
        var at := Earlier(Moment(t.due.value, 60 * t.dueMinutes.value), 60 * t.remindBefore.value);
        var edited := s.(tasks := s.tasks[id := t.(remindAt := Some(at))]);
        EditKeeps(s, id, t.(remindAt := Some(at)));
        UpsertSingleExactly(edited, t.user, id, latest, at, None, now);
      }
    }
  }

  lemma ClaimKeepsSingle(s: Rows, id: Id, now: int)
    requires Inv(s) && Single(s)
    ensures Single(Claim(s, id, now))
  {
    if Due(s, id, now) {
      PutKeepsSingle(s, id, s.reminders[id].(lease := Some(Lease(s.minted, now + LEASE_SECONDS))));
    }
  }

  lemma RowEventKeepsSingle(s: Rows, t: Timed)
    requires Inv(s) && Single(s) && (t.event.SnoozeEvent? || t.event.ResolveEvent? || t.event.RetryEvent?)
    ensures Single(Step(s, t))
  {
    var after := Step(s, t);
    var id := t.event.id;
    if after != s {
      assert RowOk(s.tasks, s.minted, s.reminders[id]);
      PutKeepsSingle(s, id, after.reminders[id]);
      assert after == Put(s, id, after.reminders[id]);
    }
  }

  /** A transaction forks a series exactly in these two cases. */
  lemma StepForksExactly(s: Rows, t: Timed)
    requires Inv(s) && Single(s)
    ensures Single(Step(s, t)) <==> !Forks(s, t.event)
  {
    var now := Instant(t.now);
    if Selects(s, t.event) {
      match t.event
      case CreateEvent(user, task, at, rule) => CreateKeepsSingle(s, user, task, at, rule, now);
      case ClaimEvent(id) => ClaimKeepsSingle(s, id, now);
      case MarkEvent(id, token) => MarkKeepsSingle(s, id, token, FollowingOf(s, id, now), now);
      case FailEvent(id, terminal, token, retryAfter) => FailSingleExactly(s, id, terminal, token, retryAfter, now);
      case UpsertEvent(user, task, latest, at, rule) => UpsertSingleExactly(s, user, task, latest, at, rule, now);
      case CompleteEvent(task, user) =>
        CompleteKeepsSingle(s, task, user, NextAnchorOf(s, task, t.now), t.now);
      case UpdateEvent(task, user, expected, target, u, latest) => UpdateKeepsSingle(s, task, user, expected, target, u, latest, t.now);
      case NewTaskEvent(_) =>
      case _ => RowEventKeepsSingle(s, t);
    }
  }

  /** What all callers do: failures are recorded with a token, and a task's
      reminder gets no rule. */
  predicate AsCalled(e: Event) {
    (e.FailEvent? ==> e.token.Some?) && (e.UpsertEvent? ==> e.rule.None?)
  }

  predicate AllAsCalled(events: seq<Timed>) {
    forall t | t in events :: AsCalled(t.event)
  }

  /** Over every run of calls as the program makes them no series forks. */
  lemma {:induction false} SeriesNeverFork(s: Rows, events: seq<Timed>)
    requires Inv(s) && Single(s) && AllOwned(s, events) && AllAsCalled(events)
    ensures Single(Run(s, events))
    decreases |events|
  {
    if events != [] {
      assert AsCalled(events[0].event);
      StepKeepsInv(s, events[0]);
      StepForksExactly(s, events[0]);
      SeriesNeverFork(Step(s, events[0]), events[1..]);
    }
  }

  /** A call no caller makes: given a rule, the upsert revives the newer of two
      rows of a series whose older row still repeats. */
  lemma UpsertCanFork(at: Moment, rule: Rule, task: Task, now: int)
    requires task.user == 0
    ensures var older := NewReminder(0, Some(3), 4, at, Some(rule), 0);
      var newer := older.(occurrence := Moment(NextDay(at.date), at.tod), status := Snoozed, rule := None, created := 1);
      var s := Rows(map[1 := older, 2 := newer], map[3 := task.(status := Open)], 5);
      && Inv(s) && Single(s) && IsLatest(s, 0, 3, Some(2)) && UpsertForks(s, Some(2), newer.occurrence, Some(rule))
      && !Single(Settle(s, Upsert(s, 0, 3, Some(2), newer.occurrence, Some(rule), now)))
  {
    var older := NewReminder(0, Some(3), 4, at, Some(rule), 0);
    var newer := older.(occurrence := Moment(NextDay(at.date), at.tod), status := Snoozed, rule := None, created := 1);
    var s := Rows(map[1 := older, 2 := newer], map[3 := task.(status := Open)], 5);
    assert older.occurrence != newer.occurrence;
    assert Inv(s);
    assert Carries(s.reminders[1], 4);
    UpsertSingleExactly(s, 0, 3, Some(2), newer.occurrence, Some(rule), now);
  }

  /** Another: without a token, a final failure recorded for a delivered row makes
      it unsent although its series went on. */
  lemma FailureCanFork(at: Moment, rule: Rule, retryAfter: nat, now: int)
    ensures var pending := NewReminder(0, None, 4, Moment(NextDay(at.date), at.tod), Some(rule), 0);
      var delivered := pending.(occurrence := at, remindAt := at, status := Delivered, isSent := true);
      var s := Rows(map[1 := delivered, 2 := pending], map[], 5);
      && Inv(s) && Single(s) && FailureForks(s, 1, true, None)
      && !Single(Fail(s, 1, true, None, retryAfter, now))
  {
    var pending := NewReminder(0, None, 4, Moment(NextDay(at.date), at.tod), Some(rule), 0);
    var delivered := pending.(occurrence := at, remindAt := at, status := Delivered, isSent := true);
    var s := Rows(map[1 := delivered, 2 := pending], map[], 5);
    assert delivered.occurrence != pending.occurrence;
    assert Inv(s);
    assert Carries(s.reminders[2], 4);
    FailSingleExactly(s, 1, true, None, retryAfter, now);
  }
}
