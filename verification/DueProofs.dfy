/** When a reminder can be claimed: what a transaction settles about the row holds
    through every run that leaves the row alone. */
module DueProofs {
  import opened Common
  import opened Outcomes
  import opened Calendar
  import opened Recurrence
  import opened Reminders
  import opened Tasks
  import opened Lifecycle

  /** An update that changes the status of a task or moves its alarm; other edits
      do not. */
  predicate Reschedules(s: Rows, task: Id, target: Target, u: Updates) {
    !target.Unchanged? || (task in s.tasks && Acceptable(u) && MovesAlarm(Edited(s.tasks[task], u), u))
  }

  /** Events about a row, and those that close, reopen or reschedule its task. */
  predicate Touches(s: Rows, e: Event, id: Id) {
    match e
    case ClaimEvent(row) => row == id
    case MarkEvent(row, _) => row == id
    case FailEvent(row, _, _, _) => row == id
    case SnoozeEvent(row, _, _) => row == id
    case ResolveEvent(row, _) => row == id
    case RetryEvent(row, _) => row == id
    case UpsertEvent(_, _, latest, _, _) => latest == Some(id)
    case CompleteEvent(task, _) => id in s.reminders && s.reminders[id].task == Some(task)
    case UpdateEvent(task, _, _, target, u, _) =>
      id in s.reminders && s.reminders[id].task == Some(task) && Reschedules(s, task, target, u)
    case _ => false
  }

  predicate AllLeave(s: Rows, events: seq<Timed>, id: Id)
    decreases |events|
  {
    events == [] || (!Touches(s, events[0].event, id) && AllLeave(Step(s, events[0]), events[1..], id))
  }

  /** A row is as it was and its task has the same status. */
  predicate SameRow(s: Rows, after: Rows, id: Id) {
    && id in s.reminders && id in after.reminders && after.reminders[id] == s.reminders[id]
    && (s.reminders[id].task.Some? && s.reminders[id].task.value in s.tasks ==>
          s.reminders[id].task.value in after.tasks
          && after.tasks[s.reminders[id].task.value].status == s.tasks[s.reminders[id].task.value].status)
  }

  lemma CompletionLeavesRow(s: Rows, task: Id, user: Id, following: Outcome<Option<Moment>>, now: Moment, id: Id)
    requires id in s.reminders && id < s.minted && s.reminders[id].task != Some(task)
    requires forall t | t in s.tasks :: t < s.minted
    ensures SameRow(s, AfterCompletion(s, CompleteWith(s, task, user, following, now)), id)
  {
  }

  lemma RetargetLeavesRow(s: Rows, task: Id, user: Id, t: Task, target: Target, now: Moment, id: Id)
    requires id in s.reminders && id < s.minted && s.reminders[id].task != Some(task)
    requires task in s.tasks && t.user == user && forall x | x in s.tasks :: x < s.minted
    ensures SameRow(s, Settle(s, Retarget(s, task, user, t, target, now)), id)
  {
    if target.ToDone? {
      CompletionLeavesRow(s.(tasks := s.tasks[task := t]), task, user, NextAnchor(t, now), now, id);
    }
  }

  lemma SyncLeavesRow(s: Rows, task: Id, u: Updates, latest: Option<Id>, now: int, id: Id)
    requires id in s.reminders && id < s.minted && s.reminders[id].task != Some(task)
    requires task in s.tasks && IsLatest(s, s.tasks[task].user, task, latest)
    ensures SameRow(s, Settle(s, SyncAlarm(s, task, u, latest, now)), id)
  {
  }

  lemma UpdateLeavesRow(s: Rows, task: Id, user: Id, expected: Option<TaskStatus>, target: Target, u: Updates,
      latest: Option<Id>, now: Moment, id: Id)
    requires Inv(s) && IsLatest(s, user, task, latest) && id in s.reminders
    requires s.reminders[id].task != Some(task) || !Reschedules(s, task, target, u)
    ensures SameRow(s, Settle(s, Update(s, task, user, expected, target, u, latest, now)), id)
  {
    if s.reminders[id].task == Some(task) {
      PlainEditLeavesRow(s, task, user, expected, u, latest, now, id);
    } else {
      OtherUpdateLeavesRow(s, task, user, expected, target, u, latest, now, id);
    }
  }

  lemma OtherUpdateLeavesRow(s: Rows, task: Id, user: Id, expected: Option<TaskStatus>, target: Target, u: Updates,
      latest: Option<Id>, now: Moment, id: Id)
    requires Inv(s) && IsLatest(s, user, task, latest) && id in s.reminders && s.reminders[id].task != Some(task)
    ensures SameRow(s, Settle(s, Update(s, task, user, expected, target, u, latest, now)), id)
  {
    if Reaches(s, task, user, expected) && Acceptable(u) {
      var t := Edited(s.tasks[task], u);
      RetargetKeeps(s, task, user, t, target, now);
      RetargetLeavesRow(s, task, user, t, target, now, id);
      var r := Retarget(s, task, user, t, target, now);
      if r.Returned? && r.value.tasks[task].status.Open? {
        SyncLeavesRow(r.value, task, u, latest, Instant(now), id);
      }
    }
  }

  lemma PlainEditLeavesRow(s: Rows, task: Id, user: Id, expected: Option<TaskStatus>, u: Updates,
      latest: Option<Id>, now: Moment, id: Id)
    requires Inv(s) && IsLatest(s, user, task, latest) && id in s.reminders && !Reschedules(s, task, Unchanged, u)
    ensures SameRow(s, Settle(s, Update(s, task, user, expected, Unchanged, u, latest, now)), id)
  {
  }

  lemma StepLeavesRow(s: Rows, t: Timed, id: Id)
    requires Inv(s) && id in s.reminders && !Touches(s, t.event, id)
    ensures SameRow(s, Step(s, t), id)
  {
    match t.event
    case CompleteEvent(task, user) => CompletionLeavesRow(s, task, user, NextAnchorOf(s, task, t.now), t.now, id);
    case UpdateEvent(task, user, expected, target, u, latest) =>
      if Selects(s, t.event) {
        UpdateLeavesRow(s, task, user, expected, target, u, latest, t.now, id);
      }
    case _ =>
  }

  /** Over every run without an event about a row or about the status or the alarm
      of its task, whatever else is edited, the row stays as it is and is due
      exactly when it was due. */
  lemma {:induction false} UntouchedKeepsItsTime(s: Rows, events: seq<Timed>, id: Id, later: int)
    requires Inv(s) && AllOwned(s, events) && AllLeave(s, events, id) && id in s.reminders
    ensures SameRow(s, Run(s, events), id)
    ensures Due(Run(s, events), id, later) <==> Due(s, id, later)
    decreases |events|
  {
    if events != [] {
      StepKeepsInv(s, events[0]);
      StepLeavesRow(s, events[0], id);
      SameRowSameTime(s, Step(s, events[0]), id, later);
      UntouchedKeepsItsTime(Step(s, events[0]), events[1..], id, later);
    }
  }

  lemma SameRowSameTime(s: Rows, after: Rows, id: Id, later: int)
    requires Inv(s) && SameRow(s, after, id)
    ensures Due(after, id, later) <==> Due(s, id, later)
  {
    assert RowOk(s.tasks, s.minted, s.reminders[id]);
  }

  // What one transaction settles.

  /** A new row is due from its moment on. */
  lemma CreatedIsDueOnTime(s: Rows, user: Id, task: Option<Id>, at: Moment, rule: Option<Rule>, now: int, later: int)
    requires Create(s, user, task, at, rule, now).Returned?
    ensures var after := Create(s, user, task, at, rule, now).value;
      Due(after, s.minted, later) <==> Instant(at) <= later && OpenTask(s.tasks, task)
  {
  }

  /** A claimed row is due again only when the lease has run out. */
  lemma ClaimedIsDueAfterItsLease(s: Rows, id: Id, now: int, later: int)
    requires Due(s, id, now) && now <= later
    ensures Due(Claim(s, id, now), id, later) <==> now + 300 <= later
  {
  }

  /** A delivered row is not due any more, and its series goes on at the occurrence
      that follows, and not before. */
  lemma DeliveredIsDueAtTheNext(s: Rows, id: Id, token: Option<Id>, following: Outcome<Option<Moment>>,
      now: int, later: int)
    requires Inv(s) && id in s.reminders && !s.reminders[id].isSent && (token.None? || Holds(s.reminders[id], token.value))
    requires MarkWith(s, id, token, following, now).Returned?
    ensures var after := MarkWith(s, id, token, following, now).value;
      && !Due(after, id, later)
      && (following.value.Some? ==>
            (Due(after, s.minted, later) <==> Instant(following.value.value) <= later && OpenTask(s.tasks, s.reminders[id].task)))
      && (following.value.None? ==> after.reminders.Keys == s.reminders.Keys)
  {
  }

  /** A snoozed row, whatever it was before, is due from its new moment on. */
  lemma SnoozedIsDueOnTime(s: Rows, id: Id, user: Option<Id>, at: Moment, later: int)
    requires Snooze(s, id, user, at).Returned? && Snooze(s, id, user, at).value != s
    ensures var after := Snooze(s, id, user, at).value;
      Due(after, id, later) <==> Instant(at) <= later && OpenTask(s.tasks, s.reminders[id].task)
  {
  }

  /** A failed row is due again after the delay, or never once it failed for good:
      by a final error or by the fifth failure in a row. */
  lemma FailedIsDueAfterTheDelay(s: Rows, id: Id, terminal: bool, token: Id, retryAfter: nat, now: int, later: int)
    requires Inv(s) && id in s.reminders && Holds(s.reminders[id], token) && Waiting(s.reminders[id].status)
    ensures var r, after := s.reminders[id], Fail(s, id, terminal, Some(token), retryAfter, now);
      Due(after, id, later) <==>
        && !terminal && r.attempts < 4
        && now + Backoff(r.attempts + 1, retryAfter) <= later && Instant(r.remindAt) <= later
  {
    assert RowOk(s.tasks, s.minted, s.reminders[id]);
  }

  /** The usual delays: one minute after the first failure, doubling up to an hour;
      a longer wait that Telegram asks for is respected. */
  lemma DelaysDouble(attempts: nat, retryAfter: nat)
    requires 1 <= attempts
    ensures Backoff(1, 0) == 60 && Backoff(attempts + 1, 0) == Min(3600, 2 * Backoff(attempts, 0))
    ensures Backoff(attempts, retryAfter) >= retryAfter && 60 <= Backoff(attempts, 0) <= 3600
  {
    assert Pow2(1) == 2 && Pow2(3) == 8 && Pow2(5) == 32 && Pow2(7) == 128;
  }

  /** A retried row is due at once, or at its moment if that is still ahead. */
  lemma RetriedIsDueNow(s: Rows, id: Id, user: Id, now: int, later: int)
    requires Retry(s, id, user, now) != s
    ensures Due(Retry(s, id, user, now), id, later) <==> now <= later && Instant(s.reminders[id].remindAt) <= later
  {
  }

  /** After an upsert exactly the selected or new row reminds at the moment; the
      other rows are as they were. */
  lemma UpsertedIsDueOnTime(s: Rows, user: Id, task: Id, latest: Option<Id>, at: Moment, rule: Option<Rule>,
      now: int, later: int)
    requires Inv(s) && IsLatest(s, user, task, latest) && Upsert(s, user, task, latest, at, rule, now).Returned?
    ensures var after := Upsert(s, user, task, latest, at, rule, now).value;
      var row := if latest.Some? then latest.value else s.minted;
      && (Due(after, row, later) <==> Instant(at) <= later && OpenTask(s.tasks, Some(task)))
      && after.reminders.Keys == s.reminders.Keys + {row}
      && forall id | id in s.reminders && id != row :: after.reminders[id] == s.reminders[id]
  {
  }

  // What it settles for every later run.

  /** A new reminder fires on time: left alone it is due exactly from its moment
      on, while its task is open. */
  lemma NewReminderFiresOnTime(s: Rows, user: Id, task: Option<Id>, at: Moment, rule: Option<Rule>, now: int,
      events: seq<Timed>, later: int)
    requires Inv(s) && Owned(s, CreateEvent(user, task, at, rule)) && Create(s, user, task, at, rule, now).Returned?
    requires var created := Create(s, user, task, at, rule, now).value;
      AllOwned(created, events) && AllLeave(created, events, s.minted)
    ensures var after := Run(Create(s, user, task, at, rule, now).value, events);
      Due(after, s.minted, later) <==> Instant(at) <= later && OpenTask(s.tasks, task)
  {
    var created := Create(s, user, task, at, rule, now).value;
    CreateKeeps(s, user, task, at, rule, now);
    CreatedIsDueOnTime(s, user, task, at, rule, now, later);
    UntouchedKeepsItsTime(created, events, s.minted, later);
  }

  /** A snoozed reminder, whatever its status was, fires at its new moment. */
  lemma SnoozedFiresOnTime(s: Rows, id: Id, user: Option<Id>, at: Moment, events: seq<Timed>, later: int)
    requires Inv(s) && Snooze(s, id, user, at).Returned? && Snooze(s, id, user, at).value != s
    requires AllOwned(Snooze(s, id, user, at).value, events) && AllLeave(Snooze(s, id, user, at).value, events, id)
    ensures var after := Run(Snooze(s, id, user, at).value, events);
      Due(after, id, later) <==> Instant(at) <= later && OpenTask(s.tasks, s.reminders[id].task)
  {
    SnoozeKeeps(s, id, user, at);
    SnoozedIsDueOnTime(s, id, user, at, later);
    UntouchedKeepsItsTime(Snooze(s, id, user, at).value, events, id, later);
  }

  /** A failed delivery is repeated exactly from the end of the delay on, and not
      at all after a final error or the fifth failure in a row. */
  lemma FailedFiresAfterTheDelay(s: Rows, id: Id, terminal: bool, token: Id, retryAfter: nat, now: int,
      events: seq<Timed>, later: int)
    requires Inv(s) && id in s.reminders && Holds(s.reminders[id], token) && Waiting(s.reminders[id].status)
    requires var failed := Fail(s, id, terminal, Some(token), retryAfter, now);
      AllOwned(failed, events) && AllLeave(failed, events, id)
    ensures var r, after := s.reminders[id], Run(Fail(s, id, terminal, Some(token), retryAfter, now), events);
      Due(after, id, later) <==>
        && !terminal && r.attempts < 4
        && now + Backoff(r.attempts + 1, retryAfter) <= later && Instant(r.remindAt) <= later
  {
    FailKeeps(s, id, terminal, Some(token), retryAfter, now);
    FailedIsDueAfterTheDelay(s, id, terminal, token, retryAfter, now, later);
    UntouchedKeepsItsTime(Fail(s, id, terminal, Some(token), retryAfter, now), events, id, later);
  }

  /** After a delivery the row stays silent and its series fires exactly at the
      occurrence that follows. */
  lemma SeriesFiresOnTime(s: Rows, id: Id, token: Option<Id>, following: Outcome<Option<Moment>>, now: int,
      events: seq<Timed>, later: int)
    requires Inv(s) && id in s.reminders && !s.reminders[id].isSent && (token.None? || Holds(s.reminders[id], token.value))
    requires MarkWith(s, id, token, following, now).Returned?
    requires AllOwned(MarkWith(s, id, token, following, now).value, events)
    ensures var delivered := MarkWith(s, id, token, following, now).value;
      && (AllLeave(delivered, events, id) ==> !Due(Run(delivered, events), id, later))
      && (following.value.Some? && AllLeave(delivered, events, s.minted) ==>
            (Due(Run(delivered, events), s.minted, later) <==>
               Instant(following.value.value) <= later && OpenTask(s.tasks, s.reminders[id].task)))
  {
    var delivered := MarkWith(s, id, token, following, now).value;
    MarkKeeps(s, id, token, following, now);
    DeliveredIsDueAtTheNext(s, id, token, following, now, later);
    if AllLeave(delivered, events, id) {
      UntouchedKeepsItsTime(delivered, events, id, later);
    }
    if following.value.Some? && AllLeave(delivered, events, s.minted) {
      UntouchedKeepsItsTime(delivered, events, s.minted, later);
    }
  }

  /** The reminder that an upsert moves or creates fires at its moment. */
  lemma UpsertedFiresOnTime(s: Rows, user: Id, task: Id, latest: Option<Id>, at: Moment, rule: Option<Rule>, now: int,
      events: seq<Timed>, later: int)
    requires Inv(s) && IsLatest(s, user, task, latest) && Owned(s, UpsertEvent(user, task, latest, at, rule))
    requires Upsert(s, user, task, latest, at, rule, now).Returned?
    requires var upserted := Upsert(s, user, task, latest, at, rule, now).value;
      AllOwned(upserted, events) && AllLeave(upserted, events, if latest.Some? then latest.value else s.minted)
    ensures var after := Run(Upsert(s, user, task, latest, at, rule, now).value, events);
      var row := if latest.Some? then latest.value else s.minted;
      Due(after, row, later) <==> Instant(at) <= later && OpenTask(s.tasks, Some(task))
  {
    UpsertKeeps(s, user, task, latest, at, rule, now);
    UpsertedIsDueOnTime(s, user, task, latest, at, rule, now, later);
    UntouchedKeepsItsTime(Upsert(s, user, task, latest, at, rule, now).value, events,
                          if latest.Some? then latest.value else s.minted, later);
  }

  /** A retried reminder fires at once, or at its own moment. */
  lemma RetriedFiresNow(s: Rows, id: Id, user: Id, now: int, events: seq<Timed>, later: int)
    requires Inv(s) && Retry(s, id, user, now) != s
    requires AllOwned(Retry(s, id, user, now), events) && AllLeave(Retry(s, id, user, now), events, id)
    ensures Due(Run(Retry(s, id, user, now), events), id, later) <==>
      now <= later && Instant(s.reminders[id].remindAt) <= later
  {
    RetryKeeps(s, id, user, now);
    RetriedIsDueNow(s, id, user, now, later);
    UntouchedKeepsItsTime(Retry(s, id, user, now), events, id, later);
  }

  /** A claimed reminder whose worker died fires again exactly when the lease has
      run out. */
  lemma AbandonedClaimFiresAgain(s: Rows, id: Id, now: int, events: seq<Timed>, later: int)
    requires Inv(s) && Due(s, id, now) && now <= later
    requires AllOwned(Claim(s, id, now), events) && AllLeave(Claim(s, id, now), events, id)
    ensures Due(Run(Claim(s, id, now), events), id, later) <==> now + 300 <= later
  {
    ClaimKeeps(s, id, now);
    ClaimedIsDueAfterItsLease(s, id, now, later);
    UntouchedKeepsItsTime(Claim(s, id, now), events, id, later);
  }

  /** A claimed row that is left alone is the worker's exactly until its lease has
      run out. */
  lemma FreshClaimIsActive(s: Rows, id: Id, now: int, events: seq<Timed>, later: int)
    requires Inv(s) && Due(s, id, now)
    requires AllOwned(Claim(s, id, now), events) && AllLeave(Claim(s, id, now), events, id)
    ensures ClaimIsActive(Run(Claim(s, id, now), events), id, s.minted, later) <==> later < now + 300
  {
    ClaimKeeps(s, id, now);
    UntouchedKeepsItsTime(Claim(s, id, now), events, id, later);
  }
}
