/** What the events of Lifecycle promise over whole runs: fenced claims, live
    tasks only, and series that neither fork nor die. */
module LifecycleProofs {
  import opened Outcomes
  import opened Calendar
  import opened Recurrence
  import opened Reminders
  import opened Tasks
  import opened Lifecycle

  // Claims.

  /** A claim that passes its check belongs to no task or to an open one. */
  lemma ActiveClaimMeansLiveTask(s: Rows, events: seq<Timed>, id: Id, token: Id, now: int)
    requires AllOwned(s, events) && Inv(s) && ClaimIsActive(Run(s, events), id, token, now)
    ensures OpenTask(Run(s, events).tasks, Run(s, events).reminders[id].task)
  {
    RunKeepsInv(s, events);
  }

  /** While a claim is active nobody else can claim its row. */
  lemma ActiveClaimIsExclusive(s: Rows, id: Id, token: Id, now: int)
    requires ClaimIsActive(s, id, token, now)
    ensures Claim(s, id, now) == s
    ensures forall other :: ClaimIsActive(s, id, other, now) ==> other == token
  {
    assert !RowDue(s.reminders[id], s.tasks, now);
  }

  /** A token that was handed out and is not on the row any more. */
  predicate Gone(s: Rows, id: Id, token: Id) {
    token < s.minted && (id in s.reminders ==> !Holds(s.reminders[id], token))
  }

  /** A new lease only comes with a new token, and no row is ever dropped. */
  predicate Follows(s: Rows, after: Rows) {
    && s.minted <= after.minted
    && (forall id | id in s.reminders :: id in after.reminders)
    && (forall id | id in after.reminders && after.reminders[id].lease.Some? ::
          after.reminders[id].lease.value.token >= s.minted
          || (id in s.reminders && s.reminders[id].lease == after.reminders[id].lease))
    && (forall id | id in s.reminders ::
          after.reminders[id] == s.reminders[id] || after.reminders[id].lease.None? || after.reminders[id].status.Resolved?
          || after.reminders[id].lease.value.token >= s.minted)
  }

  lemma FollowsTwice(s: Rows, mid: Rows, after: Rows)
    requires Follows(s, mid) && Follows(mid, after)
    ensures Follows(s, after)
  {
    forall id | id in after.reminders && after.reminders[id].lease.Some?
      ensures after.reminders[id].lease.value.token >= s.minted
           || (id in s.reminders && s.reminders[id].lease == after.reminders[id].lease)
    {
      if after.reminders[id].lease.value.token < mid.minted {
        assert mid.reminders[id].lease == after.reminders[id].lease;
      }
    }
  }

  lemma CompletionFollows(s: Rows, id: Id, user: Id, following: Outcome<Option<Moment>>, now: Moment)
    ensures Follows(s, AfterCompletion(s, CompleteWith(s, id, user, following, now)))
  {
  }

  lemma SyncFollows(s: Rows, id: Id, u: Updates, latest: Option<Id>, now: int)
    requires id in s.tasks && IsLatest(s, s.tasks[id].user, id, latest)
    ensures Follows(s, Settle(s, SyncAlarm(s, id, u, latest, now)))
  {
  }

  lemma RetargetFollows(s: Rows, id: Id, user: Id, t: Task, target: Target, now: Moment)
    requires id in s.tasks && id < s.minted && t.user == user
    ensures Follows(s, Settle(s, Retarget(s, id, user, t, target, now)))
  {
    if target.ToDone? {
      CompletionFollows(s.(tasks := s.tasks[id := t]), id, user, NextAnchor(t, now), now);
    }
  }

  lemma UpdateFollows(s: Rows, id: Id, user: Id, expected: Option<TaskStatus>, target: Target, u: Updates,
      latest: Option<Id>, now: Moment)
    requires IsLatest(s, user, id, latest) && (id in s.tasks ==> id < s.minted)
    ensures Follows(s, Settle(s, Update(s, id, user, expected, target, u, latest, now)))
  {
    if Reaches(s, id, user, expected) && Acceptable(u) {
      var t := Edited(s.tasks[id], u);
      RetargetFollows(s, id, user, t, target, now);
      var r := Retarget(s, id, user, t, target, now);
      if r.Returned? && r.value.tasks[id].status.Open? {
        SyncFollows(r.value, id, u, latest, Instant(now));
        FollowsTwice(s, r.value, Settle(r.value, SyncAlarm(r.value, id, u, latest, Instant(now))));
      }
    }
  }

  lemma MarkFollows(s: Rows, id: Id, token: Option<Id>, following: Outcome<Option<Moment>>, now: int)
    ensures Follows(s, Settle(s, MarkWith(s, id, token, following, now)))
  {
  }

  lemma RowEventFollows(s: Rows, t: Timed)
    requires !t.event.CompleteEvent? && !t.event.UpdateEvent? && !t.event.MarkEvent? && !t.event.UpsertEvent?
    ensures Follows(s, Step(s, t))
  {
  }

  lemma UpsertFollows(s: Rows, user: Id, task: Id, latest: Option<Id>, at: Moment, rule: Option<Rule>, now: int)
    requires IsLatest(s, user, task, latest)
    ensures Follows(s, Settle(s, Upsert(s, user, task, latest, at, rule, now)))
  {
  }

  lemma StepFollows(s: Rows, t: Timed)
    ensures Follows(s, Step(s, t))
  {
    if Selects(s, t.event) {
      match t.event
      case CompleteEvent(task, user) =>
        CompletionFollows(s, task, user, NextAnchorOf(s, task, t.now), t.now);
      case UpdateEvent(task, user, expected, target, updates, latest) =>
        UpdateFollows(s, task, user, expected, target, updates, latest, t.now);
      case MarkEvent(id, token) =>
        MarkFollows(s, id, token, FollowingOf(s, id, Instant(t.now)), Instant(t.now));
      case UpsertEvent(user, task, latest, at, rule) => UpsertFollows(s, user, task, latest, at, rule, Instant(t.now));
      case _ => RowEventFollows(s, t);
    }
  }

  /** Once it left the row a token never comes back. */
  lemma {:induction false} GoneForGood(s: Rows, events: seq<Timed>, id: Id, token: Id)
    requires Gone(s, id, token)
    ensures Gone(Run(s, events), id, token)
    decreases |events|
  {
    if events != [] {
      StepFollows(s, events[0]);
      GoneForGood(Step(s, events[0]), events[1..], id, token);
    }
  }

  /** So a worker whose claim was replaced or cleared fails its check, and what
      it records changes nothing, however much later it comes back. */
  lemma StaleWorkerIsFenced(s: Rows, events: seq<Timed>, id: Id, token: Id, now: int, terminal: bool, retryAfter: nat)
    requires Gone(s, id, token)
    ensures var later := Run(s, events);
      && !ClaimIsActive(later, id, token, now)
      && MarkSent(later, id, Some(token), now) == Returned(later)
      && Fail(later, id, terminal, Some(token), retryAfter, now) == later
  {
    GoneForGood(s, events, id, token);
  }

  /** Any change of a claimed row takes its token off or leaves it resolved, so
      the claim can pass no check any more. */
  lemma ChangeEndsTheClaim(s: Rows, after: Rows, id: Id, token: Id, now: int)
    requires Inv(s) && Inv(after) && Follows(s, after)
    requires id in s.reminders && Holds(s.reminders[id], token) && after.reminders[id] != s.reminders[id]
    ensures !ClaimIsActive(after, id, token, now)
  {
    assert RowOk(s.tasks, s.minted, s.reminders[id]);
  }
}
