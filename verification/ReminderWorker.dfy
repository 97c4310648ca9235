/** `_deliver_claim` of bot/scheduler/reminders.py: check, send and record, with
    any other transactions in between and a crash possible after each. */
module ReminderWorker {
  import opened Common
  import opened Outcomes
  import opened Calendar
  import opened Recurrence
  import opened Reminders
  import opened Lifecycle
  import opened LifecycleProofs
  import opened SeriesProofs
  import opened PlannerRows

  /** What every session finds and leaves. */
  predicate Sound(s: Rows) {
    Inv(s) && Single(s) && Dated(s)
  }

  lemma {:induction false} RunFollows(s: Rows, events: seq<Timed>)
    ensures Follows(s, Run(s, events))
    decreases |events|
  {
    if events != [] {
      StepFollows(s, events[0]);
      RunFollows(Step(s, events[0]), events[1..]);
      FollowsTwice(s, Step(s, events[0]), Run(s, events));
    }
  }

  /** Other sessions run: any events as the program makes them. */
  method Interfere(rows: Planner)
    requires Sound(rows.Contents())
    modifies rows
    ensures Sound(rows.Contents()) && Follows(old(rows.Contents()), rows.Contents())
  {
    var events: seq<Timed> := *;
    var after := Run(rows.Contents(), events);
    if AllOwned(rows.Contents(), events) && AllAsCalled(events) && Dated(after) {
      RunKeepsInv(rows.Contents(), events);
      SeriesNeverFork(rows.Contents(), events);
      RunFollows(rows.Contents(), events);
      rows.Rollback(after);
    }
  }

  /** The claim can pass no check any more. */
  predicate Over(s: Rows, claim: ReminderClaim) {
    claim.id in s.reminders ==> !Holds(s.reminders[claim.id], claim.token) || !Waiting(s.reminders[claim.id].status)
  }

  /** A stride that keeps to real dates catches up at a real date. */
  lemma {:induction false} StrideStaysDated(f: Stride, a: Moment, now: int, steps: nat)
    requires ValidMoment(a) && forall m: Moment :: ValidMoment(m) && f(m).Some? ==> ValidMoment(f(m).value)
    ensures var r := CatchUp(f, a, now, steps);
      r.Returned? && r.value.Some? ==> ValidMoment(r.value.value)
    decreases steps
  {
    if steps > 0 && f(a).Some? {
      StrideStaysDated(f, f(a).value, now, steps - 1);
    }
  }

  lemma CaughtUpIsDated(a: Moment, rule: Rule, now: int)
    requires ValidMoment(a)
    ensures var r := CatchUp(By(rule), a, now, LOOP_BOUND);
      r.Returned? && r.value.Some? ==> ValidMoment(r.value.value)
  {
    forall m: Moment | ValidMoment(m) && By(rule)(m).Some? ensures ValidMoment(By(rule)(m).value) {
      NextIsValid(m, rule);
    }
    StrideStaysDated(By(rule), a, now, LOOP_BOUND);
  }

  lemma MarkStaysDated(s: Rows, id: Id, token: Option<Id>, now: int)
    requires Dated(s)
    ensures Dated(Settle(s, Reminders.MarkSent(s, id, token, now)))
  {
    if id in s.reminders && s.reminders[id].rule.Some? {
      CaughtUpIsDated(s.reminders[id].remindAt, s.reminders[id].rule.value, now);
      MarkWithStaysDated(s, id, token, Following(s.reminders[id], now), now);
    }
  }

  lemma MarkWithStaysDated(s: Rows, id: Id, token: Option<Id>, following: Outcome<Option<Moment>>, now: int)
    requires Dated(s) && (following.Returned? && following.value.Some? ==> ValidMoment(following.value.value))
    ensures Dated(Settle(s, MarkWith(s, id, token, following, now)))
  {
  }

  lemma MarkIsSound(s: Rows, claim: ReminderClaim, now: int)
    requires Sound(s)
    ensures var r := Reminders.MarkSent(s, claim.id, Some(claim.token), now);
      Sound(Settle(s, r)) && Follows(s, Settle(s, r)) && (r.Returned? ==> Over(r.value, claim))
  {
    var following := FollowingOf(s, claim.id, now);
    MarkStaysDated(s, claim.id, Some(claim.token), now);
    MarkKeeps(s, claim.id, Some(claim.token), following, now);
    MarkKeepsSingle(s, claim.id, Some(claim.token), following, now);
    MarkFollows(s, claim.id, Some(claim.token), following, now);
    MarkEndsClaim(s, claim, following, now);
  }

  lemma MarkEndsClaim(s: Rows, claim: ReminderClaim, following: Outcome<Option<Moment>>, now: int)
    requires Inv(s)
    ensures var r := MarkWith(s, claim.id, Some(claim.token), following, now);
      r.Returned? ==> Over(r.value, claim)
  {
    if claim.id in s.reminders {
      assert RowOk(s.tasks, s.minted, s.reminders[claim.id]);
    }
  }

  lemma FailIsSound(s: Rows, claim: ReminderClaim, terminal: bool, retryAfter: nat, now: int)
    requires Sound(s)
    ensures var after := Fail(s, claim.id, terminal, Some(claim.token), retryAfter, now);
      Sound(after) && Follows(s, after) && Over(after, claim)
  {
    FailKeeps(s, claim.id, terminal, Some(claim.token), retryAfter, now);
    FailSingleExactly(s, claim.id, terminal, Some(claim.token), retryAfter, now);
  }

  // What the environment decides, and what a recording does.

  /** The exceptions a delivery may meet; a flood error names a wait. */
  datatype Error = Permanent | Flood(seconds: nat) | Other

  /** How Telegram's answer to a send ends; the message may have arrived anyway. */
  datatype Answer = Accepted | Refused(error: Error, arrived: bool) | Killed(arrived: bool)

  /** Everything outside the rows that one delivery meets, with the times of its
      transactions: the check, the recorded delivery and the recorded failure. */
  datatype Environment = Environment(
    look: Fate, lookAt: int, answer: Answer,
    mark: WriteFate, markAt: int, count: WriteFate, countAt: int)

  /** How delivering one claim ends: its check fails, the delivery or a failure is
      recorded, the failure could not be recorded, or the process dies. */
  datatype Delivery = Skipped | Marked | Counted | Unrecorded | Crashed

  /** The claim still holds its unsent row. */
  predicate Current(s: Rows, claim: ReminderClaim) {
    claim.id in s.reminders && Holds(s.reminders[claim.id], claim.token) && !s.reminders[claim.id].isSent
  }

  predicate OthersKept(before: Rows, after: Rows, id: Id) {
    && after.tasks == before.tasks
    && forall other | other in before.reminders && other != id ::
         other in after.reminders && after.reminders[other] == before.reminders[other]
  }

  /** The row counts as delivered, and its series goes on at the occurrence that
      follows, if there is one. A claim that lost its row changes nothing. */
  predicate DeliveredAs(before: Rows, after: Rows, claim: ReminderClaim, at: int) {
    if !Current(before, claim) then after == before
    else
      var row, following := before.reminders[claim.id], Following(before.reminders[claim.id], at);
      && following.Returned?
      && OthersKept(before, after, claim.id)
      && claim.id in after.reminders
      && after.reminders[claim.id] == row.(isSent := true, status := Delivered, lease := None, nextAttempt := None)
      && (following.value.None? ==> after.reminders.Keys == before.reminders.Keys)
      && (following.value.Some? ==>
            && after.reminders.Keys == before.reminders.Keys + {before.minted}
            && var next := after.reminders[before.minted];
               && next.remindAt == next.occurrence == following.value.value
               && next.user == row.user && next.task == row.task && next.series == row.series && next.rule == row.rule
               && next.status.Pending? && !next.isSent && next.lease.None? && next.attempts == 0)
  }

  /** The row has one failure more: it is given up after a permanent error or the
      fifth failure, and waits at least the doubling delay otherwise. */
  predicate CountedAs(before: Rows, after: Rows, claim: ReminderClaim, error: Error, at: int) {
    if !Current(before, claim) then after == before
    else
      var row := before.reminders[claim.id];
      var attempts := row.attempts + 1;
      var seconds := if error.Flood? && error.seconds > Doubling(attempts) then error.seconds else Doubling(attempts);
      && OthersKept(before, after, claim.id) && after.reminders.Keys == before.reminders.Keys
      && after.reminders[claim.id] == row.(attempts := attempts, lease := None, nextAttempt := Some(at + seconds),
           status := if error.Permanent? || attempts >= 5 then Failed else row.status)
  }

  /** A new occurrence can be stored, or none has to be. */
  predicate MarkReturns(before: Rows, claim: ReminderClaim, at: int) {
    Current(before, claim) ==>
      var row, following := before.reminders[claim.id], Following(before.reminders[claim.id], at);
      following.Returned? && (following.value.Some? ==>
        !Taken(before.reminders, before.minted, row.series, following.value.value))
  }

  lemma MarkDelivers(s: Rows, claim: ReminderClaim, at: int)
    requires Sound(s)
    ensures var r := Reminders.MarkSent(s, claim.id, Some(claim.token), at);
      (r.Returned? <==> MarkReturns(s, claim, at)) && (r.Returned? ==> DeliveredAs(s, r.value, claim, at))
  {
    if claim.id in s.reminders {
      assert RowOk(s.tasks, s.minted, s.reminders[claim.id]);
    }
    assert s.minted !in s.reminders;
  }

  lemma FailCounts(s: Rows, claim: ReminderClaim, error: Error, at: int)
    requires Sound(s)
    ensures CountedAs(s, Fail(s, claim.id, error.Permanent?, Some(claim.token), RetryAfter(error), at), claim, error, at)
  {
  }

  function RetryAfter(error: Error): nat {
    if error.Flood? then error.seconds else 0
  }

  lemma FollowsItself(s: Rows)
    ensures Follows(s, s)
  {
  }

  /** The delivery transaction; its commit may raise or die, durable or not. */
  method RecordSent(rows: Planner, claim: ReminderClaim, fate: WriteFate, now: int)
    returns (outcome: Outcome<()>, ghost before: Rows)
    requires Sound(rows.Contents())
    modifies rows
    ensures Sound(rows.Contents()) && Sound(before)
    ensures Follows(old(rows.Contents()), before) && Follows(before, rows.Contents())
    ensures outcome == if fate.Durable() && !MarkReturns(before, claim, now) then Raised else fate.Result()
    ensures if fate.Durable() && MarkReturns(before, claim, now) then DeliveredAs(before, rows.Contents(), claim, now)
            else rows.Contents() == before
    ensures outcome.Returned? ==> Over(rows.Contents(), claim)
  {
    Interfere(rows);
    before := rows.Contents();
    if !fate.Durable() { return fate.Result(), before; }
    MarkIsSound(before, claim, now);
    MarkDelivers(before, claim, now);
    outcome := rows.MarkSent(claim.id, Some(claim.token), now);
    if outcome.Returned? { outcome := fate.Result(); }
  }

  /** The failure transaction, likewise. */
  method RecordFailure(rows: Planner, claim: ReminderClaim, error: Error, fate: WriteFate, now: int)
    returns (result: Delivery, ghost before: Rows)
    requires Sound(rows.Contents())
    modifies rows
    ensures Sound(rows.Contents()) && Sound(before)
    ensures Follows(old(rows.Contents()), before) && Follows(before, rows.Contents())
    ensures result == match fate.Result() case Returned(_) => Counted case Raised => Unrecorded case Died => Crashed
    ensures if fate.Durable() then CountedAs(before, rows.Contents(), claim, error, now) else rows.Contents() == before
    ensures result.Counted? ==> Over(rows.Contents(), claim)
  {
    Interfere(rows);
    before := rows.Contents();
    if fate.Durable() {
      FailIsSound(before, claim, error.Permanent?, RetryAfter(error), now);
      FailCounts(before, claim, error, now);
      rows.RecordDeliveryFailure(claim.id, error.Permanent?, Some(claim.token), RetryAfter(error), now);
    }
    return (match fate.Result() case Returned(_) => Counted case Raised => Unrecorded case Died => Crashed), before;
  }

  // The delivery of one claim.

  /** The claim was found active, so that a message was sent. */
  predicate Asks(env: Environment, claim: ReminderClaim, checked: Rows) {
    env.look.Fine? && ClaimIsActive(checked, claim.id, claim.token, env.lookAt)
  }

  /** The exception that is recorded as a failure, if there is one. */
  function Exception(env: Environment, claim: ReminderClaim, checked: Rows, marking: Rows): Option<Error> {
    if env.look.Fails? then Some(Other)
    else if !Asks(env, claim, checked) || env.answer.Killed? then None
    else if env.answer.Refused? then Some(env.answer.error)
    else if MarkRaises(env, claim, marking) then Some(Other)
    else None
  }

  predicate MarkRaises(env: Environment, claim: ReminderClaim, marking: Rows) {
    env.mark.Result().Raised? || (env.mark.Durable() && !MarkReturns(marking, claim, env.markAt))
  }

  /** The send and its record; an exception of either is `error`. */
  method SendAndRecord(rows: Planner, claim: ReminderClaim, env: Environment)
    returns (sends: nat, ended: Outcome<()>, error: Error, ghost marking: Rows)
    requires Sound(rows.Contents())
    modifies rows
    ensures Sound(rows.Contents()) && Follows(old(rows.Contents()), marking) && Follows(marking, rows.Contents())
    ensures sends == if env.answer.Accepted? || env.answer.arrived then 1 else 0
    ensures ended.Returned? <==>
      env.answer.Accepted? && env.mark.Written? && MarkReturns(marking, claim, env.markAt)
    ensures ended.Raised? <==>
      env.answer.Refused? || (env.answer.Accepted? && MarkRaises(env, claim, marking))
    ensures error == if env.answer.Refused? then env.answer.error else Other
    ensures ended.Returned? ==> DeliveredAs(marking, rows.Contents(), claim, env.markAt) && Over(rows.Contents(), claim)
  {
    marking := rows.Contents();
    FollowsItself(marking);
    match env.answer
    case Killed(arrived) => return (if arrived then 1 else 0), Died, Other, marking;
    case Refused(refusal, arrived) => return (if arrived then 1 else 0), Raised, refusal, marking;
    case Accepted =>
      sends, error := 1, Other;
      ended, marking := RecordSent(rows, claim, env.mark, env.markAt);
  }

  /** The part of `_deliver_claim` whose exceptions are handled: the check, the
      send and the record. True means that the delivery was recorded. */
  method TryDelivery(rows: Planner, claim: ReminderClaim, env: Environment)
    returns (sends: nat, ended: Outcome<bool>, error: Error, ghost checked: Rows, ghost marking: Rows)
    requires Sound(rows.Contents())
    modifies rows
    ensures Sound(rows.Contents())
    ensures Follows(old(rows.Contents()), checked) && Follows(checked, marking) && Follows(marking, rows.Contents())
    ensures sends == if Asks(env, claim, checked) && (env.answer.Accepted? || env.answer.arrived) then 1 else 0
    ensures Asks(env, claim, checked) ==>
      Waiting(checked.reminders[claim.id].status) && OpenTask(checked.tasks, checked.reminders[claim.id].task)
    ensures Gone(old(rows.Contents()), claim.id, claim.token) ==> !Asks(env, claim, checked)
    ensures ended == Returned(false) ==> rows.Contents() == checked
    ensures ended == Returned(false) <==> env.look.Fine? && !Asks(env, claim, checked)
    ensures ended == Returned(true) <==>
      Asks(env, claim, checked) && env.answer.Accepted? && env.mark.Written? && MarkReturns(marking, claim, env.markAt)
    ensures ended.Raised? <==> Exception(env, claim, checked, marking).Some?
    ensures ended.Raised? ==> error == Exception(env, claim, checked, marking).value
    ensures ended == Returned(true) ==>
      DeliveredAs(marking, rows.Contents(), claim, env.markAt) && Over(rows.Contents(), claim)
  {
    Interfere(rows);
    checked := rows.Contents();
    marking := checked;
    FollowsItself(checked);
    if !env.look.Fine? { return 0, (if env.look.Fails? then Raised else Died), Other, checked, marking; }
    if !ClaimIsActive(rows.Contents(), claim.id, claim.token, env.lookAt) {
      return 0, Returned(false), Other, checked, marking;
    }
    assert RowOk(rows.tasks, rows.minted, rows.reminders[claim.id]);
    var recorded;
    sends, recorded, error, marking := SendAndRecord(rows, claim, env);
    ended := match recorded case Returned(_) => Returned(true) case Raised => Raised case Died => Died;
  }

  /** `_deliver_claim`. `checked`, `marking` and `counting` are the rows that its
      transactions found, with any other transactions before each. At most one
      message is sent, exactly after a check that found the claim active, so of a
      task that was open then. A sent message whose recording returns counts as
      delivered; a failure is counted exactly for an exception, of the check, the
      send or the recording. */
  method DeliverClaim(rows: Planner, claim: ReminderClaim, env: Environment)
    returns (sends: nat, result: Delivery, ghost checked: Rows, ghost marking: Rows, ghost counting: Rows)
    requires Sound(rows.Contents())
    modifies rows
    ensures Sound(rows.Contents()) && Follows(old(rows.Contents()), checked)
    ensures Follows(checked, marking) && Follows(marking, counting) && Follows(counting, rows.Contents())
    ensures sends == if Asks(env, claim, checked) && (env.answer.Accepted? || env.answer.arrived) then 1 else 0
    ensures Asks(env, claim, checked) ==>
      Waiting(checked.reminders[claim.id].status) && OpenTask(checked.tasks, checked.reminders[claim.id].task)
    ensures result.Skipped? <==> env.look.Fine? && !Asks(env, claim, checked)
    ensures result.Marked? <==>
      Asks(env, claim, checked) && env.answer.Accepted? && env.mark.Written? && MarkReturns(marking, claim, env.markAt)
    ensures result.Counted? <==> Exception(env, claim, checked, marking).Some? && env.count.Written?
    ensures result.Unrecorded? <==> Exception(env, claim, checked, marking).Some? && env.count.Result().Raised?
    ensures result.Marked? ==> DeliveredAs(marking, rows.Contents(), claim, env.markAt)
    ensures result.Counted? ==>
      CountedAs(counting, rows.Contents(), claim, Exception(env, claim, checked, marking).value, env.countAt)
    ensures result.Marked? || result.Counted? ==> Over(rows.Contents(), claim)
    ensures result.Skipped? ==> rows.Contents() == checked
    ensures Gone(old(rows.Contents()), claim.id, claim.token) ==> !Asks(env, claim, checked)
  {
    var ended, error;
    sends, ended, error, checked, marking := TryDelivery(rows, claim, env);
    counting := rows.Contents();
    if ended.Raised? {
      ghost var raised := rows.Contents();
      result, counting := RecordFailure(rows, claim, error, env.count, env.countAt);
      FollowsTwice(marking, raised, counting);
    } else {
      FollowsItself(counting);
      result := if ended.Died? then Crashed else if ended.value then Marked else Skipped;
    }
  }
}
