/** What becomes of a recurring series: how long it lives, how it ends, and which
    moments it fires at. */
module SeriesFate {
  import opened Outcomes
  import opened Calendar
  import opened Recurrence
  import opened Reminders
  import opened Tasks
  import opened Lifecycle
  import opened SeriesProofs
  import opened SuccessorProofs

  // Where carrying rows come from.

  /** Every row that carries the series did so before, at the same moment and with
      the same rule. */
  predicate SameCarriers(s: Rows, after: Rows, series: Id) {
    forall id | id in after.reminders && Carries(after.reminders[id], series) ::
      && id in s.reminders && Carries(s.reminders[id], series)
      && after.reminders[id].rule == s.reminders[id].rule && after.reminders[id].remindAt == s.reminders[id].remindAt
  }

  lemma SameCarriersTwice(s: Rows, mid: Rows, after: Rows, series: Id)
    requires SameCarriers(s, mid, series) && SameCarriers(mid, after, series)
    ensures SameCarriers(s, after, series)
  {
  }

  lemma CompletionKeepsCarriers(s: Rows, task: Id, user: Id, following: Outcome<Option<Moment>>, now: Moment, series: Id)
    requires series < s.minted
    ensures SameCarriers(s, AfterCompletion(s, CompleteWith(s, task, user, following, now)), series)
  {
  }

  lemma UpsertKeepsCarriers(s: Rows, user: Id, task: Id, latest: Option<Id>, at: Moment, now: int, series: Id)
    requires series < s.minted && IsLatest(s, user, task, latest)
    ensures SameCarriers(s, Settle(s, Upsert(s, user, task, latest, at, None, now)), series)
  {
  }

  lemma RetargetKeepsCarriers(s: Rows, task: Id, user: Id, t: Task, target: Target, now: Moment, series: Id)
    requires series < s.minted && task in s.tasks && task < s.minted && t.user == user
    ensures SameCarriers(s, Settle(s, Retarget(s, task, user, t, target, now)), series)
  {
    if target.ToDone? {
      CompletionKeepsCarriers(s.(tasks := s.tasks[task := t]), task, user, NextAnchor(t, now), now, series);
    }
  }

  lemma SyncKeepsCarriers(s: Rows, task: Id, u: Updates, latest: Option<Id>, now: int, series: Id)
    requires series < s.minted && task in s.tasks && IsLatest(s, s.tasks[task].user, task, latest)
    ensures SameCarriers(s, Settle(s, SyncAlarm(s, task, u, latest, now)), series)
  {
    var t := s.tasks[task];
    if MovesAlarm(t, u) && t.due.Some? && t.dueMinutes.Some? {
      var at := Earlier(Moment(t.due.value, 60 * t.dueMinutes.value), 60 * t.remindBefore.value);
      UpsertKeepsCarriers(s.(tasks := s.tasks[task := t.(remindAt := Some(at))]), t.user, task, latest, at, now, series);
    }
  }

  lemma UpdateKeepsCarriers(s: Rows, task: Id, user: Id, expected: Option<TaskStatus>, target: Target, u: Updates,
      latest: Option<Id>, now: Moment, series: Id)
    requires series < s.minted && IsLatest(s, user, task, latest) && (task in s.tasks ==> task < s.minted)
    ensures SameCarriers(s, Settle(s, Update(s, task, user, expected, target, u, latest, now)), series)
  {
    if Reaches(s, task, user, expected) && Acceptable(u) {
      var t := Edited(s.tasks[task], u);
      RetargetKeepsCarriers(s, task, user, t, target, now, series);
      RetargetMints(s, task, user, t, target, now);
      var r := Retarget(s, task, user, t, target, now);
      if r.Returned? && r.value.tasks[task].status.Open? {
        SyncKeepsCarriers(r.value, task, u, latest, Instant(now), series);
        SameCarriersTwice(s, r.value, Settle(r.value, SyncAlarm(r.value, task, u, latest, Instant(now))), series);
      }
    }
  }

  lemma RetargetMints(s: Rows, task: Id, user: Id, t: Task, target: Target, now: Moment)
    requires task in s.tasks && task < s.minted && t.user == user
    ensures Settle(s, Retarget(s, task, user, t, target, now)).minted >= s.minted
  {
  }

  /** A snooze of the row that carries the series. */
  predicate Moves(s: Rows, e: Event, series: Id) {
    e.SnoozeEvent? && e.id in s.reminders && Carries(s.reminders[e.id], series)
  }

  lemma RowEventKeepsCarriers(s: Rows, t: Timed, series: Id)
    requires Inv(s) && series < s.minted && AsCalled(t.event) && !Moves(s, t.event, series)
    requires !t.event.MarkEvent? && !t.event.UpsertEvent? && !t.event.CompleteEvent? && !t.event.UpdateEvent?
    ensures SameCarriers(s, Step(s, t), series)
  {
    if t.event.RetryEvent? && t.event.id in s.reminders {
      assert RowOk(s.tasks, s.minted, s.reminders[t.event.id]);
    }
  }

  /** Apart from a delivery and a snooze of the carrying row itself, no call as the
      program makes it adds or moves a carrying row. */
  lemma StepKeepsCarriers(s: Rows, t: Timed, series: Id)
    requires Inv(s) && series < s.minted && AsCalled(t.event) && !Moves(s, t.event, series) && !t.event.MarkEvent?
    ensures SameCarriers(s, Step(s, t), series)
  {
    if Selects(s, t.event) {
      match t.event
      case UpsertEvent(user, task, latest, at, _) => UpsertKeepsCarriers(s, user, task, latest, at, Instant(t.now), series);
      case CompleteEvent(task, user) =>
        CompletionKeepsCarriers(s, task, user, NextAnchorOf(s, task, t.now), t.now, series);
      case UpdateEvent(task, user, expected, target, u, latest) =>
        UpdateKeepsCarriers(s, task, user, expected, target, u, latest, t.now, series);
      case _ => RowEventKeepsCarriers(s, t, series);
    }
  }

  // How a series ends.

  /** A series that exists and that no row carries on. */
  predicate Ended(s: Rows, series: Id) {
    series < s.minted && forall id | id in s.reminders :: !Carries(s.reminders[id], series)
  }

  lemma MarkKeepsEnded(s: Rows, id: Id, token: Option<Id>, following: Outcome<Option<Moment>>, now: int, series: Id)
    requires Ended(s, series)
    requires id in s.reminders && s.reminders[id].rule.None? ==> following == Returned(None)
    ensures Ended(Settle(s, MarkWith(s, id, token, following, now)), series)
  {
  }

  lemma StepKeepsEnded(s: Rows, t: Timed, series: Id)
    requires Inv(s) && Ended(s, series) && AsCalled(t.event)
    ensures Ended(Step(s, t), series)
  {
    match t.event
    case MarkEvent(id, token) => MarkKeepsEnded(s, id, token, FollowingOf(s, id, Instant(t.now)), Instant(t.now), series);
    case _ =>
      StepKeepsCarriers(s, t, series);
      StepMints(s, t);
  }

  lemma StepMints(s: Rows, t: Timed)
    requires Inv(s)
    ensures Step(s, t).minted >= s.minted
  {
    if t.event.UpdateEvent? && Selects(s, t.event) && Reaches(s, t.event.task, t.event.user, t.event.expected) {
      if Acceptable(t.event.updates) {
        var edited := Edited(s.tasks[t.event.task], t.event.updates);
        RetargetMints(s, t.event.task, t.event.user, edited, t.event.target, t.now);
      }
    }
  }

  /** Over every run of calls as the program makes them an ended series stays ended. */
  lemma {:induction false} EndedForGood(s: Rows, events: seq<Timed>, series: Id)
    requires Inv(s) && Ended(s, series) && AllOwned(s, events) && AllAsCalled(events)
    ensures Ended(Run(s, events), series)
    decreases |events|
  {
    if events != [] {
      assert AsCalled(events[0].event);
      StepKeepsInv(s, events[0]);
      StepKeepsEnded(s, events[0], series);
      EndedForGood(Step(s, events[0]), events[1..], series);
    }
  }

  lemma ResolvedSeriesHasEnded(s: Rows, id: Id, user: Id, series: Id)
    requires Inv(s) && Single(s) && id in s.reminders && s.reminders[id].user == user && Carries(s.reminders[id], series)
    ensures Ended(Resolve(s, id, user), series)
  {
    assert RowOk(s.tasks, s.minted, s.reminders[id]);
    assert !CarriedElsewhere(s, id, series);
  }

  /** Once its owner resolves the row that carries a series, the series is over,
      whatever is called afterwards. */
  lemma ResolvingEnds(s: Rows, id: Id, user: Id, series: Id, events: seq<Timed>)
    requires Inv(s) && Single(s) && id in s.reminders && s.reminders[id].user == user && Carries(s.reminders[id], series)
    requires AllOwned(Resolve(s, id, user), events) && AllAsCalled(events)
    ensures Ended(Run(Resolve(s, id, user), events), series)
  {
    ResolvedSeriesHasEnded(s, id, user, series);
    ResolveKeeps(s, id, user);
    EndedForGood(Resolve(s, id, user), events, series);
  }

  /** So the series is lost without any crash when a user is quicker than the
      record of the delivery: the claimed row is resolved, the worker then finds it
      sent, records nothing, and no successor ever appears. */
  lemma QuickAnswerLosesTheSeries(s: Rows, id: Id, now: int, later: int, events: seq<Timed>)
    requires Inv(s) && Single(s) && Due(s, id, now) && s.reminders[id].rule.Some?
    requires AllOwned(Resolve(Claim(s, id, now), id, s.reminders[id].user), events) && AllAsCalled(events)
    ensures var claimed := Claim(s, id, now);
      var resolved := Resolve(claimed, id, s.reminders[id].user);
      && id in claimed.reminders && Holds(claimed.reminders[id], s.minted)
      && id in resolved.reminders && Holds(resolved.reminders[id], s.minted)
      && MarkSent(resolved, id, Some(s.minted), later) == Returned(resolved)
      && Ended(Run(resolved, events), s.reminders[id].series)
  {
    ClaimKeeps(s, id, now);
    ClaimKeepsSingle(s, id, now);
    ResolvingEnds(Claim(s, id, now), id, s.reminders[id].user, s.reminders[id].series, events);
  }

  /** Witness: it happens to the first daily reminder of an empty table. */
  lemma FirstReminderIsLost(user: Id, at: Moment, later: int, events: seq<Timed>)
    requires var created := Create(EMPTY, user, None, at, Some(Daily), 0).value;
      AllOwned(Resolve(Claim(created, 0, Instant(at)), 0, user), events) && AllAsCalled(events)
    ensures var created := Create(EMPTY, user, None, at, Some(Daily), 0).value;
      var resolved := Resolve(Claim(created, 0, Instant(at)), 0, user);
      MarkSent(resolved, 0, Some(2), later) == Returned(resolved) && Ended(Run(resolved, events), 1)
  {
    CreateKeeps(EMPTY, user, None, at, Some(Daily), 0);
    CreateKeepsSingle(EMPTY, user, None, at, Some(Daily), 0);
    QuickAnswerLosesTheSeries(Create(EMPTY, user, None, at, Some(Daily), 0).value, 0, Instant(at), later, events);
  }

  // How long it lives.

  /** A reminder of no task with a valid rule that is still to be delivered. */
  predicate GoesOn(s: Rows, id: Id, series: Id, rule: Rule) {
    && id in s.reminders
    && var r := s.reminders[id];
    Carries(r, series) && r.rule == Some(rule) && r.task.None? && ValidDate(r.remindAt.date)
  }

  predicate Alive(s: Rows, series: Id, rule: Rule) {
    exists id | id in s.reminders :: GoesOn(s, id, series, rule)
  }

  /** An event other than a resolution of the row that carries the series, which
      ends it without a successor. */
  predicate Spares(s: Rows, e: Event, series: Id) {
    e.ResolveEvent? && e.id in s.reminders && s.reminders[e.id].user == e.user ==> !Carries(s.reminders[e.id], series)
  }

  predicate AllSpare(s: Rows, events: seq<Timed>, series: Id)
    decreases |events|
  {
    events == [] || (Spares(s, events[0].event, series) && AllSpare(Step(s, events[0]), events[1..], series))
  }

  /** Snoozes name real dates, as their type ensures. */
  predicate RealDate(e: Event) {
    e.SnoozeEvent? ==> ValidDate(e.at.date)
  }

  predicate RealDates(events: seq<Timed>) {
    forall t | t in events :: RealDate(t.event)
  }

  /** A valid rule always yields a date, so a delivery never ends the series. */
  lemma ValidRuleNeverEnds(a: Moment, rule: Rule, now: int, steps: nat)
    requires ValidDate(a.date) && ValidRule(rule)
    ensures CatchUp(By(rule), a, now, steps) != Returned(None)
    ensures CatchUp(By(rule), a, now, steps).Returned? ==> ValidDate(CatchUp(By(rule), a, now, steps).value.value.date)
  {
    var k := CatchUpIsFirst(By(rule), a, now, steps);
    ValidOrbitGrows(a, rule, k);
  }

  lemma MarkKeepsAlive(s: Rows, id: Id, token: Option<Id>, following: Outcome<Option<Moment>>, now: int, h: Id,
      series: Id, rule: Rule)
    requires Inv(s) && GoesOn(s, h, series, rule)
    requires id == h ==> following != Returned(None) && (following.Returned? ==> ValidDate(following.value.value.date))
    ensures Alive(Settle(s, MarkWith(s, id, token, following, now)), series, rule)
  {
    var after := Settle(s, MarkWith(s, id, token, following, now));
    if id != h || after == s {
      assert after.reminders[h] == s.reminders[h];
      assert GoesOn(after, h, series, rule);
    } else {
      assert GoesOn(after, s.minted, series, rule);
    }
  }

  lemma UpdateSparesTaskless(s: Rows, id: Id, user: Id, expected: Option<TaskStatus>, target: Target,
      u: Updates, latest: Option<Id>, now: Moment, h: Id)
    requires Inv(s) && IsLatest(s, user, id, latest) && h in s.reminders && s.reminders[h].task.None?
    ensures var after := Settle(s, Update(s, id, user, expected, target, u, latest, now));
      h in after.reminders && after.reminders[h] == s.reminders[h]
  {
    if Reaches(s, id, user, expected) && Acceptable(u) {
      var t := Edited(s.tasks[id], u);
      RetargetKeeps(s, id, user, t, target, now);
      RetargetSparesTaskless(s, id, user, t, target, now, h);
      var r := Retarget(s, id, user, t, target, now);
      if r.Returned? && r.value.tasks[id].status.Open? {
        SyncSparesTaskless(r.value, id, u, latest, Instant(now), h);
      }
    }
  }

  lemma RetargetSparesTaskless(s: Rows, id: Id, user: Id, t: Task, target: Target, now: Moment, h: Id)
    requires id in s.tasks && id < s.minted && t.user == user && h < s.minted && h in s.reminders && s.reminders[h].task.None?
    ensures var after := Settle(s, Retarget(s, id, user, t, target, now));
      h in after.reminders && after.reminders[h] == s.reminders[h]
  {
    if target.ToDone? {
      CompletionSparesTaskless(s.(tasks := s.tasks[id := t]), id, user, NextAnchor(t, now), now, h);
    }
  }

  lemma SyncSparesTaskless(s: Rows, id: Id, u: Updates, latest: Option<Id>, now: int, h: Id)
    requires id in s.tasks && IsLatest(s, s.tasks[id].user, id, latest)
    requires h < s.minted && h in s.reminders && s.reminders[h].task.None?
    ensures var after := Settle(s, SyncAlarm(s, id, u, latest, now));
      h in after.reminders && after.reminders[h] == s.reminders[h]
  {
  }

  lemma RowEventKeepsAlive(s: Rows, t: Timed, h: Id, series: Id, rule: Rule)
    requires Inv(s) && GoesOn(s, h, series, rule) && Spares(s, t.event, series) && RealDate(t.event)
    requires !t.event.MarkEvent? && !t.event.UpdateEvent? && !t.event.CompleteEvent?
    ensures GoesOn(Step(s, t), h, series, rule)
  {
  }

  lemma SameRowGoesOn(s: Rows, after: Rows, h: Id, series: Id, rule: Rule)
    requires GoesOn(s, h, series, rule) && h in after.reminders && after.reminders[h] == s.reminders[h]
    ensures Alive(after, series, rule)
  {
    assert GoesOn(after, h, series, rule);
  }

  lemma DeliveryKeepsAlive(s: Rows, id: Id, token: Option<Id>, now: int, h: Id, series: Id, rule: Rule)
    requires Inv(s) && GoesOn(s, h, series, rule) && ValidRule(rule)
    ensures Alive(Settle(s, MarkSent(s, id, token, now)), series, rule)
  {
    ValidRuleNeverEnds(s.reminders[h].remindAt, rule, now, LOOP_BOUND);
    MarkKeepsAlive(s, id, token, FollowingOf(s, id, now), now, h, series, rule);
  }

  lemma StepKeepsAlive(s: Rows, t: Timed, h: Id, series: Id, rule: Rule)
    requires Inv(s) && GoesOn(s, h, series, rule) && ValidRule(rule)
    requires Spares(s, t.event, series) && RealDate(t.event)
    ensures Alive(Step(s, t), series, rule)
  {
    match t.event
    case MarkEvent(id, token) => DeliveryKeepsAlive(s, id, token, Instant(t.now), h, series, rule);
    case UpdateEvent(task, user, expected, target, u, latest) =>
      if Selects(s, t.event) {
        UpdateSparesTaskless(s, task, user, expected, target, u, latest, t.now, h);
      }
      SameRowGoesOn(s, Step(s, t), h, series, rule);
    case CompleteEvent(task, user) =>
      CompletionSparesTaskless(s, task, user, NextAnchorOf(s, task, t.now), t.now, h);
      SameRowGoesOn(s, Step(s, t), h, series, rule);
    case _ =>
      RowEventKeepsAlive(s, t, h, series, rule);
      assert GoesOn(Step(s, t), h, series, rule);
  }

  lemma CompletionSparesTaskless(s: Rows, id: Id, user: Id, following: Outcome<Option<Moment>>, now: Moment, h: Id)
    requires h < s.minted && h in s.reminders && s.reminders[h].task.None?
    ensures var after := AfterCompletion(s, CompleteWith(s, id, user, following, now));
      h in after.reminders && after.reminders[h] == s.reminders[h]
  {
  }

  /** A repeating reminder of no task keeps an unsent row while nobody resolves its
      carrying row. A row that failed five times waits for a retry. */
  lemma {:induction false} SeriesLives(s: Rows, events: seq<Timed>, series: Id, rule: Rule)
    requires Inv(s) && Alive(s, series, rule) && ValidRule(rule)
    requires AllOwned(s, events) && RealDates(events) && AllSpare(s, events, series)
    ensures Alive(Run(s, events), series, rule)
    decreases |events|
  {
    if events != [] {
      var h :| h in s.reminders && GoesOn(s, h, series, rule);
      assert RealDate(events[0].event);
      StepKeepsInv(s, events[0]);
      StepKeepsAlive(s, events[0], h, series, rule);
      SeriesLives(Step(s, events[0]), events[1..], series, rule);
    }
  }

  /** And only so long: over every run of calls as the program makes them, the
      series has an unsent row in the end exactly when nobody resolved its carrying
      row on the way. */
  lemma {:induction false} SeriesLivesExactly(s: Rows, events: seq<Timed>, series: Id, rule: Rule)
    requires Inv(s) && Single(s) && Alive(s, series, rule) && ValidRule(rule)
    requires AllOwned(s, events) && AllAsCalled(events) && RealDates(events)
    ensures Alive(Run(s, events), series, rule) <==> AllSpare(s, events, series)
    decreases |events|
  {
    if events != [] {
      var h :| h in s.reminders && GoesOn(s, h, series, rule);
      var t, after := events[0], Step(s, events[0]);
      assert AsCalled(t.event) && RealDate(t.event);
      StepKeepsInv(s, t);
      StepForksExactly(s, t);
      if Spares(s, t.event, series) {
        StepKeepsAlive(s, t, h, series, rule);
        SeriesLivesExactly(after, events[1..], series, rule);
      } else {
        ResolvedSeriesHasEnded(s, t.event.id, t.event.user, series);
        EndedForGood(after, events[1..], series);
      }
    }
  }

  // When it fires.

  /** The k-th member of an orbit that a row fires at. */
  ghost predicate OnOrbit(r: Reminder, rule: Rule, start: Moment) {
    r.rule == Some(rule) && exists k: nat :: Orbit(By(rule), start, k) == Some(r.remindAt)
  }

  ghost predicate SeriesOnOrbit(s: Rows, series: Id, rule: Rule, start: Moment) {
    series < s.minted && forall id | id in s.reminders && Carries(s.reminders[id], series) :: OnOrbit(s.reminders[id], rule, start)
  }

  lemma FollowingIsOnOrbit(r: Reminder, rule: Rule, start: Moment, now: int)
    requires OnOrbit(r, rule, start) && Following(r, now).Returned? && Following(r, now).value.Some?
    ensures OnOrbit(r.(remindAt := Following(r, now).value.value), rule, start)
  {
    var j: nat :| Orbit(By(rule), start, j) == Some(r.remindAt);
    var k := CatchUpIsFirst(By(rule), r.remindAt, now, LOOP_BOUND);
    OrbitAdds(By(rule), start, j, k);
    assert Orbit(By(rule), start, j + k) == Following(r, now).value;
  }

  lemma MarkKeepsOrbit(s: Rows, id: Id, token: Option<Id>, now: int, series: Id, rule: Rule, start: Moment)
    requires Inv(s) && SeriesOnOrbit(s, series, rule, start)
    ensures SeriesOnOrbit(Settle(s, MarkSent(s, id, token, now)), series, rule, start)
  {
    var after := Settle(s, MarkSent(s, id, token, now));
    forall other | other in after.reminders && Carries(after.reminders[other], series)
      ensures OnOrbit(after.reminders[other], rule, start)
    {
      if other in s.reminders && after.reminders[other] == s.reminders[other] {
        assert OnOrbit(s.reminders[other], rule, start);
      } else {
        MarkAddsTheFollowing(s, id, token, now, other);
        assert OnOrbit(s.reminders[id], rule, start);
        FollowingIsOnOrbit(s.reminders[id], rule, start, now);
      }
    }
  }

  lemma MarkAddsTheFollowing(s: Rows, id: Id, token: Option<Id>, now: int, other: Id)
    requires Inv(s)
    requires var after := Settle(s, MarkSent(s, id, token, now));
      && other in after.reminders && !after.reminders[other].isSent
      && !(other in s.reminders && after.reminders[other] == s.reminders[other])
    ensures var r, after := Settle(s, MarkSent(s, id, token, now)).reminders[other], Settle(s, MarkSent(s, id, token, now));
      && id in s.reminders && !s.reminders[id].isSent && r.rule == s.reminders[id].rule && r.series == s.reminders[id].series
      && (s.reminders[id].rule.Some? ==>
            && Following(s.reminders[id], now).Returned? && Following(s.reminders[id], now).value == Some(r.remindAt))
  {
    MarkWithAdds(s, id, token, FollowingOf(s, id, now), now, other);
  }

  lemma MarkWithAdds(s: Rows, id: Id, token: Option<Id>, following: Outcome<Option<Moment>>, now: int, other: Id)
    requires Inv(s)
    requires var after := Settle(s, MarkWith(s, id, token, following, now));
      && other in after.reminders && !after.reminders[other].isSent
      && !(other in s.reminders && after.reminders[other] == s.reminders[other])
    ensures var r := Settle(s, MarkWith(s, id, token, following, now)).reminders[other];
      && id in s.reminders && !s.reminders[id].isSent && r.rule == s.reminders[id].rule && r.series == s.reminders[id].series
      && following == Returned(Some(r.remindAt))
  {
  }

  predicate NoneMoves(s: Rows, events: seq<Timed>, series: Id)
    decreases |events|
  {
    events == [] || (!Moves(s, events[0].event, series) && NoneMoves(Step(s, events[0]), events[1..], series))
  }

  /** Over every run of calls as the program makes them in which nobody snoozes an
      undelivered carrying row, the series keeps its rule and fires only at members
      of the orbit of its start, however late deliveries, retries and snoozes of
      delivered rows are. */
  lemma {:induction false} SeriesKeepsItsOrbit(s: Rows, events: seq<Timed>, series: Id, rule: Rule, start: Moment)
    requires Inv(s) && SeriesOnOrbit(s, series, rule, start)
    requires AllOwned(s, events) && AllAsCalled(events) && NoneMoves(s, events, series)
    ensures SeriesOnOrbit(Run(s, events), series, rule, start)
    decreases |events|
  {
    if events != [] {
      var t, after := events[0], Step(s, events[0]);
      assert AsCalled(t.event);
      StepKeepsInv(s, t);
      StepMints(s, t);
      if t.event.MarkEvent? {
        MarkKeepsOrbit(s, t.event.id, t.event.token, Instant(t.now), series, rule, start);
      } else {
        StepKeepsCarriers(s, t, series);
        forall id | id in after.reminders && Carries(after.reminders[id], series)
          ensures OnOrbit(after.reminders[id], rule, start)
        {
          assert OnOrbit(s.reminders[id], rule, start);
        }
      }
      SeriesKeepsItsOrbit(after, events[1..], series, rule, start);
    }
  }

  /** In particular the series of a new reminder, from its first moment on. */
  lemma NewSeriesKeepsItsOrbit(s: Rows, user: Id, task: Option<Id>, at: Moment, rule: Rule, now: int, events: seq<Timed>)
    requires Inv(s) && Owned(s, CreateEvent(user, task, at, Some(rule)))
    requires Create(s, user, task, at, Some(rule), now).Returned?
    requires var created := Create(s, user, task, at, Some(rule), now).value;
      AllOwned(created, events) && AllAsCalled(events) && NoneMoves(created, events, s.minted + 1)
    ensures SeriesOnOrbit(Run(Create(s, user, task, at, Some(rule), now).value, events), s.minted + 1, rule, at)
  {
    var created := Create(s, user, task, at, Some(rule), now).value;
    CreateKeeps(s, user, task, at, Some(rule), now);
    assert Orbit(By(rule), at, 0) == Some(at);
    forall id | id in created.reminders && Carries(created.reminders[id], s.minted + 1)
      ensures OnOrbit(created.reminders[id], rule, at)
    {
      assert id == s.minted || RowOk(s.tasks, s.minted, s.reminders[id]);
    }
    SeriesKeepsItsOrbit(created, events, s.minted + 1, rule, at);
  }

  /** A snooze of the undelivered carrying row moves the whole series for good: from
      then on it fires at the orbit of the new moment instead. */
  lemma SnoozeMovesTheSeries(s: Rows, id: Id, user: Option<Id>, at: Moment, events: seq<Timed>, series: Id, rule: Rule)
    requires Inv(s) && Single(s) && id in s.reminders && Carries(s.reminders[id], series) && s.reminders[id].rule == Some(rule)
    requires Snooze(s, id, user, at).Returned? && Snooze(s, id, user, at).value != s
    requires var snoozed := Snooze(s, id, user, at).value;
      AllOwned(snoozed, events) && AllAsCalled(events) && NoneMoves(snoozed, events, series)
    ensures SeriesOnOrbit(Run(Snooze(s, id, user, at).value, events), series, rule, at)
  {
    var snoozed := Snooze(s, id, user, at).value;
    SnoozeKeeps(s, id, user, at);
    assert RowOk(s.tasks, s.minted, s.reminders[id]);
    assert !CarriedElsewhere(s, id, series);
    assert Orbit(By(rule), at, 0) == Some(at);
    assert OnOrbit(snoozed.reminders[id], rule, at);
    SeriesKeepsItsOrbit(snoozed, events, series, rule, at);
  }
}
