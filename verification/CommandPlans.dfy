/** Where the stored plan and the committed effects of a request come from, and
    how long its reservation lasts. */
module CommandPlans {
  import opened Outcomes
  import opened CommandExecution

  // The plan.

  /** The proposal of the first durable `persist_plan` of the row's owner. */
  function FirstProposal(store: Store, events: seq<Event>): Option<seq<int>>
    decreases |events|
  {
    if events == [] then None
    else if events[0].PersistEvent? && events[0].fate.Durable() && OwnRow(store, events[0].user).Some?
    then Some(events[0].proposed)
    else FirstProposal(Step(store, events[0]), events[1..])
  }

  function PlanOf(store: Store): Option<seq<int>> {
    if store.row.None? then None else store.row.value.plan
  }

  lemma StepPlans(store: Store, e: Event)
    ensures PlanOf(Step(store, e)) ==
            if PlanOf(store).None? && e.PersistEvent? && e.fate.Durable() && OwnRow(store, e.user).Some?
            then Some(e.proposed) else PlanOf(store)
  {
  }

  /** Over every schedule the stored plan is the one already there, or else the
      first durable proposal of the owner, whatever is proposed later. */
  lemma {:induction false} PlanIsFirstProposal(store: Store, events: seq<Event>)
    ensures PlanOf(Run(store, events)) == if PlanOf(store).Some? then PlanOf(store) else FirstProposal(store, events)
    decreases |events|
  {
    if events != [] {
      StepPlans(store, events[0]);
      PlanIsFirstProposal(Step(store, events[0]), events[1..]);
    }
  }

  // The preparations.

  function PreparationOf(store: Store, position: nat): Option<Result> {
    if store.row.Some? && Prepared(position) in store.row.value.results
    then Some(store.row.value.results[Prepared(position)]) else None
  }

  /** A durable `prepare_project_action` of the row's owner for a created project. */
  predicate Prepares(store: Store, e: Event, position: nat) {
    && e.PrepareEvent? && e.position == position && e.fate.Durable() && !e.prepared.kind.Error?
    && OwnRow(store, e.user).Some? && ProjectRecorded(store.row.value.results, position)
  }

  function FirstPreparation(store: Store, events: seq<Event>, position: nat): Option<Result>
    decreases |events|
  {
    if events == [] then None
    else if Prepares(store, events[0], position) then Some(events[0].prepared)
    else FirstPreparation(Step(store, events[0]), events[1..], position)
  }

  lemma StepPrepares(store: Store, e: Event, position: nat)
    ensures PreparationOf(Step(store, e), position) ==
            if PreparationOf(store, position).None? && Prepares(store, e, position) then Some(e.prepared)
            else PreparationOf(store, position)
  {
  }

  /** Likewise the recorded preparation of a project is the one already there, or
      else the first durable one, so all workers present the same tasks. */
  lemma {:induction false} PreparationIsTheFirst(store: Store, events: seq<Event>, position: nat)
    ensures PreparationOf(Run(store, events), position) ==
            if PreparationOf(store, position).Some? then PreparationOf(store, position)
            else FirstPreparation(store, events, position)
    decreases |events|
  {
    if events != [] {
      StepPrepares(store, events[0], position);
      PreparationIsTheFirst(Step(store, events[0]), events[1..], position);
    }
  }

  // The effects.

  /** This execution ran to its commit with exactly these writes and this result. */
  predicate Accounts(e: Event, commit: Commit, result: Result) {
    && e.ExecuteEvent? && commit == Commit(Some(At(e.position, e.stage)), WritesOf(e.ops))
    && NestedRollback !in e.ops && e.ending == Returns(result) && !result.kind.Error? && e.fate.Durable()
  }

  ghost predicate AccountedFor(store: Store, events: seq<Event>, i: nat)
    requires i < |store.commits|
  {
    && store.row.Some? && store.commits[i].key.Some? && store.commits[i].key.value in store.row.value.results
    && exists e :: e in events && Accounts(e, store.commits[i], store.row.value.results[store.commits[i].key.value])
  }

  lemma StepCommits(store: Store, e: Event)
    ensures var after := Step(store, e);
      || after.commits == store.commits
      || (after.commits == store.commits + [after.commits[|store.commits|]]
          && after.row.Some? && after.commits[|store.commits|].key.Some?
          && after.commits[|store.commits|].key.value in after.row.value.results
          && Accounts(e, after.commits[|store.commits|], after.row.value.results[after.commits[|store.commits|].key.value]))
  {
  }

  lemma StepKeepsResult(store: Store, e: Event, k: ResultKey)
    requires store.row.Some? && k in store.row.value.results && k.At?
    ensures var after := Step(store, e);
      after.row.Some? && k in after.row.value.results && after.row.value.results[k] == store.row.value.results[k]
  {
  }

  lemma {:induction false} CommitsAreAccountedFor(store: Store, past: seq<Event>, events: seq<Event>, i: nat)
    requires forall j :: 0 <= j < |store.commits| ==> store.commits[j].key.Some? && store.commits[j].key.value.At?
    requires forall j :: 0 <= j < |store.commits| ==> AccountedFor(store, past, j)
    requires i < |Run(store, events).commits|
    ensures AccountedFor(Run(store, events), past + events, i)
    decreases |events|
  {
    if events == [] {
      assert past + events == past;
    } else {
      var e, after := events[0], Step(store, events[0]);
      StepCommits(store, e);
      forall j | 0 <= j < |after.commits|
        ensures after.commits[j].key.Some? && after.commits[j].key.value.At? && AccountedFor(after, past + [e], j)
      {
        if j < |store.commits| {
          assert AccountedFor(store, past, j);
          StepKeepsResult(store, e, store.commits[j].key.value);
          var d :| d in past && Accounts(d, store.commits[j], store.row.value.results[store.commits[j].key.value]);
          assert d in past + [e];
        } else {
          assert e in past + [e];
        }
      }
      CommitsAreAccountedFor(after, past + [e], events[1..], i);
      assert (past + [e]) + events[1..] == past + events;
    }
  }

  /** Every durable effect of a request holds all the writes of one execution of
      its action, which returned exactly the recorded result, raised nothing and
      rolled nothing back. */
  lemma EffectsAreWhole(events: seq<Event>, i: nat)
    requires i < |Run(EMPTY_STORE, events).commits|
    ensures AccountedFor(Run(EMPTY_STORE, events), events, i)
  {
    CommitsAreAccountedFor(EMPTY_STORE, [], events, i);
    assert [] + events == events;
  }

  // The reservation.

  /** What leaves the reservation alone: planning, executing and preparing. */
  predicate Works(e: Event) {
    e.PersistEvent? || e.ExecuteEvent? || e.PrepareEvent?
  }

  lemma {:induction false} WorkKeepsReservation(store: Store, events: seq<Event>)
    requires store.row.Some? && forall e :: e in events ==> Works(e)
    ensures var after := Run(store, events).row;
      && after.Some? && after.value.user == store.row.value.user && after.value.status == store.row.value.status
      && after.value.created == store.row.value.created
      && (Abandoned in after.value.results <==> Abandoned in store.row.value.results)
    decreases |events|
  {
    if events != [] {
      assert Works(events[0]);
      WorkKeepsReservation(Step(store, events[0]), events[1..]);
    }
  }

  /** After a reservation, however much work is done for it, its owner resumes the
      request exactly when more than five minutes are over, and closes it exactly
      from the fifth minute on. */
  lemma ReservationEndsExactly(store: Store, user: int, now: int, events: seq<Event>, later: int)
    requires ClaimRequest(store, user, now, Written).1 == Some(true) && forall e :: e in events ==> Works(e)
    ensures var after := Run(ClaimRequest(store, user, now, Written).0, events);
      && (ClaimRequest(after, user, later, Written).1 == Some(true) <==> later > now + 300)
      && after.row.Some? && Abandoned !in after.row.value.results
      && (Closed(AbandonRequest(after, user, later, Written)) <==> later >= now + 300)
      && (later < now + 300 ==> AbandonRequest(after, user, later, Written) == after)
  {
    WorkKeepsReservation(ClaimRequest(store, user, now, Written).0, events);
  }

  /** A request counts as done and can never be resumed. */
  predicate Closed(store: Store) {
    store.row.Some? && store.row.value.status.Completed? && Abandoned in store.row.value.results
  }

  /** Who reserves a request: anyone a new one, which starts without a plan; only
      the owner an existing one that is not closed and was finished as failed; and
      nobody one that was finished as completed. */
  lemma ReservedByExactly(store: Store, user: int, now: int, status: Status)
    requires !status.Processing?
    ensures ClaimRequest(EMPTY_STORE, user, now, Written)
         == (Store(Some(Row(user, None, map[], Processing, now)), []), Some(true))
    ensures store.row.Some? ==>
      (ClaimRequest(FinishRequest(store, status, Written), user, now, Written).1 == Some(true) <==>
        status.Failed? && store.row.value.user == user && Abandoned !in store.row.value.results)
    ensures OwnRow(store, user).Some? ==> Closed(AbandonRequest(FinishRequest(store, status, Written), user, now, Written))
  {
  }
}
