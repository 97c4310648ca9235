/** Durable action plans: bot/services/command_execution.py inside the command
    transactions of bot/db/engine.py, with the request reservation of
    bot/handlers/messages.py and the closing of bot/handlers/request_retry.py. */
module CommandExecution {
  import opened Outcomes

  datatype Stage = Effect | ProjectTasks

  /** The keys of `action_results`. */
  datatype ResultKey = At(position: nat, stage: Stage) | Prepared(position: nat) | Abandoned

  datatype Kind = Error | ProjectCreated | Plain
  /** `titles`: the payload proposes tasks for a project. */
  datatype Result = Result(kind: Kind, text: int, titles: bool)
  datatype Status = Processing | Completed | Failed

  datatype Row = Row(
    user: int, plan: Option<seq<int>>, results: map<ResultKey, Result>, status: Status, created: int)

  /** Domain writes that became durable in one commit, with the result key
      committed with them, if any. */
  datatype Commit = Commit(key: Option<ResultKey>, writes: seq<int>)

  datatype Store = Store(row: Option<Row>, commits: seq<Commit>)

  const CLOSED := Result(Error, 0, false)
  const STALE_SECONDS := 300

  /** What the executed command does with the session it borrows. */
  datatype Op = Write(value: int) | NestedCommit | NestedRollback

  /** How it ends. */
  datatype Ending = Raises | Returns(result: Result)

  function WritesOf(ops: seq<Op>): seq<int> {
    if ops == [] then []
    else (if ops[0].Write? then [ops[0].value] else []) + WritesOf(ops[1..])
  }

  // What each transaction does to the store, and what its caller sees.

  function OwnRow(store: Store, user: int): Option<Row> {
    if store.row.Some? && store.row.value.user == user then store.row else None
  }

  function WithRow(store: Store, row: Row): Store {
    store.(row := Some(row))
  }

  function PersistPlan(store: Store, user: int, proposed: seq<int>, fate: WriteFate): (Store, Outcome<seq<int>>) {
    match OwnRow(store, user)
    case None => (store, Raised)
    case Some(row) =>
      var kept := if row.plan.None? then row.(plan := Some(proposed)) else row;
      (if fate.Durable() then WithRow(store, kept) else store,
       if fate.Written? then Returned(kept.plan.value) else if fate.Result().Raised? then Raised else Died)
  }

  /** The checks of `execute_action` before anything runs: an answer, or None
      when the command must be executed. */
  function Screen(store: Store, user: int, position: nat, stage: Stage): Option<Outcome<Result>> {
    match OwnRow(store, user)
    case None => Some(Raised)
    case Some(row) =>
      if row.plan.None? then Some(Raised)
      else if Abandoned in row.results then Some(Returned(CLOSED))
      else if position >= |row.plan.value| then Some(Raised)
      else if stage.ProjectTasks? && !ProjectRecorded(row.results, position) then Some(Raised)
      else if At(position, stage) in row.results then Some(Returned(row.results[At(position, stage)]))
      else None
  }

  predicate ProjectRecorded(results: map<ResultKey, Result>, position: nat) {
    At(position, Effect) in results && results[At(position, Effect)].kind.ProjectCreated?
  }

  function ExecuteAction(
    store: Store, user: int, position: nat, stage: Stage, ops: seq<Op>, ending: Ending, fate: WriteFate
  ): (Store, Outcome<Result>) {
    match Screen(store, user, position, stage)
    case Some(answer) => (store, answer)
    case None =>
      var row := OwnRow(store, user).value;
      if ending.Raises? || NestedRollback in ops then (store, Raised)
      else if ending.result.kind.Error? then (store, Returned(ending.result))
      else
        var key := At(position, stage);
        var recorded := Store(Some(row.(results := row.results[key := ending.result])),
                              store.commits + [Commit(Some(key), WritesOf(ops))]);
        (if fate.Durable() then recorded else store,
         if fate.Written? then Returned(ending.result) else if fate.Result().Raised? then Raised else Died)
  }

  /** The first half of `prepare_project_action`: an answer already recorded. */
  function FindPrepared(store: Store, user: int, position: nat): Option<Outcome<Result>> {
    match OwnRow(store, user)
    case None => Some(Raised)
    case Some(row) =>
      if At(position, ProjectTasks) in row.results then Some(Returned(row.results[At(position, ProjectTasks)]))
      else if Prepared(position) in row.results then Some(Returned(row.results[Prepared(position)]))
      else None
  }

  /** Its second half, after a preparation made outside any transaction. */
  function SavePrepared(store: Store, user: int, position: nat, prepared: Result, fate: WriteFate): (Store,
      Outcome<Result>) {
    match OwnRow(store, user)
    case None => (store, Raised)
    case Some(row) =>
      if !ProjectRecorded(row.results, position) then (store, Raised)
      else
        var results := if Prepared(position) in row.results then row.results else row.results[Prepared(position) := prepared];
        (if fate.Durable() then WithRow(store, row.(results := results)) else store,
         if fate.Written? then Returned(results[Prepared(position)]) else if fate.Result().Raised? then Raised else Died)
  }

  /** `_claim_request`: reserve a new request or resume a failed or stale one. */
  function ClaimRequest(store: Store, user: int, now: int, fate: WriteFate): (Store, Option<bool>) {
    var reserved := Row(user, None, map[], Processing, now);
    var (target, answer) :=
      if store.row.None? then (reserved, true)
      else
        var row := store.row.value;
        var stale := row.status.Processing? && row.created < now - STALE_SECONDS;
        if row.user == user && Abandoned !in row.results && (row.status.Failed? || stale)
        then (row.(status := Processing, created := now), true)
        else (row, false);
    if !answer then (store, Some(false))
    else (if fate.Durable() then WithRow(store, target) else store, if fate.Written? then Some(true) else None)
  }

  /** `_finish_request` */
  function FinishRequest(store: Store, status: Status, fate: WriteFate): Store {
    if store.row.Some? && fate.Durable() then WithRow(store, store.row.value.(status := status)) else store
  }

  /** `abandon_request` */
  function AbandonRequest(store: Store, user: int, now: int, fate: WriteFate): Store {
    match OwnRow(store, user)
    case None => store
    case Some(row) =>
      if (row.status.Processing? && row.created > now - STALE_SECONDS) || !fate.Durable() then store
      else WithRow(store, row.(results := row.results[Abandoned := CLOSED], status := Completed))
  }

  /** Everything that may happen to one request, by any worker, in any order. */
  datatype Event =
    | ClaimEvent(user: int, now: int, fate: WriteFate)
    | PersistEvent(user: int, proposed: seq<int>, fate: WriteFate)
    | ExecuteEvent(user: int, position: nat, stage: Stage, ops: seq<Op>, ending: Ending, fate: WriteFate)
    | PrepareEvent(user: int, position: nat, prepared: Result, fate: WriteFate)
    | FinishEvent(status: Status, fate: WriteFate)
    | AbandonEvent(user: int, now: int, fate: WriteFate)

  function Step(store: Store, e: Event): Store {
    match e
    case ClaimEvent(user, now, fate) => ClaimRequest(store, user, now, fate).0
    case PersistEvent(user, proposed, fate) => PersistPlan(store, user, proposed, fate).0
    case ExecuteEvent(user, position, stage, ops, ending, fate) =>
      ExecuteAction(store, user, position, stage, ops, ending, fate).0
    case PrepareEvent(user, position, prepared, fate) =>
      if prepared.kind.Error? then store else SavePrepared(store, user, position, prepared, fate).0
    case FinishEvent(status, fate) => FinishRequest(store, status, fate)
    case AbandonEvent(user, now, fate) => AbandonRequest(store, user, now, fate)
  }

  function Run(store: Store, events: seq<Event>): Store
    decreases |events|
  {
    if events == [] then store else Run(Step(store, events[0]), events[1..])
  }

  const EMPTY_STORE := Store(None, [])

  // Promises over every schedule.

  /** Every durable commit is labelled, no label twice, and the labels are
      exactly the recorded results of executed actions. */
  predicate ExactlyOnce(store: Store) {
    && (forall i :: 0 <= i < |store.commits| ==> store.commits[i].key.Some? && store.commits[i].key.value.At?)
    && (forall i, j :: 0 <= i < j < |store.commits| ==> store.commits[i].key != store.commits[j].key)
    && (store.row.None? ==> store.commits == [])
    && (store.row.Some? ==>
          forall k :: k in store.row.value.results && k.At? ==>
            exists i :: 0 <= i < |store.commits| && store.commits[i].key == Some(k))
    && (store.row.Some? ==>
          forall i :: 0 <= i < |store.commits| ==> store.commits[i].key.value in store.row.value.results)
  }

  /** Project tasks follow a recorded project; recorded actions are in the plan,
      and no error is recorded for one. */
  predicate Ordered(store: Store) {
    store.row.Some? ==>
      forall k :: k in store.row.value.results ==>
        && (k.At? ==> store.row.value.plan.Some? && k.position < |store.row.value.plan.value|)
        && (k.At? && k.stage.ProjectTasks? ==> ProjectRecorded(store.row.value.results, k.position))
        && (k.Prepared? ==> ProjectRecorded(store.row.value.results, k.position))
        && (!k.Abandoned? ==> !store.row.value.results[k].kind.Error?)
  }

  /** What one moment of a request promises about every later one. */
  predicate Extends(earlier: Store, later: Store) {
    && earlier.commits <= later.commits
    && (earlier.row.Some? ==>
          && later.row.Some?
          && later.row.value.user == earlier.row.value.user
          && (earlier.row.value.plan.Some? ==> later.row.value.plan == earlier.row.value.plan)
          && (forall k :: k in earlier.row.value.results ==>
                k in later.row.value.results && (!k.Abandoned? ==> later.row.value.results[k] == earlier.row.value.results[k]))
          && (Abandoned in earlier.row.value.results ==> later.commits == earlier.commits))
  }

  lemma StepIsExactlyOnce(store: Store, e: Event)
    requires ExactlyOnce(store)
    ensures ExactlyOnce(Step(store, e))
  {
    var after := Step(store, e);
    if e.ExecuteEvent? && after != store {
      var key := At(e.position, e.stage);
      var n := |store.commits|;
      assert after.commits[n].key == Some(key);
      forall k | k in after.row.value.results && k.At?
        ensures exists i :: 0 <= i < |after.commits| && after.commits[i].key == Some(k)
      {
        if k != key {
          var i :| 0 <= i < n && store.commits[i].key == Some(k);
          assert after.commits[i].key == Some(k);
        }
      }
    } else {
      assert after.commits == store.commits;
    }
  }

  lemma StepIsOrdered(store: Store, e: Event)
    requires Ordered(store)
    ensures Ordered(Step(store, e))
  {
  }

  lemma StepExtends(store: Store, e: Event)
    ensures Extends(store, Step(store, e))
  {
  }

  lemma ExtendsIsTransitive(a: Store, b: Store, c: Store)
    requires Extends(a, b) && Extends(b, c)
    ensures Extends(a, c)
  {
  }

  /** For every schedule of retries, crashes and concurrent workers: each
      planned action is committed at most once, together with its result. */
  lemma {:induction false} RunIsExactlyOnce(store: Store, events: seq<Event>)
    requires ExactlyOnce(store) && Ordered(store)
    ensures ExactlyOnce(Run(store, events)) && Ordered(Run(store, events))
    decreases |events|
  {
    if events != [] {
      StepIsExactlyOnce(store, events[0]);
      StepIsOrdered(store, events[0]);
      RunIsExactlyOnce(Step(store, events[0]), events[1..]);
    }
  }

  /** The plan is written once, results never change, and closing the request
      ends all effects. */
  lemma {:induction false} RunExtends(store: Store, events: seq<Event>)
    ensures Extends(store, Run(store, events))
    decreases |events|
  {
    if events != [] {
      StepExtends(store, events[0]);
      RunExtends(Step(store, events[0]), events[1..]);
      ExtendsIsTransitive(store, Step(store, events[0]), Run(store, events));
    }
  }

  /** Two actions committed under one key in any run are the same commit. */
  lemma NoEffectTwice(events: seq<Event>, i: nat, j: nat)
    ensures var store := Run(EMPTY_STORE, events);
      i < |store.commits| && j < |store.commits| && store.commits[i].key == store.commits[j].key ==> i == j
  {
    RunIsExactlyOnce(EMPTY_STORE, events);
  }

  /** A retry of a recorded action commits nothing and repeats its answer. */
  lemma ReplayIsSilent(store: Store, events: seq<Event>, user: int, position: nat, stage: Stage,
                       ops: seq<Op>, ending: Ending, fate: WriteFate)
    requires OwnRow(store, user).Some? && At(position, stage) in store.row.value.results
    requires Ordered(store)
    requires Run(store, events).row.Some? && Abandoned !in Run(store, events).row.value.results
    ensures var later := Run(store, events);
      ExecuteAction(later, user, position, stage, ops, ending, fate)
      == (later, Returned(store.row.value.results[At(position, stage)]))
  {
    RunExtends(store, events);
    RunOrdered(store, events);
  }

  lemma {:induction false} RunOrdered(store: Store, events: seq<Event>)
    requires Ordered(store)
    ensures Ordered(Run(store, events))
    decreases |events|
  {
    if events != [] {
      StepIsOrdered(store, events[0]);
      RunOrdered(Step(store, events[0]), events[1..]);
    }
  }

  // Reservation and closing.

  predicate FinishesAsFailed(e: Event) {
    e.FinishEvent? && e.status.Failed?
  }

  /** A row that nobody can claim up to five minutes after `since`. */
  predicate ReservedSince(store: Store, since: int) {
    store.row.Some? && !store.row.value.status.Failed? && store.row.value.created >= since
  }

  lemma {:induction false} ReservationLasts(store: Store, events: seq<Event>, since: int)
    requires ReservedSince(store, since) && forall e :: e in events ==> !FinishesAsFailed(e)
    ensures ReservedSince(Run(store, events), since)
    decreases |events|
  {
    if events != [] {
      assert !FinishesAsFailed(events[0]);
      ReservationLasts(Step(store, events[0]), events[1..], since);
    }
  }

  /** Whatever else happens to a reserved request, claims, actions, retries and
      abandonment at any times included: until somebody finishes it as failed,
      nobody can claim it within five minutes of its reservation. */
  lemma ReservationIsExclusive(store: Store, user: int, now: int, events: seq<Event>, other: int, later: int, fate: WriteFate)
    requires ClaimRequest(store, user, now, Written).1 == Some(true)
    requires later <= now + 300 && forall e :: e in events ==> !FinishesAsFailed(e)
    ensures var after := Run(ClaimRequest(store, user, now, Written).0, events);
      ClaimRequest(after, other, later, fate) == (after, Some(false))
  {
    ReservationLasts(ClaimRequest(store, user, now, Written).0, events, now);
  }

  /** Finishing as failed does end a reservation at once, for its owner. */
  lemma FailedRequestIsFree(store: Store, user: int, later: int)
    requires OwnRow(store, user).Some? && Abandoned !in store.row.value.results
    ensures ClaimRequest(FinishRequest(store, Failed, Written), user, later, Written).1 == Some(true)
  {
  }

  /** Resuming a request keeps its plan and its results. */
  lemma ResumeKeepsThePlan(store: Store, user: int, now: int, fate: WriteFate)
    requires store.row.Some?
    ensures var after := ClaimRequest(store, user, now, fate).0;
      && after.row.Some? && after.row.value.plan == store.row.value.plan && after.row.value.results == store.row.value.results
      && (after != store ==>
            store.row.value.user == user && !store.row.value.status.Completed? && Abandoned !in store.row.value.results)
  {
  }

  /** Once closed, a request stays closed in every schedule: it cannot be claimed,
      and every action answers that it is closed and does nothing. */
  lemma AbandonedForGood(store: Store, events: seq<Event>, user: int, now: int, position: nat, stage: Stage,
                         ops: seq<Op>, ending: Ending, fate: WriteFate)
    requires OwnRow(store, user).Some? && store.row.value.plan.Some? && Abandoned in store.row.value.results
    ensures var later := Run(store, events);
      && later.commits == store.commits
      && ClaimRequest(later, user, now, fate) == (later, Some(false))
      && ExecuteAction(later, user, position, stage, ops, ending, fate) == (later, Returned(CLOSED))
  {
    RunExtends(store, events);
  }
}
