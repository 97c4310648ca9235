/** The borrowed sessions of bot/db/engine.py and the code that runs planned
    actions in them, proved against the transactions of CommandExecution. */
module CommandSessions {
  import opened Outcomes
  import opened CommandExecution
  import opened CommandPlans

  /** The committed contents, shared by all sessions. */
  class Database {
    var row: Option<Row>
    var commits: seq<Commit>
    ghost var disturbances: nat   // commands, preparations and commits that went wrong

    function Contents(): Store
      reads this
    {
      Store(row, commits)
    }

    constructor ()
      ensures Contents() == EMPTY_STORE
    {
      row, commits := None, [];
      disturbances := 0;
    }

    ghost method Notice(fine: bool)
      modifies `disturbances
      ensures disturbances == old(disturbances) + if fine then 0 else 1
    {
      if !fine {
        disturbances := disturbances + 1;
      }
    }

    /** Something that went wrong explains why there was no success. */
    twostate predicate Explains(success: bool)
      reads `disturbances
    {
      disturbances >= old(disturbances) && (success || disturbances > old(disturbances))
    }
  }

  /** `CommandSession`: writes are staged until a commit that is its own. */
  class CommandSession {
    const db: Database
    var bound: bool          // this session is lent out by `command_transaction`
    var rollbackOnly: bool
    var staged: seq<int>
    var record: Option<(ResultKey, Row)>

    constructor (db: Database)
      ensures this.db == db && !bound && !rollbackOnly && staged == [] && record.None?
    {
      this.db, bound, rollbackOnly, staged, record := db, false, false, [], None;
    }

    method Write(value: int)
      modifies this`staged
      ensures staged == old(staged) + [value]
    {
      staged := staged + [value];
    }

    /** A nested commit only flushes; the owner's commit makes the staged writes
        and the staged result durable together. */
    method Commit(fate: WriteFate) returns (r: Outcome<()>)
      modifies this`staged, this`record, db`row, db`commits
      ensures bound ==>
        r.Returned? && db.Contents() == old(db.Contents()) && staged == old(staged) && record == old(record)
      ensures !bound ==> r == fate.Result()
      ensures !bound && (!fate.Durable() || (old(staged) == [] && old(record).None?)) ==>
        db.Contents() == old(db.Contents())
      ensures !bound && fate.Durable() && old(record).Some? ==>
        db.Contents() == Store(Some(old(record).value.1),
                               old(db.commits) + [CommandExecution.Commit(Some(old(record).value.0), old(staged))])
      ensures !bound && fate.Durable() && old(record).None? && old(staged) != [] ==>
        db.Contents() == Store(old(db.row), old(db.commits) + [CommandExecution.Commit(None, old(staged))])
    {
      if bound { return Returned(()); }
      if fate.Durable() {
        if record.Some? {
          db.row := Some(record.value.1);
          db.commits := db.commits + [CommandExecution.Commit(Some(record.value.0), staged)];
        } else if staged != [] {
          db.commits := db.commits + [CommandExecution.Commit(None, staged)];
        }
      }
      staged, record := [], None;
      return fate.Result();
    }

    /** A nested rollback poisons the command that borrowed the session. */
    method Rollback()
      modifies this
      ensures rollbackOnly == (old(rollbackOnly) || bound) && bound == old(bound)
      ensures staged == [] && record.None?
    {
      if bound {
        rollbackOnly := true;
      }
      staged, record := [], None;
    }

    /** The command body: repositories write, commit and roll back as they did
        when each owned its session. */
    method Borrow(ops: seq<Op>)
      requires bound && !rollbackOnly && staged == [] && record.None?
      modifies this, db`row, db`commits
      ensures db.Contents() == old(db.Contents())
      ensures bound && record.None?
      ensures rollbackOnly <==> NestedRollback in ops
      ensures !rollbackOnly ==> staged == WritesOf(ops)
    {
      for i := 0 to |ops|
        invariant db.Contents() == old(db.Contents())
        invariant bound && record.None?
        invariant rollbackOnly <==> NestedRollback in ops[..i]
        invariant !rollbackOnly ==> staged == WritesOf(ops[..i])
      {
        WritesAppend(ops[..i], ops[i]);
        assert ops[..i + 1] == ops[..i] + [ops[i]];
        match ops[i]
        case Write(value) => Write(value);
        case NestedCommit => var _ := Commit(WriteFate.Written);
        case NestedRollback => Rollback();
      }
      assert ops[..|ops|] == ops;
    }
  }

  lemma {:induction false} WritesAppend(ops: seq<Op>, op: Op)
    ensures WritesOf(ops + [op]) == WritesOf(ops) + if op.Write? then [op.value] else []
  {
    if ops != [] {
      assert (ops + [op])[1..] == ops[1..] + [op];
      WritesAppend(ops[1..], op);
    }
  }

  /** `execute_action` */
  method RunAction(db: Database, user: int, position: nat, stage: Stage, ops: seq<Op>, ending: Ending, fate: WriteFate)
    returns (r: Outcome<Result>)
    modifies db`row, db`commits
    ensures (db.Contents(), r) == ExecuteAction(old(db.Contents()), user, position, stage, ops, ending, fate)
  {
    var session := new CommandSession(db);
    if db.row.None? || db.row.value.user != user || db.row.value.plan.None? { return Raised; }
    var row := db.row.value;
    if Abandoned in row.results { return Returned(CLOSED); }
    if position >= |row.plan.value| { return Raised; }
    if stage.ProjectTasks? && !ProjectRecorded(row.results, position) { return Raised; }
    var key := At(position, stage);
    if key in row.results { return Returned(row.results[key]); }
    session.bound := true;
    session.Borrow(ops);
    session.bound := false;
    if ending.Raises? || session.rollbackOnly { return Raised; }
    if ending.result.kind.Error? {
      session.Rollback();
      return Returned(ending.result);
    }
    session.record := Some((key, row.(results := row.results[key := ending.result])));
    var committed := session.Commit(fate);
    return match committed case Returned(_) => Returned(ending.result) case Raised => Raised case Died => Died;
  }

  predicate Sound(store: Store) {
    ExactlyOnce(store) && Ordered(store)
  }

  lemma StepIsSound(store: Store, e: Event)
    requires Sound(store)
    ensures Sound(Step(store, e)) && Extends(store, Step(store, e))
  {
    StepIsExactlyOnce(store, e);
    StepIsOrdered(store, e);
    StepExtends(store, e);
  }

  /** Any other workers run any schedule on the same request. */
  method Interfere(db: Database)
    requires Sound(db.Contents())
    modifies db`row, db`commits
    ensures Sound(db.Contents())
    ensures Extends(old(db.Contents()), db.Contents())
  {
    var events: seq<Event> := *;
    RunIsExactlyOnce(db.Contents(), events);
    RunExtends(db.Contents(), events);
    var after := Run(db.Contents(), events);
    db.row, db.commits := after.row, after.commits;
  }

  /** The user's own request, with a plan that has such an action. */
  predicate Runnable(store: Store, user: int, position: nat, stage: Stage) {
    && OwnRow(store, user).Some? && store.row.value.plan.Some? && position < |store.row.value.plan.value|
    && (stage.ProjectTasks? ==> ProjectRecorded(store.row.value.results, position))
  }

  predicate Abandons(store: Store) {
    store.row.Some? && Abandoned in store.row.value.results
  }

  predicate Succeeds(r: Outcome<Result>) {
    r.Returned? && !r.value.kind.Error?
  }

  /** A command that ends well, whose commit returns. */
  predicate Well(ops: seq<Op>, ending: Ending, fate: WriteFate) {
    ending.Returns? && !ending.result.kind.Error? && NestedRollback !in ops && fate.Written?
  }

  lemma OneExecution(store: Store, user: int, position: nat, stage: Stage, ops: seq<Op>, ending: Ending, fate: WriteFate)
    requires Sound(store)
    ensures var (after, r) := ExecuteAction(store, user, position, stage, ops, ending, fate);
      && Sound(after) && Extends(store, after)
      && (Succeeds(r) && !Abandons(store) ==>
            && after.row.Some? && At(position, stage) in after.row.value.results
            && after.row.value.results[At(position, stage)] == r.value)
      && (Abandons(store) ==> !Succeeds(r))
      && (Runnable(store, user, position, stage) && (Screen(store, user, position, stage).Some? || Well(ops, ending, fate)) ==>
            Succeeds(r) || Abandons(after))
  {
    StepIsSound(store, ExecuteEvent(user, position, stage, ops, ending, fate));
  }

  /** One planned action among concurrent workers: unless the request is closed,
      it fails only if the command or its commit did. */
  method RunAmongOthers(db: Database, user: int, position: nat, stage: Stage) returns (r: Outcome<Result>)
    requires Sound(db.Contents())
    modifies db
    ensures Sound(db.Contents())
    ensures Extends(old(db.Contents()), db.Contents())
    ensures Succeeds(r) ==> db.row.Some? && At(position, stage) in db.row.value.results
    ensures Succeeds(r) ==> db.row.value.results[At(position, stage)] == r.value
    ensures old(Runnable(db.Contents(), user, position, stage)) ==> db.Explains(Succeeds(r) || Abandons(db.Contents()))
    ensures db.Explains(true)
  {
    Interfere(db);
    var ops: seq<Op> := *;
    var ending: Ending := *;
    var fate: WriteFate := *;
    OneExecution(db.Contents(), user, position, stage, ops, ending, fate);
    db.Notice(Screen(db.Contents(), user, position, stage).Some? || Well(ops, ending, fate));
    r := RunAction(db, user, position, stage, ops, ending, fate);
  }

  /** What a fully presented action left behind: its result, and for a created
      project either its tasks or a preparation that proposes none. */
  predicate Settled(store: Store, position: nat) {
    && store.row.Some?
    && At(position, Effect) in store.row.value.results
    && (ProjectRecorded(store.row.value.results, position) ==>
          || At(position, ProjectTasks) in store.row.value.results
          || (Prepared(position) in store.row.value.results && !store.row.value.results[Prepared(position)].titles))
  }

  lemma SettledStays(earlier: Store, later: Store, position: nat)
    requires Extends(earlier, later) && Settled(earlier, position)
    ensures Settled(later, position)
  {
    assert At(position, Effect) in later.row.value.results;
  }

  /** The user's own request, in which the project was created. */
  predicate OwnProject(store: Store, user: int, position: nat) {
    OwnRow(store, user).Some? && ProjectRecorded(store.row.value.results, position)
  }

  /** The project was prepared before, or its tasks are already there. */
  predicate AlreadyPrepared(store: Store, user: int, position: nat) {
    && OwnRow(store, user).Some?
    && (Prepared(position) in store.row.value.results || At(position, ProjectTasks) in store.row.value.results)
  }

  /** `prepare_project_action`, with other workers between its transactions; the
      preparation outside them ends as `prepare` says, and `stored` is the one that
      was recorded before it could be. */
  method PrepareProject(db: Database, user: int, position: nat, prepare: Ending)
    returns (r: Outcome<Result>, ghost stored: Option<Result>)
    requires Sound(db.Contents())
    modifies db
    ensures Sound(db.Contents())
    ensures Extends(old(db.Contents()), db.Contents())
    ensures old(OwnProject(db.Contents(), user, position)) ==> db.Explains(Succeeds(r))
    // nothing is prepared twice, so nothing can go wrong
    ensures old(AlreadyPrepared(db.Contents(), user, position)) ==>
      r.Returned? && db.disturbances == old(db.disturbances)
    ensures db.Explains(true)
    ensures r.Returned? && !r.value.kind.Error? ==>
      && db.row.Some?
      && (At(position, ProjectTasks) in db.row.value.results
          || (Prepared(position) in db.row.value.results && db.row.value.results[Prepared(position)] == r.value))
    ensures stored.Some? ==> PreparationOf(db.Contents(), position) == stored
    ensures Succeeds(r) && At(position, ProjectTasks) !in db.row.value.results ==>
      if stored.Some? then r.value == stored.value else prepare == Returns(r.value)
  {
    Interfere(db);
    stored := PreparationOf(db.Contents(), position);
    var found := FindPrepared(db.Contents(), user, position);
    if found.Some? { return found.value, stored; }
    db.Notice(prepare.Returns? && !prepare.result.kind.Error?);
    match prepare
    case Raises => return Raised, stored;
    case Returns(result) =>
      if result.kind.Error? { return Returned(result), stored; }
      r, stored := SaveAmongOthers(db, user, position, result);
  }

  method SaveAmongOthers(db: Database, user: int, position: nat, prepared: Result)
    returns (r: Outcome<Result>, ghost stored: Option<Result>)
    requires Sound(db.Contents()) && !prepared.kind.Error?
    modifies db
    ensures Sound(db.Contents())
    ensures Extends(old(db.Contents()), db.Contents())
    ensures old(OwnProject(db.Contents(), user, position)) ==> db.Explains(Succeeds(r))
    ensures db.Explains(true)
    ensures r.Returned? ==>
      db.row.Some? && Prepared(position) in db.row.value.results && db.row.value.results[Prepared(position)] == r.value
    ensures stored.Some? ==> PreparationOf(db.Contents(), position) == stored
    ensures r.Returned? ==> r.value == if stored.Some? then stored.value else prepared
  {
    Interfere(db);
    stored := PreparationOf(db.Contents(), position);
    var fate: WriteFate := *;
    db.Notice(fate.Written?);
    StepIsSound(db.Contents(), PrepareEvent(user, position, prepared, fate));
    var saved := SavePrepared(db.Contents(), user, position, prepared, fate);
    db.row := saved.0.row;
    r := saved.1;
  }

  /** `_present_created_project` */
  method PresentCreatedProject(db: Database, user: int, position: nat) returns (r: Outcome<Result>)
    requires Sound(db.Contents())
    requires db.row.Some? && At(position, Effect) in db.row.value.results
    modifies db
    ensures Sound(db.Contents())
    ensures Extends(old(db.Contents()), db.Contents())
    ensures old(OwnProject(db.Contents(), user, position)) ==> db.Explains(Succeeds(r) || Abandons(db.Contents()))
    ensures db.Explains(true)
    ensures r.Returned? && !r.value.kind.Error? ==> Settled(db.Contents(), position)
  {
    var prepare: Ending := *;
    var answer, _ := PrepareProject(db, user, position, prepare);
    if !Succeeds(answer) || !answer.value.titles { return answer; }
    r := RunAmongOthers(db, user, position, ProjectTasks);
  }

  /** `persist_plan`; `stored` is the plan it found. */
  method PersistAmongOthers(db: Database, user: int, proposed: seq<int>)
    returns (r: Outcome<seq<int>>, ghost stored: Option<seq<int>>)
    requires Sound(db.Contents())
    modifies db
    ensures Sound(db.Contents())
    ensures Extends(old(db.Contents()), db.Contents())
    ensures old(PlanOf(db.Contents())).Some? ==> stored == old(PlanOf(db.Contents()))
    ensures stored.Some? ==> PlanOf(db.Contents()) == stored
    ensures r.Returned? ==> r.value == (if stored.Some? then stored.value else proposed)
    ensures r.Returned? ==> PlanOf(db.Contents()) == Some(r.value)
    ensures old(OwnRow(db.Contents(), user)).Some? ==> db.Explains(r.Returned?)
    ensures db.Explains(true)
  {
    Interfere(db);
    stored := PlanOf(db.Contents());
    var fate: WriteFate := *;
    db.Notice(fate.Written?);
    StepIsSound(db.Contents(), PersistEvent(user, proposed, fate));
    var persisted := PersistPlan(db.Contents(), user, proposed, fate);
    db.row := persisted.0.row;
    r := persisted.1;
  }

  /** One turn of the loop over the plan; a raising action counts as an error. */
  method PresentAction(db: Database, user: int, position: nat) returns (r: Outcome<bool>)
    requires Sound(db.Contents())
    modifies db
    ensures Sound(db.Contents())
    ensures Extends(old(db.Contents()), db.Contents())
    ensures r == Returned(true) ==> Settled(db.Contents(), position)
    ensures old(Runnable(db.Contents(), user, position, Effect)) ==>
      db.Explains(r == Returned(true) || Abandons(db.Contents()))
    ensures db.Explains(true)
  {
    var executed := RunAmongOthers(db, user, position, Effect);
    if executed.Died? { return Died; }
    if executed.Raised? || executed.value.kind.Error? { return Returned(false); }
    if executed.value.kind.ProjectCreated? {
      var presented :- PresentCreatedProject(db, user, position);
      return Returned(!presented.kind.Error?);
    }
    return Returned(true);
  }

  /** `_present_tool_calls`: true means the request counts as completed. The plan
      that is run is the stored one, or else the proposed one; it completes unless
      something goes wrong or the request is closed. */
  method PresentToolCalls(db: Database, user: int, proposed: seq<int>)
    returns (r: Outcome<bool>, ghost stored: Option<seq<int>>)
    requires Sound(db.Contents())
    modifies db
    ensures Sound(db.Contents())
    ensures Extends(old(db.Contents()), db.Contents())
    ensures old(PlanOf(db.Contents())).Some? ==> stored == old(PlanOf(db.Contents()))
    ensures stored.Some? ==> PlanOf(db.Contents()) == stored
    ensures r.Returned? ==> PlanOf(db.Contents()) == if stored.Some? then stored else Some(proposed)
    ensures r == Returned(true) ==>
      forall p: nat :: p < |db.row.value.plan.value| ==> Settled(db.Contents(), p)
    ensures old(OwnRow(db.Contents(), user)).Some? ==> db.Explains(r == Returned(true) || Abandons(db.Contents()))
  {
    var persisted;
    persisted, stored := PersistAmongOthers(db, user, proposed);
    if !persisted.Returned? { return persisted.PropagateFailure(), stored; }
    r := PresentAll(db, user, persisted.value);
  }

  /** The loop over the plan. */
  method PresentAll(db: Database, user: int, calls: seq<int>) returns (r: Outcome<bool>)
    requires Sound(db.Contents()) && PlanOf(db.Contents()) == Some(calls)
    modifies db
    ensures Sound(db.Contents())
    ensures Extends(old(db.Contents()), db.Contents())
    ensures r == Returned(true) ==> forall p: nat :: p < |calls| ==> Settled(db.Contents(), p)
    ensures old(OwnRow(db.Contents(), user)).Some? ==> db.Explains(r == Returned(true) || Abandons(db.Contents()))
    ensures db.Explains(true)
  {
    var retryable := false;
    for position := 0 to |calls|
      invariant Sound(db.Contents())
      invariant Extends(old(db.Contents()), db.Contents())
      invariant PlanOf(db.Contents()) == Some(calls)
      invariant !retryable ==> forall p: nat :: p < position ==> Settled(db.Contents(), p)
      invariant old(OwnRow(db.Contents(), user)).Some? ==> db.Explains(!retryable || Abandons(db.Contents()))
      invariant db.Explains(true)
    {
      ghost var before := db.Contents();
      var presented :- PresentAction(db, user, position);
      retryable := retryable || !presented;
      if !retryable {
        forall p: nat | p < position ensures Settled(db.Contents(), p) {
          SettledStays(before, db.Contents(), p);
        }
      }
    }
    return Returned(!retryable);
  }
}
