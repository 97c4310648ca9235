/** `_activate`, `_restore`, `_deploy`, `_recover` and their callers in
    bot/operations/maintenance.py, and every sequence of operator runs. */
module MaintenanceProtocol {
  import opened Outcomes
  import opened Maintenance
  import opened MaintenancePort

  /** The calls of a successful restore up to its admission. */
  function CheckCalls(log: Log): Log {
    log.Then(Call.AssertFrozen).Then(Call.VerifyDump).Then(Call.AssertUnchanged)
  }

  function BuildCalls(log: Log): Log {
    log.Then(Call.Save(Restoring)).Then(Call.RestoreSeparate).Then(Call.Save(RestoredDatabase))
       .Then(Call.ValidatePrevious).Then(Call.AssertFrozen)
  }

  /** The calls of a successful deployment up to its admission, stage by stage. */
  function FreezeCalls(log: Log): Log {
    log.Then(Call.Save(Freezing)).Then(Call.Freeze).Then(Call.AssertFrozen).Then(Call.Save(Phase.Frozen))
  }

  function CreateCalls(log: Log): Log {
    log.Then(Call.TakeSnapshot).Then(Call.VerifyDump).Then(Call.Save(SnapshotCreated))
  }

  function SnapshotCalls(log: Log): Log {
    CreateCalls(log)
       .Then(Call.VerifyRestore).Then(Call.AssertFrozen).Then(Call.Save(SnapshotVerified))
  }

  function MigrateCalls(log: Log): Log {
    log.Then(Call.Save(Migrating)).Then(Call.Migrate).Then(Call.Save(ValidatingCandidate))
       .Then(Call.ValidateCandidate).Then(Call.AssertFrozen).Then(Call.AssertUnchanged)
  }

  function AdmissionCalls(log: Log, release: Release, database: Option<Database>): Log {
    log.Then(Call.Save(AdmissionStarted)).Then(Call.Activate(release, database))
       .Then(Call.Load).Then(Call.Load).Then(Call.Save(Final(release)))
  }

  function Final(release: Release): Phase {
    if release.Candidate? then Deployed else RestoredPrevious
  }

  /** `_activate` */
  method Admit(port: Port, journal: Journal, release: Release, database: Option<Database>)
    returns (r: Outcome<Phase>)
    requires port.journal == journal && port.Valid() && journal.record.phase.Some?
    requires !journal.host.activated && journal.host.service.None?
    modifies port`expected, port`identified, port`sourceLease, port`targetDatabase, journal`record
    modifies journal.host`disk, journal.host`service, journal.host`tables, journal.host`accepted
    modifies journal.host`admission, journal.host`log, journal.host`activated
    modifies journal.host`haltFailed, journal.host`disturbances
    ensures port.Valid() && journal.record.phase.Some?
    ensures journal.host.haltFailed == old(journal.host.haltFailed) || !r.Returned?
    ensures journal.host.Explains(r.Returned? || !old(port.sourceLease && port.Ready(release, database)))
    ensures old(journal.host.disk).Some? ==> journal.host.disk.Some?
    ensures Permits(journal.host.disk) ==> port.sourceLease == old(port.sourceLease)
    ensures r.Returned? ==>
      && r.value == Final(release)
      && journal.host.log == AdmissionCalls(old(journal.host.log), release, database)
      && journal.host.activated && journal.host.service == (if release.Candidate? then Some(Source) else database)
      && journal.host.disk == Some(journal.record)
      && journal.record.phase == Some(Final(release)) && !journal.record.rollbackPermitted
  {
    var _ :- journal.Save(AdmissionStarted, journal.record.(
      rollbackPermitted := false, activatingRelease := Some(release), activatingDatabase := database));
    var _ :- port.Activate(release, database);
    var _ :- journal.Save(Final(release), journal.record);
    return Returned(Final(release));
  }

  /** The first half of `_restore`: service, dump and source are as recorded. */
  method CheckRestorable(port: Port, journal: Journal) returns (r: Outcome<Snapshot>)
    requires port.journal == journal && port.Valid() && journal.record.phase.Some?
    requires journal.record.rollbackPermitted
    modifies port, journal.host
    ensures journal.host.restoring == old(journal.host.restoring)
    ensures port.Valid() && journal.record.phase.Some? && journal.record.rollbackPermitted
    ensures journal.host.haltFailed == old(journal.host.haltFailed)
    ensures port.sourceLease == old(port.sourceLease)
    ensures journal.host.Explains(r.Returned? || !port.sourceLease)
    ensures r.Returned? ==>
      && Some(r.value) == journal.record.snapshot
      && journal.host.log == CheckCalls(old(journal.host.log))
  {
    var _ :- port.AssertFrozen();
    if journal.record.snapshot.None? { return Raised; }
    var snapshot := journal.record.snapshot.value;
    var _ :- port.VerifyDump(snapshot);
    var _ :- port.AssertUnchanged(snapshot);
    return Returned(snapshot);
  }

  /** The second half of `_restore`, up to its admission. */
  method BuildRestored(port: Port, journal: Journal, snapshot: Snapshot) returns (r: Outcome<Database>)
    requires port.journal == journal && port.Valid() && journal.record.phase.Some?
    requires journal.record.rollbackPermitted && Some(snapshot) == journal.record.snapshot
    modifies port, journal, journal.host
    ensures journal.host.restoring == old(journal.host.restoring)
    ensures port.Valid() && journal.record.phase.Some? && journal.record.rollbackPermitted
    ensures journal.host.haltFailed == old(journal.host.haltFailed)
    ensures port.sourceLease == old(port.sourceLease)
    ensures journal.host.Explains(r.Returned? || !port.sourceLease)
    ensures r.Returned? ==> port.Ready(Previous, Some(r.value))
    ensures r.Returned? ==> journal.host.log == BuildCalls(old(journal.host.log))
  {
    var _ :- journal.Save(Restoring, journal.record);
    var database :- port.RestoreSeparate(snapshot);
    var _ :- journal.Save(RestoredDatabase, journal.record.(restoredDatabase := Some(database)));
    var _ :- port.ValidatePrevious(database);
    var _ :- port.AssertFrozen();
    return Returned(database);
  }

  /** `_restore` */
  method Restore(port: Port, journal: Journal) returns (r: Outcome<Phase>)
    requires port.journal == journal && port.Valid() && journal.record.phase.Some?
    modifies port, journal, journal.host
    ensures port.Valid() && journal.record.phase.Some?
    ensures journal.host.haltFailed == old(journal.host.haltFailed) || !r.Returned?
    ensures journal.host.restoring == (old(journal.host.restoring) || old(journal.record).rollbackPermitted)
    ensures !old(journal.record).rollbackPermitted ==>
      r.Raised? && journal.host.log == old(journal.host.log)
    ensures journal.host.Explains(r.Returned? || !old(port.sourceLease && journal.record.rollbackPermitted))
    ensures r.Returned? ==>
      && r.value == RestoredPrevious
      && journal.host.service.Some? && journal.host.activated
      && journal.host.log == AdmissionCalls(BuildCalls(CheckCalls(old(journal.host.log))), Previous, journal.host.service)
      && journal.host.disk == Some(journal.record) && journal.record.phase == Some(RestoredPrevious)
  {
    if !journal.record.rollbackPermitted || !journal.record.snapshotVerified { return Raised; }
    journal.host.restoring := true;
    var snapshot :- CheckRestorable(port, journal);
    var database :- BuildRestored(port, journal, snapshot);
    r := Admit(port, journal, Previous, Some(database));
  }

  /** The first stage of a deployment: the service is gone, the lease held. */
  method FreezeService(port: Port, journal: Journal) returns (r: Outcome<()>)
    requires port.journal == journal && port.Valid()
    requires journal.host.disk == Some(journal.record)
    requires !journal.host.activated && !journal.host.migrated && port.backup.None?
    requires !journal.record.rollbackPermitted && !journal.record.snapshotVerified
    modifies port, journal, journal.host
    ensures port.Valid() && !journal.host.activated && !journal.host.migrated
    ensures r.Returned? ==> !journal.host.haltFailed
    ensures journal.host.Explains(r.Returned?)
    ensures journal.host.disk.Some? && !Permits(journal.host.disk) && (r.Returned? ==> port.sourceLease)
    ensures r.Returned? ==>
      && journal.host.service.None? && port.backup.None?
      && journal.host.log == FreezeCalls(old(journal.host.log))
      && journal.host.disk == Some(journal.record) && journal.record == old(journal.record).(phase := Some(Phase.Frozen))
  {
    var _ :- journal.Save(Freezing, journal.record);
    var _ :- port.Freeze();
    var _ :- port.AssertFrozen();
    var _ :- journal.Save(Phase.Frozen, journal.record);
    return Returned(());
  }

  /** The second stage: rollback becomes permitted only with a rehearsed,
      durable snapshot of every accepted write. */
  method SecureSnapshot(port: Port, journal: Journal) returns (r: Outcome<Snapshot>)
    requires port.journal == journal && port.Valid()
    requires journal.host.disk == Some(journal.record)
    requires !journal.host.activated && !journal.host.migrated && journal.host.service.None?
    requires !journal.record.rollbackPermitted && !journal.record.snapshotVerified
    modifies port, journal, journal.host
    ensures port.Valid() && !journal.host.activated && !journal.host.migrated
    ensures journal.host.haltFailed == old(journal.host.haltFailed)
    ensures journal.host.disk.Some?
    ensures port.sourceLease == old(port.sourceLease)
    ensures journal.host.Explains(r.Returned? || !port.sourceLease)
    ensures r.Returned? ==> port.backup == Some(r.value)
    ensures r.Returned? ==>
      && journal.host.service.None?
      && journal.host.log == SnapshotCalls(old(journal.host.log))
      && journal.host.disk == Some(journal.record) && r.value.guard == journal.host.accepted
      && journal.record == old(journal.record).(
           phase := Some(SnapshotVerified), snapshot := Some(r.value), snapshotVerified := true, rollbackPermitted := true)
  {
    var snapshot :- CreateSnapshot(port, journal);
    var _ :- port.VerifyRestore(snapshot);
    var _ :- port.AssertFrozen();
    var _ :- journal.Save(SnapshotVerified, journal.record.(snapshotVerified := true, rollbackPermitted := true));
    return Returned(snapshot);
  }

  /** Dump, checksum, record. */
  method CreateSnapshot(port: Port, journal: Journal) returns (r: Outcome<Snapshot>)
    requires port.journal == journal && port.Valid()
    requires journal.host.disk == Some(journal.record)
    requires !journal.host.activated && !journal.host.migrated && journal.host.service.None?
    requires !journal.record.rollbackPermitted
    modifies port`backup, journal`record
    modifies journal.host`tables, journal.host`accepted, journal.host`disk, journal.host`log, journal.host`disturbances
    ensures port.Valid() && journal.host.disk.Some?
    ensures journal.host.Explains(r.Returned? || !port.sourceLease)
    ensures r.Returned? ==>
      && journal.host.log == CreateCalls(old(journal.host.log)) && port.backup == Some(r.value)
      && journal.host.disk == Some(journal.record) && r.value.guard == journal.host.accepted
      && journal.record == old(journal.record).(phase := Some(SnapshotCreated), snapshot := Some(r.value))
  {
    var snapshot :- port.TakeSnapshot();
    var _ :- port.VerifyDump(snapshot);
    var _ :- journal.Save(SnapshotCreated, journal.record.(snapshot := Some(snapshot)));
    return Returned(snapshot);
  }

  /** The third stage: the source may now change, but its data must not. */
  method MigrateSource(port: Port, journal: Journal, snapshot: Snapshot) returns (r: Outcome<()>)
    requires port.journal == journal && port.Valid()
    requires journal.host.disk == Some(journal.record)
    requires !journal.host.activated && !journal.host.migrated
    requires journal.record.rollbackPermitted && journal.record.snapshot == Some(snapshot)
    modifies port, journal, journal.host
    ensures port.Valid() && !journal.host.activated
    ensures journal.host.haltFailed == old(journal.host.haltFailed)
    ensures journal.host.disk.Some?
    ensures port.sourceLease == old(port.sourceLease) && port.backup == old(port.backup)
    ensures journal.host.Explains(r.Returned? || !port.sourceLease)
    ensures r.Returned? ==>
      && journal.host.service.None? && journal.record.phase.Some?
      && journal.host.tables[Source] == journal.host.accepted
      && journal.host.log == MigrateCalls(old(journal.host.log))
  {
    var _ :- journal.Save(Migrating, journal.record);
    var _ :- port.Migrate();
    var _ :- journal.Save(ValidatingCandidate, journal.record);
    var _ :- port.ValidateCandidate();
    var _ :- port.AssertFrozen();
    var _ :- port.AssertUnchanged(snapshot);
    return Returned(());
  }

  /** The guarded part of `_deploy`, up to its exception handler. */
  method DeployCandidate(port: Port, journal: Journal) returns (r: Outcome<Phase>)
    requires port.journal == journal && port.Valid()
    requires journal.host.disk == Some(journal.record)
    requires !journal.host.activated && !journal.host.migrated && port.backup.None?
    requires !journal.record.rollbackPermitted && !journal.record.snapshotVerified
    modifies port, journal, journal.host
    ensures port.Valid()
    ensures r.Returned? ==> !journal.host.haltFailed
    // a deployment that nothing disturbs succeeds
    ensures journal.host.Explains(r.Returned?)
    ensures journal.host.disk.Some? && (Permits(journal.host.disk) ==> port.sourceLease)
    ensures r.Returned? ==>
      && r.value == Deployed && journal.host.activated
      && journal.host.service == Some(Source)
      && journal.host.log == AdmissionCalls(MigrateCalls(SnapshotCalls(FreezeCalls(old(journal.host.log)))), Candidate, None)
      && journal.host.disk == Some(journal.record) && journal.record.phase == Some(Deployed)
  {
    journal.host.guarded := true;
    var _ :- FreezeService(port, journal);
    var snapshot :- SecureSnapshot(port, journal);
    var _ :- MigrateSource(port, journal, snapshot);
    r := Admit(port, journal, Candidate, None);
  }

  /** `_deploy`. A raised candidate is judged by the reloaded journal only. */
  method DeployJournaled(port: Port, journal: Journal)
    returns (r: Outcome<Phase>, ghost failure: Option<Failure>)
    requires port.journal == journal && port.Valid()
    requires journal.record == EMPTY_RECORD && port.backup.None?
    requires !journal.host.guarded && !journal.host.haltFailed
    modifies port, journal, journal.host
    ensures port.Valid()
    ensures r.Returned? ==> !journal.host.haltFailed
    ensures journal.host.Explains(true)
    // a deployment that nothing disturbs succeeds
    ensures old(journal.host.disk).None? ==> journal.host.Explains(r == Returned(Deployed))
    // a failed one restores if the journal file permits it, and is marked otherwise
    ensures r.Raised? && journal.host.guarded ==> failure.Some?
    ensures HandledAsRecorded(journal.host, failure, r)
    ensures old(journal.host.disk).Some? ==>
      r.Raised? && journal.host.log == old(journal.host.log) && journal.host.admission == old(journal.host.admission)
    ensures r.Returned? ==>
      && old(journal.host.disk).None?
      && journal.host.disk.Some? && journal.host.disk.value.phase == Some(r.value)
      && journal.host.service.Some? && journal.host.activated
    ensures r == Returned(Deployed) ==>
      && journal.host.service == Some(Source)
      && journal.host.log == AdmissionCalls(MigrateCalls(SnapshotCalls(FreezeCalls(
           old(journal.host.log).Then(Call.Validate).Then(Call.Save(Prepared))))), Candidate, None)
    ensures r.Returned? ==> r.value == Deployed || r.value == RestoredPrevious
    ensures r.Raised? ==>
      || journal.host.service.None?
      || journal.host.haltFailed
      || !journal.host.guarded
  {
    var host := journal.host;
    failure := None;
    if host.disk.Some? { return Raised, failure; }
    var identity :- port.Validate();
    var _ :- journal.Save(Prepared, journal.record.(
      identity := Some(identity), rollbackPermitted := false, snapshotVerified := false));
    var attempt := DeployCandidate(port, journal);
    if !attempt.Raised? { return attempt, failure; }
    failure := Some(Failure(host.disk, host.disturbances));
    r := HandleFailedDeploy(port, journal);
  }

  /** The exception handler of `_deploy`: reload durable state first, because a
      save that raised may have reached the disk. */
  method HandleFailedDeploy(port: Port, journal: Journal) returns (r: Outcome<Phase>)
    requires port.journal == journal && port.Valid()
    modifies port, journal, journal.host
    ensures port.Valid()
    ensures r.Returned? ==> !journal.host.haltFailed
    ensures journal.host.Explains(true)
    ensures old(Permits(journal.host.disk)) && old(port.sourceLease) ==> journal.host.Explains(r.Returned?)
    ensures old(journal.host.disk).Some? && !old(Permits(journal.host.disk)) ==>
      journal.host.Explains(r.Raised? && Marked(journal.host))
    ensures r.Returned? ==>
      && r.value == RestoredPrevious
      && journal.host.disk.Some? && journal.host.disk.value.phase == Some(RestoredPrevious)
      && journal.host.service.Some? && journal.host.activated
      && journal.host.log == AdmissionCalls(BuildCalls(CheckCalls(
           old(journal.host.log).Then(Call.Halt).Then(Call.Load))), Previous, journal.host.service)
    // only the durable journal decides whether the rollback is attempted
    ensures old(journal.host.disk).None? || !old(journal.host.disk).value.rollbackPermitted ==>
      !r.Returned? && journal.host.restoring == old(journal.host.restoring)
    ensures old(journal.host.disk).Some? && old(journal.host.disk).value.rollbackPermitted && r.Raised? ==>
      || journal.host.restoring
      || journal.host.log == old(journal.host.log).Then(Call.Halt)
      || journal.host.log == old(journal.host.log).Then(Call.Halt).Then(Call.Load)
    ensures r.Raised? ==> journal.host.service.None? || journal.host.haltFailed
  {
    var _ :- port.Halt();
    var _ :- journal.Load();
    if journal.record.rollbackPermitted {
      var recovery := Restore(port, journal);
      if !recovery.Raised? { return recovery; }
    }
    r := HaltAndMark(port, journal);
  }

  /** How every handler ends: halted, marked for the operator, raised again. */
  method HaltAndMark(port: Port, journal: Journal) returns (r: Outcome<Phase>)
    requires port.journal == journal && port.Valid()
    requires journal.record.phase.Some?
    modifies port, journal, journal.host
    ensures port.Valid() && !r.Returned?
    ensures journal.host.restoring == old(journal.host.restoring)
    ensures journal.host.Explains(r.Raised? && Marked(journal.host))
    ensures r.Raised? ==>
      || journal.host.log == old(journal.host.log).Then(Call.Halt)
      || journal.host.log == old(journal.host.log).Then(Call.Halt).Then(Call.Save(RecoveryRequired))
    ensures r.Raised? ==> journal.host.service.None? || journal.host.haltFailed
  {
    var _ :- port.Halt();
    var _ :- journal.Save(RecoveryRequired, journal.record);
    return Raised;
  }

  /** `_recover` */
  method RecoverJournaled(port: Port, journal: Journal) returns (r: Outcome<Phase>)
    requires port.journal == journal && port.Valid()
    requires journal.record == EMPTY_RECORD
    requires !journal.host.guarded && !journal.host.haltFailed
    modifies port, journal, journal.host
    ensures port.Valid()
    ensures r.Returned? ==> !journal.host.haltFailed
    ensures journal.host.Explains(true)
    // a permitted recovery that nothing disturbs succeeds
    ensures old(Recoverable(journal.host)) ==> journal.host.Explains(r == Returned(RestoredPrevious))
    // for another identity than the journaled one nothing is touched
    ensures (old(Permits(journal.host.disk)) && !old(Recoverable(journal.host))
             && journal.host.disturbances == old(journal.host.disturbances)) ==>
      && r.Raised? && journal.host.log == old(journal.host.log).Then(Call.Load).Then(Call.Validate)
      && journal.host.admission == old(journal.host.admission) && !journal.host.guarded
    ensures old(journal.host.disk).None? || !old(journal.host.disk).value.rollbackPermitted ==>
      && !r.Returned? && journal.host.log == old(journal.host.log).Then(Call.Load)
      && journal.host.admission == old(journal.host.admission)
    ensures r.Returned? ==>
      && r.value == RestoredPrevious
      && journal.host.service.Some? && journal.host.activated
      && journal.host.log == AdmissionCalls(BuildCalls(CheckCalls(
           old(journal.host.log).Then(Call.Load).Then(Call.Validate).Then(Call.Freeze))), Previous, journal.host.service)
      && journal.host.disk == Some(journal.record) && journal.record.phase == Some(RestoredPrevious)
    ensures r.Raised? ==>
      || journal.host.service.None?
      || journal.host.haltFailed
      || !journal.host.guarded
  {
    var _ :- journal.Load();
    var record := journal.record;
    if !record.rollbackPermitted || !record.snapshotVerified { return Raised; }
    var identity :- port.Validate();
    if record.identity != Some(identity) { return Raised; }
    var attempt := FreezeAndRestore(port, journal);
    if !attempt.Raised? { return attempt; }
    r := HaltAndMark(port, journal);
  }

  /** The guarded part of `_recover`. */
  method FreezeAndRestore(port: Port, journal: Journal) returns (r: Outcome<Phase>)
    requires port.journal == journal && port.Valid() && journal.record.phase.Some?
    modifies port, journal, journal.host
    ensures port.Valid() && journal.record.phase.Some?
    ensures r.Returned? ==> !journal.host.haltFailed
    ensures journal.host.Explains(r.Returned? || !old(journal.record).rollbackPermitted)
    ensures r.Raised? ==>
      || journal.host.restoring == (old(journal.host.restoring) || old(journal.record).rollbackPermitted)
      || journal.host.log == old(journal.host.log).Then(Call.Freeze)
    ensures r.Returned? ==>
      && r.value == RestoredPrevious
      && journal.host.service.Some? && journal.host.activated
      && journal.host.log == AdmissionCalls(BuildCalls(CheckCalls(old(journal.host.log).Then(Call.Freeze))), Previous, journal.host.service)
      && journal.host.disk == Some(journal.record) && journal.record.phase == Some(RestoredPrevious)
  {
    journal.host.guarded := true;
    var _ :- port.Freeze();
    r := Restore(port, journal);
  }

  /** The operator has to reconcile a halted service. */
  ghost predicate Marked(host: Host)
    reads host`disk, host`service
  {
    host.service.None? && host.disk.Some? && host.disk.value.phase == Some(RecoveryRequired)
  }

  predicate Permits(disk: Option<Record>) {
    disk.Some? && disk.value.rollbackPermitted
  }

  /** The journal file permits the restore, for the releases and the source that
      are still installed. */
  ghost predicate Recoverable(host: Host)
    reads host`disk
  {
    Permits(host.disk) && host.disk.value.identity == Some(host.identity)
  }

  /** The journal file and the disturbances so far when a deployment failed. */
  datatype Failure = Failure(disk: Option<Record>, disturbances: nat)

  /** Unless something goes wrong again, a failed deployment ends as its journal
      file decided. */
  ghost predicate HandledAsRecorded(host: Host, failure: Option<Failure>, r: Outcome<Phase>)
    reads host`disturbances, host`disk, host`service
  {
    failure.Some? && host.disturbances <= failure.value.disturbances ==>
      if Permits(failure.value.disk) then r == Returned(RestoredPrevious) else r.Raised? && Marked(host)
  }

  datatype Run = DeployRun | RecoverRun

  /** The run of one process up to its close: fresh memory and a fresh port. */
  method Perform(host: Host, run: Run) returns (port: Port, r: Outcome<Phase>, ghost failure: Option<Failure>)
    requires host.Valid()
    modifies host
    ensures fresh(port) && port.host == host && port.Valid()
    ensures host.Explains(true)
    ensures run.DeployRun? && old(host.disk).None? ==> host.Explains(r == Returned(Deployed))
    ensures run.RecoverRun? && old(Recoverable(host)) ==> host.Explains(r == Returned(RestoredPrevious))
    ensures (run.RecoverRun? && old(Permits(host.disk)) && !old(Recoverable(host))
             && host.disturbances == old(host.disturbances)) ==>
      r.Raised? && host.admission == old(host.admission) && !host.guarded
    ensures run.DeployRun? ==> HandledAsRecorded(host, failure, r)
    ensures run.DeployRun? && r.Raised? && host.guarded ==> failure.Some?
    ensures old(host.activated) ==> !r.Returned? && host.admission == old(host.admission)
    ensures r.Returned? ==> host.service.Some? && host.activated && !host.haltFailed
    ensures r.Raised? && host.guarded && !host.haltFailed ==> host.service.None?
  {
    host.guarded, host.restoring, host.haltFailed := false, false, false;
    var journal := new Journal(host);
    port := new Port(journal);
    failure := None;
    if run.DeployRun? {
      r, failure := DeployJournaled(port, journal);
    } else {
      r := RecoverJournaled(port, journal);
    }
  }

  /** `deploy` or `recover` as one operator process: the port is always closed, and
      a close that raises turns success into failure. `body` is how the run ended
      before the close: a failing run leaves the service running exactly when its
      body had succeeded, unless its last halt failed or it never entered the part
      whose handler halts. */
  method Process(host: Host, run: Run)
    returns (r: Outcome<Phase>, closeFailed: bool, ghost body: Outcome<Phase>, ghost failure: Option<Failure>)
    requires host.Valid()
    modifies host
    ensures host.Valid()
    // what nothing disturbs succeeds
    ensures run.DeployRun? && old(host.disk).None? ==> host.Explains(r == Returned(Deployed))
    ensures run.RecoverRun? && old(Recoverable(host)) ==> host.Explains(r == Returned(RestoredPrevious))
    ensures (run.RecoverRun? && old(Permits(host.disk)) && !old(Recoverable(host))
             && host.disturbances == old(host.disturbances)) ==>
      r.Raised? && host.admission == old(host.admission) && !host.guarded
    ensures run.DeployRun? ==> HandledAsRecorded(host, failure, body)
    ensures run.DeployRun? && body.Raised? && host.guarded ==> failure.Some?
    ensures old(host.activated) ==> !r.Returned? && !body.Returned? && host.admission == old(host.admission)
    ensures r.Returned? ==> body == r
    ensures body.Returned? ==>
      && host.service.Some? && host.activated && !host.haltFailed
      && host.tables[host.service.value] == host.accepted
    ensures r.Raised? ==> body.Raised? || (closeFailed && body.Returned?)
    ensures r.Raised? && host.guarded && !host.haltFailed ==> (host.service.Some? <==> closeFailed && body.Returned?)
  {
    var port;
    port, r, failure := Perform(host, run);
    body := r;
    var closed: Outcome<()> := if r.Died? then Died else Returned(());
    if !r.Died? {
      closed := port.Close();
    }
    closeFailed := closed.Raised?;
    r := match closed case Returned(_) => r case Raised => Raised case Died => Died;
  }

  /** Any number of deploy and recover processes, in any order, each ending
      anywhere, with users writing whenever the service runs. */
  method Operate(host: Host, runs: seq<Run>)
    requires host.Valid() && host.disk.None? && host.log == Start && host.admission.None?
    modifies host
    ensures host.Valid()
    ensures AdmissionIsFinal(host.log.Calls())
    ensures host.admission.Some? ==> GoodAdmission(host.admission.value)
    ensures host.service.Some? ==>
      host.service.value in host.tables && host.tables[host.service.value] == host.accepted
    ensures host.Preserved()
  {
    for i := 0 to |runs|
      invariant host.Valid()
    {
      host.Traffic();
      var _, _, _, _ := Process(host, runs[i]);
    }
    host.Traffic();
    LegalLogMeansFinal(host.log);
  }
}
