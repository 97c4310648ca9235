/** The concrete maintenance port: bot/operations/maintenance_deploy.py over the
    launchd control of bot/operations/maintenance_launchd.py. */
module MaintenancePort {
  import opened Outcomes
  import opened Maintenance

  /** What the journal file must say before a release may start on a database. */
  predicate Admits(disk: Option<Record>) {
    disk.Some? && disk.value.phase == Some(AdmissionStarted) && !disk.value.rollbackPermitted
  }

  predicate Launches(disk: Option<Record>, release: Release, target: Option<Database>) {
    && Admits(disk)
    && disk.value.activatingRelease == Some(release)
    && target == if release.Candidate? then Some(Source) else disk.value.activatingDatabase
  }

  function Target(release: Release, database: Option<Database>): Option<Database> {
    if release.Candidate? then Some(Source) else database
  }

  class Port {
    const host: Host
    const journal: Journal
    var expected: Option<Identity>
    var sourceLease: bool
    var targetDatabase: Option<Database>   // set exactly while its lease is held
    var backup: Option<Snapshot>
    var created: set<Database>
    ghost var identified: nat              // identity checks that passed

    constructor (journal: Journal)
      ensures this.journal == journal && host == journal.host
      ensures backup.None? && created == {}
    {
      this.journal, host := journal, journal.host;
      expected, sourceLease, targetDatabase, backup, created := None, false, None, None, {};
      identified := 0;
    }

    /** Until an activation, a remembered backup equals every accepted write. */
    ghost predicate Valid()
      reads this, journal, host, journal.host
    {
      && journal.host == host
      && journal.Valid()
      && (backup.Some? && !host.activated ==> host.service.None? && backup.value.guard == host.accepted)
      && Source !in created
    }

    /** The port took the snapshot and, for the previous release, validated and
        leased the restored database. */
    ghost predicate Ready(release: Release, database: Option<Database>)
      reads this, host
    {
      && backup.Some?
      && if release.Candidate? then database.None? else
           && database.Some? && database == targetDatabase
           && database.value in host.tables && host.tables[database.value] == backup.value.guard
    }

    /** The identity check repeated by almost every port call. */
    method CheckIdentity() returns (r: Outcome<Identity>)
      requires Valid()
      modifies this`expected, this`identified, host`tables, host`accepted, host`disturbances
      ensures Valid()
      ensures host.Explains(r.Returned?)
      ensures r.Returned? ==> identified == old(identified) + 1
      ensures host.service.None? ==> host.tables == old(host.tables) && host.accepted == old(host.accepted)
      ensures r.Returned? ==> expected == Some(r.value)
      ensures host.disturbances == old(host.disturbances) ==> r == Returned(host.identity)
      ensures r.Returned? && old(expected).Some? ==> expected == old(expected)
    {
      host.Traffic();
      var fate := host.Effect();
      if fate.Dies? { return Died; }
      var observed: Identity := *;
      host.Notice(observed == host.identity && (expected.None? || expected.value == observed));
      if fate.Fails? || (expected.Some? && expected.value != observed) { return Raised; }
      expected, identified := Some(observed), identified + 1;
      return Returned(observed);
    }

    method Validate() returns (r: Outcome<Identity>)
      requires Valid()
      modifies this`expected, this`identified, host`tables, host`accepted, host`log, host`disturbances
      ensures Valid()
      ensures host.Explains(r.Returned?)
      ensures r.Returned? ==> identified == old(identified) + 1
      ensures host.log == old(host.log).Then(Call.Validate)
      ensures host.disturbances == old(host.disturbances) ==> r == Returned(host.identity)
      ensures host.service.None? ==> host.tables == old(host.tables) && host.accepted == old(host.accepted)
    {
      host.Log(Call.Validate);
      r := CheckIdentity();
    }

    /** Disable and remove the service; only a return proves it is gone. */
    method LaunchdHalt() returns (r: Outcome<()>)
      requires Valid()
      modifies host`service, host`tables, host`accepted, host`haltFailed, host`disturbances
      ensures Valid()
      ensures host.Explains(r.Returned?)
      ensures r.Returned? ==> host.service.None?
      ensures host.haltFailed <==> !r.Returned?
      ensures host.service == old(host.service) || host.service.None?
      ensures old(host.service).None? ==> host.tables == old(host.tables) && host.accepted == old(host.accepted)
    {
      var fate := host.Bootout();
      return fate.Result();
    }

    method Halt() returns (r: Outcome<()>)
      requires Valid()
      modifies host`service, host`tables, host`accepted, host`haltFailed, host`log, host`disturbances
      ensures Valid()
      ensures host.Explains(r.Returned?)
      ensures host.log == old(host.log).Then(Call.Halt)
      ensures r.Returned? ==> host.service.None?
      ensures host.haltFailed <==> !r.Returned?
    {
      host.Log(Call.Halt);
      r := LaunchdHalt();
    }

    /** Service absent and writer leases live; fails closed. */
    method ProveFrozen() returns (r: Outcome<()>)
      requires Valid()
      modifies host`tables, host`accepted, host`disturbances
      ensures Valid()
      ensures host.Explains(r.Returned? || host.service.Some? || !sourceLease)
      ensures host.service.None? ==> host.tables == old(host.tables) && host.accepted == old(host.accepted)
      ensures r.Returned? ==> host.service.None? && sourceLease
    {
      host.Traffic();
      var fate := host.Effect();
      if fate.Dies? { return Died; }
      if fate.Fails? || host.service.Some? || !sourceLease { return Raised; }
      return Returned(());
    }

    method Freeze() returns (r: Outcome<()>)
      requires Valid()
      modifies this`expected, this`identified, this`sourceLease
      modifies host`service, host`tables, host`accepted, host`haltFailed, host`log, host`disturbances
      ensures Valid()
      ensures host.Explains(r.Returned?)
      ensures r.Returned? ==> identified == old(identified) + 1
      ensures host.log == old(host.log).Then(Call.Freeze)
      ensures r.Returned? ==> host.service.None? && sourceLease && !host.haltFailed
    {
      host.Log(Call.Freeze);
      var _ :- CheckIdentity();
      var _ :- LaunchdHalt();
      var fate := host.Effect();
      if !fate.Fine? { return if fate.Fails? then Raised else Died; }
      sourceLease := true;
      r := ProveFrozen();
    }

    method AssertFrozen() returns (r: Outcome<()>)
      requires Valid()
      modifies host`tables, host`accepted, host`log, host`disturbances
      ensures Valid()
      ensures host.Explains(r.Returned? || host.service.Some? || !sourceLease)
      ensures host.log == old(host.log).Then(Call.AssertFrozen)
      ensures host.service.None? ==> host.tables == old(host.tables) && host.accepted == old(host.accepted)
      ensures r.Returned? ==> host.service.None? && sourceLease
    {
      host.Log(Call.AssertFrozen);
      r := ProveFrozen();
    }

    /** The guard of the live source must equal the snapshot's. */
    method CompareSource(snapshot: Snapshot) returns (r: Outcome<()>)
      requires Valid()
      modifies host`tables, host`accepted, host`disturbances
      ensures Valid()
      ensures host.Explains(r.Returned?)
      ensures host.service.None? ==> host.tables == old(host.tables) && host.accepted == old(host.accepted)
      ensures r.Returned? ==> host.tables[Source] == snapshot.guard
    {
      host.Traffic();
      var fate := host.Effect();
      if fate.Dies? { return Died; }
      host.Notice(host.tables[Source] == snapshot.guard);
      if fate.Fails? || host.tables[Source] != snapshot.guard { return Raised; }
      return Returned(());
    }

    method AssertUnchanged(snapshot: Snapshot) returns (r: Outcome<()>)
      requires Valid()
      modifies host`tables, host`accepted, host`log, host`disturbances
      ensures Valid()
      ensures host.Explains(r.Returned?)
      ensures host.log == old(host.log).Then(Call.AssertUnchanged)
      ensures host.service.None? ==> host.tables == old(host.tables) && host.accepted == old(host.accepted)
      ensures r.Returned? ==> host.tables[Source] == snapshot.guard
    {
      host.Log(Call.AssertUnchanged);
      r := CompareSource(snapshot);
    }

    /** Dump the frozen source; the guard is captured in the same transaction. */
    method TakeSnapshot() returns (r: Outcome<Snapshot>)
      requires Valid()
      requires !host.migrated && !host.activated
      modifies this`backup, host`tables, host`accepted, host`log, host`disturbances
      ensures Valid()
      ensures host.Explains(r.Returned? || host.service.Some? || !sourceLease)
      ensures host.log == old(host.log).Then(Call.TakeSnapshot)
      ensures host.service.None? ==> host.tables == old(host.tables) && host.accepted == old(host.accepted)
      ensures r.Returned? ==>
        host.service.None? && sourceLease && backup == Some(r.value) && r.value.guard == host.accepted
    {
      host.Log(Call.TakeSnapshot);
      var _ :- ProveFrozen();
      var fate := host.Effect();
      if !fate.Fine? { return if fate.Fails? then Raised else Died; }
      backup := Some(Snapshot(host.tables[Source]));
      return Returned(backup.value);
    }

    /** Snapshot.verify: the dump's checksum, over a file that may have rotted. */
    method VerifyDump(snapshot: Snapshot) returns (r: Outcome<()>)
      requires Valid()
      modifies host`log, host`disturbances
      ensures Valid()
      ensures host.Explains(r.Returned?)
      ensures host.log == old(host.log).Then(Call.VerifyDump)
    {
      host.Log(Call.VerifyDump);
      var fate := host.Effect();
      return fate.Result();
    }

    /** Restore into a new database. Whatever pg_restore produced, a return
        means the result was compared with the snapshot's guard. */
    method PgRestore(snapshot: Snapshot) returns (r: Outcome<Database>)
      requires Valid()
      requires host.service.None?
      modifies this`created, host`tables, host`disturbances
      ensures Valid()
      ensures host.Explains(r.Returned?)
      ensures forall d :: d in old(host.tables) ==> d in host.tables && host.tables[d] == old(host.tables)[d]
      ensures r.Returned? ==>
        r.value in created && r.value in host.tables && host.tables[r.value] == snapshot.guard
    {
      var fate := host.Effect();
      if fate.Dies? { return Died; }
      if fate.Fails? { return Raised; }
      var id: nat := *;
      var database := Restored(id);
      created := created + {database};
      host.Notice(database !in host.tables);
      if database in host.tables { return Raised; }
      var contents: Data := *;
      host.tables := host.tables[database := contents];
      fate := host.Effect();
      if fate.Dies? { return Died; }
      host.Notice(contents == snapshot.guard);
      if fate.Fails? || contents != snapshot.guard { return Raised; }
      return Returned(database);
    }

    method RestoreSeparate(snapshot: Snapshot) returns (r: Outcome<Database>)
      requires Valid()
      requires !host.activated && host.service.None? && snapshot.guard == host.accepted
      modifies this`backup, this`created, host`tables, host`log, host`disturbances
      ensures Valid()
      ensures host.Explains(r.Returned?)
      ensures host.log == old(host.log).Then(Call.RestoreSeparate)
      ensures backup == Some(snapshot)
      ensures host.tables[Source] == old(host.tables[Source])
      ensures r.Returned? ==>
        r.value in created && r.value in host.tables && host.tables[r.value] == snapshot.guard
    {
      host.Log(Call.RestoreSeparate);
      backup := Some(snapshot);
      r := PgRestore(snapshot);
    }

    /** Lease the restored database, run the previous release's smoke checks on
        it (which may write to it), and compare it with the backup again. */
    method CheckPrevious(database: Database) returns (r: Outcome<()>)
      requires Valid()
      requires !host.activated && host.service.None?
      modifies this`expected, this`identified, this`targetDatabase, host`tables, host`accepted, host`disturbances
      ensures Valid()
      ensures host.Explains(r.Returned? || database !in created || database !in old(host.tables) || backup.None?)
      ensures r.Returned? ==> identified == old(identified) + 1
      ensures host.tables[Source] == old(host.tables[Source]) && host.accepted == old(host.accepted)
      ensures r.Returned? ==>
        && targetDatabase == Some(database) && backup.Some? && database in created
        && database in host.tables && host.tables[database] == backup.value.guard
    {
      var _ :- CheckIdentity();
      if database !in created { return Raised; }
      targetDatabase := Some(database);
      var fate := host.Effect();
      if fate.Dies? { return Died; }
      if fate.Fails? || database !in host.tables { return Raised; }
      var contents: Data := *;
      host.tables := host.tables[database := contents];
      fate := host.Effect();
      if fate.Dies? { return Died; }
      host.Notice(backup.None? || contents == backup.value.guard);
      if fate.Fails? || backup.None? || contents != backup.value.guard { return Raised; }
      return Returned(());
    }

    method ValidatePrevious(database: Database) returns (r: Outcome<()>)
      requires Valid()
      requires !host.activated && host.service.None?
      modifies this`expected, this`identified, this`targetDatabase, host`tables, host`accepted, host`log, host`disturbances
      ensures Valid()
      ensures host.Explains(r.Returned? || database !in created || database !in old(host.tables) || backup.None?)
      ensures r.Returned? ==> identified == old(identified) + 1
      ensures host.log == old(host.log).Then(Call.ValidatePrevious)
      ensures host.tables[Source] == old(host.tables[Source]) && host.accepted == old(host.accepted)
      ensures r.Returned? ==>
        && targetDatabase == Some(database) && backup.Some? && database in created
        && database in host.tables && host.tables[database] == backup.value.guard
    {
      host.Log(Call.ValidatePrevious);
      r := CheckPrevious(database);
    }

    /** Rehearse a restore into a throw-away database. */
    method VerifyRestore(snapshot: Snapshot) returns (r: Outcome<()>)
      requires Valid()
      requires !host.activated && host.service.None? && backup == Some(snapshot)
      modifies this`expected, this`identified, this`targetDatabase, this`created
      modifies host`tables, host`accepted, host`log, host`disturbances
      ensures Valid()
      ensures host.Explains(r.Returned?)
      ensures r.Returned? ==> identified == old(identified) + 1
      ensures host.log == old(host.log).Then(Call.VerifyRestore)
      ensures host.tables[Source] == old(host.tables[Source]) && host.accepted == old(host.accepted)
      ensures r.Returned? ==> exists d :: d in host.tables && d != Source && host.tables[d] == snapshot.guard
    {
      host.Log(Call.VerifyRestore);
      var database :- PgRestore(snapshot);
      r := CheckPrevious(database);
      targetDatabase := None;
    }

    /** The migration may leave anything in the source, so it must not start
        before a durable verified snapshot of every accepted write. */
    method Migrate() returns (r: Outcome<()>)
      requires Valid()
      requires !host.activated && host.service.None?
      requires host.disk.Some? && host.disk.value.snapshotVerified
      requires host.disk.value.snapshot == Some(Snapshot(host.accepted)) && journal.Carries(journal.record)
      modifies this`expected, this`identified, host`tables, host`accepted, host`migrated, host`log, host`disturbances
      ensures Valid()
      ensures host.Explains(r.Returned? || !sourceLease)
      ensures r.Returned? ==> identified == old(identified) + 1
      ensures host.log == old(host.log).Then(Call.Migrate)
      ensures host.accepted == old(host.accepted)
      ensures r.Returned? ==> host.migrated && host.service.None? && sourceLease
    {
      host.Log(Call.Migrate);
      var _ :- CheckIdentity();
      var _ :- ProveFrozen();
      var contents: Data := *;
      host.migrated := true;
      host.tables := host.tables[Source := contents];
      var fate := host.Effect();
      return fate.Result();
    }

    /** The candidate's preflight and smoke check may write to the source. */
    method ValidateCandidate() returns (r: Outcome<()>)
      requires Valid()
      requires !host.activated && host.migrated
      modifies this`expected, this`identified, host`tables, host`accepted, host`log, host`disturbances
      ensures Valid()
      ensures host.Explains(r.Returned?)
      ensures r.Returned? ==> identified == old(identified) + 1
      ensures host.log == old(host.log).Then(Call.ValidateCandidate)
      ensures host.accepted == old(host.accepted)
    {
      host.Log(Call.ValidateCandidate);
      var _ :- CheckIdentity();
      var contents: Data := *;
      host.tables := host.tables[Source := contents];
      var fate := host.Effect();
      return fate.Result();
    }

    /** Hand the writer lease over and start the release: launchd may have
        started it although this raises. */
    method HandOver(database: Database) returns (r: Outcome<()>)
      requires Valid()
      requires host.activated && host.service.None? && host.admission.None?
      requires database in host.tables && host.tables[database] == host.accepted
      requires host.disk == Some(journal.record)
      requires GoodAdmission(Admission(database, host.tables[database], host.accepted, host.disk.value))
      modifies this`sourceLease
      modifies host`service, host`tables, host`accepted, host`admission, host`disturbances
      ensures Valid()
      ensures host.Explains(r.Returned?)
      ensures r.Returned? ==> host.service == Some(database) && !sourceLease
      ensures host.admission.Some? ==> host.disk == Some(host.admission.value.durable)
    {
      var fate := host.Effect();   // writing the service description
      if !fate.Fine? { return if fate.Fails? then Raised else Died; }
      host.admission := Some(Admission(database, host.tables[database], host.accepted, host.disk.value));
      sourceLease := false;
      var started: bool := *;
      fate := host.Effect();
      if started || fate.Fine? {
        host.service := Some(database);
        host.Traffic();
      }
      return fate.Result();
    }

    /** `MaintenanceLaunchd.activate`: after a failed hand-over the service is
        halted again. */
    method LaunchdActivate(release: Release, database: Database) returns (r: Outcome<()>)
      requires Valid()
      requires host.activated && host.service.None? && host.admission.None?
      requires database in host.tables && host.tables[database] == host.accepted
      modifies this`sourceLease, journal`record
      modifies host`service, host`tables, host`accepted, host`admission, host`haltFailed, host`log, host`disturbances
      ensures Valid()
      ensures host.Explains(r.Returned? || !old(sourceLease) || !Launches(host.disk, release, Some(database)))
      ensures journal.record == old(journal.record) || host.disk == Some(journal.record)
      ensures host.haltFailed == old(host.haltFailed) || !r.Returned?
      ensures r.Raised? ==> host.service.None? || host.haltFailed
      ensures r.Returned? ==>
        && host.service == Some(database) && Launches(host.disk, release, Some(database))
        && host.log == old(host.log).Then(Call.Load)
        && host.disk == Some(journal.record)
    {
      var _ :- ProveFrozen();
      var _ :- journal.Load();
      var record := journal.record;
      var target := if record.activatingRelease == Some(Candidate) then Some(Source) else record.activatingDatabase;
      if record.phase != Some(AdmissionStarted) || record.rollbackPermitted
         || record.activatingRelease != Some(release) || target != Some(database) {
        return Raised;
      }
      r := HandOver(database);
      if r.Returned? { return r; }
      if r.Died? {
        var handled: bool := *;   // a cancellation still halts, a kill does not
        if !handled { return r; }
      }
      var halted := LaunchdHalt();
      if !halted.Returned? { return halted; }
    }

    /** The database checks of `activate`. */
    method CompareTarget(release: Release, database: Option<Database>) returns (r: Outcome<Database>)
      requires Valid()
      requires host.service.None?
      requires backup.Some? ==> backup.value.guard == host.accepted
      modifies host`tables, host`accepted, host`disturbances
      ensures Valid()
      ensures host.Explains(r.Returned? || !old(Ready(release, database)))
      ensures host.accepted == old(host.accepted) && host.tables == old(host.tables)
      ensures r.Returned? ==>
        && r.value in host.tables && host.tables[r.value] == host.accepted
        && (if release.Candidate? then r.value == Source && database.None? else database == Some(r.value))
    {
      if backup.None? { return Raised; }
      var _ :- CompareSource(backup.value);
      if release.Candidate? {
        return if database.Some? then Raised else Returned(Source);
      }
      if database.None? || database != targetDatabase || database.value !in host.tables
         || host.tables[database.value] != backup.value.guard {
        return Raised;
      }
      return Returned(database.value);
    }

    /** All checks of `activate` before it touches a lease. */
    method SelectTarget(release: Release, database: Option<Database>) returns (r: Outcome<Database>)
      requires Valid()
      requires host.service.None?
      requires backup.Some? ==> backup.value.guard == host.accepted
      modifies this`expected, this`identified, journal`record, host`tables, host`accepted, host`log, host`disturbances
      ensures Valid()
      ensures host.Explains(r.Returned? || !sourceLease || !old(Ready(release, database)) || !Admits(host.disk))
      ensures r.Returned? ==> identified == old(identified) + 1
      ensures host.accepted == old(host.accepted)
      ensures journal.record == old(journal.record) || host.disk == Some(journal.record)
      ensures r.Returned? ==>
        && r.value in host.tables && host.tables[r.value] == host.accepted
        && (if release.Candidate? then r.value == Source && database.None? else database == Some(r.value))
        && journal.record.phase == Some(AdmissionStarted) && !journal.record.rollbackPermitted
        && host.log == old(host.log).Then(Call.Load)
    {
      var _ :- CheckIdentity();
      var _ :- ProveFrozen();
      var target :- CompareTarget(release, database);
      var _ :- journal.Load();
      if journal.record.phase != Some(AdmissionStarted) || journal.record.rollbackPermitted {
        return Raised;
      }
      return Returned(target);
    }

    /** Every check is repeated here, after the durable admission. */
    method Activate(release: Release, database: Option<Database>) returns (r: Outcome<()>)
      requires Valid()
      requires !host.activated && host.service.None?
      requires host.disk.Some? && !host.disk.value.rollbackPermitted && !journal.record.rollbackPermitted
      modifies this`expected, this`identified, this`sourceLease, this`targetDatabase, journal`record
      modifies host`service, host`tables, host`accepted, host`admission, host`haltFailed, host`log
      modifies host`activated, host`disturbances
      ensures Valid() && host.activated
      ensures host.Explains(r.Returned? || !old(sourceLease && Ready(release, database))
                            || !Launches(host.disk, release, Target(release, database)))
      ensures r.Returned? ==> identified == old(identified) + 1
      ensures journal.record == old(journal.record) || host.disk == Some(journal.record)
      ensures host.haltFailed == old(host.haltFailed) || !r.Returned?
      ensures r.Raised? ==> host.service.None? || host.haltFailed
      ensures r.Returned? ==>
        && host.service == (if release.Candidate? then Some(Source) else database)
        && host.log == old(host.log).Then(Call.Activate(release, database)).Then(Call.Load).Then(Call.Load)
        && host.disk == Some(journal.record)
    {
      host.LogActivate(release, database);
      var target :- SelectTarget(release, database);
      targetDatabase := None;
      r := LaunchdActivate(release, target);
    }

    /** Release what is still held; runs last in every deploy or recover. */
    method Close() returns (r: Outcome<()>)
      requires Valid()
      modifies this`sourceLease, this`targetDatabase, host`disturbances
      ensures Valid()
      ensures host.Explains(r.Returned?)
      ensures !sourceLease && targetDatabase.None?
    {
      sourceLease, targetDatabase := false, None;
      var fate := host.Effect();
      return fate.Result();
    }
  }
}
