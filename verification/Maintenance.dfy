/** The journaled deploy/restore protocol (bot/operations/maintenance.py) run
    against the concrete port of bot/operations/maintenance_deploy.py and
    bot/operations/maintenance_launchd.py. Every external effect may return,
    raise, or kill the process, with or without having taken place. */
module Maintenance {
  import opened Outcomes

  /** The logical contents of a database: the user writes it holds. */
  type Data = seq<int>
  type Identity = nat

  datatype Database = Source | Restored(id: nat)
  datatype Release = Candidate | Previous

  datatype Phase =
    | Prepared | Freezing | Frozen | SnapshotCreated | SnapshotVerified
    | Migrating | ValidatingCandidate | AdmissionStarted | Deployed
    | Restoring | RestoredDatabase | RestoredPrevious | RecoveryRequired

  /** `guard` is the data guard captured with the dump, taken as faithful. */
  datatype Snapshot = Snapshot(guard: Data)

  datatype Record = Record(
    phase: Option<Phase>,
    identity: Option<Identity>,
    rollbackPermitted: bool,
    snapshotVerified: bool,
    snapshot: Option<Snapshot>,
    restoredDatabase: Option<Database>,
    activatingRelease: Option<Release>,
    activatingDatabase: Option<Database>)

  const EMPTY_RECORD := Record(None, None, false, false, None, None, None, None)

  /** What the protocol asked of its port and journal, in order. */
  datatype Call =
    | Validate | Freeze | AssertFrozen | TakeSnapshot | VerifyDump | VerifyRestore
    | Migrate | ValidateCandidate | AssertUnchanged | RestoreSeparate
    | ValidatePrevious | Activate(release: Release, database: Option<Database>)
    | Halt | Save(phase: Phase) | Load

  /** One hand-over of the writer lease to a release about to start; `durable` is
      the journal file at that moment. */
  datatype Admission = Admission(database: Database, contents: Data, accepted: Data, durable: Record)

  /** Calls that must never follow an activation. */
  predicate Forbidden(call: Call) {
    call.Activate? || call.RestoreSeparate?
  }

  /** The calls of every process so far, latest outermost. */
  datatype Log = Start | Entry(earlier: Log, call: Call) {

    function Then(next: Call): Log {
      Entry(this, next)
    }

    function Calls(): seq<Call> {
      if Start? then [] else earlier.Calls() + [call]
    }

    predicate Activated() {
      Entry? && (call.Activate? || earlier.Activated())
    }

    /** Every entry was legal when it was added. */
    predicate Legal() {
      Entry? ==> earlier.Legal() && (Forbidden(call) ==> !earlier.Activated())
    }
  }

  /** Activation happens at most once and nothing is restored after it. */
  ghost predicate AdmissionIsFinal(calls: seq<Call>) {
    forall i, j :: 0 <= i < j < |calls| && calls[i].Activate? ==> !Forbidden(calls[j])
  }

  lemma {:induction false} ActivatedSomewhere(log: Log)
    ensures log.Activated() <==> exists i :: 0 <= i < |log.Calls()| && log.Calls()[i].Activate?
  {
    if log.Entry? {
      var earlier := log.earlier.Calls();
      ActivatedSomewhere(log.earlier);
      assert log.Calls()[|earlier|] == log.call;
      if i :| 0 <= i < |earlier| && earlier[i].Activate? {
        assert log.Calls()[i].Activate?;
      }
      if i :| 0 <= i <= |earlier| && log.Calls()[i].Activate? {
        assert i == |earlier| || earlier[i].Activate?;
      }
    }
  }

  /** A log kept legal call by call is exactly one whose whole run is safe. */
  lemma {:induction false} LegalLogMeansFinal(log: Log)
    ensures log.Legal() <==> AdmissionIsFinal(log.Calls())
  {
    if log.Entry? {
      var calls, earlier := log.Calls(), log.earlier.Calls();
      var n := |earlier|;
      LegalLogMeansFinal(log.earlier);
      ActivatedSomewhere(log.earlier);
      assert calls[n] == log.call && forall i :: 0 <= i < n ==> earlier[i] == calls[i];
      if log.Legal() {
        forall i, j | 0 <= i < j < |calls| && calls[i].Activate? ensures !Forbidden(calls[j]) {
          assert earlier[i].Activate?;
        }
      }
    }
  }

  /** The lease is handed over only after the journal durably closed the
      rollback, and to a database holding every write accepted so far. */
  predicate GoodAdmission(a: Admission) {
    && a.contents == a.accepted
    && a.durable.phase == Some(AdmissionStarted)
    && !a.durable.rollbackPermitted
    && (a.durable.activatingRelease == Some(Candidate) ==> a.database == Source)
    && (a.durable.activatingRelease == Some(Previous) ==> a.durable.activatingDatabase == Some(a.database))
    && a.durable.activatingRelease.Some?
  }

  /** The machine: everything that outlives one maintenance process. */
  class Host {
    const identity: Identity           // of releases, configuration and source database
    var disk: Option<Record>           // the journal file
    var service: Option<Database>      // the database of the running bot, if it runs
    var tables: map<Database, Data>
    ghost var accepted: Data           // every user write ever accepted
    ghost var log: Log
    ghost var admission: Option<Admission>  // the only one, if any
    ghost var activated: bool          // activate was called
    ghost var migrated: bool           // a migration was started on the source
    ghost var guarded: bool            // the current run entered the part whose handler halts
    ghost var restoring: bool          // the current run was allowed into the restore
    ghost var haltFailed: bool         // the last halt of the current run did not return
    ghost var disturbances: nat        // effects that went wrong and checks that met a mismatch

    /** A record that permits rollback must be backed by a frozen service and a
        snapshot of everything accepted. */
    ghost predicate Backed(record: Record)
      reads this`service, this`accepted, this`activated
    {
      && (activated ==> !record.rollbackPermitted)
      && (record.rollbackPermitted ==>
            && service.None?
            && record.snapshotVerified
            && record.snapshot == Some(Snapshot(accepted)))
    }

    /** No accepted write is ever lost: the admitted database, the source, or
        the durable verified snapshot holds all of them. */
    ghost predicate Preserved()
      reads this`disk, this`tables, this`accepted, this`admission
    {
      if admission.Some? then
        admission.value.database in tables && tables[admission.value.database] == accepted
      else
        || (Source in tables && tables[Source] == accepted)
        || (disk.Some? && disk.value.snapshotVerified && disk.value.snapshot == Some(Snapshot(accepted)))
    }

    ghost predicate Valid()
      reads this
    {
      && Source in tables
      && log.Legal()
      && activated == log.Activated()
      && (admission.Some? ==> GoodAdmission(admission.value))
      && (admission.Some? ==> activated)
      && (disk.Some? ==> disk.value.phase.Some? && Backed(disk.value))
      && (disk.None? ==> !activated && !migrated)
      && (!migrated ==> tables[Source] == accepted || admission.Some?)
      && (!activated ==> service.None? || (service == Some(Source) && tables[Source] == accepted))
      && (service.Some? ==> service.value in tables && tables[service.value] == accepted)
      && (service.Some? && activated ==> admission.Some? && admission.value.database == service.value)
      && (migrated ==> disk.Some? && disk.value.snapshotVerified && disk.value.snapshot.Some?)
      && (migrated && !activated ==> disk.Some? && disk.value.snapshot == Some(Snapshot(accepted)) && service.None?)
      && Preserved()
    }

    constructor (identity: Identity, contents: Data)
      ensures Valid()
      ensures this.identity == identity
      ensures disk.None? && log == Start && admission.None? && service == Some(Source)
      ensures accepted == contents
    {
      this.identity := identity;
      disk, service, tables := None, Some(Source), map[Source := contents];
      accepted, log, admission := contents, Start, None;
      activated, migrated, guarded, restoring, haltFailed := false, false, false, false, false;
      disturbances := 0;
    }

    /** What the environment makes of one external effect. */
    method Effect() returns (fate: Fate)
      modifies `disturbances
      ensures old(Valid()) ==> Valid()
      ensures disturbances == old(disturbances) + if fate.Fine? then 0 else 1
    {
      fate := *;
      if !fate.Fine? {
        disturbances := disturbances + 1;
      }
    }

    /** A check of the environment met what it expects, or did not. */
    ghost method Notice(matches: bool)
      modifies `disturbances
      ensures old(Valid()) ==> Valid()
      ensures disturbances == old(disturbances) + if matches then 0 else 1
    {
      if !matches {
        disturbances := disturbances + 1;
      }
    }

    /** The environment alone explains why something did not succeed. */
    twostate predicate Explains(success: bool)
      reads `disturbances
    {
      disturbances >= old(disturbances) && (success || disturbances > old(disturbances))
    }

    /** Users write at any moment, but only into the running bot's database. */
    method Traffic()
      requires Valid()
      modifies `tables, `accepted
      ensures Valid()
      ensures service.None? ==> tables == old(tables) && accepted == old(accepted)
      ensures old(accepted) <= accepted
    {
      if service.Some? {
        var writes: Data := *;
        tables := tables[service.value := tables[service.value] + writes];
        accepted := accepted + writes;
      }
    }

    /** Take the running bot down; it may be gone although that went wrong. */
    method Bootout() returns (fate: Fate)
      requires Valid()
      modifies `service, `tables, `accepted, `haltFailed, `disturbances
      ensures Valid()
      ensures service.None? || (service == old(service) && !fate.Fine?)
      ensures haltFailed <==> !fate.Fine?
      ensures disturbances == old(disturbances) + if fate.Fine? then 0 else 1
      ensures old(service).None? ==> tables == old(tables) && accepted == old(accepted)
    {
      Traffic();
      fate := Effect();
      var removed: bool := *;
      if removed || fate.Fine? {
        service := None;
      }
      haltFailed := !fate.Fine?;
    }

    ghost method Log(call: Call)
      requires Valid()
      requires !call.Activate?
      requires call.RestoreSeparate? ==> !activated
      modifies `log
      ensures log == old(log).Then(call)
      ensures Valid()
    {
      log := log.Then(call);
    }

    ghost method LogActivate(release: Release, database: Option<Database>)
      requires Valid()
      requires !activated && service.None? && disk.Some? && !disk.value.rollbackPermitted
      modifies `log, `activated
      ensures log == old(log).Then(Activate(release, database))
      ensures activated && Valid()
    {
      log, activated := log.Then(Activate(release, database)), true;
    }
  }

  /** The journal object of one process: a file and a possibly stale copy. */
  class Journal {
    const host: Host
    var record: Record

    constructor (host: Host)
      ensures this.host == host && record == EMPTY_RECORD
    {
      this.host, record := host, EMPTY_RECORD;
    }

    /** The copy never permits a rollback the host could not back, and once the
        source may be migrated, a loaded copy carries the durable snapshot. */
    ghost predicate Valid()
      reads this, host
    {
      && host.Valid()
      && host.Backed(record)
      && (host.migrated && record.phase.Some? ==> Carries(record))
    }

    ghost predicate Carries(fields: Record)
      reads host
    {
      host.disk.Some? && fields.snapshotVerified && fields.snapshot == host.disk.value.snapshot
    }

    method Load() returns (r: Outcome<()>)
      requires Valid()
      modifies this`record, host`log, host`disturbances
      ensures Valid()
      ensures host.Explains(r.Returned? || host.disk.None?)
      ensures host.log == old(host.log).Then(Call.Load)
      ensures r.Returned? ==> host.disk == Some(record)
      ensures !r.Returned? ==> record == old(record)
    {
      host.Log(Call.Load);
      var fate := host.Effect();
      if fate.Dies? { return Died; }
      if fate.Fails? || host.disk.None? { return Raised; }
      record := host.disk.value;
      return Returned(());
    }

    /** Replace the file, then the copy. The file may be new although the copy
        is old: only a returning save changes both. */
    method Save(phase: Phase, fields: Record) returns (r: Outcome<()>)
      requires Valid()
      requires host.Backed(fields)
      requires host.migrated ==> Carries(fields)
      modifies this`record, host`disk, host`log, host`disturbances
      ensures Valid()
      ensures host.Explains(r.Returned?)
      ensures host.log == old(host.log).Then(Call.Save(phase))
      ensures r.Returned? ==> host.disk == Some(record) && record == fields.(phase := Some(phase))
      ensures !r.Returned? ==> record == old(record)
      ensures host.disk == old(host.disk) || host.disk == Some(fields.(phase := Some(phase)))
    {
      host.Log(Call.Save(phase));
      var updated := fields.(phase := Some(phase));
      var fate: WriteFate := *;
      host.Notice(fate.Written?);
      if fate.Durable() {
        host.disk := Some(updated);
      }
      if fate.Written? {
        record := updated;
      }
      return fate.Result();
    }
  }
}
