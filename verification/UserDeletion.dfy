/** The privacy deletion of scripts/delete_user_data.py with the whitelist file
    of bot/services/access_config.py. Every step may raise or kill the process,
    and a write may be durable although it raised. */
module UserDeletion {
  import opened Outcomes

  datatype Phase = Prepared | AccessRevoked | RolledBack | Completed

  /** The durable journal; only the first two phases keep the original list. */
  datatype Entry = Entry(phase: Phase, original: seq<int>, changed: bool)

  /** The command line, the settings loaded at start, and whether the bot is
      stopped, so that its singleton lease is free. */
  datatype Request = Request(
    user: int, execute: bool, confirmed: bool, admin: bool, allowAll: bool, runtime: seq<int>, stopped: bool)

  function Without(ids: seq<int>, user: int): seq<int> {
    if ids == [] then []
    else Without(ids[..|ids| - 1], user) + (if ids[|ids| - 1] == user then [] else [ids[|ids| - 1]])
  }

  /** The first occurrences, in order. */
  function Distinct(ids: seq<int>): seq<int> {
    if ids == [] then []
    else
      var earlier := Distinct(ids[..|ids| - 1]);
      if ids[|ids| - 1] in earlier then earlier else earlier + [ids[|ids| - 1]]
  }

  predicate NoDuplicates(ids: seq<int>) {
    forall i, j :: 0 <= i < j < |ids| ==> ids[i] != ids[j]
  }

  predicate InProgress(journal: Option<Entry>) {
    journal.Some? && (journal.value.phase.Prepared? || journal.value.phase.AccessRevoked?)
  }

  /** The list that the operation under way, or the next one, starts from. */
  function Original(journal: Option<Entry>, whitelist: seq<int>): seq<int> {
    if InProgress(journal) then journal.value.original else whitelist
  }

  /** Whether that operation takes the user off the list. */
  predicate Changed(journal: Option<Entry>, whitelist: seq<int>, user: int) {
    if InProgress(journal) then journal.value.changed else user in whitelist
  }

  predicate Done(journal: Option<Entry>) {
    journal.Some? && journal.value.phase.Completed?
  }

  /** The checks before anything is done. */
  predicate Admitted(request: Request, whitelist: seq<int>) {
    && request.execute && request.confirmed && !request.admin && !request.allowAll
    && whitelist == request.runtime && request.stopped
  }

  /** The test before access is revoked. */
  predicate Recognized(whitelist: seq<int>, original: seq<int>, user: int) {
    whitelist == original || whitelist == Without(original, user)
  }

  /** How one run may leave the file, whatever happens to it. */
  predicate FileStep(before: seq<int>, after: seq<int>, original: seq<int>, user: int) {
    after == before
    || (Recognized(before, original, user) && (after == Distinct(Without(original, user)) || after == Distinct(original)))
  }

  class Host {
    var whitelist: seq<int>
    var journal: Option<Entry>
    /** The user's rows in all tables. */
    var rows: nat
    ghost var disturbances: nat   // effects that went wrong

    ghost method Notice(fine: bool)
      modifies `disturbances
      ensures disturbances == old(disturbances) + if fine then 0 else 1
    {
      if !fine {
        disturbances := disturbances + 1;
      }
    }

    /** Something that went wrong explains why there was no success. */
    twostate predicate Explains(success: bool)
      reads `disturbances
    {
      disturbances >= old(disturbances) && (success || disturbances > old(disturbances))
    }

    /** Any read of the file or of the database. */
    method Read() returns (r: Outcome<()>)
      modifies `disturbances
      ensures Explains(r.Returned?)
    {
      var fate: Fate := *;
      Notice(fate.Fine?);
      return fate.Result();
    }

    /** `write_allowed_telegram_ids` */
    method WriteList(ids: seq<int>) returns (r: Outcome<()>)
      modifies `whitelist, `disturbances
      ensures Explains(r.Returned?)
      ensures whitelist == old(whitelist) || whitelist == Distinct(ids)
      ensures r.Returned? ==> whitelist == Distinct(ids)
    {
      var fate: WriteFate := *;
      Notice(fate.Written?);
      if fate.Durable() { whitelist := Distinct(ids); }
      return fate.Result();
    }

    /** `set_operational_state` with its own commit. */
    method SaveState(entry: Entry) returns (r: Outcome<()>)
      requires !entry.phase.Completed?
      modifies `journal, `disturbances
      ensures Explains(r.Returned?)
      ensures journal == old(journal) || journal == Some(entry)
      ensures r.Returned? ==> journal == Some(entry)
    {
      var fate: WriteFate := *;
      Notice(fate.Written?);
      if fate.Durable() { journal := Some(entry); }
      return fate.Result();
    }

    /** The only commit of `completed`: rows and journal change together, after
        the deletion found nothing left in its own transaction. */
    method CommitDeletion(changed: bool) returns (r: Outcome<()>)
      modifies `journal, `rows, `disturbances
      ensures Explains(r.Returned?)
      ensures (journal == old(journal) && rows == old(rows)) || (journal == Some(Entry(Completed, [], changed)) && rows == 0)
      ensures r.Returned? ==> journal == Some(Entry(Completed, [], changed)) && rows == 0
    {
      var remaining: nat := *;
      Notice(remaining == 0);
      if remaining > 0 { return Raised; }
      var fate: WriteFate := *;
      Notice(fate.Written?);
      if fate.Durable() { rows, journal := 0, Some(Entry(Completed, [], changed)); }
      return fate.Result();
    }

    /** `_completed_result`: whether a completed deletion still stands. */
    method CompletedResult(user: int) returns (r: Outcome<bool>)
      modifies `disturbances
      ensures Explains(r.Returned?)
      ensures r.Returned? ==> (r.value <==> rows == 0 && user !in whitelist)
    {
      var _ :- Read();
      var _ :- Read();
      return Returned(rows == 0 && user !in whitelist);
    }

    /** The deletion was rolled back and the original list is restored. */
    predicate RolledBackTo(original: seq<int>, changed: bool, r: Outcome<()>)
      reads `whitelist, `journal
    {
      r.Raised? && journal == Some(Entry(RolledBack, [], changed)) && (changed ==> whitelist == Distinct(original))
    }

    /** `_prepare_deletion`: None means that nothing is left to do. */
    method PrepareDeletion(user: int) returns (r: Outcome<Option<Entry>>)
      modifies `journal, `disturbances
      ensures Explains(r.Returned?)
      ensures journal == old(journal)
           || (!old(InProgress(journal)) && journal == Some(Entry(Prepared, whitelist, user in whitelist)))
      ensures r.Returned? && r.value.None? ==>
        rows == 0 && user !in whitelist && journal == old(journal) && Done(journal)
      ensures r.Returned? && r.value.Some? ==>
        && InProgress(journal) && journal == r.value && r.value.value.original == Original(old(journal), whitelist)
        && r.value.value.changed == Changed(old(journal), whitelist, user)
    {
      var _ :- Read();
      if journal.Some? && journal.value.phase.Completed? {
        var stands :- CompletedResult(user);
        if stands { return Returned(None); }
      }
      if InProgress(journal) { return Returned(journal); }
      var _ :- Read();
      var operation := Entry(Prepared, whitelist, user in whitelist);
      var _ :- SaveState(operation);
      return Returned(Some(operation));
    }

    /** `_revoke_access` */
    method RevokeAccess(operation: Entry, user: int) returns (r: Outcome<()>)
      requires InProgress(Some(operation)) && journal == Some(operation)
      modifies `whitelist, `journal, `disturbances
      ensures Explains(r.Returned? || !Recognized(old(whitelist), operation.original, user))
      ensures FileStep(old(whitelist), whitelist, operation.original, user)
      ensures whitelist == old(whitelist) || whitelist == Distinct(Without(operation.original, user))
      ensures InProgress(journal) && journal.value.original == operation.original
      ensures !Recognized(old(whitelist), operation.original, user) ==>
        !r.Returned? && whitelist == old(whitelist) && journal == old(journal)
      ensures r.Returned? ==> user !in whitelist && Recognized(old(whitelist), operation.original, user)
    {
      var _ :- Read();
      if !Recognized(whitelist, operation.original, user) { return Raised; }
      WithoutTwice(operation.original, user);
      WithoutRemoves(operation.original, user);
      if user in whitelist {
        var _ :- Read();
        var _ :- WriteList(Without(whitelist, user));
      }
      var _ :- SaveState(operation.(phase := AccessRevoked));
      return Returned(());
    }

    /** `_delete_data`; a failed commit restores the file and ends the operation. */
    method DeleteData(operation: Entry, user: int) returns (r: Outcome<()>, ghost failure: Option<nat>)
      requires InProgress(journal) && journal.value.original == operation.original
      modifies this
      ensures Explains(r.Returned?)
      ensures r.Raised? ==> failure.Some?
      ensures failure.Some? ==> failure.value <= disturbances
      ensures failure.Some? && disturbances <= failure.value ==>
        RolledBackTo(operation.original, operation.changed, r)
      ensures r.Returned? ==> Done(journal)
      ensures whitelist == old(whitelist) || whitelist == Distinct(operation.original)
      ensures InProgress(journal) ==> journal == old(journal)
      ensures rows == old(rows) || rows == 0
      ensures journal.Some? && journal.value.phase.Completed? ==> rows == 0
      ensures r.Returned? ==> rows == 0 && whitelist == old(whitelist)
    {
      failure := None;
      var committed := CommitDeletion(operation.changed);
      if !committed.Raised? { return committed, failure; }
      failure := Some(disturbances);
      var _ :- Read();
      if operation.changed {
        var _ :- WriteList(operation.original);
      }
      var _ :- SaveState(Entry(RolledBack, [], operation.changed));
      return Raised, failure;
    }

    /** `run`: what one execution may do, ended by success, exception or death. A
        run that returns leaves no row and no access; a file that it does not
        recognize it does not touch. */
    method Run(request: Request) returns (r: Outcome<()>, ghost failure: Option<nat>)
      modifies this
      // a run that is admitted and meets no trouble succeeds
      ensures Admitted(request, old(whitelist)) ==>
        Explains(r.Returned? || !Recognized(old(whitelist), Original(old(journal), old(whitelist)), request.user))
      // and one that is not admitted does nothing
      ensures request.execute && !Admitted(request, old(whitelist)) ==>
        !r.Returned? && whitelist == old(whitelist) && journal == old(journal) && rows == old(rows)
      // a failed deletion gives the access back, unless something goes wrong again
      ensures failure.Some? && disturbances <= failure.value ==>
        RolledBackTo(Original(old(journal), old(whitelist)), Changed(old(journal), old(whitelist), request.user), r)
      ensures r.Returned? && request.execute ==> Done(journal)
      ensures FileStep(old(whitelist), whitelist, Original(old(journal), old(whitelist)), request.user)
      ensures InProgress(journal) ==> journal.value.original == Original(old(journal), old(whitelist))
      ensures journal.Some? && journal.value.phase.Completed? ==> journal == old(journal) || rows == 0
      ensures rows == old(rows) || rows == 0
      ensures r.Returned? && request.execute ==> rows == 0 && request.user !in whitelist
      ensures !request.execute ==> whitelist == old(whitelist) && journal == old(journal) && rows == old(rows)
      ensures !Recognized(old(whitelist), Original(old(journal), old(whitelist)), request.user) ==>
        whitelist == old(whitelist) && journal == old(journal) && rows == old(rows)
    {
      failure := None;
      if !request.execute {
        r := Read();
        return;
      }
      if !request.confirmed || request.admin || request.allowAll { return Raised, failure; }
      var _ :- Read();
      if whitelist != request.runtime { return Raised, failure; }
      if !request.stopped { return Raised, failure; }
      r, failure := Execute(request.user);
      var released: Fate := *;
      Notice(released.Fine?);
      if released.Dies? { return Died, failure; }
      if released.Fails? { return (if r.Died? then Died else Raised), failure; }
    }

    /** The part of `run` under the singleton lease. */
    method Execute(user: int) returns (r: Outcome<()>, ghost failure: Option<nat>)
      modifies this
      ensures Explains(r.Returned? || !Recognized(old(whitelist), Original(old(journal), old(whitelist)), user))
      ensures failure.Some? ==> failure.value <= disturbances
      ensures failure.Some? && disturbances <= failure.value ==>
        RolledBackTo(Original(old(journal), old(whitelist)), Changed(old(journal), old(whitelist), user), r)
      ensures r.Returned? ==> Done(journal)
      ensures FileStep(old(whitelist), whitelist, Original(old(journal), old(whitelist)), user)
      ensures InProgress(journal) ==> journal.value.original == Original(old(journal), old(whitelist))
      ensures journal.Some? && journal.value.phase.Completed? ==> journal == old(journal) || rows == 0
      ensures rows == old(rows) || rows == 0
      ensures r.Returned? ==> rows == 0 && user !in whitelist
      ensures !Recognized(old(whitelist), Original(old(journal), old(whitelist)), user) ==>
        whitelist == old(whitelist) && journal == old(journal) && rows == old(rows)
    {
      failure := None;
      var prepared :- PrepareDeletion(user);
      if prepared.None? { return Returned(()), failure; }
      var _ :- RevokeAccess(prepared.value, user);
      r, failure := DeleteData(prepared.value, user);
      if !r.Returned? { return; }
      var _ :- Read();
      if rows != 0 { return Raised, failure; }
      return Returned(()), failure;
    }
  }

  // The list operations.

  lemma {:induction false} WithoutRemoves(ids: seq<int>, user: int)
    ensures user !in Without(ids, user)
    ensures forall id :: id != user ==> (id in Without(ids, user) <==> id in ids)
    ensures user !in Distinct(Without(ids, user))
    ensures user !in ids ==> Without(ids, user) == ids
  {
    if ids != [] {
      var earlier, last := ids[..|ids| - 1], ids[|ids| - 1];
      WithoutRemoves(earlier, user);
      assert ids == earlier + [last];
      assert Without(ids, user) == Without(earlier, user) + if last == user then [] else [last];
      assert forall id :: id in ids <==> id in earlier || id == last;
    }
    DistinctSame(Without(ids, user));
  }

  lemma {:induction false} DistinctSame(ids: seq<int>)
    ensures forall id :: id in Distinct(ids) <==> id in ids
    ensures NoDuplicates(Distinct(ids))
  {
    if ids != [] {
      DistinctSame(ids[..|ids| - 1]);
      assert ids == ids[..|ids| - 1] + [ids[|ids| - 1]];
    }
  }

  lemma WithoutTwice(ids: seq<int>, user: int)
    ensures Without(Without(ids, user), user) == Without(ids, user)
  {
    WithoutRemoves(ids, user);
    WithoutRemoves(Without(ids, user), user);
  }

  /** Writing a list keeps it exactly when it has no duplicates. */
  lemma {:induction false} DistinctKeepsExactly(ids: seq<int>)
    ensures Distinct(ids) == ids <==> NoDuplicates(ids)
    ensures |Distinct(ids)| <= |ids|
  {
    if ids != [] {
      var earlier, last := ids[..|ids| - 1], ids[|ids| - 1];
      DistinctKeepsExactly(earlier);
      DistinctSame(earlier);
      assert ids == earlier + [last];
      if NoDuplicates(ids) {
        assert NoDuplicates(earlier);
        assert last !in earlier;
      } else if Distinct(ids) == ids {
        DistinctSame(ids);
      }
    }
  }

  lemma {:induction false} WithoutKeepsDistinct(ids: seq<int>, user: int)
    requires NoDuplicates(ids)
    ensures NoDuplicates(Without(ids, user))
  {
    if ids != [] {
      WithoutKeepsDistinct(ids[..|ids| - 1], user);
      WithoutRemoves(ids[..|ids| - 1], user);
      assert ids[|ids| - 1] !in ids[..|ids| - 1];
    }
  }

  // Whole histories.

  /** A later run recognizes the file that revocation wrote exactly when nobody
      else is listed twice, and the file that a rollback wrote exactly when
      nobody is. */
  lemma ResumesExactly(original: seq<int>, user: int)
    requires user in original
    ensures Recognized(Distinct(Without(original, user)), original, user) <==> NoDuplicates(Without(original, user))
    ensures Recognized(Distinct(original), original, user) <==> NoDuplicates(original)
  {
    WithoutRemoves(original, user);
    DistinctSame(original);
    DistinctKeepsExactly(original);
    DistinctKeepsExactly(Without(original, user));
  }

  /** Without duplicates every step leaves the list or the list without the user. */
  lemma FileStepExactly(before: seq<int>, after: seq<int>, original: seq<int>, user: int)
    requires NoDuplicates(original) && Recognized(before, original, user)
    ensures FileStep(before, after, original, user) <==> Recognized(after, original, user)
  {
    WithoutKeepsDistinct(original, user);
    DistinctKeepsExactly(original);
    DistinctKeepsExactly(Without(original, user));
  }

  /** Any number of runs for one user, each ending anywhere, with the bot adding
      rows in between: the file stays the first list or that list without the
      user, and the journal always names one of these as the original. */
  method RunRepeatedly(host: Host, user: int)
    requires NoDuplicates(host.whitelist) && !InProgress(host.journal)
    modifies host
    ensures Recognized(host.whitelist, old(host.whitelist), user)
    ensures InProgress(host.journal) ==> Recognized(host.whitelist, host.journal.value.original, user)
  {
    ghost var first := host.whitelist;
    var runs: nat := *;
    while runs > 0
      invariant Recognized(host.whitelist, first, user)
      invariant Recognized(Original(host.journal, host.whitelist), first, user)
      invariant Recognized(host.whitelist, Original(host.journal, host.whitelist), user)
    {
      host.rows := *;
      var request: Request := *;
      ghost var original, before := Original(host.journal, host.whitelist), host.whitelist;
      OriginalKept(first, original, user);
      var _, _ := host.Run(request.(user := user));
      FileStepExactly(before, host.whitelist, original, user);
      runs := runs - 1;
    }
  }

  lemma OriginalKept(first: seq<int>, original: seq<int>, user: int)
    requires NoDuplicates(first) && Recognized(original, first, user)
    ensures NoDuplicates(original)
    ensures forall file :: Recognized(file, original, user) ==> Recognized(file, first, user)
  {
    WithoutKeepsDistinct(first, user);
    WithoutTwice(first, user);
  }
}
