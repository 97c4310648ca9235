/** The leased outbox of bot/services/delivery.py: one durable batch of parts,
    any number of workers, each committed transaction one atomic step and each
    Telegram call a step of its own. Times are arbitrary, so nothing below
    depends on clocks agreeing or advancing. */
module Delivery {
  import opened Common
  import opened Outcomes

  type Token = nat
  const MAX_ATTEMPTS := 8

  datatype Status = Pending | Delivering | Delivered | Failed | Expired
  datatype Lease = Lease(token: Token, expires: int)
  datatype Batch = Batch(
    status: Status, lease: Option<Lease>, attempts: nat, nextAttempt: Option<int>, expires: Option<int>)
  datatype Part = Part(payload: int, delivered: bool, messageId: Option<int>, attempts: nat)
  datatype Rows = Rows(batch: Batch, parts: seq<Part>)

  predicate Holds(batch: Batch, token: Token) {
    batch.lease.Some? && batch.lease.value.token == token
  }

  predicate Live(status: Status) {
    status.Pending? || status.Delivering?
  }

  /** Seconds until the next attempt. */
  function Backoff(attempts: nat): int {
    Doubling(if attempts == 0 then 1 else attempts)
  }

  /** The query for parts still to send, ordered by position. */
  function PendingFrom(parts: seq<Part>, k: nat): (r: seq<nat>)
    requires k <= |parts|
    ensures forall p :: p in r ==> k <= p < |parts|
    decreases |parts| - k
  {
    if k == |parts| then []
    else if parts[k].delivered then PendingFrom(parts, k + 1)
    else [k] + PendingFrom(parts, k + 1)
  }

  // The transactions of `_deliver_existing_batch`.

  function Expire(batch: Batch, now: int): Batch {
    if Live(batch.status) && batch.expires.Some? && batch.expires.value <= now
       && (batch.lease.None? || batch.lease.value.expires < now)
    then batch.(status := Expired, lease := None)
    else batch
  }

  predicate Claimable(batch: Batch, now: int) {
    && Live(batch.status)
    && (batch.nextAttempt.None? || batch.nextAttempt.value <= now)
    && (batch.expires.None? || batch.expires.value > now)
    && (batch.lease.None? || batch.lease.value.expires < now)
  }

  function Claim(rows: Rows, token: Token, now: int, leaseSeconds: int): (Rows, bool) {
    var batch := Expire(rows.batch, now);
    if Claimable(batch, now)
    then (rows.(batch := batch.(status := Delivering, lease := Some(Lease(token, now + leaseSeconds)),
                                attempts := batch.attempts + 1)), true)
    else (rows.(batch := batch), false)
  }

  /** None when the lease or the part was lost and the transaction rolled back. */
  function RecordDelivered(rows: Rows, token: Token, p: nat, at: int, messageId: int,
      leaseSeconds: int): (r: Option<Rows>)
    requires p < |rows.parts|
    ensures r.Some? ==> |r.value.parts| == |rows.parts|
  {
    if Holds(rows.batch, token) && rows.batch.lease.value.expires >= at && !rows.parts[p].delivered
    then Some(Rows(
      rows.batch.(lease := Some(Lease(token, at + leaseSeconds))),
      rows.parts[p := rows.parts[p].(delivered := true, messageId := Some(messageId), attempts := rows.parts[p].attempts + 1)]))
    else None
  }

  function RecordFailure(rows: Rows, token: Token, p: nat, permanent: bool, at: int): (r: Rows)
    requires p < |rows.parts|
    ensures |r.parts| == |rows.parts|
  {
    if !Holds(rows.batch, token) then rows
    else
      var terminal := permanent || rows.batch.attempts >= MAX_ATTEMPTS;
      Rows(
        rows.batch.(status := if terminal then Failed else Pending, lease := None,
                    nextAttempt := Some(at + Backoff(rows.batch.attempts))),
        if rows.parts[p].delivered then rows.parts
        else rows.parts[p := rows.parts[p].(attempts := rows.parts[p].attempts + 1)])
  }

  function Complete(rows: Rows, token: Token): Rows {
    if Holds(rows.batch, token) then rows.(batch := rows.batch.(status := Delivered, lease := None)) else rows
  }

  /** The stored rows, changed in place by the four transactions. */
  class BatchRows {
    var batch: Batch
    var parts: seq<Part>

    function Contents(): Rows
      reads this
    {
      Rows(batch, parts)
    }

    constructor (payloads: seq<int>, expires: int)
      ensures Contents() == Created(payloads, expires)
    {
      batch := Batch(Pending, None, 0, None, Some(expires));
      parts := seq(|payloads|, i requires 0 <= i < |payloads| => Part(payloads[i], false, None, 0));
    }

    method ClaimLease(token: Token, now: int, leaseSeconds: int) returns (owns: bool)
      modifies this
      ensures (Contents(), owns) == Claim(old(Contents()), token, now, leaseSeconds)
    {
      if Live(batch.status) && batch.expires.Some? && batch.expires.value <= now
         && (batch.lease.None? || batch.lease.value.expires < now) {
        batch := batch.(status := Expired, lease := None);
      }
      owns := Claimable(batch, now);
      if owns {
        batch := batch.(status := Delivering, lease := Some(Lease(token, now + leaseSeconds)));
        batch := batch.(attempts := batch.attempts + 1);
      }
    }

    method Record(token: Token, p: nat, at: int, messageId: int, leaseSeconds: int) returns (recorded: bool)
      requires p < |parts|
      modifies this
      ensures recorded == RecordDelivered(old(Contents()), token, p, at, messageId, leaseSeconds).Some?
      ensures Contents() == if recorded
                            then RecordDelivered(old(Contents()), token, p, at, messageId, leaseSeconds).value
                            else old(Contents())
    {
      if !Holds(batch, token) || batch.lease.value.expires < at { return false; }
      var before := batch;
      batch := batch.(lease := Some(Lease(token, at + leaseSeconds)));
      if parts[p].delivered {
        batch := before;   // rollback
        return false;
      }
      parts := parts[p := parts[p].(delivered := true, messageId := Some(messageId), attempts := parts[p].attempts + 1)];
      return true;
    }

    method Fail(token: Token, p: nat, permanent: bool, at: int)
      requires p < |parts|
      modifies this
      ensures Contents() == RecordFailure(old(Contents()), token, p, permanent, at)
    {
      if Holds(batch, token) {
        var terminal := permanent || batch.attempts >= MAX_ATTEMPTS;
        if !parts[p].delivered {
          parts := parts[p := parts[p].(attempts := parts[p].attempts + 1)];
        }
        batch := batch.(status := if terminal then Failed else Pending, lease := None,
                        nextAttempt := Some(at + Backoff(batch.attempts)));
      }
    }

    method Finish(token: Token) returns (owned: bool)
      modifies this
      ensures owned == Holds(old(batch), token)
      ensures Contents() == Complete(old(Contents()), token)
    {
      owned := Holds(batch, token);
      if owned {
        batch := batch.(status := Delivered, lease := None);
      }
    }
  }

  function Created(payloads: seq<int>, expires: int): Rows {
    Rows(Batch(Pending, None, 0, None, Some(expires)),
         seq(|payloads|, i requires 0 <= i < |payloads| => Part(payloads[i], false, None, 0)))
  }

  datatype Stored = Stored(user: int, kind: string, rows: Rows)

  /** All batches by delivery key. */
  class Outbox {
    var batches: map<string, Stored>

    /** `_ensure_batch`: a retry finds the persisted payload, not its own. */
    method EnsureBatch(key: string, user: int, kind: string, payloads: seq<int>, expires: int)
      returns (r: Outcome<Rows>)
      modifies this
      ensures payloads == [] ==> r.Raised?
      ensures r.Returned? ==>
        key in batches && batches[key].rows == r.value && batches[key].user == user && batches[key].kind == kind
      ensures payloads == [] || key in old(batches) ==> batches == old(batches)
      ensures payloads != [] && key !in old(batches) ==>
        r.Returned? && batches == old(batches)[key := Stored(user, kind, Created(payloads, expires))]
      ensures payloads != [] && key in old(batches) ==>
        (r.Returned? <==> old(batches)[key].user == user && old(batches)[key].kind == kind)
    {
      if payloads == [] { return Raised; }
      if key !in batches {
        batches := batches[key := Stored(user, kind, Created(payloads, expires))];
      }
      var stored := batches[key];
      return if stored.user == user && stored.kind == kind then Returned(stored.rows) else Raised;
    }
  }

  // Workers.

  /** Where one call of `_deliver_existing_batch` stands. */
  datatype Phase =
    | Claimed                                // lease taken, pending parts not read yet
    | Sending(rest: seq<nat>)                // about to send the first of these positions
    | Sent(rest: seq<nat>)                   // Telegram accepted it, nothing recorded yet
    | Raising(p: nat, permanent: bool)       // an exception is about to be recorded
    | Completing                             // the loop over pending parts is done
    | Ended

  datatype Send = Send(token: Token, p: nat)

  /** A failure recorded for a claim, counted from one. */
  datatype Failure = Failure(claim: nat, permanent: bool)

  /** Rows are durable; the rest is the processes and the history. */
  datatype State = State(
    rows: Rows,
    workers: map<Token, Phase>,
    sends: seq<Send>,          // messages Telegram accepted
    claims: seq<Token>,        // lease owners in order
    failures: set<Failure>)    // the failures that holders recorded

  /** How a transaction ended for its worker. */
  datatype Commit = Committed | RolledBack | CommittedButRaised

  datatype Event =
    | Start(token: Token, now: int, leaseSeconds: int, commit: Commit)
    | Read(token: Token)
    | Accept(token: Token)                                    // the send succeeds
    | Reject(token: Token, accepted: bool, permanent: bool)   // the send raises
    | Note(token: Token, at: int, messageId: int, leaseSeconds: int, commit: Commit)
    | Fail(token: Token, at: int, commit: Commit)
    | Finish(token: Token, commit: Commit)
    | Crash(token: Token)

  function Next(rest: seq<nat>): Phase {
    if rest == [] then Completing else Sending(rest)
  }

  predicate Enabled(s: State, e: Event) {
    match e
    case Start(t, _, _, _) => t !in s.workers    // tokens are fresh
    case Read(t) => t in s.workers && s.workers[t].Claimed?
    case Accept(t) => t in s.workers && s.workers[t].Sending?
    case Reject(t, _, _) => t in s.workers && s.workers[t].Sending?
    case Note(t, _, _, _, _) => t in s.workers && s.workers[t].Sent?
    case Fail(t, _, _) => t in s.workers && s.workers[t].Raising?
    case Finish(t, _) => t in s.workers && s.workers[t].Completing?
    case Crash(t) => t in s.workers
  }

  predicate WellFormedPhase(phase: Phase, parts: seq<Part>) {
    match phase
    case Sending(rest) => rest != [] && forall p :: p in rest ==> p < |parts|
    case Sent(rest) => rest != [] && forall p :: p in rest ==> p < |parts|
    case Raising(p, _) => p < |parts|
    case _ => true
  }

  predicate WellFormed(s: State) {
    forall t :: t in s.workers ==> WellFormedPhase(s.workers[t], s.rows.parts)
  }

  function Become(s: State, t: Token, phase: Phase): State {
    s.(workers := s.workers[t := phase])
  }

  function StartStep(s: State, e: Event): State
    requires e.Start?
  {
    var (rows, owns) := Claim(s.rows, e.token, e.now, e.leaseSeconds);
    if e.commit.RolledBack? then Become(s, e.token, Ended)
    else
      var after := s.(rows := rows, claims := if owns then s.claims + [e.token] else s.claims);
      Become(after, e.token, if owns && e.commit.Committed? then Claimed else Ended)
  }

  function NoteStep(s: State, e: Event): State
    requires e.Note? && Enabled(s, e) && WellFormed(s)
  {
    var rest := s.workers[e.token].rest;
    assert rest[0] in rest;
    match RecordDelivered(s.rows, e.token, rest[0], e.at, e.messageId, e.leaseSeconds)
    case None => Become(s, e.token, Ended)
    case Some(rows) =>
      match e.commit
      case Committed => Become(s.(rows := rows), e.token, Next(rest[1..]))
      case RolledBack => Become(s, e.token, Raising(rest[0], false))
      case CommittedButRaised => Become(s.(rows := rows), e.token, Raising(rest[0], false))
  }

  function FailStep(s: State, e: Event): State
    requires e.Fail? && Enabled(s, e) && WellFormed(s)
  {
    var phase := s.workers[e.token];
    if e.commit.RolledBack? then Become(s, e.token, Ended)
    else
      var rows := RecordFailure(s.rows, e.token, phase.p, phase.permanent, e.at);
      var failures :=
        if Holds(s.rows.batch, e.token) then s.failures + {Failure(s.rows.batch.attempts, phase.permanent)}
        else s.failures;
      Become(s.(rows := rows, failures := failures), e.token, Ended)
  }

  function Step(s: State, e: Event): State
    requires WellFormed(s) && Enabled(s, e)
  {
    match e
    case Start(_, _, _, _) => StartStep(s, e)
    case Read(t) => Become(s, t, Next(PendingFrom(s.rows.parts, 0)))
    case Accept(t) =>
      Become(s.(sends := s.sends + [Send(t, s.workers[t].rest[0])]), t, Sent(s.workers[t].rest))
    case Reject(t, accepted, permanent) =>
      var p := s.workers[t].rest[0];
      Become(if accepted then s.(sends := s.sends + [Send(t, p)]) else s, t, Raising(p, permanent))
    case Note(_, _, _, _, _) => NoteStep(s, e)
    case Fail(_, _, _) => FailStep(s, e)
    case Finish(t, commit) =>
      Become(if commit.RolledBack? then s else s.(rows := Complete(s.rows, t)), t, Ended)
    case Crash(t) => Become(s, t, Ended)
  }

  /** A schedule: events that cannot happen where they stand are skipped. */
  function Run(s: State, events: seq<Event>): State
    decreases |events|
  {
    if events == [] || !WellFormed(s) then s
    else if Enabled(s, events[0]) then Run(Step(s, events[0]), events[1..])
    else Run(s, events[1..])
  }

  function Initial(payloads: seq<int>, expires: int): State {
    State(Created(payloads, expires), map[], [], [], {})
  }
}
