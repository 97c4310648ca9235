/** What every schedule of the outbox keeps. */
module DeliveryProofs {
  import opened Delivery

  predicate AllDelivered(parts: seq<Part>) {
    forall i :: 0 <= i < |parts| ==> parts[i].delivered
  }

  /** The delivered parts are the first ones. */
  predicate Prefix(parts: seq<Part>) {
    forall i, j :: 0 <= i < j < |parts| && parts[j].delivered ==> parts[i].delivered
  }

  predicate Increasing(rest: seq<nat>) {
    forall i, j :: 0 <= i < j < |rest| ==> rest[i] < rest[j]
  }

  /** A token is stored exactly while the batch is being delivered. */
  predicate LeaseInv(batch: Batch) {
    batch.lease.Some? <==> batch.status.Delivering?
  }

  /** Every claim has its own token; the last one is the only one stored. */
  predicate ClaimInv(s: State) {
    && |s.claims| == s.rows.batch.attempts
    && (forall i, j :: 0 <= i < j < |s.claims| ==> s.claims[i] != s.claims[j])
    && (forall t :: t in s.claims ==> t in s.workers)
    && (forall t :: t in s.workers && !s.workers[t].Ended? ==> t in s.claims)
    && (s.rows.batch.lease.Some? ==> s.claims != [] && s.claims[|s.claims| - 1] == s.rows.batch.lease.value.token)
  }

  /** What a worker that still holds the lease knows about the stored parts. */
  predicate Informed(phase: Phase, parts: seq<Part>) {
    match phase
    case Sending(rest) => rest == PendingFrom(parts, 0)
    case Sent(rest) => rest == PendingFrom(parts, 0)
    case Completing => PendingFrom(parts, 0) == []
    case _ => true
  }

  /** What the lease holder and a delivered batch have to know. */
  predicate HolderInformed(s: State) {
    && (s.rows.batch.status.Delivered? ==> AllDelivered(s.rows.parts))
    && (s.rows.batch.lease.Some? && s.rows.batch.lease.value.token in s.workers ==>
          Informed(s.workers[s.rows.batch.lease.value.token], s.rows.parts))
  }

  predicate PrefixInv(s: State) {
    Prefix(s.rows.parts) && HolderInformed(s)
  }

  /** What a worker has sent so far lies before what it is about to send. */
  predicate Ahead(s: State, t: Token, phase: Phase) {
    match phase
    case Claimed => forall i :: 0 <= i < |s.sends| ==> s.sends[i].token != t
    case Sending(rest) =>
      Increasing(rest) && forall i :: 0 <= i < |s.sends| && s.sends[i].token == t ==> rest != [] && s.sends[i].p < rest[0]
    case Sent(rest) =>
      Increasing(rest) && forall i :: 0 <= i < |s.sends| && s.sends[i].token == t ==> rest != [] && s.sends[i].p <= rest[0]
    case _ => true
  }

  predicate SendInv(s: State) {
    && (forall i :: 0 <= i < |s.sends| ==> s.sends[i].token in s.claims)
    && (forall i, j :: 0 <= i < j < |s.sends| ==> s.sends[i] != s.sends[j])
    && (forall t :: t in s.workers ==> Ahead(s, t, s.workers[t]))
  }

  /** A failure after which the batch is never tried again. */
  predicate Final(f: Failure) {
    f.permanent || f.claim >= 8
  }

  /** A final failure was the last event, and only one makes the batch failed. */
  ghost predicate FailureInv(s: State) {
    && (forall f :: f in s.failures ==>
          f.claim <= s.rows.batch.attempts
          && (Final(f) ==> s.rows.batch.status.Failed? && f.claim == s.rows.batch.attempts))
    && (s.rows.batch.status.Failed? ==> exists f :: f in s.failures && Final(f))
  }

  ghost predicate Inv(s: State) {
    WellFormed(s) && LeaseInv(s.rows.batch) && ClaimInv(s) && PrefixInv(s) && SendInv(s) && FailureInv(s)
  }

  // Facts about the pending query.

  lemma {:induction false} PendingIsIncreasing(parts: seq<Part>, k: nat)
    requires k <= |parts|
    ensures Increasing(PendingFrom(parts, k))
    ensures forall i :: k <= i < |parts| && !parts[i].delivered ==> i in PendingFrom(parts, k)
    decreases |parts| - k
  {
    if k < |parts| {
      PendingIsIncreasing(parts, k + 1);
      var all, later := PendingFrom(parts, k), PendingFrom(parts, k + 1);
      if !parts[k].delivered {
        assert forall i :: 0 <= i < |later| ==> later[i] in later;
        assert all == [k] + later;
        assert forall i :: 0 < i < |all| ==> all[i] == later[i - 1];
      }
    }
  }

  /** The first pending position has only delivered parts before it. */
  lemma {:induction false} FirstPending(parts: seq<Part>, k: nat)
    requires k <= |parts|
    ensures PendingFrom(parts, k) == [] <==> forall i :: k <= i < |parts| ==> parts[i].delivered
    ensures PendingFrom(parts, k) != [] ==>
      var p := PendingFrom(parts, k)[0];
      p < |parts| && !parts[p].delivered && forall i :: k <= i < p ==> parts[i].delivered
    decreases |parts| - k
  {
    if k < |parts| && parts[k].delivered {
      FirstPending(parts, k + 1);
    } else if k < |parts| {
      assert PendingFrom(parts, k)[0] == k;
    }
  }

  /** Delivering the first pending part removes exactly it from the query. */
  lemma {:induction false} DeliverFirst(parts: seq<Part>, k: nat, p: nat, delivered: Part)
    requires k <= |parts| && delivered.delivered
    requires PendingFrom(parts, k) != [] && PendingFrom(parts, k)[0] == p
    ensures p < |parts| && PendingFrom(parts[p := delivered], k) == PendingFrom(parts, k)[1..]
    decreases |parts| - k
  {
    FirstPending(parts, k);
    var after := parts[p := delivered];
    if parts[k].delivered {
      DeliverFirst(parts, k + 1, p, delivered);
    } else {
      assert p == k;
      PendingUnchanged(parts, after, k + 1);
    }
  }

  lemma {:induction false} PendingUnchanged(parts: seq<Part>, after: seq<Part>, k: nat)
    requires |parts| == |after| && k <= |parts|
    requires forall i :: k <= i < |parts| ==> parts[i].delivered == after[i].delivered
    ensures PendingFrom(parts, k) == PendingFrom(after, k)
    decreases |parts| - k
  {
    if k < |parts| {
      PendingUnchanged(parts, after, k + 1);
    }
  }

  // Each part of the invariant through one step.

  lemma StepKeepsLease(s: State, e: Event)
    requires WellFormed(s) && Enabled(s, e) && LeaseInv(s.rows.batch)
    ensures LeaseInv(Step(s, e).rows.batch)
  {
  }

  /** A step moves one worker and keeps the number of parts. */
  lemma StepMovesOneWorker(s: State, e: Event)
    requires WellFormed(s) && Enabled(s, e)
    ensures |Step(s, e).rows.parts| == |s.rows.parts|
    ensures e.token in Step(s, e).workers
    ensures Step(s, e).workers == s.workers[e.token := Step(s, e).workers[e.token]]
  {
  }

  lemma StepKeepsWellFormed(s: State, e: Event)
    requires WellFormed(s) && Enabled(s, e)
    ensures WellFormed(Step(s, e))
  {
    var after := Step(s, e);
    StepMovesOneWorker(s, e);
    assert WellFormedPhase(after.workers[e.token], after.rows.parts) by {
      if e.Accept? || e.Reject? || e.Note? {
        var rest := s.workers[e.token].rest;
        assert rest[0] in rest;
        assert forall p :: p in rest[1..] ==> p in rest;
      }
    }
    forall t | t in after.workers ensures WellFormedPhase(after.workers[t], after.rows.parts) {
      if t != e.token {
        assert WellFormedPhase(s.workers[t], s.rows.parts);
      }
    }
  }

  lemma StepKeepsClaims(s: State, e: Event)
    requires WellFormed(s) && Enabled(s, e) && LeaseInv(s.rows.batch) && ClaimInv(s)
    ensures ClaimInv(Step(s, e))
  {
    var after := Step(s, e);
    StepMovesOneWorker(s, e);
    if e.Start? {
      assert e.token !in s.claims;
    } else {
      assert after.claims == s.claims && after.rows.batch.attempts == s.rows.batch.attempts;
    }
  }

  /** Only the holder of the lease changes the stored rows. */
  lemma OnlyTheHolderWrites(s: State, e: Event)
    requires WellFormed(s) && Enabled(s, e)
    requires !e.Start? && !Holds(s.rows.batch, e.token)
    ensures Step(s, e).rows == s.rows
  {
  }

  /** Recording the first pending part keeps the prefix. */
  lemma NoteKeepsPrefix(s: State, e: Event)
    requires e.Note? && Enabled(s, e) && Inv(s) && Holds(s.rows.batch, e.token)
    ensures PrefixInv(Step(s, e))
  {
    var after, parts := Step(s, e), s.rows.parts;
    StepMovesOneWorker(s, e);
    FirstPending(parts, 0);
    if after.rows != s.rows {
      var p := s.workers[e.token].rest[0];
      DeliverFirst(parts, 0, p, after.rows.parts[p]);
    }
  }

  /** A step that leaves the delivered flags alone keeps the prefix, as long as
      the mover stays informed and completion was justified. */
  lemma SameFlagsKeepPrefix(before: seq<Part>, after: seq<Part>)
    requires |before| == |after| && Prefix(before)
    requires forall i :: 0 <= i < |before| ==> before[i].delivered == after[i].delivered
    ensures Prefix(after) && PendingFrom(after, 0) == PendingFrom(before, 0)
    ensures AllDelivered(after) <==> PendingFrom(after, 0) == []
  {
    PendingUnchanged(before, after, 0);
    FirstPending(after, 0);
  }

  lemma StepKeepsPrefix(s: State, e: Event)
    requires Enabled(s, e) && Inv(s)
    ensures PrefixInv(Step(s, e))
  {
    if e.Note? && Holds(s.rows.batch, e.token) {
      NoteKeepsPrefix(s, e);
    } else {
      OtherStepsKeepFlags(s, e);
      SameFlagsKeepPrefix(s.rows.parts, Step(s, e).rows.parts);
      SameFlagsKeepPrefix(s.rows.parts, s.rows.parts);
      OtherStepsKeepInformed(s, e);
    }
  }

  lemma OtherStepsKeepInformed(s: State, e: Event)
    requires Enabled(s, e) && Inv(s) && !(e.Note? && Holds(s.rows.batch, e.token))
    requires PendingFrom(Step(s, e).rows.parts, 0) == PendingFrom(s.rows.parts, 0)
    requires AllDelivered(Step(s, e).rows.parts) <==> PendingFrom(s.rows.parts, 0) == []
    requires AllDelivered(s.rows.parts) <==> PendingFrom(s.rows.parts, 0) == []
    ensures HolderInformed(Step(s, e))
  {
    if e.Start? {
      StartKeepsInformed(s, e);
    } else if e.Finish? || e.Fail? {
      EndingKeepsInformed(s, e);
    } else {
      QuietKeepsInformed(s, e);
    }
  }

  lemma StartKeepsInformed(s: State, e: Event)
    requires e.Start? && Enabled(s, e) && WellFormed(s) && HolderInformed(s) && LeaseInv(s.rows.batch)
    requires forall t :: Holds(s.rows.batch, t) ==> t in s.workers
    ensures HolderInformed(Step(s, e))
  {
  }

  lemma EndingKeepsInformed(s: State, e: Event)
    requires (e.Finish? || e.Fail?) && Enabled(s, e) && WellFormed(s) && HolderInformed(s)
    requires PendingFrom(Step(s, e).rows.parts, 0) == PendingFrom(s.rows.parts, 0)
    requires AllDelivered(Step(s, e).rows.parts) <==> PendingFrom(s.rows.parts, 0) == []
    requires AllDelivered(s.rows.parts) <==> PendingFrom(s.rows.parts, 0) == []
    ensures HolderInformed(Step(s, e))
  {
  }

  /** Reading, sending, failing to send, crashing and a refused record leave the
      rows alone. */
  lemma QuietKeepsInformed(s: State, e: Event)
    requires Enabled(s, e) && WellFormed(s) && HolderInformed(s) && !e.Start? && !e.Finish? && !e.Fail?
    requires !(e.Note? && Holds(s.rows.batch, e.token))
    requires AllDelivered(s.rows.parts) <==> PendingFrom(s.rows.parts, 0) == []
    ensures HolderInformed(Step(s, e))
  {
  }

  lemma OtherStepsKeepFlags(s: State, e: Event)
    requires WellFormed(s) && Enabled(s, e)
    requires !(e.Note? && Holds(s.rows.batch, e.token))
    ensures |Step(s, e).rows.parts| == |s.rows.parts|
    ensures forall i :: 0 <= i < |s.rows.parts| ==> Step(s, e).rows.parts[i].delivered == s.rows.parts[i].delivered
  {
  }

  predicate Emits(e: Event) {
    e.Accept? || (e.Reject? && e.accepted)
  }

  /** Only a worker about to send emits, and it emits its next position. */
  lemma StepSends(s: State, e: Event)
    requires WellFormed(s) && Enabled(s, e)
    ensures Step(s, e).sends ==
            if Emits(e) then s.sends + [Send(e.token, s.workers[e.token].rest[0])] else s.sends
    ensures Step(s, e).claims == s.claims || Step(s, e).claims == s.claims + [e.token]
  {
  }

  lemma EmissionsStayDistinct(s: State, e: Event)
    requires Inv(s) && Enabled(s, e)
    ensures forall i :: 0 <= i < |Step(s, e).sends| ==> Step(s, e).sends[i].token in Step(s, e).claims
    ensures forall i, j :: 0 <= i < j < |Step(s, e).sends| ==> Step(s, e).sends[i] != Step(s, e).sends[j]
  {
    StepSends(s, e);
    if Emits(e) {
      assert Ahead(s, e.token, s.workers[e.token]);
      assert e.token in s.claims;
    }
  }

  /** The worker that moves knows it has not sent what it will send next. */
  lemma MoverStaysAhead(s: State, e: Event)
    requires Inv(s) && Enabled(s, e)
    ensures Ahead(Step(s, e), e.token, Step(s, e).workers[e.token])
  {
    if e.Start? {
      StepSends(s, e);
      assert forall i :: 0 <= i < |s.sends| ==> s.sends[i].token != e.token;
    } else {
      assert Ahead(s, e.token, s.workers[e.token]);
      StartedStaysAhead(s, e);
    }
  }

  lemma StartedStaysAhead(s: State, e: Event)
    requires WellFormed(s) && Enabled(s, e) && !e.Start? && Ahead(s, e.token, s.workers[e.token])
    ensures Ahead(Step(s, e), e.token, Step(s, e).workers[e.token])
  {
    StepSends(s, e);
    if e.Read? {
      PendingIsIncreasing(s.rows.parts, 0);
    }
  }

  lemma StepKeepsSends(s: State, e: Event)
    requires Enabled(s, e) && Inv(s)
    ensures SendInv(Step(s, e))
  {
    var after := Step(s, e);
    StepMovesOneWorker(s, e);
    StepSends(s, e);
    EmissionsStayDistinct(s, e);
    MoverStaysAhead(s, e);
    forall t | t in after.workers ensures Ahead(after, t, after.workers[t]) {
      if t != e.token {
        assert Ahead(s, t, s.workers[t]) && after.workers[t] == s.workers[t];
      }
    }
  }

  lemma StepKeepsFailures(s: State, e: Event)
    requires Enabled(s, e) && Inv(s)
    ensures FailureInv(Step(s, e))
  {
    StepMovesOneWorker(s, e);
    if e.Fail? && Step(s, e).rows.batch.status.Failed? && !s.rows.batch.status.Failed? {
      assert Final(Failure(s.rows.batch.attempts, s.workers[e.token].permanent));
    }
  }

  lemma StepKeepsInv(s: State, e: Event)
    requires Enabled(s, e) && Inv(s)
    ensures Inv(Step(s, e))
  {
    StepKeepsLease(s, e);
    StepKeepsWellFormed(s, e);
    StepKeepsClaims(s, e);
    StepKeepsPrefix(s, e);
    StepKeepsSends(s, e);
    StepKeepsFailures(s, e);
  }

  lemma {:induction false} RunKeepsInv(s: State, events: seq<Event>)
    requires Inv(s)
    ensures Inv(Run(s, events))
    decreases |events|
  {
    if events != [] {
      if Enabled(s, events[0]) {
        StepKeepsInv(s, events[0]);
        RunKeepsInv(Step(s, events[0]), events[1..]);
      } else {
        RunKeepsInv(s, events[1..]);
      }
    }
  }

  lemma InitialInv(payloads: seq<int>, expires: int)
    ensures Inv(Initial(payloads, expires))
  {
  }

  // The promises of the outbox, over every schedule.

  /** Delivered parts are always the first ones, the batch counts as delivered
      only with all of them, and a token is stored exactly while delivering. */
  lemma DeliveredPartsAreAPrefix(payloads: seq<int>, expires: int, events: seq<Event>)
    ensures var rows := Run(Initial(payloads, expires), events).rows;
      && (forall i, j :: 0 <= i < j < |rows.parts| && rows.parts[j].delivered ==> rows.parts[i].delivered)
      && (rows.batch.status == Delivered ==> forall i :: 0 <= i < |rows.parts| ==> rows.parts[i].delivered)
      && (rows.batch.status == Delivering <==> rows.batch.lease.Some?)
  {
    InitialInv(payloads, expires);
    RunKeepsInv(Initial(payloads, expires), events);
  }

  /** The payload is immutable, and a delivered part never changes again. */
  lemma {:induction false} PartsOnlyAdvance(s: State, events: seq<Event>, i: nat)
    requires WellFormed(s) && i < |s.rows.parts|
    ensures var after := Run(s, events).rows.parts;
      && |after| == |s.rows.parts|
      && after[i].payload == s.rows.parts[i].payload
      && (s.rows.parts[i].delivered ==> after[i] == s.rows.parts[i])
    decreases |events|
  {
    if events != [] {
      if Enabled(s, events[0]) {
        StepMovesOneWorker(s, events[0]);
        StepKeepsWellFormed(s, events[0]);
        PartsOnlyAdvance(Step(s, events[0]), events[1..], i);
      } else {
        PartsOnlyAdvance(s, events[1..], i);
      }
    }
  }

  /** Delivered, failed and expired batches never change again. */
  lemma {:induction false} FinalStatesAbsorb(s: State, events: seq<Event>)
    requires Inv(s) && !Live(s.rows.batch.status)
    ensures Run(s, events).rows == s.rows
    decreases |events|
  {
    if events != [] {
      if Enabled(s, events[0]) {
        StepKeepsInv(s, events[0]);
        FinalStatesAbsorb(Step(s, events[0]), events[1..]);
      } else {
        FinalStatesAbsorb(s, events[1..]);
      }
    }
  }

  /** No claim follows a permanent failure, or a failure recorded for the eighth
      claim or a later one: the claims beyond the eighth follow crashes and lost
      leases only. */
  lemma ClaimsAfterTheEighth(payloads: seq<int>, expires: int, events: seq<Event>, f: Failure)
    ensures var after := Run(Initial(payloads, expires), events);
      f in after.failures && (f.permanent || f.claim >= 8) ==> f.claim == after.rows.batch.attempts
  {
    InitialInv(payloads, expires);
    RunKeepsInv(Initial(payloads, expires), events);
  }

  /** The batch is given up exactly after a permanent failure or a failure of the
      eighth or a later claim: no other failure is final. */
  lemma GivenUpExactly(payloads: seq<int>, expires: int, events: seq<Event>)
    ensures var after := Run(Initial(payloads, expires), events);
      after.rows.batch.status == Failed <==> exists f :: f in after.failures && (f.permanent || f.claim >= 8)
  {
    var after := Run(Initial(payloads, expires), events);
    InitialInv(payloads, expires);
    RunKeepsInv(Initial(payloads, expires), events);
    assert forall f :: f in after.failures ==> (Final(f) <==> f.permanent || f.claim >= 8);
  }

  // Duplicates.

  function SendsOf(sends: seq<Send>, p: nat): nat {
    if sends == [] then 0
    else SendsOf(sends[..|sends| - 1], p) + if sends[|sends| - 1].p == p then 1 else 0
  }

  function Senders(sends: seq<Send>, p: nat): set<Token> {
    if sends == [] then {}
    else Senders(sends[..|sends| - 1], p) + if sends[|sends| - 1].p == p then {sends[|sends| - 1].token} else {}
  }

  lemma {:induction false} SendersSent(sends: seq<Send>, p: nat, t: Token)
    requires t in Senders(sends, p)
    ensures Send(t, p) in sends
  {
    var n := |sends| - 1;
    if t in Senders(sends[..n], p) {
      SendersSent(sends[..n], p, t);
    } else {
      assert sends[n] == Send(t, p);
    }
  }

  lemma {:induction false} SendersAreCounted(sends: seq<Send>, p: nat)
    requires forall i, j :: 0 <= i < j < |sends| ==> sends[i] != sends[j]
    ensures |Senders(sends, p)| == SendsOf(sends, p)
  {
    if sends != [] {
      var n := |sends| - 1;
      var earlier, last := sends[..n], sends[n];
      SendersAreCounted(earlier, p);
      if last.p == p && last.token in Senders(earlier, p) {
        SendersSent(earlier, p, last.token);
        assert false;
      }
    }
  }

  function Members(claims: seq<Token>): set<Token> {
    set i | 0 <= i < |claims| :: claims[i]
  }

  lemma {:induction false} MembersAreFew(claims: seq<Token>)
    ensures |Members(claims)| <= |claims|
  {
    if claims != [] {
      var n := |claims| - 1;
      MembersAreFew(claims[..n]);
      assert Members(claims) == Members(claims[..n]) + {claims[n]};
    }
  }

  lemma SubsetIsSmaller<T>(a: set<T>, b: set<T>)
    requires a <= b
    ensures |a| <= |b|
  {
    if a != {} {
      var x :| x in a;
      SubsetIsSmaller(a - {x}, b - {x});
    }
  }

  /** A part reaches Telegram at most once per claim, so at most `attempts` times. */
  lemma SentAtMostAttempts(payloads: seq<int>, expires: int, events: seq<Event>, p: nat)
    ensures var after := Run(Initial(payloads, expires), events);
      SendsOf(after.sends, p) <= after.rows.batch.attempts
  {
    var after := Run(Initial(payloads, expires), events);
    InitialInv(payloads, expires);
    RunKeepsInv(Initial(payloads, expires), events);
    SendersAreCounted(after.sends, p);
    forall t | t in Senders(after.sends, p) ensures t in Members(after.claims) {
      SendersSent(after.sends, p, t);
      var i :| 0 <= i < |after.sends| && after.sends[i] == Send(t, p);
      assert after.sends[i].token in after.claims;
    }
    SubsetIsSmaller(Senders(after.sends, p), Members(after.claims));
    MembersAreFew(after.claims);
  }

  // Fencing.

  function SendsBy(sends: seq<Send>, t: Token): nat {
    if sends == [] then 0
    else SendsBy(sends[..|sends| - 1], t) + if sends[|sends| - 1].token == t then 1 else 0
  }

  /** How many messages a worker without the lease can still emit. */
  function StillToSend(s: State, t: Token): nat {
    if t in s.workers && (s.workers[t].Claimed? || s.workers[t].Sending?) then 1 else 0
  }

  lemma AppendSend(sends: seq<Send>, send: Send, t: Token)
    ensures SendsBy(sends + [send], t) == SendsBy(sends, t) + if send.token == t then 1 else 0
  {
    assert (sends + [send])[..|sends|] == sends;
  }

  /** A lease changes hands only to a worker that just started. */
  lemma LeaseIsNeverReturned(s: State, e: Event, t: Token)
    requires WellFormed(s) && Enabled(s, e) && t in s.workers && !Holds(s.rows.batch, t)
    ensures !Holds(Step(s, e).rows.batch, t)
  {
  }

  lemma StaleStep(s: State, e: Event, t: Token)
    requires WellFormed(s) && Enabled(s, e) && t in s.workers && !Holds(s.rows.batch, t)
    ensures t in Step(s, e).workers && !Holds(Step(s, e).rows.batch, t)
    ensures SendsBy(Step(s, e).sends, t) + StillToSend(Step(s, e), t) <= SendsBy(s.sends, t) + StillToSend(s, t)
    ensures e.token == t ==> Step(s, e).rows == s.rows
  {
    LeaseIsNeverReturned(s, e, t);
    StepMovesOneWorker(s, e);
    StepSends(s, e);
    if Emits(e) {
      AppendSend(s.sends, Send(e.token, s.workers[e.token].rest[0]), t);
    }
    if e.token == t {
      OnlyTheHolderWrites(s, e);
    }
  }

  /** Once its token left the row, a worker never gets it back and sends at
      most one more message. */
  lemma {:induction false} StaleWorkerSendsOnce(s: State, events: seq<Event>, t: Token)
    requires Inv(s) && t in s.workers && !Holds(s.rows.batch, t)
    ensures !Holds(Run(s, events).rows.batch, t)
    ensures SendsBy(Run(s, events).sends, t) + StillToSend(Run(s, events), t) <= SendsBy(s.sends, t) + StillToSend(s, t)
    ensures SendsBy(Run(s, events).sends, t) <= SendsBy(s.sends, t) + 1
    decreases |events|
  {
    if events != [] {
      if Enabled(s, events[0]) {
        StaleStep(s, events[0], t);
        StepKeepsInv(s, events[0]);
        StaleWorkerSendsOnce(Step(s, events[0]), events[1..], t);
      } else {
        StaleWorkerSendsOnce(s, events[1..], t);
      }
    }
  }

  function Without(events: seq<Event>, t: Token): seq<Event> {
    if events == [] then []
    else if events[0].token == t then Without(events[1..], t)
    else [events[0]] + Without(events[1..], t)
  }

  /** Two states that differ only in one worker and in what was sent. */
  ghost predicate SameExcept(a: State, b: State, t: Token) {
    && a.rows == b.rows
    && t in a.workers && t in b.workers
    && (forall u :: u != t ==> (u in a.workers <==> u in b.workers))
    && (forall u :: u != t && u in a.workers && u in b.workers ==> a.workers[u] == b.workers[u])
  }

  lemma OthersSeeTheSame(a: State, b: State, e: Event, t: Token)
    requires WellFormed(a) && WellFormed(b) && SameExcept(a, b, t) && e.token != t
    ensures Enabled(a, e) == Enabled(b, e)
    ensures Enabled(a, e) ==> SameExcept(Step(a, e), Step(b, e), t)
  {
    if Enabled(a, e) {
      StepMovesOneWorker(a, e);
      StepMovesOneWorker(b, e);
      SameMove(a, b, e, t);
    }
  }

  lemma SameMove(a: State, b: State, e: Event, t: Token)
    requires WellFormed(a) && WellFormed(b) && SameExcept(a, b, t) && e.token != t
    requires Enabled(a, e) && Enabled(b, e)
    ensures Step(a, e).rows == Step(b, e).rows
    ensures Step(a, e).workers[e.token] == Step(b, e).workers[e.token]
  {
    assert e.Start? || a.workers[e.token] == b.workers[e.token];
  }

  /** Everything a worker does after losing its lease is invisible in the
      database: dropping its events from the schedule gives the same rows. */
  lemma {:induction false} StaleWorkerIsFenced(a: State, b: State, events: seq<Event>, t: Token)
    requires Inv(a) && WellFormed(b) && SameExcept(a, b, t)
    requires !Holds(a.rows.batch, t)
    ensures Run(a, events).rows == Run(b, Without(events, t)).rows
    decreases |events|
  {
    if events != [] {
      var e, later := events[0], events[1..];
      if e.token == t {
        if Enabled(a, e) {
          StaleStep(a, e, t);
          StepMovesOneWorker(a, e);
          StepKeepsInv(a, e);
          StaleWorkerIsFenced(Step(a, e), b, later, t);
        } else {
          StaleWorkerIsFenced(a, b, later, t);
        }
      } else {
        OthersSeeTheSame(a, b, e, t);
        var kept := Without(events, t);
        assert kept[0] == e && kept[1..] == Without(later, t);
        if Enabled(a, e) {
          StaleStep(a, e, t);
          StepKeepsInv(a, e);
          StepKeepsWellFormed(b, e);
          StaleWorkerIsFenced(Step(a, e), Step(b, e), later, t);
        } else {
          StaleWorkerIsFenced(a, b, later, t);
        }
      }
    }
  }
}
