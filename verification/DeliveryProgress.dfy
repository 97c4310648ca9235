/** When the outbox tries a batch again, and that an undisturbed worker delivers
    all of it. */
module DeliveryProgress {
  import opened Common
  import opened Outcomes
  import opened Delivery
  import opened DeliveryProofs

  /** What a start that commits does to a batch still to be delivered: it claims
      exactly a free one whose delay is over and whose time has not run out, ends
      a free one whose time has run out, and changes nothing else. */
  predicate StartsExactly(s: State, start: Event, free: bool, due: bool)
    requires WellFormed(s) && Enabled(s, start) && start.Start?
  {
    var after := Step(s, start);
    var timely := s.rows.batch.expires.None? || start.now < s.rows.batch.expires.value;
    && (Holds(after.rows.batch, start.token) <==> free && due && timely)
    && after.claims == (if free && due && timely then s.claims + [start.token] else s.claims)
    && (after.rows.batch.status.Expired? <==> free && !timely)
    && (after.rows == s.rows || after.rows.batch.status.Expired? || Holds(after.rows.batch, start.token))
    && after.rows.parts == s.rows.parts
  }

  lemma StartExactly(s: State, start: Event, free: bool, due: bool)
    requires WellFormed(s) && Enabled(s, start) && start.Start? && !start.commit.RolledBack?
    requires !Holds(s.rows.batch, start.token) && Live(s.rows.batch.status)
    requires free <==> s.rows.batch.lease.None? || s.rows.batch.lease.value.expires < start.now
    requires due <==> s.rows.batch.nextAttempt.None? || s.rows.batch.nextAttempt.value <= start.now
    ensures StartsExactly(s, start, free, due)
  {
  }

  /** Starts before a time, and what leaves the rows of one worker's claim alone. */
  predicate Quiet(e: Event, token: Token, until: int) {
    match e
    case Start(_, now, _, commit) => commit.RolledBack? || now < until
    case Note(t, _, _, _, _) => t != token
    case Fail(t, _, _) => t != token
    case Finish(t, _) => t != token
    case _ => true
  }

  predicate AllQuiet(events: seq<Event>, token: Token, until: int) {
    forall i :: 0 <= i < |events| ==> Quiet(events[i], token, until)
  }

  /** Before this time no start can claim or end the batch. */
  predicate Asleep(batch: Batch, until: int) {
    if batch.lease.Some? then until <= batch.lease.value.expires + 1
    else
      && batch.nextAttempt.Some? && until <= batch.nextAttempt.value
      && (batch.expires.None? || until <= batch.expires.value)
  }

  lemma QuietStep(s: State, e: Event, token: Token, until: int)
    requires WellFormed(s) && Enabled(s, e) && Quiet(e, token, until)
    requires Asleep(s.rows.batch, until) && (s.rows.batch.lease.Some? ==> Holds(s.rows.batch, token))
    ensures Step(s, e).rows == s.rows && Step(s, e).claims == s.claims
  {
  }

  lemma {:induction false} QuietRun(s: State, events: seq<Event>, token: Token, until: int)
    requires Inv(s) && AllQuiet(events, token, until)
    requires Asleep(s.rows.batch, until) && (s.rows.batch.lease.Some? ==> Holds(s.rows.batch, token))
    ensures Run(s, events).rows == s.rows
    decreases |events|
  {
    if events != [] {
      assert Quiet(events[0], token, until);
      if Enabled(s, events[0]) {
        QuietStep(s, events[0], token, until);
        StepKeepsInv(s, events[0]);
        QuietRun(Step(s, events[0]), events[1..], token, until);
      } else {
        QuietRun(s, events[1..], token, until);
      }
    }
  }

  /** The seconds between a failure and the next attempt. */
  function Delay(attempts: nat): int {
    Min(3600, 30 * Pow2(Min(attempts, 7)))
  }

  /** One attempt more of a part that is still pending. */
  predicate CountsAttempt(before: seq<Part>, after: seq<Part>, p: nat)
    requires p < |before|
  {
    after == if before[p].delivered then before else before[p := before[p].(attempts := before[p].attempts + 1)]
  }

  /** The batch after a failure that costs a delay only. */
  function Delayed(batch: Batch, at: int): Batch {
    batch.(status := Pending, lease := None, nextAttempt := Some(at + Delay(batch.attempts)))
  }

  lemma FailureCostsADelay(s: State, fail: Event)
    requires Inv(s) && fail.Fail? && Enabled(s, fail) && Holds(s.rows.batch, fail.token) && !fail.commit.RolledBack?
    requires !s.workers[fail.token].permanent && s.rows.batch.attempts < 8
    ensures Inv(Step(s, fail)) && Step(s, fail).rows.batch == Delayed(s.rows.batch, fail.at)
    ensures CountsAttempt(s.rows.parts, Step(s, fail).rows.parts, s.workers[fail.token].p)
  {
    StepKeepsInv(s, fail);
  }

  /** A failure that is not permanent, of one of the first seven claims, costs a
      delay only: while nothing else touches the batch, it is claimed again from
      the end of the delay until it expires, and never before. */
  lemma FailedIsRetriedOnTime(s: State, fail: Event, events: seq<Event>, until: int, start: Event)
    requires Inv(s) && fail.Fail? && Enabled(s, fail) && Holds(s.rows.batch, fail.token) && !fail.commit.RolledBack?
    requires !s.workers[fail.token].permanent && s.rows.batch.attempts < 8
    requires until <= fail.at + Delay(s.rows.batch.attempts)
    requires s.rows.batch.expires.Some? ==> until <= s.rows.batch.expires.value
    requires AllQuiet(events, fail.token, until)
    requires start.Start? && !start.commit.RolledBack? && start.token !in Run(Step(s, fail), events).workers
    ensures Inv(Run(Step(s, fail), events))
    ensures Run(Step(s, fail), events).rows.batch == Delayed(s.rows.batch, fail.at)
    ensures CountsAttempt(s.rows.parts, Run(Step(s, fail), events).rows.parts, s.workers[fail.token].p)
    ensures StartsExactly(Run(Step(s, fail), events), start, true, fail.at + Delay(s.rows.batch.attempts) <= start.now)
  {
    FailureCostsADelay(s, fail);
    RunKeepsInv(Step(s, fail), events);
    QuietRun(Step(s, fail), events, fail.token, until);
    StartExactly(Run(Step(s, fail), events), start, true, fail.at + Delay(s.rows.batch.attempts) <= start.now);
  }

  /** The time a lease was written, by a claim or by a recorded part. */
  function WrittenAt(e: Event): int
    requires e.Start? || e.Note?
  {
    if e.Start? then e.now else e.at
  }

  /** A worker that claimed the batch, or recorded a part, excludes every other
      one exactly until its lease is over; then the batch is claimed again, unless
      its delay or its time says otherwise. */
  lemma LapsedLeaseIsTakenOver(s: State, e: Event, events: seq<Event>, start: Event)
    requires Inv(s) && (e.Start? || e.Note?) && Enabled(s, e)
    requires Step(s, e).rows != s.rows && Holds(Step(s, e).rows.batch, e.token)
    requires AllQuiet(events, e.token, WrittenAt(e) + e.leaseSeconds + 1)
    requires start.Start? && !start.commit.RolledBack? && start.token !in Run(Step(s, e), events).workers
    ensures Inv(Run(Step(s, e), events))
    ensures StartsExactly(Run(Step(s, e), events), start, WrittenAt(e) + e.leaseSeconds < start.now,
      s.rows.batch.nextAttempt.None? || s.rows.batch.nextAttempt.value <= start.now)
  {
    var after := Run(Step(s, e), events);
    StepKeepsInv(s, e);
    RunKeepsInv(Step(s, e), events);
    LeaseIsWritten(s, e);
    QuietRun(Step(s, e), events, e.token, WrittenAt(e) + e.leaseSeconds + 1);
    StartExactly(after, start, WrittenAt(e) + e.leaseSeconds < start.now,
      s.rows.batch.nextAttempt.None? || s.rows.batch.nextAttempt.value <= start.now);
  }

  lemma LeaseIsWritten(s: State, e: Event)
    requires Inv(s) && (e.Start? || e.Note?) && Enabled(s, e)
    requires Step(s, e).rows != s.rows && Holds(Step(s, e).rows.batch, e.token)
    ensures Step(s, e).rows.batch.lease == Some(Lease(e.token, WrittenAt(e) + e.leaseSeconds))
    ensures Step(s, e).rows.batch.nextAttempt == s.rows.batch.nextAttempt
    ensures Step(s, e).rows.batch.status.Delivering?
  {
    assert e.Start? ==> !Holds(s.rows.batch, e.token);
  }

  /** A sent part is recorded exactly by a worker that still holds its lease at that
      time; a record that comes too late changes nothing. */
  lemma RecordsExactly(s: State, note: Event)
    requires Inv(s) && note.Note? && Enabled(s, note) && !note.commit.RolledBack?
    ensures Step(s, note).rows != s.rows <==>
      Holds(s.rows.batch, note.token) && note.at <= s.rows.batch.lease.value.expires
    ensures Step(s, note).rows != s.rows ==>
      s.workers[note.token].rest[0] < |s.rows.parts| && Step(s, note).rows.parts[s.workers[note.token].rest[0]].delivered
  {
    FirstPending(s.rows.parts, 0);
  }

  /** A new batch is claimed by the first start that commits before it expires. */
  lemma NewBatchStartsAtOnce(payloads: seq<int>, expires: int, events: seq<Event>, start: Event)
    requires forall i :: 0 <= i < |events| && events[i].Start? ==> events[i].commit.RolledBack?
    requires start.Start? && !start.commit.RolledBack?
    requires start.token !in Run(Initial(payloads, expires), events).workers
    ensures Inv(Run(Initial(payloads, expires), events))
    ensures StartsExactly(Run(Initial(payloads, expires), events), start, true, true)
  {
    InitialInv(payloads, expires);
    RunKeepsInv(Initial(payloads, expires), events);
    NothingStarted(Initial(payloads, expires), events);
    StartExactly(Run(Initial(payloads, expires), events), start, true, true);
  }

  lemma {:induction false} NothingStarted(s: State, events: seq<Event>)
    requires Inv(s) && s.rows.batch.lease.None?
    requires forall i :: 0 <= i < |events| && events[i].Start? ==> events[i].commit.RolledBack?
    ensures Run(s, events).rows == s.rows
    decreases |events|
  {
    if events != [] {
      var e := events[0];
      if Enabled(s, e) {
        assert e.Start? ==> e.commit.RolledBack?;
        if !e.Start? {
          OnlyTheHolderWrites(s, e);
        }
        StepKeepsInv(s, e);
        NothingStarted(Step(s, e), events[1..]);
      } else {
        NothingStarted(s, events[1..]);
      }
    }
  }

  // One worker from its claim to its end.

  /** The rest of a worker's run in which every send and transaction succeeds. */
  function Script(token: Token, ats: seq<int>, ids: seq<int>, leaseSeconds: int): seq<Event>
    requires |ats| == |ids|
  {
    if ats == [] then [Event.Finish(token, Committed)]
    else
      [Accept(token), Note(token, ats[0], ids[0], leaseSeconds, Committed)]
      + Script(token, ats[1..], ids[1..], leaseSeconds)
  }

  /** Every part is recorded before the lease written last is over. */
  predicate InTime(ats: seq<int>, leaseEnd: int, leaseSeconds: int) {
    ats == [] || (ats[0] <= leaseEnd && InTime(ats[1..], ats[0] + leaseSeconds, leaseSeconds))
  }

  function SendsTo(token: Token, positions: seq<nat>): seq<Send> {
    if positions == [] then [] else [Send(token, positions[0])] + SendsTo(token, positions[1..])
  }

  /** All parts are delivered, the pending ones under the new message ids. */
  predicate DeliveredAs(before: seq<Part>, after: seq<Part>, pending: seq<nat>, ids: seq<int>) {
    && |after| == |before| && |pending| == |ids|
    && AllDelivered(after)
    && forall i :: 0 <= i < |pending| ==> pending[i] < |after| && after[pending[i]].messageId == Some(ids[i])
  }

  lemma RunTwo(s: State, a: Event, b: Event, rest: seq<Event>)
    requires Inv(s) && Enabled(s, a) && Inv(Step(s, a)) && Enabled(Step(s, a), b)
    ensures Run(s, [a, b] + rest) == Run(Step(Step(s, a), b), rest)
  {
    var events := [a, b] + rest;
    assert events[1..] == [b] + rest && events[1..][1..] == rest;
  }

  /** A worker that holds the lease is about to send the pending parts. */
  ghost predicate AboutToSend(s: State, token: Token, leaseEnd: int) {
    && Inv(s) && token in s.workers && s.workers[token] == Next(PendingFrom(s.rows.parts, 0))
    && s.rows.batch.lease == Some(Lease(token, leaseEnd))
  }

  /** The first pending part is recorded under a message id. */
  predicate RecordedOne(before: seq<Part>, after: seq<Part>, id: int)
    requires PendingFrom(before, 0) != []
  {
    var pending := PendingFrom(before, 0);
    && |after| == |before| && pending[0] < |after|
    && after[pending[0]].delivered && after[pending[0]].messageId == Some(id)
    && after[pending[0]].attempts == before[pending[0]].attempts + 1
    && PendingFrom(after, 0) == pending[1..]
  }

  /** The first pending part was sent and recorded. */
  predicate SentOne(s: State, after: State, token: Token, id: int)
    requires PendingFrom(s.rows.parts, 0) != []
  {
    && after.sends == s.sends + [Send(token, PendingFrom(s.rows.parts, 0)[0])]
    && RecordedOne(s.rows.parts, after.rows.parts, id)
  }

  lemma SendFirst(s: State, token: Token, leaseEnd: int) returns (sent: State)
    requires AboutToSend(s, token, leaseEnd) && PendingFrom(s.rows.parts, 0) != []
    ensures Enabled(s, Accept(token)) && sent == Step(s, Accept(token)) && Inv(sent)
    ensures sent.rows == s.rows && sent.sends == s.sends + [Send(token, PendingFrom(s.rows.parts, 0)[0])]
    ensures token in sent.workers && sent.workers[token] == Sent(PendingFrom(s.rows.parts, 0))
  {
    sent := Step(s, Accept(token));
    StepKeepsInv(s, Accept(token));
  }

  lemma RecordFirst(sent: State, token: Token, leaseEnd: int, note: Event) returns (next: State)
    requires Inv(sent) && token in sent.workers && sent.workers[token] == Sent(PendingFrom(sent.rows.parts, 0))
    requires sent.rows.batch.lease == Some(Lease(token, leaseEnd)) && PendingFrom(sent.rows.parts, 0) != []
    requires note.Note? && note.token == token && note.commit.Committed? && note.at <= leaseEnd
    ensures Enabled(sent, note) && next == Step(sent, note)
    ensures AboutToSend(next, token, note.at + note.leaseSeconds) && next.sends == sent.sends
    ensures RecordedOne(sent.rows.parts, next.rows.parts, note.messageId)
  {
    var p := PendingFrom(sent.rows.parts, 0)[0];
    FirstPending(sent.rows.parts, 0);
    StepKeepsInv(sent, note);
    next := Step(sent, note);
    DeliverFirst(sent.rows.parts, 0, p, next.rows.parts[p]);
  }

  lemma OnePart(s: State, token: Token, leaseEnd: int, note: Event, rest: seq<Event>) returns (next: State)
    requires AboutToSend(s, token, leaseEnd) && PendingFrom(s.rows.parts, 0) != []
    requires note.Note? && note.token == token && note.commit.Committed? && note.at <= leaseEnd
    ensures Run(s, [Accept(token), note] + rest) == Run(next, rest)
    ensures AboutToSend(next, token, note.at + note.leaseSeconds) && SentOne(s, next, token, note.messageId)
  {
    var sent := SendFirst(s, token, leaseEnd);
    next := RecordFirst(sent, token, leaseEnd, note);
    RunTwo(s, Accept(token), note, rest);
  }

  /** What the whole script of a worker does from here. */
  ghost predicate DeliversAll(s: State, after: State, token: Token, ids: seq<int>) {
    && after.rows.batch.status.Delivered? && after.rows.batch.lease.None?
    && DeliveredAs(s.rows.parts, after.rows.parts, PendingFrom(s.rows.parts, 0), ids)
    && after.sends == s.sends + SendsTo(token, PendingFrom(s.rows.parts, 0))
  }

  lemma OneAndTheRest(s: State, next: State, after: State, token: Token, ids: seq<int>)
    requires PendingFrom(s.rows.parts, 0) != [] && |ids| == |PendingFrom(s.rows.parts, 0)|
    requires SentOne(s, next, token, ids[0]) && DeliversAll(next, after, token, ids[1..])
    requires after.rows.parts[PendingFrom(s.rows.parts, 0)[0]] == next.rows.parts[PendingFrom(s.rows.parts, 0)[0]]
    ensures DeliversAll(s, after, token, ids)
  {
    var pending := PendingFrom(s.rows.parts, 0);
    Associate(s.sends, [Send(token, pending[0])], SendsTo(token, pending[1..]));
    assert forall i :: 1 <= i < |pending| ==> pending[i] == pending[1..][i - 1] && ids[i] == ids[1..][i - 1];
  }

  lemma FinishDelivers(s: State, token: Token, leaseEnd: int)
    requires AboutToSend(s, token, leaseEnd) && PendingFrom(s.rows.parts, 0) == []
    ensures DeliversAll(s, Run(s, [Event.Finish(token, Committed)]), token, [])
  {
    FirstPending(s.rows.parts, 0);
    assert Run(s, [Event.Finish(token, Committed)]) == Run(Step(s, Event.Finish(token, Committed)), []);
  }

  lemma {:induction false} ScriptDelivers(s: State, token: Token, leaseEnd: int, ats: seq<int>, ids: seq<int>,
      leaseSeconds: int)
    requires AboutToSend(s, token, leaseEnd)
    requires |ats| == |ids| == |PendingFrom(s.rows.parts, 0)| && InTime(ats, leaseEnd, leaseSeconds)
    ensures DeliversAll(s, Run(s, Script(token, ats, ids, leaseSeconds)), token, ids)
    decreases |ats|
  {
    if ats == [] {
      FinishDelivers(s, token, leaseEnd);
    } else {
      var note := Note(token, ats[0], ids[0], leaseSeconds, Committed);
      var rest := Script(token, ats[1..], ids[1..], leaseSeconds);
      var next := OnePart(s, token, leaseEnd, note, rest);
      ScriptDelivers(next, token, ats[0] + leaseSeconds, ats[1..], ids[1..], leaseSeconds);
      PartsOnlyAdvance(next, rest, PendingFrom(s.rows.parts, 0)[0]);
      OneAndTheRest(s, next, Run(next, rest), token, ids);
    }
  }

  /** A start that commits and owns the batch. */
  ghost predicate Claims(s: State, start: Event) {
    && Inv(s) && start.Start? && start.commit.Committed? && Enabled(s, start)
    && Holds(Step(s, start).rows.batch, start.token)
  }

  lemma FromTheSameParts(s: State, next: State, after: State, token: Token, ids: seq<int>)
    requires next.rows.parts == s.rows.parts && next.sends == s.sends && DeliversAll(next, after, token, ids)
    ensures DeliversAll(s, after, token, ids)
  {
  }

  lemma ClaimAndRead(s: State, start: Event, rest: seq<Event>) returns (next: State)
    requires Claims(s, start)
    ensures Run(s, [start, Read(start.token)] + rest) == Run(next, rest)
    ensures AboutToSend(next, start.token, start.now + start.leaseSeconds)
    ensures next.rows.parts == s.rows.parts && next.sends == s.sends
  {
    StepKeepsInv(s, start);
    assert !Holds(s.rows.batch, start.token);
    LeaseIsWritten(s, start);
    StepKeepsInv(Step(s, start), Read(start.token));
    next := Step(Step(s, start), Read(start.token));
    RunTwo(s, start, Read(start.token), rest);
  }

  /** A worker that claims the batch and meets neither a failure nor the end of
      its lease sends every pending part once, in order, records each under its
      message id, and leaves the batch delivered. */
  lemma UndisturbedWorkerDelivers(s: State, start: Event, ats: seq<int>, ids: seq<int>) returns (after: State)
    requires Claims(s, start)
    requires |ats| == |ids| == |PendingFrom(s.rows.parts, 0)|
    requires InTime(ats, start.now + start.leaseSeconds, start.leaseSeconds)
    ensures after == Run(s, [start, Read(start.token)] + Script(start.token, ats, ids, start.leaseSeconds))
    ensures DeliversAll(s, after, start.token, ids)
  {
    var rest := Script(start.token, ats, ids, start.leaseSeconds);
    var next := ClaimAndRead(s, start, rest);
    ScriptDelivers(next, start.token, start.now + start.leaseSeconds, ats, ids, start.leaseSeconds);
    after := Run(next, rest);
    FromTheSameParts(s, next, after, start.token, ids);
  }
}
