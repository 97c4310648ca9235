/** The chain of successors of a recurring task. */
module SuccessorProofs {
  import opened Common
  import opened Outcomes
  import opened Calendar
  import opened Recurrence
  import opened Reminders
  import opened Tasks

  /** Subtracting seconds subtracts from the instant. */
  lemma {:induction false} EarlierSubtracts(m: Moment, seconds: nat)
    requires ValidMoment(m)
    ensures ValidMoment(Earlier(m, seconds)) && Instant(Earlier(m, seconds)) == Instant(m) - seconds
    decreases seconds
  {
    if seconds > m.tod {
      PreviousDayIsPrevious(m.date);
      EarlierSubtracts(Moment(PreviousDay(m.date), DAY - 1), seconds - m.tod - 1);
    }
  }

  function NotNegative(n: int): nat {
    if n < 0 then 0 else n
  }

  /** The new reminder lies between now and the due moment; its lead is the old
      one, shortened only as far as needed not to lie in the past. */
  lemma NextReminderKeepsLead(anchor: Moment, reminder: Moment, next: Moment, now: Moment)
    requires ValidMoment(next) && ValidMoment(now) && Instant(now) <= Instant(next)
    ensures var r := NextReminder(anchor, reminder, next, now);
      var lead := NotNegative(Instant(anchor) - Instant(reminder));
      && ValidMoment(r) && Instant(now) <= Instant(r) <= Instant(next)
      && Instant(next) - Instant(r) == Min(lead, Instant(next) - Instant(now))
  {
    EarlierSubtracts(next, NotNegative(Instant(anchor) - Instant(reminder)));
  }

  predicate ValidTask(t: Task) {
    && (t.scheduled.Some? ==> ValidDate(t.scheduled.value))
    && (t.due.Some? ==> ValidDate(t.due.value))
    && (t.dueMinutes.Some? ==> t.dueMinutes.value < 24 * 60)
    && (t.remindAt.Some? ==> ValidMoment(t.remindAt.value))
  }

  /** Days from the scheduled to the due date. */
  function Gap(t: Task): Option<int> {
    if t.scheduled.Some? && t.due.Some? then Some(Ordinal(t.due.value) - Ordinal(t.scheduled.value)) else None
  }

  /** Seconds from the reminder to the anchor, not below zero. */
  function Lead(t: Task): nat {
    if t.remindAt.Some? && Anchor(t).Some? then NotNegative(Instant(Anchor(t).value) - Instant(t.remindAt.value)) else 0
  }

  lemma ValidAnchor(t: Task)
    requires ValidTask(t) && Anchor(t).Some?
    ensures ValidMoment(Anchor(t).value) && Anchor(t).value.tod == TimeOfDay(t)
  {
  }

  /** A caught-up moment of a valid rule is a later member of the orbit, in the
      future and at the same time of day. */
  lemma CaughtUp(a: Moment, rule: Rule, now: int) returns (k: nat)
    requires ValidDate(a.date) && ValidRule(rule) && CatchUp(By(rule), a, now, LOOP_BOUND).Returned?
    ensures CatchUp(By(rule), a, now, LOOP_BOUND).value.Some?
    ensures var next := CatchUp(By(rule), a, now, LOOP_BOUND).value.value;
      ValidDate(next.date) && next.tod == a.tod && Instant(next) > now && Orbit(By(rule), a, k) == Some(next)
  {
    k := CatchUpIsFirst(By(rule), a, now, LOOP_BOUND);
    ValidOrbitGrows(a, rule, k);
  }

  /** One link: the next anchor, the same gap, rule and time of day. */
  lemma SuccessorKeeps(t: Task, next: Moment, now: Moment)
    requires ValidTask(t) && Anchor(t).Some? && ValidMoment(now)
    requires ValidDate(next.date) && next.tod == TimeOfDay(t) && Instant(now) < Instant(next)
    ensures var u := Successor(t, next, now);
      && ValidTask(u) && Anchor(u) == Some(next) && Gap(u) == Gap(t)
      && u.rule == t.rule && TimeOfDay(u) == TimeOfDay(t)
      && u.scheduled.Some? == t.scheduled.Some? && u.due.Some? == t.due.Some?
  {
    ValidAnchor(t);
    if t.due.Some? {
      AddDaysIsAddition(next.date, Ordinal(t.due.value) - Ordinal(Anchor(t).value.date));
    }
    if t.remindAt.Some? {
      NextReminderKeepsLead(Anchor(t).value, t.remindAt.value, next, now);
    }
  }

  lemma SuccessorReminds(t: Task, next: Moment, now: Moment)
    requires ValidTask(t) && Anchor(t).Some? && ValidMoment(now) && t.remindAt.Some?
    requires ValidDate(next.date) && next.tod == TimeOfDay(t) && Instant(now) < Instant(next)
    ensures var u := Successor(t, next, now);
      && u.remindAt.Some? && Instant(now) <= Instant(u.remindAt.value) <= Instant(next)
      && Lead(u) <= Lead(t)
      && (Lead(t) <= Instant(next) - Instant(now) ==> Lead(u) == Lead(t))
  {
    ValidAnchor(t);
    SuccessorKeeps(t, next, now);
    NextReminderKeepsLead(Anchor(t).value, t.remindAt.value, next, now);
  }

  /** The task that a completion now would create. */
  function Continuation(t: Task, now: Moment): Option<Task> {
    match NextAnchor(t, now)
    case Returned(Some(next)) => if Anchor(t).Some? then Some(Successor(t, next, now)) else None
    case _ => None
  }

  predicate Link(t: Task, now: Moment, u: Task) {
    Continuation(t, now) == Some(u)
  }

  /** Each task is the one left by completing the task before it. */
  predicate IsChain(tasks: seq<Task>, moments: seq<Moment>) {
    && |tasks| == |moments| + 1
    && forall i :: 0 <= i < |moments| ==> ValidMoment(moments[i]) && Link(tasks[i], moments[i], tasks[i + 1])
  }

  /** `u` is a task like `t`, at the k-th member of t's orbit of anchors. */
  predicate Continues(t: Task, u: Task, k: nat) {
    && ValidTask(u) && u.rule == t.rule && TimeOfDay(u) == TimeOfDay(t) && Gap(u) == Gap(t)
    && t.rule.Some? && Anchor(t).Some? && Anchor(u).Some?
    && Orbit(By(t.rule.value), Anchor(t).value, k) == Anchor(u)
    && u.remindAt.Some? == t.remindAt.Some? && Lead(u) <= Lead(t)
  }

  /** Its reminder lies between a moment and the due moment. */
  predicate Timely(u: Task, now: Moment) {
    u.remindAt.Some? && Anchor(u).Some? ==> Instant(now) <= Instant(u.remindAt.value) <= Instant(Anchor(u).value)
  }

  /** What one link of the chain keeps. */
  lemma LinkKeeps(t: Task, now: Moment, u: Task) returns (k: nat)
    requires ValidTask(t) && ValidMoment(now) && t.rule.Some? && ValidRule(t.rule.value) && Link(t, now, u)
    ensures Continues(t, u, k) && Timely(u, now) && Instant(Anchor(u).value) > Instant(now)
  {
    ValidAnchor(t);
    k := CaughtUp(Anchor(t).value, t.rule.value, Instant(now));
    var next := NextAnchor(t, now).value.value;
    SuccessorKeeps(t, next, now);
    if t.remindAt.Some? {
      SuccessorReminds(t, next, now);
    }
  }

  lemma {:induction false} OrbitAdds(f: Stride, a: Moment, j: nat, k: nat)
    requires Orbit(f, a, j).Some?
    ensures Orbit(f, a, j + k) == Orbit(f, Orbit(f, a, j).value, k)
  {
    if k > 0 {
      OrbitAdds(f, a, j, k - 1);
    } else {
      assert Orbit(f, Orbit(f, a, j).value, 0) == Orbit(f, a, j);
    }
  }

  lemma ContinuesTwice(t: Task, u: Task, w: Task, j: nat, k: nat)
    requires Continues(t, u, j) && Continues(u, w, k)
    ensures Continues(t, w, j + k)
  {
    OrbitAdds(By(t.rule.value), Anchor(t).value, j, k);
  }

  lemma ContinuesItself(t: Task)
    requires ValidTask(t) && t.rule.Some? && Anchor(t).Some?
    ensures Continues(t, t, 0)
  {
    assert Orbit(By(t.rule.value), Anchor(t).value, 0) == Anchor(t);
  }

  /** Along any chain: the anchors stay on the orbit of the first one, so the
      calendar never drifts; the gap is constant, each reminder lies between its
      completion and the due moment, and the lead never grows. */
  lemma {:induction false} ChainKeeps(tasks: seq<Task>, moments: seq<Moment>, n: nat) returns (k: nat)
    requires IsChain(tasks, moments) && n < |tasks|
    requires ValidTask(tasks[0]) && tasks[0].rule.Some? && ValidRule(tasks[0].rule.value) && Anchor(tasks[0]).Some?
    ensures Continues(tasks[0], tasks[n], k)
    ensures n > 0 ==> Timely(tasks[n], moments[n - 1])
  {
    k := 0;
    if n == 0 {
      ContinuesItself(tasks[0]);
    } else {
      var j := ChainKeeps(tasks, moments, n - 1);
      k := ExtendChain(tasks[0], tasks[n - 1], j, moments[n - 1], tasks[n]);
    }
  }

  lemma ExtendChain(t: Task, u: Task, j: nat, now: Moment, w: Task) returns (k: nat)
    requires Continues(t, u, j) && ValidRule(t.rule.value) && ValidMoment(now) && Link(u, now, w)
    ensures Continues(t, w, k) && Timely(w, now)
  {
    assert ValidTask(u) && u.rule == t.rule;
    var i := LinkKeeps(u, now, w);
    k := j + i;
    ContinuesTwice(t, u, w, j, i);
  }

  /** The task a completion adds is the continuation, with its reminder. */
  lemma CompletionContinues(s: Rows, id: Id, user: Id, now: Moment)
    requires Complete(s, id, user, now).Returned? && Complete(s, id, user, now).value.1.Completed?
    ensures var (after, result) := Complete(s, id, user, now).value;
      match Continuation(s.tasks[id], now)
      case None => result.next == None
      case Some(u) =>
        && result.next == Some(s.minted) && s.minted in after.tasks && after.tasks[s.minted] == u
        && (u.remindAt.Some? ==> Reminds(after, s.minted, user, u.remindAt.value, now))
  {
  }

  /** A row reminding of a new task. */
  predicate Reminds(s: Rows, task: Id, user: Id, at: Moment, now: Moment) {
    task + 1 in s.reminders && s.reminders[task + 1] == NewReminder(user, Some(task), task + 2, at, None, Instant(now))
  }

  /** A completion within 10000 days of the anchor always finds the next one. */
  lemma ContinuationExists(t: Task, now: Moment)
    requires ValidTask(t) && t.rule.Some? && ValidRule(t.rule.value) && Anchor(t).Some?
    requires Instant(now) < Instant(Anchor(t).value) + LOOP_BOUND * DAY
    ensures Continuation(t, now).Some?
  {
    ValidAnchor(t);
    ValidRuleCatchesUp(Anchor(t).value, t.rule.value, Instant(now));
  }
}
