/** The bounded conversation history of bot/llm/context.py: trimmed on every use,
    yet always what an offline definition over all messages gives. */
module Conversation {

  /** A message with its token count. */
  datatype Message = Message(role: string, content: string, tokens: nat)

  function Total(messages: seq<Message>): nat {
    if messages == [] then 0 else messages[0].tokens + Total(messages[1..])
  }

  function Suffix(all: seq<Message>, n: nat): seq<Message>
    requires n <= |all|
  {
    all[|all| - n..]
  }

  /** What a stored history may be: short enough, and within the token budget
      unless it is the last pair. */
  predicate Fits(h: seq<Message>, keep: nat, budget: int) {
    |h| <= keep && (Total(h) <= budget || |h| <= 2)
  }

  /** `h` is the longest end of `all` that fits. */
  predicate Longest(all: seq<Message>, h: seq<Message>, keep: nat, budget: int) {
    && |h| <= |all| && h == Suffix(all, |h|) && Fits(h, keep, budget)
    && forall n :: |h| < n <= |all| ==> !Fits(Suffix(all, n), keep, budget)
  }

  lemma {:induction false} TotalShrinks(h: seq<Message>, n: nat)
    requires n <= |h|
    ensures Total(Suffix(h, n)) <= Total(h)
    decreases |h|
  {
    if n < |h| {
      assert Suffix(h, n) == Suffix(h[1..], n);
      TotalShrinks(h[1..], n);
    } else {
      assert Suffix(h, n) == h;
    }
  }

  lemma {:induction false} TotalAppend(h: seq<Message>, m: Message)
    ensures Total(h + [m]) == Total(h) + m.tokens
  {
    if h == [] {
      assert [] + [m] == [m] && [m][1..] == [];
    } else {
      assert (h + [m])[1..] == h[1..] + [m];
      TotalAppend(h[1..], m);
    }
  }

  /** Exactly one end is the longest that fits. */
  lemma LongestIsUnique(all: seq<Message>, h: seq<Message>, g: seq<Message>, keep: nat, budget: int)
    requires Longest(all, h, keep, budget) && Longest(all, g, keep, budget)
    ensures h == g
  {
    assert Fits(Suffix(all, |g|), keep, budget);
    assert Fits(Suffix(all, |h|), keep, budget);
  }

  /** Ends of fitting ends fit: forgetting a message never makes room for more. */
  lemma ShorterFits(h: seq<Message>, n: nat, keep: nat, budget: int)
    requires n <= |h| && Fits(h, keep, budget)
    ensures Fits(Suffix(h, n), keep, budget)
  {
    TotalShrinks(h, n);
  }

  /** The ends that fit are exactly those no longer than the stored history. */
  lemma FittingEndsExactly(all: seq<Message>, h: seq<Message>, keep: nat, budget: int, n: nat)
    requires Longest(all, h, keep, budget) && n <= |all|
    ensures Fits(Suffix(all, n), keep, budget) <==> n <= |h|
  {
    if n <= |h| {
      ShorterFits(h, n, keep, budget);
      assert Suffix(h, n) == Suffix(all, n);
    }
  }

  /** No end of `all` longer than `h` fits. */
  predicate NoneLonger(all: seq<Message>, h: nat, keep: nat, budget: int) {
    forall n :: h < n <= |all| ==> !Fits(Suffix(all, n), keep, budget)
  }

  /** Messages once dropped could not come back with one more message. */
  lemma NoneLongerWithOneMore(all: seq<Message>, h: nat, m: Message, keep: nat, budget: int)
    requires h <= |all| && NoneLonger(all, h, keep, budget)
    ensures NoneLonger(all + [m], h + 1, keep, budget)
  {
    forall n | h + 1 < n <= |all| + 1 ensures !Fits(Suffix(all + [m], n), keep, budget) {
      assert Suffix(all + [m], n) == Suffix(all, n - 1) + [m];
      TotalAppend(Suffix(all, n - 1), m);
      assert !Fits(Suffix(all, n - 1), keep, budget);
    }
  }

  lemma AppendToLongest(all: seq<Message>, h: seq<Message>, m: Message, keep: nat, budget: int)
    requires Longest(all, h, keep, budget)
    ensures h + [m] == Suffix(all + [m], |h| + 1) && NoneLonger(all + [m], |h| + 1, keep, budget)
  {
    NoneLongerWithOneMore(all, |h|, m, keep, budget);
  }

  /** Every stored history is the longest end of what was added. */
  predicate AllLongest(added: map<int, seq<Message>>, histories: map<int, seq<Message>>, keep: nat, budget: int) {
    && histories.Keys == added.Keys
    && forall user :: user in histories ==> added[user] != [] && Longest(added[user], histories[user], keep, budget)
  }

  lemma OneMoreLongest(
      added: map<int, seq<Message>>, histories: map<int, seq<Message>>,
      user: int, all: seq<Message>, h: seq<Message>, keep: nat, budget: int)
    requires AllLongest(added, histories, keep, budget) && all != [] && Longest(all, h, keep, budget)
    ensures AllLongest(added[user := all], histories[user := h], keep, budget)
  {
  }

  class Conversations {
    const budget: int
    const pairs: int
    var histories: map<int, seq<Message>>
    /** Everything added for a user since the last clear. */
    ghost var added: map<int, seq<Message>>

    function Keep(): nat {
      if 2 * pairs > 2 then 2 * pairs else 2
    }

    ghost predicate Valid()
      reads this
    {
      AllLongest(added, histories, Keep(), budget)
    }

    function Stored(user: int): seq<Message>
      reads this
    {
      if user in histories then histories[user] else []
    }

    ghost function Added(user: int): seq<Message>
      reads this
    {
      if user in added then added[user] else []
    }

    constructor (budget: int, pairs: int)
      ensures Valid() && added == map[]
    {
      this.budget, this.pairs := budget, pairs;
      histories, added := map[], map[];
    }

    /** `_enforce_budget` on a history that lacks nothing that could be kept. */
    method EnforceBudget(user: int, forceRecentLimit: bool)
      requires user in histories ==> user in added && |histories[user]| <= |added[user]| && histories[user] != []
      requires user in histories ==> histories[user] == Suffix(added[user], |histories[user]|)
      requires user in histories ==> NoneLonger(added[user], |histories[user]|, Keep(), budget)
      modifies `histories
      ensures user !in old(histories) ==> histories == old(histories)
      ensures user in old(histories) ==> user in histories && histories == old(histories)[user := histories[user]]
      ensures user in histories ==> Longest(added[user], histories[user], Keep(), budget)
    {
      if user !in histories { return; }
      var history := histories[user];
      ghost var all := added[user];
      if forceRecentLimit || |history| > Keep() {
        history := history[if |history| > Keep() then |history| - Keep() else 0..];
      }
      while |history| > 2 && Total(history) > budget
        invariant 0 < |history| <= |all| && history == Suffix(all, |history|) && |history| <= Keep()
        invariant NoneLonger(all, |history|, Keep(), budget)
      {
        assert !Fits(Suffix(all, |history|), Keep(), budget);
        history := history[1..];
      }
      histories := histories[user := history];
    }

    /** `add_message` */
    method AddMessage(user: int, m: Message)
      requires Valid()
      modifies this
      ensures Valid() && added == old(added)[user := old(Added(user)) + [m]]
    {
      var history := Stored(user);
      AppendToLongest(Added(user), history, m, Keep(), budget);
      added := added[user := Added(user) + [m]];
      histories := histories[user := history + [m]];
      EnforceBudget(user, false);
      OneMoreLongest(old(added), old(histories), user, added[user], histories[user], Keep(), budget);
      assert histories == old(histories)[user := histories[user]];
    }

    /** `get_history`: the longest end of everything added that fits. */
    method GetHistory(user: int) returns (h: seq<Message>)
      requires Valid()
      modifies `histories
      ensures Valid() && histories == old(histories)
      ensures Longest(Added(user), h, Keep(), budget)
    {
      if user in histories { NotEmpty(user); }
      EnforceBudget(user, false);
      SameAfterEnforcing(user, old(histories), histories);
      return Stored(user);
    }

    /** `trim_history` finds nothing left to trim. */
    method TrimHistory(user: int)
      requires Valid()
      modifies `histories
      ensures Valid() && histories == old(histories)
    {
      if user in histories { NotEmpty(user); }
      EnforceBudget(user, true);
      SameAfterEnforcing(user, old(histories), histories);
    }

    /** `needs_trimming`: only a last pair can be over the budget. */
    method NeedsTrimming(user: int) returns (over: bool)
      requires Valid()
      ensures over <==> Total(Stored(user)) > budget
      ensures over ==> |Stored(user)| <= 2
    {
      return Total(Stored(user)) > budget;
    }

    /** `clear_history` */
    method ClearHistory(user: int)
      requires Valid()
      modifies this
      ensures Valid() && added == old(added) - {user}
    {
      histories := histories - {user};
      added := added - {user};
    }

    lemma NotEmpty(user: int)
      requires Valid() && user in histories
      ensures histories[user] != []
    {
      assert Fits(Suffix(added[user], 1), Keep(), budget);
    }

    lemma SameAfterEnforcing(user: int, before: map<int, seq<Message>>, after: map<int, seq<Message>>)
      requires before.Keys == after.Keys && forall other :: other in before && other != user ==> before[other] == after[other]
      requires user in before ==> user in added && Longest(added[user], before[user], Keep(), budget)
      requires user in before ==> Longest(added[user], after[user], Keep(), budget)
      ensures before == after
    {
      if user in before {
        LongestIsUnique(added[user], before[user], after[user], Keep(), budget);
      }
      assert forall other :: other in before ==> before[other] == after[other];
    }
  }
}
