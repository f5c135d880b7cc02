/** The restart budget: so many restarts of a module inside any window, and no more. */
module ModuleSupervisor {
  import opened Names

  datatype Policy = Policy(maxRestarts: int, window: int, backoff: int)

  datatype Decision = Restart | BudgetExhausted | Disabled

  datatype Verdict = Verdict(decision: Decision, attempt: nat, delay: int)

  /** The entries no older than `cutoff`, in order. */
  function Since(times: seq<int>, cutoff: int): seq<int> {
    if times == [] then []
    else
      var last := times[|times| - 1];
      Since(times[..|times| - 1], cutoff) + (if last < cutoff then [] else [last])
  }

  ghost predicate NonDecreasing(times: seq<int>) {
    forall i, j :: 0 <= i < j < |times| ==> times[i] <= times[j]
  }

  /** What the supervisor still remembers after these deaths: pruned at each one, then extended. */
  ghost function History(p: Policy, times: seq<int>): seq<int> {
    if times == [] then []
    else
      var now := times[|times| - 1];
      Since(History(p, times[..|times| - 1]), now - p.window) + [now]
  }

  lemma {:induction false} SinceTwice(times: seq<int>, c: int, d: int)
    requires c <= d
    ensures Since(Since(times, c), d) == Since(times, d)
  {
    if times != [] {
      var front, last := times[..|times| - 1], times[|times| - 1];
      SinceTwice(front, c, d);
      if c <= last {
        assert (Since(front, c) + [last])[..|Since(front, c)|] == Since(front, c);
      } else {
        assert Since(times, c) == Since(front, c);
        assert Since(times, d) == Since(front, d);
      }
    }
  }

  /** Pruning loses nothing the window still covers: the memory is the full record cut to the window. */
  lemma {:induction false} MemoryIsTheWindow(p: Policy, times: seq<int>)
    requires NonDecreasing(times) && times != [] && p.window >= 0
    ensures History(p, times) == Since(times, times[|times| - 1] - p.window)
    decreases |times|, 1
  {
    var front, now := times[..|times| - 1], times[|times| - 1];
    if front != [] {
      Remembered(p, front, now - p.window);
    }
  }

  lemma {:induction false} Remembered(p: Policy, front: seq<int>, cutoff: int)
    requires NonDecreasing(front) && front != [] && p.window >= 0 && front[|front| - 1] - p.window <= cutoff
    ensures Since(History(p, front), cutoff) == Since(front, cutoff)
    decreases |front|, 2
  {
    MemoryIsTheWindow(p, front);
    SinceTwice(front, front[|front| - 1] - p.window, cutoff);
  }

  /** The record's entries from `k` on are those no older than `cutoff`. */
  ghost predicate WindowFrom(times: seq<int>, k: nat, cutoff: int) {
    && k <= |times|
    && (forall i :: 0 <= i < k ==> times[i] < cutoff)
    && (forall i :: k <= i < |times| ==> times[i] >= cutoff)
  }

  lemma {:induction false} SinceIsTheWindow(times: seq<int>, k: nat, cutoff: int)
    requires WindowFrom(times, k, cutoff)
    ensures Since(times, cutoff) == times[k..]
  {
    if times != [] {
      var front, last := times[..|times| - 1], times[|times| - 1];
      if k < |times| {
        SinceIsTheWindow(front, k, cutoff);
        assert times[k..] == front[k..] + [last];
      } else {
        SinceIsTheWindow(front, k - 1, cutoff);
      }
    }
  }

  lemma {:induction false} AWindowExists(times: seq<int>, cutoff: int) returns (k: nat)
    requires NonDecreasing(times)
    ensures WindowFrom(times, k, cutoff)
  {
    k := 0;
    if times != [] {
      k := AWindowExists(times[..|times| - 1], cutoff);
      if times[|times| - 1] < cutoff {
        assert k < |times| - 1 ==> times[k] <= times[|times| - 1];
        k := |times|;
      }
    }
  }

  lemma HistoryGrows(p: Policy, times: seq<int>, now: int)
    ensures History(p, times + [now]) == Since(History(p, times), now - p.window) + [now]
  {
    assert (times + [now])[..|times|] == times;
  }

  ghost predicate Restarted(p: Policy, times: seq<int>) {
    times != [] && |History(p, times)| <= p.maxRestarts
  }

  /** How many of the deaths inside `[from, to]` were answered with a restart. */
  ghost function Restarts(p: Policy, times: seq<int>, from: int, to: int): nat {
    if times == [] then 0
    else
      Restarts(p, times[..|times| - 1], from, to)
      + (if from <= times[|times| - 1] <= to && Restarted(p, times) then 1 else 0)
  }

  lemma {:induction false} RestartsAreDeaths(p: Policy, times: seq<int>, from: int, to: int, cutoff: int)
    requires cutoff <= from
    ensures Restarts(p, times, from, to) <= |Since(times, cutoff)|
  {
    if times != [] {
      RestartsAreDeaths(p, times[..|times| - 1], from, to, cutoff);
    }
  }

  /** No closed interval as long as the window ever holds more restarts than the budget. */
  lemma {:induction false} BudgetHolds(p: Policy, times: seq<int>, from: int)
    requires NonDecreasing(times) && p.maxRestarts > 0
    ensures Restarts(p, times, from, from + p.window) <= p.maxRestarts
  {
    if times != [] {
      var front, now := times[..|times| - 1], times[|times| - 1];
      assert NonDecreasing(front);
      BudgetHolds(p, front, from);
      if from <= now <= from + p.window && Restarted(p, times) {
        RestartsAreDeaths(p, front, from, from + p.window, now - p.window);
        if front != [] {
          Remembered(p, front, now - p.window);
        }
        assert |History(p, times)| == |Since(front, now - p.window)| + 1;
      }
    }
  }

  /** A module is given up on only when its window really holds more deaths than the budget. */
  lemma VerdictCountsTheWindow(p: Policy, times: seq<int>)
    requires NonDecreasing(times) && times != [] && p.window >= 0
    ensures Restarted(p, times) <==> |Since(times, times[|times| - 1] - p.window)| <= p.maxRestarts
  {
    MemoryIsTheWindow(p, times);
  }

  /**
   * What a death is judged by: the memory is the record from the first death inside the window on, and the verdict
   * is a restart exactly when these are no more than the budget. Alone in its window a death is always restarted.
   */
  lemma TheWindowDecides(p: Policy, times: seq<int>) returns (k: nat)
    requires NonDecreasing(times) && times != [] && p.window >= 0
    ensures k < |times| && WindowFrom(times, k, times[|times| - 1] - p.window)
    ensures History(p, times) == times[k..]
    ensures Restarted(p, times) <==> |times| - k <= p.maxRestarts
    ensures p.maxRestarts > 0 && k == |times| - 1 ==> Restarted(p, times)
  {
    k := AWindowExists(times, times[|times| - 1] - p.window);
    MemoryIsTheWindow(p, times);
    SinceIsTheWindow(times, k, times[|times| - 1] - p.window);
  }

  /** The verdict counts the deaths no older than `cutoff`. */
  ghost predicate ByTheWindow(p: Policy, times: seq<int>, cutoff: int, v: Verdict) {
    forall k: nat :: WindowFrom(times, k, cutoff) ==>
                       && v.attempt == |times| - k
                       && v.decision == if |times| - k <= p.maxRestarts then Restart else BudgetExhausted
  }

  lemma JudgedByTheWindow(p: Policy, times: seq<int>, v: Verdict)
    requires NonDecreasing(times) && times != [] && p.window >= 0
    requires v.attempt == |History(p, times)|
    requires v.decision == if |History(p, times)| <= p.maxRestarts then Restart else BudgetExhausted
    ensures ByTheWindow(p, times, times[|times| - 1] - p.window, v)
  {
    MemoryIsTheWindow(p, times);
    var cutoff := times[|times| - 1] - p.window;
    forall k: nat | WindowFrom(times, k, cutoff)
      ensures v.attempt == |times| - k
    {
      SinceIsTheWindow(times, k, cutoff);
      assert |times[k..]| == |times| - k;
    }
  }

  /** The verdict on the last death: it counts what is remembered, which is the window when time does not run back. */
  ghost predicate Rightly(p: Policy, times: seq<int>, v: Verdict)
    requires times != []
  {
    && v.attempt == |History(p, times)|
    && v.decision == (if Restarted(p, times) then Restart else BudgetExhausted)
    && (p.window >= 0 && NonDecreasing(times) ==> ByTheWindow(p, times, times[|times| - 1] - p.window, v))
  }

  lemma JudgedRightly(p: Policy, times: seq<int>, v: Verdict)
    requires times != [] && v.attempt == |History(p, times)|
    requires v.decision == if |History(p, times)| <= p.maxRestarts then Restart else BudgetExhausted
    ensures Rightly(p, times, v)
  {
    if p.window >= 0 && NonDecreasing(times) {
      JudgedByTheWindow(p, times, v);
    }
  }

  /** One death after those `judged`, of which `remembered` is left: the new memory and the verdict. */
  method Judge(p: Policy, remembered: seq<int>, now: int, ghost judged: seq<int>) returns (kept: seq<int>, v: Verdict)
    requires p.maxRestarts > 0 && remembered == History(p, judged)
    ensures kept == History(p, judged + [now]) && v.delay == p.backoff
    ensures Rightly(p, judged + [now], v)
  {
    HistoryGrows(p, judged, now);
    kept := RemoveOlder(remembered, now - p.window);
    kept := kept + [now];
    v := Verdict(if |kept| <= p.maxRestarts then Restart else BudgetExhausted, |kept|, p.backoff);
    JudgedRightly(p, judged + [now], v);
  }

  ghost predicate Remembers(p: Policy, deaths: map<Name, seq<int>>, record: map<Name, seq<int>>) {
    deaths.Keys == record.Keys && forall n :: n in deaths ==> deaths[n] == History(p, record[n])
  }

  lemma RemembersOneMore(p: Policy, deaths: map<Name, seq<int>>, record: map<Name, seq<int>>, name: Name,
                         kept: seq<int>, judged: seq<int>)
    requires Remembers(p, deaths, record) && kept == History(p, judged)
    ensures Remembers(p, deaths[name := kept], record[name := judged])
  {
  }

  class Supervisor {
    var policy: Policy
    var deaths: map<Name, seq<int>>
    /** Every death judged since the module was last forgotten. */
    ghost var record: map<Name, seq<int>>

    ghost predicate Valid()
      reads this
    {
      Remembers(policy, deaths, record)
    }

    ghost function Judged(name: Name): seq<int>
      reads this
    {
      if name in record then record[name] else []
    }

    constructor (policy: Policy)
      ensures Valid() && this.policy == policy && record == map[]
    {
      this.policy := policy;
      deaths := map[];
      record := map[];
    }

    /** A policy change starts every budget over. */
    method SetPolicy(p: Policy)
      modifies this
      ensures Valid() && policy == p && record == map[]
    {
      policy := p;
      deaths := map[];
      record := map[];
    }

    /** Judge one death and record it. With supervision off nothing is recorded. */
    method OnUnexpectedExit(name: Name, now: int) returns (v: Verdict)
      requires Valid()
      modifies this
      ensures Valid() && policy == old(policy) && v.delay == policy.backoff
      ensures policy.maxRestarts <= 0 ==> v.decision == Disabled && v.attempt == 0 && record == old(record)
      ensures policy.maxRestarts > 0 ==>
                && record == old(record)[name := old(Judged(name)) + [now]]
                && Rightly(policy, old(Judged(name)) + [now], v)
    {
      if policy.maxRestarts <= 0 {
        return Verdict(Disabled, 0, policy.backoff);
      }
      var remembered := if name in deaths then deaths[name] else [];
      ghost var judged := Judged(name);
      assert remembered == History(policy, judged);
      var kept: seq<int>;
      kept, v := Judge(policy, remembered, now, judged);
      RemembersOneMore(policy, deaths, record, name, kept, judged + [now]);
      deaths := deaths[name := kept];
      record := record[name := judged + [now]];
    }

    method Forget(name: Name)
      requires Valid()
      modifies this
      ensures Valid() && policy == old(policy) && record == old(record) - {name}
    {
      deaths := deaths - {name};
      record := record - {name};
    }

    method Clear()
      modifies this
      ensures Valid() && policy == old(policy) && record == map[]
    {
      deaths := map[];
      record := map[];
    }
  }

  method RemoveOlder(times: seq<int>, cutoff: int) returns (kept: seq<int>)
    ensures kept == Since(times, cutoff)
  {
    kept := [];
    for i := 0 to |times|
      invariant kept == Since(times[..i], cutoff)
    {
      assert times[..i + 1][..i] == times[..i];
      if times[i] >= cutoff {
        kept := kept + [times[i]];
      }
    }
    assert times[..|times|] == times;
  }
}
