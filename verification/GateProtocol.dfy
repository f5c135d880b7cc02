/** The router's gate under re-entry: work frames nest on a thread while stop closes the gate and waits. */
module GateProtocol {
  import opened Names
  import opened WebCallRouter

  /** One call of runUnderGate that was admitted: recorded, inside the work, or about to leave. */
  datatype Frame = Admitted | Working | Leaving

  /** `stopping` are the threads waiting inside stop; `begun` counts the work ever begun. */
  datatype State = State(gate: GateView, stacks: map<Tid, seq<Frame>>, stopping: set<Tid>, begun: nat)

  datatype Event = Ask(t: Tid) | Begin(t: Tid) | End(t: Tid) | Leave(t: Tid) | Close(t: Tid) | Return(t: Tid)

  const START := State(GateView(true, multiset{}), map[], {}, 0)

  function Stack(s: State, t: Tid): seq<Frame> {
    if t in s.stacks then s.stacks[t] else []
  }

  predicate Top(s: State, t: Tid, f: Frame) {
    Stack(s, t) != [] && Stack(s, t)[|Stack(s, t)| - 1] == f
  }

  /** The thread is outside the router, or inside a unit of work that may call back in. */
  predicate AtLarge(s: State, t: Tid) {
    t !in s.stopping && (Stack(s, t) == [] || Top(s, t, Working))
  }

  predicate Can(s: State, ev: Event) {
    match ev
    case Ask(t) => AtLarge(s, t)
    case Begin(t) => t !in s.stopping && Top(s, t, Admitted)
    case End(t) => t !in s.stopping && Top(s, t, Working)
    case Leave(t) => t !in s.stopping && Top(s, t, Leaving)
    case Close(t) => AtLarge(s, t)
    case Return(t) => t in s.stopping && NoOtherInside(s.gate, t)
  }

  function Retop(s: State, t: Tid, f: Frame): State
    requires Stack(s, t) != []
  {
    s.(stacks := s.stacks[t := Stack(s, t)[..|Stack(s, t)| - 1] + [f]])
  }

  function Do(s: State, ev: Event): State
    requires Can(s, ev)
  {
    match ev
    case Ask(t) =>
      if !s.gate.alive then s
      else s.(gate := Entered(s.gate, t), stacks := s.stacks[t := Stack(s, t) + [Admitted]])
    case Begin(t) => Retop(s, t, Working).(begun := s.begun + 1)
    case End(t) => Retop(s, t, Leaving)
    case Leave(t) =>
      s.(gate := Left(s.gate, t), stacks := s.stacks[t := Stack(s, t)[..|Stack(s, t)| - 1]])
    case Close(t) => s.(gate := Shut(s.gate), stopping := s.stopping + {t})
    case Return(t) => s.(stopping := s.stopping - {t})
  }

  ghost predicate Possible(s: State, evs: seq<Event>)
    decreases |evs|, 0
  {
    evs == [] || (Possible(s, evs[..|evs| - 1]) && Can(After(s, evs[..|evs| - 1]), evs[|evs| - 1]))
  }

  ghost function After(s: State, evs: seq<Event>): State
    requires Possible(s, evs)
    decreases |evs|, 1
  {
    if evs == [] then s else Do(After(s, evs[..|evs| - 1]), evs[|evs| - 1])
  }

  // ---------------------------------------------------------------- invariant

  /** Only the innermost frame of a thread can be anything but inside its work. */
  ghost predicate Nested(stack: seq<Frame>) {
    forall i :: 0 <= i < |stack| - 1 ==> stack[i] == Working
  }

  ghost predicate Sane(s: State, t: Tid) {
    && s.gate.running[t] == |Stack(s, t)|
    && Nested(Stack(s, t))
    && (t in s.stopping ==> !s.gate.alive && (Stack(s, t) == [] || Top(s, t, Working)))
  }

  ghost predicate Inv(s: State) {
    forall t: Tid :: Sane(s, t)
  }

  lemma KeepsOwn(s: State, ev: Event)
    requires Sane(s, ev.t) && Can(s, ev)
    ensures Sane(Do(s, ev), ev.t)
  {
  }

  lemma KeepsOthers(s: State, ev: Event, u: Tid)
    requires u != ev.t && Can(s, ev)
    ensures Stack(Do(s, ev), u) == Stack(s, u) && Do(s, ev).gate.running[u] == s.gate.running[u]
    ensures u in Do(s, ev).stopping <==> u in s.stopping
    ensures !s.gate.alive ==> !Do(s, ev).gate.alive
  {
  }

  lemma KeepsInv(s: State, ev: Event)
    requires Inv(s) && Can(s, ev)
    ensures Inv(Do(s, ev))
  {
    forall u: Tid
      ensures Sane(Do(s, ev), u)
    {
      assert Sane(s, u);
      if u == ev.t {
        KeepsOwn(s, ev);
      } else {
        KeepsOthers(s, ev, u);
      }
    }
  }

  lemma {:induction false} RunsKeepInv(evs: seq<Event>)
    requires Possible(START, evs)
    ensures Inv(After(START, evs))
  {
    if evs != [] {
      RunsKeepInv(evs[..|evs| - 1]);
      KeepsInv(After(START, evs[..|evs| - 1]), evs[|evs| - 1]);
    }
  }

  // ---------------------------------------------------------------- what stop provides

  /** `running` is exactly the multiset of threads with live frames, one entry a frame. */
  lemma {:induction false} RunningIsExact(evs: seq<Event>, t: Tid)
    requires Possible(START, evs)
    ensures After(START, evs).gate.running[t] == |Stack(After(START, evs), t)|
  {
    RunsKeepInv(evs);
    assert Sane(After(START, evs), t);
  }

  /** A stop returns exactly when no other thread has a frame; its own frames are never waited for. */
  lemma {:induction false} StopWaitsForOthersOnly(evs: seq<Event>, t: Tid)
    requires Possible(START, evs) && t in After(START, evs).stopping
    ensures Can(After(START, evs), Return(t)) <==> forall u: Tid :: u != t ==> Stack(After(START, evs), u) == []
  {
    RunsKeepInv(evs);
    var s := After(START, evs);
    OnlyOwnFramesMeans(s.gate, t);
    forall u: Tid
      ensures s.gate.running[u] == 0 <==> Stack(s, u) == []
    {
      assert Sane(s, u);
    }
  }

  /** Nobody but `t` is inside, and `t` only unwinds. */
  ghost predicate Quiet(s: State, t: Tid) {
    && !s.gate.alive
    && (forall u: Tid :: u != t ==> Stack(s, u) == [])
    && (forall i :: 0 <= i < |Stack(s, t)| ==> !Stack(s, t)[i].Admitted?)
  }

  lemma ReturnedIsQuiet(s: State, t: Tid)
    requires Inv(s) && Can(s, Return(t))
    ensures Quiet(Do(s, Return(t)), t)
  {
    OnlyOwnFramesMeans(s.gate, t);
    var s' := Do(s, Return(t));
    assert Sane(s, t) && Stack(s', t) == Stack(s, t);
    forall u: Tid | u != t
      ensures Stack(s', u) == []
    {
      assert Sane(s, u) && Stack(s', u) == Stack(s, u);
    }
    forall i | 0 <= i < |Stack(s, t)|
      ensures Stack(s, t)[i].Working?
    {
      assert i < |Stack(s, t)| - 1 || Top(s, t, Stack(s, t)[i]);
    }
  }

  lemma QuietStays(s: State, t: Tid, ev: Event)
    requires Quiet(s, t) && Can(s, ev)
    ensures Quiet(Do(s, ev), t) && Do(s, ev).begun == s.begun && |Stack(Do(s, ev), t)| <= |Stack(s, t)|
  {
    var s' := Do(s, ev);
    assert ev.t != t ==> Stack(s, ev.t) == [];
    assert !Top(s, t, Admitted);
    forall u: Tid | u != t
      ensures Stack(s', u) == []
    {
      assert Stack(s, u) == [];
    }
    assert |Stack(s', t)| <= |Stack(s, t)|;
    forall i | 0 <= i < |Stack(s', t)|
      ensures !Stack(s', t)[i].Admitted?
    {
      assert !Stack(s, t)[i].Admitted?;
    }
  }

  lemma {:induction false} QuietForGood(s: State, t: Tid, more: seq<Event>)
    requires Quiet(s, t) && Possible(s, more)
    ensures Quiet(After(s, more), t) && After(s, more).begun == s.begun
    ensures |Stack(After(s, more), t)| <= |Stack(s, t)|
  {
    if more != [] {
      QuietForGood(s, t, more[..|more| - 1]);
      QuietStays(After(s, more[..|more| - 1]), t, more[|more| - 1]);
    }
  }

  /** Once a stop has returned no other thread is inside the router's work, and none ever begins again. */
  lemma {:induction false} NothingEntersAfterStop(evs: seq<Event>, t: Tid, more: seq<Event>)
    requires Possible(START, evs) && Can(After(START, evs), Return(t))
    requires Possible(Do(After(START, evs), Return(t)), more)
    ensures Quiet(After(Do(After(START, evs), Return(t)), more), t)
    ensures After(Do(After(START, evs), Return(t)), more).begun == After(START, evs).begun
  {
    RunsKeepInv(evs);
    ReturnedIsQuiet(After(START, evs), t);
    QuietForGood(Do(After(START, evs), Return(t)), t, more);
  }

  // ---------------------------------------------------------------- the limit of not counting one's own frames

  lemma StuckStays(s: State, t: Tid, u: Tid, ev: Event)
    requires Inv(s) && t != u && {t, u} <= s.stopping && Stack(s, t) != [] && Stack(s, u) != [] && Can(s, ev)
    ensures {t, u} <= Do(s, ev).stopping && Stack(Do(s, ev), t) == Stack(s, t) && Stack(Do(s, ev), u) == Stack(s, u)
  {
    OnlyOwnFramesMeans(s.gate, ev.t);
    assert Sane(s, t) && Sane(s, u);
  }

  /** Two threads that stop the router from inside its own work wait for each other for good. */
  lemma {:induction false} TwoStopsFromInsideNeverReturn(s: State, t: Tid, u: Tid, more: seq<Event>)
    requires Inv(s) && Possible(s, more)
    requires t != u && {t, u} <= s.stopping && Stack(s, t) != [] && Stack(s, u) != []
    ensures Inv(After(s, more)) && {t, u} <= After(s, more).stopping
    ensures Stack(After(s, more), t) == Stack(s, t) && Stack(After(s, more), u) == Stack(s, u)
  {
    if more != [] {
      var front, ev := more[..|more| - 1], more[|more| - 1];
      TwoStopsFromInsideNeverReturn(s, t, u, front);
      KeepsInv(After(s, front), ev);
      StuckStays(After(s, front), t, u, ev);
    }
  }

  /** It comes to that when each of two units of work stops the router. */
  lemma TwoStopsFromInsideHappen() returns (evs: seq<Event>)
    ensures Possible(START, evs) && {0, 1} <= After(START, evs).stopping
    ensures Stack(After(START, evs), 0) == [Working] && Stack(After(START, evs), 1) == [Working]
    ensures After(START, evs).begun == 2
  {
    evs := Extended(START, [], Ask(0));
    evs := Extended(START, evs, Begin(0));
    evs := Extended(START, evs, Ask(1));
    evs := Extended(START, evs, Begin(1));
    evs := Extended(START, evs, Close(0));
    evs := Extended(START, evs, Close(1));
  }

  /** A unit of work stays recorded when it is done, until its frame has left. */
  lemma DoneButRecorded() returns (evs: seq<Event>)
    ensures Possible(START, evs)
    ensures After(START, evs) == State(GateView(true, multiset{0}), map[0 := [Leaving]], {}, 1)
  {
    var none: seq<Frame> := [];
    evs := Extended(START, [], Ask(0));
    assert none + [Admitted] == [Admitted] && none + [Working] == [Working];
    assert After(START, evs) == State(GateView(true, multiset{0}), map[0 := [Admitted]], {}, 0);
    evs := Extended(START, evs, Begin(0));
    assert After(START, evs) == State(GateView(true, multiset{0}), map[0 := [Working]], {}, 1);
    evs := Extended(START, evs, End(0));
    assert none + [Leaving] == [Leaving];
  }

  lemma LeftAndForgotten() returns (evs: seq<Event>)
    ensures Possible(START, evs)
    ensures After(START, evs) == State(GateView(true, multiset{}), map[0 := []], {}, 1)
  {
    evs := DoneButRecorded();
    evs := Extended(START, evs, Leave(0));
  }

  // ---------------------------------------------------------------- exactly when a stop can return

  lemma OneMore(s: State, evs: seq<Event>, ev: Event)
    requires Possible(s, evs) && Can(After(s, evs), ev)
    ensures Possible(s, evs + [ev]) && After(s, evs + [ev]) == Do(After(s, evs), ev)
  {
    assert (evs + [ev])[..|evs|] == evs;
  }

  lemma Extended(s: State, evs: seq<Event>, ev: Event) returns (longer: seq<Event>)
    requires Possible(s, evs) && Can(After(s, evs), ev)
    ensures Possible(s, longer) && After(s, longer) == Do(After(s, evs), ev) && longer == evs + [ev]
  {
    longer := evs + [ev];
    OneMore(s, evs, ev);
  }

  lemma Regrouped(a: seq<Event>, b: seq<Event>)
    requires b != []
    ensures a + b == a + b[..|b| - 1] + [b[|b| - 1]]
  {
  }

  lemma LastStep(s: State, evs: seq<Event>)
    requires Possible(s, evs) && evs != []
    ensures Possible(s, evs[..|evs| - 1]) && Can(After(s, evs[..|evs| - 1]), evs[|evs| - 1])
    ensures After(s, evs) == Do(After(s, evs[..|evs| - 1]), evs[|evs| - 1])
  {
  }

  lemma {:induction false} Joined(s: State, a: seq<Event>, b: seq<Event>)
    requires Possible(s, a) && Possible(After(s, a), b)
    ensures Possible(s, a + b) && After(s, a + b) == After(After(s, a), b)
    decreases |b|
  {
    if b == [] {
      assert a + b == a;
    } else {
      Regrouped(a, b);
      LastStep(After(s, a), b);
      Joined(s, a, b[..|b| - 1]);
      OneMore(s, a + b[..|b| - 1], b[|b| - 1]);
    }
  }

  /** From `s` to `s'` only `t` moved, and it waits in a stop no more than before. */
  ghost predicate OnlyMoves(s: State, s': State, t: Tid) {
    && s'.stopping == s.stopping
    && forall u: Tid :: u != t ==> Stack(s', u) == Stack(s, u)
  }

  /** The step that brings a frame on, and in the end off. */
  function NextStep(s: State, t: Tid): Event
    requires Stack(s, t) != []
  {
    match Stack(s, t)[|Stack(s, t)| - 1]
    case Admitted => Begin(t)
    case Working => End(t)
    case Leaving => Leave(t)
  }

  function Steps(f: Frame): nat {
    match f
    case Admitted => 3
    case Working => 2
    case Leaving => 1
  }

  function ToGo(stack: seq<Frame>): nat {
    if stack == [] then 0 else 3 * (|stack| - 1) + Steps(stack[|stack| - 1])
  }

  lemma OneStepCloser(s: State, t: Tid)
    requires t !in s.stopping && Stack(s, t) != []
    ensures Can(s, NextStep(s, t)) && OnlyMoves(s, Do(s, NextStep(s, t)), t)
    ensures ToGo(Stack(Do(s, NextStep(s, t)), t)) < ToGo(Stack(s, t))
  {
  }

  /** A thread that waits in no stop can always finish its work. */
  lemma {:induction false} Unwinds(s: State, t: Tid) returns (more: seq<Event>)
    requires Inv(s) && t !in s.stopping
    ensures Possible(s, more) && Inv(After(s, more))
    ensures OnlyMoves(s, After(s, more), t) && Stack(After(s, more), t) == []
    decreases ToGo(Stack(s, t))
  {
    more := [];
    if Stack(s, t) != [] {
      OneStepCloser(s, t);
      var ev := NextStep(s, t);
      KeepsInv(s, ev);
      var first := Extended(s, [], ev);
      var rest := Unwinds(Do(s, ev), t);
      Joined(s, first, rest);
      more := first + rest;
    }
  }

  /** Nobody has a frame except threads waiting in a stop, and some of `rest`. */
  ghost predicate InsideOnly(s: State, rest: set<Tid>) {
    forall u: Tid :: Stack(s, u) != [] ==> u in s.stopping || u in rest
  }

  lemma {:induction false} AllUnwind(s: State, rest: set<Tid>) returns (more: seq<Event>)
    requires Inv(s) && InsideOnly(s, rest) && rest !! s.stopping
    ensures Possible(s, more) && Inv(After(s, more)) && InsideOnly(After(s, more), {})
    ensures After(s, more).stopping == s.stopping
    ensures forall u: Tid :: u in s.stopping ==> Stack(After(s, more), u) == Stack(s, u)
    decreases |rest|
  {
    more := [];
    if rest != {} {
      var t :| t in rest;
      var first := Unwinds(s, t);
      var s' := After(s, first);
      assert InsideOnly(s', rest - {t});
      var others := AllUnwind(s', rest - {t});
      Joined(s, first, others);
      more := first + others;
    }
  }

  /** Only `t`, if anyone, has a frame: its stop can return. */
  lemma AloneReturns(s: State, t: Tid)
    requires Inv(s) && t in s.stopping && forall u: Tid :: u != t ==> Stack(s, u) == []
    ensures Can(s, Return(t)) && Inv(Do(s, Return(t)))
    ensures OnlyMoves(s.(stopping := s.stopping - {t}), Do(s, Return(t)), t)
  {
    OnlyOwnFramesMeans(s.gate, t);
    forall u: Tid | u != t
      ensures s.gate.running[u] == 0
    {
      assert Sane(s, u);
    }
    KeepsInv(s, Return(t));
  }

  /** Two stops are made from inside the router's work. */
  ghost predicate TwoStopInside(s: State) {
    exists t, u :: t in s.stopping && u in s.stopping && t != u && Stack(s, t) != [] && Stack(s, u) != []
  }

  /** The one stop made from inside returns, and its thread finishes its work too. */
  lemma LoneInsiderClears(s: State, u: Tid, t: Tid) returns (more: seq<Event>)
    requires Inv(s) && {t, u} <= s.stopping && t != u && forall v: Tid :: v != u ==> Stack(s, v) == []
    ensures Possible(s, more) && Inv(After(s, more)) && t in After(s, more).stopping
    ensures forall v: Tid :: Stack(After(s, more), v) == []
  {
    AloneReturns(s, u);
    var back := Do(s, Return(u));
    var first := Extended(s, [], Return(u));
    var rest := Unwinds(back, u);
    Joined(s, first, rest);
    more := first + rest;
    forall v: Tid
      ensures Stack(After(s, more), v) == []
    {
      assert v != u ==> Stack(back, v) == Stack(s, v);
    }
  }

  /**
   * With at most one stop made from inside, everyone else finishes, that one returns and finishes, then any other
   * returns.
   */
  lemma {:induction false} StopCanReturn(s: State, t: Tid) returns (more: seq<Event>)
    requires Inv(s) && t in s.stopping && !TwoStopInside(s)
    ensures Possible(s, more) && Can(After(s, more), Return(t))
  {
    var rest := set u | u in s.stacks && u !in s.stopping;
    more := AllUnwind(s, rest);
    var s' := After(s, more);
    if u: Tid :| u != t && Stack(s', u) != [] {
      OthersAreOutside(s, s', u);
      var last := LoneInsiderClears(s', u, t);
      Joined(s, more, last);
      more := more + last;
    }
    AloneReturns(After(s, more), t);
  }

  lemma OthersAreOutside(s: State, s1: State, u: Tid)
    requires !TwoStopInside(s) && InsideOnly(s1, {}) && s1.stopping == s.stopping && Stack(s1, u) != []
    requires forall v: Tid :: v in s.stopping ==> Stack(s1, v) == Stack(s, v)
    ensures u in s1.stopping && forall v: Tid :: v != u ==> Stack(s1, v) == []
  {
    forall v: Tid | v != u
      ensures Stack(s1, v) == []
    {
      if v in s.stopping {
        assert u in s.stopping && Stack(s, u) != [];
      }
    }
  }

  lemma StuckCannotReturn(s: State, t: Tid, more: seq<Event>)
    requires Inv(s) && TwoStopInside(s) && Possible(s, more)
    ensures !Can(After(s, more), Return(t))
  {
    var x, y :| x in s.stopping && y in s.stopping && x != y && Stack(s, x) != [] && Stack(s, y) != [];
    TwoStopsFromInsideNeverReturn(s, x, y, more);
    var s' := After(s, more);
    OnlyOwnFramesMeans(s'.gate, t);
    assert Sane(s', x) && Sane(s', y);
  }

  ghost predicate LetsReturn(s: State, t: Tid, more: seq<Event>) {
    Possible(s, more) && Can(After(s, more), Return(t))
  }

  /**
   * Whatever has happened, a stop can still return if and only if no two stops are made from inside the router's
   * work.
   */
  lemma {:induction false} StopCanReturnIff(evs: seq<Event>, t: Tid)
    requires Possible(START, evs) && t in After(START, evs).stopping
    ensures (exists more :: LetsReturn(After(START, evs), t, more)) <==> !TwoStopInside(After(START, evs))
  {
    RunsKeepInv(evs);
    var s := After(START, evs);
    if TwoStopInside(s) {
      forall more | Possible(s, more)
        ensures !LetsReturn(s, t, more)
      {
        StuckCannotReturn(s, t, more);
      }
    } else {
      var more := StopCanReturn(s, t);
      assert LetsReturn(s, t, more);
    }
  }
}
