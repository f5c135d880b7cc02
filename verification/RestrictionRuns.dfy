/**
 * Runs of the restriction protocol: a start with a policy, modules that come and go, and two in which the table ends up
 * naming the wrong callers.
 */
module RestrictionRuns {
  import opened Names
  import opened Graphs
  import opened AccessRestrictions
  import opened RestrictionProtocol

  /** `a` requires `b`, and the policy names nobody. */
  function SmallWorld(a: Name, b: Name): World {
    var none: Edges := map[a := [], b := []];
    World(map[a := [b], b := []], map[a := [], b := [a]], none, none, Some([]))
  }

  predicate TwoModules(a: Name, b: Name) {
    a != b && a !in EXEMPT && b !in EXEMPT
  }

  lemma SmallWorldIsConsistent(a: Name, b: Name)
    requires a != b
    ensures Consistent(SmallWorld(a, b))
  {
    var w := SmallWorld(a, b);
    forall x, y | x in w.hard
      ensures Edge(w.back, x, y) <==> Edge(w.hard, y, x)
    {
    }
  }

  lemma SmallWorldFacts(a: Name, b: Name)
    requires TwoModules(a, b)
    ensures var w := SmallWorld(a, b);
            && Targets(w, a) == [b, a] && Targets(w, b) == [b]
            && Candidates(w, a) == [] && Candidates(w, b) == [a]
            && FollowsLoaded(w, a) && FollowsLoaded(w, b)
            && Explicit(w) == [] && a !in TRUSTED
  {
    assert a != EXEMPT[1] && a != EXEMPT[2];
  }

  function FirstState(loaded: set<Name>): State {
    State(loaded, map[], {}, ToPushExplicit, [], [], Idle, [])
  }

  function Running(loaded: set<Name>, table: map<Name, Listing>, queue: seq<Task>, pushes: seq<Push>, cursor: Cursor,
                   suspended: seq<Suspended>): State {
    State(loaded, table, {}, Started, queue, pushes, cursor, suspended)
  }

  /** The list of a target none of whose dependents, or the only one, is loaded. */
  function NoDependent(flags: seq<bool>): Listing {
    Listing(AddAll([], TRUSTED), flags)
  }

  function OneDependent(a: Name): Listing {
    Listing(AddAll([a], TRUSTED), [true])
  }

  lemma Extended(w: World, first: State, evs: seq<Event>, ev: Event) returns (longer: seq<Event>)
    requires Legal(w, first, evs) && Can(After(w, first, evs), ev)
    ensures Legal(w, first, longer) && After(w, first, longer) == Do(w, After(w, first, evs), ev)
    ensures longer == evs + [ev]
  {
    longer := evs + [ev];
    assert longer[..|longer| - 1] == evs;
  }

  lemma ExtendedAlone(w: World, first: State, evs: seq<Event>, ev: Event) returns (longer: seq<Event>)
    requires Legal(w, first, evs) && Can(After(w, first, evs), ev)
    requires NeverNested(w, first, evs) && After(w, first, evs).suspended == []
    ensures Legal(w, first, longer) && After(w, first, longer) == Do(w, After(w, first, evs), ev)
    ensures NeverNested(w, first, longer)
  {
    longer := Extended(w, first, evs, ev);
    assert longer[..|longer| - 1] == evs;
    forall k: nat | k < |longer|
      ensures At(w, first, longer, k) == if k < |evs| then At(w, first, evs, k) else After(w, first, evs)
    {
      if k < |evs| {
        AtFront(w, first, longer, k);
      } else {
        assert longer[..k] == evs;
      }
    }
  }

  /** Both pushes of the start are posted, and the explicit one, which is empty, has run. */
  lemma StartedUp(a: Name, b: Name, loaded: set<Name>, order: seq<Name>) returns (evs: seq<Event>)
    requires TwoModules(a, b) && CAPABILITY in loaded && Elems(order) == loaded
    ensures Legal(SmallWorld(a, b), FirstState(loaded), evs) && NeverNested(SmallWorld(a, b), FirstState(loaded), evs)
    ensures After(SmallWorld(a, b), FirstState(loaded), evs) == Running(loaded, map[], [], DeriveEach(order), Idle, [])
  {
    var w, first := SmallWorld(a, b), FirstState(loaded);
    SmallWorldFacts(a, b);
    evs := ExtendedAlone(w, first, [], PostExplicit);
    evs := ExtendedAlone(w, first, evs, PostAll);
    assert After(w, first, evs) == Running(loaded, map[], [PushExplicit, AllLoaded], [], Idle, []);
    evs := ExtendedAlone(w, first, evs, Next(order));
    assert After(w, first, evs) == Running(loaded, map[], [AllLoaded], [], Idle, []);
    evs := ExtendedAlone(w, first, evs, Next(order));
  }

  /** `a` has its list, and `b`'s is next. */
  lemma FirstListed(a: Name, b: Name) returns (evs: seq<Event>)
    requires TwoModules(a, b)
    ensures Legal(SmallWorld(a, b), FirstState({CAPABILITY, a, b}), evs)
    ensures NeverNested(SmallWorld(a, b), FirstState({CAPABILITY, a, b}), evs)
    ensures After(SmallWorld(a, b), FirstState({CAPABILITY, a, b}), evs) ==
            Running({CAPABILITY, a, b}, map[a := NoDependent([])], [], [Derive(b)], Idle, [])
  {
    var w, loaded := SmallWorld(a, b), {CAPABILITY, a, b};
    var first := FirstState(loaded);
    SmallWorldFacts(a, b);
    evs := StartedUp(a, b, loaded, [CAPABILITY, a, b]);
    evs := ExtendedAlone(w, first, evs, BeginPush);
    assert After(w, first, evs) == Running(loaded, map[], [], [Derive(a), Derive(b)], Idle, []);
    evs := ExtendedAlone(w, first, evs, BeginPush);
    evs := ExtendedAlone(w, first, evs, Decide);
    evs := ExtendedAlone(w, first, evs, Register);
    evs := ExtendedAlone(w, first, evs, Return);
  }

  /** Everything loaded has its list: `b` lists `a`, which requires it. */
  lemma BothListed(a: Name, b: Name) returns (evs: seq<Event>)
    requires TwoModules(a, b)
    ensures Legal(SmallWorld(a, b), FirstState({CAPABILITY, a, b}), evs)
    ensures NeverNested(SmallWorld(a, b), FirstState({CAPABILITY, a, b}), evs)
    ensures After(SmallWorld(a, b), FirstState({CAPABILITY, a, b}), evs) ==
            Running({CAPABILITY, a, b}, map[a := NoDependent([]), b := OneDependent(a)], [], [], Idle, [])
  {
    var w, loaded := SmallWorld(a, b), {CAPABILITY, a, b};
    var first := FirstState(loaded);
    SmallWorldFacts(a, b);
    evs := FirstListed(a, b);
    evs := ExtendedAlone(w, first, evs, BeginPush);
    evs := ExtendedAlone(w, first, evs, LookUp);
    assert After(w, first, evs).cursor == Looking(b, [], [a], [true]);
    evs := ExtendedAlone(w, first, evs, Decide);
    evs := ExtendedAlone(w, first, evs, Register);
    evs := ExtendedAlone(w, first, evs, Return);
  }

  /** One module requiring another is enough: when it dies, the required one's list goes on naming it. */
  lemma DeathCanLeaveTheTableStale(a: Name, b: Name) returns (evs: seq<Event>)
    requires TwoModules(a, b)
    ensures var w, first := SmallWorld(a, b), FirstState({CAPABILITY, a, b});
            && Consistent(w) && JustUp(first) && Legal(w, first, evs)
            && Drained(After(w, first, evs)) && AllAgree(w, After(w, first, evs))
            && a in After(w, first, evs).loaded && !AllAgree(w, Died(After(w, first, evs), a))
  {
    var w, first := SmallWorld(a, b), FirstState({CAPABILITY, a, b});
    SmallWorldFacts(a, b);
    SmallWorldIsConsistent(a, b);
    evs := BothListed(a, b);
    DrainedMeansAllAgree(w, first, evs);
    assert a in Candidates(w, b);
    DeathLeavesTheTableStale(w, After(w, first, evs), a);
  }

  /** The owner has found `b`'s only dependent not loaded, and is in the dial that sends that list. */
  lemma SentTooEarly(a: Name, b: Name) returns (evs: seq<Event>)
    requires TwoModules(a, b)
    ensures Legal(SmallWorld(a, b), FirstState({CAPABILITY, b}), evs)
    ensures After(SmallWorld(a, b), FirstState({CAPABILITY, b}), evs) ==
            Running({CAPABILITY, b}, map[], [], [], Sending(b, NoDependent([false])), [])
  {
    var w, loaded := SmallWorld(a, b), {CAPABILITY, b};
    var first := FirstState(loaded);
    SmallWorldFacts(a, b);
    evs := StartedUp(a, b, loaded, [CAPABILITY, b]);
    evs := Extended(w, first, evs, BeginPush);
    assert After(w, first, evs) == Running(loaded, map[], [], [Derive(b)], Idle, []);
    evs := Extended(w, first, evs, BeginPush);
    evs := Extended(w, first, evs, LookUp);
    assert After(w, first, evs).cursor == Looking(b, [], [], [false]);
    evs := Extended(w, first, evs, Decide);
  }

  /** `a` comes up meanwhile. */
  lemma FlippedInTheDial(a: Name, b: Name) returns (evs: seq<Event>)
    requires TwoModules(a, b)
    ensures Legal(SmallWorld(a, b), FirstState({CAPABILITY, b}), evs)
    ensures After(SmallWorld(a, b), FirstState({CAPABILITY, b}), evs) ==
            Running({CAPABILITY, a, b}, map[], [Refresh(a)], [], Sending(b, NoDependent([false])), [])
  {
    var w, first := SmallWorld(a, b), FirstState({CAPABILITY, b});
    evs := SentTooEarly(a, b);
    evs := Extended(w, first, evs, Commit(a));
    evs := Extended(w, first, evs, Post(a));
  }

  /** The dial delivers its refresh. */
  lemma RefreshedInside(a: Name, b: Name) returns (evs: seq<Event>)
    requires TwoModules(a, b)
    ensures Legal(SmallWorld(a, b), FirstState({CAPABILITY, b}), evs)
    ensures After(SmallWorld(a, b), FirstState({CAPABILITY, b}), evs) ==
            Running({CAPABILITY, a, b}, map[], [], [Derive(b), Derive(a)], Idle,
                    [Suspended([], Sending(b, NoDependent([false])))])
  {
    var w, first := SmallWorld(a, b), FirstState({CAPABILITY, b});
    SmallWorldFacts(a, b);
    evs := FlippedInTheDial(a, b);
    evs := Extended(w, first, evs, Next([CAPABILITY, a, b]));
  }

  /** The refresh inside has registered the right lists. */
  lemma RightInside(a: Name, b: Name) returns (evs: seq<Event>)
    requires TwoModules(a, b)
    ensures Legal(SmallWorld(a, b), FirstState({CAPABILITY, b}), evs)
    ensures After(SmallWorld(a, b), FirstState({CAPABILITY, b}), evs) ==
            Running({CAPABILITY, a, b}, map[b := OneDependent(a), a := NoDependent([])], [], [], Idle,
                    [Suspended([], Sending(b, NoDependent([false])))])
  {
    var w, first := SmallWorld(a, b), FirstState({CAPABILITY, b});
    SmallWorldFacts(a, b);
    evs := RefreshedInside(a, b);
    evs := Extended(w, first, evs, BeginPush);
    evs := Extended(w, first, evs, LookUp);
    assert After(w, first, evs).cursor == Looking(b, [], [a], [true]);
    evs := Extended(w, first, evs, Decide);
    evs := Extended(w, first, evs, Register);
    evs := Extended(w, first, evs, Return);
    evs := Extended(w, first, evs, BeginPush);
    assert After(w, first, evs).cursor == Looking(a, [], [], []);
    evs := Extended(w, first, evs, Decide);
    evs := Extended(w, first, evs, Register);
    evs := Extended(w, first, evs, Return);
  }

  /** A refresh delivered inside the dial of another is overwritten by it, and all drains with a dependent left off. */
  lemma NestedRefreshIsLost(a: Name, b: Name) returns (evs: seq<Event>)
    requires TwoModules(a, b)
    ensures var w, first := SmallWorld(a, b), FirstState({CAPABILITY, b});
            && Consistent(w) && JustUp(first) && Legal(w, first, evs)
            && Drained(After(w, first, evs)) && !AllAgree(w, After(w, first, evs))
  {
    var w, first := SmallWorld(a, b), FirstState({CAPABILITY, b});
    SmallWorldFacts(a, b);
    SmallWorldIsConsistent(a, b);
    evs := RightInside(a, b);
    evs := Extended(w, first, evs, Resume);
    evs := Extended(w, first, evs, Register);
    evs := Extended(w, first, evs, Return);
    var s := After(w, first, evs);
    assert s.table[b] == NoDependent([false]);
    assert ReadAsLoaded([a], [false]) == {};
    AgreementIsInTheFlags(w, first, evs, b);
    RestrictedWhenFollowing(w, s.loaded, b);
    assert !Agrees(w, s, b);
  }

  // ---------------------------------------------------------------- runs in which all goes well

  /** The policy names `t`, which nothing depends on, and allows `c`. */
  function PolicyWorld(t: Name, c: Name): World {
    var none: Edges := map[t := []];
    World(none, none, none, none, Some([Restriction(t, [c])]))
  }

  lemma PolicyWorldFacts(t: Name, c: Name)
    requires t !in EXEMPT
    ensures Explicit(PolicyWorld(t, c)) == [Verbatim(t, [c])]
    ensures forall loaded :: Derived(PolicyWorld(t, c), loaded, CAPABILITY) == []
    ensures !FollowsLoaded(PolicyWorld(t, c), CAPABILITY)
  {
    var policy := [Restriction(t, [c])];
    var none: seq<Push> := [];
    assert policy[1..] == [] && [Verbatim(t, [c])] + none == [Verbatim(t, [c])];
    assert VerbatimEach(policy) == [Verbatim(t, [c])] + VerbatimEach(policy[1..]);
    assert CAPABILITY == EXEMPT[0];
  }

  /** The entry has been sent on the owner's own thread. */
  lemma EntrySent(t: Name, c: Name) returns (evs: seq<Event>)
    requires t !in EXEMPT
    ensures var w, first := PolicyWorld(t, c), FirstState({CAPABILITY});
            && Legal(w, first, evs)
            && After(w, first, evs) == first.(table := map[t := Listing([c], [])], starting := ToPushAll(true))
  {
    var w, first := PolicyWorld(t, c), FirstState({CAPABILITY});
    PolicyWorldFacts(t, c);
    evs := Extended(w, first, [], RunExplicit);
    assert After(w, first, evs) == first.(starting := ToPushAll(true), pushes := [Verbatim(t, [c])]);
    evs := Extended(w, first, evs, BeginPush);
    assert After(w, first, evs) == first.(starting := ToPushAll(true), cursor := Sending(t, Listing([c], [])));
    evs := Extended(w, first, evs, Register);
    evs := Extended(w, first, evs, Return);
  }

  /** A start on the owner's own thread: the target the policy names is registered though it is not loaded. */
  lemma StartedInline(t: Name, c: Name) returns (evs: seq<Event>)
    requires t !in EXEMPT
    ensures var w, first := PolicyWorld(t, c), FirstState({CAPABILITY});
            && JustUp(first) && Legal(w, first, evs) && Drained(After(w, first, evs))
            && After(w, first, evs).table == map[t := Listing([c], [])] && t !in After(w, first, evs).loaded
  {
    var w, first := PolicyWorld(t, c), FirstState({CAPABILITY});
    PolicyWorldFacts(t, c);
    evs := EntrySent(t, c);
    evs := Extended(w, first, evs, RunAll([CAPABILITY]));
    assert After(w, first, evs).pushes == [Derive(CAPABILITY)];
    evs := Extended(w, first, evs, BeginPush);
  }

  /** `a` has left, and the refresh, run at once, looks up who may call `b`. */
  lemma LookingAgain(a: Name, b: Name) returns (evs: seq<Event>)
    requires TwoModules(a, b)
    ensures Legal(SmallWorld(a, b), FirstState({CAPABILITY, a, b}), evs)
    ensures After(SmallWorld(a, b), FirstState({CAPABILITY, a, b}), evs) ==
            Running({CAPABILITY, b}, map[a := NoDependent([]), b := OneDependent(a)], [], [Derive(a)],
                    Looking(b, [a], [], []), [])
  {
    var w, first := SmallWorld(a, b), FirstState({CAPABILITY, a, b});
    SmallWorldFacts(a, b);
    evs := BothListed(a, b);
    evs := Extended(w, first, evs, Unlist(a));
    assert After(w, first, evs).loaded == {CAPABILITY, b} && After(w, first, evs).pending == {a};
    evs := Extended(w, first, evs, RunInline(a));
    assert After(w, first, evs).pushes == [Derive(b), Derive(a)] && After(w, first, evs).pending == {};
    evs := Extended(w, first, evs, BeginPush);
  }

  /** It finds `a` gone, and `b` is left with the trusted callers. */
  lemma GoneForGood(a: Name, b: Name) returns (evs: seq<Event>)
    requires TwoModules(a, b)
    ensures var w, first := SmallWorld(a, b), FirstState({CAPABILITY, a, b});
            && Legal(w, first, evs) && Drained(After(w, first, evs))
            && After(w, first, evs) == Running({CAPABILITY, b}, map[a := NoDependent([]), b := NoDependent([false])],
                                               [], [], Idle, [])
  {
    var w, first := SmallWorld(a, b), FirstState({CAPABILITY, a, b});
    SmallWorldFacts(a, b);
    evs := LookingAgain(a, b);
    evs := Extended(w, first, evs, LookUp);
    assert After(w, first, evs).cursor == Looking(b, [], [], [false]);
    evs := Extended(w, first, evs, Decide);
    evs := Extended(w, first, evs, Register);
    evs := Extended(w, first, evs, Return);
    assert After(w, first, evs) == Running({CAPABILITY, b}, map[a := NoDependent([]), b := NoDependent([false])],
                                           [], [Derive(a)], Idle, []);
    evs := ListedAlone(a, b, evs);
  }

  /** The list of `a` itself, which nothing depends on. */
  lemma ListedAlone(a: Name, b: Name, evs: seq<Event>) returns (longer: seq<Event>)
    requires TwoModules(a, b) && Legal(SmallWorld(a, b), FirstState({CAPABILITY, a, b}), evs)
    requires var s := After(SmallWorld(a, b), FirstState({CAPABILITY, a, b}), evs);
             s.pushes == [Derive(a)] && s.cursor == Idle
    ensures var w, first := SmallWorld(a, b), FirstState({CAPABILITY, a, b});
            var s := After(w, first, evs);
            Legal(w, first, longer)
            && After(w, first, longer) == s.(pushes := [], table := s.table[a := NoDependent([])])
  {
    var w, first := SmallWorld(a, b), FirstState({CAPABILITY, a, b});
    SmallWorldFacts(a, b);
    longer := Extended(w, first, evs, BeginPush);
    assert After(w, first, longer).cursor == Looking(a, [], [], []);
    longer := Extended(w, first, longer, Decide);
    longer := Extended(w, first, longer, Register);
    longer := Extended(w, first, longer, Return);
  }

  /** Or it comes back before it is looked up, and its own refresh is posted meanwhile. */
  lemma BackMeanwhile(a: Name, b: Name) returns (evs: seq<Event>)
    requires TwoModules(a, b)
    ensures Legal(SmallWorld(a, b), FirstState({CAPABILITY, a, b}), evs)
    ensures After(SmallWorld(a, b), FirstState({CAPABILITY, a, b}), evs) ==
            Running({CAPABILITY, a, b}, map[a := NoDependent([]), b := OneDependent(a)], [Refresh(a)], [Derive(a)],
                    Looking(b, [a], [], []), [])
  {
    var w, first := SmallWorld(a, b), FirstState({CAPABILITY, a, b});
    evs := LookingAgain(a, b);
    evs := Extended(w, first, evs, Commit(a));
    assert After(w, first, evs).loaded == {CAPABILITY, a, b} && After(w, first, evs).pending == {a};
    evs := Extended(w, first, evs, Post(a));
  }

  lemma BackAndSent(a: Name, b: Name) returns (evs: seq<Event>)
    requires TwoModules(a, b)
    ensures Legal(SmallWorld(a, b), FirstState({CAPABILITY, a, b}), evs)
    ensures After(SmallWorld(a, b), FirstState({CAPABILITY, a, b}), evs) ==
            Running({CAPABILITY, a, b}, map[a := NoDependent([]), b := OneDependent(a)], [Refresh(a)], [Derive(a)],
                    Sending(b, OneDependent(a)), [])
  {
    var w, first := SmallWorld(a, b), FirstState({CAPABILITY, a, b});
    evs := BackMeanwhile(a, b);
    evs := Extended(w, first, evs, LookUp);
    assert After(w, first, evs).cursor == Looking(b, [], [a], [true]);
    evs := Extended(w, first, evs, Decide);
  }

  /** It is listed at once. */
  lemma BackInTime(a: Name, b: Name) returns (evs: seq<Event>)
    requires TwoModules(a, b)
    ensures var w, first := SmallWorld(a, b), FirstState({CAPABILITY, a, b});
            && Legal(w, first, evs)
            && After(w, first, evs) == Running({CAPABILITY, a, b}, map[a := NoDependent([]), b := OneDependent(a)],
                                               [Refresh(a)], [], Idle, [])
  {
    var w, first := SmallWorld(a, b), FirstState({CAPABILITY, a, b});
    evs := BackAndSent(a, b);
    evs := Extended(w, first, evs, Register);
    evs := Extended(w, first, evs, Return);
    evs := ListedAlone(a, b, evs);
  }
}
