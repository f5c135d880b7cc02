/**
 * Who may call a module: the list derived from the loaded dependents, as a loop and as a function of the flags
 * read.
 */
module AccessRestrictions {
  import opened Names
  import opened Graphs
  import ModuleRegistry

  const CAPABILITY := Name("capability_module")
  const TRUSTED := [Name("core"), Name("core_service")]
  const EXEMPT := [CAPABILITY, Name("core"), Name("core_service")]

  datatype Restriction = Restriction(target: Name, callers: seq<Name>)

  /** What stays fixed: the registry's edges with their inverses, and the enforce policy, if any. */
  datatype World = World(hard: Edges, back: Edges, soft: Edges, softBack: Edges, policy: Option<seq<Restriction>>)

  ghost predicate Consistent(w: World) {
    ModuleRegistry.Reversed(w.hard, w.back) && ModuleRegistry.Reversed(w.soft, w.softBack)
  }

  // ---------------------------------------------------------------- who may call a target

  function Add(callers: seq<Name>, c: Name): seq<Name> {
    if c in callers then callers else callers + [c]
  }

  function AddAll(callers: seq<Name>, more: seq<Name>): seq<Name>
    decreases |more|
  {
    if more == [] then callers else AddAll(Add(callers, more[0]), more[1..])
  }

  /** Add those of `left` that are loaded, one look-up at a time. */
  function Gather(callers: seq<Name>, left: seq<Name>, loaded: set<Name>): seq<Name>
    decreases |left|
  {
    if left == [] then callers
    else Gather(if left[0] in loaded then Add(callers, left[0]) else callers, left[1..], loaded)
  }

  function FirstFor(policy: seq<Restriction>, target: Name): Option<seq<Name>> {
    if policy == [] then None
    else if policy[0].target == target then Some(policy[0].callers)
    else FirstFor(policy[1..], target)
  }

  /** The modules that declare `target`, required or optional. */
  function Candidates(w: World, target: Name): seq<Name> {
    Out(w.back, target) + Out(w.softBack, target)
  }

  /** Neither exempt nor named by the policy: the list follows from what is loaded. */
  predicate FollowsLoaded(w: World, target: Name) {
    target !in EXEMPT && w.policy.Some? && FirstFor(w.policy.value, target).None?
  }

  function Derived(w: World, loaded: set<Name>, target: Name): seq<Name> {
    if target in EXEMPT || w.policy.None? then []
    else match FirstFor(w.policy.value, target)
         case Some(callers) => callers
         case None => AddAll(Gather([], Candidates(w, target), loaded), TRUSTED)
  }

  lemma {:induction false} AddAllAdds(callers: seq<Name>, more: seq<Name>)
    requires NoDup(callers)
    ensures NoDup(AddAll(callers, more))
    ensures forall c :: c in AddAll(callers, more) <==> c in callers || c in more
    decreases |more|
  {
    if more != [] {
      AddAllAdds(Add(callers, more[0]), more[1..]);
    }
  }

  lemma {:induction false} GatherAdds(callers: seq<Name>, left: seq<Name>, loaded: set<Name>)
    requires NoDup(callers)
    ensures NoDup(Gather(callers, left, loaded))
    ensures forall c :: c in Gather(callers, left, loaded) <==> c in callers || (c in left && c in loaded)
    decreases |left|
  {
    if left != [] {
      GatherAdds(if left[0] in loaded then Add(callers, left[0]) else callers, left[1..], loaded);
    }
  }

  /**
   * Where no policy entry speaks, exactly the loaded modules that declare the target, and the trusted names, may
   * call it.
   */
  lemma CallersAreDeclaredDependents(w: World, loaded: set<Name>, target: Name, c: Name)
    requires Consistent(w) && FollowsLoaded(w, target)
    ensures NoDup(Derived(w, loaded, target))
    ensures c in Derived(w, loaded, target) <==>
            || c in TRUSTED
            || (c in loaded && target in w.hard && Edge(w.hard, c, target))
            || (c in loaded && target in w.soft && Edge(w.soft, c, target))
  {
    var gathered := Gather([], Candidates(w, target), loaded);
    GatherAdds([], Candidates(w, target), loaded);
    AddAllAdds(gathered, TRUSTED);
    assert c in Candidates(w, target) <==> Edge(w.back, target, c) || Edge(w.softBack, target, c);
  }

  lemma {:induction false} FirstForMeans(policy: seq<Restriction>, target: Name)
    ensures FirstFor(policy, target).None? <==> forall i :: 0 <= i < |policy| ==> policy[i].target != target
    ensures forall i :: 0 <= i < |policy| && policy[i].target == target
                        && (forall j :: 0 <= j < i ==> policy[j].target != target)
                        ==> FirstFor(policy, target) == Some(policy[i].callers)
  {
    if policy != [] && policy[0].target != target {
      FirstForMeans(policy[1..], target);
      forall i | 0 <= i < |policy| && policy[i].target == target
                 && forall j :: 0 <= j < i ==> policy[j].target != target
        ensures FirstFor(policy, target) == Some(policy[i].callers)
      {
        assert forall j :: 0 <= j < i - 1 ==> policy[1..][j] == policy[j + 1];
        assert policy[1..][i - 1] == policy[i];
      }
      if i :| 0 <= i < |policy[1..]| && policy[1..][i].target == target {
        assert policy[i + 1].target == target;
      }
    }
  }

  /** A target that an enforced policy does not name: its loaded declared dependents, and the two trusted names. */
  lemma UnnamedTargetsFollow(w: World, policy: seq<Restriction>, loaded: set<Name>, t: Name, c: Name)
    requires Consistent(w) && w.policy == Some(policy)
    requires t !in {Name("capability_module"), Name("core"), Name("core_service")}
    requires forall i :: 0 <= i < |policy| ==> policy[i].target != t
    ensures NoDup(Derived(w, loaded, t))
    ensures c in Derived(w, loaded, t) <==>
            || c == Name("core") || c == Name("core_service")
            || (c in loaded && t in w.hard && Edge(w.hard, c, t))
            || (c in loaded && t in w.soft && Edge(w.soft, c, t))
  {
    FirstForMeans(policy, t);
    CallersAreDeclaredDependents(w, loaded, t, c);
  }

  /** A target that it names: the callers of its first entry for the target, word for word. */
  lemma NamedTargetsTakeTheFirstEntry(w: World, policy: seq<Restriction>, loaded: set<Name>, t: Name, i: nat)
    requires w.policy == Some(policy) && t !in {Name("capability_module"), Name("core"), Name("core_service")}
    requires i < |policy| && policy[i].target == t && forall j :: 0 <= j < i ==> policy[j].target != t
    ensures Derived(w, loaded, t) == policy[i].callers
  {
    FirstForMeans(policy, t);
  }

  /** Three targets are never restricted, and without a policy none is. */
  lemma NeverRestricted(w: World, loaded: set<Name>, t: Name)
    requires w.policy.None? || t in {Name("capability_module"), Name("core"), Name("core_service")}
    ensures Derived(w, loaded, t) == []
  {
  }

  /** Whatever stands before another in `s` does so in `all`, at places of its own. */
  ghost predicate InOrder(all: seq<Name>, s: seq<Name>) {
    && (forall c :: c in s ==> c in all)
    && forall i, j :: 0 <= i < j < |s| ==> Precedes(all, s[i], s[j])
  }

  ghost predicate Precedes(all: seq<Name>, c: Name, d: Name) {
    exists k, m :: 0 <= k < m < |all| && all[k] == c && all[m] == d
  }

  lemma PrecedesStill(done: seq<Name>, c: Name, x: Name, y: Name)
    ensures Precedes(done, x, y) ==> Precedes(done + [c], x, y)
    ensures x in done ==> Precedes(done + [c], x, c)
  {
    var all := done + [c];
    if k, m :| 0 <= k < m < |done| && done[k] == x && done[m] == y {
      assert all[k] == x && all[m] == y;
    }
    if k :| 0 <= k < |done| && done[k] == x {
      assert all[k] == x && all[|done|] == c;
    }
  }

  lemma AddingKeepsOrder(done: seq<Name>, s: seq<Name>, c: Name)
    requires InOrder(done, s)
    ensures InOrder(done + [c], s) && InOrder(done + [c], Add(s, c))
  {
    forall i, j | 0 <= i < j < |s|
      ensures Precedes(done + [c], s[i], s[j])
    {
      PrecedesStill(done, c, s[i], s[j]);
    }
    forall i | 0 <= i < |s|
      ensures Precedes(done + [c], s[i], c)
    {
      assert s[i] in s;
      PrecedesStill(done, c, s[i], c);
    }
  }

  lemma {:induction false} GatheringKeepsOrder(done: seq<Name>, s: seq<Name>, left: seq<Name>, loaded: set<Name>)
    requires InOrder(done, s)
    ensures InOrder(done + left, Gather(s, left, loaded))
    decreases |left|
  {
    if left == [] {
      assert done + left == done;
    } else {
      AddingKeepsOrder(done, s, left[0]);
      GatheringKeepsOrder(done + [left[0]], if left[0] in loaded then Add(s, left[0]) else s, left[1..], loaded);
      assert done + [left[0]] + left[1..] == done + left;
    }
  }

  lemma {:induction false} AddingAllKeepsOrder(done: seq<Name>, s: seq<Name>, more: seq<Name>)
    requires InOrder(done, s)
    ensures InOrder(done + more, AddAll(s, more))
    decreases |more|
  {
    if more == [] {
      assert done + more == done;
    } else {
      AddingKeepsOrder(done, s, more[0]);
      assert done + [more[0]] + more[1..] == done + more;
      AddingAllKeepsOrder(done + [more[0]], Add(s, more[0]), more[1..]);
    }
  }

  /** Dependents in the registry's order, required before optional, and then the two trusted names. */
  lemma CallersAreInOrder(w: World, policy: seq<Restriction>, loaded: set<Name>, t: Name)
    requires w.policy == Some(policy) && t !in {Name("capability_module"), Name("core"), Name("core_service")}
    requires forall i :: 0 <= i < |policy| ==> policy[i].target != t
    ensures InOrder(Out(w.back, t) + Out(w.softBack, t) + [Name("core"), Name("core_service")], Derived(w, loaded, t))
  {
    FirstForMeans(policy, t);
    GatheringKeepsOrder([], [], Candidates(w, t), loaded);
    assert [] + Candidates(w, t) == Candidates(w, t);
    AddingAllKeepsOrder(Candidates(w, t), Gather([], Candidates(w, t), loaded), TRUSTED);
  }

  /** Only the flags of the target's own dependents matter. */
  lemma {:induction false} GatherIgnores(callers: seq<Name>, left: seq<Name>, loaded: set<Name>, loaded': set<Name>)
    requires forall d :: d in left ==> (d in loaded <==> d in loaded')
    ensures Gather(callers, left, loaded) == Gather(callers, left, loaded')
    decreases |left|
  {
    if left != [] {
      GatherIgnores(if left[0] in loaded then Add(callers, left[0]) else callers, left[1..], loaded, loaded');
    }
  }

  /** The loop that computes a list, when nothing changes under it. */
  method DerivedAllowedCallersFor(w: World, loaded: set<Name>, target: Name) returns (callers: seq<Name>)
    ensures callers == Derived(w, loaded, target)
  {
    if target in EXEMPT || w.policy.None? {
      return [];
    }
    var policy := w.policy.value;
    for i := 0 to |policy|
      invariant FirstFor(policy, target) == FirstFor(policy[i..], target)
    {
      if policy[i].target == target {
        return policy[i].callers;
      }
    }
    callers := [];
    var candidates := Candidates(w, target);
    for i := 0 to |candidates|
      invariant Gather(callers, candidates[i..], loaded) == Gather([], candidates, loaded)
    {
      if candidates[i] in loaded && candidates[i] !in callers {
        callers := callers + [candidates[i]];
      }
    }
    for i := 0 to |TRUSTED|
      invariant AddAll(callers, TRUSTED[i..]) == AddAll(Gather([], candidates, loaded), TRUSTED)
    {
      if TRUSTED[i] !in callers {
        callers := callers + [TRUSTED[i]];
      }
    }
  }

  // ---------------------------------------------------------------- a list and the flags behind it

  /** The callers found when the candidates' flags read as `flags`, one look-up each. */
  function ByReads(candidates: seq<Name>, flags: seq<bool>): seq<Name>
    requires |candidates| == |flags|
    decreases |flags|
  {
    if flags == [] then []
    else
      var k := |flags| - 1;
      var before := ByReads(candidates[..k], flags[..k]);
      if flags[k] then Add(before, candidates[k]) else before
  }

  function Flags(candidates: seq<Name>, loaded: set<Name>): seq<bool> {
    seq(|candidates|, i requires 0 <= i < |candidates| => candidates[i] in loaded)
  }

  /** The candidates that read as loaded at least once. */
  function ReadAsLoaded(candidates: seq<Name>, flags: seq<bool>): set<Name>
    requires |candidates| == |flags|
  {
    set i | 0 <= i < |flags| && flags[i] :: candidates[i]
  }

  lemma {:induction false} GatherOneMore(callers: seq<Name>, left: seq<Name>, d: Name, loaded: set<Name>)
    ensures Gather(callers, left + [d], loaded)
         == if d in loaded then Add(Gather(callers, left, loaded), d) else Gather(callers, left, loaded)
    decreases |left|
  {
    if left == [] {
      assert left + [d] == [d];
      assert Gather(callers, [d], loaded) == Gather(if d in loaded then Add(callers, d) else callers, [], loaded);
    } else {
      assert (left + [d])[1..] == left[1..] + [d];
      GatherOneMore(if left[0] in loaded then Add(callers, left[0]) else callers, left[1..], d, loaded);
    }
  }

  /** Reading the flags all at once is the gathering loop. */
  lemma {:induction false} FlagsGather(candidates: seq<Name>, loaded: set<Name>)
    ensures ByReads(candidates, Flags(candidates, loaded)) == Gather([], candidates, loaded)
    decreases |candidates|
  {
    if candidates != [] {
      var k := |candidates| - 1;
      assert candidates == candidates[..k] + [candidates[k]];
      assert Flags(candidates, loaded)[..k] == Flags(candidates[..k], loaded);
      FlagsGather(candidates[..k], loaded);
      GatherOneMore([], candidates[..k], candidates[k], loaded);
    }
  }

  lemma {:induction false} ByReadsAdds(candidates: seq<Name>, flags: seq<bool>)
    requires |candidates| == |flags|
    ensures NoDup(ByReads(candidates, flags))
    ensures Elems(ByReads(candidates, flags)) == ReadAsLoaded(candidates, flags)
    decreases |flags|
  {
    if flags != [] {
      var k := |flags| - 1;
      ByReadsAdds(candidates[..k], flags[..k]);
      var before := ReadAsLoaded(candidates[..k], flags[..k]);
      assert ReadAsLoaded(candidates, flags) == before + if flags[k] then {candidates[k]} else {} by {
        forall d
          ensures d in ReadAsLoaded(candidates, flags) <==> d in before || (flags[k] && d == candidates[k])
        {
          if i :| 0 <= i < |flags| && flags[i] && candidates[i] == d {
            assert i < k ==> flags[..k][i] && candidates[..k][i] == d;
          }
          if i :| 0 <= i < k && flags[..k][i] && candidates[..k][i] == d {
            assert flags[i] && candidates[i] == d;
          }
        }
      }
    }
  }

  /** No dependent is named like a trusted caller, and none declares the target both required and optional. */
  predicate Plain(w: World, target: Name) {
    NoDup(Candidates(w, target)) && forall d :: d in TRUSTED ==> d !in Candidates(w, target)
  }

  predicate SameFlags(w: World, loaded: set<Name>, target: Name, flags: seq<bool>)
    requires |Candidates(w, target)| == |flags|
  {
    forall d :: d in Candidates(w, target) && d !in TRUSTED
                ==> (d in ReadAsLoaded(Candidates(w, target), flags) <==> d in loaded)
  }

  function ListFrom(w: World, target: Name, flags: seq<bool>): seq<Name>
    requires |Candidates(w, target)| == |flags|
  {
    AddAll(ByReads(Candidates(w, target), flags), TRUSTED)
  }

  lemma ListAllows(w: World, target: Name, flags: seq<bool>)
    requires |Candidates(w, target)| == |flags|
    ensures Elems(ListFrom(w, target, flags)) == ReadAsLoaded(Candidates(w, target), flags) + Elems(TRUSTED)
  {
    ByReadsAdds(Candidates(w, target), flags);
    AddAllAdds(ByReads(Candidates(w, target), flags), TRUSTED);
  }

  lemma DerivedIsFromFlags(w: World, loaded: set<Name>, target: Name)
    requires FollowsLoaded(w, target)
    ensures Derived(w, loaded, target) == ListFrom(w, target, Flags(Candidates(w, target), loaded))
  {
    FlagsGather(Candidates(w, target), loaded);
  }

  lemma FlagsAreLoaded(candidates: seq<Name>, loaded: set<Name>, d: Name)
    ensures d in ReadAsLoaded(candidates, Flags(candidates, loaded)) <==> d in candidates && d in loaded
  {
    if d in candidates && d in loaded {
      var i :| 0 <= i < |candidates| && candidates[i] == d;
      assert Flags(candidates, loaded)[i];
    }
  }

  /** A list allows the callers it should exactly when no dependent's flag differs from the one it was derived from. */
  lemma SameCallersIffSameFlags(w: World, loaded: set<Name>, target: Name, flags: seq<bool>)
    requires FollowsLoaded(w, target) && |Candidates(w, target)| == |flags|
    ensures Elems(ListFrom(w, target, flags)) == Elems(Derived(w, loaded, target))
            <==> SameFlags(w, loaded, target, flags)
  {
    var all := Candidates(w, target);
    ListAllows(w, target, flags);
    ListAllows(w, target, Flags(all, loaded));
    DerivedIsFromFlags(w, loaded, target);
    var read, now := ReadAsLoaded(all, flags), ReadAsLoaded(all, Flags(all, loaded));
    forall d
      ensures d in now <==> d in all && d in loaded
    {
      FlagsAreLoaded(all, loaded, d);
    }
    assert forall d :: d in TRUSTED <==> d in Elems(TRUSTED);
    if read + Elems(TRUSTED) == now + Elems(TRUSTED) {
      forall d | d in all && d !in TRUSTED
        ensures d in read <==> d in loaded
      {
        assert d in read + Elems(TRUSTED) <==> d in now + Elems(TRUSTED);
      }
    }
  }

  lemma PlainFlags(w: World, loaded: set<Name>, target: Name, flags: seq<bool>)
    requires Plain(w, target) && |Candidates(w, target)| == |flags| && SameFlags(w, loaded, target, flags)
    ensures flags == Flags(Candidates(w, target), loaded)
  {
    var all := Candidates(w, target);
    forall i | 0 <= i < |flags|
      ensures flags[i] <==> all[i] in loaded
    {
      var d := all[i];
      assert d in all && d !in TRUSTED;
      if d in ReadAsLoaded(all, flags) {
        var j :| 0 <= j < |flags| && flags[j] && all[j] == d;
        assert i == j;
      }
    }
  }

  /** The very list, in its order, when it was derived from the present flags; and for a plain target only then. */
  lemma SameListIffSameFlags(w: World, loaded: set<Name>, target: Name, flags: seq<bool>)
    requires FollowsLoaded(w, target) && |Candidates(w, target)| == |flags|
    ensures flags == Flags(Candidates(w, target), loaded) ==> ListFrom(w, target, flags) == Derived(w, loaded, target)
    ensures Plain(w, target) ==>
              (ListFrom(w, target, flags) == Derived(w, loaded, target) <==> SameFlags(w, loaded, target, flags))
  {
    DerivedIsFromFlags(w, loaded, target);
    SameCallersIffSameFlags(w, loaded, target, flags);
    if Plain(w, target) && SameFlags(w, loaded, target, flags) {
      PlainFlags(w, loaded, target, flags);
    }
  }
}
