/** Unloading a module together with everything loaded that depends on it, dependents first. */
module CascadeUnload {
  import opened Names
  import opened Graphs
  import opened ModuleRegistry
  import DependencyResolver

  /** What the resolver sees of a registry when only required edges matter. */
  function HardCatalog(t: Table): DependencyResolver.Catalog {
    DependencyResolver.Catalog(t.Keys, Forward(t), map[])
  }

  /** A loaded module's named, known dependencies are loaded too. */
  ghost predicate RunsClosed(t: Table, loaded: set<Name>) {
    forall n, d :: n in loaded && Edge(Live(Forward(t)), n, d) && d in t ==> d in loaded
  }

  /** The target and each loaded module with a chain of dependencies down to it. */
  ghost predicate InTeardown(t: Table, name: Name, n: Name) {
    n == name || (n in Loaded(t) && Beyond(Forward(t), n, name))
  }

  /** A named dependency between two members points forward in the order. */
  ghost predicate DependentsFirst(e: Edges, order: seq<Name>) {
    forall i, j :: 0 <= i < |order| && 0 <= j < |order| && Edge(e, order[i], order[j]) ==> i < j
  }

  ghost function Members(t: Table, name: Name): set<Name> {
    set n | n in t && InTeardown(t, name, n)
  }

  /** No cycle among the modules the resolver reaches from the teardown set. */
  ghost predicate TeardownAcyclic(t: Table, name: Name) {
    !HasCycle(Live(Forward(t)), Closure(Live(Forward(t)), Members(t, name), t.Keys))
  }

  /** The target first, then its loaded dependents, each once. */
  method TeardownSet(reg: Registry, name: Name) returns (s: seq<Name>)
    requires reg.Valid() && name in Loaded(reg.modules)
    ensures NoDup(s) && forall n :: n in s <==> InTeardown(reg.modules, name, n)
  {
    var loaded := Loaded(reg.modules);
    var dependents := reg.ModuleDependents(name, true);
    s := [name];
    for i := 0 to |dependents|
      invariant NoDup(s)
      invariant forall n :: n in s <==> n == name || (n in dependents[..i] && n in loaded)
    {
      assert dependents[..i + 1] == dependents[..i] + [dependents[i]];
      if dependents[i] in loaded && dependents[i] !in s {
        s := s + [dependents[i]];
      }
    }
    assert dependents[..|dependents|] == dependents;
  }

  /** The load order read backwards, kept to the members; members it lacks go to the end. */
  method ReverseOrder(members: seq<Name>, loadOrder: seq<Name>, ghost e: Edges, ghost inside: set<Name>)
    returns (order: seq<Name>)
    requires NoDup(members) && NoDup(loadOrder) && DependenciesFirst(e, inside, loadOrder)
    requires forall m :: m in members ==> m in inside
    ensures NoDup(order) && Elems(order) == Elems(members)
    ensures (forall m :: m in members ==> m in loadOrder) ==> DependentsFirst(e, order)
  {
    order := [];
    var k := |loadOrder|;
    while k > 0
      invariant 0 <= k <= |loadOrder|
      invariant NoDup(order) && DependentsFirst(e, order)
      invariant forall m :: m in order <==> m in members && m in loadOrder[k..]
    {
      k := k - 1;
      assert loadOrder[k..] == [loadOrder[k]] + loadOrder[k + 1..];
      if loadOrder[k] in members && loadOrder[k] !in order {
        NextIsLeaf(e, inside, loadOrder, order, k);
        order := order + [loadOrder[k]];
      }
    }
    assert loadOrder[0..] == loadOrder;
    ghost var placed := order;
    for i := 0 to |members|
      invariant NoDup(order)
      invariant forall m :: m in order <==> m in placed || m in members[..i]
      invariant (forall m :: m in members ==> m in loadOrder) ==> order == placed
    {
      assert members[..i + 1] == members[..i] + [members[i]];
      assert members[i] in members;
      if members[i] !in order {
        order := order + [members[i]];
      }
    }
    assert members[..|members|] == members;
  }

  lemma NextIsLeaf(e: Edges, inside: set<Name>, loadOrder: seq<Name>, order: seq<Name>, k: nat)
    requires NoDup(loadOrder) && DependenciesFirst(e, inside, loadOrder) && k < |loadOrder|
    requires DependentsFirst(e, order)
    requires forall m :: m in order ==> m in inside && m in loadOrder[k + 1..]
    requires loadOrder[k] in inside
    ensures DependentsFirst(e, order + [loadOrder[k]])
  {
    var x := loadOrder[k];
    var longer := order + [x];
    forall y | y in longer
      ensures !Edge(e, x, y)
    {
      HalvesAreApart(loadOrder, k, y);
      assert y in loadOrder[k..];
    }
    forall i, j | 0 <= i < |longer| && 0 <= j < |longer| && Edge(e, longer[i], longer[j])
      ensures i < j
    {
      assert longer[j] in longer;
    }
  }

  lemma HalvesAreApart(s: seq<Name>, k: nat, y: Name)
    requires NoDup(s) && k <= |s|
    ensures y !in s[..k] || y !in s[k..]
  {
    if y in s[k..] {
      var i :| 0 <= i < |s[k..]| && s[k..][i] == y;
      assert s[k + i] == y;
    }
  }

  method TeardownOrder(reg: Registry, name: Name) returns (order: seq<Name>)
    requires reg.Valid() && name in Loaded(reg.modules)
    ensures NoDup(order) && forall n :: n in order <==> InTeardown(reg.modules, name, n)
    ensures TeardownAcyclic(reg.modules, name) ==> DependentsFirst(Live(Forward(reg.modules)), order)
  {
    var members := TeardownSet(reg, name);
    var g := HardCatalog(reg.modules);
    var resolved := DependencyResolver.Resolve(members, g, false, DependencyResolver.OrderOnly);
    ghost var inside := DependencyResolver.RequiredClosure(g, members);
    ClosureIsLeastClosed(g.Required(), Elems(members), g.known);
    order := ReverseOrder(members, resolved.order, g.Required(), inside);
    if !HasCycle(g.Required(), inside) {
      forall m | m in members
        ensures m in resolved.order
      {
        DependencyResolver.ReachedCyclesExist(g.Required(), inside, m);
      }
    }
    assert Elems(members) == Members(reg.modules, name);
    assert forall n :: n in order <==> n in Elems(order);
  }

  /** Whoever depends directly on a member of the teardown, and runs, is a member. */
  lemma DependentsAreMembers(t: Table, name: Name, n: Name, d: Name)
    requires n in Loaded(t) && Edge(Live(Forward(t)), n, d) && InTeardown(t, name, d)
    requires name in t
    ensures InTeardown(t, name, n)
  {
    if n != name {
      var u := Universe(Forward(t));
      assert Edge(Forward(t), n, d);
      assert PathFromTo(Forward(t), u, [n, d], n, d);
      if d != name {
        var p :| PathFromTo(Forward(t), u, p, d, name);
        PathsCompose(Forward(t), u, [n, d], p, n, d, name);
      }
    }
  }

  /** Leaves first: after every single unload, what still runs is closed under its dependencies. */
  lemma ClosedAfterEachUnload(t: Table, name: Name, order: seq<Name>, k: nat)
    requires name in t && k <= |order| && NoDup(order)
    requires forall n :: n in order <==> InTeardown(t, name, n)
    requires DependentsFirst(Live(Forward(t)), order)
    requires RunsClosed(t, Loaded(t))
    ensures RunsClosed(t, Loaded(t) - Elems(order[..k]))
  {
    forall n, d | n in Loaded(t) - Elems(order[..k]) && Edge(Live(Forward(t)), n, d) && d in t
      ensures d in Loaded(t) - Elems(order[..k])
    {
      if d in order {
        DependentsAreMembers(t, name, n, d);
        DependencyStaysUp(Live(Forward(t)), order, k, n, d);
      }
    }
  }

  lemma DependencyStaysUp(e: Edges, order: seq<Name>, k: nat, n: Name, d: Name)
    requires k <= |order| && DependentsFirst(e, order) && Edge(e, n, d)
    requires n in order && n !in order[..k]
    ensures d !in order[..k]
  {
    var j :| 0 <= j < |order| && order[j] == n;
    assert forall i :: 0 <= i < k ==> order[i] in order[..k];
    forall i | 0 <= i < k
      ensures order[i] != d
    {
      assert Edge(e, order[j], order[i]) ==> j < i;
    }
  }

  /** The table after some modules left: their marks cleared, everything else as it was. */
  function Without(t: Table, gone: set<Name>): Table {
    map n | n in t :: if n in gone then t[n].(loaded := false, loadedAt := 0) else t[n]
  }

  /** What the cascade leaves of `t` once the first `k` of `order` have had their turn. */
  function After(t: Table, order: seq<Name>, k: nat, failing: set<Name>): Table
    requires k <= |order|
  {
    Without(t, Elems(order[..k]) - failing)
  }

  predicate NoneOf(s: seq<Name>, failing: set<Name>) {
    forall n :: n in s ==> n !in failing
  }

  lemma OneMoreUnload(t: Table, order: seq<Name>, k: nat, failing: set<Name>)
    requires k < |order| && NoDup(order) && order[k] in Loaded(t)
    ensures order[k] in Loaded(After(t, order, k, failing))
    ensures After(t, order, k + 1, failing) ==
            if order[k] in failing then After(t, order, k, failing)
            else After(t, order, k, failing)[order[k] := t[order[k]].(loaded := false, loadedAt := 0)]
    ensures order[k] in After(t, order, k, failing) && After(t, order, k, failing)[order[k]] == t[order[k]]
  {
    assert order[..k + 1] == order[..k] + [order[k]];
    assert Elems(order[..k + 1]) == Elems(order[..k]) + {order[k]};
    assert order[k] !in order[..k];
  }

  /** No module whose unload is refused depends on one that is taken down. */
  ghost predicate RefusalsAgree(t: Table, order: seq<Name>, failing: set<Name>) {
    forall n, d :: n in order && n in failing && Edge(Live(Forward(t)), n, d) && d in order ==> d in failing
  }

  lemma UnloadsKeepEdges(t: Table, gone: set<Name>)
    ensures Forward(Without(t, gone)) == Forward(t) && Loaded(Without(t, gone)) == Loaded(t) - gone
  {
  }

  /** Whatever the order was: what runs after a cascade is closed exactly when the refusals agree. */
  lemma ClosedIffRefusalsAgree(t: Table, name: Name, order: seq<Name>, failing: set<Name>)
    requires name in Loaded(t) && RunsClosed(t, Loaded(t))
    requires forall n :: n in order <==> InTeardown(t, name, n)
    ensures var t' := After(t, order, |order|, failing);
            && (RunsClosed(t', Loaded(t')) <==> RefusalsAgree(t, order, failing))
            && (forall n :: n in Loaded(t') && (n == name || Beyond(Forward(t'), n, name)) ==> n in failing)
  {
    var t' := After(t, order, |order|, failing);
    assert order[..|order|] == order;
    UnloadsKeepEdges(t, Elems(order) - failing);
    assert forall n :: n in Loaded(t') <==> n in Loaded(t) && !(n in order && n !in failing);
    if RunsClosed(t', Loaded(t')) {
      forall n, d | n in order && n in failing && Edge(Live(Forward(t)), n, d) && d in order
        ensures d in failing
      {
        assert n in Loaded(t') && d in t';
      }
    }
    if RefusalsAgree(t, order, failing) {
      forall n, d | n in Loaded(t') && Edge(Live(Forward(t')), n, d) && d in t'
        ensures d in Loaded(t')
      {
        if d in order {
          DependentsAreMembers(t, name, n, d);
        }
      }
    }
  }

  /** Of what ran, the target and its transitive dependents are down, unless refused; everything else runs on. */
  ghost predicate TookDown(t: Table, name: Name, failing: set<Name>, u: Table) {
    forall n :: n in u && u[n].loaded <==>
      n in t && t[n].loaded && ((n != name && !Beyond(Forward(t), n, name)) || n in failing)
  }

  lemma WhoIsTakenDown(t: Table, name: Name, order: seq<Name>, failing: set<Name>)
    requires name in Loaded(t) && forall n :: n in order <==> InTeardown(t, name, n)
    ensures TookDown(t, name, failing, After(t, order, |order|, failing))
  {
    assert order[..|order|] == order;
    UnloadsKeepEdges(t, Elems(order) - failing);
    var u := After(t, order, |order|, failing);
    forall n
      ensures n in u && u[n].loaded <==> n in Loaded(t) - (Elems(order) - failing)
    {
      assert n in Loaded(u) <==> n in u && u[n].loaded;
    }
  }

  /**
   * The cascade; `failing` are the modules whose own unload is refused. Nothing crashes meanwhile. With none
   * refused, what ran closed under its dependencies still does, without the target and all that depends on it.
   */
  method UnloadModuleWithDependents(reg: Registry, name: Name, failing: set<Name>)
    returns (ok: bool, order: seq<Name>)
    requires reg.Valid()
    modifies reg
    ensures reg.Valid()
    ensures old(name !in Loaded(reg.modules)) ==> !ok && order == [] && reg.modules == old(reg.modules)
    ensures old(name in Loaded(reg.modules)) ==>
              && NoDup(order) && (forall n :: n in order <==> InTeardown(old(reg.modules), name, n))
              && reg.modules == After(old(reg.modules), order, |order|, failing)
              && (ok <==> NoneOf(order, failing))
              && (TeardownAcyclic(old(reg.modules), name) ==> DependentsFirst(Live(Forward(old(reg.modules))), order))
    ensures old(name in Loaded(reg.modules) && RunsClosed(reg.modules, Loaded(reg.modules))) ==>
              && (RunsClosed(reg.modules, Loaded(reg.modules)) <==> RefusalsAgree(old(reg.modules), order, failing))
              && (failing == {} ==> RunsClosed(reg.modules, Loaded(reg.modules)))
              && forall n :: n in Loaded(reg.modules) && (n == name || Beyond(Forward(reg.modules), n, name))
                             ==> n in failing
    ensures old(name in Loaded(reg.modules)) ==> TookDown(old(reg.modules), name, failing, reg.modules)
  {
    if name !in Loaded(reg.modules) {
      return false, [];
    }
    ghost var t := reg.modules;
    order := TeardownOrder(reg, name);
    ok := RunCascade(reg, order, failing);
    if RunsClosed(t, Loaded(t)) {
      ClosedIffRefusalsAgree(t, name, order, failing);
    }
    WhoIsTakenDown(t, name, order, failing);
  }

  /** One turn of the cascade: a module no longer loaded is passed over, a refused one stays. */
  method UnloadNext(reg: Registry, ghost t: Table, order: seq<Name>, k: nat, failing: set<Name>) returns (ok: bool)
    requires reg.Valid() && NoDup(order) && k < |order| && order[k] in Loaded(t)
    requires reg.modules == After(t, order, k, failing)
    modifies reg
    ensures reg.Valid() && reg.modules == After(t, order, k + 1, failing)
    ensures ok <==> order[k] !in failing
  {
    OneMoreUnload(t, order, k, failing);
    ok := true;
    if reg.modules[order[k]].loaded {
      if order[k] in failing {
        ok := false;
      } else {
        reg.MarkUnloaded(order[k]);
      }
    }
  }

  method RunCascade(reg: Registry, order: seq<Name>, failing: set<Name>) returns (ok: bool)
    requires reg.Valid() && NoDup(order) && forall n :: n in order ==> n in Loaded(reg.modules)
    modifies reg
    ensures reg.Valid()
    ensures reg.modules == After(old(reg.modules), order, |order|, failing)
    ensures ok <==> NoneOf(order, failing)
  {
    ok := true;
    ghost var t := reg.modules;
    assert After(t, order, 0, failing) == t;
    var k := 0;
    while k < |order|
      invariant 0 <= k <= |order|
      invariant reg.Valid() && reg.modules == After(t, order, k, failing)
      invariant ok <==> NoneOf(order[..k], failing)
    {
      assert order[k] in order;
      OneMoreTurn(order, k, failing);
      var done := UnloadNext(reg, t, order, k, failing);
      ok := ok && done;
      k := k + 1;
    }
    assert order[..|order|] == order;
  }

  lemma OneMoreTurn(order: seq<Name>, k: nat, failing: set<Name>)
    requires k < |order|
    ensures NoneOf(order[..k + 1], failing) <==> NoneOf(order[..k], failing) && order[k] !in failing
  {
    assert order[..k + 1] == order[..k] + [order[k]];
  }

  /**
   * What the cascade is for: over a closed loaded set and an acyclic reachable graph, with no step refused,
   * every intermediate loaded set is closed and in the end neither the target nor a transitive dependent runs.
   */
  lemma CascadeIsOrderly(t: Table, name: Name, order: seq<Name>, k: nat)
    requires name in Loaded(t) && k <= |order| && NoDup(order)
    requires forall n :: n in order <==> InTeardown(t, name, n)
    requires DependentsFirst(Live(Forward(t)), order) && RunsClosed(t, Loaded(t))
    ensures RunsClosed(t, Loaded(After(t, order, k, {})))
    ensures k == |order| ==>
              forall n :: n in Loaded(After(t, order, k, {})) ==> n != name && !Beyond(Forward(t), n, name)
  {
    ClosedAfterEachUnload(t, name, order, k);
    assert Loaded(After(t, order, k, {})) == Loaded(t) - Elems(order[..k]);
    assert k == |order| ==> order[..k] == order;
  }
}
