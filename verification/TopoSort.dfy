/** Kahn's algorithm as the resolver runs it, on edge lists that may repeat and loop. */
module TopoSort {
  import opened Names
  import opened Graphs

  /** How many entries of `s` name a member of `open`. */
  ghost function Pending(s: seq<Name>, open: set<Name>): nat {
    if s == [] then 0
    else Pending(s[..|s| - 1], open) + (if s[|s| - 1] in open then 1 else 0)
  }

  /** How many entries of `s` are `x`. */
  ghost function Times(s: seq<Name>, x: Name): nat {
    if s == [] then 0 else Times(s[..|s| - 1], x) + (if s[|s| - 1] == x then 1 else 0)
  }

  lemma {:induction false} TimesOfMember(s: seq<Name>, x: Name)
    ensures Times(s, x) > 0 <==> x in s
  {
    if s != [] {
      TimesOfMember(s[..|s| - 1], x);
      assert s == s[..|s| - 1] + [s[|s| - 1]];
    }
  }

  lemma TimesSnoc(s: seq<Name>, y: Name, x: Name)
    ensures Times(s + [y], x) == Times(s, x) + (if y == x then 1 else 0)
  {
    assert (s + [y])[..|s|] == s;
  }

  lemma TimesNext(s: seq<Name>, k: nat, x: Name)
    requires k < |s|
    ensures Times(s[..k + 1], x) == Times(s[..k], x) + (if s[k] == x then 1 else 0)
  {
    assert s[..k + 1][..k] == s[..k];
  }

  lemma {:induction false} TimesGrow(s: seq<Name>, x: Name, k: nat)
    requires k < |s|
    ensures Times(s[..k], x) + (if s[k] == x then 1 else 0) <= Times(s, x)
  {
    if k < |s| - 1 {
      TimesGrow(s[..|s| - 1], x, k);
      assert s[..|s| - 1][..k] == s[..k];
    }
  }

  lemma {:induction false} PendingWithout(s: seq<Name>, open: set<Name>, x: Name)
    ensures Pending(s, open) == Pending(s, open - {x}) + (if x in open then Times(s, x) else 0)
  {
    if s != [] {
      PendingWithout(s[..|s| - 1], open, x);
    }
  }

  lemma {:induction false} PendingIsZero(s: seq<Name>, open: set<Name>)
    ensures Pending(s, open) == 0 <==> forall d :: d in s ==> d !in open
  {
    if s != [] {
      PendingIsZero(s[..|s| - 1], open);
      assert s == s[..|s| - 1] + [s[|s| - 1]];
    }
  }

  /** `dependents` holds the counted edges of the `done` modules, turned round, with multiplicity. */
  ghost predicate Inverted(dependents: Edges, e: Edges, done: set<Name>, inner: set<Name>) {
    forall d, m :: Times(Out(dependents, d), m) ==
                   (if m in done && d in inner then Times(Out(e, m), d) else 0)
  }

  ghost predicate Extended(dependents: Edges, before: Edges, x: Name, edges: seq<Name>, inner: set<Name>) {
    forall d, m :: Times(Out(dependents, d), m) ==
                   Times(Out(before, d), m) + (if m == x && d in inner then Times(edges, d) else 0)
  }

  lemma NothingExtended(before: Edges, x: Name, edges: seq<Name>, inner: set<Name>)
    requires edges == []
    ensures Extended(before, before, x, edges, inner)
  {
    assert forall d :: Times(edges, d) == 0;
  }

  function Appended(dependents: Edges, dep: Name, x: Name): Edges {
    dependents[dep := Out(dependents, dep) + [x]]
  }

  lemma AppendedAt(dependents: Edges, dep: Name, x: Name, d: Name, m: Name)
    ensures Times(Out(Appended(dependents, dep, x), d), m)
         == Times(Out(dependents, d), m) + (if x == m && dep == d then 1 else 0)
  {
    TimesSnoc(Out(dependents, dep), x, m);
  }

  lemma ExtendOne(dependents: Edges, before: Edges, x: Name, edges: seq<Name>, inner: set<Name>, dep: Name)
    requires Extended(dependents, before, x, edges, inner)
    ensures dep !in inner ==> Extended(dependents, before, x, edges + [dep], inner)
    ensures dep in inner ==> Extended(Appended(dependents, dep, x), before, x, edges + [dep], inner)
  {
    var after := if dep in inner then Appended(dependents, dep, x) else dependents;
    forall d, m
      ensures Times(Out(after, d), m) ==
              Times(Out(before, d), m) + (if m == x && d in inner then Times(edges + [dep], d) else 0)
    {
      TimesSnoc(edges, dep, d);
      AppendedAt(dependents, dep, x, d, m);
      assert Times(Out(dependents, d), m) ==
             Times(Out(before, d), m) + (if m == x && d in inner then Times(edges, d) else 0);
    }
  }

  /** In-degrees count the edges into what is not yet placed. */
  ghost predicate Counts(inDegree: map<Name, int>, modules: set<Name>, e: Edges, open: set<Name>) {
    inDegree.Keys == modules && forall m :: m in modules ==> inDegree[m] == Pending(Out(e, m), open)
  }

  ghost predicate Queued(inDegree: map<Name, int>, modules: set<Name>, order: seq<Name>, queue: seq<Name>) {
    && inDegree.Keys == modules
    && NoDup(order) && NoDup(queue)
    && (forall m :: m in queue ==> m in modules && m !in order)
    && (forall m :: m in order ==> m in modules)
    && (forall m :: m in modules ==> (inDegree[m] == 0 <==> m in order || m in queue))
  }

  /** Count one module's edges into the set, and turn each of them round. */
  method CountModule(modules: set<Name>, edges: seq<Name>, moduleName: Name, before: Edges)
    returns (degree: int, dependents: Edges)
    ensures degree == Pending(edges, modules - {NO_NAME})
    ensures Extended(dependents, before, moduleName, edges, modules - {NO_NAME})
  {
    degree, dependents := 0, before;
    NothingExtended(before, moduleName, edges[..0], modules - {NO_NAME});
    for k := 0 to |edges|
      invariant degree == Pending(edges[..k], modules - {NO_NAME})
      invariant Extended(dependents, before, moduleName, edges[..k], modules - {NO_NAME})
    {
      var depName := edges[k];
      assert edges[..k + 1] == edges[..k] + [depName];
      assert edges[..k + 1][..k] == edges[..k];
      ExtendOne(dependents, before, moduleName, edges[..k], modules - {NO_NAME}, depName);
      if depName != NO_NAME && depName in modules {
        degree := degree + 1;
        dependents := Appended(dependents, depName, moduleName);
      }
    }
    assert edges[..|edges|] == edges;
  }

  lemma NothingInverted(e: Edges, inner: set<Name>)
    ensures Inverted(map[], e, {}, inner)
  {
    forall d, m
      ensures Times(Out(map[], d), m) == 0
    {
      assert Out(map[], d) == [];
    }
  }

  lemma InvertOne(dependents: Edges, before: Edges, e: Edges, done: set<Name>, inner: set<Name>, x: Name)
    requires Inverted(before, e, done, inner) && x !in done
    requires Extended(dependents, before, x, Out(e, x), inner)
    ensures Inverted(dependents, e, done + {x}, inner)
  {
  }

  method CountEdges(modules: set<Name>, e: Edges) returns (inDegree: map<Name, int>, dependents: Edges)
    ensures Counts(inDegree, modules, e, modules - {NO_NAME})
    ensures Inverted(dependents, e, modules, modules - {NO_NAME})
  {
    inDegree, dependents := map[], map[];
    var rest := modules;
    ghost var done := {};
    NothingInverted(e, modules - {NO_NAME});
    while rest != {}
      invariant rest <= modules && done == modules - rest
      invariant Counts(inDegree, done, e, modules - {NO_NAME})
      invariant Inverted(dependents, e, done, modules - {NO_NAME})
      decreases |rest|
    {
      var moduleName :| moduleName in rest;
      var degree, more := CountModule(modules, Out(e, moduleName), moduleName, dependents);
      InvertOne(more, dependents, e, done, modules - {NO_NAME}, moduleName);
      CountOne(inDegree, done, e, modules - {NO_NAME}, moduleName, degree);
      inDegree, dependents := inDegree[moduleName := degree], more;
      rest := rest - {moduleName};
      done := done + {moduleName};
    }
    assert done == modules;
  }

  lemma CountOne(inDegree: map<Name, int>, done: set<Name>, e: Edges, open: set<Name>, x: Name, degree: int)
    requires Counts(inDegree, done, e, open) && degree == Pending(Out(e, x), open)
    ensures Counts(inDegree[x := degree], done + {x}, e, open)
  {
  }

  /** The modules with nothing to wait for, in whatever order the set yields them. */
  method FirstQueue(modules: set<Name>, inDegree: map<Name, int>) returns (queue: seq<Name>)
    requires inDegree.Keys == modules
    ensures Queued(inDegree, modules, [], queue)
  {
    queue := [];
    var rest := modules;
    while rest != {}
      invariant rest <= modules && NoDup(queue)
      invariant forall m :: m in queue <==> m in modules - rest && inDegree[m] == 0
      decreases |rest|
    {
      var moduleName :| moduleName in rest;
      if inDegree[moduleName] == 0 {
        queue := queue + [moduleName];
      }
      rest := rest - {moduleName};
    }
  }

  /** Release the modules waiting on the one just placed, queueing those left with nothing to wait for. */
  method Release(inDegree0: map<Name, int>, queue0: seq<Name>, waiting: seq<Name>,
                 modules: set<Name>, ghost order: seq<Name>)
    returns (inDegree: map<Name, int>, queue: seq<Name>)
    requires Queued(inDegree0, modules, order, queue0)
    requires forall m :: m in waiting ==> m in modules
    requires forall m :: m in modules ==> Times(waiting, m) <= inDegree0[m]
    ensures Queued(inDegree, modules, order, queue)
    ensures forall m :: m in modules ==> inDegree[m] == inDegree0[m] - Times(waiting, m)
  {
    inDegree, queue := inDegree0, queue0;
    assert waiting[..0] == [];
    for k := 0 to |waiting|
      invariant Queued(inDegree, modules, order, queue)
      invariant forall m :: m in modules ==> inDegree[m] == inDegree0[m] - Times(waiting[..k], m)
    {
      var dependent := waiting[k];
      TimesGrow(waiting, dependent, k);
      forall m
        ensures Times(waiting[..k + 1], m) == Times(waiting[..k], m) + (if dependent == m then 1 else 0)
      {
        TimesNext(waiting, k, m);
      }
      DecrementKeepsQueue(inDegree, modules, order, queue, dependent);
      inDegree := inDegree[dependent := inDegree[dependent] - 1];
      if inDegree[dependent] == 0 {
        queue := queue + [dependent];
      }
    }
    assert waiting[..|waiting|] == waiting;
  }

  lemma DecrementKeepsQueue(inDegree: map<Name, int>, modules: set<Name>, order: seq<Name>, queue: seq<Name>,
                            x: Name)
    requires Queued(inDegree, modules, order, queue) && x in modules && inDegree[x] > 0
    ensures Queued(inDegree[x := inDegree[x] - 1], modules, order, if inDegree[x] == 1 then queue + [x] else queue)
  {
  }

  /** What a waiting module can still be waiting on. */
  ghost predicate IsOpen(open: set<Name>, modules: set<Name>, order: seq<Name>) {
    forall m :: m in open <==> m in modules && m != NO_NAME && m !in order
  }

  /** The state of the sort between two placements. */
  ghost predicate Sorting(modules: set<Name>, e: Edges, inDegree: map<Name, int>, order: seq<Name>,
                          queue: seq<Name>, open: set<Name>) {
    && IsOpen(open, modules, order)
    && Counts(inDegree, modules, e, open)
    && Queued(inDegree, modules, order, queue)
    && DependenciesFirst(Live(e), modules, order)
  }

  /** Exactly the modules that reach no cycle of edges inside the set, dependencies first. */
  method TopoSort(modules: set<Name>, e: Edges) returns (order: seq<Name>)
    ensures NoDup(order) && DependenciesFirst(Live(e), modules, order)
    ensures forall m :: m in order <==> m in modules && !ReachesCycle(Live(e), modules, m)
  {
    var inDegree, dependents := CountEdges(modules, e);
    var queue := FirstQueue(modules, inDegree);
    order := [];
    ghost var open := modules - {NO_NAME};
    while queue != []
      invariant Sorting(modules, e, inDegree, order, queue, open)
      decreases |modules| - |order|
    {
      var moduleName := queue[0];
      BeforeRelease(modules, e, inDegree, order, queue, open, dependents);
      var degrees, longer := Release(inDegree, queue[1..], Out(dependents, moduleName), modules, order + [moduleName]);
      AfterRelease(modules, e, inDegree, order, queue, open, dependents, degrees, longer);
      order := order + [moduleName];
      inDegree, queue := degrees, longer;
      open := open - {moduleName};
    }
    Exact(inDegree, modules, e, open, order);
  }

  lemma BeforeRelease(modules: set<Name>, e: Edges, inDegree: map<Name, int>, order: seq<Name>, queue: seq<Name>,
                      open: set<Name>, dependents: Edges)
    requires Sorting(modules, e, inDegree, order, queue, open) && queue != []
    requires Inverted(dependents, e, modules, modules - {NO_NAME})
    ensures queue[0] in modules && queue[0] !in order && inDegree[queue[0]] == 0
    ensures |order| < |modules|
    ensures Queued(inDegree, modules, order + [queue[0]], queue[1..])
    ensures forall m :: m in Out(dependents, queue[0]) ==> m in modules
    ensures forall m :: m in modules ==>
                          inDegree[m] == Pending(Out(e, m), open - {queue[0]}) + Times(Out(dependents, queue[0]), m)
  {
    PopKeepsQueue(inDegree, modules, order, queue);
    RoomLeft(modules, order + [queue[0]]);
    PlacingCounts(inDegree, modules, e, open, dependents, queue[0]);
  }

  lemma PopKeepsQueue(inDegree: map<Name, int>, modules: set<Name>, order: seq<Name>, queue: seq<Name>)
    requires Queued(inDegree, modules, order, queue) && queue != []
    ensures queue[0] in modules && queue[0] !in order && inDegree[queue[0]] == 0
    ensures Queued(inDegree, modules, order + [queue[0]], queue[1..])
  {
    assert queue[0] in queue;
    assert queue == [queue[0]] + queue[1..];
  }

  /** Placing `x` takes exactly the edges into `x` off the counts. */
  lemma PlacingCounts(inDegree: map<Name, int>, modules: set<Name>, e: Edges, open: set<Name>,
                      dependents: Edges, x: Name)
    requires Inverted(dependents, e, modules, modules - {NO_NAME})
    requires Counts(inDegree, modules, e, open)
    requires x in open <==> x in modules - {NO_NAME}
    ensures forall m :: m in modules ==>
                          inDegree[m] == Pending(Out(e, m), open - {x}) + Times(Out(dependents, x), m)
    ensures forall m :: m in Out(dependents, x) ==> m in modules
  {
    forall m | m in modules
      ensures inDegree[m] == Pending(Out(e, m), open - {x}) + Times(Out(dependents, x), m)
    {
      PendingWithout(Out(e, m), open, x);
    }
    forall m | m in Out(dependents, x)
      ensures m in modules
    {
      TimesOfMember(Out(dependents, x), m);
    }
  }

  lemma AfterRelease(modules: set<Name>, e: Edges, inDegree: map<Name, int>, order: seq<Name>, queue: seq<Name>,
                     open: set<Name>, dependents: Edges, degrees: map<Name, int>, longer: seq<Name>)
    requires Sorting(modules, e, inDegree, order, queue, open) && queue != []
    requires Inverted(dependents, e, modules, modules - {NO_NAME})
    requires Queued(degrees, modules, order + [queue[0]], longer)
    requires forall m :: m in modules ==> degrees[m] == inDegree[m] - Times(Out(dependents, queue[0]), m)
    ensures Sorting(modules, e, degrees, order + [queue[0]], longer, open - {queue[0]})
  {
    BeforeRelease(modules, e, inDegree, order, queue, open, dependents);
    Placeable(inDegree, modules, e, open, order, queue[0]);
  }

  lemma RoomLeft(modules: set<Name>, order: seq<Name>)
    requires NoDup(order) && forall m :: m in order ==> m in modules
    ensures |order| <= |modules|
  {
    NoDupLength(order);
    SubsetSize(Elems(order), modules);
  }

  lemma Placeable(inDegree: map<Name, int>, modules: set<Name>, e: Edges, open: set<Name>, order: seq<Name>,
                  x: Name)
    requires Counts(inDegree, modules, e, open) && x in modules && inDegree[x] == 0
    requires IsOpen(open, modules, order) && DependenciesFirst(Live(e), modules, order)
    ensures DependenciesFirst(Live(e), modules, order + [x])
  {
    PendingIsZero(Out(e, x), open);
    var longer := order + [x];
    forall j, d | 0 <= j < |longer| && d in modules && Edge(Live(e), longer[j], d)
      ensures d in longer[..j]
    {
      if j < |order| {
        assert longer[..j] == order[..j];
      } else {
        assert longer[..j] == order;
        assert d in Out(e, x) && d != NO_NAME;
      }
    }
  }

  lemma Exact(inDegree: map<Name, int>, modules: set<Name>, e: Edges, open: set<Name>, order: seq<Name>)
    requires Counts(inDegree, modules, e, open) && Queued(inDegree, modules, order, [])
    requires IsOpen(open, modules, order) && DependenciesFirst(Live(e), modules, order)
    ensures forall m :: m in order <==> m in modules && !ReachesCycle(Live(e), modules, m)
  {
    var stuck := modules - Elems(order);
    forall x | x in stuck
      ensures WaitsIn(Live(e), stuck, x)
    {
      PendingIsZero(Out(e, x), open);
      var y :| y in Out(e, x) && y in open;
      assert y in stuck && Edge(Live(e), x, y);
    }
    forall m | m in modules
      ensures m in order <==> !ReachesCycle(Live(e), modules, m)
    {
      if m in order {
        OrderedAvoidsCycles(Live(e), modules, order, m);
      } else {
        StuckReachesCycle(Live(e), modules, stuck, m);
      }
    }
  }
}
