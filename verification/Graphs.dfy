/** Directed graphs given by edge lists: least closed sets, paths and cycles. */
module Graphs {
  import opened Names

  type Edges = map<Name, seq<Name>>

  function Out(e: Edges, n: Name): seq<Name> {
    if n in e then e[n] else []
  }

  predicate Edge(e: Edges, x: Name, y: Name) {
    y in Out(e, x)
  }

  function DropEmpty(s: seq<Name>): (r: seq<Name>)
    ensures forall y :: y in r <==> y in s && y != NO_NAME
  {
    if s == [] then []
    else
      var r := DropEmpty(s[1..]);
      assert s == [s[0]] + s[1..];
      if s[0] == NO_NAME then r else [s[0]] + r
  }

  /** The edges the resolver follows: the declared ones without the empty names. */
  function Live(e: Edges): Edges {
    map n | n in e :: DropEmpty(e[n])
  }

  // ---------------------------------------------------------------- closures

  /** `t` holds every allowed root and every allowed successor of a member. */
  ghost predicate Closed(e: Edges, roots: set<Name>, allowed: set<Name>, t: set<Name>) {
    && (forall r :: r in roots && r in allowed ==> r in t)
    && (forall n, d :: n in t && Edge(e, n, d) && d in allowed ==> d in t)
  }

  /** The least closed set: what every closed set holds. */
  ghost function Closure(e: Edges, roots: set<Name>, allowed: set<Name>): set<Name> {
    set n | n in allowed && forall t :: Closed(e, roots, allowed, t) ==> n in t
  }

  lemma ClosureIsLeastClosed(e: Edges, roots: set<Name>, allowed: set<Name>)
    ensures Closed(e, roots, allowed, Closure(e, roots, allowed))
    ensures forall t :: Closed(e, roots, allowed, t) ==> Closure(e, roots, allowed) <= t
  {
    var c := Closure(e, roots, allowed);
    forall n, d | n in c && Edge(e, n, d) && d in allowed
      ensures d in c
    {
      forall t | Closed(e, roots, allowed, t)
        ensures d in t
      {
        assert n in t;
      }
    }
  }

  // ---------------------------------------------------------------- paths

  /** A nonempty walk along edges between members of `inside`. */
  ghost predicate IsPath(e: Edges, inside: set<Name>, p: seq<Name>) {
    && |p| > 0
    && (forall i :: 0 <= i < |p| ==> p[i] in inside)
    && (forall i, j :: 0 <= i && j == i + 1 && j < |p| ==> Edge(e, p[i], p[j]))
  }

  ghost predicate PathFromTo(e: Edges, inside: set<Name>, p: seq<Name>, x: Name, y: Name) {
    IsPath(e, inside, p) && p[0] == x && p[|p| - 1] == y
  }

  ghost predicate Reaches(e: Edges, inside: set<Name>, x: Name, y: Name) {
    exists p :: PathFromTo(e, inside, p, x, y)
  }

  lemma PathsCompose(e: Edges, inside: set<Name>, p: seq<Name>, q: seq<Name>, x: Name, y: Name, z: Name)
    requires PathFromTo(e, inside, p, x, y) && PathFromTo(e, inside, q, y, z)
    ensures PathFromTo(e, inside, p + q[1..], x, z)
  {
    var r := p + q[1..];
    forall i, j | 0 <= i && j == i + 1 && j < |r|
      ensures Edge(e, r[i], r[j])
    {
      if j >= |p| {
        assert r[j] == q[j - |p| + 1];
        assert r[i] == q[j - |p|];
      }
    }
  }

  ghost predicate ReachedFrom(e: Edges, roots: set<Name>, allowed: set<Name>, y: Name) {
    exists r :: r in roots && Reaches(e, allowed, r, y)
  }

  /** The least closed set is reachability from an allowed root through allowed nodes. */
  lemma ClosureIsReachability(e: Edges, roots: set<Name>, allowed: set<Name>, y: Name)
    ensures y in Closure(e, roots, allowed) <==> ReachedFrom(e, roots, allowed, y)
  {
    ClosureIsLeastClosed(e, roots, allowed);
    if ReachedFrom(e, roots, allowed, y) {
      var r :| r in roots && Reaches(e, allowed, r, y);
      var p :| PathFromTo(e, allowed, p, r, y);
      PathStaysClosed(e, allowed, Closure(e, roots, allowed), p);
    }
    ReachedIsClosed(e, roots, allowed);
  }

  lemma ReachedIsClosed(e: Edges, roots: set<Name>, allowed: set<Name>)
    ensures Closed(e, roots, allowed, set n | n in allowed && ReachedFrom(e, roots, allowed, n))
  {
    forall r | r in roots && r in allowed
      ensures ReachedFrom(e, roots, allowed, r)
    {
      assert PathFromTo(e, allowed, [r], r, r);
    }
    forall n, d | ReachedFrom(e, roots, allowed, n) && Edge(e, n, d) && d in allowed
      ensures ReachedFrom(e, roots, allowed, d)
    {
      var r :| r in roots && Reaches(e, allowed, r, n);
      OneMoreStep(e, allowed, r, n, d);
    }
  }

  lemma OneMoreStep(e: Edges, inside: set<Name>, x: Name, y: Name, z: Name)
    requires Reaches(e, inside, x, y) && Edge(e, y, z) && z in inside
    ensures Reaches(e, inside, x, z)
  {
    var p :| PathFromTo(e, inside, p, x, y);
    assert PathFromTo(e, inside, p + [z], x, z);
  }

  lemma {:induction false} PathStaysClosed(e: Edges, inside: set<Name>, c: set<Name>, p: seq<Name>)
    requires IsPath(e, inside, p) && p[0] in c
    requires forall n, d :: n in c && Edge(e, n, d) && d in inside ==> d in c
    ensures forall i :: 0 <= i < |p| ==> p[i] in c
  {
    if |p| > 1 {
      var q := p[..|p| - 1];
      PathStaysClosed(e, inside, c, q);
      assert q[|q| - 1] in c;
      assert Edge(e, p[|p| - 2], p[|p| - 1]);
    }
  }

  // ---------------------------------------------------------------- cycles

  ghost predicate OnCycle(e: Edges, inside: set<Name>, x: Name) {
    exists p :: PathFromTo(e, inside, p, x, x) && |p| > 1
  }

  ghost predicate ReachesCycle(e: Edges, inside: set<Name>, x: Name) {
    exists c :: Reaches(e, inside, x, c) && OnCycle(e, inside, c)
  }

  ghost predicate HasCycle(e: Edges, inside: set<Name>) {
    exists c :: OnCycle(e, inside, c)
  }

  lemma CycleReachesItself(e: Edges, inside: set<Name>, c: Name)
    requires OnCycle(e, inside, c)
    ensures c in inside && ReachesCycle(e, inside, c)
  {
    var p :| PathFromTo(e, inside, p, c, c) && |p| > 1;
    assert PathFromTo(e, inside, p, c, c);
    assert Reaches(e, inside, c, c);
  }

  ghost predicate WaitsIn(e: Edges, stuck: set<Name>, x: Name) {
    exists y :: y in stuck && Edge(e, x, y)
  }

  /** A set in which everyone still waits on a member leads every member into a cycle. */
  lemma StuckReachesCycle(e: Edges, inside: set<Name>, stuck: set<Name>, m: Name)
    requires stuck <= inside && m in stuck
    requires forall x {:trigger WaitsIn(e, stuck, x)} :: x in stuck ==> WaitsIn(e, stuck, x)
    ensures ReachesCycle(e, inside, m)
  {
    var p := StuckWalk(e, stuck, m, |stuck|);
    var i, j := Repeats(p, stuck);
    var c := p[i];
    assert PathFromTo(e, inside, p[..i + 1], m, c);
    assert PathFromTo(e, inside, p[i..j + 1], c, c);
    assert Reaches(e, inside, m, c);
  }

  lemma {:induction false} StuckWalk(e: Edges, stuck: set<Name>, m: Name, k: nat) returns (p: seq<Name>)
    requires m in stuck
    requires forall x {:trigger WaitsIn(e, stuck, x)} :: x in stuck ==> WaitsIn(e, stuck, x)
    ensures IsPath(e, stuck, p) && p[0] == m && |p| == k + 1
  {
    if k == 0 {
      p := [m];
    } else {
      var q := StuckWalk(e, stuck, m, k - 1);
      assert WaitsIn(e, stuck, q[|q| - 1]);
      var y :| y in stuck && Edge(e, q[|q| - 1], y);
      p := q + [y];
    }
  }

  lemma Repeats(p: seq<Name>, s: set<Name>) returns (i: nat, j: nat)
    requires |p| > |s| && forall k :: 0 <= k < |p| ==> p[k] in s
    ensures i < j < |p| && p[i] == p[j]
  {
    if NoDup(p) {
      NoDupLength(p);
      SubsetSize(Elems(p), s);
      assert false;
    }
    i, j :| 0 <= i < j < |p| && p[i] == p[j];
  }

  // ---------------------------------------------------------------- orders

  /** Each member's successors inside `inside` come strictly before it. */
  ghost predicate DependenciesFirst(e: Edges, inside: set<Name>, order: seq<Name>) {
    forall j, d :: 0 <= j < |order| && d in inside && Edge(e, order[j], d) ==> d in order[..j]
  }

  lemma {:induction false} PathDescends(e: Edges, inside: set<Name>, order: seq<Name>, p: seq<Name>, j: nat)
    requires DependenciesFirst(e, inside, order)
    requires j < |order| && IsPath(e, inside, p) && p[0] == order[j] && |p| > 1
    ensures p[|p| - 1] in order[..j]
  {
    if |p| == 2 {
      assert Edge(e, p[0], p[1]);
    } else {
      var q := p[..|p| - 1];
      PathDescends(e, inside, order, q, j);
      var k :| 0 <= k < j && order[k] == q[|q| - 1];
      assert Edge(e, order[k], p[|p| - 1]);
      assert p[|p| - 1] in order[..k];
    }
  }

  lemma OrderedAvoidsCycles(e: Edges, inside: set<Name>, order: seq<Name>, m: Name)
    requires NoDup(order) && DependenciesFirst(e, inside, order) && m in order
    ensures !ReachesCycle(e, inside, m)
  {
    if ReachesCycle(e, inside, m) {
      var c :| Reaches(e, inside, m, c) && OnCycle(e, inside, c);
      var p :| PathFromTo(e, inside, p, m, c);
      var j :| 0 <= j < |order| && order[j] == m;
      if |p| > 1 {
        PathDescends(e, inside, order, p, j);
      }
      var k :| 0 <= k < |order| && order[k] == c;
      var q :| PathFromTo(e, inside, q, c, c) && |q| > 1;
      PathDescends(e, inside, order, q, k);
      assert false;
    }
  }
}
