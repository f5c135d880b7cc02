/** The table of known modules, its forward and reverse edges, and the transitive walks over them. */
module ModuleRegistry {
  import opened Names
  import opened Graphs

  datatype ModuleInfo = ModuleInfo(
    path: string,
    version: string,
    dependencies: seq<Name>,
    dependents: seq<Name>,
    optionalDependencies: seq<Name>,
    optionalDependents: seq<Name>,
    embedded: bool,
    loaded: bool,
    loadedAt: int,
    loadEpoch: nat)

  const NEW_INFO := ModuleInfo("", "", [], [], [], [], false, false, 0, 0)

  /** One package a scan found, already validated. */
  datatype Package = Package(name: Name, path: string, version: string,
                             dependencies: seq<Name>, optionalDependencies: seq<Name>)

  predicate Found(packages: seq<Package>, n: Name) {
    exists p :: p in packages && p.name == n
  }

  /** A scan never drops a running module, nor one that ships inside the host. */
  predicate Stays(info: ModuleInfo) {
    info.loaded || info.embedded
  }

  type Table = map<Name, ModuleInfo>

  function Forward(t: Table): Edges { map n | n in t :: t[n].dependencies }
  function Backward(t: Table): Edges { map n | n in t :: t[n].dependents }
  function SoftForward(t: Table): Edges { map n | n in t :: t[n].optionalDependencies }
  function SoftBackward(t: Table): Edges { map n | n in t :: t[n].optionalDependents }

  function Loaded(t: Table): set<Name> { set n | n in t && t[n].loaded }

  /** `back` lists, without repeats, exactly the known modules whose forward list names the key. */
  ghost predicate Reversed(e: Edges, back: Edges) {
    && e.Keys == back.Keys
    && (forall x :: NoDup(Out(back, x)))
    && (forall x, y :: x in e ==> (Edge(back, x, y) <==> Edge(e, y, x)))
  }

  ghost predicate Coherent(t: Table) {
    Reversed(Forward(t), Backward(t)) && Reversed(SoftForward(t), SoftBackward(t))
  }

  /** Same entries, reverse edges aside. */
  ghost predicate SameForward(t: Table, u: Table) {
    && t.Keys == u.Keys
    && forall n :: n in t ==>
                     u[n] == t[n].(dependents := u[n].dependents, optionalDependents := u[n].optionalDependents)
  }

  // ---------------------------------------------------------------- inversion

  /** What `reverse` becomes when `depender` is recorded, once, against each known name in `forward`. */
  ghost predicate Recorded(reverse: Edges, depender: Name, forward: seq<Name>, r: Edges) {
    && r.Keys == reverse.Keys
    && (forall x :: NoDup(Out(r, x)))
    && (forall x, y :: Edge(r, x, y) <==> Edge(reverse, x, y) || (y == depender && x in forward && x in reverse))
  }

  lemma RecordOne(reverse: Edges, depender: Name, forward: seq<Name>, r: Edges, entry: Name)
    requires Recorded(reverse, depender, forward, r)
    ensures entry !in r || depender in r[entry] ==> Recorded(reverse, depender, forward + [entry], r)
    ensures entry in r && depender !in r[entry] ==>
              Recorded(reverse, depender, forward + [entry], r[entry := r[entry] + [depender]])
  {
    if entry in r && depender in r[entry] {
      assert Edge(r, entry, depender);
    } else if entry in r {
      var r' := r[entry := r[entry] + [depender]];
      forall x
        ensures NoDup(Out(r', x))
      {
        assert NoDup(Out(r, x));
      }
      forall x, y
        ensures Edge(r', x, y) <==> Edge(r, x, y) || (x == entry && y == depender)
      {
      }
    }
  }

  method Invert(depender: Name, forward: seq<Name>, reverse: Edges) returns (r: Edges)
    requires forall x :: NoDup(Out(reverse, x))
    ensures Recorded(reverse, depender, forward, r)
  {
    r := reverse;
    for i := 0 to |forward|
      invariant Recorded(reverse, depender, forward[..i], r)
    {
      var entry := forward[i];
      assert forward[..i + 1] == forward[..i] + [entry];
      RecordOne(reverse, depender, forward[..i], r, entry);
      if entry in r && depender !in r[entry] {
        r := r[entry := r[entry] + [depender]];
      }
    }
    assert forward[..|forward|] == forward;
  }

  /** The reverse edges contributed so far are those of the `done` modules. */
  ghost predicate Inverting(e: Edges, done: set<Name>, back: Edges) {
    && e.Keys == back.Keys
    && (forall x :: NoDup(Out(back, x)))
    && (forall x, y :: x in e ==> (Edge(back, x, y) <==> y in done && Edge(e, y, x)))
  }

  lemma NothingInverted(e: Edges)
    ensures Inverting(e, {}, map n | n in e :: [])
  {
  }

  lemma InvertOne(e: Edges, done: set<Name>, back: Edges, depender: Name, more: Edges)
    requires Inverting(e, done, back) && depender in e && depender !in done
    requires Recorded(back, depender, e[depender], more)
    ensures Inverting(e, done + {depender}, more)
  {
    forall x, y | x in e
      ensures Edge(more, x, y) <==> y in done + {depender} && Edge(e, y, x)
    {
      assert Edge(back, x, y) <==> y in done && Edge(e, y, x);
    }
  }

  /** Invert every forward edge, module by module in any order. */
  method InvertAll(e: Edges) returns (back: Edges)
    ensures Reversed(e, back)
  {
    back := map n | n in e :: [];
    NothingInverted(e);
    var rest := e.Keys;
    ghost var done := {};
    while rest != {}
      invariant rest <= e.Keys && done == e.Keys - rest
      invariant Inverting(e, done, back)
      decreases |rest|
    {
      var depender :| depender in rest;
      var more := Invert(depender, e[depender], back);
      InvertOne(e, done, back, depender, more);
      back := more;
      rest := rest - {depender};
      done := done + {depender};
    }
    InvertEnds(e, done, back);
  }

  lemma InvertEnds(e: Edges, done: set<Name>, back: Edges)
    requires Inverting(e, done, back) && done == e.Keys
    ensures Reversed(e, back)
  {
  }

  // ---------------------------------------------------------------- walks

  ghost function Universe(e: Edges): set<Name> {
    e.Keys + set n, d | n in e && d in e[n] :: d
  }

  /** `y` is other than `x` and lies at the end of some chain of edges from it. */
  ghost predicate Beyond(e: Edges, x: Name, y: Name) {
    y != x && Reaches(e, Universe(e), x, y)
  }

  ghost predicate Traversing(e: Edges, inside: set<Name>, name: Name, seen: set<Name>, out: seq<Name>,
                             queue: seq<Name>) {
    && seen == {name} + Elems(out) && NoDup(out) && name !in out
    && (forall n :: n in seen || n in queue ==> Reaches(e, inside, name, n))
    && (forall n, d :: n in seen && Edge(e, n, d) ==> d in seen || d in queue)
  }

  lemma TraverseFrom(e: Edges, inside: set<Name>, name: Name)
    requires name in e && inside == Universe(e)
    ensures Traversing(e, inside, name, {name}, [], e[name])
  {
    assert PathFromTo(e, inside, [name], name, name);
    forall n | n in e[name]
      ensures Reaches(e, inside, name, n)
    {
      assert Edge(e, name, n);
      OneMoreStep(e, inside, name, name, n);
    }
  }

  lemma TraverseOn(e: Edges, inside: set<Name>, name: Name, seen: set<Name>, out: seq<Name>, queue: seq<Name>,
                   more: seq<Name>)
    requires inside == Universe(e)
    requires Traversing(e, inside, name, seen, out, queue) && queue != [] && queue[0] !in seen
    requires forall d :: d in more <==> Edge(e, queue[0], d) && d !in seen + {queue[0]}
    ensures Traversing(e, inside, name, seen + {queue[0]}, out + [queue[0]], queue[1..] + more)
  {
    var x := queue[0];
    assert queue == [x] + queue[1..];
    assert x in queue;
    forall d | d in more
      ensures Reaches(e, inside, name, d)
    {
      assert Edge(e, x, d) && d in inside;
      OneMoreStep(e, inside, name, x, d);
    }
  }

  lemma TraverseEnds(e: Edges, inside: set<Name>, name: Name, seen: set<Name>, out: seq<Name>)
    requires inside == Universe(e) && Traversing(e, inside, name, seen, out, [])
    ensures forall y :: y in out <==> Beyond(e, name, y)
  {
    forall y | Beyond(e, name, y)
      ensures y in out
    {
      var p :| PathFromTo(e, Universe(e), p, name, y);
      PathStaysClosed(e, inside, seen, p);
    }
  }

  /** What at most `k` edges lead to. */
  ghost function Within(e: Edges, x: Name, k: nat): set<Name> {
    if k == 0 then {x}
    else
      var nearer := Within(e, x, k - 1);
      nearer + set n, d | n in nearer && n in e && d in e[n] :: d
  }

  /** Nothing stands before what is nearer to `x`. */
  ghost predicate NearestFirst(e: Edges, x: Name, out: seq<Name>) {
    forall i, j, k: nat :: 0 <= i < j < |out| && out[j] in Within(e, x, k) ==> out[i] in Within(e, x, k)
  }

  lemma {:induction false} WithinGrows(e: Edges, x: Name, k: nat, l: nat)
    requires k <= l
    ensures Within(e, x, k) <= Within(e, x, l)
  {
    if k < l {
      WithinGrows(e, x, k, l - 1);
    }
  }

  /**
   * The walk is at level `l`: `now` is what is left of that level, `later` is one edge further, and whatever is nearer
   * has been seen.
   */
  ghost predicate AtLevel(e: Edges, x: Name, seen: set<Name>, out: seq<Name>, now: seq<Name>, later: seq<Name>,
                          l: nat) {
    && l > 0 && NearestFirst(e, x, out)
    && (forall n :: n in out ==> n in seen) && seen <= Within(e, x, l)
    && Within(e, x, l - 1) <= seen
    && (forall n :: n in Within(e, x, l) ==> n in seen || n in now)
    && (forall n :: n in now ==> n in Within(e, x, l))
    && (forall n :: n in later ==> n in Within(e, x, l + 1))
  }

  lemma LevelBegins(e: Edges, x: Name)
    requires x in e
    ensures AtLevel(e, x, {x}, [], e[x], [], 1)
  {
    assert Within(e, x, 0) == {x};
  }

  lemma NextLevel(e: Edges, x: Name, seen: set<Name>, out: seq<Name>, later: seq<Name>, l: nat)
    requires AtLevel(e, x, seen, out, [], later, l)
    requires forall n, d :: n in seen && Edge(e, n, d) ==> d in seen || d in later
    ensures AtLevel(e, x, seen, out, later, [], l + 1)
  {
    WithinGrows(e, x, l, l + 1);
    forall n | n in Within(e, x, l + 1)
      ensures n in seen || n in later
    {
      if n !in Within(e, x, l) {
        var m :| m in Within(e, x, l) && m in e && n in e[m];
        assert Edge(e, m, n);
      }
    }
  }

  lemma SkipAtLevel(e: Edges, x: Name, seen: set<Name>, out: seq<Name>, now: seq<Name>, later: seq<Name>, l: nat)
    requires AtLevel(e, x, seen, out, now, later, l) && now != [] && now[0] in seen
    ensures AtLevel(e, x, seen, out, now[1..], later, l)
  {
    assert now == [now[0]] + now[1..];
  }

  lemma NearestStill(e: Edges, x: Name, seen: set<Name>, out: seq<Name>, l: nat, c: Name)
    requires l > 0 && NearestFirst(e, x, out) && forall n :: n in out ==> n in seen
    requires seen <= Within(e, x, l) && Within(e, x, l - 1) <= seen && c !in seen
    ensures NearestFirst(e, x, out + [c])
  {
    forall i, k: nat | 0 <= i < |out| && c in Within(e, x, k)
      ensures out[i] in Within(e, x, k)
    {
      assert out[i] in out;
      if k < l {
        WithinGrows(e, x, k, l - 1);
      } else {
        WithinGrows(e, x, l, k);
      }
    }
  }

  lemma VisitAtLevel(e: Edges, x: Name, seen: set<Name>, out: seq<Name>, now: seq<Name>, later: seq<Name>, l: nat,
                     more: seq<Name>)
    requires AtLevel(e, x, seen, out, now, later, l) && now != [] && now[0] !in seen
    requires forall d :: d in more ==> Edge(e, now[0], d)
    ensures AtLevel(e, x, seen + {now[0]}, out + [now[0]], now[1..], later + more, l)
  {
    var c := now[0];
    assert now == [c] + now[1..];
    NearestStill(e, x, seen, out, l, c);
    forall n | n in more
      ensures n in Within(e, x, l + 1)
    {
      assert c in Within(e, x, l) && c in e && n in e[c];
    }
  }

  /** The queue is made of what is left of one level and of the next. */
  ghost predicate InLevels(e: Edges, x: Name, seen: set<Name>, out: seq<Name>, queue: seq<Name>) {
    exists now, later, l :: AtLevel(e, x, seen, out, now, later, l) && queue == now + later
  }

  lemma StartInLevels(e: Edges, x: Name)
    requires x in e
    ensures InLevels(e, x, {x}, [], e[x])
  {
    LevelBegins(e, x);
    assert e[x] == e[x] + [];
  }

  lemma OneLevelOn(e: Edges, x: Name, seen: set<Name>, out: seq<Name>, queue: seq<Name>)
    returns (now: seq<Name>, later: seq<Name>, l: nat)
    requires InLevels(e, x, seen, out, queue) && queue != []
    requires forall n, d :: n in seen && Edge(e, n, d) ==> d in seen || d in queue
    ensures AtLevel(e, x, seen, out, now, later, l) && queue == now + later && now != []
  {
    now, later, l :| AtLevel(e, x, seen, out, now, later, l) && queue == now + later;
    if now == [] {
      NextLevel(e, x, seen, out, later, l);
      now, later, l := later, [], l + 1;
    }
  }

  lemma SkipInLevels(e: Edges, x: Name, seen: set<Name>, out: seq<Name>, queue: seq<Name>)
    requires InLevels(e, x, seen, out, queue) && queue != [] && queue[0] in seen
    requires forall n, d :: n in seen && Edge(e, n, d) ==> d in seen || d in queue
    ensures InLevels(e, x, seen, out, queue[1..])
  {
    var now, later, l := OneLevelOn(e, x, seen, out, queue);
    SkipAtLevel(e, x, seen, out, now, later, l);
    assert queue[1..] == now[1..] + later;
  }

  lemma VisitInLevels(e: Edges, x: Name, seen: set<Name>, out: seq<Name>, queue: seq<Name>, more: seq<Name>)
    requires InLevels(e, x, seen, out, queue) && queue != [] && queue[0] !in seen
    requires forall n, d :: n in seen && Edge(e, n, d) ==> d in seen || d in queue
    requires forall d :: d in more ==> Edge(e, queue[0], d)
    ensures InLevels(e, x, seen + {queue[0]}, out + [queue[0]], queue[1..] + more)
  {
    var now, later, l := OneLevelOn(e, x, seen, out, queue);
    VisitThere(e, x, seen, out, queue, now, later, l, more);
  }

  lemma HeadGoes(queue: seq<Name>, now: seq<Name>, later: seq<Name>, more: seq<Name>)
    requires queue == now + later && now != []
    ensures queue[0] == now[0] && queue[1..] + more == now[1..] + (later + more)
  {
  }

  lemma VisitThere(e: Edges, x: Name, seen: set<Name>, out: seq<Name>, queue: seq<Name>, now: seq<Name>,
                   later: seq<Name>, l: nat, more: seq<Name>)
    requires AtLevel(e, x, seen, out, now, later, l) && queue == now + later && now != [] && queue[0] !in seen
    requires forall d :: d in more ==> Edge(e, queue[0], d)
    ensures InLevels(e, x, seen + {queue[0]}, out + [queue[0]], queue[1..] + more)
  {
    HeadGoes(queue, now, later, more);
    VisitAtLevel(e, x, seen, out, now, later, l, more);
  }

  lemma LevelsAreNearestFirst(e: Edges, x: Name, seen: set<Name>, out: seq<Name>, queue: seq<Name>)
    requires InLevels(e, x, seen, out, queue)
    ensures NearestFirst(e, x, out)
  {
  }

  /** The breadth-first walk both directions share, nearest first. Unknown names are listed but lead nowhere. */
  method Walk(e: Edges, name: Name) returns (out: seq<Name>)
    requires name in e
    ensures NoDup(out) && forall y :: y in out <==> Beyond(e, name, y)
    ensures NearestFirst(e, name, out)
  {
    out := [];
    ghost var inside := Universe(e);
    var seen := {name};
    var queue := e[name];
    TraverseFrom(e, inside, name);
    StartInLevels(e, name);
    while queue != []
      invariant Traversing(e, inside, name, seen, out, queue)
      invariant InLevels(e, name, seen, out, queue)
      decreases |inside - seen|, |queue|
    {
      var current := queue[0];
      if current in seen {
        SkipSeen(e, inside, name, seen, out, queue);
        SkipInLevels(e, name, seen, out, queue);
        queue := queue[1..];
        continue;
      }
      var more := NotSeen(Out(e, current), seen + {current});
      TraverseOn(e, inside, name, seen, out, queue, more);
      VisitInLevels(e, name, seen, out, queue, more);
      Progress(e, inside, name, seen, out, queue);
      seen := seen + {current};
      out := out + [current];
      queue := queue[1..] + more;
    }
    TraverseEnds(e, inside, name, seen, out);
    LevelsAreNearestFirst(e, name, seen, out, []);
  }

  lemma SkipSeen(e: Edges, inside: set<Name>, name: Name, seen: set<Name>, out: seq<Name>, queue: seq<Name>)
    requires Traversing(e, inside, name, seen, out, queue) && queue != [] && queue[0] in seen
    ensures Traversing(e, inside, name, seen, out, queue[1..])
  {
    assert queue == [queue[0]] + queue[1..];
  }

  lemma Progress(e: Edges, inside: set<Name>, name: Name, seen: set<Name>, out: seq<Name>, queue: seq<Name>)
    requires Traversing(e, inside, name, seen, out, queue) && queue != [] && queue[0] !in seen
    ensures |inside - (seen + {queue[0]})| < |inside - seen|
  {
    var y := queue[0];
    assert y in queue;
    assert Reaches(e, inside, name, y);
    assert inside - seen == (inside - (seen + {y})) + {y};
  }

  // ---------------------------------------------------------------- the two directions agree

  function Mirror(p: seq<Name>): seq<Name> {
    seq(|p|, i requires 0 <= i < |p| => p[|p| - 1 - i])
  }

  /** A forward chain to a known module, read backwards, is a chain of reverse edges. */
  lemma MirrorPath(e: Edges, back: Edges, p: seq<Name>, x: Name, y: Name)
    requires Reversed(e, back) && x in e && y in e
    requires PathFromTo(e, Universe(e), p, x, y) || PathFromTo(back, Universe(back), Mirror(p), y, x)
    ensures PathFromTo(e, Universe(e), p, x, y) && PathFromTo(back, Universe(back), Mirror(p), y, x)
  {
    var m := Mirror(p);
    assert |p| > 0 && p[0] == x && p[|p| - 1] == y && m[0] == y && m[|p| - 1] == x;
    if PathFromTo(e, Universe(e), p, x, y) {
      forall i | 0 <= i < |p|
        ensures p[i] in e
      {
        if i < |p| - 1 {
          assert Edge(e, p[i], p[i + 1]);
        }
      }
      forall i, j | 0 <= i && j == i + 1 && j < |m|
        ensures Edge(back, m[i], m[j])
      {
        assert Edge(e, p[|p| - 1 - j], p[|p| - 1 - i]);
      }
    } else {
      forall i | 0 <= i < |p|
        ensures m[i] in e
      {
        if i > 0 {
          assert Edge(back, m[i - 1], m[i]);
        }
      }
      forall i, j | 0 <= i && j == i + 1 && j < |p|
        ensures Edge(e, p[i], p[j])
      {
        assert p[i] == m[|p| - 1 - i] && p[j] == m[|p| - 1 - j];
        assert Edge(back, m[|p| - 1 - j], m[|p| - 1 - i]);
      }
      forall i | 0 <= i < |p|
        ensures p[i] in Universe(e)
      {
        assert p[i] == m[|p| - 1 - i];
      }
    }
  }

  /** Recursive dependents and recursive dependencies are converse relations on known modules. */
  lemma WalksAreConverse(e: Edges, back: Edges, x: Name, y: Name)
    requires Reversed(e, back) && x in e && y in e
    ensures Beyond(e, x, y) <==> Beyond(back, y, x)
  {
    if Reaches(e, Universe(e), x, y) {
      var p :| PathFromTo(e, Universe(e), p, x, y);
      MirrorPath(e, back, p, x, y);
    }
    if Reaches(back, Universe(back), y, x) {
      var q :| PathFromTo(back, Universe(back), q, y, x);
      assert Mirror(Mirror(q)) == q;
      MirrorPath(e, back, Mirror(q), x, y);
    }
  }

  // ---------------------------------------------------------------- the registry

  function WithReverse(t: Table, hard: Edges, soft: Edges): Table
    requires hard.Keys == t.Keys && soft.Keys == t.Keys
  {
    map n | n in t :: t[n].(dependents := hard[n], optionalDependents := soft[n])
  }

  lemma ReverseInPlace(t: Table, hard: Edges, soft: Edges)
    requires Reversed(Forward(t), hard) && Reversed(SoftForward(t), soft)
    ensures Coherent(WithReverse(t, hard, soft)) && SameForward(t, WithReverse(t, hard, soft))
  {
    var u := WithReverse(t, hard, soft);
    assert Forward(u) == Forward(t) && Backward(u) == hard;
    assert SoftForward(u) == SoftForward(t) && SoftBackward(u) == soft;
  }

  /** Upserting keeps whatever run-time state the entry carries. */
  function Refreshed(info: ModuleInfo, p: Package): ModuleInfo {
    info.(path := p.path, version := p.version, dependencies := p.dependencies,
          optionalDependencies := p.optionalDependencies)
  }

  function InfoIn(t: Table, name: Name): ModuleInfo {
    if name in t then t[name] else NEW_INFO
  }

  function Upserted(t: Table, packages: seq<Package>): Table {
    if packages == [] then t
    else
      var p := packages[|packages| - 1];
      var u := Upserted(t, packages[..|packages| - 1]);
      u[p.name := Refreshed(InfoIn(u, p.name), p)]
  }

  function Pruned(t: Table, packages: seq<Package>): Table {
    map n | n in t && (Found(packages, n) || Stays(t[n])) :: t[n]
  }

  /** However a scan turns out, the running modules are the same ones and no other name survives unfound. */
  lemma {:induction false} ScansKeepRunningModules(t: Table, packages: seq<Package>)
    ensures var u := Pruned(Upserted(t, packages), packages);
            && Loaded(u) == Loaded(t)
            && (forall n :: n in u <==> n in Upserted(t, packages) && (Found(packages, n) || (n in t && Stays(t[n]))))
            && (forall n :: n in u && !Found(packages, n) ==> n in t && u[n] == t[n])
  {
    UpsertsKeepRunState(t, packages);
  }

  lemma {:induction false} UpsertsKeepRunState(t: Table, packages: seq<Package>)
    ensures t.Keys <= Upserted(t, packages).Keys
    ensures forall n :: n in Upserted(t, packages) ==>
                          var i := Upserted(t, packages)[n];
                          && i.loaded == InfoIn(t, n).loaded && i.embedded == InfoIn(t, n).embedded
                          && (!Found(packages, n) ==> n in t && i == t[n])
  {
    if packages != [] {
      var front, p := packages[..|packages| - 1], packages[|packages| - 1];
      UpsertsKeepRunState(t, front);
      assert packages == front + [p];
      forall n
        ensures Found(packages, n) <==> Found(front, n) || n == p.name
      {
        if Found(front, n) {
          var q :| q in front && q.name == n;
          assert q in packages;
        }
        if n == p.name {
          assert p in packages;
        }
      }
    }
  }

  /** Package `i` is the last of its name. */
  predicate LastOfItsName(packages: seq<Package>, i: nat) {
    i < |packages| && forall j :: i < j < |packages| ==> packages[j].name != packages[i].name
  }

  /** The entry holds what the package declares, and keeps the run-time state of `was`, or a blank one. */
  predicate Declares(info: ModuleInfo, p: Package, was: Option<ModuleInfo>) {
    && info.path == p.path && info.version == p.version
    && info.dependencies == p.dependencies && info.optionalDependencies == p.optionalDependencies
    && match was
       case Some(w) =>
         && info.loaded == w.loaded && info.loadedAt == w.loadedAt
         && info.loadEpoch == w.loadEpoch && info.embedded == w.embedded
       case None => !info.loaded && info.loadedAt == 0 && info.loadEpoch == 0 && !info.embedded
  }

  function Entry(t: Table, n: Name): Option<ModuleInfo> {
    if n in t then Some(t[n]) else None
  }

  /** What a scan leaves: names found, as their last package declares them, and of the others those that run or ship. */
  ghost predicate Scanned(t: Table, packages: seq<Package>, u: Table) {
    && (forall n :: n in u <==> Found(packages, n) || (n in t && (t[n].loaded || t[n].embedded)))
    && (forall i: nat :: LastOfItsName(packages, i) ==>
                           packages[i].name in u
                           && Declares(u[packages[i].name], packages[i], Entry(t, packages[i].name)))
    && (forall n :: n in u && !Found(packages, n) ==>
                      n in t && u[n] == t[n].(dependents := u[n].dependents,
                                              optionalDependents := u[n].optionalDependents))
  }

  lemma {:induction false} UpsertsDeclare(t: Table, packages: seq<Package>, i: nat)
    requires LastOfItsName(packages, i)
    ensures packages[i].name in Upserted(t, packages)
    ensures Declares(Upserted(t, packages)[packages[i].name], packages[i], Entry(t, packages[i].name))
  {
    var front, p := packages[..|packages| - 1], packages[|packages| - 1];
    if i < |front| {
      UpsertsDeclare(t, front, i);
      assert p.name != packages[i].name;
    } else {
      UpsertsKeepMarks(t, front, p.name);
    }
  }

  lemma {:induction false} UpsertsKeepMarks(t: Table, packages: seq<Package>, n: Name)
    ensures var i, w := InfoIn(Upserted(t, packages), n), InfoIn(t, n);
            && i.loaded == w.loaded && i.loadedAt == w.loadedAt
            && i.loadEpoch == w.loadEpoch && i.embedded == w.embedded
  {
    if packages != [] {
      UpsertsKeepMarks(t, packages[..|packages| - 1], n);
    }
  }

  lemma {:induction false} FoundIsUpserted(t: Table, packages: seq<Package>, n: Name)
    ensures n in Upserted(t, packages) <==> n in t || Found(packages, n)
  {
    if packages != [] {
      var front, p := packages[..|packages| - 1], packages[|packages| - 1];
      FoundIsUpserted(t, front, n);
      assert packages == front + [p];
      if Found(front, n) {
        var q :| q in front && q.name == n;
        assert q in packages;
      }
      if n == p.name {
        assert p in packages;
      }
    }
  }

  lemma {:induction false} ScansLeave(t: Table, packages: seq<Package>)
    ensures Scanned(t, packages, Pruned(Upserted(t, packages), packages))
  {
    var v, u := Upserted(t, packages), Pruned(Upserted(t, packages), packages);
    UpsertsKeepRunState(t, packages);
    forall n
      ensures n in u <==> Found(packages, n) || (n in t && (t[n].loaded || t[n].embedded))
    {
      FoundIsUpserted(t, packages, n);
    }
    forall i: nat | LastOfItsName(packages, i)
      ensures packages[i].name in u && Declares(u[packages[i].name], packages[i], Entry(t, packages[i].name))
    {
      UpsertsDeclare(t, packages, i);
      assert packages[i] in packages;
    }
  }

  lemma ScannedAsideReverse(t: Table, packages: seq<Package>, u: Table, v: Table)
    requires Scanned(t, packages, u) && SameForward(u, v)
    ensures Scanned(t, packages, v)
  {
    forall i: nat | LastOfItsName(packages, i)
      ensures packages[i].name in v && Declares(v[packages[i].name], packages[i], Entry(t, packages[i].name))
    {
      assert packages[i].name in u;
    }
  }

  class Registry {
    var modules: Table

    ghost predicate Valid()
      reads this
    {
      Coherent(modules)
    }

    constructor ()
      ensures Valid() && modules == map[]
    {
      modules := map[];
    }

    method RecomputeDependents()
      modifies this
      ensures Valid() && SameForward(old(modules), modules)
    {
      var hard := InvertAll(Forward(modules));
      var soft := InvertAll(SoftForward(modules));
      modules := WithReverse(modules, hard, soft);
      ReverseInPlace(old(modules), hard, soft);
    }

    function Info(name: Name): ModuleInfo
      reads this
    {
      InfoIn(modules, name)
    }

    method RegisterModule(name: Name, path: string, dependencies: seq<Name>)
      modifies this
      ensures Valid()
      ensures SameForward(old(modules[name := Info(name).(path := path, dependencies := dependencies)]), modules)
    {
      modules := modules[name := Info(name).(path := path, dependencies := dependencies)];
      RecomputeDependents();
    }

    method RegisterDependencies(name: Name, dependencies: seq<Name>)
      modifies this
      ensures Valid()
      ensures SameForward(old(modules[name := Info(name).(dependencies := dependencies)]), modules)
    {
      modules := modules[name := Info(name).(dependencies := dependencies)];
      RecomputeDependents();
    }

    method RegisterOptionalDependencies(name: Name, dependencies: seq<Name>)
      modifies this
      ensures Valid()
      ensures SameForward(old(modules[name := Info(name).(optionalDependencies := dependencies)]), modules)
    {
      modules := modules[name := Info(name).(optionalDependencies := dependencies)];
      RecomputeDependents();
    }

    /** Marking inserts an unknown name without recomputing: harmless exactly when nobody lists it. */
    method MarkLoaded(name: Name, now: int)
      requires Valid()
      modifies this
      ensures modules == old(modules)[name := old(Info(name)).(loaded := true, loadedAt := now,
                                                               loadEpoch := old(Info(name)).loadEpoch + 1)]
      ensures Valid() <==> name in old(modules) || Unlisted(old(modules), name)
    {
      var info := Info(name);
      modules := modules[name := info.(loaded := true, loadedAt := now, loadEpoch := info.loadEpoch + 1)];
      MarkingKeepsEdges(old(modules), name, modules[name]);
    }

    method MarkUnloaded(name: Name)
      requires Valid()
      modifies this
      ensures Valid()
      ensures modules == if name !in old(modules) then old(modules)
                         else old(modules)[name := old(modules)[name].(loaded := false, loadedAt := 0)]
    {
      if name in modules {
        modules := modules[name := modules[name].(loaded := false, loadedAt := 0)];
        MarkingKeepsEdges(old(modules), name, modules[name]);
      }
    }

    /** The fleet teardown's mark. The load timestamps stay behind. */
    method ClearLoaded()
      requires Valid()
      modifies this
      ensures Valid() && Loaded(modules) == {}
      ensures modules == map n | n in old(modules) :: old(modules)[n].(loaded := false)
    {
      modules := map n | n in modules :: modules[n].(loaded := false);
      assert Forward(modules) == Forward(old(modules)) && Backward(modules) == Backward(old(modules));
      assert SoftForward(modules) == SoftForward(old(modules)) && SoftBackward(modules) == SoftBackward(old(modules));
    }

    /** A scan: upsert what was found, drop what is gone, and invert the edges again. */
    method Discover(packages: seq<Package>)
      modifies this
      ensures Valid() && SameForward(Pruned(Upserted(old(modules), packages), packages), modules)
      ensures Scanned(old(modules), packages, modules)
    {
      for k := 0 to |packages|
        invariant modules == Upserted(old(modules), packages[..k])
      {
        assert packages[..k + 1][..k] == packages[..k];
        modules := modules[packages[k].name := Refreshed(Info(packages[k].name), packages[k])];
      }
      assert packages[..|packages|] == packages;
      modules := Pruned(modules, packages);
      ghost var scanned := modules;
      ScansLeave(old(modules), packages);
      RecomputeDependents();
      ScannedAsideReverse(old(modules), packages, scanned, modules);
    }

    /** Direct or transitive dependencies; an unknown name has none. */
    method ModuleDependencies(name: Name, recursive: bool) returns (r: seq<Name>)
      ensures name !in modules ==> r == []
      ensures name in modules && !recursive ==> r == modules[name].dependencies
      ensures name in modules && recursive ==> NoDup(r) && forall y :: y in r <==> Beyond(Forward(modules), name, y)
      ensures name in modules && recursive ==> name !in r && NearestFirst(Forward(modules), name, r)
    {
      if name !in modules {
        return [];
      }
      if !recursive {
        return modules[name].dependencies;
      }
      r := Walk(Forward(modules), name);
    }

    /** Direct or transitive dependents; an unknown name has none. */
    method ModuleDependents(name: Name, recursive: bool) returns (r: seq<Name>)
      requires Valid()
      ensures name !in modules ==> r == []
      ensures name in modules && !recursive ==> r == modules[name].dependents
      ensures name in modules && recursive ==>
                NoDup(r) && forall y :: y in r <==> y in modules && Beyond(Forward(modules), y, name)
      ensures name in modules && recursive ==> name !in r && NearestFirst(Backward(modules), name, r)
    {
      if name !in modules {
        return [];
      }
      if !recursive {
        return modules[name].dependents;
      }
      r := Walk(Backward(modules), name);
      forall y
        ensures Beyond(Backward(modules), name, y) <==> y in modules && Beyond(Forward(modules), y, name)
      {
        DependentsAreKnown(modules, name, y);
      }
    }
  }

  lemma DependentsAreKnown(t: Table, x: Name, y: Name)
    requires Coherent(t) && x in t
    ensures Beyond(Backward(t), x, y) <==> y in t && Beyond(Forward(t), y, x)
  {
    if Reaches(Backward(t), Universe(Backward(t)), x, y) {
      var p :| PathFromTo(Backward(t), Universe(Backward(t)), p, x, y);
      if |p| > 1 {
        assert Edge(Backward(t), p[|p| - 2], p[|p| - 1]);
        assert Edge(Forward(t), y, p[|p| - 2]);
      }
    }
    if y in t {
      WalksAreConverse(Forward(t), Backward(t), y, x);
    }
  }

  /** No known module names `name` in either edge list. */
  predicate Unlisted(t: Table, name: Name) {
    forall n :: n in t ==> name !in t[n].dependencies && name !in t[n].optionalDependencies
  }

  /** `info` differs from the entry, or from a blank one, in its marks alone. */
  predicate SameEdges(info: ModuleInfo, entry: ModuleInfo) {
    && info.dependencies == entry.dependencies && info.dependents == entry.dependents
    && info.optionalDependencies == entry.optionalDependencies
    && info.optionalDependents == entry.optionalDependents
  }

  lemma MarkingKeepsEdges(t: Table, name: Name, info: ModuleInfo)
    requires Coherent(t) && SameEdges(info, InfoIn(t, name))
    ensures Coherent(t[name := info]) <==> name in t || Unlisted(t, name)
  {
    HardAfterMarking(t, name, info);
    SoftAfterMarking(t, name, info);
    KeptWhenUnlisted(Forward(t), Backward(t), name);
    KeptWhenUnlisted(SoftForward(t), SoftBackward(t), name);
    UnlistedEdges(t, name);
  }

  lemma HardAfterMarking(t: Table, name: Name, info: ModuleInfo)
    requires info.dependencies == InfoIn(t, name).dependencies && info.dependents == InfoIn(t, name).dependents
    ensures Forward(t[name := info]) == Forward(t)[name := Out(Forward(t), name)]
    ensures Backward(t[name := info]) == Backward(t)[name := Out(Backward(t), name)]
  {
  }

  lemma SoftAfterMarking(t: Table, name: Name, info: ModuleInfo)
    requires info.optionalDependencies == InfoIn(t, name).optionalDependencies
    requires info.optionalDependents == InfoIn(t, name).optionalDependents
    ensures SoftForward(t[name := info]) == SoftForward(t)[name := Out(SoftForward(t), name)]
    ensures SoftBackward(t[name := info]) == SoftBackward(t)[name := Out(SoftBackward(t), name)]
  {
  }

  lemma KeptWhenUnlisted(e: Edges, back: Edges, name: Name)
    requires Reversed(e, back)
    ensures Reversed(e[name := Out(e, name)], back[name := Out(back, name)]) <==> name in e || NobodyLists(e, name)
  {
    if name in e {
      assert e[name := Out(e, name)] == e && back[name := Out(back, name)] == back;
    } else {
      BlankEntry(e, back, e[name := []], back[name := []], name);
    }
  }

  ghost predicate NobodyLists(e: Edges, name: Name) {
    forall n :: !Edge(e, n, name)
  }

  lemma UnlistedEdges(t: Table, name: Name)
    ensures Unlisted(t, name) <==> NobodyLists(Forward(t), name) && NobodyLists(SoftForward(t), name)
  {
    if !Unlisted(t, name) {
      var n :| n in t && (name in t[n].dependencies || name in t[n].optionalDependencies);
      assert Edge(Forward(t), n, name) || Edge(SoftForward(t), n, name);
    }
  }

  lemma BlankEntry(e: Edges, back: Edges, e': Edges, back': Edges, name: Name)
    requires Reversed(e, back) && name !in e
    requires e' == e[name := []] && back' == back[name := []]
    ensures Reversed(e', back') <==> NobodyLists(e, name)
  {
    if n :| Edge(e, n, name) {
      assert Edge(e', n, name) && !Edge(back', name, n);
    } else {
      forall x, y | x in e'
        ensures Edge(back', x, y) <==> Edge(e', y, x)
      {
        assert Edge(e', y, x) <==> Edge(e, y, x);
        assert Edge(back', x, y) <==> Edge(back, x, y);
        assert name !in back;
      }
      forall x
        ensures NoDup(Out(back', x))
      {
        assert NoDup(Out(back, x));
      }
    }
  }
}
