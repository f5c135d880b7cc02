/** Load-order resolution: required closure, best-effort optional branches, and ordering. */
module DependencyResolver {
  import opened Names
  import opened Graphs
  import Sorting
  import TopoSort

  /** What the resolver asks of the registry: who is known, and both edge lists of each. */
  datatype Catalog = Catalog(known: set<Name>, required: Edges, optional: Edges) {
    ghost function Required(): Edges { Live(required) }
    ghost function Optional(): Edges { Live(optional) }
  }

  datatype OptionalLoad = OrderOnly | BestEffort

  datatype SkipReason = NotInstalled | Unsatisfiable

  /** An optional branch left out: `named`, declared by `namedBy`; `detail` is the missing module to blame. */
  datatype SkippedOptional = SkippedOptional(named: Name, namedBy: Name, reason: SkipReason, detail: Name)

  datatype ResolveResult = ResolveResult(
    order: seq<Name>,
    missing: seq<Name>,
    hasCycle: bool,
    bestEffort: seq<Name>,
    skipped: seq<SkippedOptional>)

  // ---------------------------------------------------------------- required closure

  /** Everything known that `requested` needs, through required edges between known modules. */
  ghost function RequiredClosure(g: Catalog, requested: seq<Name>): set<Name> {
    Closure(g.Required(), Elems(requested), g.known)
  }

  /** `n` is requested, or named by a required edge of a member of `reached`. */
  ghost predicate Referenced(g: Catalog, requested: seq<Name>, reached: set<Name>, n: Name) {
    n in requested || exists m :: m in reached && Edge(g.Required(), m, n)
  }

  /** The walk's queue is owed to `reached` and `requested`, and nothing owed is forgotten. */
  ghost predicate Walking(g: Catalog, requested: seq<Name>, reached: set<Name>, queue: seq<Name>, missing: seq<Name>) {
    && reached <= RequiredClosure(g, requested)
    && (forall n :: n in queue || n in missing ==> Referenced(g, requested, reached, n))
    && (forall n :: n in missing ==> n !in g.known)
    && (forall n :: Referenced(g, requested, reached, n) ==> n in reached || n in missing || n in queue)
  }

  lemma WalkVisits(g: Catalog, requested: seq<Name>, reached: set<Name>, queue: seq<Name>, missing: seq<Name>, n: Name)
    requires Walking(g, requested, reached, queue, missing) && n in queue && n in g.known
    ensures n in RequiredClosure(g, requested)
  {
    ClosureIsLeastClosed(g.Required(), Elems(requested), g.known);
    if n !in requested {
      var m :| m in reached && Edge(g.Required(), m, n);
    }
  }

  lemma WalkEnds(g: Catalog, requested: seq<Name>, reached: set<Name>, missing: seq<Name>)
    requires Walking(g, requested, reached, [], missing)
    ensures reached == RequiredClosure(g, requested)
    ensures forall n :: n in missing <==> n !in g.known && Referenced(g, requested, reached, n)
  {
    ClosureIsLeastClosed(g.Required(), Elems(requested), g.known);
    assert Closed(g.Required(), Elems(requested), g.known, reached) by {
      forall n | n in g.known && Referenced(g, requested, reached, n)
        ensures n in reached
      {
      }
    }
  }

  /** The breadth-first walk over required edges. Unknown names are reported, possibly more than once. */
  method WalkRequired(g: Catalog, requested: seq<Name>) returns (reached: set<Name>, missing: seq<Name>)
    ensures reached == RequiredClosure(g, requested)
    ensures forall n :: n in missing <==> n !in g.known && Referenced(g, requested, reached, n)
  {
    reached, missing := {}, [];
    var queue := requested;
    while queue != []
      invariant reached <= g.known
      invariant Walking(g, requested, reached, queue, missing)
      decreases |g.known - reached|, |queue|
    {
      var moduleName := queue[0];
      ghost var before := queue;
      queue := queue[1..];
      assert before == [moduleName] + queue;
      if moduleName in reached {
        continue;
      }
      if moduleName !in g.known {
        missing := missing + [moduleName];
        continue;
      }
      WalkVisits(g, requested, reached, before, missing, moduleName);
      var more := NotSeen(Out(g.required, moduleName), reached + {moduleName, NO_NAME});
      WalkOn(g, requested, reached, before, missing, more);
      ShrinksBy(g.known, reached, moduleName);
      reached := reached + {moduleName};
      queue := queue + more;
    }
    WalkEnds(g, requested, reached, missing);
  }

  lemma ShrinksBy(known: set<Name>, reached: set<Name>, n: Name)
    requires n in known && n !in reached
    ensures |known - (reached + {n})| < |known - reached|
  {
    assert known - reached == (known - (reached + {n})) + {n};
  }

  lemma WalkOn(g: Catalog, requested: seq<Name>, reached: set<Name>, queue: seq<Name>, missing: seq<Name>,
               more: seq<Name>)
    requires Walking(g, requested, reached, queue, missing) && queue != []
    requires queue[0] in RequiredClosure(g, requested)
    requires forall d :: d in more <==> Edge(g.Required(), queue[0], d) && d !in reached + {queue[0]}
    ensures Walking(g, requested, reached + {queue[0]}, queue[1..] + more, missing)
  {
    var x := queue[0];
    assert queue == [x] + queue[1..];
    forall n
      ensures Referenced(g, requested, reached + {x}, n)
              <==> Referenced(g, requested, reached, n) || Edge(g.Required(), x, n)
    {
    }
  }

  // ---------------------------------------------------------------- optional branches

  /** `o` and what it requires, as far as that is known and lies outside `base`. */
  ghost function BranchOf(g: Catalog, base: set<Name>, o: Name): set<Name> {
    Closure(g.Required(), {o}, g.known - base)
  }

  /** Every name the branch refers to is installed. */
  ghost predicate Satisfiable(g: Catalog, base: set<Name>, o: Name) {
    forall n :: Referenced(g, [o], BranchOf(g, base, o), n) ==> n in g.known
  }

  /** `t` holds `base` and the whole branch of every satisfiable optional dependency of a member. */
  ghost predicate Admitted(g: Catalog, base: set<Name>, t: set<Name>) {
    && base <= t
    && forall h, o :: h in t && Edge(g.Optional(), h, o) && Satisfiable(g, base, o) ==> BranchOf(g, base, o) <= t
  }

  /** The least such set. */
  ghost function BestSet(g: Catalog, base: set<Name>): set<Name> {
    set n | n in g.known && forall t :: Admitted(g, base, t) ==> n in t
  }

  /** `m` extends `base` by whole branches: what was added requires only members. */
  ghost predicate Settled(g: Catalog, base: set<Name>, m: set<Name>) {
    && base <= m <= g.known
    && forall n, d :: n in m && n !in base && Edge(g.Required(), n, d) ==> d in m
  }

  lemma BranchNeedsItsRoot(g: Catalog, base: set<Name>, o: Name)
    requires o !in g.known - base
    ensures BranchOf(g, base, o) == {}
  {
    assert Closed(g.Required(), {o}, g.known - base, {});
  }

  /** Measured from a settled set, a branch lacks only what is already there. */
  lemma BranchWithin(g: Catalog, base: set<Name>, m: set<Name>, o: Name)
    requires Settled(g, base, m) && o !in m
    ensures BranchOf(g, m, o) <= BranchOf(g, base, o) <= m + BranchOf(g, m, o)
  {
    ClosureIsLeastClosed(g.Required(), {o}, g.known - base);
    ClosureIsLeastClosed(g.Required(), {o}, g.known - m);
    assert Closed(g.Required(), {o}, g.known - m, BranchOf(g, base, o));
    var x := (m - base) + BranchOf(g, m, o);
    assert Closed(g.Required(), {o}, g.known - base, x) by {
      forall n, d | n in x && Edge(g.Required(), n, d) && d in g.known - base
        ensures d in x
      {
        if n in m - base {
          assert d in m;
        }
      }
    }
  }

  /** ... so whether it is satisfiable does not depend on how far the pass has come. */
  lemma SatisfiableIsStable(g: Catalog, base: set<Name>, m: set<Name>, o: Name)
    requires Settled(g, base, m) && o !in m
    ensures Satisfiable(g, m, o) <==> Satisfiable(g, base, o)
  {
    BranchWithin(g, base, m, o);
    forall n | Referenced(g, [o], BranchOf(g, m, o), n)
      ensures Referenced(g, [o], BranchOf(g, base, o), n)
    {
    }
    forall n | Referenced(g, [o], BranchOf(g, base, o), n) && Satisfiable(g, m, o)
      ensures n in g.known
    {
      if !Referenced(g, [o], BranchOf(g, m, o), n) {
        var d :| d in BranchOf(g, base, o) && Edge(g.Required(), d, n);
        assert d in m;
      }
    }
  }

  /** What a settled set added beyond `base` is satisfiable, with its branch inside. */
  lemma MembersAreSatisfiable(g: Catalog, base: set<Name>, m: set<Name>, o: Name)
    requires Settled(g, base, m) && o in m
    ensures BranchOf(g, base, o) <= m
    ensures o !in base ==> Satisfiable(g, base, o)
  {
    if o in base {
      BranchNeedsItsRoot(g, base, o);
    } else {
      ClosureIsLeastClosed(g.Required(), {o}, g.known - base);
      assert Closed(g.Required(), {o}, g.known - base, m - base);
    }
  }

  lemma AddBranch(g: Catalog, base: set<Name>, m: set<Name>, o: Name)
    requires Settled(g, base, m) && o !in m && Satisfiable(g, m, o)
    ensures Settled(g, base, m + BranchOf(g, m, o))
    ensures o in BranchOf(g, m, o)
  {
    ClosureIsLeastClosed(g.Required(), {o}, g.known - m);
    var branch := BranchOf(g, m, o);
    assert Referenced(g, [o], branch, o);
    forall n, d | n in branch && Edge(g.Required(), n, d)
      ensures d in m + branch
    {
      assert Referenced(g, [o], branch, d);
    }
  }

  ghost predicate Probing(g: Catalog, m: set<Name>, o: Name, branch: set<Name>, probe: seq<Name>) {
    && branch <= BranchOf(g, m, o)
    && (forall n :: n in probe ==> Referenced(g, [o], branch, n))
    && (forall n :: Referenced(g, [o], branch, n) ==> n in branch || n in m || n in probe)
  }

  /** Gather `optName` and what it requires beyond `loaded`; NO_NAME when nothing blocks it. */
  method ProbeBranch(g: Catalog, loaded: set<Name>, optName: Name) returns (branch: set<Name>, blocker: Name)
    requires loaded <= g.known && optName != NO_NAME && optName !in loaded
    ensures blocker == NO_NAME <==> Satisfiable(g, loaded, optName)
    ensures blocker == NO_NAME ==> branch == BranchOf(g, loaded, optName)
    ensures blocker != NO_NAME ==>
              blocker !in g.known && Referenced(g, [optName], BranchOf(g, loaded, optName), blocker)
  {
    branch, blocker := {}, NO_NAME;
    var probe := [optName];
    while probe != []
      invariant branch <= g.known
      invariant Probing(g, loaded, optName, branch, probe)
      invariant NO_NAME !in probe
      decreases |g.known - branch|, |probe|
    {
      var n := probe[0];
      assert probe == [n] + probe[1..];
      if n in branch || n in loaded {
        probe := probe[1..];
        continue;
      }
      ProbeVisits(g, loaded, optName, branch, probe);
      if n !in g.known {
        blocker := n;
        return;
      }
      var more := NotSeen(Out(g.required, n), branch + {n, NO_NAME} + loaded);
      ProbeOn(g, loaded, optName, branch, probe, more);
      ShrinksBy(g.known, branch, n);
      branch := branch + {n};
      probe := probe[1..] + more;
    }
    ProbeEnds(g, loaded, optName, branch);
  }

  lemma ProbeVisits(g: Catalog, m: set<Name>, o: Name, branch: set<Name>, probe: seq<Name>)
    requires Probing(g, m, o, branch, probe) && probe != []
    requires probe[0] !in m
    ensures probe[0] in g.known ==> probe[0] in BranchOf(g, m, o)
    ensures Referenced(g, [o], BranchOf(g, m, o), probe[0])
  {
    ClosureIsLeastClosed(g.Required(), {o}, g.known - m);
    var n := probe[0];
    assert n in probe;
    if n != o {
      var d :| d in branch && Edge(g.Required(), d, n);
      assert d in BranchOf(g, m, o);
    }
  }

  lemma ProbeOn(g: Catalog, m: set<Name>, o: Name, branch: set<Name>, probe: seq<Name>, more: seq<Name>)
    requires Probing(g, m, o, branch, probe) && probe != []
    requires probe[0] in BranchOf(g, m, o)
    requires forall d :: d in more <==> Edge(g.Required(), probe[0], d) && d !in branch + {probe[0]} + m
    ensures Probing(g, m, o, branch + {probe[0]}, probe[1..] + more)
  {
    var x := probe[0];
    assert probe == [x] + probe[1..];
    forall n
      ensures Referenced(g, [o], branch + {x}, n) <==> Referenced(g, [o], branch, n) || Edge(g.Required(), x, n)
    {
    }
  }

  lemma ProbeEnds(g: Catalog, m: set<Name>, o: Name, branch: set<Name>)
    requires m <= g.known && Probing(g, m, o, branch, [])
    ensures branch == BranchOf(g, m, o) && Satisfiable(g, m, o)
  {
    ClosureIsLeastClosed(g.Required(), {o}, g.known - m);
    assert Closed(g.Required(), {o}, g.known - m, branch) by {
      forall n | Referenced(g, [o], branch, n) && n in g.known - m
        ensures n in branch
      {
      }
    }
    assert BranchOf(g, m, o) <= g.known;
  }

  // ---------------------------------------------------------------- the best-effort pass

  /** How the pass remembers that it reported a (holder, optional) pair: one string. */
  function Key(holder: Name, optName: Name): string {
    holder.text + "\0" + optName.text
  }

  function SkipKey(s: SkippedOptional): string {
    Key(s.namedBy, s.named)
  }

  /** The entry blames a module that is really not installed, and says rightly whose fault it is. */
  ghost predicate Right(g: Catalog, base: set<Name>, s: SkippedOptional) {
    && Edge(g.Optional(), s.namedBy, s.named)
    && s.named !in base && !Satisfiable(g, base, s.named)
    && (s.reason.NotInstalled? ==> s.named !in g.known && s.detail == NO_NAME)
    && (s.reason.Unsatisfiable? ==>
          && s.named in g.known && s.detail !in g.known
          && Referenced(g, [s.named], BranchOf(g, base, s.named), s.detail))
  }

  ghost predicate KeysDiffer(skips: seq<SkippedOptional>) {
    forall i, j :: 0 <= i < j < |skips| ==> SkipKey(skips[i]) != SkipKey(skips[j])
  }

  ghost predicate Passing(g: Catalog, base: set<Name>, loaded: set<Name>, skips: seq<SkippedOptional>,
                          reported: set<string>) {
    && Settled(g, base, loaded) && loaded <= BestSet(g, base)
    && KeysDiffer(skips)
    && (forall s :: s in skips ==> s.namedBy in loaded && Right(g, base, s) && SkipKey(s) in reported)
    && (forall k :: k in reported ==> Named(skips, k))
  }

  ghost predicate Named(skips: seq<SkippedOptional>, k: string) {
    exists s :: s in skips && SkipKey(s) == k
  }

  /** One optional edge: take the branch whole, or report once that it was left out. */
  method ConsiderOptional(g: Catalog, holder: Name, optName: Name, loaded: set<Name>, skips: seq<SkippedOptional>,
                          reported: set<string>, ghost base: set<Name>)
    returns (loaded': set<Name>, skips': seq<SkippedOptional>, reported': set<string>)
    requires Passing(g, base, loaded, skips, reported)
    requires holder in loaded && Edge(g.Optional(), holder, optName) && optName !in loaded
    ensures Passing(g, base, loaded', skips', reported')
    ensures loaded <= loaded' && reported <= reported'
    ensures Handled(g, base, loaded', reported', holder, optName)
  {
    var branch, blocker := ProbeBranch(g, loaded, optName);
    SatisfiableIsStable(g, base, loaded, optName);
    loaded', skips', reported' := loaded, skips, reported;
    if blocker != NO_NAME {
      var key := Key(holder, optName);
      if key !in reported {
        var skip := SkippedOptional(optName, holder,
                                    if blocker == optName then NotInstalled else Unsatisfiable,
                                    if blocker == optName then NO_NAME else blocker);
        BlockerIsRight(g, base, loaded, optName, blocker);
        skips' := skips + [skip];
        reported' := reported + {key};
        ReportOne(g, base, loaded, skips, reported, skip);
      }
    } else {
      AddBranch(g, base, loaded, optName);
      BranchBelongs(g, base, loaded, holder, optName);
      loaded' := loaded + branch;
    }
  }

  lemma BlockerIsRight(g: Catalog, base: set<Name>, m: set<Name>, o: Name, blocker: Name)
    requires Settled(g, base, m) && o !in m
    requires blocker !in g.known && Referenced(g, [o], BranchOf(g, m, o), blocker)
    ensures Referenced(g, [o], BranchOf(g, base, o), blocker) && !Satisfiable(g, base, o)
    ensures blocker != o ==> o in g.known
  {
    BranchWithin(g, base, m, o);
    if blocker != o && o !in g.known {
      BranchNeedsItsRoot(g, base, o);
    }
  }

  lemma ReportOne(g: Catalog, base: set<Name>, loaded: set<Name>, skips: seq<SkippedOptional>,
                  reported: set<string>, skip: SkippedOptional)
    requires Passing(g, base, loaded, skips, reported)
    requires skip.namedBy in loaded && Right(g, base, skip) && SkipKey(skip) !in reported
    ensures Passing(g, base, loaded, skips + [skip], reported + {SkipKey(skip)})
  {
    var more := skips + [skip];
    forall k | k in reported + {SkipKey(skip)}
      ensures Named(more, k)
    {
      if k == SkipKey(skip) {
        assert more[|skips|] == skip;
      } else {
        var s :| s in skips && SkipKey(s) == k;
        assert s in more;
      }
    }
    assert KeysDiffer(more) by {
      forall i | 0 <= i < |skips|
        ensures SkipKey(skips[i]) in reported
      {
        assert skips[i] in skips;
      }
    }
  }

  lemma BranchBelongs(g: Catalog, base: set<Name>, loaded: set<Name>, holder: Name, o: Name)
    requires Settled(g, base, loaded) && loaded <= BestSet(g, base)
    requires holder in loaded && Edge(g.Optional(), holder, o) && o !in loaded && Satisfiable(g, base, o)
    ensures BranchOf(g, loaded, o) <= BestSet(g, base)
  {
    BranchWithin(g, base, loaded, o);
    forall n, t | n in BranchOf(g, loaded, o) && Admitted(g, base, t)
      ensures n in t
    {
      assert holder in t;
    }
  }

  ghost predicate Handled(g: Catalog, base: set<Name>, loaded: set<Name>, reported: set<string>, h: Name, o: Name) {
    o == NO_NAME || o in loaded || (!Satisfiable(g, base, o) && Key(h, o) in reported)
  }

  /** All the optional edges of one holder. */
  method ConsiderHolder(g: Catalog, holder: Name, loaded0: set<Name>, skips0: seq<SkippedOptional>,
                        reported0: set<string>, ghost base: set<Name>)
    returns (loaded: set<Name>, skips: seq<SkippedOptional>, reported: set<string>)
    requires Passing(g, base, loaded0, skips0, reported0) && holder in loaded0
    ensures Passing(g, base, loaded, skips, reported)
    ensures loaded0 <= loaded && reported0 <= reported
    ensures forall o :: o in Out(g.optional, holder) ==> Handled(g, base, loaded, reported, holder, o)
  {
    loaded, skips, reported := loaded0, skips0, reported0;
    var names := Out(g.optional, holder);
    for i := 0 to |names|
      invariant Passing(g, base, loaded, skips, reported)
      invariant loaded0 <= loaded && reported0 <= reported
      invariant forall o :: o in names[..i] ==> Handled(g, base, loaded, reported, holder, o)
    {
      assert names[..i + 1] == names[..i] + [names[i]];
      if names[i] != NO_NAME && names[i] !in loaded {
        assert names[i] in names;
        loaded, skips, reported := ConsiderOptional(g, holder, names[i], loaded, skips, reported, base);
      }
    }
    assert names[..|names|] == names;
  }

  /** Every pair of the round is settled one way or the other. */
  ghost predicate RoundDone(g: Catalog, base: set<Name>, holders: set<Name>, loaded: set<Name>,
                            reported: set<string>) {
    forall h, o :: h in holders && Edge(g.Optional(), h, o) ==> Handled(g, base, loaded, reported, h, o)
  }

  /** One round over the holders there were when it began, in any order. */
  method Round(g: Catalog, base: set<Name>, loaded0: set<Name>, skips0: seq<SkippedOptional>, reported0: set<string>)
    returns (loaded: set<Name>, skips: seq<SkippedOptional>, reported: set<string>)
    requires Passing(g, base, loaded0, skips0, reported0)
    ensures Passing(g, base, loaded, skips, reported)
    ensures loaded0 <= loaded && RoundDone(g, base, loaded0, loaded, reported)
  {
    loaded, skips, reported := loaded0, skips0, reported0;
    var frontier := AnyOrder(loaded0);
    for i := 0 to |frontier|
      invariant Passing(g, base, loaded, skips, reported)
      invariant loaded0 <= loaded
      invariant RoundDone(g, base, Elems(frontier[..i]), loaded, reported)
    {
      assert frontier[i] in Elems(frontier);
      assert frontier[..i + 1] == frontier[..i] + [frontier[i]];
      loaded, skips, reported := ConsiderHolder(g, frontier[i], loaded, skips, reported, base);
    }
    assert frontier[..|frontier|] == frontier;
  }

  /** Rounds until one adds nothing. */
  method AdmitOptional(g: Catalog, base: set<Name>) returns (loaded: set<Name>, skips: seq<SkippedOptional>)
    requires base <= g.known
    ensures loaded == BestSet(g, base)
    ensures ReportCovers(g, base, loaded, skips)
  {
    loaded, skips := base, [];
    var reported: set<string> := {};
    var grew := true;
    while grew
      invariant Passing(g, base, loaded, skips, reported)
      invariant !grew ==> RoundDone(g, base, loaded, loaded, reported)
      decreases |g.known - loaded|, grew
    {
      var before := loaded;
      loaded, skips, reported := Round(g, base, before, skips, reported);
      grew := loaded != before;
      SubsetSize(g.known - loaded, g.known - before);
      assert grew ==> g.known - loaded != g.known - before;
    }
    PassEnds(g, base, loaded, skips, reported);
  }

  /** Entries are right, name no member twice, and no optional edge of a member is left unexplained. */
  ghost predicate ReportCovers(g: Catalog, base: set<Name>, loaded: set<Name>, skips: seq<SkippedOptional>) {
    && KeysDiffer(skips)
    && (forall s :: s in skips ==> s.namedBy in loaded && s.named !in loaded && Right(g, base, s))
    && (forall h, o :: h in loaded && Edge(g.Optional(), h, o) && o !in loaded ==> Named(skips, Key(h, o)))
  }

  lemma {:induction false} PassEnds(g: Catalog, base: set<Name>, loaded: set<Name>, skips: seq<SkippedOptional>,
                                    reported: set<string>)
    requires Passing(g, base, loaded, skips, reported) && RoundDone(g, base, loaded, loaded, reported)
    ensures loaded == BestSet(g, base)
    ensures ReportCovers(g, base, loaded, skips)
  {
    forall s | s in skips
      ensures s.named !in loaded
    {
      if s.named in loaded {
        MembersAreSatisfiable(g, base, loaded, s.named);
      }
    }
    assert Admitted(g, base, loaded) by {
      forall h, o | h in loaded && Edge(g.Optional(), h, o) && Satisfiable(g, base, o)
        ensures BranchOf(g, base, o) <= loaded
      {
        MembersAreSatisfiable(g, base, loaded, o);
      }
    }
  }

  /** The best-effort set is itself admitted, and no admitted set lacks any of it. */
  lemma BestSetIsLeast(g: Catalog, base: set<Name>)
    requires base <= g.known
    ensures Admitted(g, base, BestSet(g, base)) && BestSet(g, base) <= g.known
    ensures forall t :: Admitted(g, base, t) ==> BestSet(g, base) <= t
  {
    var best := BestSet(g, base);
    forall h, o, n | h in best && Edge(g.Optional(), h, o) && Satisfiable(g, base, o) && n in BranchOf(g, base, o)
      ensures n in best
    {
      forall t | Admitted(g, base, t)
        ensures n in t
      {
        assert h in t;
      }
    }
  }

  ghost predicate NothingMissing(g: Catalog, requested: seq<Name>) {
    forall n :: Referenced(g, requested, RequiredClosure(g, requested), n) ==> n in g.known
  }

  /** With nothing required missing, admission reads: the optional module's WHOLE required closure is known. */
  lemma {:induction false} WholeBranches(g: Catalog, requested: seq<Name>, t: set<Name>)
    requires NothingMissing(g, requested)
    ensures var base := RequiredClosure(g, requested);
            Admitted(g, base, t) <==>
            && base <= t
            && forall h, o :: h in t && Edge(g.Optional(), h, o) && NothingMissing(g, [o])
                              ==> RequiredClosure(g, [o]) <= t
  {
    var base := RequiredClosure(g, requested);
    ClosureIsLeastClosed(g.Required(), Elems(requested), g.known);
    assert Settled(g, {}, base) by {
      forall n, d | n in base && Edge(g.Required(), n, d)
        ensures d in base
      {
        assert Referenced(g, requested, base, d);
      }
    }
    forall o
      ensures Satisfiable(g, base, o) <==> NothingMissing(g, [o])
      ensures base + BranchOf(g, base, o) == base + RequiredClosure(g, [o])
    {
      WholeBranch(g, base, o);
    }
  }

  lemma WholeBranch(g: Catalog, base: set<Name>, o: Name)
    requires Settled(g, {}, base)
    ensures Satisfiable(g, base, o) <==> NothingMissing(g, [o])
    ensures base + BranchOf(g, base, o) == base + RequiredClosure(g, [o])
  {
    assert Elems([o]) == {o} && g.known - {} == g.known;
    assert BranchOf(g, {}, o) == RequiredClosure(g, [o]);
    if o in base {
      MembersAreSatisfiable(g, {}, base, o);
      BranchNeedsItsRoot(g, base, o);
    } else {
      SatisfiableIsStable(g, {}, base, o);
      BranchWithin(g, {}, base, o);
    }
  }

  // ---------------------------------------------------------------- the report

  predicate NulFree(n: Name) {
    '\0' !in n.text
  }

  /** Holders without a NUL byte, which name validation guarantees, have keys of their own. */
  lemma KeysTellPairsApart(h: Name, o: Name, h': Name, o': Name)
    requires NulFree(h) && NulFree(h') && Key(h, o) == Key(h', o')
    ensures h == h' && o == o'
  {
    var k := Key(h, o);
    assert k[|h.text|] == '\0' && k[|h'.text|] == '\0';
    assert forall i :: 0 <= i < |h.text| ==> k[i] == h.text[i];
    assert forall i :: 0 <= i < |h'.text| ==> k[i] == h'.text[i];
    assert h.text == k[..|h.text|] && h'.text == k[..|h.text|];
    assert o.text == k[|h.text| + 1..] && o'.text == k[|h.text| + 1..];
  }

  /** Then each optional edge of a member leads into the set or to exactly one entry, never both. */
  lemma ReportIsExact(g: Catalog, base: set<Name>, loaded: set<Name>, skips: seq<SkippedOptional>, h: Name, o: Name)
    requires ReportCovers(g, base, loaded, skips) && forall n :: n in loaded ==> NulFree(n)
    requires h in loaded && Edge(g.Optional(), h, o)
    ensures o in loaded <==> !exists i :: 0 <= i < |skips| && skips[i].namedBy == h && skips[i].named == o
    ensures forall i, j :: 0 <= i < j < |skips| ==>
                             (skips[i].namedBy, skips[i].named) != (skips[j].namedBy, skips[j].named)
  {
    if o !in loaded {
      assert Named(skips, Key(h, o));
      var s :| s in skips && SkipKey(s) == Key(h, o);
      KeysTellPairsApart(s.namedBy, s.named, h, o);
      var i :| 0 <= i < |skips| && skips[i] == s;
    }
    forall i, j | 0 <= i < j < |skips|
      ensures (skips[i].namedBy, skips[i].named) != (skips[j].namedBy, skips[j].named)
    {
      assert SkipKey(skips[i]) != SkipKey(skips[j]);
    }
  }

  ghost predicate HasEntry(skips: seq<SkippedOptional>, h: Name, o: Name) {
    exists s :: s in skips && s.namedBy == h && s.named == o
  }

  const PLAIN := Name("a")
  const NULLED := Name("a\0b")

  /** Two holders, each naming a module that is not installed, under one key. */
  const NUL_CATALOG := Catalog({PLAIN, NULLED}, map[], map[PLAIN := [Name("b\0c")], NULLED := [Name("c")]])

  lemma NulNames()
    ensures Key(PLAIN, Name("b\0c")) == Key(NULLED, Name("c"))
    ensures PLAIN != NULLED && Name("b\0c") !in {PLAIN, NULLED} && Name("c") !in {PLAIN, NULLED}
    ensures Name("b\0c") != NO_NAME && Name("c") != NO_NAME && Name("b\0c") != Name("c")
  {
    assert "a" + "\0" + "b\0c" == "a\0b" + "\0" + "c";
    assert |PLAIN.text| == 1 && |NULLED.text| == 3;
    assert "c"[0] != "a"[0] && "b\0c"[0] != "a\0b"[0];
  }

  lemma NulEdges(h: Name, o: Name)
    ensures Edge(NUL_CATALOG.Optional(), h, o) <==>
            (h == PLAIN && o == Name("b\0c")) || (h == NULLED && o == Name("c"))
  {
    NulNames();
  }

  /** A holder name with a NUL byte in it swallows another pair's entry: of the two that are due, one is there. */
  lemma NulBytesHideAnEntry(skips: seq<SkippedOptional>)
    requires ReportCovers(NUL_CATALOG, {PLAIN, NULLED}, BestSet(NUL_CATALOG, {PLAIN, NULLED}), skips)
    ensures BestSet(NUL_CATALOG, {PLAIN, NULLED}) == {PLAIN, NULLED}
    ensures Edge(NUL_CATALOG.Optional(), PLAIN, Name("b\0c")) && Edge(NUL_CATALOG.Optional(), NULLED, Name("c"))
    ensures HasEntry(skips, PLAIN, Name("b\0c")) <==> !HasEntry(skips, NULLED, Name("c"))
  {
    BestSetIsLeast(NUL_CATALOG, {PLAIN, NULLED});
    NulNames();
    NulEdges(PLAIN, Name("b\0c"));
    NulEdges(NULLED, Name("c"));
    OneEntryForTwo(skips);
  }

  lemma OneEntryForTwo(skips: seq<SkippedOptional>)
    requires KeysDiffer(skips) && Named(skips, Key(PLAIN, Name("b\0c")))
    requires forall s :: s in skips ==> Edge(NUL_CATALOG.Optional(), s.namedBy, s.named)
    ensures HasEntry(skips, PLAIN, Name("b\0c")) <==> !HasEntry(skips, NULLED, Name("c"))
  {
    NulNames();
    var s :| s in skips && SkipKey(s) == Key(PLAIN, Name("b\0c"));
    NulEdges(s.namedBy, s.named);
  }

  // ---------------------------------------------------------------- the whole resolution

  /** The walk again over required edges alone, with unknown names passed over. */
  method WalkHard(g: Catalog, requested: seq<Name>) returns (requiredOnly: set<Name>)
    ensures requiredOnly == RequiredClosure(g, requested)
  {
    requiredOnly := {};
    var queue := requested;
    ghost var passed: seq<Name> := [];
    while queue != []
      invariant requiredOnly <= g.known
      invariant Walking(g, requested, requiredOnly, queue, passed)
      decreases |g.known - requiredOnly|, |queue|
    {
      var n := queue[0];
      ghost var before := queue;
      queue := queue[1..];
      assert before == [n] + queue;
      if n in requiredOnly || n !in g.known {
        if n !in g.known {
          passed := passed + [n];
        }
        continue;
      }
      WalkVisits(g, requested, requiredOnly, before, passed, n);
      var more := NotSeen(Out(g.required, n), requiredOnly + {n, NO_NAME});
      WalkOn(g, requested, requiredOnly, before, passed, more);
      ShrinksBy(g.known, requiredOnly, n);
      requiredOnly := requiredOnly + {n};
      queue := queue + more;
    }
    WalkEnds(g, requested, requiredOnly, passed);
  }

  /** Required and optional edges together, as the refining sort sees them. */
  function Combined(g: Catalog): Edges {
    map n | n in g.known :: Out(g.required, n) + Out(g.optional, n)
  }

  lemma CombinedEdges(g: Catalog, n: Name, d: Name)
    requires n in g.known
    ensures Edge(Live(Combined(g)), n, d) <==> Edge(g.Required(), n, d) || Edge(g.Optional(), n, d)
  {
  }

  /** The set a resolution loads. */
  ghost function Chosen(g: Catalog, requested: seq<Name>, soft: bool, mode: OptionalLoad): set<Name> {
    if soft && mode.BestEffort? then BestSet(g, RequiredClosure(g, requested)) else RequiredClosure(g, requested)
  }

  lemma FullOrderIffAcyclic(e: Edges, inside: set<Name>, order: seq<Name>)
    requires NoDup(order) && forall m :: m in order <==> m in inside && !ReachesCycle(e, inside, m)
    ensures |order| <= |inside|
    ensures |order| == |inside| <==> !HasCycle(e, inside)
  {
    NoDupLength(order);
    SubsetSize(Elems(order), inside);
    if HasCycle(e, inside) {
      var c :| OnCycle(e, inside, c);
      CycleReachesItself(e, inside, c);
    } else {
      assert Elems(order) == inside;
    }
  }

  /**
   * A member's optional dependency was left out: it is not installed itself, or it is and something unknown that it,
   * or what it requires outside `base`, requires is to blame.
   */
  ghost predicate BlamesRightly(g: Catalog, base: set<Name>, loaded: set<Name>, s: SkippedOptional) {
    && s.namedBy in loaded && s.named !in loaded && s.named in Out(g.optional, s.namedBy)
    && (s.reason == NotInstalled <==> s.named !in g.known)
    && (s.reason == NotInstalled ==> s.detail.text == "")
    && (s.reason == Unsatisfiable ==>
          s.detail !in g.known && exists m :: m in g.known && s.detail in Out(g.required, m))
  }

  lemma RightBlame(g: Catalog, base: set<Name>, loaded: set<Name>, s: SkippedOptional)
    requires s.namedBy in loaded && s.named !in loaded && Right(g, base, s)
    ensures BlamesRightly(g, base, loaded, s)
  {
    if s.reason.Unsatisfiable? {
      assert s.detail != s.named;
      var m :| m in BranchOf(g, base, s.named) && Edge(g.Required(), m, s.detail);
      assert s.detail in Out(g.required, m);
    }
  }

  /** Something that is loaded declares the name, a real one, as required. */
  ghost predicate NeededBy(g: Catalog, requested: seq<Name>, n: Name) {
    n.text != "" && exists m :: m in RequiredClosure(g, requested) && n in Out(g.required, m)
  }

  lemma ReferencedMeans(g: Catalog, requested: seq<Name>, n: Name)
    ensures Referenced(g, requested, RequiredClosure(g, requested), n) <==> n in requested || NeededBy(g, requested, n)
  {
    var base := RequiredClosure(g, requested);
    if m :| m in base && Edge(g.Required(), m, n) {
      assert n in Out(g.required, m);
    }
    if NeededBy(g, requested, n) {
      var m :| m in base && n in Out(g.required, m);
      assert Edge(g.Required(), m, n);
    }
  }

  /** What is loaded at least: the known modules on chains of required edges, through known ones, from the request. */
  lemma RequiredMeansReachable(g: Catalog, requested: seq<Name>, n: Name)
    ensures n in RequiredClosure(g, requested) <==> ReachedFrom(Live(g.required), Elems(requested), g.known, n)
  {
    ClosureIsReachability(Live(g.required), Elems(requested), g.known, n);
  }

  method Resolve(requested: seq<Name>, g: Catalog, soft: bool, mode: OptionalLoad) returns (out: ResolveResult)
    ensures var chosen := Chosen(g, requested, soft, mode);
            && NoDup(out.order) && DependenciesFirst(g.Required(), chosen, out.order)
            && (forall m :: m in out.order <==> m in chosen && !ReachesCycle(g.Required(), chosen, m))
            && (out.hasCycle <==> HasCycle(g.Required(), chosen))
            && (soft && !HasCycle(Live(Combined(g)), chosen) ==> DependenciesFirst(g.Optional(), chosen, out.order))
    ensures var base := RequiredClosure(g, requested);
            && (forall n :: n in out.missing <==> n !in g.known && Referenced(g, requested, base, n))
            && Elems(out.bestEffort) == Chosen(g, requested, soft, mode) - base && Sorting.Ascending(out.bestEffort)
            && (if soft && mode.BestEffort? then ReportCovers(g, base, Chosen(g, requested, soft, mode), out.skipped)
                else out.skipped == [])
    // the same outright: what is loaded, who is missing, and whom an entry blames
    ensures !soft || mode.OrderOnly? ==>
              var base := RequiredClosure(g, requested);
              && (forall m :: m in out.order <==> m in base && !ReachesCycle(g.Required(), base, m))
              && out.bestEffort == [] && out.skipped == []
    ensures soft && mode.BestEffort? ==>
              var base := RequiredClosure(g, requested);
              var best := BestSet(g, base);
              && (forall m :: m in out.order <==> m in best && !ReachesCycle(g.Required(), best, m))
              && (forall m :: m in out.bestEffort <==> m in best && m !in base)
              && (forall s :: s in out.skipped ==> BlamesRightly(g, base, best, s))
    ensures forall n :: n in out.missing <==> n !in g.known && (n in requested || NeededBy(g, requested, n))
  {
    var modulesToLoad, missing := WalkRequired(g, requested);
    var bestEffort: seq<Name>, skipped := [], [];
    if soft && mode.BestEffort? {
      modulesToLoad, skipped := AdmitOptional(g, modulesToLoad);
      var requiredOnly := WalkHard(g, requested);
      bestEffort := Sorting.Sorted(modulesToLoad - requiredOnly);
      forall s | s in skipped
        ensures BlamesRightly(g, requiredOnly, modulesToLoad, s)
      {
        RightBlame(g, requiredOnly, modulesToLoad, s);
      }
    }
    var order := TopoSort.TopoSort(modulesToLoad, g.required);
    FullOrderIffAcyclic(g.Required(), modulesToLoad, order);
    if soft && |order| == |modulesToLoad| {
      var refined := TopoSort.TopoSort(modulesToLoad, Combined(g));
      FullOrderIffAcyclic(Live(Combined(g)), modulesToLoad, refined);
      if |refined| == |modulesToLoad| {
        RefinedKeepsHard(g, modulesToLoad, refined);
        RefinedIsFull(g, modulesToLoad, refined);
        order := refined;
      }
    } else if soft {
      HardCyclesAreCombined(g, modulesToLoad);
    }
    out := ResolveResult(order, missing, |order| < |modulesToLoad|, bestEffort, skipped);
    assert forall m :: m in out.bestEffort <==> m in Elems(out.bestEffort);
    forall n
      ensures Referenced(g, requested, RequiredClosure(g, requested), n)
              <==> n in requested || NeededBy(g, requested, n)
    {
      ReferencedMeans(g, requested, n);
    }
  }

  lemma RefinedKeepsHard(g: Catalog, chosen: set<Name>, refined: seq<Name>)
    requires chosen <= g.known && DependenciesFirst(Live(Combined(g)), chosen, refined)
    requires forall m :: m in refined ==> m in chosen
    ensures DependenciesFirst(g.Required(), chosen, refined)
    ensures DependenciesFirst(g.Optional(), chosen, refined)
  {
    forall j, d | 0 <= j < |refined| && d in chosen
                  && (Edge(g.Required(), refined[j], d) || Edge(g.Optional(), refined[j], d))
      ensures d in refined[..j]
    {
      assert refined[j] in refined;
      CombinedEdges(g, refined[j], d);
    }
  }

  lemma RefinedIsFull(g: Catalog, chosen: set<Name>, refined: seq<Name>)
    requires NoDup(refined) && |refined| == |chosen| && forall m :: m in refined ==> m in chosen
    requires !HasCycle(g.Required(), chosen)
    ensures forall m :: m in refined <==> m in chosen && !ReachesCycle(g.Required(), chosen, m)
  {
    NoDupLength(refined);
    SubsetSize(Elems(refined), chosen);
    assert Elems(refined) == chosen;
    forall m
      ensures !ReachesCycle(g.Required(), chosen, m)
    {
      ReachedCyclesExist(g.Required(), chosen, m);
    }
  }

  lemma ReachedCyclesExist(e: Edges, inside: set<Name>, m: Name)
    ensures ReachesCycle(e, inside, m) ==> HasCycle(e, inside)
  {
  }

  lemma HardCyclesAreCombined(g: Catalog, chosen: set<Name>)
    requires chosen <= g.known && HasCycle(g.Required(), chosen)
    ensures HasCycle(Live(Combined(g)), chosen)
  {
    var c :| OnCycle(g.Required(), chosen, c);
    var p :| PathFromTo(g.Required(), chosen, p, c, c) && |p| > 1;
    forall i, j | 0 <= i && j == i + 1 && j < |p|
      ensures Edge(Live(Combined(g)), p[i], p[j])
    {
      CombinedEdges(g, p[i], p[j]);
    }
    assert PathFromTo(Live(Combined(g)), chosen, p, c, c);
    assert OnCycle(Live(Combined(g)), chosen, c);
  }

  /** Under order-only loading, optional edges change no verdict and no membership, only positions. */
  method SoftEdgesOnlyRefine(requested: seq<Name>, g: Catalog) returns (plain: ResolveResult, refined: ResolveResult)
    ensures Elems(plain.order) == Elems(refined.order)
    ensures Elems(plain.missing) == Elems(refined.missing)
    ensures plain.hasCycle == refined.hasCycle
    ensures DependenciesFirst(g.Required(), Elems(refined.order), refined.order)
  {
    plain := Resolve(requested, g, false, OrderOnly);
    refined := Resolve(requested, g, true, OrderOnly);
  }
}
