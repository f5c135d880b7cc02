/** Retirement of web modules: taken out of the table once, torn down once, parked while a call still waits. */
module WebContainer {
  import opened Names

  type Id = nat

  datatype Why = UnloadAsked | PageLost

  /** The parked instances whose glue still reports a wait, and those whose does not, each in their order. */
  function StillWaiting(parked: seq<Id>, waiting: set<Id>): seq<Id> {
    if parked == [] then []
    else StillWaiting(parked[..|parked| - 1], waiting)
         + if parked[|parked| - 1] in waiting then [parked[|parked| - 1]] else []
  }

  function NoLongerWaiting(parked: seq<Id>, waiting: set<Id>): seq<Id> {
    if parked == [] then []
    else NoLongerWaiting(parked[..|parked| - 1], waiting)
         + if parked[|parked| - 1] in waiting then [] else [parked[|parked| - 1]]
  }

  /** The two halves share out the parked instances. */
  lemma {:induction false} SweepSharesOut(parked: seq<Id>, waiting: set<Id>)
    requires NoDup(parked)
    ensures NoDup(StillWaiting(parked, waiting)) && NoDup(NoLongerWaiting(parked, waiting))
    ensures forall id: Id :: id in StillWaiting(parked, waiting) <==> id in parked && id in waiting
    ensures forall id: Id :: id in NoLongerWaiting(parked, waiting) <==> id in parked && id !in waiting
  {
    if parked != [] {
      var front, last := parked[..|parked| - 1], parked[|parked| - 1];
      SweepSharesOut(front, waiting);
      assert parked == front + [last];
      assert last !in front;
    }
  }

  /** What stands before another in `s` does so in `all`. */
  ghost predicate Keeps(all: seq<Id>, s: seq<Id>) {
    forall i, j, k, m :: 0 <= i < j < |s| && 0 <= k < |all| && 0 <= m < |all| && s[i] == all[k] && s[j] == all[m]
                         ==> k < m
  }

  /** Each in the order of the park. */
  lemma {:induction false} SweepKeepsOrder(parked: seq<Id>, waiting: set<Id>)
    requires NoDup(parked)
    ensures Keeps(parked, StillWaiting(parked, waiting)) && Keeps(parked, NoLongerWaiting(parked, waiting))
  {
    if parked != [] {
      var front, last := parked[..|parked| - 1], parked[|parked| - 1];
      SweepKeepsOrder(front, waiting);
      SweepSharesOut(front, waiting);
      assert parked == front + [last] && last !in front;
      LastKeepsOrder(front, last, StillWaiting(front, waiting));
      LastKeepsOrder(front, last, NoLongerWaiting(front, waiting));
    }
  }

  lemma LastKeepsOrder(front: seq<Id>, last: Id, s: seq<Id>)
    requires NoDup(front) && last !in front && Keeps(front, s) && forall id :: id in s ==> id in front
    ensures Keeps(front + [last], s) && Keeps(front + [last], s + [last])
  {
    var all := front + [last];
    forall i, j, k, m | 0 <= i < j <= |s| && 0 <= k < |all| && 0 <= m < |all|
                        && (s + [last])[i] == all[k] && (s + [last])[j] == all[m]
      ensures k < m
    {
      assert s[i] in front && (j < |s| ==> s[j] in front);
      if j < |s| {
        assert k < |front| && m < |front|;
      } else {
        assert m == |front|;
      }
    }
    assert forall i :: 0 <= i < |s| ==> (s + [last])[i] == s[i];
  }

  lemma OneMoreParked(parked: seq<Id>, id: Id, waiting: set<Id>)
    ensures StillWaiting(parked + [id], waiting) == StillWaiting(parked, waiting) + if id in waiting then [id] else []
    ensures NoLongerWaiting(parked + [id], waiting)
         == NoLongerWaiting(parked, waiting) + if id in waiting then [] else [id]
  {
    assert (parked + [id])[..|parked|] == parked;
  }

  /**
   * The table, the park, and the history of what was torn down, announced, and told to give up its
   * pending calls, in order.
   */
  datatype Shelf = Shelf(modules: map<Name, Id>, retired: seq<Id>, tornDown: seq<Id>, announced: seq<Id>,
                         abandoned: seq<Id>)

  const EMPTY := Shelf(map[], [], [], [], [])

  /** `waiting` are the instances whose glue still reports a wait once the pending calls were told to give up. */
  function Retiring(v: Shelf, n: Name, why: Why, waiting: set<Id>): Shelf {
    if n !in v.modules then v
    else
      var id := v.modules[n];
      var told := v.(modules := v.modules - {n}, announced := v.announced + [id],
                     abandoned := v.abandoned + if why.PageLost? then [id] else []);
      if why.PageLost? && id in waiting then told.(retired := v.retired + [id])
      else told.(tornDown := v.tornDown + [id])
  }

  function Swept(v: Shelf, waiting: set<Id>): Shelf {
    v.(retired := StillWaiting(v.retired, waiting), tornDown := v.tornDown + NoLongerWaiting(v.retired, waiting))
  }

  class Container {
    var modules: map<Name, Id>
    var retired: seq<Id>
    var tornDown: seq<Id>
    var announced: seq<Id>
    var abandoned: seq<Id>

    function View(): Shelf
      reads this
    {
      Shelf(modules, retired, tornDown, announced, abandoned)
    }

    constructor ()
      ensures View() == EMPTY
    {
      modules, retired, tornDown, announced, abandoned := map[], [], [], [], [];
    }

    /** Unlists a module; every later retirement of it finds nothing to do. */
    method TakeInstance(n: Name) returns (taken: Option<Id>)
      modifies this
      ensures taken == if n in old(modules) then Some(old(modules)[n]) else None
      ensures View() == old(View()).(modules := old(modules) - {n})
    {
      if n !in modules {
        return None;
      }
      taken := Some(modules[n]);
      modules := modules - {n};
    }

    method Retire(n: Name, why: Why, waiting: set<Id>)
      modifies this
      ensures View() == Retiring(old(View()), n, why, waiting)
      ensures n !in old(modules) ==> View() == old(View())
      ensures n in old(modules) ==>
                var id := old(modules)[n];
                && modules == old(modules) - {n} && announced == old(announced) + [id]
                && abandoned == old(abandoned) + (if why == PageLost then [id] else [])
                && (why == PageLost && id in waiting ==>
                      retired == old(retired) + [id] && tornDown == old(tornDown))
                && (why == UnloadAsked || id !in waiting ==>
                      retired == old(retired) && tornDown == old(tornDown) + [id])
    {
      var taken := TakeInstance(n);
      if taken.None? {
        return;
      }
      if why.PageLost? {
        abandoned := abandoned + [taken.value];
        if taken.value in waiting {
          retired := retired + [taken.value];
        } else {
          tornDown := tornDown + [taken.value];
        }
      } else {
        tornDown := tornDown + [taken.value];
      }
      announced := announced + [taken.value];
    }

    /** Lift out, in place, what no glue reports a wait in any more. */
    method LiftReady(waiting: set<Id>) returns (ready: seq<Id>, stillWaiting: bool)
      modifies this
      ensures View() == old(View()).(retired := StillWaiting(old(retired), waiting))
      ensures ready == NoLongerWaiting(old(retired), waiting)
      ensures stillWaiting <==> retired != []
    {
      ready, stillWaiting := [], false;
      ghost var parked := retired;
      ghost var seen := 0;
      var i := 0;
      while i < |retired|
        invariant 0 <= i <= |retired| && 0 <= seen <= |parked|
        invariant View() == old(View()).(retired := retired)
        invariant Lifting(parked, seen, waiting, retired, i, ready)
        invariant stillWaiting <==> i > 0
        decreases |parked| - seen
      {
        LiftOne(parked, seen, waiting, retired, i, ready);
        if retired[i] in waiting {
          stillWaiting := true;
          i := i + 1;
        } else {
          ready := ready + [retired[i]];
          retired := retired[..i] + retired[i + 1..];
        }
        seen := seen + 1;
      }
      assert parked[..seen] == parked && retired[..i] == retired;
    }

    /** Lift those out, then tear them down. */
    method SweepRetired(waiting: set<Id>) returns (stillWaiting: bool)
      modifies this
      ensures View() == Swept(old(View()), waiting)
      ensures NoDup(old(retired)) ==>
                && (forall id: Id :: id in retired <==> id in old(retired) && id in waiting)
                && (forall id: Id :: id in tornDown <==>
                      id in old(tornDown) || (id in old(retired) && id !in waiting))
                && Keeps(old(retired), retired)
      ensures stillWaiting <==> retired != []
    {
      var ready: seq<Id>;
      ready, stillWaiting := LiftReady(waiting);
      ghost var kept := retired;
      for j := 0 to |ready|
        invariant View() == old(View()).(retired := kept, tornDown := old(tornDown) + ready[..j])
      {
        assert ready[..j + 1] == ready[..j] + [ready[j]];
        tornDown := tornDown + [ready[j]];
      }
      assert ready[..|ready|] == ready;
      if NoDup(old(retired)) {
        SweepSharesOut(old(retired), waiting);
        SweepKeepsOrder(old(retired), waiting);
      }
    }
  }

  /** The first `seen` of the parked instances have been shared out; `retired` holds the kept ones and the rest. */
  ghost predicate Lifting(parked: seq<Id>, seen: nat, waiting: set<Id>, retired: seq<Id>, i: nat, ready: seq<Id>) {
    && seen <= |parked| && i <= |retired|
    && retired[..i] == StillWaiting(parked[..seen], waiting) && retired[i..] == parked[seen..]
    && ready == NoLongerWaiting(parked[..seen], waiting)
  }

  lemma LiftOne(parked: seq<Id>, seen: nat, waiting: set<Id>, retired: seq<Id>, i: nat, ready: seq<Id>)
    requires Lifting(parked, seen, waiting, retired, i, ready) && i < |retired|
    ensures seen < |parked|
    ensures if retired[i] in waiting then Lifting(parked, seen + 1, waiting, retired, i + 1, ready)
            else Lifting(parked, seen + 1, waiting, retired[..i] + retired[i + 1..], i, ready + [retired[i]])
  {
    var x := retired[i];
    assert |retired[i..]| == |parked[seen..]|;
    assert x == retired[i..][0] == parked[seen];
    assert parked[..seen + 1] == parked[..seen] + [x];
    OneMoreParked(parked[..seen], x, waiting);
    assert retired[i + 1..] == retired[i..][1..] == parked[seen + 1..];
    assert retired[..i + 1] == retired[..i] + [x];
    var without := retired[..i] + retired[i + 1..];
    assert without[..i] == retired[..i] && without[i..] == retired[i + 1..];
  }
}
