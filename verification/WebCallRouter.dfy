/** The router of a web module's outbound messages: its gate, its sink table and the host's subscription ids. */
module WebCallRouter {
  import opened Names

  type Tid = nat
  type Id = nat
  type Sink = nat

  /** What a page names when it subscribes. */
  datatype Key = Key(target: Name, event: Name)

  datatype Op = Sub(k: Key) | Unsub(k: Key)

  // ---------------------------------------------------------------- the gate

  datatype GateView = GateView(alive: bool, running: multiset<Tid>)

  predicate NoOtherInside(g: GateView, t: Tid) {
    |g.running| == g.running[t]
  }

  /** A frame is recorded iff the gate is open; one goes when it leaves; closing touches none. */
  function Entered(g: GateView, t: Tid): GateView {
    if g.alive then g.(running := g.running + multiset{t}) else g
  }

  function Left(g: GateView, t: Tid): GateView {
    g.(running := g.running - multiset{t})
  }

  function Shut(g: GateView): GateView {
    g.(alive := false)
  }

  lemma OnlyOwnFramesMeans(g: GateView, t: Tid)
    ensures NoOtherInside(g, t) <==> forall u: Tid :: u != t ==> g.running[u] == 0
  {
    var others := g.running[t := 0];
    assert |others| == |g.running| - g.running[t];
    assert |others| == 0 <==> others == multiset{};
    assert others == multiset{} <==> forall u: Tid :: others[u] == 0;
    assert forall u: Tid :: u != t ==> g.running[u] == others[u];
  }

  class Gate {
    var alive: bool
    var running: multiset<Tid>

    function View(): GateView
      reads this
    {
      GateView(alive, running)
    }

    constructor ()
      ensures View() == GateView(true, multiset{})
    {
      alive, running := true, multiset{};
    }

    /** Admit a unit of work, recording the frame, unless the gate is closed. */
    method Enter(t: Tid) returns (admitted: bool)
      modifies this
      ensures admitted == old(alive) && View() == Entered(old(View()), t)
    {
      if !alive {
        return false;
      }
      running := running + multiset{t};
      return true;
    }

    method Leave(t: Tid)
      modifies this
      ensures View() == Left(old(View()), t)
    {
      if t in running {
        running := running - multiset{t};
      }
    }

    method Close()
      modifies this
      ensures View() == Shut(old(View()))
    {
      alive := false;
    }

    /** What stop waits for. */
    method MayReturn(t: Tid) returns (r: bool)
      ensures r <==> forall u: Tid :: u != t ==> running[u] == 0
    {
      OnlyOwnFramesMeans(View(), t);
      r := |running| == running[t];
    }
  }

  // ---------------------------------------------------------------- the page's subscriptions

  type Sinks = map<Key, Sink>

  /** The operation a Subscribe posts: none when the pair is known. */
  function SubscribePosts(sinks: Sinks, k: Key): seq<Op> {
    if k in sinks then [] else [Sub(k)]
  }

  function UnsubscribePosts(sinks: Sinks, k: Key): seq<Op> {
    if k in sinks then [Unsub(k)] else []
  }

  class SinkTable {
    var sinks: Sinks

    constructor ()
      ensures sinks == map[]
    {
      sinks := map[];
    }

    /** The table changes at once; a repeat replaces the sink and posts nothing. */
    method OnSubscribe(k: Key, sink: Sink) returns (post: seq<Op>)
      modifies this
      ensures sinks == old(sinks)[k := sink] && post == SubscribePosts(old(sinks), k)
    {
      var known := k in sinks;
      sinks := sinks[k := sink];
      post := if known then [] else [Sub(k)];
    }

    method OnUnsubscribe(k: Key) returns (post: seq<Op>)
      modifies this
      ensures sinks == old(sinks) - {k} && post == UnsubscribePosts(old(sinks), k)
    {
      if k !in sinks {
        return [];
      }
      sinks := sinks - {k};
      post := [Unsub(k)];
    }

    /** Empty the table; the caller withdraws what was in it, in any order. */
    method Swap() returns (keys: seq<Key>)
      modifies this
      ensures sinks == map[] && NoDup(keys) && Elems(keys) == old(sinks).Keys
    {
      keys := AnyOrder(sinks.Keys);
      sinks := map[];
    }
  }

  // ---------------------------------------------------------------- the host's subscription ids

  /**
   * The id map of a module's routes, with the ids handed out (0 up to `issued`), those cancelled, and those
   * forgotten uncancelled: their client was not found again, or another id was stored over them.
   */
  datatype Routes = Routes(ids: map<Key, Id>, issued: Id, cancelled: seq<Id>, lost: seq<Id>)

  const NO_ROUTES := Routes(map[], 0, [], [])

  /** The new id is stored, over the pair's old one if it has any. */
  function Armed(r: Routes, k: Key): Routes {
    r.(ids := r.ids[k := r.issued], issued := r.issued + 1, lost := r.lost + if k in r.ids then [r.ids[k]] else [])
  }

  /** The id is forgotten first; it is cancelled only if the client is `found`. */
  function Withdrawn(r: Routes, k: Key, found: bool): Routes {
    if k !in r.ids then r
    else if found then r.(ids := r.ids - {k}, cancelled := r.cancelled + [r.ids[k]])
    else r.(ids := r.ids - {k}, lost := r.lost + [r.ids[k]])
  }

  function WithdrawnAll(r: Routes, keys: seq<Key>, found: set<Key>): Routes
    decreases |keys|
  {
    if keys == [] then r
    else
      var last := keys[|keys| - 1];
      Withdrawn(WithdrawnAll(r, keys[..|keys| - 1], found), last, last in found)
  }

  /** Every id handed out is held under one key, cancelled or lost, and none is so twice. */
  ghost predicate Accounted(r: Routes) {
    && NoDup(r.cancelled) && NoDup(r.lost)
    && (forall id: Id :: id in r.cancelled ==> id < r.issued && id !in r.lost)
    && (forall id: Id :: id in r.lost ==> id < r.issued)
    && (forall k :: k in r.ids ==> r.ids[k] < r.issued && r.ids[k] !in r.cancelled && r.ids[k] !in r.lost)
    && (forall j, k :: j in r.ids && k in r.ids && j != k ==> r.ids[j] != r.ids[k])
    && (forall id: Id :: id < r.issued ==>
                           id in r.cancelled || id in r.lost || exists k :: k in r.ids && r.ids[k] == id)
  }

  lemma OneMoreId(ids: seq<Id>, x: Id)
    requires NoDup(ids) && x !in ids
    ensures NoDup(ids + [x]) && forall id: Id :: id in ids + [x] <==> id in ids || id == x
  {
  }

  lemma ArmingAFreePair(r: Routes, k: Key)
    requires Accounted(r) && k !in r.ids
    ensures Accounted(Armed(r, k))
  {
    var r' := Armed(r, k);
    assert r'.lost == r.lost;
    forall id: Id | id < r'.issued && id !in r'.cancelled && id !in r'.lost
      ensures exists j :: j in r'.ids && r'.ids[j] == id
    {
      if id == r.issued {
        assert k in r'.ids && r'.ids[k] == id;
      } else {
        var j :| j in r.ids && r.ids[j] == id;
        assert j in r'.ids && r'.ids[j] == id;
      }
    }
  }

  lemma WithdrawingKeepsAccounts(r: Routes, k: Key, found: bool)
    requires Accounted(r)
    ensures Accounted(Withdrawn(r, k, found))
  {
    if k in r.ids {
      var r' := Withdrawn(r, k, found);
      assert forall id: Id :: id in r'.cancelled || id in r'.lost
                              <==> id in r.cancelled || id in r.lost || id == r.ids[k];
      forall id: Id | id < r'.issued && id !in r'.cancelled && id !in r'.lost
        ensures exists j :: j in r'.ids && r'.ids[j] == id
      {
        var j :| j in r.ids && r.ids[j] == id;
        assert j in r'.ids && r'.ids[j] == id;
      }
    }
  }

  /** A pair that has an id is armed as if that one's client had gone missing first. */
  lemma ArmingKeepsAccounts(r: Routes, k: Key)
    requires Accounted(r)
    ensures Accounted(Armed(r, k))
  {
    if k in r.ids {
      var freed := Withdrawn(r, k, false);
      WithdrawingKeepsAccounts(r, k, false);
      ArmingAFreePair(freed, k);
      assert freed.ids[k := r.issued] == r.ids[k := r.issued];
      assert Armed(freed, k).lost == Armed(r, k).lost;
    } else {
      ArmingAFreePair(r, k);
    }
  }

  /** Arming a pair that still holds an id loses that id, and only that: no pair holds it and nothing cancels it. */
  lemma ArmingTwiceLosesAnId(r: Routes, k: Key, id: Id)
    requires Accounted(r)
    ensures var r' := Armed(r, k);
            (&& id < r'.issued && id !in r'.cancelled && (forall j :: j in r'.ids ==> r'.ids[j] != id))
            <==> id in r.lost || (k in r.ids && id == r.ids[k])
  {
    var r' := Armed(r, k);
    ArmingKeepsAccounts(r, k);
    assert id in r'.lost <==> id in r.lost || (k in r.ids && id == r.ids[k]);
  }

  /** An id that comes when the routes are gone: nothing is left to store it in. */
  function Strayed(r: Routes): Routes {
    r.(issued := r.issued + 1, lost := r.lost + [r.issued])
  }

  lemma StrayingKeepsAccounts(r: Routes)
    requires Accounted(r)
    ensures Accounted(Strayed(r))
  {
    OneMoreId(r.lost, r.issued);
  }

  lemma {:induction false} WithdrawingKeepsAll(r: Routes, keys: seq<Key>, found: set<Key>)
    requires Accounted(r)
    ensures Accounted(WithdrawnAll(r, keys, found))
    decreases |keys|
  {
    if keys != [] {
      var last := keys[|keys| - 1];
      WithdrawingKeepsAll(r, keys[..|keys| - 1], found);
      WithdrawingKeepsAccounts(WithdrawnAll(r, keys[..|keys| - 1], found), last, last in found);
    }
  }

  lemma {:induction false} WithdrawingForgets(r: Routes, keys: seq<Key>, found: set<Key>)
    ensures WithdrawnAll(r, keys, found).ids == r.ids - Elems(keys)
    ensures WithdrawnAll(r, keys, found).issued == r.issued
    decreases |keys|
  {
    if keys == [] {
      assert r.ids - {} == r.ids;
    } else {
      WithdrawingForgets(r, keys[..|keys| - 1], found);
      OneMoreGone(r.ids, keys);
      ForgetsOne(WithdrawnAll(r, keys[..|keys| - 1], found), keys[|keys| - 1], keys[|keys| - 1] in found);
    }
  }

  lemma ForgetsOne(r: Routes, k: Key, found: bool)
    ensures Withdrawn(r, k, found).ids == r.ids - {k}
  {
  }

  lemma WithdrawingAll(r: Routes, keys: seq<Key>, found: set<Key>)
    requires Accounted(r)
    ensures Accounted(WithdrawnAll(r, keys, found))
    ensures WithdrawnAll(r, keys, found).ids == r.ids - Elems(keys)
    ensures WithdrawnAll(r, keys, found).issued == r.issued
  {
    WithdrawingKeepsAll(r, keys, found);
    WithdrawingForgets(r, keys, found);
  }

  lemma OneMoreGone(ids: map<Key, Id>, keys: seq<Key>)
    requires keys != []
    ensures ids - Elems(keys) == ids - Elems(keys[..|keys| - 1]) - {keys[|keys| - 1]}
  {
    assert keys == keys[..|keys| - 1] + [keys[|keys| - 1]];
  }

  /** An id is lost exactly when a key that held one has its client missing. */
  lemma {:induction false} LosesOnlyTheUnfound(r: Routes, keys: seq<Key>, found: set<Key>)
    requires Accounted(r) && NoDup(keys)
    ensures r.lost <= WithdrawnAll(r, keys, found).lost
    ensures WithdrawnAll(r, keys, found).lost == r.lost <==> forall k :: k in keys && k in r.ids ==> k in found
    decreases |keys|
  {
    if keys != [] {
      var front, last := keys[..|keys| - 1], keys[|keys| - 1];
      assert keys == front + [last] && last !in front;
      LosesOnlyTheUnfound(r, front, found);
      WithdrawingAll(r, front, found);
    }
  }

  class LogosApiRoutes {
    var ids: map<Key, Id>
    var issued: Id
    var cancelled: seq<Id>
    var lost: seq<Id>

    function View(): Routes
      reads this
    {
      Routes(ids, issued, cancelled, lost)
    }

    constructor ()
      ensures View() == NO_ROUTES
    {
      ids, issued, cancelled, lost := map[], 0, [], [];
    }

    /** `granted` is whether the client answered with an id. */
    method Subscribe(k: Key, granted: bool) returns (armed: bool)
      modifies this
      ensures armed == granted
      ensures View() == if granted then Armed(old(View()), k) else old(View())
    {
      if !granted {
        return false;
      }
      if k in ids {
        lost := lost + [ids[k]];
      }
      ids := ids[k := issued];
      issued := issued + 1;
      return true;
    }

    /** `found` is whether the client that granted the id is there to cancel it. */
    method Unsubscribe(k: Key, found: bool)
      modifies this
      ensures View() == Withdrawn(old(View()), k, found)
    {
      if k !in ids {
        return;
      }
      var id := ids[k];
      ids := ids - {k};
      if found {
        cancelled := cancelled + [id];
      } else {
        lost := lost + [id];
      }
    }

    /**
     * The destructor: of every id ever handed out each is cancelled or lost, once; none more is lost iff its
     * clients are found.
     */
    method Destroy(found: set<Key>)
      requires Accounted(View())
      modifies this
      ensures ids == map[] && issued == old(issued) && Accounted(View())
      ensures forall id: Id :: id < issued <==> id in cancelled || id in lost
      ensures lost == old(lost) <==> old(ids).Keys <= found
    {
      ghost var before := View();
      var keys := AnyOrder(ids.Keys);
      for i := 0 to |keys|
        invariant View() == WithdrawnAll(before, keys[..i], found)
      {
        assert keys[..i + 1] == keys[..i] + [keys[i]];
        assert (keys[..i] + [keys[i]])[..i] == keys[..i];
        Unsubscribe(keys[i], keys[i] in found);
      }
      assert keys[..|keys|] == keys;
      WithdrawingAll(before, keys, found);
      LosesOnlyTheUnfound(before, keys, found);
      assert forall k :: k in keys <==> k in Elems(keys);
    }
  }
}
