/** Launches, deaths, unloads, sweeps and calls into pages, interleaved. */
module RetirementProtocol {
  import opened Names
  import opened WebContainer

  /**
   * How far a retirement has come: taken out of the table, a lost page's pending calls told to give up,
   * condemned to teardown, or only to be announced.
   */
  datatype Stage = Taken(why: Why) | Released | Condemned(why: Why) | Told

  /** One teardown, with why the instance was retired and how many calls of either kind were inside it. */
  datatype Teardown = Teardown(id: Id, why: Why, waiting: nat, blocked: nat)

  /**
   * `ready` is what a sweep has lifted out and not yet torn down. Of the calls inside a page, `waits` counts those
   * that turn a nested event loop on the Qt main thread, which is all the glue's own counter sees, and `blocked`
   * those that hold the glue and block another thread, which nothing in the code counts.
   */
  datatype State = State(
    modules: map<Name, Id>, hand: map<Id, Stage>, parked: seq<Id>, ready: seq<Id>,
    waits: map<Id, nat>, blocked: map<Id, nat>, next: Id,
    tornDown: seq<Teardown>, announced: seq<Id>, abandoned: seq<Id>)

  datatype Event =
    | Launch(n: Name) | BeginWait(id: Id) | EndWait(id: Id) | Block(id: Id) | Unblock(id: Id)
    | Take(n: Name, why: Why) | Release(id: Id) | Decide(id: Id) | TearDown(id: Id) | Announce(id: Id)
    | Sweep | TearDownReady

  const START := State(map[], map[], [], [], map[], map[], 0, [], [], [])

  function Waits(s: State, id: Id): nat {
    if id in s.waits then s.waits[id] else 0
  }

  function Blocked(s: State, id: Id): nat {
    if id in s.blocked then s.blocked[id] else 0
  }

  /** The pages the glue's counter reports as waiting. */
  function Waiting(s: State): set<Id> {
    set id | id in s.waits && s.waits[id] > 0
  }

  ghost predicate Live(s: State, id: Id) {
    exists n :: n in s.modules && s.modules[n] == id
  }

  /** The page is still published: live, parked, or in a retirement that has not decided yet. */
  ghost predicate Published(s: State, id: Id) {
    Live(s, id) || id in s.parked || (id in s.hand && (s.hand[id].Taken? || s.hand[id].Released?))
  }

  /** The page has not been torn down; another thread heeds neither its retirement nor its sweep. */
  ghost predicate Standing(s: State, id: Id) {
    Live(s, id) || (id in s.hand && !s.hand[id].Told?) || id in s.parked || id in s.ready
  }

  ghost predicate Can(s: State, ev: Event) {
    match ev
    case Launch(n) => n !in s.modules
    case BeginWait(id) => Published(s, id)
    case EndWait(id) => Waits(s, id) > 0
    case Block(id) => Standing(s, id)
    case Unblock(id) => Blocked(s, id) > 0
    case Take(_, _) => true
    case Release(id) => id in s.hand && s.hand[id] == Taken(PageLost)
    case Decide(id) => id in s.hand && (s.hand[id] == Taken(UnloadAsked) || s.hand[id].Released?)
    case TearDown(id) => id in s.hand && s.hand[id].Condemned?
    case Announce(id) => id in s.hand && s.hand[id].Told?
    case Sweep => s.ready == []
    case TearDownReady => s.ready != []
  }

  ghost function Do(s: State, ev: Event): State
    requires Can(s, ev)
  {
    match ev
    case Launch(n) => s.(modules := s.modules[n := s.next], next := s.next + 1)
    case BeginWait(id) => s.(waits := s.waits[id := Waits(s, id) + 1])
    case EndWait(id) => s.(waits := s.waits[id := Waits(s, id) - 1])
    case Block(id) => s.(blocked := s.blocked[id := Blocked(s, id) + 1])
    case Unblock(id) => s.(blocked := s.blocked[id := Blocked(s, id) - 1])
    case Take(n, why) =>
      // a second death, or an unload that lost the race, finds nothing
      if n !in s.modules then s
      else s.(modules := s.modules - {n}, hand := s.hand[s.modules[n] := Taken(why)])
    case Release(id) => s.(hand := s.hand[id := Released], abandoned := s.abandoned + [id])
    case Decide(id) =>
      if s.hand[id].Released? && Waits(s, id) > 0
      then s.(parked := s.parked + [id], hand := s.hand[id := Told])
      else s.(hand := s.hand[id := Condemned(if s.hand[id].Released? then PageLost else UnloadAsked)])
    case TearDown(id) =>
      s.(tornDown := s.tornDown + [Teardown(id, s.hand[id].why, Waits(s, id), Blocked(s, id))],
      hand := s.hand[id := Told])
    case Announce(id) => s.(announced := s.announced + [id], hand := s.hand - {id})
    case Sweep => s.(parked := StillWaiting(s.parked, Waiting(s)), ready := NoLongerWaiting(s.parked, Waiting(s)))
    case TearDownReady =>
      var id := s.ready[0];
      s.(tornDown := s.tornDown + [Teardown(id, PageLost, Waits(s, id), Blocked(s, id))], ready := s.ready[1..])
  }

  ghost predicate Legal(evs: seq<Event>)
    decreases |evs|, 0
  {
    evs == [] || (Legal(evs[..|evs| - 1]) && Can(After(evs[..|evs| - 1]), evs[|evs| - 1]))
  }

  ghost function After(evs: seq<Event>): State
    requires Legal(evs)
    decreases |evs|, 1
  {
    if evs == [] then START else Do(After(evs[..|evs| - 1]), evs[|evs| - 1])
  }

  // ---------------------------------------------------------------- where an instance is

  predicate InHand(s: State, id: Id) {
    id in s.hand && !s.hand[id].Told?
  }

  ghost predicate TornDown(s: State, id: Id) {
    exists i :: 0 <= i < |s.tornDown| && s.tornDown[i].id == id
  }

  /** In exactly one of the five places. */
  ghost predicate InOnePlace(s: State, id: Id) {
    && (Live(s, id) || InHand(s, id) || id in s.parked || id in s.ready || TornDown(s, id))
    && (Live(s, id) ==> id !in s.hand && id !in s.parked && id !in s.ready && !TornDown(s, id))
    && (InHand(s, id) ==> id !in s.parked && id !in s.ready && !TornDown(s, id))
    && (id in s.parked ==> id !in s.ready && !TornDown(s, id))
    && (id in s.ready ==> !TornDown(s, id))
  }

  ghost predicate Nowhere(s: State, id: Id) {
    !Live(s, id) && id !in s.hand && id !in s.parked && id !in s.ready && !TornDown(s, id) && id !in s.announced
  }

  ghost predicate OnceEach(s: State) {
    && (forall m, n :: m in s.modules && n in s.modules && m != n ==> s.modules[m] != s.modules[n])
    && NoDup(s.parked) && NoDup(s.ready) && NoDup(s.announced)
    && (forall i, j :: 0 <= i < j < |s.tornDown| ==> s.tornDown[i].id != s.tornDown[j].id)
  }

  ghost predicate Placed(s: State) {
    forall id: Id :: if id < s.next then InOnePlace(s, id) else Nowhere(s, id)
  }

  /** Announced: neither live nor in a retirement's hands. */
  ghost predicate Announcements(s: State) {
    forall id: Id :: id in s.announced <==> id < s.next && !Live(s, id) && id !in s.hand
  }

  /** Whatever was lost and is condemned has no counted call waiting in it; and none ever had. */
  ghost predicate NobodyInside(s: State) {
    && (forall id: Id :: id in s.ready ==> Waits(s, id) == 0)
    && (forall id: Id :: id in s.hand && s.hand[id] == Condemned(PageLost) ==> Waits(s, id) == 0)
    && (forall i :: 0 <= i < |s.tornDown| && s.tornDown[i].why.PageLost? ==> s.tornDown[i].waiting == 0)
  }

  /** A lost page's pending calls are told to give up before it is parked or condemned. */
  ghost predicate ToldToGiveUp(s: State) {
    && (forall id: Id :: id in s.parked || id in s.ready ==> id in s.abandoned)
    && (forall id: Id :: id in s.hand && (s.hand[id].Released? || s.hand[id] == Condemned(PageLost))
                         ==> id in s.abandoned)
    && (forall i :: 0 <= i < |s.tornDown| && s.tornDown[i].why.PageLost? ==> s.tornDown[i].id in s.abandoned)
  }

  ghost predicate Inv(s: State) {
    OnceEach(s) && Placed(s) && Announcements(s) && NobodyInside(s) && ToldToGiveUp(s)
  }

  // ---------------------------------------------------------------- every step keeps it

  lemma TornDownGrows(a: seq<Teardown>, e: Teardown)
    ensures forall i :: 0 <= i < |a + [e]| ==> (a + [e])[i] == if i < |a| then a[i] else e
  {
  }

  lemma TeardownAdds(s: State, s': State, e: Teardown, id: Id)
    requires s'.tornDown == s.tornDown + [e]
    ensures TornDown(s', id) <==> TornDown(s, id) || e.id == id
  {
    assert s'.tornDown[|s.tornDown|] == e;
    if TornDown(s, id) {
      var i :| 0 <= i < |s.tornDown| && s.tornDown[i].id == id;
      assert s'.tornDown[i] == s.tornDown[i];
    }
  }

  lemma TakingUnlists(s: State, n: Name, why: Why, id: Id)
    requires OnceEach(s) && n in s.modules
    ensures Live(Do(s, Take(n, why)), id) <==> Live(s, id) && id != s.modules[n]
  {
    var s' := Do(s, Take(n, why));
    if Live(s, id) && id != s.modules[n] {
      var m :| m in s.modules && s.modules[m] == id;
      assert m in s'.modules && s'.modules[m] == id;
    }
    if Live(s', id) {
      var m :| m in s'.modules && s'.modules[m] == id;
      assert m in s.modules && s.modules[m] == id && m != n;
    }
  }

  lemma LaunchingLists(s: State, n: Name, id: Id)
    requires n !in s.modules
    ensures Live(Do(s, Launch(n)), id) <==> Live(s, id) || id == s.next
  {
    var s' := Do(s, Launch(n));
    assert n in s'.modules && s'.modules[n] == s.next;
    if Live(s, id) {
      var m :| m in s.modules && s.modules[m] == id;
      assert m in s'.modules && s'.modules[m] == id;
    }
  }

  /** The table moves one instance at a time. */
  lemma LiveAfter(s: State, ev: Event, id: Id)
    requires OnceEach(s) && Can(s, ev)
    ensures ev.Launch? ==> (Live(Do(s, ev), id) <==> Live(s, id) || id == s.next)
    ensures ev.Take? && ev.n in s.modules ==> (Live(Do(s, ev), id) <==> Live(s, id) && id != s.modules[ev.n])
    ensures ev.Take? && ev.n in s.modules ==> Live(s, s.modules[ev.n])
    ensures !ev.Launch? && !ev.Take? ==> (Live(Do(s, ev), id) <==> Live(s, id))
  {
    if ev.Launch? {
      LaunchingLists(s, ev.n, id);
    } else if ev.Take? && ev.n in s.modules {
      TakingUnlists(s, ev.n, ev.why, id);
    }
  }

  lemma TornDownAfter(s: State, ev: Event, id: Id)
    requires Can(s, ev)
    ensures ev.TearDown? ==> (TornDown(Do(s, ev), id) <==> TornDown(s, id) || id == ev.id)
    ensures ev.TearDownReady? ==> (TornDown(Do(s, ev), id) <==> TornDown(s, id) || id == s.ready[0])
    ensures !ev.TearDown? && !ev.TearDownReady? ==> (TornDown(Do(s, ev), id) <==> TornDown(s, id))
  {
    var s' := Do(s, ev);
    if ev.TearDown? || ev.TearDownReady? {
      TeardownAdds(s, s', s'.tornDown[|s.tornDown|], id);
    }
  }

  lemma KeepsPlace(s: State, ev: Event, id: Id)
    requires OnceEach(s) && Placed(s) && Can(s, ev)
    ensures if id < Do(s, ev).next then InOnePlace(Do(s, ev), id) else Nowhere(Do(s, ev), id)
  {
    assert if id < s.next then InOnePlace(s, id) else Nowhere(s, id);
    LiveAfter(s, ev, id);
    TornDownAfter(s, ev, id);
    if ev.Sweep? {
      SweepSharesOut(s.parked, Waiting(s));
    } else if ev.TearDownReady? {
      assert s.ready == [s.ready[0]] + s.ready[1..];
    }
  }

  lemma KeepsTeardownsApart(s: State, ev: Event)
    requires Inv(s) && Can(s, ev)
    ensures forall i, j :: 0 <= i < j < |Do(s, ev).tornDown| ==> Do(s, ev).tornDown[i].id != Do(s, ev).tornDown[j].id
  {
    var s' := Do(s, ev);
    if ev.TearDown? || ev.TearDownReady? {
      var e := s'.tornDown[|s.tornDown|];
      assert e.id < s.next && InOnePlace(s, e.id) by {
        assert ev.TearDown? ==> InHand(s, e.id);
        assert if e.id < s.next then InOnePlace(s, e.id) else Nowhere(s, e.id);
      }
      assert !TornDown(s, e.id);
      forall i, j | 0 <= i < j < |s'.tornDown|
        ensures s'.tornDown[i].id != s'.tornDown[j].id
      {
        assert s.tornDown[i].id != e.id;
      }
    }
  }

  lemma KeepsOnce(s: State, ev: Event)
    requires Inv(s) && Can(s, ev)
    ensures OnceEach(Do(s, ev))
  {
    KeepsTeardownsApart(s, ev);
    match ev
    case Launch(n) =>
      assert Nowhere(s, s.next);
      forall m | m in s.modules
        ensures s.modules[m] != s.next
      {
        assert !Live(s, s.next);
      }
    case Decide(id) =>
      assert if id < s.next then InOnePlace(s, id) else Nowhere(s, id);
      assert InHand(s, id);
    case Announce(id) => assert id in s.hand;
    case Sweep => SweepSharesOut(s.parked, Waiting(s));
    case _ =>
  }

  lemma KeepsAnnouncements(s: State, ev: Event)
    requires Inv(s) && Can(s, ev)
    ensures Announcements(Do(s, ev))
  {
    var s' := Do(s, ev);
    forall id: Id
      ensures id in s'.announced <==> id < s'.next && !Live(s', id) && id !in s'.hand
    {
      LiveAfter(s, ev, id);
      assert if id < s.next then InOnePlace(s, id) else Nowhere(s, id);
      if ev.Announce? {
        assert if ev.id < s.next then InOnePlace(s, ev.id) else Nowhere(s, ev.id);
      }
    }
  }

  lemma ReadyTeardownKeepsNobodyInside(s: State)
    requires NobodyInside(s) && s.ready != []
    ensures NobodyInside(Do(s, TearDownReady))
  {
    var s', id := Do(s, TearDownReady), s.ready[0];
    assert id in s.ready;
    TornDownGrows(s.tornDown, Teardown(id, PageLost, Waits(s, id), Blocked(s, id)));
    forall x: Id | x in s'.ready
      ensures Waits(s', x) == 0
    {
      assert x in s.ready;
    }
  }

  lemma SweepKeepsNobodyInside(s: State)
    requires OnceEach(s) && NobodyInside(s) && Can(s, Sweep)
    ensures NobodyInside(Do(s, Sweep))
  {
    SweepSharesOut(s.parked, Waiting(s));
    forall id: Id | id in Do(s, Sweep).ready
      ensures Waits(s, id) == 0
    {
      assert id !in Waiting(s);
    }
  }

  /** A page that is condemned or lifted out takes no more calls, so once no counted call waits in it it stays so. */
  lemma KeepsNobodyInside(s: State, ev: Event)
    requires Inv(s) && Can(s, ev)
    ensures NobodyInside(Do(s, ev))
  {
    var s' := Do(s, ev);
    match ev
    case BeginWait(id) => assert if id < s.next then InOnePlace(s, id) else Nowhere(s, id);
    case Sweep => SweepKeepsNobodyInside(s);
    case TearDown(id) => TornDownGrows(s.tornDown, s'.tornDown[|s.tornDown|]);
    case TearDownReady => ReadyTeardownKeepsNobodyInside(s);
    case _ =>
  }

  lemma KeepsToldToGiveUp(s: State, ev: Event)
    requires OnceEach(s) && ToldToGiveUp(s) && Can(s, ev)
    ensures ToldToGiveUp(Do(s, ev))
  {
    var s' := Do(s, ev);
    assert forall id: Id :: id in s.abandoned ==> id in s'.abandoned;
    if ev.Sweep? {
      SweepSharesOut(s.parked, Waiting(s));
    } else if ev.TearDown? || ev.TearDownReady? {
      TornDownGrows(s.tornDown, s'.tornDown[|s.tornDown|]);
      assert ev.TearDownReady? ==> s.ready == [s.ready[0]] + s'.ready;
    }
  }

  /** The invariant holds after every legal run. */
  lemma {:induction false} RunsKeepInv(evs: seq<Event>)
    requires Legal(evs)
    ensures Inv(After(evs))
  {
    if evs != [] {
      var front, ev := evs[..|evs| - 1], evs[|evs| - 1];
      RunsKeepInv(front);
      var s := After(front);
      KeepsOnce(s, ev);
      forall id: Id
        ensures if id < Do(s, ev).next then InOnePlace(Do(s, ev), id) else Nowhere(Do(s, ev), id)
      {
        KeepsPlace(s, ev, id);
      }
      KeepsAnnouncements(s, ev);
      KeepsNobodyInside(s, ev);
      KeepsToldToGiveUp(s, ev);
    }
  }

  // ---------------------------------------------------------------- what may be relied on

  /** No retirement or sweep is part way through. */
  predicate AtRest(s: State) {
    s.hand == map[] && s.ready == []
  }

  /**
   * Between the main thread's steps every instance ever published is live, parked or torn down, and only one of
   * them.
   */
  lemma {:induction false} InstancesAreConserved(evs: seq<Event>, id: Id)
    requires Legal(evs) && AtRest(After(evs)) && id < After(evs).next
    ensures Live(After(evs), id) || id in After(evs).parked || TornDown(After(evs), id)
    ensures Live(After(evs), id) ==> id !in After(evs).parked && !TornDown(After(evs), id)
    ensures id in After(evs).parked ==> !TornDown(After(evs), id)
    ensures id in After(evs).announced <==> !Live(After(evs), id)
  {
    RunsKeepInv(evs);
    assert InOnePlace(After(evs), id);
  }

  /** However many deaths and unloads race for an instance, it is announced and torn down at most once. */
  lemma {:induction false} AnnouncedAndTornDownOnce(evs: seq<Event>)
    requires Legal(evs)
    ensures NoDup(After(evs).announced)
    ensures forall i, j :: 0 <= i < j < |After(evs).tornDown| ==> After(evs).tornDown[i].id != After(evs).tornDown[j].id
    ensures forall id: Id :: id in After(evs).announced || TornDown(After(evs), id)
                             ==> id < After(evs).next && !Live(After(evs), id)
  {
    RunsKeepInv(evs);
    forall id: Id
      ensures id in After(evs).announced || TornDown(After(evs), id) ==> id < After(evs).next && !Live(After(evs), id)
    {
      assert if id < After(evs).next then InOnePlace(After(evs), id) else Nowhere(After(evs), id);
    }
  }

  /** A call of either kind was inside the page when it was destroyed. */
  predicate UnderACall(e: Teardown) {
    e.waiting > 0 || e.blocked > 0
  }

  /**
   * A lost page is never destroyed, by its retirement or by a sweep, while a call waits in it on the Qt main
   * thread, and those calls were told to give up before.
   */
  lemma {:induction false} LostPagesOutliveTheirWaits(evs: seq<Event>, i: nat)
    requires Legal(evs) && i < |After(evs).tornDown| && After(evs).tornDown[i].why.PageLost?
    ensures After(evs).tornDown[i].waiting == 0 && After(evs).tornDown[i].id in After(evs).abandoned
    ensures UnderACall(After(evs).tornDown[i]) <==> After(evs).tornDown[i].blocked > 0
  {
    RunsKeepInv(evs);
  }

  /** This step destroys that lost page. */
  ghost predicate DestroysLost(s: State, ev: Event, id: Id) {
    && Can(s, ev)
    && ((ev == TearDown(id) && s.hand[id].why.PageLost?) || (ev.TearDownReady? && s.ready[0] == id))
  }

  /** So a lost page is destroyed under a call if and only if a call then blocks a thread other than Qt's. */
  lemma DestroyedUnderACallIff(evs: seq<Event>, ev: Event, id: Id)
    requires Legal(evs) && DestroysLost(After(evs), ev, id)
    ensures var s, s' := After(evs), Do(After(evs), ev);
            && |s'.tornDown| == |s.tornDown| + 1 && s'.tornDown[|s.tornDown|].id == id
            && (UnderACall(s'.tornDown[|s.tornDown|]) <==> Blocked(s, id) > 0)
  {
    RunsKeepInv(evs);
    assert ev.TearDownReady? ==> id in After(evs).ready;
  }

  ghost predicate NobodyBlocks(evs: seq<Event>) {
    forall i :: 0 <= i < |evs| ==> !evs[i].Block?
  }

  /** In runs whose calls are all made on the Qt main thread no lost page is destroyed under any. */
  lemma {:induction false} CallsOnTheQtThreadAreSafe(evs: seq<Event>, i: nat)
    requires Legal(evs) && NobodyBlocks(evs)
    requires i < |After(evs).tornDown| && After(evs).tornDown[i].why.PageLost?
    ensures !UnderACall(After(evs).tornDown[i])
  {
    LostPagesOutliveTheirWaits(evs, i);
    RunsUnblocked(evs);
  }

  /** No call blocks another thread, nor did when a page was torn down. */
  ghost predicate NothingBlocked(s: State) {
    && (forall id: Id :: Blocked(s, id) == 0)
    && (forall i :: 0 <= i < |s.tornDown| ==> s.tornDown[i].blocked == 0)
  }

  lemma StepsUnblocked(s: State, ev: Event)
    requires NothingBlocked(s) && Can(s, ev) && !ev.Block?
    ensures NothingBlocked(Do(s, ev))
  {
    var s' := Do(s, ev);
    assert s'.blocked == s.blocked;
    assert forall id: Id :: Blocked(s', id) == Blocked(s, id);
    if ev.TearDown? || ev.TearDownReady? {
      TornDownGrows(s.tornDown, s'.tornDown[|s.tornDown|]);
    }
  }

  lemma {:induction false} RunsUnblocked(evs: seq<Event>)
    requires Legal(evs) && NobodyBlocks(evs)
    ensures NothingBlocked(After(evs))
  {
    if evs != [] {
      var front, ev := evs[..|evs| - 1], evs[|evs| - 1];
      RunsUnblocked(front);
      StepsUnblocked(After(front), ev);
    }
  }

  lemma Then(evs: seq<Event>, ev: Event)
    requires Legal(evs) && Can(After(evs), ev)
    ensures Legal(evs + [ev]) && After(evs + [ev]) == Do(After(evs), ev)
  {
    assert (evs + [ev])[..|evs|] == evs;
  }

  /**
   * And a sweep leaves parked exactly those the counter still reports, whatever blocks elsewhere, so a page whose
   * counted waits have ended goes in the next one.
   */
  lemma SweepTakesTheRest(s: State, id: Id)
    requires NoDup(s.parked) && Can(s, Sweep)
    ensures id in Do(s, Sweep).parked <==> id in s.parked && Waits(s, id) > 0
    ensures id in Do(s, Sweep).ready <==> id in s.parked && Waits(s, id) == 0
  {
    SweepSharesOut(s.parked, Waiting(s));
    assert id in Waiting(s) <==> Waits(s, id) > 0;
  }

  // ---------------------------------------------------------------- the container's methods are these steps

  function Ids(tornDown: seq<Teardown>): seq<Id> {
    seq(|tornDown|, i requires 0 <= i < |tornDown| => tornDown[i].id)
  }

  function Shelved(s: State): Shelf {
    Shelf(s.modules, s.parked, Ids(s.tornDown), s.announced, s.abandoned)
  }

  ghost predicate Leads(s: State, evs: seq<Event>, s': State)
    decreases |evs|
  {
    if evs == [] then s' == s else Can(s, evs[0]) && Leads(Do(s, evs[0]), evs[1..], s')
  }

  lemma LeadsOn(s: State, ev: Event, rest: seq<Event>, s': State)
    requires Can(s, ev) && Leads(Do(s, ev), rest, s')
    ensures Leads(s, [ev] + rest, s')
  {
    assert ([ev] + rest)[1..] == rest;
  }

  /** A retirement that is condemned is torn down and announced. */
  lemma TearsDownAndAnnounces(s: State, id: Id, why: Why) returns (evs: seq<Event>, s': State)
    requires s.hand == map[id := Condemned(why)]
    ensures Leads(s, evs, s') && s'.hand == map[] && s'.ready == s.ready && s'.waits == s.waits
    ensures Shelved(s') == Shelved(s).(tornDown := Ids(s.tornDown) + [id], announced := s.announced + [id])
  {
    var told := Do(s, TearDown(id));
    s' := Do(told, Announce(id));
    assert Leads(s', [], s');
    LeadsOn(told, Announce(id), [], s');
    LeadsOn(s, TearDown(id), [Announce(id)] + [], s');
    evs := [TearDown(id)] + ([Announce(id)] + []);
  }

  lemma Announces(s: State, id: Id) returns (evs: seq<Event>, s': State)
    requires s.hand == map[id := Told]
    ensures Leads(s, evs, s') && s'.hand == map[] && s'.ready == s.ready && s'.waits == s.waits
    ensures Shelved(s') == Shelved(s).(announced := s.announced + [id])
  {
    s' := Do(s, Announce(id));
    assert Leads(s', [], s');
    LeadsOn(s, Announce(id), [], s');
    evs := [Announce(id)] + [];
  }

  /** What a retirement decides, once its waits were told to give up or it was an unload. */
  lemma DecidesAndEnds(s: State, id: Id) returns (evs: seq<Event>, s': State)
    requires s.hand == map[id := Taken(UnloadAsked)] || s.hand == map[id := Released]
    ensures Leads(s, evs, s') && s'.hand == map[] && s'.ready == s.ready && s'.waits == s.waits
    ensures var park := s.hand[id].Released? && id in Waiting(s);
            Shelved(s') == Shelved(s).(retired := s.parked + if park then [id] else [],
                                       tornDown := Ids(s.tornDown) + if park then [] else [id],
                                       announced := s.announced + [id])
  {
    var decided := Do(s, Decide(id));
    assert id in Waiting(s) <==> Waits(s, id) > 0;
    if s.hand[id].Released? && Waits(s, id) > 0 {
      evs, s' := Announces(decided, id);
    } else {
      evs, s' := TearsDownAndAnnounces(decided, id, if s.hand[id].Released? then PageLost else UnloadAsked);
    }
    LeadsOn(s, Decide(id), evs, s');
    evs := [Decide(id)] + evs;
  }

  /** With nothing under way, the protocol's steps for one retirement do to the shelf what the method does. */
  lemma RetireIsTheseSteps(s: State, n: Name, why: Why) returns (evs: seq<Event>, s': State)
    requires s.hand == map[] && n in s.modules
    ensures Leads(s, evs, s') && s'.hand == map[]
    ensures Shelved(s') == Retiring(Shelved(s), n, why, Waiting(s))
  {
    var id, taken := s.modules[n], Do(s, Take(n, why));
    if why.PageLost? {
      var released := Do(taken, Release(id));
      evs, s' := DecidesAndEnds(released, id);
      LeadsOn(taken, Release(id), evs, s');
      evs := [Release(id)] + evs;
    } else {
      evs, s' := DecidesAndEnds(taken, id);
    }
    LeadsOn(s, Take(n, why), evs, s');
    evs := [Take(n, why)] + evs;
  }

  lemma {:induction false} TearsDownAllReady(s: State) returns (evs: seq<Event>, s': State)
    ensures Leads(s, evs, s') && s'.ready == []
    ensures Shelved(s') == Shelved(s).(tornDown := Ids(s.tornDown) + s.ready)
    decreases |s.ready|
  {
    evs, s' := [], s;
    if s.ready != [] {
      var next := Do(s, TearDownReady);
      evs, s' := TearsDownAllReady(next);
      assert Ids(next.tornDown) + next.ready == Ids(s.tornDown) + s.ready;
      LeadsOn(s, TearDownReady, evs, s');
      evs := [TearDownReady] + evs;
    }
  }

  /** And a sweep with its teardowns does what the sweeping method does. */
  lemma SweepIsTheseSteps(s: State) returns (evs: seq<Event>, s': State)
    requires s.ready == []
    ensures Leads(s, evs, s') && s'.ready == [] && Shelved(s') == Swept(Shelved(s), Waiting(s))
  {
    var lifted := Do(s, Sweep);
    evs, s' := TearsDownAllReady(lifted);
    LeadsOn(s, Sweep, evs, s');
    evs := [Sweep] + evs;
  }
}
