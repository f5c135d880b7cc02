/** Runs of the retirement protocol: a page parked until its calls are over, and one destroyed under a call. */
module RetirementRuns {
  import opened Names
  import opened WebContainer
  import opened RetirementProtocol

  /** The only page there is is lost, or about to be, with `waits` counted calls inside. */
  function Losing(hand: map<Id, Stage>, parked: seq<Id>, waits: nat, announced: seq<Id>, abandoned: seq<Id>): State {
    START.(hand := hand, parked := parked, waits := map[0 := waits], next := 1, announced := announced,
           abandoned := abandoned)
  }

  lemma Step(evs: seq<Event>, ev: Event) returns (longer: seq<Event>)
    requires Legal(evs) && Can(After(evs), ev)
    ensures Legal(longer) && After(longer) == Do(After(evs), ev)
  {
    Then(evs, ev);
    longer := evs + [ev];
  }

  lemma CalledIn(n: Name) returns (evs: seq<Event>)
    ensures Legal(evs) && After(evs) == START.(modules := map[n := 0], waits := map[0 := 1], next := 1)
  {
    evs := Step([], Launch(n));
    assert n in After(evs).modules && After(evs).modules[n] == 0;
    evs := Step(evs, BeginWait(0));
  }

  /** A page dies with a call inside; another begins before its retirement decides. */
  lemma LostWithTwoInside(n: Name) returns (evs: seq<Event>)
    ensures Legal(evs) && After(evs) == Losing(map[0 := Released], [], 2, [], [0])
  {
    evs := CalledIn(n);
    evs := Step(evs, Take(n, PageLost));
    assert After(evs) == Losing(map[0 := Taken(PageLost)], [], 1, [], []);
    evs := Step(evs, BeginWait(0));
    evs := Step(evs, Release(0));
  }

  lemma ParkedWithTwoInside(n: Name) returns (evs: seq<Event>)
    ensures Legal(evs) && After(evs) == Losing(map[], [0], 2, [0], [0])
  {
    evs := LostWithTwoInside(n);
    evs := Step(evs, Decide(0));
    assert After(evs) == Losing(map[0 := Told], [0], 2, [], [0]);
    evs := Step(evs, Announce(0));
  }

  /** It is parked and announced, and a sweep leaves it where it is while a call is still inside. */
  lemma ParkedMeanwhile(n: Name) returns (evs: seq<Event>)
    ensures Legal(evs) && After(evs) == Losing(map[], [0], 1, [0], [0])
  {
    evs := ParkedWithTwoInside(n);
    evs := Step(evs, EndWait(0));
    assert After(evs) == Losing(map[], [0], 1, [0], [0]);
    evs := Step(evs, Sweep);
    assert Waiting(After(evs)) == {0};
    assert StillWaiting([0], {0}) == StillWaiting([], {0}) + [0];
    assert NoLongerWaiting([0], {0}) == NoLongerWaiting([], {0}) + [];
  }

  /** Parked, it takes one more call. */
  lemma CallsAreOver(n: Name) returns (evs: seq<Event>)
    ensures Legal(evs) && After(evs) == Losing(map[], [0], 0, [0], [0])
  {
    evs := ParkedMeanwhile(n);
    evs := Step(evs, BeginWait(0));
    assert After(evs) == Losing(map[], [0], 2, [0], [0]);
    evs := Step(evs, EndWait(0));
    evs := Step(evs, EndWait(0));
  }

  /** When both are over the next sweep has it torn down, nobody inside. */
  lemma TornDownByASweep(n: Name) returns (evs: seq<Event>)
    ensures Legal(evs) && AtRest(After(evs)) && After(evs).parked == []
    ensures After(evs).tornDown == [Teardown(0, PageLost, 0, 0)] && After(evs).announced == [0]
  {
    evs := CallsAreOver(n);
    assert StillWaiting([0], {}) == StillWaiting([], {}) + [];
    assert NoLongerWaiting([0], {}) == NoLongerWaiting([], {}) + [0];
    evs := Step(evs, Sweep);
    assert After(evs).ready == [0] && After(evs).parked == [] && After(evs).waits == map[0 := 0];
    evs := Step(evs, TearDownReady);
  }

  lemma BlockedInThePark(n: Name) returns (evs: seq<Event>)
    ensures Legal(evs) && After(evs) == Losing(map[], [0], 0, [0], [0]).(blocked := map[0 := 0])
  {
    evs := ParkedMeanwhile(n);
    evs := Step(evs, Block(0));
    assert After(evs) == Losing(map[], [0], 1, [0], [0]).(blocked := map[0 := 1]);
    evs := Step(evs, Unblock(0));
    assert After(evs) == Losing(map[], [0], 1, [0], [0]).(blocked := map[0 := 0]);
    evs := Step(evs, EndWait(0));
  }

  /** A call from another thread may come and go in a parked page, and come in one already lifted out. */
  lemma BlockedWhereItStands(n: Name) returns (evs: seq<Event>)
    ensures Legal(evs) && After(evs).ready == [0] && After(evs).blocked == map[0 := 1]
  {
    evs := BlockedInThePark(n);
    assert NoLongerWaiting([0], {}) == NoLongerWaiting([], {}) + [0];
    evs := Step(evs, Sweep);
    assert After(evs).ready == [0] && After(evs).blocked == map[0 := 0];
    evs := Step(evs, Block(0));
  }

  /** A thread asks the only page there is whether it serves yet, and waits for the answer. */
  lemma AskedElsewhere(n: Name) returns (evs: seq<Event>)
    ensures Legal(evs) && After(evs) == START.(modules := map[n := 0], blocked := map[0 := 1], next := 1)
  {
    Then([], Launch(n));
    evs := [] + [Launch(n)];
    assert After(evs).modules[n] == 0;
    Then(evs, Block(0));
    evs := evs + [Block(0)];
  }

  /** The page dies meanwhile, and its retirement finds no wait it could end. */
  lemma LostMeanwhile(n: Name) returns (evs: seq<Event>)
    ensures Legal(evs) && After(evs) ==
                          START.(hand := map[0 := Released], blocked := map[0 := 1], next := 1, abandoned := [0])
  {
    evs := AskedElsewhere(n);
    Then(evs, Take(n, PageLost));
    evs := evs + [Take(n, PageLost)];
    assert After(evs) == START.(hand := map[0 := Taken(PageLost)], blocked := map[0 := 1], next := 1);
    Then(evs, Release(0));
    evs := evs + [Release(0)];
  }

  /** And it happens: there being nothing to park the page for, it is destroyed under the call. */
  lemma LostPageDestroyedUnderACall(n: Name) returns (evs: seq<Event>)
    ensures Legal(evs) && |After(evs).tornDown| == 1
    ensures After(evs).tornDown[0].why.PageLost? && UnderACall(After(evs).tornDown[0])
    ensures Blocked(After(evs), After(evs).tornDown[0].id) == 1
  {
    evs := LostMeanwhile(n);
    Then(evs, Decide(0));
    evs := evs + [Decide(0)];
    assert After(evs).hand == map[0 := Condemned(PageLost)];
    Then(evs, TearDown(0));
    evs := evs + [TearDown(0)];
  }
}
