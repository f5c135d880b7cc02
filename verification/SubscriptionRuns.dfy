/**
 * Whole lives of a page's subscriptions, and runs in which an id is lost, or left armed by stop without the page
 * having taken its subscription back.
 */
module SubscriptionRuns {
  import opened Names
  import opened WebCallRouter
  import opened SubscriptionProtocol

  lemma Then(evs: seq<Event>, ev: Event) returns (longer: seq<Event>)
    requires Legal(evs) && Can(After(evs), ev)
    ensures Legal(longer) && After(longer) == Do(After(evs), ev)
    ensures EverMissing(longer) <==> EverMissing(evs) || ClientMissing(After(evs), ev)
    ensures Calm(longer) <==> Calm(evs) && !Intrudes(After(evs), ev)
  {
    longer := evs + [ev];
    assert longer[..|evs|] == evs;
  }

  /** The page subscribes, and the subscribe waits for its client. */
  lemma Asked(evs: seq<Event>, k: Key, sink: Sink) returns (longer: seq<Event>)
    requires Legal(evs) && k !in After(evs).sinks && After(evs).phase.Open?
    requires After(evs).toPost == [] && After(evs).posted == []
    ensures var s := After(evs);
            Legal(longer)
            && After(longer) == s.(sinks := s.sinks[k := sink], inside := s.inside + [k], ran := s.ran + [Sub(k)])
            && (EverMissing(longer) <==> EverMissing(evs)) && (Calm(longer) <==> Calm(evs) && s.inside == [])
  {
    longer := Then(evs, Subscribe(k, sink));
    longer := Then(longer, Post);
    assert After(longer).posted == [Sub(k)] && After(longer).toPost == [];
    longer := Then(longer, Run(true));
  }

  /** The page unsubscribes, and the withdrawal runs. */
  lemma TakenBack(evs: seq<Event>, k: Key, found: bool) returns (longer: seq<Event>)
    requires Legal(evs) && k in After(evs).sinks && After(evs).phase.Open? && After(evs).late == {}
    requires After(evs).toPost == [] && After(evs).posted == []
    ensures var s := After(evs);
            Legal(longer) && After(longer) == s.(sinks := s.sinks - {k}, ran := s.ran + [Unsub(k)],
                                                 routes := Withdrawn(s.routes, k, found))
            && (EverMissing(longer) <==> EverMissing(evs) || (k in s.routes.ids && !found))
            && (Calm(longer) <==> Calm(evs) && s.inside == [])
  {
    longer := Then(evs, Unsubscribe(k));
    longer := Then(longer, Post);
    assert After(longer).posted == [Unsub(k)] && After(longer).toPost == [];
    longer := Then(longer, Run(found));
  }

  /** The client answers when asked, and is gone when its id is to be cancelled. */
  lemma LostWithItsClient(k: Key, sink: Sink) returns (evs: seq<Event>)
    ensures Legal(evs) && Calm(evs) && After(evs).routes == Routes(map[], 1, [], [0])
  {
    evs := Asked([], k, sink);
    evs := Then(evs, Answer(true));
    assert After(evs).routes == Routes(map[k := 0], 1, [], []) && After(evs).late == {};
    evs := TakenBack(evs, k, false);
  }

  lemma AskedAgain(k: Key, sink: Sink) returns (evs: seq<Event>)
    ensures Legal(evs) && !EverMissing(evs)
    ensures After(evs) == START.(sinks := map[k := sink], inside := [k, k], ran := [Sub(k), Unsub(k), Sub(k)])
  {
    evs := Asked([], k, sink);
    assert After(evs).ran == [Sub(k)] && After(evs).inside == [k];
    evs := TakenBack(evs, k, true);
    assert After(evs).ran == [Sub(k), Unsub(k)] && After(evs).sinks == map[] && After(evs).routes == NO_ROUTES;
    evs := Asked(evs, k, sink);
  }

  /** The page takes a subscription back and asks again while the first subscribe still waits: two ids, one place. */
  lemma LostToALaterOne(k: Key, sink: Sink) returns (evs: seq<Event>)
    ensures Legal(evs) && After(evs).phase.Open? && !EverMissing(evs) && After(evs).inside == []
    ensures After(evs).routes == Routes(map[k := 1], 2, [], [0])
  {
    evs := AskedAgain(k, sink);
    evs := Then(evs, Answer(true));
    assert After(evs).routes == Routes(map[k := 0], 1, [], []) && After(evs).inside == [k];
    evs := Then(evs, Answer(true));
  }

  /** Stop comes while a subscribe waits. */
  lemma StoppedInside(k: Key, sink: Sink) returns (evs: seq<Event>)
    ensures Legal(evs) && After(evs) == START.(inside := [k], phase := Closed, ran := [Sub(k)])
  {
    evs := Asked([], k, sink);
    evs := Then(evs, StopBegins([k]));
    assert After(evs) == START.(inside := [k], phase := Withdrawing([k]), ran := [Sub(k)]);
    evs := Then(evs, Withdraw(true));
    evs := Then(evs, CloseGate);
  }

  /** The id it is then granted stays, though the page never unsubscribed. */
  lemma LeftArmedByStop(k: Key, sink: Sink) returns (evs: seq<Event>)
    ensures Legal(evs) && After(evs).phase.Closed? && After(evs).inside == []
    ensures After(evs).routes == Routes(map[k := 0], 1, [], []) && After(evs).sinks == map[]
    ensures After(evs).dropped == [] && Pending(After(evs)) == [] && After(evs).late == {k}
  {
    evs := StoppedInside(k, sink);
    evs := Then(evs, Answer(true));
  }

  lemma WithdrawalPosted(k: Key, sink: Sink) returns (evs: seq<Event>)
    ensures Legal(evs) && Calm(evs)
    ensures After(evs) == START.(posted := [Unsub(k)], routes := Routes(map[k := 0], 1, [], []), ran := [Sub(k)])
  {
    evs := ArmedOnce(k, sink);
    evs := Then(evs, ConnectionClosed([k]));
    assert UnsubEach([k]) == [Unsub(k)];
    evs := Then(evs, Post);
  }

  /** A page that goes away has its subscription withdrawn and its id cancelled. */
  lemma WithdrawnWithThePage(k: Key, sink: Sink) returns (evs: seq<Event>)
    ensures Legal(evs) && Calm(evs) && After(evs).sinks == map[] && Pending(After(evs)) == []
    ensures After(evs).routes == Routes(map[], 1, [0], []) && After(evs).ran == [Sub(k), Unsub(k)]
  {
    evs := WithdrawalPosted(k, sink);
    evs := Then(evs, Run(true));
  }

  lemma ArmedOnce(k: Key, sink: Sink) returns (evs: seq<Event>)
    ensures Legal(evs) && Calm(evs)
    ensures After(evs) == START.(sinks := map[k := sink], routes := Routes(map[k := 0], 1, [], []), ran := [Sub(k)])
  {
    evs := Asked([], k, sink);
    evs := Then(evs, Answer(true));
  }

  /** One that is stopped has it withdrawn by the stop, which leaves an empty table and a closed gate. */
  lemma WithdrawnByStop(k: Key, sink: Sink) returns (evs: seq<Event>)
    ensures Legal(evs) && After(evs) == START.(routes := Routes(map[], 1, [0], []), phase := Closed, ran := [Sub(k)])
  {
    evs := ArmedOnce(k, sink);
    evs := Then(evs, StopBegins([k]));
    assert After(evs).phase == Withdrawing([k]) && After(evs).sinks == map[];
    evs := Then(evs, Withdraw(true));
    evs := Then(evs, CloseGate);
  }

  /** What comes after is dropped, in its order. */
  lemma DroppedAfterStop(k: Key, sink: Sink) returns (evs: seq<Event>)
    ensures Legal(evs) && After(evs).phase.Closed? && After(evs).routes == Routes(map[], 1, [0], [])
    ensures After(evs).dropped == [Sub(k), Unsub(k)] && After(evs).ran == [Sub(k)] && After(evs).inside == []
  {
    evs := WithdrawnByStop(k, sink);
    evs := Then(evs, Subscribe(k, sink));
    evs := Then(evs, Post);
    evs := Then(evs, Run(true));
    assert After(evs).dropped == [Sub(k)] && After(evs).posted == [] && After(evs).toPost == [];
    evs := Then(evs, Unsubscribe(k));
    evs := Then(evs, Post);
    assert After(evs).posted == [Unsub(k)];
    evs := Then(evs, Run(true));
  }

  /** And what stop leaves armed the routes cancel when they are destroyed. */
  lemma CancelledWithTheRoutes(k: Key, sink: Sink) returns (evs: seq<Event>)
    ensures Legal(evs) && After(evs).phase.Gone? && After(evs).routes == Routes(map[], 1, [0], [])
  {
    evs := LeftArmedByStop(k, sink);
    assert Elems([k]) == {k};
    evs := Then(evs, Destroy([k], {k}));
    assert WithdrawnAll(Routes(map[k := 0], 1, [], []), [k], {k})
        == Withdrawn(WithdrawnAll(Routes(map[k := 0], 1, [], []), [], {k}), k, true);
  }
}
