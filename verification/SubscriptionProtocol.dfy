/**
 * A page's subscriptions: the delivery thread edits the table and posts, the main thread runs what was posted, and
 * stop may come at any moment, also from inside a subscribe that waits for its client.
 */
module SubscriptionProtocol {
  import opened Names
  import opened WebCallRouter

  /** How far stop, and then the destruction of the routes, has come. The gate is open until `Closed`. */
  datatype Phase = Open | Withdrawing(left: seq<Key>) | Closed | Gone

  /**
   * `toPost` is what the delivery thread has decided but not yet posted. `inside` are the subscribes whose client
   * has not answered yet, the innermost last. `ran` and `dropped` are history, and `late` are the pairs that hold an
   * id stored when they were no longer requested, or when stop had begun.
   */
  datatype State = State(sinks: Sinks, toPost: seq<Op>, posted: seq<Op>, inside: seq<Key>, routes: Routes,
                         phase: Phase, ran: seq<Op>, dropped: seq<Op>, late: set<Key>)

  datatype Event =
    | Subscribe(k: Key, sink: Sink) | Unsubscribe(k: Key) | ConnectionClosed(keys: seq<Key>) | Post
    | Run(found: bool) | Answer(granted: bool)
    | StopBegins(keys: seq<Key>) | Withdraw(found: bool) | CloseGate | Destroy(keys: seq<Key>, clients: set<Key>)

  const START := State(map[], [], [], [], NO_ROUTES, Open, [], [], {})

  ghost predicate Can(s: State, ev: Event) {
    match ev
    case Subscribe(_, _) => s.toPost == []
    case Unsubscribe(_) => s.toPost == []
    case ConnectionClosed(keys) => s.toPost == [] && NoDup(keys) && Elems(keys) == s.sinks.Keys
    case Post => s.toPost != []
    case Run(_) => s.posted != []
    case Answer(_) => s.inside != []
    case StopBegins(keys) => s.phase.Open? && NoDup(keys) && Elems(keys) == s.sinks.Keys
    case Withdraw(_) => s.phase.Withdrawing? && s.phase.left != []
    case CloseGate => s.phase.Withdrawing? && s.phase.left == []
    case Destroy(keys, _) => s.phase.Closed? && NoDup(keys) && Elems(keys) == s.routes.ids.Keys
  }

  function UnsubEach(keys: seq<Key>): seq<Op> {
    seq(|keys|, i requires 0 <= i < |keys| => Unsub(keys[i]))
  }

  predicate GateOpen(s: State) {
    s.phase.Open? || s.phase.Withdrawing?
  }

  /** One posted operation, under the open gate: a subscribe asks its client, an unsubscribe takes the id back. */
  function Carried(s: State, op: Op, found: bool): State {
    match op
    case Sub(k) => s.(inside := s.inside + [k])
    case Unsub(k) => s.(routes := Withdrawn(s.routes, k, found), late := s.late - {k})
  }

  /** The innermost subscribe's pair has been unsubscribed since, or stop has begun. */
  predicate TooLate(s: State)
    requires s.inside != []
  {
    !s.phase.Open? || s.inside[|s.inside| - 1] !in Host(s)
  }

  /** The client has granted an id. */
  function Granted(s: State): State
    requires s.inside != []
  {
    var k := s.inside[|s.inside| - 1];
    if s.phase.Gone? then s.(routes := Strayed(s.routes))
    else s.(routes := Armed(s.routes, k), late := if TooLate(s) then s.late + {k} else s.late - {k})
  }

  ghost function Do(s: State, ev: Event): State
    requires Can(s, ev)
  {
    match ev
    case Subscribe(k, sink) => s.(sinks := s.sinks[k := sink], toPost := SubscribePosts(s.sinks, k))
    case Unsubscribe(k) => s.(sinks := s.sinks - {k}, toPost := UnsubscribePosts(s.sinks, k))
    case ConnectionClosed(keys) => s.(sinks := map[], toPost := UnsubEach(keys))
    case Post => s.(toPost := s.toPost[1..], posted := s.posted + [s.toPost[0]])
    case Run(found) =>
      var op, s' := s.posted[0], s.(posted := s.posted[1..]);
      if GateOpen(s) then Carried(s'.(ran := s.ran + [op]), op, found) else s'.(dropped := s.dropped + [op])
    case Answer(granted) =>
      (if granted then Granted(s) else s).(inside := s.inside[..|s.inside| - 1])
    case StopBegins(keys) => s.(sinks := map[], phase := Withdrawing(keys))
    case Withdraw(found) =>
      var k := s.phase.left[0];
      s.(routes := Withdrawn(s.routes, k, found), late := s.late - {k}, phase := Withdrawing(s.phase.left[1..]))
    case CloseGate => s.(phase := Closed)
    case Destroy(keys, clients) => s.(routes := WithdrawnAll(s.routes, keys, clients), late := {}, phase := Gone)
  }

  ghost predicate Legal(evs: seq<Event>)
    decreases |evs|, 0
  {
    evs == [] || (Legal(evs[..|evs| - 1]) && Can(After(evs[..|evs| - 1]), evs[|evs| - 1]))
  }

  ghost function After(evs: seq<Event>): State
    requires Legal(evs)
    decreases |evs|, 1
  {
    if evs == [] then START else Do(After(evs[..|evs| - 1]), evs[|evs| - 1])
  }

  // ---------------------------------------------------------------- operations applied to what the host was asked for

  function Toggled(host: set<Key>, op: Op): set<Key> {
    match op
    case Sub(k) => host + {k}
    case Unsub(k) => host - {k}
  }

  function Requested(host: set<Key>, ops: seq<Op>): set<Key>
    decreases |ops|
  {
    if ops == [] then host else Toggled(Requested(host, ops[..|ops| - 1]), ops[|ops| - 1])
  }

  predicate Timely(host: set<Key>, op: Op) {
    match op
    case Sub(k) => k !in host
    case Unsub(k) => k in host
  }

  /** No subscribe for a pair that is requested already, no unsubscribe for one that is not. */
  ghost predicate Alternates(host: set<Key>, ops: seq<Op>)
    decreases |ops|
  {
    ops == [] || (Alternates(host, ops[..|ops| - 1]) && Timely(Requested(host, ops[..|ops| - 1]), ops[|ops| - 1]))
  }

  lemma OneMore(host: set<Key>, ops: seq<Op>, op: Op)
    ensures Requested(host, ops + [op]) == Toggled(Requested(host, ops), op)
    ensures Alternates(host, ops + [op]) <==> Alternates(host, ops) && Timely(Requested(host, ops), op)
  {
    assert (ops + [op])[..|ops|] == ops;
  }

  lemma {:induction false} Split(host: set<Key>, a: seq<Op>, b: seq<Op>)
    ensures Requested(host, a + b) == Requested(Requested(host, a), b)
    ensures Alternates(host, a + b) <==> Alternates(host, a) && Alternates(Requested(host, a), b)
    decreases |b|
  {
    if b == [] {
      assert a + b == a;
    } else {
      var front, op := b[..|b| - 1], b[|b| - 1];
      Split(host, a, front);
      assert a + b == a + front + [op];
      OneMore(host, a + front, op);
    }
  }

  lemma {:induction false} LeavingNeedsAnUnsubscribe(host: set<Key>, ops: seq<Op>, k: Key)
    requires k in host && k !in Requested(host, ops)
    ensures Unsub(k) in ops
    decreases |ops|
  {
    var front, op := ops[..|ops| - 1], ops[|ops| - 1];
    if op != Unsub(k) {
      LeavingNeedsAnUnsubscribe(host, front, k);
    }
  }

  lemma {:induction false} JoiningNeedsASubscribe(host: set<Key>, ops: seq<Op>, k: Key)
    requires k !in host && k in Requested(host, ops)
    ensures Sub(k) in ops
    decreases |ops|
  {
    var front, op := ops[..|ops| - 1], ops[|ops| - 1];
    if op != Sub(k) {
      JoiningNeedsASubscribe(host, front, k);
    }
  }

  lemma OneMoreKey(front: seq<Key>, last: Key)
    ensures UnsubEach(front + [last]) == UnsubEach(front) + [Unsub(last)]
    ensures Elems(front + [last]) == Elems(front) + {last}
  {
  }

  lemma LastIsNew(front: seq<Key>, last: Key)
    requires NoDup(front + [last])
    ensures NoDup(front) && last !in Elems(front)
  {
    var keys := front + [last];
    forall i | 0 <= i < |front|
      ensures front[i] != last
    {
      assert keys[i] != keys[|front|];
    }
    forall i, j | 0 <= i < j < |front|
      ensures front[i] != front[j]
    {
      assert keys[i] != keys[j];
    }
  }

  lemma {:induction false} ClosingWithdrawsAll(keys: seq<Key>, host: set<Key>)
    ensures Requested(host, UnsubEach(keys)) == host - Elems(keys)
    decreases |keys|
  {
    if keys != [] {
      var front, last := keys[..|keys| - 1], keys[|keys| - 1];
      assert keys == front + [last];
      OneMoreKey(front, last);
      ClosingWithdrawsAll(front, host);
      OneMore(host, UnsubEach(front), Unsub(last));
    }
  }

  lemma {:induction false} ClosingAlternates(keys: seq<Key>, host: set<Key>)
    requires NoDup(keys) && Elems(keys) <= host
    ensures Alternates(host, UnsubEach(keys))
    decreases |keys|
  {
    if keys != [] {
      var front, last := keys[..|keys| - 1], keys[|keys| - 1];
      assert keys == front + [last];
      OneMoreKey(front, last);
      LastIsNew(front, last);
      ClosingAlternates(front, host);
      ClosingWithdrawsAll(front, host);
      OneMore(host, UnsubEach(front), Unsub(last));
      assert last in host - Elems(front);
    }
  }

  // ---------------------------------------------------------------- invariant

  function Pending(s: State): seq<Op> {
    s.posted + s.toPost
  }

  function Issued(s: State): seq<Op> {
    s.ran + Pending(s)
  }

  /** The host's requested subscriptions. */
  function Host(s: State): set<Key> {
    Requested({}, s.ran)
  }

  ghost predicate TableInv(s: State) {
    s.phase.Open? ==>
      && Requested({}, Issued(s)) == s.sinks.Keys && Alternates({}, Issued(s))
      && s.routes.ids.Keys <= Host(s) + s.late
  }

  /** Once stop has begun, whatever holds an id is about to be withdrawn, or its unsubscribe or its id came too late. */
  ghost predicate LeftoverInv(s: State) {
    !s.phase.Open? ==>
      forall k :: k in s.routes.ids ==>
        || (s.phase.Withdrawing? && k in s.phase.left) || Unsub(k) in s.dropped || Unsub(k) in Pending(s)
        || k in s.late
  }

  ghost predicate Inv(s: State) {
    && Accounted(s.routes) && TableInv(s) && LeftoverInv(s) && s.late <= s.routes.ids.Keys
    && (s.phase.Gone? ==> s.routes.ids == map[])
  }

  /** What a message posts is what turns the old table into the new one. */
  lemma SubscribePostsTheChange(sinks: Sinks, k: Key)
    ensures Requested(sinks.Keys, SubscribePosts(sinks, k)) == sinks.Keys + {k}
    ensures Alternates(sinks.Keys, SubscribePosts(sinks, k))
  {
    OneMore(sinks.Keys, [], Sub(k));
  }

  lemma UnsubscribePostsTheChange(sinks: Sinks, k: Key)
    ensures Requested(sinks.Keys, UnsubscribePosts(sinks, k)) == sinks.Keys - {k}
    ensures Alternates(sinks.Keys, UnsubscribePosts(sinks, k))
  {
    OneMore(sinks.Keys, [], Unsub(k));
  }

  lemma EditKeepsTable(s: State, s': State)
    requires TableInv(s) && s.toPost == [] && s' == s.(sinks := s'.sinks, toPost := s'.toPost)
    requires Requested(s.sinks.Keys, s'.toPost) == s'.sinks.Keys && Alternates(s.sinks.Keys, s'.toPost)
    ensures TableInv(s')
  {
    assert Issued(s) == s.ran + s.posted;
    assert Issued(s') == Issued(s) + s'.toPost;
    Split({}, Issued(s), s'.toPost);
  }

  lemma DeliveryKeepsTable(s: State, ev: Event)
    requires TableInv(s) && Can(s, ev) && (ev.Subscribe? || ev.Unsubscribe? || ev.ConnectionClosed?)
    ensures TableInv(Do(s, ev))
  {
    match ev {
    case Subscribe(k, _) => SubscribePostsTheChange(s.sinks, k);
    case Unsubscribe(k) => UnsubscribePostsTheChange(s.sinks, k);
    case ConnectionClosed(keys) =>
      ClosingWithdrawsAll(keys, s.sinks.Keys);
      ClosingAlternates(keys, s.sinks.Keys);
    }
    EditKeepsTable(s, Do(s, ev));
  }

  lemma PostKeepsIssued(s: State)
    requires s.toPost != []
    ensures Pending(Do(s, Post)) == Pending(s) && Issued(Do(s, Post)) == Issued(s)
  {
  }

  lemma RunKeepsIssued(s: State, found: bool)
    requires Can(s, Run(found))
    ensures Pending(s) == [s.posted[0]] + Pending(Do(s, Run(found)))
    ensures Issued(s) == (s.ran + [s.posted[0]]) + Pending(Do(s, Run(found)))
  {
    assert s.posted + s.toPost == [s.posted[0]] + (s.posted[1..] + s.toPost);
  }

  /** A subscribe only ever runs for a pair that is not requested, whatever runs inside what. */
  lemma RunIsTimely(s: State)
    requires TableInv(s) && s.phase.Open? && s.posted != []
    ensures Timely(Host(s), s.posted[0]) && Requested({}, s.ran + [s.posted[0]]) == Toggled(Host(s), s.posted[0])
  {
    RunKeepsIssued(s, true);
    var op := s.posted[0];
    Split({}, s.ran + [op], Pending(Do(s, Run(true))));
    OneMore({}, s.ran, op);
  }

  lemma RunKeepsTable(s: State, found: bool)
    requires TableInv(s) && s.phase.Open? && Can(s, Run(found))
    ensures TableInv(Do(s, Run(found)))
  {
    RunKeepsIssued(s, found);
    RunIsTimely(s);
  }

  lemma RunKeepsLeftovers(s: State, found: bool)
    requires LeftoverInv(s) && Can(s, Run(found))
    ensures LeftoverInv(Do(s, Run(found)))
  {
    var s', op := Do(s, Run(found)), s.posted[0];
    RunKeepsIssued(s, found);
    assert forall o :: o in Pending(s) ==> o == op || o in Pending(s');
    assert !GateOpen(s) ==> op in s'.dropped;
  }

  lemma RunKeepsInv(s: State, found: bool)
    requires Inv(s) && Can(s, Run(found))
    ensures Inv(Do(s, Run(found)))
  {
    RunKeepsLeftovers(s, found);
    if GateOpen(s) && s.posted[0].Unsub? {
      WithdrawingKeepsAccounts(s.routes, s.posted[0].k, found);
    }
    if s.phase.Open? {
      RunKeepsTable(s, found);
    }
  }

  lemma AnswerKeepsInv(s: State, granted: bool)
    requires Inv(s) && Can(s, Answer(granted))
    ensures Inv(Do(s, Answer(granted)))
  {
    var s' := Do(s, Answer(granted));
    assert Pending(s') == Pending(s) && Issued(s') == Issued(s) && Host(s') == Host(s);
    if granted && s.phase.Gone? {
      StrayingKeepsAccounts(s.routes);
    } else if granted {
      ArmingKeepsAccounts(s.routes, s.inside[|s.inside| - 1]);
    }
  }

  /** Late are exactly the pairs whose present id was stored too late. */
  lemma StoredTooLateIff(s: State)
    requires Can(s, Answer(true)) && !s.phase.Gone?
    ensures var s', k := Do(s, Answer(true)), s.inside[|s.inside| - 1];
            && k in s'.routes.ids && s'.inside == s.inside[..|s.inside| - 1]
            && (k in s'.late <==> s.phase != Open || k !in Requested({}, s.ran))
            && s'.late - {k} == s.late - {k}
  {
  }

  lemma StopBeginsKeepsInv(s: State, keys: seq<Key>)
    requires Inv(s) && Can(s, StopBegins(keys))
    ensures Inv(Do(s, StopBegins(keys)))
  {
    Split({}, s.ran, Pending(s));
    forall k | k in s.routes.ids && k !in keys && k !in s.late
      ensures Unsub(k) in Pending(s)
    {
      assert k !in Elems(keys);
      LeavingNeedsAnUnsubscribe(Host(s), Pending(s), k);
    }
  }

  lemma KeepsInv(s: State, ev: Event)
    requires Inv(s) && Can(s, ev)
    ensures Inv(Do(s, ev))
  {
    match ev
    case Subscribe(_, _) => DeliveryKeepsTable(s, ev);
    case Unsubscribe(_) => DeliveryKeepsTable(s, ev);
    case ConnectionClosed(_) => DeliveryKeepsTable(s, ev);
    case Post => PostKeepsIssued(s);
    case Run(found) => RunKeepsInv(s, found);
    case Answer(granted) => AnswerKeepsInv(s, granted);
    case StopBegins(keys) => StopBeginsKeepsInv(s, keys);
    case Withdraw(found) => WithdrawingKeepsAccounts(s.routes, s.phase.left[0], found);
    case CloseGate =>
    case Destroy(keys, clients) => WithdrawingAll(s.routes, keys, clients);
  }

  /** The invariant holds after every legal run. */
  lemma {:induction false} RunsKeepInv(evs: seq<Event>)
    requires Legal(evs)
    ensures Inv(After(evs))
  {
    if evs != [] {
      RunsKeepInv(evs[..|evs| - 1]);
      KeepsInv(After(evs[..|evs| - 1]), evs[|evs| - 1]);
    }
  }

  // ---------------------------------------------------------------- what may be relied on

  /** Applying what is pending to what the host has been asked for gives exactly the table. */
  lemma {:induction false} PendingLeadsToTheTable(evs: seq<Event>)
    requires Legal(evs) && After(evs).phase.Open?
    ensures Requested(Host(After(evs)), Pending(After(evs))) == After(evs).sinks.Keys
    ensures Alternates(Host(After(evs)), Pending(After(evs))) && Alternates({}, Issued(After(evs)))
  {
    RunsKeepInv(evs);
    Split({}, After(evs).ran, Pending(After(evs)));
  }

  /** So between two equal operations on a pair there is always the opposite one. */
  lemma {:induction false} OperationsAlternate(host: set<Key>, ops: seq<Op>, i: nat, j: nat)
    requires Alternates(host, ops) && i < j < |ops| && ops[i] == ops[j]
    ensures ops[i].Sub? ==> Unsub(ops[i].k) in ops[i + 1..j]
    ensures ops[i].Unsub? ==> Sub(ops[i].k) in ops[i + 1..j]
  {
    var op, upTo, between := ops[i], ops[..i], ops[i + 1..j];
    assert ops == (upTo + [op] + between + [op]) + ops[j + 1..];
    Split(host, upTo + [op] + between + [op], ops[j + 1..]);
    OneMore(host, upTo + [op] + between, op);
    Split(host, upTo + [op], between);
    OneMore(host, upTo, op);
    if op.Sub? {
      LeavingNeedsAnUnsubscribe(Requested(host, upTo + [op]), between, op.k);
    } else {
      JoiningNeedsASubscribe(Requested(host, upTo + [op]), between, op.k);
    }
  }

  /** No id is ever cancelled twice; once the routes are gone each has been cancelled or lost, once. */
  lemma {:induction false} EveryIdIsCancelledOnce(evs: seq<Event>)
    requires Legal(evs)
    ensures Accounted(After(evs).routes)
    ensures After(evs).phase.Gone? ==>
              forall id: Id :: id < After(evs).routes.issued
                               <==> id in After(evs).routes.cancelled || id in After(evs).routes.lost
  {
    RunsKeepInv(evs);
  }

  /** The step takes an id from a pair whose client is not found. */
  ghost predicate ClientMissing(s: State, ev: Event)
    requires Can(s, ev)
  {
    match ev
    case Run(found) => GateOpen(s) && s.posted[0].Unsub? && s.posted[0].k in s.routes.ids && !found
    case Withdraw(found) => s.phase.left[0] in s.routes.ids && !found
    case Destroy(_, clients) => !(s.routes.ids.Keys <= clients)
    case _ => false
  }

  /** The step brings an id for a pair that has one, or for routes that are gone. */
  ghost predicate IdUnwanted(s: State, ev: Event)
    requires Can(s, ev)
  {
    ev == Answer(true) && (s.phase.Gone? || s.inside[|s.inside| - 1] in s.routes.ids)
  }

  ghost predicate EverMissing(evs: seq<Event>)
    requires Legal(evs)
    decreases |evs|
  {
    evs != [] && (EverMissing(evs[..|evs| - 1]) || ClientMissing(After(evs[..|evs| - 1]), evs[|evs| - 1]))
  }

  ghost predicate EverUnwanted(evs: seq<Event>)
    requires Legal(evs)
    decreases |evs|
  {
    evs != [] && (EverUnwanted(evs[..|evs| - 1]) || IdUnwanted(After(evs[..|evs| - 1]), evs[|evs| - 1]))
  }

  lemma OnlyTheseLose(s: State, ev: Event)
    requires Inv(s) && Can(s, ev)
    ensures s.routes.lost <= Do(s, ev).routes.lost
    ensures Do(s, ev).routes.lost == s.routes.lost <==> !ClientMissing(s, ev) && !IdUnwanted(s, ev)
  {
    if ev.Destroy? {
      LosesOnlyTheUnfound(s.routes, ev.keys, ev.clients);
      assert forall k :: k in ev.keys <==> k in Elems(ev.keys);
    }
  }

  /**
   * So every id handed out ends cancelled, exactly once, if and only if its client was found whenever one was
   * taken back and none came for a pair that had one or for routes that were gone.
   */
  lemma {:induction false} NothingLostIffFound(evs: seq<Event>)
    requires Legal(evs)
    ensures After(evs).routes.lost == [] <==> !EverMissing(evs) && !EverUnwanted(evs)
    ensures After(evs).phase.Gone? && !EverMissing(evs) && !EverUnwanted(evs) ==>
              NoDup(After(evs).routes.cancelled)
              && forall id: Id :: id < After(evs).routes.issued <==> id in After(evs).routes.cancelled
  {
    RunsKeepInv(evs);
    if evs != [] {
      var front := evs[..|evs| - 1];
      NothingLostIffFound(front);
      RunsKeepInv(front);
      OnlyTheseLose(After(front), evs[|evs| - 1]);
    }
  }

  /**
   * Whatever stop leaves armed, the page itself had unsubscribed, too late for the gate, or the client answered
   * too late; and what it answered too late for is left armed indeed.
   */
  lemma {:induction false} LeftoversWereUnsubscribed(evs: seq<Event>, k: Key)
    requires Legal(evs) && After(evs).phase.Closed?
    ensures k in After(evs).routes.ids ==>
              Unsub(k) in After(evs).dropped || Unsub(k) in Pending(After(evs)) || k in After(evs).late
    ensures k in After(evs).late ==> k in After(evs).routes.ids
  {
    RunsKeepInv(evs);
  }

  // ---------------------------------------------------------------- calm runs

  /** The step is not of the delivery thread, and comes while a subscribe waits for its client, or runs during stop. */
  predicate Intrudes(s: State, ev: Event) {
    && (ev.Run? || ev.StopBegins? || ev.Withdraw? || ev.CloseGate? || ev.Destroy?)
    && (s.inside != [] || (ev.Run? && s.phase.Withdrawing?))
  }

  ghost predicate Calm(evs: seq<Event>)
    requires Legal(evs)
    decreases |evs|
  {
    evs != [] ==> Calm(evs[..|evs| - 1]) && !Intrudes(After(evs[..|evs| - 1]), evs[|evs| - 1])
  }

  /** At most one subscribe waits, for a pair that is requested and holds no id. */
  ghost predicate CalmInv(s: State) {
    && s.late == {}
    && (s.inside != [] ==>
          s.phase.Open? && |s.inside| == 1 && s.inside[0] in Host(s) && s.inside[0] !in s.routes.ids)
  }

  lemma KeepsCalm(s: State, ev: Event)
    requires Inv(s) && CalmInv(s) && Can(s, ev) && !Intrudes(s, ev)
    ensures CalmInv(Do(s, ev)) && !IdUnwanted(s, ev)
  {
    if ev.Run? && s.phase.Open? {
      RunIsTimely(s);
    }
  }

  /**
   * When nothing comes between a subscribe and its answer, and nothing runs during stop, no id is unwanted: all
   * are cancelled if and only if the client was always found, and what stop leaves armed the page had unsubscribed.
   */
  lemma {:induction false} CalmRunsKeepTheTable(evs: seq<Event>)
    requires Legal(evs) && Calm(evs)
    ensures CalmInv(After(evs)) && !EverUnwanted(evs)
    ensures After(evs).routes.lost == [] <==> !EverMissing(evs)
    ensures After(evs).phase.Open? ==> After(evs).routes.ids.Keys <= Host(After(evs))
    ensures After(evs).phase.Closed? ==>
              forall k :: k in After(evs).routes.ids ==>
                            Unsub(k) in After(evs).dropped || Unsub(k) in Pending(After(evs))
  {
    RunsKeepInv(evs);
    NothingLostIffFound(evs);
    if evs != [] {
      var front := evs[..|evs| - 1];
      CalmRunsKeepTheTable(front);
      RunsKeepInv(front);
      KeepsCalm(After(front), evs[|evs| - 1]);
    }
  }
}
