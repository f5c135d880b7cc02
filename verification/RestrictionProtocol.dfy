/**
 * Loads, unloads and the owner thread's queue around the restriction table, dials that deliver queued work
 * included.
 */
module RestrictionProtocol {
  import opened Names
  import opened Graphs
  import opened AccessRestrictions

  /** The targets whose list may change when `n` comes or goes. */
  function Targets(w: World, n: Name): seq<Name> {
    Out(w.hard, n) + Out(w.soft, n) + [n]
  }

  datatype Task = Refresh(n: Name) | AllLoaded | PushExplicit

  datatype Push = Derive(target: Name) | Verbatim(target: Name, callers: seq<Name>)

  /** A list as it is registered, and the flags it was derived from; a policy entry follows none. */
  datatype Listing = Listing(callers: seq<Name>, flags: seq<bool>)

  /** Looking up the dependents that are left, or in the dial that sends the finished list, registered or not yet. */
  datatype Cursor = Idle
                  | Looking(target: Name, left: seq<Name>, callers: seq<Name>, flags: seq<bool>)
                  | Sending(target: Name, listing: Listing)
                  | Registered

  /** Work whose dial spins an event loop, with what it has still to do. */
  datatype Suspended = Suspended(pushes: seq<Push>, cursor: Cursor)

  /** How far the start of capability_module has come with its two pushes. */
  datatype Starting = ToPushExplicit | ToPushAll(inline: bool) | Started

  /** `pending` holds the modules committed or unlisted whose refresh has not been posted yet. */
  datatype State = State(
    loaded: set<Name>, table: map<Name, Listing>, pending: set<Name>, starting: Starting,
    queue: seq<Task>, pushes: seq<Push>, cursor: Cursor, suspended: seq<Suspended>)

  datatype Event =
    | Commit(n: Name) | Unlist(n: Name) | Post(n: Name) | RunInline(n: Name)
    | PostExplicit | RunExplicit | PostAll | RunAll(order: seq<Name>)
    | Next(order: seq<Name>) | BeginPush | LookUp | Decide | Register | Return | Resume

  /** capability_module has just been listed: other loads, and its own, may have their refresh still to post. */
  predicate JustUp(s: State) {
    && CAPABILITY in s.loaded && s.table == map[] && s.starting.ToPushExplicit?
    && s.queue == [] && s.pushes == [] && s.cursor.Idle? && s.suspended == []
  }

  predicate OwnerFree(s: State) {
    s.pushes == [] && s.cursor.Idle?
  }

  /** A dial spins from before its list is registered until it returns. */
  predicate InDial(c: Cursor) {
    c.Sending? || c.Registered?
  }

  /** The owner takes up new work when it has none, or inside a dial. */
  predicate Deliverable(s: State) {
    InDial(s.cursor) || (OwnerFree(s) && s.suspended == [])
  }

  predicate Can(s: State, ev: Event) {
    match ev
    case Commit(n) => n !in s.loaded && n !in s.pending
    case Unlist(n) => n in s.loaded && n !in s.pending && n != CAPABILITY
    case Post(n) => n in s.pending
    case RunInline(n) => n in s.pending && Deliverable(s)
    case PostExplicit => s.starting.ToPushExplicit?
    case RunExplicit => s.starting.ToPushExplicit? && Deliverable(s)
    case PostAll => s.starting == ToPushAll(false)
    case RunAll(order) => s.starting == ToPushAll(true) && Deliverable(s) && Elems(order) == s.loaded
    case Next(order) => s.queue != [] && Deliverable(s) && Elems(order) == s.loaded
    case BeginPush => s.pushes != [] && s.cursor.Idle?
    case LookUp => s.cursor.Looking? && s.cursor.left != []
    case Decide => s.cursor.Looking? && s.cursor.left == []
    case Register => s.cursor.Sending?
    case Return => s.cursor.Registered?
    case Resume => s.suspended != [] && OwnerFree(s)
  }

  function DeriveEach(targets: seq<Name>): seq<Push> {
    seq(|targets|, i requires 0 <= i < |targets| => Derive(targets[i]))
  }

  /** The policy's own entries, exempt targets skipped. */
  function VerbatimEach(policy: seq<Restriction>): seq<Push> {
    if policy == [] then []
    else if policy[0].target in EXEMPT then VerbatimEach(policy[1..])
    else [Verbatim(policy[0].target, policy[0].callers)] + VerbatimEach(policy[1..])
  }

  function Explicit(w: World): seq<Push> {
    if w.policy.Some? then VerbatimEach(w.policy.value) else []
  }

  function Unfold(w: World, task: Task, order: seq<Name>): seq<Push> {
    match task
    case Refresh(n) => DeriveEach(Targets(w, n))
    case AllLoaded => DeriveEach(order)
    case PushExplicit => Explicit(w)
  }

  /** New work; what a dial interrupts waits for it. */
  function Delivered(s: State, pushes: seq<Push>): State {
    if InDial(s.cursor)
    then s.(suspended := s.suspended + [Suspended(s.pushes, s.cursor)], pushes := pushes, cursor := Idle)
    else s.(pushes := pushes)
  }

  /** The events that hand the owner new work: what the work is, and what is then no longer waiting. */
  predicate Delivers(ev: Event) {
    ev.RunInline? || ev.RunExplicit? || ev.RunAll? || ev.Next?
  }

  function Work(w: World, s: State, ev: Event): seq<Push>
    requires Delivers(ev) && Can(s, ev)
  {
    match ev
    case RunInline(n) => DeriveEach(Targets(w, n))
    case RunExplicit => Explicit(w)
    case RunAll(order) => DeriveEach(order)
    case Next(order) => Unfold(w, s.queue[0], order)
  }

  function Rest(s: State, ev: Event): State
    requires Delivers(ev) && Can(s, ev)
  {
    match ev
    case RunInline(n) => s.(pending := s.pending - {n})
    case RunExplicit => s.(starting := ToPushAll(true))
    case RunAll(_) => s.(starting := Started)
    case Next(_) => s.(queue := s.queue[1..])
  }

  function CursorFor(w: World, loaded: set<Name>, p: Push): Cursor {
    match p
    case Verbatim(t, callers) => Sending(t, Listing(callers, []))
    case Derive(t) =>
      if FollowsLoaded(w, t) then Looking(t, Candidates(w, t), [], [])
      else if Derived(w, loaded, t) == [] then Idle
      else Sending(t, Listing(Derived(w, loaded, t), []))
  }

  function LookedUp(c: Cursor, loaded: set<Name>): Cursor
    requires c.Looking? && c.left != []
  {
    var d := c.left[0];
    Looking(c.target, c.left[1..], if d in loaded then Add(c.callers, d) else c.callers, c.flags + [d in loaded])
  }

  function Do(w: World, s: State, ev: Event): State
    requires Can(s, ev)
  {
    match ev
    case Commit(n) => s.(loaded := s.loaded + {n}, pending := s.pending + {n})
    case Unlist(n) => s.(loaded := s.loaded - {n}, pending := s.pending + {n})
    case Post(n) => s.(pending := s.pending - {n}, queue := s.queue + [Refresh(n)])
    case PostExplicit => s.(queue := s.queue + [PushExplicit], starting := ToPushAll(false))
    case PostAll => s.(queue := s.queue + [AllLoaded], starting := Started)
    case RunInline(_) | RunExplicit | RunAll(_) | Next(_) => Delivered(Rest(s, ev), Work(w, s, ev))
    case BeginPush => s.(pushes := s.pushes[1..], cursor := CursorFor(w, s.loaded, s.pushes[0]))
    case LookUp => s.(cursor := LookedUp(s.cursor, s.loaded))
    case Decide => s.(cursor := Sending(s.cursor.target, Listing(AddAll(s.cursor.callers, TRUSTED), s.cursor.flags)))
    case Register => s.(cursor := Registered, table := s.table[s.cursor.target := s.cursor.listing])
    case Return => s.(cursor := Idle)
    case Resume =>
      var last := s.suspended[|s.suspended| - 1];
      s.(suspended := s.suspended[..|s.suspended| - 1], pushes := last.pushes, cursor := last.cursor)
  }

  ghost predicate Legal(w: World, first: State, evs: seq<Event>)
    decreases |evs|, 0
  {
    evs == [] || (Legal(w, first, evs[..|evs| - 1]) && Can(After(w, first, evs[..|evs| - 1]), evs[|evs| - 1]))
  }

  ghost function After(w: World, first: State, evs: seq<Event>): State
    requires Legal(w, first, evs)
    decreases |evs|, 1
  {
    if evs == [] then first else Do(w, After(w, first, evs[..|evs| - 1]), evs[|evs| - 1])
  }

  // ---------------------------------------------------------------- what covers a target

  predicate Restricted(w: World, s: State, t: Name) {
    t in s.loaded && Derived(w, s.loaded, t) != []
  }

  predicate Agrees(w: World, s: State, t: Name) {
    t in s.table && s.table[t].callers == Derived(w, s.loaded, t)
  }

  ghost predicate AboutToBeQueued(w: World, s: State, t: Name) {
    exists n :: n in s.pending && t in Targets(w, n)
  }

  predicate Refreshes(w: World, task: Task, t: Name) {
    task.Refresh? && t in Targets(w, task.n)
  }

  ghost predicate Queued(w: World, s: State, t: Name) {
    exists i :: 0 <= i < |s.queue| && Refreshes(w, s.queue[i], t)
  }

  /** The push for everything loaded is still to come. */
  predicate AllToCome(s: State) {
    !s.starting.Started? || AllLoaded in s.queue
  }

  predicate HasDerive(f: Suspended, t: Name) {
    Derive(t) in f.pushes
  }

  ghost predicate InTheWork(s: State, t: Name) {
    Derive(t) in s.pushes || exists i :: 0 <= i < |s.suspended| && HasDerive(s.suspended[i], t)
  }

  /** A list for `t` is still to be started. */
  ghost predicate Covered(w: World, s: State, t: Name) {
    AllToCome(s) || AboutToBeQueued(w, s, t) || Queued(w, s, t) || InTheWork(s, t)
  }

  predicate Working(c: Cursor, t: Name) {
    (c.Looking? || c.Sending?) && c.target == t
  }

  predicate Holds(f: Suspended, t: Name) {
    Working(f.cursor, t)
  }

  /** A finished list for `t` lies suspended in a dial. */
  ghost predicate HeldUp(s: State, t: Name) {
    exists i :: 0 <= i < |s.suspended| && Holds(s.suspended[i], t)
  }

  // ---------------------------------------------------------------- the flags behind every list

  /** The policy has an entry for the target, which then follows nothing else. */
  predicate Named(w: World, t: Name) {
    t !in EXEMPT && w.policy.Some? && FirstFor(w.policy.value, t).Some?
  }

  /** One entry a target, as the keys of a parsed policy are. */
  predicate OneEntryEach(w: World) {
    w.policy.Some? ==>
      forall i, j :: 0 <= i < j < |w.policy.value| ==> w.policy.value[i].target != w.policy.value[j].target
  }

  /** Another list than the policy's first for its target. */
  predicate Wrong(w: World, p: Push) {
    p.Verbatim? && (w.policy.None? || FirstFor(w.policy.value, p.target) != Some(p.callers))
  }

  ghost predicate ListingInv(w: World, t: Name, l: Listing) {
    && (FollowsLoaded(w, t) ==> |l.flags| == |Candidates(w, t)| && l.callers == ListFrom(w, t, l.flags))
    && (Named(w, t) && OneEntryEach(w) ==> Some(l.callers) == FirstFor(w.policy.value, t))
  }

  /** The part of the candidates a look-up has behind it, and the callers it found there. */
  ghost predicate CursorInv(w: World, c: Cursor) {
    match c
    case Idle | Registered => true
    case Looking(t, left, callers, flags) =>
      && FollowsLoaded(w, t) && |flags| + |left| == |Candidates(w, t)|
      && left == Candidates(w, t)[|flags|..] && callers == ByReads(Candidates(w, t)[..|flags|], flags)
    case Sending(t, l) => ListingInv(w, t, l)
  }

  /** Policy entries are pushed for their own targets only. */
  ghost predicate PushesInv(w: World, pushes: seq<Push>) {
    forall p :: p in pushes && p.Verbatim? ==> !FollowsLoaded(w, p.target) && (OneEntryEach(w) ==> !Wrong(w, p))
  }

  ghost predicate FrameInv(w: World, f: Suspended) {
    InDial(f.cursor) && CursorInv(w, f.cursor) && PushesInv(w, f.pushes)
  }

  ghost predicate FlagsInv(w: World, s: State) {
    && CursorInv(w, s.cursor) && PushesInv(w, s.pushes)
    && (forall i :: 0 <= i < |s.suspended| ==> FrameInv(w, s.suspended[i]))
    && (forall t :: t in s.table ==> ListingInv(w, t, s.table[t]))
  }

  lemma {:induction false} EntriesArePolicy(policy: seq<Restriction>, p: Push)
    requires p in VerbatimEach(policy)
    ensures p.Verbatim? && FirstFor(policy, p.target).Some?
    ensures exists i :: 0 <= i < |policy| && policy[i] == Restriction(p.target, p.callers)
  {
    if policy[0].target in EXEMPT || p != Verbatim(policy[0].target, policy[0].callers) {
      EntriesArePolicy(policy[1..], p);
      var i :| 0 <= i < |policy[1..]| && policy[1..][i] == Restriction(p.target, p.callers);
      assert policy[i + 1] == Restriction(p.target, p.callers);
    }
  }

  /** Entry for entry, in the policy's order, where none is for an exempt target; and never for one that is. */
  lemma {:induction false} EntriesInOrder(policy: seq<Restriction>)
    ensures forall p :: p in VerbatimEach(policy) ==>
                          p.target !in {Name("capability_module"), Name("core"), Name("core_service")}
    ensures (forall i :: 0 <= i < |policy| ==> policy[i].target !in EXEMPT) ==>
              && |VerbatimEach(policy)| == |policy|
              && forall i :: 0 <= i < |policy| ==>
                               VerbatimEach(policy)[i] == Verbatim(policy[i].target, policy[i].callers)
  {
    if policy != [] {
      EntriesInOrder(policy[1..]);
      assert policy[0].target !in EXEMPT ==> policy[0].target != EXEMPT[0] && policy[0].target != EXEMPT[1]
                                             && policy[0].target != EXEMPT[2];
    }
  }

  lemma {:induction false} TheOnlyEntryIsFirst(policy: seq<Restriction>, i: nat)
    requires i < |policy|
    requires forall j, k :: 0 <= j < k < |policy| ==> policy[j].target != policy[k].target
    ensures FirstFor(policy, policy[i].target) == Some(policy[i].callers)
  {
    if i > 0 {
      TheOnlyEntryIsFirst(policy[1..], i - 1);
    }
  }

  lemma UnfoldedInv(w: World, task: Task, order: seq<Name>)
    ensures PushesInv(w, Unfold(w, task, order)) && PushesInv(w, Explicit(w))
  {
    forall p | p in Explicit(w)
      ensures !FollowsLoaded(w, p.target) && (OneEntryEach(w) ==> !Wrong(w, p))
    {
      var policy := w.policy.value;
      EntriesArePolicy(policy, p);
      var i :| 0 <= i < |policy| && policy[i] == Restriction(p.target, p.callers);
      if OneEntryEach(w) {
        TheOnlyEntryIsFirst(policy, i);
      }
    }
  }

  lemma DeliveredKeepsFlags(w: World, s: State, pushes: seq<Push>)
    requires FlagsInv(w, s) && PushesInv(w, pushes)
    ensures FlagsInv(w, Delivered(s, pushes))
  {
  }

  lemma LookUpKeepsFlags(w: World, s: State)
    requires FlagsInv(w, s) && Can(s, LookUp)
    ensures FlagsInv(w, Do(w, s, LookUp))
  {
    var all, k, c := Candidates(w, s.cursor.target), |s.cursor.flags|, LookedUp(s.cursor, s.loaded);
    assert all[k] == s.cursor.left[0] && c.left == all[k + 1..];
    assert all[..k + 1][..k] == all[..k] && c.flags[..k] == s.cursor.flags;
    assert c.callers == ByReads(all[..k + 1], c.flags);
  }

  lemma DecideKeepsFlags(w: World, s: State)
    requires FlagsInv(w, s) && Can(s, Decide)
    ensures FlagsInv(w, Do(w, s, Decide))
  {
    var all := Candidates(w, s.cursor.target);
    assert all[..|s.cursor.flags|] == all;
  }

  lemma BeginKeepsFlags(w: World, s: State)
    requires FlagsInv(w, s) && Can(s, BeginPush)
    ensures FlagsInv(w, Do(w, s, BeginPush))
  {
    var p := s.pushes[0];
    assert p in s.pushes;
    if p.Derive? && FollowsLoaded(w, p.target) {
      var all := Candidates(w, p.target);
      assert all[0..] == all && all[..0] == [];
    }
  }

  lemma WorkInv(w: World, s: State, ev: Event)
    requires Delivers(ev) && Can(s, ev)
    ensures PushesInv(w, Work(w, s, ev))
  {
    match ev
    case RunInline(n) =>
    case RunExplicit => UnfoldedInv(w, PushExplicit, []);
    case RunAll(order) =>
    case Next(order) => UnfoldedInv(w, s.queue[0], order);
  }

  lemma KeepsFlags(w: World, s: State, ev: Event)
    requires FlagsInv(w, s) && Can(s, ev)
    ensures FlagsInv(w, Do(w, s, ev))
  {
    if Delivers(ev) {
      WorkInv(w, s, ev);
      DeliveredKeepsFlags(w, Rest(s, ev), Work(w, s, ev));
    } else if ev.LookUp? {
      LookUpKeepsFlags(w, s);
    } else if ev.Decide? {
      DecideKeepsFlags(w, s);
    } else if ev.BeginPush? {
      BeginKeepsFlags(w, s);
    }
  }

  // ---------------------------------------------------------------- no target is forgotten

  lemma DeriveAt(targets: seq<Name>, t: Name)
    requires t in targets
    ensures Derive(t) in DeriveEach(targets)
  {
    var k :| 0 <= k < |targets| && targets[k] == t;
    assert DeriveEach(targets)[k] == Derive(t);
  }

  /** What stops waiting is in the new work. */
  lemma WorkTakesOver(w: World, s: State, ev: Event, t: Name)
    requires Delivers(ev) && Can(s, ev) && t in s.loaded && Covered(w, s, t)
    ensures Covered(w, Rest(s, ev), t) || Derive(t) in Work(w, s, ev)
  {
    match ev
    case RunInline(n) =>
      if t in Targets(w, n) {
        DeriveAt(Targets(w, n), t);
      } else if AboutToBeQueued(w, s, t) {
        var m :| m in s.pending && t in Targets(w, m);
        assert m in Rest(s, ev).pending;
      } else if Queued(w, s, t) {
        assert Queued(w, Rest(s, ev), t);
      }
    case RunExplicit =>
    case RunAll(order) =>
      assert t in Elems(order);
      DeriveAt(order, t);
    case Next(order) => NextTakesOver(w, s, order, t);
  }

  lemma NextTakesOver(w: World, s: State, order: seq<Name>, t: Name)
    requires Can(s, Next(order)) && t in s.loaded && Covered(w, s, t)
    ensures Covered(w, Rest(s, Next(order)), t) || Derive(t) in Work(w, s, Next(order))
  {
    var rest := Rest(s, Next(order));
    assert s.queue == [s.queue[0]] + rest.queue;
    if s.queue[0].AllLoaded? {
      assert t in Elems(order);
      DeriveAt(order, t);
    } else if Refreshes(w, s.queue[0], t) {
      DeriveAt(Targets(w, s.queue[0].n), t);
    } else if AllToCome(s) || InTheWork(s, t) {
      assert AllToCome(s) ==> AllToCome(rest);
    } else if AboutToBeQueued(w, s, t) {
      assert AboutToBeQueued(w, rest, t);
    } else {
      var i :| 0 <= i < |s.queue| && Refreshes(w, s.queue[i], t);
      assert Refreshes(w, rest.queue[i - 1], t);
    }
  }

  lemma DeliveredCovers(w: World, s: State, pushes: seq<Push>, t: Name)
    requires Deliverable(s) && (Covered(w, s, t) || Derive(t) in pushes)
    ensures Covered(w, Delivered(s, pushes), t)
  {
    var s' := Delivered(s, pushes);
    if Derive(t) in s.pushes {
      assert HasDerive(s'.suspended[|s.suspended|], t);
    } else if i :| 0 <= i < |s.suspended| && HasDerive(s.suspended[i], t) {
      assert HasDerive(s'.suspended[i], t);
    } else if AboutToBeQueued(w, s, t) {
      assert AboutToBeQueued(w, s', t);
    } else if Queued(w, s, t) {
      assert Queued(w, s', t);
    }
  }

  lemma PostKeepsCovered(w: World, s: State, n: Name, t: Name)
    requires Can(s, Post(n)) && Covered(w, s, t)
    ensures Covered(w, Do(w, s, Post(n)), t)
  {
    var s' := Do(w, s, Post(n));
    if AllToCome(s) || InTheWork(s, t) {
      assert InTheWork(s, t) ==> InTheWork(s', t);
    } else if i :| 0 <= i < |s.queue| && Refreshes(w, s.queue[i], t) {
      assert Refreshes(w, s'.queue[i], t);
    } else {
      var m :| m in s.pending && t in Targets(w, m);
      if m == n {
        assert Refreshes(w, s'.queue[|s.queue|], t);
      } else {
        assert m in s'.pending;
      }
    }
  }

  lemma ResumeKeepsCovered(w: World, s: State, t: Name)
    requires Can(s, Resume) && Covered(w, s, t)
    ensures Covered(w, Do(w, s, Resume), t)
  {
    var s' := Do(w, s, Resume);
    if i :| 0 <= i < |s.suspended| && HasDerive(s.suspended[i], t) {
      if i < |s'.suspended| {
        assert HasDerive(s'.suspended[i], t);
      } else {
        assert Derive(t) in s'.pushes;
      }
    } else if AboutToBeQueued(w, s, t) {
      assert AboutToBeQueued(w, s', t);
    } else if Queued(w, s, t) {
      assert Queued(w, s', t);
    }
  }

  /** Nothing else takes a target's cover away. */
  lemma QuietKeepsCovered(w: World, s: State, ev: Event, t: Name)
    requires Can(s, ev) && !Delivers(ev) && !ev.Post? && !ev.Resume? && !ev.BeginPush? && Covered(w, s, t)
    ensures Covered(w, Do(w, s, ev), t)
  {
    var s' := Do(w, s, ev);
    assert s'.pushes == s.pushes && s'.suspended == s.suspended && s.pending <= s'.pending;
    if i :| 0 <= i < |s.queue| && Refreshes(w, s.queue[i], t) {
      assert Refreshes(w, s'.queue[i], t);
    } else if AboutToBeQueued(w, s, t) {
      assert AboutToBeQueued(w, s', t);
    } else if InTheWork(s, t) {
      assert InTheWork(s', t);
    } else {
      assert AllToCome(s');
    }
  }

  lemma BeginKeepsCovered(w: World, s: State, t: Name)
    requires Can(s, BeginPush) && s.pushes[0] != Derive(t) && Covered(w, s, t)
    ensures Covered(w, Do(w, s, BeginPush), t)
  {
    var s' := Do(w, s, BeginPush);
    assert s.pushes == [s.pushes[0]] + s'.pushes;
    if InTheWork(s, t) {
      assert InTheWork(s', t);
    } else if AboutToBeQueued(w, s, t) {
      assert AboutToBeQueued(w, s', t);
    } else if Queued(w, s, t) {
      assert Queued(w, s', t);
    }
  }

  /** A covered target stays so until its own push begins. */
  lemma KeepsCovered(w: World, s: State, ev: Event, t: Name)
    requires Can(s, ev) && t in s.loaded && Covered(w, s, t)
    ensures Covered(w, Do(w, s, ev), t) || (ev.BeginPush? && s.pushes[0] == Derive(t))
  {
    if Delivers(ev) {
      WorkTakesOver(w, s, ev, t);
      DeliveredCovers(w, Rest(s, ev), Work(w, s, ev), t);
    } else if ev.Post? {
      PostKeepsCovered(w, s, ev.n, t);
    } else if ev.Resume? {
      ResumeKeepsCovered(w, s, t);
    } else if !ev.BeginPush? {
      QuietKeepsCovered(w, s, ev, t);
    } else if s.pushes[0] != Derive(t) {
      BeginKeepsCovered(w, s, t);
    }
  }

  /** A list under way stays so, in the owner's hands or held up, until it is registered. */
  lemma KeepsUnderWay(w: World, s: State, ev: Event, t: Name)
    requires Can(s, ev) && (Working(s.cursor, t) || HeldUp(s, t))
    ensures Working(Do(w, s, ev).cursor, t) || HeldUp(Do(w, s, ev), t) || (ev.Register? && Working(s.cursor, t))
  {
    var s' := Do(w, s, ev);
    if i :| 0 <= i < |s.suspended| && Holds(s.suspended[i], t) {
      if i < |s'.suspended| {
        assert Holds(s'.suspended[i], t);
      } else {
        assert Working(s'.cursor, t);
      }
    } else if Delivers(ev) {
      assert InDial(s.cursor);
      assert Holds(s'.suspended[|s.suspended|], t);
    }
  }

  ghost predicate Reached(w: World, s: State, t: Name) {
    Restricted(w, s, t) ==> t in s.table || Covered(w, s, t) || Working(s.cursor, t) || HeldUp(s, t)
  }

  /** Whether a target is restricted at all does not depend on which modules are loaded besides it. */
  lemma EmptinessIsFixed(w: World, loaded: set<Name>, loaded': set<Name>, t: Name)
    ensures Derived(w, loaded, t) == [] <==> Derived(w, loaded', t) == []
  {
    if FollowsLoaded(w, t) {
      GatherAdds([], Candidates(w, t), loaded);
      GatherAdds([], Candidates(w, t), loaded');
      AddAllAdds(Gather([], Candidates(w, t), loaded), TRUSTED);
      AddAllAdds(Gather([], Candidates(w, t), loaded'), TRUSTED);
      assert TRUSTED[0] in Derived(w, loaded, t) && TRUSTED[0] in Derived(w, loaded', t);
    }
  }

  lemma NewlyRestrictedIsCovered(w: World, s: State, ev: Event, t: Name)
    requires Can(s, ev) && !Restricted(w, s, t) && Restricted(w, Do(w, s, ev), t)
    ensures Covered(w, Do(w, s, ev), t)
  {
    EmptinessIsFixed(w, s.loaded, Do(w, s, ev).loaded, t);
    assert ev == Commit(t);
    assert t in Do(w, s, ev).pending && t in Targets(w, t);
    assert AboutToBeQueued(w, Do(w, s, ev), t);
  }

  lemma KeepsReached(w: World, s: State, ev: Event, t: Name)
    requires Reached(w, s, t) && Can(s, ev)
    ensures Reached(w, Do(w, s, ev), t)
  {
    var s' := Do(w, s, ev);
    if Restricted(w, s', t) {
      if !Restricted(w, s, t) {
        NewlyRestrictedIsCovered(w, s, ev, t);
      } else if Covered(w, s, t) {
        KeepsCovered(w, s, ev, t);
      } else if t !in s.table {
        KeepsUnderWay(w, s, ev, t);
      }
    }
  }

  // ---------------------------------------------------------------- no policy entry is forgotten

  predicate ExplicitToCome(s: State) {
    s.starting.ToPushExplicit? || PushExplicit in s.queue
  }

  ghost predicate PushesEntry(pushes: seq<Push>, t: Name) {
    exists p :: p in pushes && p.Verbatim? && p.target == t
  }

  ghost predicate EntryToCome(s: State, t: Name) {
    PushesEntry(s.pushes, t) || exists i :: 0 <= i < |s.suspended| && PushesEntry(s.suspended[i].pushes, t)
  }

  ghost predicate EntryReached(w: World, s: State, t: Name) {
    Named(w, t) ==> t in s.table || ExplicitToCome(s) || EntryToCome(s, t) || Working(s.cursor, t) || HeldUp(s, t)
  }

  lemma {:induction false} NamedIsPushed(policy: seq<Restriction>, t: Name)
    requires t !in EXEMPT && FirstFor(policy, t).Some?
    ensures PushesEntry(VerbatimEach(policy), t)
  {
    if policy[0].target == t {
      assert Verbatim(t, policy[0].callers) in VerbatimEach(policy);
    } else {
      NamedIsPushed(policy[1..], t);
      var p :| p in VerbatimEach(policy[1..]) && p.Verbatim? && p.target == t;
      assert p in VerbatimEach(policy);
    }
  }

  /** The entries stop waiting only to become the owner's work, which goes on in its place or in a dial's. */
  lemma DeliveryKeepsEntries(w: World, s: State, ev: Event, t: Name)
    requires Delivers(ev) && Can(s, ev) && Named(w, t) && (ExplicitToCome(s) || EntryToCome(s, t))
    ensures ExplicitToCome(Do(w, s, ev)) || EntryToCome(Do(w, s, ev), t)
  {
    var s', rest := Do(w, s, ev), Rest(s, ev);
    NamedIsPushed(w.policy.value, t);
    assert ev.Next? ==> s.queue == [s.queue[0]] + rest.queue;
    if PushesEntry(s.pushes, t) {
      assert s'.suspended[|s.suspended|].pushes == s.pushes;
    } else if i :| 0 <= i < |s.suspended| && PushesEntry(s.suspended[i].pushes, t) {
      assert s'.suspended[i] == s.suspended[i];
    }
  }

  lemma OthersKeepEntries(w: World, s: State, ev: Event, t: Name)
    requires !Delivers(ev) && Can(s, ev) && (ExplicitToCome(s) || EntryToCome(s, t))
    ensures ExplicitToCome(Do(w, s, ev)) || EntryToCome(Do(w, s, ev), t) || Working(Do(w, s, ev).cursor, t)
  {
    var s' := Do(w, s, ev);
    if ExplicitToCome(s) {
      if i :| 0 <= i < |s.queue| && s.queue[i] == PushExplicit {
        assert s'.queue[i] == PushExplicit;
      }
      assert ev.PostExplicit? ==> s'.queue[|s.queue|] == PushExplicit;
    } else if ev.BeginPush? {
      assert s.pushes == [s.pushes[0]] + s'.pushes;
    } else if i :| 0 <= i < |s.suspended| && PushesEntry(s.suspended[i].pushes, t) {
      assert i < |s'.suspended| ==> s'.suspended[i] == s.suspended[i];
    }
  }

  lemma KeepsEntryReached(w: World, s: State, ev: Event, t: Name)
    requires EntryReached(w, s, t) && Can(s, ev)
    ensures EntryReached(w, Do(w, s, ev), t)
  {
    if Named(w, t) && t !in s.table {
      if Working(s.cursor, t) || HeldUp(s, t) {
        KeepsUnderWay(w, s, ev, t);
      } else if Delivers(ev) {
        DeliveryKeepsEntries(w, s, ev, t);
      } else {
        OthersKeepEntries(w, s, ev, t);
      }
    }
  }

  // ---------------------------------------------------------------- agreement, as long as no stale list lies in a dial

  /** What the list under way will be, if no flag it reads changes. */
  function Final(c: Cursor, loaded: set<Name>): seq<Name> {
    match c
    case Idle | Registered => []
    case Looking(_, left, callers, _) => AddAll(Gather(callers, left, loaded), TRUSTED)
    case Sending(_, l) => l.callers
  }

  ghost predicate Spoiler(w: World, pushes: seq<Push>, t: Name) {
    exists p :: p in pushes && p.target == t && Wrong(w, p)
  }

  /** Suspended work that would register another list for `t` than the one due now. */
  ghost predicate Stale(w: World, loaded: set<Name>, f: Suspended, t: Name) {
    (Working(f.cursor, t) && Final(f.cursor, loaded) != Derived(w, loaded, t)) || Spoiler(w, f.pushes, t)
  }

  ghost predicate StaleSuspended(w: World, s: State, t: Name) {
    exists i :: 0 <= i < |s.suspended| && Stale(w, s.loaded, s.suspended[i], t)
  }

  predicate OnTheWay(w: World, s: State, t: Name) {
    Working(s.cursor, t) && Final(s.cursor, s.loaded) == Derived(w, s.loaded, t)
  }

  ghost predicate Right(w: World, s: State, t: Name) {
    if Working(s.cursor, t) then OnTheWay(w, s, t) else HeldUp(s, t) || Agrees(w, s, t)
  }

  ghost predicate Fine(w: World, s: State, t: Name) {
    && (Spoiler(w, s.pushes, t) ==> AllToCome(s))
    && (Restricted(w, s, t) ==> Covered(w, s, t) || Right(w, s, t))
  }

  /** The push for everything loaded stands behind every push of the policy's entries. */
  ghost predicate QueueInv(s: State) {
    forall i :: 0 <= i < |s.queue| && s.queue[i].PushExplicit? ==>
                  s.starting == ToPushAll(false) || (s.starting.Started? && AllLoaded in s.queue[i + 1..])
  }

  lemma KeepsQueue(w: World, s: State, ev: Event)
    requires QueueInv(s) && Can(s, ev)
    ensures QueueInv(Do(w, s, ev))
  {
    var s' := Do(w, s, ev);
    forall i | 0 <= i < |s'.queue| && s'.queue[i].PushExplicit?
      ensures s'.starting == ToPushAll(false) || (s'.starting.Started? && AllLoaded in s'.queue[i + 1..])
    {
      if ev.Next? {
        assert s'.queue[i] == s.queue[i + 1] && s'.queue[i + 1..] == s.queue[i + 2..];
      } else if ev.Post? {
        assert s'.queue[i + 1..] == s.queue[i + 1..] + [Refresh(ev.n)];
      } else if ev.PostAll? {
        assert s'.queue[i + 1..] == s.queue[i + 1..] + [AllLoaded];
      }
    }
  }

  lemma DependentsAreTargets(w: World, n: Name, t: Name)
    requires Consistent(w) && n in Candidates(w, t)
    ensures t in Targets(w, n)
  {
    assert Edge(w.back, t, n) || Edge(w.softBack, t, n);
    assert Edge(w.hard, n, t) || Edge(w.soft, n, t);
  }

  /** A module that comes or goes covers every target whose list depends on it; the others keep theirs. */
  lemma FlipKeepsFine(w: World, s: State, s': State, n: Name, t: Name)
    requires Consistent(w) && CursorInv(w, s.cursor) && Fine(w, s, t)
    requires s' == s.(loaded := s'.loaded, pending := s.pending + {n})
    requires forall d :: d != n ==> (d in s'.loaded <==> d in s.loaded)
    ensures Fine(w, s', t)
  {
    if t in Targets(w, n) {
      assert AboutToBeQueued(w, s', t);
    } else {
      if n in Candidates(w, t) {
        DependentsAreTargets(w, n, t);
      }
      GatherIgnores([], Candidates(w, t), s.loaded, s'.loaded);
      assert Derived(w, s'.loaded, t) == Derived(w, s.loaded, t);
      if s.cursor.Looking? && Working(s.cursor, t) {
        GatherIgnores(s.cursor.callers, s.cursor.left, s.loaded, s'.loaded);
      }
      assert AboutToBeQueued(w, s, t) ==> AboutToBeQueued(w, s', t);
      assert Queued(w, s, t) ==> Queued(w, s', t);
      assert InTheWork(s, t) ==> InTheWork(s', t);
      assert HeldUp(s, t) ==> HeldUp(s', t);
    }
  }

  lemma WorkSpoilsInTime(w: World, s: State, ev: Event, t: Name)
    requires Delivers(ev) && Can(s, ev) && QueueInv(s) && Spoiler(w, Work(w, s, ev), t)
    ensures AllToCome(Do(w, s, ev))
  {
    if ev.Next? {
      assert s.queue[0].PushExplicit?;
      assert s.queue[1..] == Do(w, s, ev).queue;
    }
  }

  lemma DeliveryKeepsFine(w: World, s: State, ev: Event, t: Name)
    requires Delivers(ev) && Can(s, ev) && QueueInv(s) && Fine(w, s, t)
    ensures Fine(w, Do(w, s, ev), t)
  {
    var s' := Do(w, s, ev);
    if Spoiler(w, s'.pushes, t) {
      WorkSpoilsInTime(w, s, ev, t);
    }
    if Restricted(w, s, t) {
      if Covered(w, s, t) {
        KeepsCovered(w, s, ev, t);
      } else if Working(s.cursor, t) || HeldUp(s, t) {
        KeepsUnderWay(w, s, ev, t);
      }
    }
  }

  lemma BeginKeepsFine(w: World, s: State, t: Name)
    requires Can(s, BeginPush) && Fine(w, s, t)
    ensures Fine(w, Do(w, s, BeginPush), t)
  {
    var s', p := Do(w, s, BeginPush), s.pushes[0];
    assert s.pushes == [p] + s'.pushes;
    assert Spoiler(w, s'.pushes, t) ==> Spoiler(w, s.pushes, t);
    assert AllToCome(s') == AllToCome(s) && (HeldUp(s, t) ==> HeldUp(s', t));
    if Restricted(w, s, t) && p.target == t {
      if Wrong(w, p) {
        assert Spoiler(w, s.pushes, t);
      } else {
        assert OnTheWay(w, s', t);
      }
    } else if Restricted(w, s, t) && Covered(w, s, t) {
      KeepsCovered(w, s, BeginPush, t);
    }
  }

  lemma ResumeKeepsFine(w: World, s: State, t: Name)
    requires Can(s, Resume) && Fine(w, s, t) && !StaleSuspended(w, s, t)
    ensures Fine(w, Do(w, s, Resume), t)
  {
    var s', last := Do(w, s, Resume), s.suspended[|s.suspended| - 1];
    assert !Stale(w, s.loaded, last, t);
    if Restricted(w, s, t) {
      if Covered(w, s, t) {
        KeepsCovered(w, s, Resume, t);
      } else if HeldUp(s, t) {
        KeepsUnderWay(w, s, Resume, t);
      }
    }
  }

  lemma QuietKeepsFine(w: World, s: State, ev: Event, t: Name)
    requires Can(s, ev) && FlagsInv(w, s) && Fine(w, s, t)
    requires ev.Post? || ev.PostExplicit? || ev.PostAll? || ev.LookUp? || ev.Decide? || ev.Register?
             || ev.Return?
    ensures Fine(w, Do(w, s, ev), t)
  {
    var s' := Do(w, s, ev);
    assert s'.pushes == s.pushes && s'.loaded == s.loaded && (AllToCome(s) ==> AllToCome(s'));
    if Restricted(w, s, t) {
      if Covered(w, s, t) {
        KeepsCovered(w, s, ev, t);
      } else if HeldUp(s, t) {
        assert HeldUp(s', t);
      }
    }
  }

  lemma KeepsFine(w: World, s: State, ev: Event, t: Name)
    requires Consistent(w) && Can(s, ev) && FlagsInv(w, s) && QueueInv(s) && Fine(w, s, t) && !StaleSuspended(w, s, t)
    ensures Fine(w, Do(w, s, ev), t)
  {
    if ev.Commit? || ev.Unlist? {
      FlipKeepsFine(w, s, Do(w, s, ev), ev.n, t);
    } else if Delivers(ev) {
      DeliveryKeepsFine(w, s, ev, t);
    } else if ev.BeginPush? {
      BeginKeepsFine(w, s, t);
    } else if ev.Resume? {
      ResumeKeepsFine(w, s, t);
    } else {
      QuietKeepsFine(w, s, ev, t);
    }
  }

  // ---------------------------------------------------------------- runs

  ghost predicate Inv(w: World, s: State) {
    FlagsInv(w, s) && QueueInv(s) && forall t :: Reached(w, s, t) && EntryReached(w, s, t)
  }

  /** The invariant holds after every run, whatever was loaded or still to post when capability_module came up. */
  lemma {:induction false} RunsKeepInv(w: World, first: State, evs: seq<Event>)
    requires JustUp(first) && Legal(w, first, evs)
    ensures Inv(w, After(w, first, evs))
  {
    if evs != [] {
      var front, ev := evs[..|evs| - 1], evs[|evs| - 1];
      RunsKeepInv(w, first, front);
      var s := After(w, first, front);
      KeepsFlags(w, s, ev);
      KeepsQueue(w, s, ev);
      forall t
        ensures Reached(w, Do(w, s, ev), t) && EntryReached(w, Do(w, s, ev), t)
      {
        KeepsReached(w, s, ev, t);
        KeepsEntryReached(w, s, ev, t);
      }
    }
  }

  /** capability_module itself stays up all the time, so no refresh is ever skipped for want of it. */
  lemma {:induction false} CapabilityStaysUp(w: World, first: State, evs: seq<Event>)
    requires JustUp(first) && Legal(w, first, evs)
    ensures Name("capability_module") in After(w, first, evs).loaded
  {
    if evs != [] {
      CapabilityStaysUp(w, first, evs[..|evs| - 1]);
      StepKeepsCapability(w, After(w, first, evs[..|evs| - 1]), evs[|evs| - 1]);
    }
  }

  lemma StepKeepsCapability(w: World, s: State, ev: Event)
    requires Can(s, ev) && CAPABILITY in s.loaded
    ensures CAPABILITY in Do(w, s, ev).loaded
  {
  }

  lemma {:induction false} PrefixesAreLegal(w: World, first: State, evs: seq<Event>, k: nat)
    requires Legal(w, first, evs) && k <= |evs|
    ensures Legal(w, first, evs[..k])
  {
    if k < |evs| {
      PrefixesAreLegal(w, first, evs[..|evs| - 1], k);
      assert evs[..|evs| - 1][..k] == evs[..k];
    } else {
      assert evs[..k] == evs;
    }
  }

  /** The state after the first `k` events. */
  ghost function At(w: World, first: State, evs: seq<Event>, k: nat): State
    requires Legal(w, first, evs) && k <= |evs|
  {
    PrefixesAreLegal(w, first, evs, k);
    After(w, first, evs[..k])
  }

  lemma AtFront(w: World, first: State, evs: seq<Event>, k: nat)
    requires Legal(w, first, evs) && k < |evs|
    ensures At(w, first, evs[..|evs| - 1], k) == At(w, first, evs, k)
  {
    assert evs[..|evs| - 1][..k] == evs[..k];
  }

  ghost predicate NeverStale(w: World, first: State, evs: seq<Event>, t: Name)
    requires Legal(w, first, evs)
  {
    forall k: nat :: k < |evs| ==> !StaleSuspended(w, At(w, first, evs, k), t)
  }

  lemma {:induction false} RunsKeepFine(w: World, first: State, evs: seq<Event>, t: Name)
    requires Consistent(w) && JustUp(first) && Legal(w, first, evs) && NeverStale(w, first, evs, t)
    ensures Fine(w, After(w, first, evs), t)
  {
    if evs != [] {
      var front, ev := evs[..|evs| - 1], evs[|evs| - 1];
      forall k: nat | k < |front|
        ensures !StaleSuspended(w, At(w, first, front, k), t)
      {
        AtFront(w, first, evs, k);
      }
      RunsKeepFine(w, first, front, t);
      RunsKeepInv(w, first, front);
      assert At(w, first, evs, |front|) == After(w, first, front);
      KeepsFine(w, After(w, first, front), ev, t);
    }
  }

  // ---------------------------------------------------------------- what may be relied on

  predicate Drained(s: State) {
    s.pending == {} && s.starting.Started? && s.queue == [] && OwnerFree(s) && s.suspended == []
  }

  ghost predicate AllAgree(w: World, s: State) {
    forall t :: Restricted(w, s, t) ==> Agrees(w, s, t)
  }

  lemma DrainedIsBare(w: World, s: State, t: Name)
    requires Drained(s)
    ensures !Covered(w, s, t) && !Working(s.cursor, t) && !HeldUp(s, t)
  {
  }

  /**
   * In every run, refreshes delivered inside another's dial included: once all has drained, a loaded target
   * allows exactly the callers it should if and only if no dependent's flag differs from the one behind its
   * last registration. The list itself is then the derived one, and only then, for a plain target.
   */
  lemma {:induction false} AgreementIsInTheFlags(w: World, first: State, evs: seq<Event>, t: Name)
    requires JustUp(first) && Legal(w, first, evs) && Drained(After(w, first, evs))
    requires t in After(w, first, evs).loaded && FollowsLoaded(w, t)
    ensures t in After(w, first, evs).table
    ensures |After(w, first, evs).table[t].flags| == |Candidates(w, t)|
    ensures Elems(After(w, first, evs).table[t].callers) == Elems(Derived(w, After(w, first, evs).loaded, t))
            <==> SameFlags(w, After(w, first, evs).loaded, t, After(w, first, evs).table[t].flags)
    ensures After(w, first, evs).table[t].flags == Flags(Candidates(w, t), After(w, first, evs).loaded)
            ==> Agrees(w, After(w, first, evs), t)
    ensures Plain(w, t) ==>
              (Agrees(w, After(w, first, evs), t)
               <==> SameFlags(w, After(w, first, evs).loaded, t, After(w, first, evs).table[t].flags))
  {
    RunsKeepInv(w, first, evs);
    var s := After(w, first, evs);
    RestrictedWhenFollowing(w, s.loaded, t);
    DrainedIsBare(w, s, t);
    assert Reached(w, s, t);
    assert ListingInv(w, t, s.table[t]);
    SameCallersIffSameFlags(w, s.loaded, t, s.table[t].flags);
    SameListIffSameFlags(w, s.loaded, t, s.table[t].flags);
  }

  lemma RestrictedWhenFollowing(w: World, loaded: set<Name>, t: Name)
    requires FollowsLoaded(w, t)
    ensures Derived(w, loaded, t) != []
  {
    GatherAdds([], Candidates(w, t), loaded);
    AddAllAdds(Gather([], Candidates(w, t), loaded), TRUSTED);
    assert TRUSTED[0] in Derived(w, loaded, t);
  }

  /** A target the policy names always ends with the policy's list, whatever ran inside what. */
  lemma {:induction false} NamedTargetsAgree(w: World, first: State, evs: seq<Event>, t: Name)
    requires JustUp(first) && Legal(w, first, evs) && Drained(After(w, first, evs)) && OneEntryEach(w)
    requires Named(w, t) && Restricted(w, After(w, first, evs), t)
    ensures Agrees(w, After(w, first, evs), t)
  {
    RunsKeepInv(w, first, evs);
    var s := After(w, first, evs);
    DrainedIsBare(w, s, t);
    assert Reached(w, s, t);
    assert ListingInv(w, t, s.table[t]);
  }

  /** And every target it names is registered with its list in the end, loaded or not, an empty list included. */
  lemma {:induction false} EveryEntryIsRegistered(w: World, first: State, evs: seq<Event>, policy: seq<Restriction>,
                                                  i: nat)
    requires JustUp(first) && Legal(w, first, evs) && Drained(After(w, first, evs))
    requires w.policy == Some(policy) && i < |policy|
    requires policy[i].target !in {Name("capability_module"), Name("core"), Name("core_service")}
    requires forall j, k :: 0 <= j < k < |policy| ==> policy[j].target != policy[k].target
    ensures policy[i].target in After(w, first, evs).table
    ensures After(w, first, evs).table[policy[i].target].callers == policy[i].callers
  {
    RunsKeepInv(w, first, evs);
    var s, t := After(w, first, evs), policy[i].target;
    TheOnlyEntryIsFirst(policy, i);
    DrainedIsBare(w, s, t);
    assert EntryReached(w, s, t) && ListingInv(w, t, s.table[t]);
  }

  /**
   * A restricted target that disagrees has a list under way or still to be started, unless one once lay stale in a
   * dial.
   */
  lemma {:induction false} StaleTargetsAreCovered(w: World, first: State, evs: seq<Event>, t: Name)
    requires Consistent(w) && JustUp(first) && Legal(w, first, evs) && NeverStale(w, first, evs, t)
    requires Restricted(w, After(w, first, evs), t) && !Agrees(w, After(w, first, evs), t)
    ensures || Covered(w, After(w, first, evs), t) || OnTheWay(w, After(w, first, evs), t)
            || HeldUp(After(w, first, evs), t)
  {
    RunsKeepFine(w, first, evs, t);
  }

  /**
   * So a target is lost only if, at some moment, work that would register another list than the one due lay in a
   * dial.
   */
  lemma {:induction false} LostOnlyInADial(w: World, first: State, evs: seq<Event>, t: Name) returns (k: nat)
    requires Consistent(w) && JustUp(first) && Legal(w, first, evs) && Drained(After(w, first, evs))
    requires Restricted(w, After(w, first, evs), t) && !Agrees(w, After(w, first, evs), t)
    ensures k < |evs| && StaleSuspended(w, At(w, first, evs, k), t)
  {
    DrainedIsBare(w, After(w, first, evs), t);
    if NeverStale(w, first, evs, t) {
      RunsKeepFine(w, first, evs, t);
    }
    k :| 0 <= k < |evs| && StaleSuspended(w, At(w, first, evs, k), t);
  }

  /**
   * A finished list for `t` in the `i`th suspended dial, with the flag it read for its `j`th dependent turned
   * since.
   */
  ghost predicate TurnedInADial(w: World, s: State, t: Name, i: nat, j: nat) {
    && i < |s.suspended| && Holds(s.suspended[i], t) && s.suspended[i].cursor.Sending?
    && j < |Candidates(w, t)| == |s.suspended[i].cursor.listing.flags|
    && s.suspended[i].cursor.listing.flags[j] != (Candidates(w, t)[j] in s.loaded)
  }

  /** For a target that follows the loaded set: only if a dependent came or went while a list for it was in a dial. */
  lemma {:induction false} LostOnlyIfADependentTurned(w: World, first: State, evs: seq<Event>, t: Name)
    returns (k: nat, i: nat, j: nat)
    requires Consistent(w) && JustUp(first) && Legal(w, first, evs) && Drained(After(w, first, evs))
    requires FollowsLoaded(w, t) && Restricted(w, After(w, first, evs), t) && !Agrees(w, After(w, first, evs), t)
    ensures k < |evs| && TurnedInADial(w, At(w, first, evs, k), t, i, j)
  {
    k := LostOnlyInADial(w, first, evs, t);
    PrefixesAreLegal(w, first, evs, k);
    RunsKeepInv(w, first, evs[..k]);
    i, j := StaleMeansTurned(w, At(w, first, evs, k), t);
  }

  lemma StaleMeansTurned(w: World, s: State, t: Name) returns (i: nat, j: nat)
    requires FlagsInv(w, s) && FollowsLoaded(w, t) && StaleSuspended(w, s, t)
    ensures TurnedInADial(w, s, t, i, j)
  {
    i :| 0 <= i < |s.suspended| && Stale(w, s.loaded, s.suspended[i], t);
    var f := s.suspended[i];
    assert FrameInv(w, f);
    assert !Spoiler(w, f.pushes, t);
    var l := f.cursor.listing;
    assert ListingInv(w, t, l);
    SameListIffSameFlags(w, s.loaded, t, l.flags);
    var now := Flags(Candidates(w, t), s.loaded);
    assert l.flags != now && |l.flags| == |now|;
    j :| 0 <= j < |now| && l.flags[j] != now[j];
  }

  /** Nothing was ever delivered inside a dial. */
  ghost predicate NeverNested(w: World, first: State, evs: seq<Event>)
    requires Legal(w, first, evs)
  {
    forall k: nat :: k < |evs| ==> At(w, first, evs, k).suspended == []
  }

  /** In particular, when posted work runs one piece at a time, all agree once it has drained. */
  lemma {:induction false} DrainedMeansAllAgree(w: World, first: State, evs: seq<Event>)
    requires Consistent(w) && JustUp(first) && Legal(w, first, evs) && NeverNested(w, first, evs)
    requires Drained(After(w, first, evs))
    ensures AllAgree(w, After(w, first, evs))
  {
    var s := After(w, first, evs);
    forall t | Restricted(w, s, t)
      ensures Agrees(w, s, t)
    {
      if !Agrees(w, s, t) {
        var k := LostOnlyInADial(w, first, evs, t);
      }
    }
  }

  // ---------------------------------------------------------------- an unexpected death

  /** A death unlists its module and posts nothing. */
  function Died(s: State, d: Name): State {
    s.(loaded := s.loaded - {d})
  }

  /** No target that stays loaded takes its list from what is loaded and has `d` among its dependents. */
  predicate NobodyCounts(w: World, s: State, d: Name) {
    forall t :: t in s.loaded && t != d && FollowsLoaded(w, t) ==> d !in Candidates(w, t)
  }

  /** After an unexpected death the table still agrees exactly when no such target is left. */
  lemma DeathLeavesTheTableStale(w: World, s: State, d: Name)
    requires AllAgree(w, s) && d in s.loaded && d !in TRUSTED
    ensures AllAgree(w, Died(s, d)) <==> NobodyCounts(w, s, d)
  {
    var s' := Died(s, d);
    forall t | t in s'.loaded
      ensures Restricted(w, s', t) ==> (Agrees(w, s', t) <==> !FollowsLoaded(w, t) || d !in Candidates(w, t))
      ensures FollowsLoaded(w, t) ==> Restricted(w, s', t)
    {
      OneTargetAfterDeath(w, s, d, t);
    }
  }

  lemma OneTargetAfterDeath(w: World, s: State, d: Name, t: Name)
    requires AllAgree(w, s) && d in s.loaded && d !in TRUSTED && t in s.loaded && t != d
    ensures Restricted(w, Died(s, d), t) ==>
              (Agrees(w, Died(s, d), t) <==> !FollowsLoaded(w, t) || d !in Candidates(w, t))
    ensures FollowsLoaded(w, t) ==> Restricted(w, Died(s, d), t)
  {
    var s' := Died(s, d);
    assert Restricted(w, s, t) ==> Agrees(w, s, t);
    if FollowsLoaded(w, t) {
      var all := Candidates(w, t);
      GatherAdds([], all, s.loaded);
      GatherAdds([], all, s'.loaded);
      AddAllAdds(Gather([], all, s.loaded), TRUSTED);
      AddAllAdds(Gather([], all, s'.loaded), TRUSTED);
      RestrictedWhenFollowing(w, s.loaded, t);
      RestrictedWhenFollowing(w, s'.loaded, t);
      if d in all {
        assert d in Derived(w, s.loaded, t) && d !in Derived(w, s'.loaded, t);
      } else {
        GatherIgnores([], all, s.loaded, s'.loaded);
      }
    } else {
      assert Derived(w, s.loaded, t) == Derived(w, s'.loaded, t);
    }
  }
}
