/** Callers, the worker and the stopper of one glue, and the container that owns it, interleaved. */
module DispatchProtocol {
  import opened Names
  import opened BareModuleGlue

  /** The innermost dispatch on the worker. Claiming, entering the image and answering are separate steps. */
  datatype Top = Idle | Popped(id: CallId) | Holding(id: CallId) | InImage(id: CallId) | Answering(id: CallId)

  /**
   * The worker's stack of dispatches: those in `below` are inside the image, each waiting in an event
   * loop for an answer from elsewhere. Such a loop delivers the next posted dispatch on top of it.
   */
  datatype Worker = NoThread | Running(below: seq<CallId>, top: Top) | Exited

  /** Where stopDispatch is; `AtRest` carries its last verdict. */
  datatype Stopper = AtRest(verdict: Option<bool>) | Retiring | Waiting | Waited(stopped: bool)
                   | Owing(stopped: bool, owed: seq<CallId>)

  /** What the container has done with the instance. */
  datatype Owner = Mapped | Terminating | Abandoned | Destroyed

  datatype State = State(
    glue: Glue, worker: Worker, stopper: Stopper, owner: Owner, quit: bool, inlineFrames: nat,
    // the history: completions delivered, dispatches begun, and whether some things ever happened
    done: seq<CallId>, entered: seq<CallId>, taken: bool, timedOut: bool, everInline: bool, nested: bool)

  datatype Event =
    | Call | InlineReturns | Enable
    | Pop | Claim | Enter | Leave | Deliver | Exit
    | StopBegins | AskToQuit | WaitEnds | Take | AnswerOne | StopEnds
    | Terminate | Settle

  const START := State(Glue(Inline, false, [], [], 0), NoThread, AtRest(None), Mapped, false, 0,
                       [], [], false, false, false, false)

  /** What the worker goes back to when its innermost dispatch is over. */
  function Resumed(below: seq<CallId>): Worker {
    if below == [] then Running([], Idle) else Running(below[..|below| - 1], InImage(below[|below| - 1]))
  }

  predicate Can(s: State, ev: Event) {
    match ev
    case Call => s.owner != Destroyed
    case InlineReturns => s.inlineFrames > 0
    case Enable => s.owner.Mapped?
    case Pop => s.worker.Running? && (s.worker.top.Idle? || s.worker.top.InImage?) && s.glue.posted != []
    case Claim => s.worker.Running? && s.worker.top.Popped?
    case Enter => s.worker.Running? && s.worker.top.Holding?
    case Leave => s.worker.Running? && s.worker.top.InImage?
    case Deliver => s.worker.Running? && s.worker.top.Answering?
    case Exit => s.worker.Running? && s.worker.top.Idle? && s.quit
    case StopBegins => s.stopper.AtRest? && s.owner != Destroyed
    case AskToQuit => s.stopper.Retiring?
    case WaitEnds => s.stopper.Waiting?
    case Take => s.stopper.Waited?
    case AnswerOne => s.stopper.Owing? && s.stopper.owed != []
    case StopEnds => s.stopper.Owing? && s.stopper.owed == []
    case Terminate => s.owner.Mapped?
    case Settle => s.owner.Terminating? && s.stopper.AtRest? && s.stopper.verdict.Some?
  }

  predicate PoppedOne(w: Worker) {
    w.Running? && w.top.Popped?
  }

  predicate ClaimsOne(s: State, ev: Event) {
    ev.Claim? && PoppedOne(s.worker) && s.worker.top.id in s.glue.queued
  }

  function GlueAfter(s: State, ev: Event): Glue
    requires Can(s, ev)
  {
    match ev
    case Call => if s.glue.dispatch.Deferred? then Registered(s.glue) else s.glue
    case Enable => Enabled(s.glue)
    case Pop => s.glue.(posted := s.glue.posted[1..])
    case Claim => Claimed(s.glue, s.worker.top.id)
    case StopBegins => s.glue.(dispatch := Retired)
    case Take => Taken(s.glue)
    case StopEnds => if s.stopper.stopped then Dismantled(s.glue) else s.glue
    case _ => s.glue
  }

  function WorkerAfter(s: State, ev: Event): Worker
    requires Can(s, ev)
  {
    match ev
    case Enable => if s.glue.dispatch.Inline? then Running([], Idle) else s.worker
    case Pop =>
      var below := if s.worker.top.InImage? then s.worker.below + [s.worker.top.id] else s.worker.below;
      Running(below, Popped(s.glue.posted[0]))
    case Claim =>
      if ClaimsOne(s, ev) then Running(s.worker.below, Holding(s.worker.top.id)) else Resumed(s.worker.below)
    case Enter => Running(s.worker.below, InImage(s.worker.top.id))
    case Leave => Running(s.worker.below, Answering(s.worker.top.id))
    case Deliver => Resumed(s.worker.below)
    case Exit => Exited
    case StopEnds => if s.stopper.stopped then NoThread else s.worker
    case _ => s.worker
  }

  function StopperAfter(s: State, ev: Event): Stopper
    requires Can(s, ev)
  {
    match ev
    case StopBegins => if s.glue.thread then Retiring else AtRest(Some(true))
    case AskToQuit => Waiting
    case WaitEnds => Waited(s.worker.Exited?)
    case Take => Owing(s.stopper.stopped, s.glue.queued)
    case AnswerOne => Owing(s.stopper.stopped, s.stopper.owed[1..])
    case StopEnds => AtRest(Some(s.stopper.stopped))
    case _ => s.stopper
  }

  function OwnerAfter(s: State, ev: Event): Owner
    requires Can(s, ev)
  {
    match ev
    case Terminate => Terminating
    case Settle => if s.stopper.verdict.value then Destroyed else Abandoned
    case _ => s.owner
  }

  function DoneAfter(s: State, ev: Event): seq<CallId>
    requires Can(s, ev)
  {
    match ev
    case Deliver => s.done + [s.worker.top.id]
    case AnswerOne => s.done + [s.stopper.owed[0]]
    case _ => s.done
  }

  function EnteredAfter(s: State, ev: Event): seq<CallId>
    requires Can(s, ev)
  {
    if ev.Enter? then s.entered + [s.worker.top.id] else s.entered
  }

  /** A call that finds no deferral goes in on its own thread; one that finds the glue retired is refused. */
  function InlineAfter(s: State, ev: Event): nat
    requires Can(s, ev)
  {
    if ev.Call? && s.glue.dispatch.Inline? then s.inlineFrames + 1
    else if ev.InlineReturns? then s.inlineFrames - 1
    else s.inlineFrames
  }

  function Do(s: State, ev: Event): State
    requires Can(s, ev)
  {
    State(GlueAfter(s, ev), WorkerAfter(s, ev), StopperAfter(s, ev), OwnerAfter(s, ev),
          s.quit || ev.AskToQuit?, InlineAfter(s, ev), DoneAfter(s, ev), EnteredAfter(s, ev),
          s.taken || ev.Take?,
          s.timedOut || (ev.WaitEnds? && !s.worker.Exited?),
          s.everInline || (ev.Call? && s.glue.dispatch.Inline?),
          s.nested || (ClaimsOne(s, ev) && s.worker.below != []))
  }

  // ---------------------------------------------------------------- runs

  ghost predicate Legal(evs: seq<Event>)
    decreases |evs|, 0
  {
    evs == [] || (Legal(evs[..|evs| - 1]) && Can(After(evs[..|evs| - 1]), evs[|evs| - 1]))
  }

  ghost function After(evs: seq<Event>): State
    requires Legal(evs)
    decreases |evs|, 1
  {
    if evs == [] then START else Do(After(evs[..|evs| - 1]), evs[|evs| - 1])
  }

  // ---------------------------------------------------------------- the ledger of promises

  /** The calls the worker has claimed and not yet answered, outermost first. */
  function Held(s: State): seq<CallId> {
    if !s.worker.Running? then []
    else s.worker.below + if s.worker.top.Idle? || s.worker.top.Popped? then [] else [s.worker.top.id]
  }

  function Owed(s: State): seq<CallId> {
    if s.stopper.Owing? then s.stopper.owed else []
  }

  /** Every promised completion: delivered, with the worker, with the stopper, or queued. */
  function Ledger(s: State): seq<CallId> {
    s.done + Held(s) + Owed(s) + s.glue.queued
  }

  function Range(a: nat, b: nat): seq<CallId>
    requires a <= b
  {
    seq(b - a, i requires 0 <= i < b - a => a + i)
  }

  ghost predicate ExactlyOnce(ids: seq<CallId>, n: nat) {
    NoDup(ids) && forall id: nat :: id in ids <==> id < n
  }

  ghost predicate Increasing(ids: seq<CallId>) {
    forall i, j :: 0 <= i < j < |ids| ==> ids[i] < ids[j]
  }

  predicate Disturbed(s: State) {
    s.timedOut || s.nested
  }

  /** Each of the first `n` calls once; in issue order as long as nothing disturbed it. */
  ghost predicate Kept(ids: seq<CallId>, n: nat, disturbed: bool) {
    ExactlyOnce(ids, n) && (!disturbed ==> ids == Range(0, n))
  }

  /** The queue is the latest calls, in order. */
  ghost predicate Latest(queued: seq<CallId>, n: nat) {
    |queued| <= n && queued == Range(n - |queued|, n)
  }

  ghost predicate Promises(s: State) {
    Kept(Ledger(s), s.glue.counter, Disturbed(s)) && Latest(s.glue.queued, s.glue.counter)
  }

  ghost predicate Queues(s: State) {
    && (s.taken ==> s.glue.dispatch.Retired? && s.glue.queued == [])
    && (!s.taken ==> s.glue.queued == (if PoppedOne(s.worker) then [s.worker.top.id] else []) + s.glue.posted)
    && (!s.glue.thread ==> s.glue.queued == [] && s.glue.posted == [])
  }

  ghost predicate StopPhases(s: State) {
    && (!s.stopper.AtRest? ==> s.glue.dispatch.Retired? && s.glue.thread)
    && (s.stopper.Owing? ==> s.taken && (s.stopper.stopped ==> s.worker.Exited?) && (!s.stopper.stopped ==> s.timedOut))
    && (s.stopper.Waited? ==> (s.stopper.stopped ==> s.worker.Exited?) && (!s.stopper.stopped ==> s.timedOut))
    && (s.stopper == AtRest(Some(true)) ==> s.glue.dispatch.Retired? && !s.glue.thread && s.glue.queued == [])
    && (s.stopper == AtRest(Some(false)) ==> s.taken && s.timedOut)
  }

  ghost predicate ThreadPhases(s: State) {
    && (s.glue.thread <==> !s.worker.NoThread?)
    && (s.glue.dispatch.Inline? ==> !s.glue.thread && s.stopper == AtRest(None))
    && (s.glue.dispatch.Deferred? ==> s.glue.thread && s.stopper == AtRest(None))
    && (s.worker.Exited? ==> s.quit)
    && (s.quit ==> s.glue.dispatch.Retired?)
  }

  ghost predicate Phases(s: State) {
    ThreadPhases(s) && StopPhases(s)
  }

  /** Held calls: each later than the one it nests in, none as late as `bound`, and just one unless some have nested. */
  ghost predicate Nest(held: seq<CallId>, bound: int, nested: bool) {
    Increasing(held) && (forall id :: id in held ==> id < bound) && (!nested ==> |held| <= 1)
  }

  /** What the worker holds left the queue before everything still in it. */
  ghost predicate Stack(s: State) {
    && (s.worker.Running? && s.worker.top.Idle? ==> s.worker.below == [])
    && |s.glue.queued| <= s.glue.counter
    && Nest(Held(s), s.glue.counter - |s.glue.queued|, s.nested)
  }

  ghost predicate Entries(s: State) {
    && Increasing(s.entered)
    && (forall i :: 0 <= i < |s.entered| ==> s.entered[i] < s.glue.counter - |s.glue.queued|)
    && (s.worker.Running? && s.worker.top.Holding? ==>
          forall i :: 0 <= i < |s.entered| ==> s.entered[i] < s.worker.top.id)
  }

  ghost predicate Ownership(s: State) {
    && (s.owner.Destroyed? ==> s.stopper == AtRest(Some(true)))
    && (s.owner.Abandoned? ==> s.timedOut)
    && (!s.everInline ==> s.inlineFrames == 0)
  }

  ghost predicate Inv(s: State) {
    Phases(s) && Queues(s) && Promises(s) && Stack(s) && Entries(s) && Ownership(s)
  }

  // ---------------------------------------------------------------- every step keeps it

  lemma KeepsThreadPhases(s: State, ev: Event)
    requires Phases(s) && Can(s, ev)
    ensures ThreadPhases(Do(s, ev))
  {
  }

  lemma KeepsStopPhases(s: State, ev: Event)
    requires Inv(s) && Can(s, ev)
    ensures StopPhases(Do(s, ev))
  {
  }

  lemma ClaimTakesTheFront(s: State)
    requires Queues(s) && PoppedOne(s.worker)
    ensures s.taken ==> s.glue.queued == [] && Without(s.glue.queued, s.worker.top.id) == []
    ensures !s.taken ==> s.glue.queued == [s.worker.top.id] + s.glue.posted
                         && Without(s.glue.queued, s.worker.top.id) == s.glue.posted
  {
  }

  lemma KeepsQueuesOnClaim(s: State)
    requires Queues(s) && Can(s, Claim)
    ensures Queues(Do(s, Claim)) && |Do(s, Claim).glue.queued| <= |s.glue.queued|
  {
    ClaimTakesTheFront(s);
  }

  lemma KeepsQueues(s: State, ev: Event)
    requires Phases(s) && Queues(s) && Can(s, ev)
    ensures Queues(Do(s, ev))
  {
    if ev.Claim? {
      KeepsQueuesOnClaim(s);
    } else {
      assert PoppedOne(Do(s, ev).worker) ==> ev.Pop? || Do(s, ev).worker == s.worker;
    }
  }

  lemma ResumedHolds(below: seq<CallId>, s: State)
    requires s.worker == Resumed(below)
    ensures Held(s) == below
  {
    if below != [] {
      assert below == below[..|below| - 1] + [below[|below| - 1]];
    }
  }

  lemma HeldAfterClaim(s: State)
    requires Stack(s) && Can(s, Claim)
    ensures Held(s) == s.worker.below
    ensures Held(Do(s, Claim)) == if ClaimsOne(s, Claim) then Held(s) + [s.worker.top.id] else Held(s)
  {
    if !ClaimsOne(s, Claim) {
      ResumedHolds(s.worker.below, Do(s, Claim));
    }
  }

  lemma HeldAfterDeliver(s: State)
    requires Stack(s) && Can(s, Deliver)
    ensures Held(Do(s, Deliver)) == s.worker.below && Held(s) == s.worker.below + [s.worker.top.id]
  {
    ResumedHolds(s.worker.below, Do(s, Deliver));
  }

  lemma HeldAfterOthers(s: State, ev: Event)
    requires Phases(s) && Stack(s) && Can(s, ev) && !ev.Claim? && !ev.Deliver?
    ensures Held(Do(s, ev)) == Held(s)
  {
  }

  /** How each step changes what the worker holds. */
  lemma HeldAfter(s: State, ev: Event)
    requires Phases(s) && Stack(s) && Can(s, ev)
    ensures ClaimsOne(s, ev) ==> Held(s) == s.worker.below && Held(Do(s, ev)) == Held(s) + [s.worker.top.id]
    ensures ev.Deliver? ==> Held(Do(s, ev)) == s.worker.below && Held(s) == s.worker.below + [s.worker.top.id]
    ensures !ev.Deliver? && !ClaimsOne(s, ev) ==> Held(Do(s, ev)) == Held(s)
  {
    if ev.Claim? {
      HeldAfterClaim(s);
    } else if ev.Deliver? {
      HeldAfterDeliver(s);
    } else {
      HeldAfterOthers(s, ev);
    }
  }

  predicate MovesPromises(s: State, ev: Event) {
    ev.Call? || (ev.Claim? && !s.taken) || ev.Deliver? || ev.Take? || ev.AnswerOne?
  }

  lemma KeepsPromisesQuietly(s: State, ev: Event)
    requires Phases(s) && Queues(s) && Stack(s) && Promises(s) && Can(s, ev) && !MovesPromises(s, ev)
    ensures Promises(Do(s, ev))
  {
    var s' := Do(s, ev);
    HeldAfter(s, ev);
    assert s'.done == s.done && Owed(s') == Owed(s) && s'.glue.queued == s.glue.queued;
  }

  lemma KeptGrows(ids: seq<CallId>, n: nat, disturbed: bool)
    requires Kept(ids, n, disturbed)
    ensures Kept(ids + [n], n + 1, disturbed)
  {
    assert n !in ids;
    assert Range(0, n + 1) == Range(0, n) + [n];
  }

  lemma LatestGrows(queued: seq<CallId>, n: nat)
    requires Latest(queued, n)
    ensures Latest(queued + [n], n + 1)
    ensures queued != [] ==> Latest(queued[1..], n)
    ensures Latest([], n)
  {
    assert Range(n - |queued|, n + 1) == Range(n - |queued|, n) + [n];
    assert Range(n, n) == [];
    if queued != [] {
      assert Range(n - |queued|, n)[1..] == Range(n - |queued| + 1, n);
    }
  }

  lemma Associates(a: seq<CallId>, b: seq<CallId>, c: seq<CallId>)
    ensures a + b + c == a + (b + c)
    ensures a + [] + c == a + c + [] && a + b + [] == a + b
  {
  }

  /** A new promise is numbered after all the others and queued behind them. */
  lemma KeepsPromisesOnCall(s: State)
    requires Promises(s) && Can(s, Call)
    ensures Promises(Do(s, Call))
  {
    if s.glue.dispatch.Deferred? {
      var n := s.glue.counter;
      Associates(s.done + Held(s) + Owed(s), s.glue.queued, [n]);
      KeptGrows(Ledger(s), n, Disturbed(s));
      LatestGrows(s.glue.queued, n);
    }
  }

  lemma KeepsPromisesOnClaim(s: State)
    requires Phases(s) && Queues(s) && Stack(s) && !s.taken && Promises(s) && Can(s, Claim)
    ensures Promises(Do(s, Claim))
  {
    var id, q, rest, s' := s.worker.top.id, s.glue.queued, s.glue.posted, Do(s, Claim);
    HeldAfter(s, Claim);
    ClaimTakesTheFront(s);
    LatestGrows(q, s.glue.counter);
    Regroup(s.done, Held(s), id, rest);
    assert q == [id] + rest && rest == q[1..];
    assert Ledger(s') == Ledger(s);
  }

  lemma Regroup(done: seq<CallId>, held: seq<CallId>, id: CallId, rest: seq<CallId>)
    ensures done + (held + [id]) + [] + rest == done + held + [] + ([id] + rest)
  {
  }

  lemma NothingToSwap(a: seq<CallId>, b: seq<CallId>, c: seq<CallId>)
    ensures a + [] + b + c == a + b + [] + c
  {
    assert a + [] == a && a + b + [] == a + b;
  }

  lemma LedgersAround(done: seq<CallId>, under: seq<CallId>, id: CallId, owed: seq<CallId>, queued: seq<CallId>)
    ensures done + (under + [id]) + owed + queued == done + under + [id] + (owed + queued)
    ensures (done + [id]) + under + owed + queued == done + [id] + under + (owed + queued)
  {
  }

  lemma MovedForward(done: seq<CallId>, under: seq<CallId>, id: CallId, rest: seq<CallId>, n: nat, disturbed: bool)
    requires Kept(done + under + [id] + rest, n, disturbed) && (under != [] ==> disturbed)
    ensures Kept(done + [id] + under + rest, n, disturbed)
  {
    if under == [] {
      NothingToSwap(done, [id], rest);
    } else {
      Swapped(done, under, [id], rest, n);
    }
  }

  /** Delivering with another dispatch still under way is what overtakes. */
  lemma KeepsPromisesOnDeliver(s: State)
    requires Phases(s) && Promises(s) && Stack(s) && Can(s, Deliver)
    ensures Promises(Do(s, Deliver))
  {
    var id, under := s.worker.top.id, s.worker.below;
    HeldAfterDeliver(s);
    LedgersAround(s.done, under, id, Owed(s), s.glue.queued);
    assert |Held(s)| == |under| + 1;
    MovedForward(s.done, under, id, Owed(s) + s.glue.queued, s.glue.counter, Disturbed(s));
  }

  lemma KeepsPromisesOnTake(s: State)
    requires Promises(s) && Can(s, Take)
    ensures Promises(Do(s, Take))
  {
    var a, q := s.done + Held(s), s.glue.queued;
    LatestGrows(q, s.glue.counter);
    assert Ledger(s) == a + [] + q && Ledger(Do(s, Take)) == a + q + [];
    Associates(a, [], q);
  }

  /** Answering an owed call while the worker still holds one is the other way to leave issue order. */
  lemma KeepsPromisesOnAnswer(s: State)
    requires Promises(s) && Can(s, AnswerOne) && s.glue.queued == []
    requires Held(s) != [] ==> s.timedOut
    ensures Promises(Do(s, AnswerOne))
  {
    var o, rest := s.stopper.owed[0], s.stopper.owed[1..];
    assert Ledger(s) == s.done + Held(s) + [o] + rest;
    assert Ledger(Do(s, AnswerOne)) == s.done + [o] + Held(s) + rest;
    if Held(s) == [] {
      NothingToSwap(s.done, [o], rest);
    } else {
      Swapped(s.done, Held(s), [o], rest, s.glue.counter);
    }
  }

  lemma KeepsPromises(s: State, ev: Event)
    requires Inv(s) && Can(s, ev)
    ensures Promises(Do(s, ev))
  {
    if !MovesPromises(s, ev) {
      KeepsPromisesQuietly(s, ev);
    } else {
      match ev
      case Call => KeepsPromisesOnCall(s);
      case Claim => KeepsPromisesOnClaim(s);
      case Deliver => KeepsPromisesOnDeliver(s);
      case Take => KeepsPromisesOnTake(s);
      case AnswerOne => KeepsPromisesOnAnswer(s);
    }
  }

  lemma Swapped(a: seq<CallId>, b: seq<CallId>, c: seq<CallId>, d: seq<CallId>, n: nat)
    requires ExactlyOnce(a + b + c + d, n)
    ensures ExactlyOnce(a + c + b + d, n)
  {
    var s, t := a + b + c + d, a + c + b + d;
    var x, y, z := |a|, |b|, |c|;
    forall i, j | 0 <= i < j < |t|
      ensures t[i] != t[j]
    {
      var i' := if i < x then i else if i < x + z then i + y else if i < x + z + y then i - z else i;
      var j' := if j < x then j else if j < x + z then j + y else if j < x + z + y then j - z else j;
      assert t[i] == s[i'] && t[j] == s[j'] && i' != j';
    }
    forall id: nat
      ensures id in t <==> id in s
    {
      assert id in t <==> id in a || id in b || id in c || id in d;
    }
  }

  lemma NestGrows(held: seq<CallId>, id: CallId, nested: bool)
    requires Nest(held, id, nested)
    ensures Nest(held + [id], id + 1, nested || held != [])
  {
    var all := held + [id];
    forall i, j | 0 <= i < j < |all|
      ensures all[i] < all[j]
    {
      assert all[i] in held;
    }
    forall x | x in all
      ensures x < id + 1
    {
      assert x in held || x == id;
    }
  }

  lemma NestShrinks(held: seq<CallId>, id: CallId, bound: int, nested: bool)
    requires Nest(held + [id], bound, nested)
    ensures Nest(held, bound, nested)
  {
    var all := held + [id];
    forall i, j | 0 <= i < j < |held|
      ensures held[i] < held[j]
    {
      assert all[i] < all[j];
    }
    assert forall x :: x in held ==> x in all;
  }

  lemma KeepsNestOnClaim(s: State)
    requires Queues(s) && Promises(s) && Stack(s) && Can(s, Claim) && !s.taken
    ensures Nest(Held(Do(s, Claim)), Do(s, Claim).glue.counter - |Do(s, Claim).glue.queued|, Do(s, Claim).nested)
  {
    HeldAfterClaim(s);
    ClaimTakesTheFront(s);
    var id, q := s.worker.top.id, s.glue.queued;
    assert q == [id] + s.glue.posted;
    assert q[0] == s.glue.counter - |q|;
    NestGrows(Held(s), id, s.nested);
  }

  lemma KeepsNest(s: State, ev: Event)
    requires Phases(s) && Queues(s) && Promises(s) && Stack(s) && Can(s, ev)
    ensures Nest(Held(Do(s, ev)), Do(s, ev).glue.counter - |Do(s, ev).glue.queued|, Do(s, ev).nested)
  {
    if ev.Claim? && !s.taken {
      KeepsNestOnClaim(s);
    } else if ev.Claim? {
      HeldAfterClaim(s);
      ClaimTakesTheFront(s);
    } else if ev.Deliver? {
      HeldAfterDeliver(s);
      NestShrinks(s.worker.below, s.worker.top.id, s.glue.counter - |s.glue.queued|, s.nested);
    } else {
      HeldAfterOthers(s, ev);
    }
  }

  lemma KeepsStack(s: State, ev: Event)
    requires Phases(s) && Queues(s) && Promises(s) && Stack(s) && Can(s, ev)
    ensures Stack(Do(s, ev))
  {
    KeepsNest(s, ev);
    KeepsQueueShort(s, ev);
    IdleHasNothingBelow(s, ev);
  }

  lemma KeepsQueueShort(s: State, ev: Event)
    requires Queues(s) && Stack(s) && Can(s, ev)
    ensures |Do(s, ev).glue.queued| <= Do(s, ev).glue.counter
  {
    if ev.Claim? {
      KeepsQueuesOnClaim(s);
    }
  }

  lemma IdleHasNothingBelow(s: State, ev: Event)
    requires Stack(s) && Can(s, ev)
    ensures Do(s, ev).worker.Running? && Do(s, ev).worker.top.Idle? ==> Do(s, ev).worker.below == []
  {
  }

  lemma KeepsEntriesOnClaim(s: State)
    requires Queues(s) && Promises(s) && Entries(s) && Can(s, Claim)
    ensures Entries(Do(s, Claim))
  {
    ClaimTakesTheFront(s);
    if !s.taken {
      assert s.glue.queued[0] == s.glue.counter - |s.glue.queued|;
    }
  }

  lemma KeepsEntriesOnEnter(s: State)
    requires Stack(s) && Entries(s) && Can(s, Enter)
    ensures Entries(Do(s, Enter))
  {
    assert s.worker.top.id in Held(s);
  }

  lemma QueueNeverGoesBack(s: State, ev: Event)
    requires |s.glue.queued| <= s.glue.counter && Can(s, ev) && !ev.Claim?
    ensures s.glue.counter - |s.glue.queued| <= Do(s, ev).glue.counter - |Do(s, ev).glue.queued|
  {
  }

  lemma KeepsEntriesQuietly(s: State, ev: Event)
    requires Entries(s) && |s.glue.queued| <= s.glue.counter && Can(s, ev) && !ev.Claim? && !ev.Enter?
    ensures Entries(Do(s, ev))
  {
    var s' := Do(s, ev);
    QueueNeverGoesBack(s, ev);
    assert s'.worker.Running? && s'.worker.top.Holding? ==> s'.worker == s.worker;
  }

  lemma KeepsEntries(s: State, ev: Event)
    requires Inv(s) && Can(s, ev)
    ensures Entries(Do(s, ev))
  {
    match ev
    case Claim => KeepsEntriesOnClaim(s);
    case Enter => KeepsEntriesOnEnter(s);
    case _ => KeepsEntriesQuietly(s, ev);
  }

  lemma KeepsOwnership(s: State, ev: Event)
    requires Phases(s) && Ownership(s) && Can(s, ev)
    ensures Ownership(Do(s, ev))
  {
  }

  /** The invariant holds after every legal run. */
  lemma {:induction false} RunsKeepInv(evs: seq<Event>)
    requires Legal(evs)
    ensures Inv(After(evs))
  {
    if evs == [] {
      assert Range(0, 0) == [] && Ledger(START) == [];
    } else {
      var front, ev := evs[..|evs| - 1], evs[|evs| - 1];
      RunsKeepInv(front);
      var s := After(front);
      KeepsThreadPhases(s, ev);
      KeepsStopPhases(s, ev);
      KeepsQueues(s, ev);
      KeepsPromises(s, ev);
      KeepsStack(s, ev);
      KeepsEntries(s, ev);
      KeepsOwnership(s, ev);
    }
  }

  // ---------------------------------------------------------------- what callers may rely on

  /** At most one completion per pending call, in every interleaving. */
  lemma {:induction false} AtMostOneCompletion(evs: seq<Event>)
    requires Legal(evs)
    ensures NoDup(After(evs).done) && forall id: nat :: id in After(evs).done ==> id < After(evs).glue.counter
  {
    RunsKeepInv(evs);
    SplitLedger(After(evs));
  }

  lemma SplitLedger(s: State)
    requires Promises(s)
    ensures NoDup(s.done) && forall id: nat :: id in s.done ==> id < s.glue.counter
    ensures forall id: nat :: id < s.glue.counter && id !in s.done ==> id in Held(s) + Owed(s) + s.glue.queued
  {
    var rest := Held(s) + Owed(s) + s.glue.queued;
    assert Ledger(s) == s.done + rest;
    PrefixOf(s.done, rest, Ledger(s), s.glue.counter);
  }

  lemma PrefixOf(a: seq<CallId>, b: seq<CallId>, ids: seq<CallId>, n: nat)
    requires ids == a + b && ExactlyOnce(ids, n)
    ensures NoDup(a) && (forall id: nat :: id in a ==> id < n)
    ensures forall id: nat :: id < n && id !in a ==> id in b
  {
    forall i, j | 0 <= i < j < |a|
      ensures a[i] != a[j]
    {
      assert ids[i] == a[i] && ids[j] == a[j];
    }
    assert forall id: nat :: id in a ==> id in ids;
    forall id: nat | id < n && id !in a
      ensures id in b
    {
      assert id in a + b;
    }
  }

  /** A successful stop has answered every pending call, and its worker is gone. */
  lemma {:induction false} StoppedMeansAllAnswered(evs: seq<Event>)
    requires Legal(evs) && After(evs).stopper == AtRest(Some(true))
    ensures ExactlyOnce(After(evs).done, After(evs).glue.counter)
    ensures After(evs).worker.NoThread?
  {
    RunsKeepInv(evs);
    AllDelivered(After(evs));
  }

  /** A stop that timed out leaves outstanding only what the worker had claimed: one call, unless handlers nested. */
  lemma {:induction false} TimedOutLeavesTheClaimed(evs: seq<Event>, id: CallId)
    requires Legal(evs) && After(evs).stopper == AtRest(Some(false))
    requires id < After(evs).glue.counter && id !in After(evs).done
    ensures id in Held(After(evs))
    ensures !After(evs).nested ==> Held(After(evs)) == [id]
  {
    RunsKeepInv(evs);
    OutstandingIsHeld(After(evs), id);
  }

  lemma OutstandingIsHeld(s: State, id: CallId)
    requires Queues(s) && Promises(s) && s.taken && s.stopper.AtRest? && id < s.glue.counter && id !in s.done
    ensures id in Held(s)
    ensures |Held(s)| <= 1 ==> Held(s) == [id]
  {
    SplitLedger(s);
    assert Held(s) + Owed(s) + s.glue.queued == Held(s);
  }

  /** Until a stop times out or a handler lets another dispatch in, completions come in the order of the calls. */
  lemma {:induction false} CompletionsFollowIssueOrder(evs: seq<Event>)
    requires Legal(evs) && !Disturbed(After(evs))
    ensures |After(evs).done| <= After(evs).glue.counter
    ensures After(evs).done == Range(0, |After(evs).done|)
  {
    RunsKeepInv(evs);
    var s := After(evs);
    assert |Ledger(s)| == s.glue.counter;
    assert s.done == Ledger(s)[..|s.done|];
  }

  function DispatchesInImage(s: State): nat {
    s.inlineFrames + if !s.worker.Running? then 0 else |s.worker.below| + if s.worker.top.InImage? then 1 else 0
  }

  /**
   * Dispatches begin in issue order; and one at a time, for a glue no call reached before it was
   * deferred, as long as no handler lets another dispatch in.
   */
  lemma {:induction false} DispatchIsSerial(evs: seq<Event>)
    requires Legal(evs)
    ensures Increasing(After(evs).entered)
    ensures !After(evs).everInline && !After(evs).nested ==> DispatchesInImage(After(evs)) <= 1
  {
    RunsKeepInv(evs);
    assert DispatchesInImage(After(evs)) <= After(evs).inlineFrames + |Held(After(evs))|;
  }

  /** Once the stop has taken the queue, the only dispatch that may still begin was claimed before it. */
  lemma {:induction false} NoLateEntry(evs: seq<Event>, more: seq<Event>)
    requires Legal(evs) && Legal(evs + more) && After(evs).taken
    ensures forall id :: id in After(evs + more).entered ==> id in After(evs).entered || id in Held(After(evs))
    ensures forall id :: id in Held(After(evs + more)) ==> id in Held(After(evs))
    ensures After(evs + more).taken
  {
    if more == [] {
      assert evs + more == evs;
    } else {
      var front, ev := more[..|more| - 1], more[|more| - 1];
      assert (evs + more)[..|evs + more| - 1] == evs + front && (evs + more)[|evs + more| - 1] == ev;
      NoLateEntry(evs, front);
      RunsKeepInv(evs + front);
      TakenStaysTaken(After(evs + front), ev);
    }
  }

  lemma TakenStaysTaken(s: State, ev: Event)
    requires Phases(s) && Stack(s) && Queues(s) && s.taken && Can(s, ev)
    ensures Do(s, ev).taken
    ensures forall id :: id in Held(Do(s, ev)) ==> id in Held(s)
    ensures forall id :: id in Do(s, ev).entered ==> id in s.entered || id in Held(s)
  {
    HeldAfter(s, ev);
  }

  /** The container destroys a glue only with its worker gone and every promise kept. */
  lemma {:induction false} DestroyedIsQuiet(evs: seq<Event>)
    requires Legal(evs) && After(evs).owner.Destroyed?
    ensures After(evs).worker.NoThread? && ExactlyOnce(After(evs).done, After(evs).glue.counter)
    ensures !After(evs).everInline ==> DispatchesInImage(After(evs)) == 0
  {
    RunsKeepInv(evs);
    StoppedMeansAllAnswered(evs);
  }

  /**
   * Terminating ends one way or the other, by what the stop answered: after a true one the glue is destroyed, after
   * a timeout it is left alone, with its worker.
   */
  lemma {:induction false} SettledAsTheStopEnded(evs: seq<Event>)
    requires Legal(evs) && Can(After(evs), Settle)
    ensures var s, s' := After(evs), Do(After(evs), Settle);
            && (s'.owner.Destroyed? <==> s.stopper == AtRest(Some(true)))
            && (s'.owner.Abandoned? <==> s.stopper == AtRest(Some(false)))
            && (s'.owner.Abandoned? ==> s.timedOut && s.taken)
            && (s'.owner.Destroyed? || s'.owner.Abandoned?)
  {
    RunsKeepInv(evs);
  }

  /** So no glue is ever abandoned in a run without a stop that timed out. */
  lemma {:induction false} AbandonedOnlyAfterATimeout(evs: seq<Event>)
    requires Legal(evs) && After(evs).owner.Abandoned?
    ensures After(evs).timedOut
  {
    RunsKeepInv(evs);
  }

  /** The owner only ever goes from keeping a glue to terminating it, and from there to one of the two ends. */
  lemma OwnerMoves(s: State, ev: Event)
    requires Can(s, ev)
    ensures Do(s, ev).owner == s.owner
            || (s.owner == Mapped && Do(s, ev).owner == Terminating)
            || (s.owner == Terminating && (Do(s, ev).owner == Abandoned || Do(s, ev).owner == Destroyed))
  {
  }

  /** Either end is final; a destroyed glue runs, promises and completes nothing any more. */
  lemma {:induction false} EndsAreFinal(evs: seq<Event>, more: seq<Event>)
    requires Legal(evs) && Legal(evs + more)
    ensures After(evs).owner.Abandoned? ==> After(evs + more).owner.Abandoned?
    ensures After(evs).owner.Destroyed? ==>
              var s, s' := After(evs), After(evs + more);
              s'.owner.Destroyed? && s'.worker.NoThread? && s'.done == s.done && s'.glue.counter == s.glue.counter
  {
    RunsKeepInv(evs);
    if more == [] {
      assert evs + more == evs;
    } else {
      var front, ev := more[..|more| - 1], more[|more| - 1];
      assert (evs + more)[..|evs + more| - 1] == evs + front && (evs + more)[|evs + more| - 1] == ev;
      EndsAreFinal(evs, front);
      RunsKeepInv(evs + front);
      OwnerMoves(After(evs + front), ev);
    }
  }

  // ---------------------------------------------------------------- exactly when completions keep issue order

  /** The later call `x` is, or is bound to be, answered before `y`. */
  ghost predicate Overtakes(s: State, x: CallId, y: CallId) {
    || (exists i, j :: 0 <= i < j < |s.done| && s.done[i] == x && s.done[j] == y)
    || (x in s.done && y in Held(s))
    || (x in Held(s) && y in Held(s))
  }

  ghost predicate SomeOvertakes(s: State) {
    exists x, y :: y < x && Overtakes(s, x, y)
  }

  lemma OvertakingStays(s: State, ev: Event, x: CallId, y: CallId)
    requires Phases(s) && Stack(s) && Can(s, ev) && y < x && Overtakes(s, x, y)
    ensures Overtakes(Do(s, ev), x, y)
  {
    var s' := Do(s, ev);
    HeldAfter(s, ev);
    if i, j :| 0 <= i < j < |s.done| && s.done[i] == x && s.done[j] == y {
      assert s'.done[i] == x && s'.done[j] == y;
    } else if ev.Deliver? {
      DeliveringOvertakes(s, x, y);
    } else {
      HeldByTheDone(s, ev, x, y);
    }
  }

  lemma HeldByTheDone(s: State, ev: Event, x: CallId, y: CallId)
    requires Phases(s) && Stack(s) && Can(s, ev) && !ev.Deliver? && y in Held(s) && (x in s.done || x in Held(s))
    ensures y in Held(Do(s, ev)) && (x in Do(s, ev).done || x in Held(Do(s, ev)))
  {
    HeldAfter(s, ev);
  }

  /** The innermost dispatch is the latest, so of two that are held the later one is answered first. */
  lemma DeliveringOvertakes(s: State, x: CallId, y: CallId)
    requires Phases(s) && Stack(s) && Can(s, Deliver) && y < x && y in Held(s) && (x in s.done || x in Held(s))
    ensures Overtakes(Do(s, Deliver), x, y)
  {
    var s', top := Do(s, Deliver), s.worker.top.id;
    HeldAfter(s, Deliver);
    var held := Held(s);
    assert held[|held| - 1] == top && s'.done[|s.done|] == top;
    forall i | 0 <= i < |held|
      ensures held[i] <= top
    {
    }
    if y == top {
      assert x !in held;
      var i :| 0 <= i < |s.done| && s.done[i] == x;
      assert s'.done[i] == x;
    } else {
      assert y in Held(s');
      assert x in s.done ==> x in s'.done;
    }
  }

  /** A nested claim takes a later call than the one it nests in. */
  lemma NestingOvertakes(s: State)
    requires Phases(s) && Queues(s) && Promises(s) && Stack(s) && Can(s, Claim)
    requires s.worker.below != [] && s.worker.top.id in s.glue.queued
    ensures SomeOvertakes(Do(s, Claim))
  {
    var s', y := Do(s, Claim), s.worker.below[0];
    HeldAfter(s, Claim);
    ClaimTakesTheFront(s);
    assert y in Held(s);
    assert s.glue.queued[0] == s.glue.counter - |s.glue.queued|;
    assert Overtakes(s', s.worker.top.id, y);
  }

  lemma OvertakingBegins(s: State, ev: Event)
    requires Phases(s) && Queues(s) && Promises(s) && Stack(s) && Can(s, ev) && !s.nested && Do(s, ev).nested
    ensures SomeOvertakes(Do(s, ev))
  {
    assert ev.Claim?;
    NestingOvertakes(s);
  }

  lemma OvertakingGoesOn(s: State, ev: Event)
    requires Phases(s) && Stack(s) && Can(s, ev) && SomeOvertakes(s)
    ensures SomeOvertakes(Do(s, ev))
  {
    var x, y :| y < x && Overtakes(s, x, y);
    OvertakingStays(s, ev, x, y);
  }

  lemma {:induction false} NestedRunsOvertake(evs: seq<Event>)
    requires Legal(evs) && After(evs).nested
    ensures SomeOvertakes(After(evs))
  {
    var front, ev := evs[..|evs| - 1], evs[|evs| - 1];
    RunsKeepInv(front);
    if After(front).nested {
      NestedRunsOvertake(front);
      OvertakingGoesOn(After(front), ev);
    } else {
      OvertakingBegins(After(front), ev);
    }
  }

  /** After a stop that never timed out, completions kept issue order if and only if no dispatch ran inside another. */
  lemma {:induction false} IssueOrderIffNeverNested(evs: seq<Event>)
    requires Legal(evs) && After(evs).stopper == AtRest(Some(true)) && !After(evs).timedOut
    ensures After(evs).done == Range(0, After(evs).glue.counter) <==> !After(evs).nested
  {
    RunsKeepInv(evs);
    var s := After(evs);
    AllDelivered(s);
    if s.nested {
      NestedRunsOvertake(evs);
      var x, y :| y < x && Overtakes(s, x, y);
      OutOfOrder(s, x, y);
    }
  }

  lemma AllDelivered(s: State)
    requires Inv(s) && s.stopper == AtRest(Some(true))
    ensures Held(s) == [] && Ledger(s) == s.done
  {
  }

  lemma OutOfOrder(s: State, x: CallId, y: CallId)
    requires y < x && Overtakes(s, x, y) && Held(s) == []
    ensures s.done != Range(0, s.glue.counter)
  {
    var i, j :| 0 <= i < j < |s.done| && s.done[i] == x && s.done[j] == y;
  }

  // ---------------------------------------------------------------- exactly when dispatches run one at a time

  /** At some moment two dispatches were in the image. */
  ghost predicate TwoAtOnce(evs: seq<Event>) {
    exists k: nat :: k <= |evs| && TwoAt(evs[..k])
  }

  ghost predicate TwoAt(evs: seq<Event>) {
    Legal(evs) && DispatchesInImage(After(evs)) >= 2
  }

  lemma TwoOnceStays(evs: seq<Event>, ev: Event)
    requires TwoAtOnce(evs)
    ensures TwoAtOnce(evs + [ev])
  {
    var k: nat :| k <= |evs| && TwoAt(evs[..k]);
    assert (evs + [ev])[..k] == evs[..k];
  }

  /** A nested dispatch that was claimed is about to enter the image its outer one is in. */
  predicate AboutToNest(w: Worker) {
    w.Running? && w.top.Holding? && w.below != []
  }

  lemma NestingGoesIn(s: State, ev: Event)
    requires Phases(s) && Can(s, ev)
    ensures AboutToNest(s.worker) ==> AboutToNest(Do(s, ev).worker) || DispatchesInImage(Do(s, ev)) >= 2
    ensures !s.nested && Do(s, ev).nested ==> AboutToNest(Do(s, ev).worker)
  {
  }

  lemma {:induction false} NestedMeansTwo(evs: seq<Event>)
    requires Legal(evs) && After(evs).nested
    ensures TwoAtOnce(evs) || AboutToNest(After(evs).worker)
  {
    var front, ev := evs[..|evs| - 1], evs[|evs| - 1];
    assert evs == front + [ev];
    RunsKeepInv(front);
    NestingGoesIn(After(front), ev);
    if After(front).nested {
      NestedMeansTwo(front);
      if TwoAtOnce(front) {
        TwoOnceStays(front, ev);
      } else if DispatchesInImage(After(evs)) >= 2 {
        assert evs[..|evs|] == evs;
        assert TwoAt(evs[..|evs|]);
      }
    }
  }

  lemma {:induction false} PrefixesAreCalmer(evs: seq<Event>, k: nat)
    requires Legal(evs) && k <= |evs|
    ensures Legal(evs[..k])
    ensures After(evs[..k]).nested ==> After(evs).nested
    ensures After(evs[..k]).everInline ==> After(evs).everInline
  {
    if k == |evs| {
      assert evs[..k] == evs;
    } else {
      PrefixesAreCalmer(evs[..|evs| - 1], k);
      assert evs[..|evs| - 1][..k] == evs[..k];
    }
  }

  /**
   * After a stop that returned true, a glue deferred before its first call ran one dispatch at a time iff none
   * nested.
   */
  lemma {:induction false} OneAtATimeIffNeverNested(evs: seq<Event>)
    requires Legal(evs) && After(evs).stopper == AtRest(Some(true)) && !After(evs).everInline
    ensures !TwoAtOnce(evs) <==> !After(evs).nested
  {
    if After(evs).nested {
      NestedMeansTwo(evs);
      StoppedMeansAllAnswered(evs);
    } else {
      forall k: nat | k <= |evs|
        ensures !TwoAt(evs[..k])
      {
        PrefixesAreCalmer(evs, k);
        DispatchIsSerial(evs[..k]);
      }
    }
  }

  // ---------------------------------------------------------------- a run in which dispatches nest

  lemma Extended(evs: seq<Event>, ev: Event) returns (longer: seq<Event>)
    requires Legal(evs) && Can(After(evs), ev)
    ensures Legal(longer) && After(longer) == Do(After(evs), ev) && longer == evs + [ev]
  {
    longer := evs + [ev];
    assert longer[..|longer| - 1] == evs;
  }

  function Deferring(below: seq<CallId>, top: Top, queued: seq<CallId>, posted: seq<CallId>, counter: nat,
                     entered: seq<CallId>, nested: bool): State {
    State(Glue(Deferred, true, queued, posted, counter), Running(below, top), AtRest(None), Mapped, false, 0,
          [], entered, false, false, false, nested)
  }

  lemma TwoQueued() returns (evs: seq<Event>)
    ensures Legal(evs) && After(evs) == Deferring([], Idle, [0, 1], [0, 1], 2, [], false)
  {
    evs := Extended([], Enable);
    evs := Extended(evs, Call);
    evs := Extended(evs, Call);
  }

  lemma OneInside() returns (evs: seq<Event>)
    ensures Legal(evs) && After(evs) == Deferring([], InImage(0), [1], [1], 2, [0], false)
  {
    evs := TwoQueued();
    evs := Extended(evs, Pop);
    evs := Extended(evs, Claim);
    assert After(evs) == Deferring([], Holding(0), [1], [1], 2, [], false);
    evs := Extended(evs, Enter);
  }

  lemma AnotherPopped() returns (evs: seq<Event>)
    ensures Legal(evs) && After(evs) == Deferring([0], Popped(1), [1], [], 2, [0], false)
  {
    evs := OneInside();
    var none: seq<CallId>, s := [], After(evs);
    assert none + [0] == [0] && s.glue.posted[1..] == none;
    evs := Extended(evs, Pop);
  }

  /** Two calls are enough: the first handler waits for another module, and the second dispatch begins inside it. */
  lemma HandlersCanNest() returns (evs: seq<Event>)
    ensures Legal(evs) && !After(evs).everInline && !After(evs).timedOut
    ensures DispatchesInImage(After(evs)) == 2 && After(evs).entered == [0, 1]
  {
    evs := AnotherPopped();
    evs := Extended(evs, Claim);
    assert After(evs).worker == Running([0], Holding(1)) && After(evs).inlineFrames == 0;
    evs := Extended(evs, Enter);
  }
}
