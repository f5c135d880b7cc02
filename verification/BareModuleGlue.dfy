/** The deferred-dispatch queue of an in-process module: its critical sections, in place and as values. */
module BareModuleGlue {
  import opened Names

  datatype Dispatch = Inline | Deferred | Retired

  type CallId = nat

  /** What m_dispatchMutex guards, with the worker's posted events beside it. */
  datatype Glue = Glue(dispatch: Dispatch, thread: bool, queued: seq<CallId>, posted: seq<CallId>, counter: nat)

  function Enabled(g: Glue): Glue {
    if g.dispatch.Inline? then g.(dispatch := Deferred, thread := true) else g
  }

  /** A deferred call: numbered, registered and posted under one lock. */
  function Registered(g: Glue): Glue {
    g.(counter := g.counter + 1, queued := g.queued + [g.counter], posted := g.posted + [g.counter])
  }

  /** The queue without its first entry for `id`. */
  function Without(queued: seq<CallId>, id: CallId): seq<CallId> {
    if queued == [] then []
    else if queued[0] == id then queued[1..]
    else [queued[0]] + Without(queued[1..], id)
  }

  function Claimed(g: Glue, id: CallId): Glue {
    g.(queued := Without(g.queued, id))
  }

  function Taken(g: Glue): Glue {
    g.(queued := [])
  }

  function Dismantled(g: Glue): Glue {
    g.(thread := false, posted := [])
  }

  lemma {:induction false} WithoutMiddle(a: seq<CallId>, id: CallId, b: seq<CallId>)
    requires id !in a
    ensures Without(a + [id] + b, id) == a + b
  {
    var s := a + [id] + b;
    if a == [] {
      assert s == [id] + b;
      assert a + b == b;
    } else {
      assert s[0] == a[0] && s[1..] == a[1..] + [id] + b;
      WithoutMiddle(a[1..], id, b);
      assert [a[0]] + (a[1..] + b) == a + b;
    }
  }

  lemma {:induction false} WithoutAbsent(s: seq<CallId>, id: CallId)
    requires id !in s
    ensures Without(s, id) == s
  {
    if s != [] {
      WithoutAbsent(s[1..], id);
    }
  }

  class ModuleGlue {
    var dispatch: Dispatch
    var thread: bool
    var queued: seq<CallId>
    var posted: seq<CallId>
    var counter: nat

    function View(): Glue
      reads this
    {
      Glue(dispatch, thread, queued, posted, counter)
    }

    constructor ()
      ensures View() == Glue(Inline, false, [], [], 0)
    {
      dispatch, thread, queued, posted, counter := Inline, false, [], [], 0;
    }

    method EnableDeferredDispatch()
      modifies this
      ensures View() == Enabled(old(View()))
    {
      if dispatch != Inline {
        return;
      }
      thread := true;
      dispatch := Deferred;
    }

    /** The locked part of a call: the pending id when it is deferred. */
    method BeginCall() returns (pending: Option<CallId>)
      modifies this
      ensures pending == (if old(dispatch).Deferred? then Some(old(counter)) else None)
      ensures View() == if old(dispatch).Deferred? then Registered(old(View())) else old(View())
    {
      pending := None;
      match dispatch
      case Inline =>
      case Retired =>
      case Deferred =>
        pending := Some(counter);
        queued := queued + [counter];
        posted := posted + [counter];
        counter := counter + 1;
    }

    /** Take one call out of the queue; true to exactly one caller per entry. */
    method ClaimQueuedCall(id: CallId) returns (mine: bool)
      modifies this
      ensures mine <==> id in old(queued)
      ensures View() == Claimed(old(View()), id)
    {
      var i := 0;
      while i < |queued|
        invariant 0 <= i <= |queued| && View() == old(View())
        invariant id !in queued[..i]
      {
        if queued[i] == id {
          assert queued == queued[..i] + [id] + queued[i + 1..];
          WithoutMiddle(queued[..i], id, queued[i + 1..]);
          queued := queued[..i] + queued[i + 1..];
          return true;
        }
        i := i + 1;
      }
      assert queued[..i] == queued;
      WithoutAbsent(queued, id);
      return false;
    }

    /** Empties the queue into the caller's hands; the worker's claims find nothing from here on. */
    method TakeQueuedCalls() returns (taken: seq<CallId>)
      modifies this
      ensures taken == old(queued) && View() == Taken(old(View()))
    {
      taken := queued;
      queued := [];
    }

    /** Stop's first step. The answer says whether there is a worker to stop. */
    method Retire() returns (running: bool)
      modifies this
      ensures running == old(thread) && View() == old(View()).(dispatch := Retired)
    {
      dispatch := Retired;
      running := thread;
    }

    method Dismantle()
      modifies this
      ensures View() == Dismantled(old(View()))
    {
      posted := [];
      thread := false;
    }
  }
}
