/** Two whole lives of a glue: one stopped cleanly and destroyed, one whose stop times out and which is left alone. */
module DispatchRuns {
  import opened Names
  import opened BareModuleGlue
  import opened DispatchProtocol

  /** A deferring glue with two calls issued, that its container has begun to terminate. */
  function Ending(worker: Worker, stopper: Stopper, queued: seq<CallId>, posted: seq<CallId>, done: seq<CallId>,
                  taken: bool, timedOut: bool): State {
    State(Glue(Retired, true, queued, posted, 2), worker, stopper, Terminating, true, 0, done, [0], taken, timedOut,
          false, false)
  }

  /** The first call is being handled, the second waits in the queue, and the stop waits for the worker. */
  lemma StopWaits() returns (evs: seq<Event>)
    ensures Legal(evs) && After(evs) == Ending(Running([], InImage(0)), Waiting, [1], [1], [], false, false)
  {
    evs := OneInside();
    assert After(evs).glue == Glue(Deferred, true, [1], [1], 2) && After(evs).worker == Running([], InImage(0));
    evs := Extended(evs, Terminate);
    evs := Extended(evs, StopBegins);
    assert After(evs).stopper == Retiring && After(evs).glue == Glue(Retired, true, [1], [1], 2);
    evs := Extended(evs, AskToQuit);
  }

  /** The handler is back, its answer delivered, and the second call claimed, handled and answered in its turn. */
  lemma BothAnswered() returns (evs: seq<Event>)
    ensures Legal(evs)
    ensures After(evs) == Ending(Running([], Idle), Waiting, [], [], [0, 1], false, false).(entered := [0, 1])
  {
    evs := StopWaits();
    evs := Extended(evs, Leave);
    evs := Extended(evs, Deliver);
    assert After(evs) == Ending(Running([], Idle), Waiting, [1], [1], [0], false, false);
    evs := SecondEntered(evs);
    evs := Extended(evs, Leave);
    evs := Extended(evs, Deliver);
  }

  lemma SecondEntered(evs: seq<Event>) returns (longer: seq<Event>)
    requires Legal(evs) && After(evs) == Ending(Running([], Idle), Waiting, [1], [1], [0], false, false)
    ensures Legal(longer)
    ensures After(longer) == Ending(Running([], InImage(1)), Waiting, [], [], [0], false, false).(entered := [0, 1])
  {
    longer := Extended(evs, Pop);
    assert After(longer) == Ending(Running([], Popped(1)), Waiting, [1], [], [0], false, false);
    longer := Extended(longer, Claim);
    assert After(longer) == Ending(Running([], Holding(1)), Waiting, [], [], [0], false, false);
    longer := Extended(longer, Enter);
  }

  /** The worker quits, the stop returns true, and the glue is destroyed with every promise kept in order. */
  lemma DestroyedInTheEnd() returns (evs: seq<Event>)
    ensures Legal(evs) && After(evs).owner.Destroyed? && After(evs).stopper == AtRest(Some(true))
    ensures After(evs).worker.NoThread? && After(evs).done == [0, 1] && After(evs).entered == [0, 1]
  {
    evs := BothAnswered();
    evs := Extended(evs, Exit);
    evs := Extended(evs, WaitEnds);
    assert After(evs).stopper == Waited(true);
    evs := Extended(evs, Take);
    assert After(evs).stopper == Owing(true, []);
    evs := Extended(evs, StopEnds);
    evs := Extended(evs, Settle);
  }

  /** The handler does not come back in time: the stop answers the queued call itself. */
  lemma TimedOut() returns (evs: seq<Event>)
    ensures Legal(evs) && After(evs) == Ending(Running([], InImage(0)), Owing(false, []), [], [1], [1], true, true)
  {
    evs := StopWaits();
    evs := Extended(evs, WaitEnds);
    assert After(evs) == Ending(Running([], InImage(0)), Waited(false), [1], [1], [], false, true);
    evs := Extended(evs, Take);
    var s, none: seq<CallId> := After(evs), [];
    assert s == Ending(Running([], InImage(0)), Owing(false, [1]), [], [1], [], true, true);
    evs := Extended(evs, AnswerOne);
    assert s.stopper.owed[1..] == none && none + [1] == [1];
  }

  /** And the glue stays, with its worker inside. */
  lemma AbandonedInTheEnd() returns (evs: seq<Event>)
    ensures Legal(evs) && After(evs) == Ending(Running([], InImage(0)), AtRest(Some(false)), [], [1], [1], true, true)
                                        .(owner := Abandoned)
  {
    evs := TimedOut();
    evs := Extended(evs, StopEnds);
    assert After(evs) == Ending(Running([], InImage(0)), AtRest(Some(false)), [], [1], [1], true, true);
    evs := Extended(evs, Settle);
  }

  /** Later the handler is back and its answer delivered; the post of the call the stop answered claims nothing. */
  lemma AnsweredAfterAll() returns (evs: seq<Event>)
    ensures Legal(evs) && After(evs).owner.Abandoned? && After(evs).worker == Exited
    ensures After(evs).done == [1, 0] && After(evs).entered == [0]
  {
    evs := AbandonedInTheEnd();
    evs := Extended(evs, Leave);
    evs := Extended(evs, Deliver);
    assert After(evs) == Ending(Running([], Idle), AtRest(Some(false)), [], [1], [1, 0], true, true)
                         .(owner := Abandoned);
    evs := Extended(evs, Pop);
    assert After(evs).worker == Running([], Popped(1)) && After(evs).glue.queued == [];
    evs := Extended(evs, Claim);
    evs := Extended(evs, Exit);
  }

  /** A call before the glue defers goes in on its caller's thread, and is out again when it returns. */
  lemma InAndOut() returns (evs: seq<Event>)
    ensures Legal(evs) && After(evs) == START.(everInline := true)
    ensures |evs| == 2 && Legal(evs[..1]) && DispatchesInImage(After(evs[..1])) == 1
  {
    var once := Extended([], Call);
    evs := Extended(once, InlineReturns);
    assert once == [Call] && evs == [Call, InlineReturns] && evs[..1] == once;
  }
}
