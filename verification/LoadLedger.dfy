/** In-flight load attempts, expected-exit marks and the loaded set: the small locks of the load path. */
module LoadLedger {
  import opened Names

  /** `inFlight` tells of each attempt whether a termination arrived during it. */
  datatype Ledger = Ledger(inFlight: map<Name, bool>, marks: set<Name>, loaded: set<Name>)

  const EMPTY := Ledger(map[], {}, {})

  function Begun(l: Ledger, n: Name): Ledger {
    l.(inFlight := l.inFlight[n := false])
  }

  function Closed(l: Ledger, n: Name): Ledger {
    l.(inFlight := l.inFlight - {n})
  }

  /** A death: unlisted at once, and counted by the attempt under way, if any. */
  function Struck(l: Ledger, n: Name): Ledger {
    l.(loaded := l.loaded - {n}, inFlight := if n in l.inFlight then l.inFlight[n := true] else l.inFlight)
  }

  predicate DiedInFlight(l: Ledger, n: Name) {
    n in l.inFlight && l.inFlight[n]
  }

  function Committed(l: Ledger, n: Name): Ledger {
    if DiedInFlight(l, n) then Closed(l, n) else Closed(l, n).(loaded := l.loaded + {n})
  }

  function Announced(l: Ledger, n: Name): Ledger {
    l.(marks := l.marks + {n})
  }

  function Consumed(l: Ledger, n: Name): Ledger {
    l.(marks := l.marks - {n})
  }

  function Unlisted(l: Ledger, n: Name): Ledger {
    l.(loaded := l.loaded - {n})
  }

  /** One operation of another party on the ledger, between a load's begin and its commit. */
  datatype Op = Begin(n: Name) | Abandon(n: Name) | Death(n: Name) | Commit(n: Name)
              | Announce(n: Name) | Consume(n: Name) | Unlist(n: Name)

  function Apply(l: Ledger, op: Op): Ledger {
    match op
    case Begin(n) => Begun(l, n)
    case Abandon(n) => Closed(l, n)
    case Death(n) => Struck(l, n)
    case Commit(n) => Committed(l, n)
    case Announce(n) => Announced(l, n)
    case Consume(n) => Consumed(l, n)
    case Unlist(n) => Unlisted(l, n)
  }

  function Run(l: Ledger, ops: seq<Op>): Ledger {
    if ops == [] then l else Apply(Run(l, ops[..|ops| - 1]), ops[|ops| - 1])
  }

  /** Only the load itself begins, abandons or commits its own attempt. */
  predicate LeavesAttempt(op: Op, n: Name) {
    op.n == n ==> !op.Begin? && !op.Abandon? && !op.Commit?
  }

  /** Whatever happens meanwhile, the commit of an attempt fails exactly when a death of that name came in between. */
  lemma {:induction false} CommitCountsEveryDeath(l: Ledger, n: Name, ops: seq<Op>)
    requires n !in l.loaded
    requires forall i :: 0 <= i < |ops| ==> LeavesAttempt(ops[i], n)
    ensures DiedInFlight(Run(Begun(l, n), ops), n) <==> Death(n) in ops
    ensures n in Run(Begun(l, n), ops).inFlight && n !in Run(Begun(l, n), ops).loaded
    ensures n in Committed(Run(Begun(l, n), ops), n).loaded <==> Death(n) !in ops
  {
    if ops != [] {
      var front, op := ops[..|ops| - 1], ops[|ops| - 1];
      CommitCountsEveryDeath(l, n, front);
      assert ops == front + [op];
      assert LeavesAttempt(op, n);
    }
  }

  class LoadBook {
    var inFlight: map<Name, bool>
    var marks: set<Name>
    var loaded: set<Name>

    function View(): Ledger
      reads this
    {
      Ledger(inFlight, marks, loaded)
    }

    constructor ()
      ensures View() == EMPTY
    {
      inFlight, marks, loaded := map[], {}, {};
    }

    method BeginLoadAttempt(n: Name)
      modifies this
      ensures View() == Begun(old(View()), n)
    {
      inFlight := inFlight[n := false];
    }

    method AbandonLoadAttempt(n: Name)
      modifies this
      ensures View() == Closed(old(View()), n)
    {
      inFlight := inFlight - {n};
    }

    /** True when a load under way takes charge of the termination. */
    method RecordTerminationDuringLoad(n: Name) returns (owned: bool)
      modifies this
      ensures owned <==> n in old(inFlight)
      ensures View() == Struck(old(View()), n)
    {
      loaded := loaded - {n};
      if n !in inFlight {
        return false;
      }
      inFlight := inFlight[n := true];
      return true;
    }

    /** Close the attempt and list the module as one step; false when it died first. */
    method CommitLoad(n: Name) returns (ok: bool)
      modifies this
      ensures ok <==> !DiedInFlight(old(View()), n)
      ensures View() == Committed(old(View()), n)
    {
      var died := n in inFlight && inFlight[n];
      inFlight := inFlight - {n};
      if died {
        return false;
      }
      loaded := loaded + {n};
      return true;
    }

    method MarkExitExpected(n: Name)
      modifies this
      ensures View() == Announced(old(View()), n)
    {
      marks := marks + {n};
    }

    /** True exactly once per announcement. */
    method ConsumeExpectedExit(n: Name) returns (announced: bool)
      modifies this
      ensures announced <==> n in old(marks)
      ensures View() == Consumed(old(View()), n)
    {
      announced := n in marks;
      marks := marks - {n};
    }

    method MarkAllLoadedExitsExpected()
      modifies this
      ensures View() == old(View()).(marks := old(marks) + old(loaded))
    {
      var names := AnyOrder(loaded);
      var i := 0;
      while i < |names|
        invariant 0 <= i <= |names|
        invariant View() == old(View()).(marks := old(marks) + Elems(names[..i]))
      {
        MarkExitExpected(names[i]);
        i := i + 1;
      }
      assert names[..i] == names;
    }

    method ClearExpectedExits()
      modifies this
      ensures View() == old(View()).(marks := {})
    {
      marks := {};
    }
  }
}
