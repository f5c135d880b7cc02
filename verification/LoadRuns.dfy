/**
 * How single calls go, each in a run of its own: loads that succeed and fail at each point, unloads, a fleet teardown
 * and a configuration call; and a run in which an orderly exit is also recorded as a crash.
 */
module LoadRuns {
  import opened Names
  import opened LoadLedger
  import opened LoadProtocol

  /** One call under way, on thread 0. */
  function One(th: Thread, concluding: multiset<Name>, book: Book): State {
    State(map[0 := th], concluding, book)
  }

  /** A call alone takes any step that fits, and it leads to `th'` and `book'`. */
  lemma To(evs: seq<Event>, th: Thread, c: multiset<Name>, book: Book, a: Action, th': Thread, book': Book)
    returns (longer: seq<Event>)
    requires Legal(evs) && After(evs) == One(th, c, book)
    requires Fits(book.ledger, th, a) && !a.Leave?
    requires th' == ThreadAfter(book.ledger, book.next, th, a)
    requires book' == Perform(book, DeedOf(book.ledger, th, a))
    ensures Legal(longer) && After(longer) == One(th', c, book')
  {
    OneMore(evs, Step(0, a));
    longer := evs + [Step(0, a)];
  }

  lemma Left(evs: seq<Event>, th: Thread, c: multiset<Name>, book: Book) returns (longer: seq<Event>)
    requires Legal(evs) && After(evs) == One(th, c, book) && Fits(book.ledger, th, Leave)
    ensures Legal(longer) && After(longer) == State(map[], c, book)
  {
    OneMore(evs, Step(0, Leave));
    longer := evs + [Step(0, Leave)];
  }

  lemma Arrived(evs: seq<Event>, job: Job, c: multiset<Name>, book: Book) returns (longer: seq<Event>)
    requires Legal(evs) && After(evs) == State(map[], c, book)
    ensures Legal(longer)
    ensures After(longer) == One(Thread(job, if job.Modules? then job.tasks else [], Waiting), c, book)
  {
    OneMore(evs, Start(0, job));
    longer := evs + [Start(0, job)];
  }

  lemma Told(evs: seq<Event>, n: Name, th: Thread, c: multiset<Name>, book: Book) returns (longer: seq<Event>)
    requires Legal(evs) && After(evs) == One(th, c, book)
    ensures Legal(longer)
    ensures After(longer) == One(th, if n in book.ledger.inFlight then c else c + multiset{n}, Reported(book, n))
  {
    OneMore(evs, Report(n));
    longer := evs + [Report(n)];
  }

  const NOBODY: multiset<Name> := multiset{}

  /** Loads `n`, then unloads it. */
  function Loading(n: Name, at: Phase): Thread {
    Thread(Modules(false, [LoadOf(n), UnloadOf(n)]), [UnloadOf(n)], at)
  }

  function Unloading(n: Name, at: Phase): Thread {
    Thread(Modules(false, [LoadOf(n), UnloadOf(n)]), [], at)
  }

  function Attempt(n: Name, flight: map<Name, bool>, marks: set<Name>, ticket: map<Name, Ticket>, next: Ticket): Book {
    Book(Ledger(flight, marks, {}), [Began(n)], ticket, next)
  }

  function Up(n: Name, marks: set<Name>, ticket: map<Name, Ticket>, next: Ticket): Book {
    Book(Ledger(map[], marks, {n}), [Began(n), Listed(n)], ticket, next)
  }

  // ---------------------------------------------------------------- a load

  lemma Accepted(n: Name) returns (evs: seq<Event>)
    ensures Legal(evs) && After(evs) == One(Loading(n, WantsConfig(n, Describe)), NOBODY, START.book)
  {
    var job, b := Modules(false, [LoadOf(n), UnloadOf(n)]), START.book;
    evs := Arrived([], job, NOBODY, b);
    evs := To(evs, Thread(job, job.tasks, Waiting), NOBODY, b, EnterFleet, Thread(job, job.tasks, Between), b);
    assert job.tasks[1..] == [UnloadOf(n)];
    evs := To(evs, Thread(job, job.tasks, Between), NOBODY, b, Lock, Loading(n, Checking(n)), b);
    evs := To(evs, Loading(n, Checking(n)), NOBODY, b, Accept, Loading(n, WantsConfig(n, Describe)), b);
  }

  /** Its attempt is under way. */
  lemma Attempted(n: Name) returns (evs: seq<Event>)
    ensures Legal(evs)
    ensures After(evs) == One(Loading(n, Attempting(n)), NOBODY, Attempt(n, map[n := false], {}, map[], 0))
  {
    var b := START.book;
    evs := Accepted(n);
    evs := To(evs, Loading(n, WantsConfig(n, Describe)), NOBODY, b, ReadConfig, Loading(n, Reading(n, Describe)), b);
    evs := To(evs, Loading(n, Reading(n, Describe)), NOBODY, b, DropReading, Loading(n, Ready(n)), b);
    evs := To(evs, Loading(n, Ready(n)), NOBODY, b, BeginsLoad, Loading(n, Attempting(n)),
              Attempt(n, map[n := false], {}, map[], 0));
  }

  /** The child has started, or has not. */
  lemma ChildStarted(n: Name, ok: bool) returns (evs: seq<Event>)
    ensures Legal(evs)
    ensures After(evs) == One(Loading(n, if ok then Tokening(n) else Abandoning(n)), NOBODY,
                              Attempt(n, map[n := false], {}, map[], 0))
  {
    var b := Attempt(n, map[n := false], {}, map[], 0);
    evs := Attempted(n);
    evs := To(evs, Loading(n, Attempting(n)), NOBODY, b, TakeSpawn, Loading(n, Spawning(n)), b);
    evs := To(evs, Loading(n, Spawning(n)), NOBODY, b, Spawned(ok),
              Loading(n, if ok then Tokening(n) else Abandoning(n)), b);
  }

  /** It is up, and its load is done. */
  lemma Loaded(n: Name) returns (evs: seq<Event>)
    ensures Legal(evs) && After(evs) == One(Loading(n, Between), NOBODY, Up(n, {}, map[], 0))
  {
    var b := Up(n, {}, map[], 0);
    evs := ChildStarted(n, true);
    evs := To(evs, Loading(n, Tokening(n)), NOBODY, Attempt(n, map[n := false], {}, map[], 0), Commits,
              Loading(n, WantsConfig(n, AfterLoad)), b);
    evs := To(evs, Loading(n, WantsConfig(n, AfterLoad)), NOBODY, b, ReadConfig, Loading(n, Reading(n, AfterLoad)), b);
    evs := To(evs, Loading(n, Reading(n, AfterLoad)), NOBODY, b, DropReading, Loading(n, Between), b);
  }

  // ---------------------------------------------------------------- loads that fail

  /** What a failed attempt leaves: nothing but its begin in the log. */
  lemma Undone(evs: seq<Event>, n: Name, ticket: map<Name, Ticket>, next: Ticket) returns (longer: seq<Event>)
    requires Legal(evs)
    requires After(evs) == One(Loading(n, Abandoning(n)), NOBODY, Attempt(n, map[n := false], {}, ticket, next))
    ensures Legal(longer) && After(longer) == One(Loading(n, Between), NOBODY, Attempt(n, map[], {}, ticket, next))
  {
    var none: map<Name, bool> := map[];
    assert map[n := false] - {n} == none;
    longer := To(evs, Loading(n, Abandoning(n)), NOBODY, Attempt(n, map[n := false], {}, ticket, next), Abandons,
                 Loading(n, Between), Attempt(n, map[], {}, ticket, next));
  }

  lemma ChildDoesNotStart(n: Name) returns (evs: seq<Event>)
    ensures Legal(evs) && After(evs) == One(Loading(n, Between), NOBODY, Attempt(n, map[], {}, map[], 0))
  {
    evs := ChildStarted(n, false);
    evs := Undone(evs, n, map[], 0);
  }

  lemma VerdictIsNo(n: Name) returns (evs: seq<Event>)
    ensures Legal(evs) && After(evs) == One(Loading(n, Between), NOBODY, Attempt(n, map[], {}, map[], 0))
  {
    var b := Attempt(n, map[n := false], {}, map[], 0);
    evs := ChildStarted(n, true);
    evs := To(evs, Loading(n, Tokening(n)), NOBODY, b, VerdictFails, Loading(n, Abandoning(n)), b);
    evs := Undone(evs, n, map[], 0);
  }

  lemma BooksOfARefusal(n: Name)
    ensures Perform(Attempt(n, map[n := false], {}, map[], 0), MarkOf(n))
         == Attempt(n, map[n := false], {n}, map[n := 0], 1)
    ensures Perform(Attempt(n, map[n := false], {n}, map[n := 0], 1), UnmarkOf(n))
         == Attempt(n, map[n := false], {}, map[n := 0], 1)
  {
  }

  lemma ExitAnnounced(n: Name) returns (evs: seq<Event>)
    ensures Legal(evs)
    ensures After(evs) == One(Loading(n, TokenMarked(n, 0)), NOBODY, Attempt(n, map[n := false], {n}, map[n := 0], 1))
  {
    evs := ChildStarted(n, true);
    BooksOfARefusal(n);
    evs := To(evs, Loading(n, Tokening(n)), NOBODY, Attempt(n, map[n := false], {}, map[], 0), TokenFails,
              Loading(n, TokenMarked(n, 0)), Attempt(n, map[n := false], {n}, map[n := 0], 1));
  }

  /** The token is refused: the child's exit is announced before it is taken down, and the mark is gone after. */
  lemma TokenIsRefused(n: Name) returns (evs: seq<Event>)
    ensures Legal(evs) && After(evs) == One(Loading(n, Between), NOBODY, Attempt(n, map[], {}, map[n := 0], 1))
  {
    evs := ExitAnnounced(n);
    BooksOfARefusal(n);
    evs := To(evs, Loading(n, TokenMarked(n, 0)), NOBODY, Attempt(n, map[n := false], {n}, map[n := 0], 1), Unmarks,
              Loading(n, Abandoning(n)), Attempt(n, map[n := false], {}, map[n := 0], 1));
    evs := Undone(evs, n, map[n := 0], 1);
  }

  lemma BookAfterADeath(n: Name)
    ensures Reported(Attempt(n, map[n := false], {}, map[], 0), n)
         == Book(Ledger(map[n := true], {}, {}), [Began(n), Died(n)], map[], 0)
    ensures Perform(Book(Ledger(map[n := true], {}, {}), [Began(n), Died(n)], map[], 0), CommitOf(n))
         == Book(Ledger(map[], {}, {}), [Began(n), Died(n)], map[], 0)
  {
    var none: map<Name, bool> := map[];
    assert map[n := true] - {n} == none;
  }

  /** The child dies while it loads: its load takes the death over, commits nothing, and no crash is concluded. */
  lemma DiesWhileLoading(n: Name) returns (evs: seq<Event>)
    ensures Legal(evs)
    ensures After(evs) == One(Loading(n, Between), NOBODY,
                              Book(Ledger(map[], {}, {}), [Began(n), Died(n)], map[], 0))
  {
    evs := ChildStarted(n, true);
    evs := Told(evs, n, Loading(n, Tokening(n)), NOBODY, Attempt(n, map[n := false], {}, map[], 0));
    BookAfterADeath(n);
    var b := Book(Ledger(map[n := true], {}, {}), [Began(n), Died(n)], map[], 0);
    assert After(evs) == One(Loading(n, Tokening(n)), NOBODY, b);
    evs := To(evs, Loading(n, Tokening(n)), NOBODY, b, Commits, Loading(n, Between),
              Book(Ledger(map[], {}, {}), [Began(n), Died(n)], map[], 0));
  }

  /** A load of a module that is up is declined: at once, or under its lock. */
  lemma LoadIsDeclined(n: Name, evs: seq<Event>) returns (longer: seq<Event>)
    requires Legal(evs) && After(evs) == State(map[], NOBODY, Up(n, {}, map[], 0))
    ensures Legal(longer)
    ensures After(longer) == One(Thread(Modules(true, [LoadOf(n)]), [], Between), NOBODY, Up(n, {}, map[], 0))
    ensures !Fits(Up(n, {}, map[], 0).ledger, Thread(Modules(true, [LoadOf(n)]), [], Checking(n)), Accept)
  {
    var job, b := Modules(true, [LoadOf(n)]), Up(n, {}, map[], 0);
    longer := Arrived(evs, job, NOBODY, b);
    longer := To(longer, Thread(job, job.tasks, Waiting), NOBODY, b, EnterFleet, Thread(job, job.tasks, Between), b);
    assert job.tasks[1..] == [];
    longer := To(longer, Thread(job, job.tasks, Between), NOBODY, b, Lock, Thread(job, [], Checking(n)), b);
    longer := To(longer, Thread(job, [], Checking(n)), NOBODY, b, Decline, Thread(job, [], Between), b);
  }

  // ---------------------------------------------------------------- unloads

  lemma Locked(n: Name) returns (evs: seq<Event>)
    ensures Legal(evs) && After(evs) == One(Unloading(n, UnloadChecking(n)), NOBODY, Up(n, {}, map[], 0))
  {
    evs := Loaded(n);
    assert Loading(n, Between).tasks[1..] == [];
    evs := To(evs, Loading(n, Between), NOBODY, Up(n, {}, map[], 0), Lock, Unloading(n, UnloadChecking(n)),
              Up(n, {}, map[], 0));
  }

  lemma UnloadIsDeclined(n: Name) returns (evs: seq<Event>)
    ensures Legal(evs) && After(evs) == One(Unloading(n, Between), NOBODY, Up(n, {}, map[], 0))
  {
    var b := Up(n, {}, map[], 0);
    evs := Locked(n);
    evs := To(evs, Unloading(n, UnloadChecking(n)), NOBODY, b, Decline, Unloading(n, Between), b);
  }

  /** One the call never comes to, because it gave up before. */
  lemma UnloadIsSkipped(n: Name) returns (evs: seq<Event>)
    ensures Legal(evs) && After(evs) == One(Unloading(n, Between), NOBODY, Up(n, {}, map[], 0))
  {
    var b := Up(n, {}, map[], 0);
    evs := Loaded(n);
    assert Loading(n, Between).tasks[1..] == [];
    evs := To(evs, Loading(n, Between), NOBODY, b, Skip, Unloading(n, Between), b);
  }

  lemma UpAndLeft(n: Name) returns (evs: seq<Event>)
    ensures Legal(evs) && After(evs) == State(map[], NOBODY, Up(n, {}, map[], 0))
  {
    evs := UnloadIsSkipped(n);
    evs := Left(evs, Unloading(n, Between), NOBODY, Up(n, {}, map[], 0));
  }

  /** Its unload has announced the exit. */
  lemma Marked(n: Name) returns (evs: seq<Event>)
    ensures Legal(evs) && After(evs) == One(Unloading(n, UnloadMarked(n, 0)), NOBODY, Up(n, {n}, map[n := 0], 1))
  {
    var b := Up(n, {}, map[], 0);
    evs := Locked(n);
    evs := To(evs, Unloading(n, UnloadChecking(n)), NOBODY, b, Accept, Unloading(n, Announcing(n)), b);
    evs := To(evs, Unloading(n, Announcing(n)), NOBODY, b, Marks, Unloading(n, UnloadMarked(n, 0)),
              Up(n, {n}, map[n := 0], 1));
  }

  /** A teardown that fails takes its announcement back, and the module runs on. */
  lemma TeardownIsRefused(n: Name) returns (evs: seq<Event>)
    ensures Legal(evs) && After(evs) == One(Unloading(n, Between), NOBODY, Up(n, {}, map[n := 0], 1))
  {
    evs := Marked(n);
    evs := To(evs, Unloading(n, UnloadMarked(n, 0)), NOBODY, Up(n, {n}, map[n := 0], 1), TeardownFails,
              Unloading(n, Between), Up(n, {}, map[n := 0], 1));
  }

  // ---------------------------------------------------------------- an orderly exit recorded as a crash

  function Out(n: Name, marks: set<Name>, log: seq<Entry>): Book {
    Book(Ledger(map[], marks, {}), log, map[n := 0], 1)
  }

  lemma BookAfterTakingOut(n: Name)
    ensures Perform(Out(n, {n}, [Began(n), Listed(n), Died(n)]), TakeOutOf(n))
         == Out(n, {n}, [Began(n), Listed(n), Died(n), TakenOut(n)])
    ensures Reported(Up(n, {n}, map[n := 0], 1), n) == Out(n, {n}, [Began(n), Listed(n), Died(n)])
  {
  }

  lemma BookAfterTheTail(n: Name)
    ensures Perform(Out(n, {n}, [Began(n), Listed(n), Died(n), TakenOut(n)]), FinishOf(n, 0))
         == Out(n, {}, [Began(n), Listed(n), Died(n), TakenOut(n), Stopped(n, 0), Unloaded(n, 0)])
  {
  }

  /** The container has reported the exit, and the unload has taken the module out. */
  lemma TakenOutMeanwhile(n: Name) returns (evs: seq<Event>)
    ensures Legal(evs)
    ensures After(evs) == One(Unloading(n, WantsConfig(n, AfterUnload(0))), multiset{n},
                              Out(n, {n}, [Began(n), Listed(n), Died(n), TakenOut(n)]))
  {
    evs := Marked(n);
    evs := Told(evs, n, Unloading(n, UnloadMarked(n, 0)), NOBODY, Up(n, {n}, map[n := 0], 1));
    BookAfterTakingOut(n);
    var b := Out(n, {n}, [Began(n), Listed(n), Died(n)]);
    assert After(evs) == One(Unloading(n, UnloadMarked(n, 0)), multiset{n}, b);
    evs := To(evs, Unloading(n, UnloadMarked(n, 0)), multiset{n}, b, TakesOut,
              Unloading(n, WantsConfig(n, AfterUnload(0))), Out(n, {n}, [Began(n), Listed(n), Died(n), TakenOut(n)]));
  }

  lemma AtTheTail(n: Name) returns (evs: seq<Event>)
    ensures Legal(evs)
    ensures After(evs) == One(Unloading(n, Tail(n, 0)), multiset{n},
                              Out(n, {n}, [Began(n), Listed(n), Died(n), TakenOut(n)]))
  {
    var b := Out(n, {n}, [Began(n), Listed(n), Died(n), TakenOut(n)]);
    evs := TakenOutMeanwhile(n);
    evs := To(evs, Unloading(n, WantsConfig(n, AfterUnload(0))), multiset{n}, b, ReadConfig,
              Unloading(n, Reading(n, AfterUnload(0))), b);
    evs := To(evs, Unloading(n, Reading(n, AfterUnload(0))), multiset{n}, b, DropReading,
              Unloading(n, Tail(n, 0)), b);
  }

  /** The tail has consumed the mark, recorded the stop and answered. */
  lemma Answered(n: Name) returns (evs: seq<Event>)
    ensures Legal(evs)
    ensures After(evs) == One(Unloading(n, Between), multiset{n},
                              Out(n, {}, [Began(n), Listed(n), Died(n), TakenOut(n), Stopped(n, 0), Unloaded(n, 0)]))
  {
    var b := Out(n, {n}, [Began(n), Listed(n), Died(n), TakenOut(n)]);
    evs := AtTheTail(n);
    BookAfterTheTail(n);
    evs := To(evs, Unloading(n, Tail(n, 0)), multiset{n}, b, Concludes, Unloading(n, Between),
              Out(n, {}, [Began(n), Listed(n), Died(n), TakenOut(n), Stopped(n, 0), Unloaded(n, 0)]));
  }

  /**
   * All this between the two sections of the callback that reported the exit: what it then concludes is a crash.
   */
  lemma OrderlyExitRecordedAsCrash(n: Name) returns (evs: seq<Event>)
    ensures Legal(evs) && After(evs).concluding == multiset{}
    ensures LogAfter(evs) ==
            [Began(n), Listed(n), Died(n), TakenOut(n), Stopped(n, 0), Unloaded(n, 0), Crashed(n)]
  {
    evs := Answered(n);
    OneMore(evs, Conclude(n));
    evs := evs + [Conclude(n)];
  }

  // ---------------------------------------------------------------- the fleet, and the configuration

  lemma FleetRead(n: Name, reset: bool) returns (evs: seq<Event>)
    ensures Legal(evs) && After(evs) == One(Thread(Fleet(reset), [], Marking({n})), NOBODY, Up(n, {}, map[], 0))
  {
    var job, b := Fleet(reset), Up(n, {}, map[], 0);
    evs := UpAndLeft(n);
    evs := Arrived(evs, job, NOBODY, b);
    evs := To(evs, Thread(job, [], Waiting), NOBODY, b, EnterFleet, Thread(job, [], Between), b);
    evs := To(evs, Thread(job, [], Between), NOBODY, b, ReadFleet, Thread(job, [], Marking({n})), b);
  }

  lemma OneToAnnounce(n: Name, reset: bool)
    ensures ThreadAfter(Up(n, {}, map[], 0).ledger, 0, Thread(Fleet(reset), [], Marking({n})), AnnounceOne(n))
         == Thread(Fleet(reset), [], Marking({}))
    ensures Perform(Up(n, {}, map[], 0), MarkOf(n)) == Up(n, {n}, map[n := 0], 1)
  {
    var one := {n};
    assert one - {n} == {};
  }

  lemma FleetAnnounced(n: Name, reset: bool) returns (evs: seq<Event>)
    ensures Legal(evs)
    ensures After(evs) == One(Thread(Fleet(reset), [], Marking({})), NOBODY, Up(n, {n}, map[n := 0], 1))
  {
    evs := FleetRead(n, reset);
    OneToAnnounce(n, reset);
    evs := To(evs, Thread(Fleet(reset), [], Marking({n})), NOBODY, Up(n, {}, map[], 0), AnnounceOne(n),
              Thread(Fleet(reset), [], Marking({})), Up(n, {n}, map[n := 0], 1));
  }

  lemma FleetMarked(n: Name, reset: bool) returns (evs: seq<Event>)
    ensures Legal(evs)
    ensures After(evs) == One(Thread(Fleet(reset), [], MarksCleared), NOBODY, Up(n, {}, map[n := 0], 1))
  {
    var job := Fleet(reset);
    evs := FleetAnnounced(n, reset);
    evs := To(evs, Thread(job, [], Marking({})), NOBODY, Up(n, {n}, map[n := 0], 1), ClearMarks,
              Thread(job, [], MarksCleared), Up(n, {}, map[n := 0], 1));
  }

  lemma BookAfterTheFleet(n: Name)
    ensures Perform(Up(n, {}, map[n := 0], 1), ForgetLoaded) == Out(n, {}, [Began(n), Listed(n), FleetDown])
  {
  }

  /** A fleet teardown announces what is loaded, drops the marks again and empties the loaded set. */
  lemma FleetTornDown(n: Name, reset: bool) returns (evs: seq<Event>)
    ensures Legal(evs)
    ensures After(evs) == One(Thread(Fleet(reset), [], if reset then WantsReset else Finished), NOBODY,
                              Out(n, {}, [Began(n), Listed(n), FleetDown]))
  {
    evs := FleetMarked(n, reset);
    BookAfterTheFleet(n);
    evs := To(evs, Thread(Fleet(reset), [], MarksCleared), NOBODY, Up(n, {}, map[n := 0], 1), ClearLoaded,
              Thread(Fleet(reset), [], if reset then WantsReset else Finished),
              Out(n, {}, [Began(n), Listed(n), FleetDown]));
  }

  /** With a reset it goes on to the configuration. Either way it is over then. */
  lemma FleetOver(n: Name, reset: bool) returns (evs: seq<Event>)
    ensures Legal(evs) && After(evs) == State(map[], NOBODY, Out(n, {}, [Began(n), Listed(n), FleetDown]))
  {
    var job, b := Fleet(reset), Out(n, {}, [Began(n), Listed(n), FleetDown]);
    evs := FleetTornDown(n, reset);
    if reset {
      evs := To(evs, Thread(job, [], WantsReset), NOBODY, b, TakeConfig, Thread(job, [], Configuring), b);
      evs := To(evs, Thread(job, [], Configuring), NOBODY, b, DropConfig, Thread(job, [], Finished), b);
    }
    evs := Left(evs, Thread(job, [], Finished), NOBODY, b);
  }

  lemma Configured() returns (evs: seq<Event>)
    ensures Legal(evs) && After(evs) == One(Thread(Configure, [], Finished), NOBODY, START.book)
  {
    var b := START.book;
    evs := Arrived([], Configure, NOBODY, b);
    evs := To(evs, Thread(Configure, [], Waiting), NOBODY, b, TakeConfig, Thread(Configure, [], Configuring), b);
    evs := To(evs, Thread(Configure, [], Configuring), NOBODY, b, DropConfig, Thread(Configure, [], Finished), b);
  }
}
