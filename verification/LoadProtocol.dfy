/** Loads, unloads, cascades, fleet teardowns, configuration calls and termination callbacks, interleaved. */
module LoadProtocol {
  import opened Names
  import opened LoadLedger

  type Tid = nat
  type Ticket = nat

  datatype Task = LoadOf(n: Name) | UnloadOf(n: Name)

  /**
   * One public call. `Modules` is a single load, a dependency load or a single unload (fleet lock
   * shared) or a cascade (exclusive); `Fleet` is terminateAll, or clear when `reset`.
   */
  datatype Job = Modules(exclusive: bool, tasks: seq<Task>) | Fleet(reset: bool) | Configure

  datatype Purpose = Describe | AfterLoad | AfterUnload(k: Ticket)

  /** Where a call is. Each phase is the code between two critical sections. */
  datatype Phase =
    | Waiting | Between | Finished
    // a load, under its module's lock
    | Checking(n: Name) | WantsConfig(n: Name, purpose: Purpose) | Reading(n: Name, purpose: Purpose)
    | Ready(n: Name) | Attempting(n: Name) | Spawning(n: Name) | Abandoning(n: Name) | Tokening(n: Name)
    | TokenMarked(n: Name, k: Ticket)
    // an unload, under its module's lock
    | UnloadChecking(n: Name) | Announcing(n: Name) | UnloadMarked(n: Name, k: Ticket) | Tail(n: Name, k: Ticket)
    // a fleet teardown, and a configuration change
    | Marking(rest: set<Name>) | MarksCleared | WantsReset | Configuring

  datatype Thread = Thread(job: Job, tasks: seq<Task>, at: Phase)

  /** What happened, in order. Only the last three reach an observer or a caller. */
  datatype Entry =
    | Began(n: Name) | Died(n: Name) | Listed(n: Name) | TakenOut(n: Name) | FleetDown
    | Stopped(n: Name, k: Ticket)   // recorded stopping -> unloaded
    | Crashed(n: Name)              // recorded loaded -> error, supervisor asked
    | Unloaded(n: Name, k: Ticket)  // unload answered true

  /**
   * What the small locks guard, with its history. `ticket` numbers the announcements, so that a
   * record can be traced to the one it consumed.
   */
  datatype Book = Book(ledger: Ledger, log: seq<Entry>, ticket: map<Name, Ticket>, next: Ticket)

  /** `concluding` holds the callbacks between their two critical sections. */
  datatype State = State(threads: map<Tid, Thread>, concluding: multiset<Name>, book: Book)

  datatype Action =
    | EnterFleet | Leave | Skip | Lock | Decline | Accept | ReadConfig | DropReading
    | BeginsLoad | TakeSpawn | Spawned(ok: bool) | Abandons | TokenFails | Unmarks | VerdictFails | Commits
    | Marks | TeardownFails | TakesOut | Concludes
    | ReadFleet | AnnounceOne(n: Name) | ClearMarks | ClearLoaded | TakeConfig | DropConfig

  /** A call arrives, a thread makes a step, or the container reports a termination, in two steps. */
  datatype Event = Start(t: Tid, job: Job) | Step(t: Tid, act: Action) | Report(n: Name) | Conclude(n: Name)

  const START := State(map[], multiset{}, Book(EMPTY, [], map[], 0))

  // ---------------------------------------------------------------- the locks a phase holds

  predicate Exclusive(job: Job) {
    job.Fleet? || (job.Modules? && job.exclusive)
  }

  predicate InFleet(th: Thread) {
    !th.job.Configure? && !th.at.Waiting?
  }

  /** The module whose lock the phase holds. */
  function ModuleOf(at: Phase): Option<Name> {
    match at
    case Waiting | Between | Finished | Marking(_) | MarksCleared | WantsReset | Configuring => None
    case _ => Some(at.n)
  }

  /** Two calls may be where they are at the same time. */
  predicate Compatible(a: Thread, b: Thread) {
    && (InFleet(a) && Exclusive(a.job) ==> !InFleet(b))
    && (InFleet(b) && Exclusive(b.job) ==> !InFleet(a))
    && (ModuleOf(a.at).Some? ==> ModuleOf(a.at) != ModuleOf(b.at))
    && !(a.at.Spawning? && b.at.Spawning?)
    && (a.at.Configuring? ==> !b.at.Configuring? && !b.at.Reading?)
    && (b.at.Configuring? ==> !a.at.Reading?)
  }

  /** Every lock the thread would hold as `th` is free, or its own already. */
  ghost predicate Free(threads: map<Tid, Thread>, t: Tid, th: Thread) {
    forall u :: u in threads && u != t ==> Compatible(th, threads[u])
  }

  // ---------------------------------------------------------------- one step of a thread

  /** What the action needs: the phase it starts from, and what the code checks there. */
  predicate Fits(l: Ledger, th: Thread, a: Action) {
    match a
    case EnterFleet => th.at.Waiting? && !th.job.Configure?
    case Leave => th.at.Finished? || (th.at.Between? && th.job.Modules? && th.tasks == [])
    case Skip => th.at.Between? && th.tasks != []
    case Lock => th.at.Between? && th.tasks != []
    case Decline => th.at.Checking? || th.at.Ready? || th.at.UnloadChecking?
    case Accept => (th.at.Checking? && th.at.n !in l.loaded) || (th.at.UnloadChecking? && th.at.n in l.loaded)
    case ReadConfig => th.at.WantsConfig?
    case DropReading => th.at.Reading?
    case BeginsLoad => th.at.Ready?
    case TakeSpawn => th.at.Attempting?
    case Spawned(_) => th.at.Spawning?
    case Abandons => th.at.Abandoning?
    case TokenFails => th.at.Tokening?
    case Unmarks => th.at.TokenMarked?
    case VerdictFails => th.at.Tokening?
    case Commits => th.at.Tokening?
    case Marks => th.at.Announcing?
    case TeardownFails => th.at.UnloadMarked?
    case TakesOut => th.at.UnloadMarked?
    case Concludes => th.at.Tail?
    case ReadFleet => th.at.Between? && th.job.Fleet?
    case AnnounceOne(n) => th.at.Marking? && n in th.at.rest
    case ClearMarks => th.at.Marking? && th.at.rest == {}
    case ClearLoaded => th.at.MarksCleared? && th.job.Fleet?
    case TakeConfig => th.at.WantsReset? || (th.at.Waiting? && th.job.Configure?)
    case DropConfig => th.at.Configuring?
  }

  /** Where a call goes once it has dropped the configuration lock. */
  function AfterReading(n: Name, purpose: Purpose): Phase {
    match purpose
    case Describe => Ready(n)
    case AfterLoad => Between
    case AfterUnload(k) => Tail(n, k)
  }

  function Entered(task: Task): Phase {
    match task
    case LoadOf(n) => Checking(n)
    case UnloadOf(n) => UnloadChecking(n)
  }

  function PhaseAfter(l: Ledger, next: Ticket, th: Thread, a: Action): Phase
    requires Fits(l, th, a)
  {
    match a
    case EnterFleet => Between
    case Leave => Finished
    case Skip => Between
    case Lock => Entered(th.tasks[0])
    case Decline => Between
    case Accept => if th.at.Checking? then WantsConfig(th.at.n, Describe) else Announcing(th.at.n)
    case ReadConfig => Reading(th.at.n, th.at.purpose)
    case DropReading => AfterReading(th.at.n, th.at.purpose)
    case BeginsLoad => Attempting(th.at.n)
    case TakeSpawn => Spawning(th.at.n)
    case Spawned(ok) => if ok then Tokening(th.at.n) else Abandoning(th.at.n)
    case Abandons => Between
    case TokenFails => TokenMarked(th.at.n, next)
    case Unmarks => Abandoning(th.at.n)
    case VerdictFails => Abandoning(th.at.n)
    case Commits => if DiedInFlight(l, th.at.n) then Between else WantsConfig(th.at.n, AfterLoad)
    case Marks => UnloadMarked(th.at.n, next)
    case TeardownFails => Between
    case TakesOut => WantsConfig(th.at.n, AfterUnload(th.at.k))
    case Concludes => Between
    case ReadFleet => Marking(l.loaded)
    case AnnounceOne(n) => Marking(th.at.rest - {n})
    case ClearMarks => MarksCleared
    case ClearLoaded => if th.job.reset then WantsReset else Finished
    case TakeConfig => Configuring
    case DropConfig => Finished
  }

  function ThreadAfter(l: Ledger, next: Ticket, th: Thread, a: Action): Thread
    requires Fits(l, th, a)
  {
    Thread(th.job, if a.Skip? || a.Lock? then th.tasks[1..] else th.tasks, PhaseAfter(l, next, th, a))
  }

  // ---------------------------------------------------------------- what a step does to what is shared

  datatype Deed = Nothing | BeginOf(n: Name) | CloseOf(n: Name) | CommitOf(n: Name)
                | MarkOf(n: Name) | UnmarkOf(n: Name)
                | TakeOutOf(n: Name) | FinishOf(n: Name, k: Ticket) | ForgetMarks | ForgetLoaded

  function DeedOf(l: Ledger, th: Thread, a: Action): Deed
    requires Fits(l, th, a)
  {
    match a
    case BeginsLoad => BeginOf(th.at.n)
    case Abandons => CloseOf(th.at.n)
    case TokenFails => MarkOf(th.at.n)
    case Unmarks => UnmarkOf(th.at.n)
    case Commits => CommitOf(th.at.n)
    case Marks => MarkOf(th.at.n)
    case TeardownFails => UnmarkOf(th.at.n)
    case TakesOut => TakeOutOf(th.at.n)
    case Concludes => FinishOf(th.at.n, th.at.k)
    case AnnounceOne(n) => MarkOf(n)
    case ClearMarks => ForgetMarks
    case ClearLoaded => ForgetLoaded
    case _ => Nothing
  }

  /** Consuming a mark is what makes the record, in the callback and in the unload's tail alike. */
  function Settled(b: Book, n: Name): Book {
    if n in b.ledger.marks && n in b.ticket
    then b.(ledger := Consumed(b.ledger, n), log := b.log + [Stopped(n, b.ticket[n])])
    else b.(ledger := Consumed(b.ledger, n))
  }

  function Perform(b: Book, d: Deed): Book {
    match d
    case Nothing => b
    case BeginOf(n) => b.(ledger := Begun(b.ledger, n), log := b.log + [Began(n)])
    case CloseOf(n) => b.(ledger := Closed(b.ledger, n))
    case CommitOf(n) =>
      if DiedInFlight(b.ledger, n) then b.(ledger := Committed(b.ledger, n))
      else b.(ledger := Committed(b.ledger, n), log := b.log + [Listed(n)])
    case MarkOf(n) => b.(ledger := Announced(b.ledger, n), ticket := b.ticket[n := b.next], next := b.next + 1)
    case UnmarkOf(n) => b.(ledger := Consumed(b.ledger, n))
    case TakeOutOf(n) => b.(ledger := Unlisted(b.ledger, n), log := b.log + [TakenOut(n)])
    case FinishOf(n, k) => var b' := Settled(b, n); b'.(log := b'.log + [Unloaded(n, k)])
    case ForgetMarks => b.(ledger := b.ledger.(marks := {}))
    case ForgetLoaded => b.(ledger := b.ledger.(loaded := {}), log := b.log + [FleetDown])
  }

  function Reported(b: Book, n: Name): Book {
    b.(ledger := Struck(b.ledger, n), log := b.log + [Died(n)])
  }

  function Concluded(b: Book, n: Name): Book {
    if n in b.ledger.marks then Settled(b, n) else b.(log := b.log + [Crashed(n)])
  }

  // ---------------------------------------------------------------- runs

  ghost predicate Can(s: State, ev: Event) {
    match ev
    case Start(_, _) => true
    case Report(_) => true
    case Conclude(n) => n in s.concluding
    case Step(t, a) =>
      && t in s.threads && Fits(s.book.ledger, s.threads[t], a)
      && Free(s.threads, t, ThreadAfter(s.book.ledger, s.book.next, s.threads[t], a))
  }

  ghost function Do(s: State, ev: Event): State
    requires Can(s, ev)
  {
    match ev
    case Start(t, job) =>
      // a load, unload or teardown from inside a call is refused before it takes any lock; a configuration call
      // from inside one is not, and has an id of its own
      if t in s.threads then s
      else s.(threads := s.threads[t := Thread(job, if job.Modules? then job.tasks else [], Waiting)])
    case Report(n) =>
      var concluding := if n in s.book.ledger.inFlight then s.concluding else s.concluding + multiset{n};
      s.(book := Reported(s.book, n), concluding := concluding)
    case Conclude(n) => s.(book := Concluded(s.book, n), concluding := s.concluding - multiset{n})
    case Step(t, a) =>
      var th := s.threads[t];
      var threads := if a.Leave? then s.threads - {t}
                     else s.threads[t := ThreadAfter(s.book.ledger, s.book.next, th, a)];
      s.(threads := threads, book := Perform(s.book, DeedOf(s.book.ledger, th, a)))
  }

  ghost predicate Legal(evs: seq<Event>)
    decreases |evs|, 0
  {
    evs == [] || (Legal(evs[..|evs| - 1]) && Can(After(evs[..|evs| - 1]), evs[|evs| - 1]))
  }

  ghost function After(evs: seq<Event>): State
    requires Legal(evs)
    decreases |evs|, 1
  {
    if evs == [] then START else Do(After(evs[..|evs| - 1]), evs[|evs| - 1])
  }

  // ---------------------------------------------------------------- the history

  /** The module is up: it was listed, and nothing has ended that since. */
  ghost predicate Standing(log: seq<Entry>, n: Name) {
    if log == [] then false
    else
      var e := log[|log| - 1];
      if e == Listed(n) then true else if Ends(e, n) then false else Standing(log[..|log| - 1], n)
  }

  predicate Ends(e: Entry, n: Name) {
    e == Died(n) || e == TakenOut(n) || e == FleetDown
  }

  /** No termination has been recorded since the latest attempt began. */
  ghost predicate Clean(log: seq<Entry>, n: Name) {
    if log == [] then false
    else
      var e := log[|log| - 1];
      if e == Began(n) then true else if e == Died(n) then false else Clean(log[..|log| - 1], n)
  }

  ghost predicate Sound(log: seq<Entry>) {
    if log == [] then true
    else
      var front, e := log[..|log| - 1], log[|log| - 1];
      Sound(front) && (e.Listed? ==> Clean(front, e.n) && !Standing(front, e.n))
  }

  /** The ledger says of `n` what the log says. */
  ghost predicate ToldOf(l: Ledger, log: seq<Entry>, n: Name) {
    && (n in l.loaded <==> Standing(log, n))
    && (n in l.inFlight ==> (l.inFlight[n] <==> !Clean(log, n)))
  }

  ghost predicate HistoryInv(b: Book) {
    Sound(b.log) && forall n :: ToldOf(b.ledger, b.log, n)
  }

  ghost predicate Unrecorded(log: seq<Entry>, k: Ticket) {
    forall i :: 0 <= i < |log| && log[i].Stopped? ==> log[i].k != k
  }

  ghost predicate RecordedOnce(log: seq<Entry>) {
    forall i, j :: 0 <= i < j < |log| && log[i].Stopped? && log[j].Stopped? ==> log[i].k != log[j].k
  }

  ghost predicate AnswersRecorded(log: seq<Entry>) {
    forall i :: 0 <= i < |log| && log[i].Unloaded? ==> Stopped(log[i].n, log[i].k) in log
  }

  ghost predicate TicketsInv(b: Book) {
    && b.ledger.marks <= b.ticket.Keys
    && (forall n :: n in b.ticket ==> b.ticket[n] < b.next)
    && (forall m, n :: m in b.ticket && n in b.ticket && m != n ==> b.ticket[m] != b.ticket[n])
    && (forall i :: 0 <= i < |b.log| && b.log[i].Stopped? ==> b.log[i].k < b.next)
    && (forall n :: n in b.ledger.marks ==> Unrecorded(b.log, b.ticket[n]))
  }

  // ---------------------------------------------------------------- what each thread may rely on

  predicate LoadRunning(at: Phase) {
    at.Attempting? || at.Spawning? || at.Abandoning? || at.Tokening? || at.TokenMarked?
  }

  predicate BeforeCommit(at: Phase) {
    || LoadRunning(at) || at.Ready?
    || ((at.WantsConfig? || at.Reading?) && at.purpose.Describe?)
  }

  /** An unload between taking its module out and its answer. */
  predicate AfterTakingOut(at: Phase) {
    at.Tail? || ((at.WantsConfig? || at.Reading?) && at.purpose.AfterUnload?)
  }

  /** A fleet teardown that has emptied the loaded set and not left yet. */
  predicate FleetEmptied(th: Thread) {
    th.job.Fleet? && (th.at.WantsReset? || th.at.Configuring? || th.at.Finished?)
  }

  /** The announcement the phase stands behind. */
  function TicketOf(at: Phase): Option<Ticket> {
    match at
    case TokenMarked(_, k) => Some(k)
    case UnloadMarked(_, k) => Some(k)
    case WantsConfig(_, AfterUnload(k)) => Some(k)
    case Reading(_, AfterUnload(k)) => Some(k)
    case Tail(_, k) => Some(k)
    case _ => None
  }

  predicate Shape(th: Thread) {
    && (ModuleOf(th.at).Some? || th.at.Between? ==> !th.job.Configure?)
    && (th.at.Marking? || th.at.MarksCleared? || th.at.WantsReset? ==> th.job.Fleet?)
    && (ModuleOf(th.at).Some? ==> th.job.Modules?)
    && (th.tasks != [] ==> th.job.Modules?)
    && (th.at.Configuring? || th.at.Finished? ==> !th.job.Modules?)
  }

  predicate AnnouncedAs(b: Book, n: Name, k: Ticket) {
    n in b.ticket && b.ticket[n] == k && (n in b.ledger.marks || Stopped(n, k) in b.log)
  }

  predicate LoadInv(l: Ledger, at: Phase) {
    && (LoadRunning(at) ==> at.n in l.inFlight)
    && (BeforeCommit(at) || AfterTakingOut(at) ==> at.n !in l.loaded)
  }

  predicate TicketInv(b: Book, at: Phase) {
    TicketOf(at).Some? ==> AnnouncedAs(b, at.n, TicketOf(at).value)
  }

  predicate ThreadInv(b: Book, th: Thread) {
    Shape(th) && LoadInv(b.ledger, th.at) && TicketInv(b, th.at) && (FleetEmptied(th) ==> b.ledger.loaded == {})
  }

  predicate Loads(th: Thread, n: Name) {
    LoadRunning(th.at) && th.at.n == n
  }

  /** A teardown of `n` under its lock, or of the fleet under the exclusive fleet lock. */
  predicate TearsDown(th: Thread, n: Name) {
    (TicketOf(th.at).Some? && th.at.n == n) || th.at.Marking?
  }

  ghost predicate SomeLoads(threads: map<Tid, Thread>, n: Name) {
    exists t :: t in threads && Loads(threads[t], n)
  }

  ghost predicate SomeTearsDown(threads: map<Tid, Thread>, n: Name) {
    exists t :: t in threads && TearsDown(threads[t], n)
  }

  ghost predicate Exclusion(threads: map<Tid, Thread>) {
    forall t, u :: t in threads && u in threads && t != u ==> Compatible(threads[t], threads[u])
  }

  ghost predicate Ownership(s: State) {
    && (forall n :: n in s.book.ledger.inFlight ==> SomeLoads(s.threads, n))
    && (forall n :: n in s.book.ledger.marks ==> SomeTearsDown(s.threads, n))
  }

  ghost predicate ThreadsInv(s: State) {
    forall t :: t in s.threads ==> ThreadInv(s.book, s.threads[t])
  }

  ghost predicate BookInv(b: Book) {
    HistoryInv(b) && TicketsInv(b) && RecordedOnce(b.log) && AnswersRecorded(b.log)
  }

  ghost predicate Unanswered(log: seq<Entry>, k: Ticket) {
    forall i :: 0 <= i < |log| && log[i].Unloaded? ==> log[i].k != k
  }

  ghost predicate AnsweredOnce(log: seq<Entry>) {
    forall i, j :: 0 <= i < j < |log| && log[i].Unloaded? && log[j].Unloaded? ==> log[i].k != log[j].k
  }

  ghost predicate Answers(s: State) {
    && AnsweredOnce(s.book.log)
    && forall t :: t in s.threads && TicketOf(s.threads[t].at).Some?
                   ==> Unanswered(s.book.log, TicketOf(s.threads[t].at).value)
  }

  ghost predicate Inv(s: State) {
    Exclusion(s.threads) && ThreadsInv(s) && Ownership(s) && BookInv(s.book) && Answers(s)
  }

  // ---------------------------------------------------------------- deeds keep the book

  /** What the doer of a deed knows. */
  predicate Entitled(b: Book, d: Deed) {
    match d
    case CommitOf(n) => n in b.ledger.inFlight && n !in b.ledger.loaded
    case FinishOf(n, k) => AnnouncedAs(b, n, k)
    case _ => true
  }

  lemma LogGrows(log: seq<Entry>, e: Entry, n: Name)
    ensures Standing(log + [e], n) <==> e == Listed(n) || (!Ends(e, n) && Standing(log, n))
    ensures Clean(log + [e], n) <==> e == Began(n) || (e != Died(n) && Clean(log, n))
  {
    assert (log + [e])[..|log|] == log;
  }

  lemma SoundGrows(log: seq<Entry>, e: Entry)
    ensures Sound(log + [e]) <==> Sound(log) && (e.Listed? ==> Clean(log, e.n) && !Standing(log, e.n))
  {
    assert (log + [e])[..|log|] == log;
  }

  /** What a new entry asks of the ledger that goes with it. */
  ghost predicate Matches(l: Ledger, l': Ledger, log: seq<Entry>, e: Entry, n: Name) {
    && (n in l'.loaded <==> e == Listed(n) || (!Ends(e, n) && n in l.loaded))
    && (n in l'.inFlight ==>
          (l'.inFlight[n] <==>
             e != Began(n) && (e == Died(n) || (if n in l.inFlight then l.inFlight[n] else !Clean(log, n)))))
  }

  lemma NotingKeepsHistory(b: Book, l': Ledger, e: Entry)
    requires HistoryInv(b) && (e.Listed? ==> Clean(b.log, e.n) && !Standing(b.log, e.n))
    requires forall n :: Matches(b.ledger, l', b.log, e, n)
    ensures HistoryInv(b.(ledger := l', log := b.log + [e]))
  {
    SoundGrows(b.log, e);
    forall n
      ensures ToldOf(l', b.log + [e], n)
    {
      assert ToldOf(b.ledger, b.log, n) && Matches(b.ledger, l', b.log, e, n);
      LogGrows(b.log, e, n);
    }
  }

  lemma SettlingKeepsHistory(b: Book, n: Name)
    requires HistoryInv(b)
    ensures HistoryInv(Settled(b, n))
  {
    if n in b.ledger.marks && n in b.ticket {
      NotingKeepsHistory(b, Consumed(b.ledger, n), Stopped(n, b.ticket[n]));
    } else {
      assert forall m :: ToldOf(b.ledger, b.log, m) ==> ToldOf(Consumed(b.ledger, n), b.log, m);
    }
  }

  lemma CommittingKeepsHistory(b: Book, n: Name)
    requires HistoryInv(b) && Entitled(b, CommitOf(n))
    ensures HistoryInv(Perform(b, CommitOf(n)))
  {
    assert ToldOf(b.ledger, b.log, n);
    if DiedInFlight(b.ledger, n) {
      QuietKeepsHistory(b, Committed(b.ledger, n));
    } else {
      NotingKeepsHistory(b, Committed(b.ledger, n), Listed(n));
    }
  }

  lemma QuietKeepsHistory(b: Book, l': Ledger)
    requires HistoryInv(b) && l'.loaded == b.ledger.loaded
    requires forall m :: m in l'.inFlight ==> m in b.ledger.inFlight && l'.inFlight[m] == b.ledger.inFlight[m]
    ensures HistoryInv(b.(ledger := l'))
  {
    forall m
      ensures ToldOf(l', b.log, m)
    {
      assert ToldOf(b.ledger, b.log, m);
    }
  }

  lemma MarkingKeepsHistory(b: Book, n: Name)
    requires HistoryInv(b)
    ensures HistoryInv(Perform(b, MarkOf(n)))
  {
    QuietKeepsHistory(b, Announced(b.ledger, n));
  }

  lemma DeedsKeepHistory(b: Book, d: Deed)
    requires HistoryInv(b) && Entitled(b, d)
    ensures HistoryInv(Perform(b, d))
  {
    match d
    case Nothing =>
    case BeginOf(n) => NotingKeepsHistory(b, Begun(b.ledger, n), Began(n));
    case CloseOf(n) => QuietKeepsHistory(b, Closed(b.ledger, n));
    case CommitOf(n) => CommittingKeepsHistory(b, n);
    case MarkOf(n) => MarkingKeepsHistory(b, n);
    case UnmarkOf(n) => QuietKeepsHistory(b, Consumed(b.ledger, n));
    case TakeOutOf(n) => NotingKeepsHistory(b, Unlisted(b.ledger, n), TakenOut(n));
    case FinishOf(n, k) =>
      SettlingKeepsHistory(b, n);
      NotingKeepsHistory(Settled(b, n), Settled(b, n).ledger, Unloaded(n, k));
    case ForgetMarks => QuietKeepsHistory(b, b.ledger.(marks := {}));
    case ForgetLoaded => NotingKeepsHistory(b, b.ledger.(loaded := {}), FleetDown);
  }

  lemma CallbacksKeepHistory(b: Book, n: Name)
    requires HistoryInv(b)
    ensures HistoryInv(Reported(b, n)) && HistoryInv(Concluded(b, n))
  {
    NotingKeepsHistory(b, Struck(b.ledger, n), Died(n));
    NotingKeepsHistory(b, b.ledger, Crashed(n));
    SettlingKeepsHistory(b, n);
  }

  // ---------------------------------------------------------------- every announcement is recorded at most once

  ghost predicate RecordsInv(b: Book) {
    TicketsInv(b) && RecordedOnce(b.log) && AnswersRecorded(b.log)
  }

  /** Any other entry leaves the records as they are. */
  lemma OtherEntries(b: Book, ledger: Ledger, e: Entry)
    requires RecordsInv(b) && ledger.marks <= b.ledger.marks
    requires !e.Stopped? && (e.Unloaded? ==> Stopped(e.n, e.k) in b.log)
    ensures RecordsInv(b.(ledger := ledger, log := b.log + [e]))
  {
  }

  lemma SettlingKeepsRecords(b: Book, n: Name)
    requires RecordsInv(b)
    ensures RecordsInv(Settled(b, n))
    ensures n in b.ledger.marks ==> Stopped(n, b.ticket[n]) in Settled(b, n).log
    ensures forall e :: e in b.log ==> e in Settled(b, n).log
  {
  }

  lemma MarkingKeepsRecords(b: Book, n: Name)
    requires RecordsInv(b)
    ensures RecordsInv(Perform(b, MarkOf(n)))
  {
  }

  lemma DeedsKeepRecords(b: Book, d: Deed)
    requires RecordsInv(b) && Entitled(b, d)
    ensures RecordsInv(Perform(b, d))
  {
    match d
    case BeginOf(n) => OtherEntries(b, Begun(b.ledger, n), Began(n));
    case CommitOf(n) => OtherEntries(b, Committed(b.ledger, n), Listed(n));
    case TakeOutOf(n) => OtherEntries(b, Unlisted(b.ledger, n), TakenOut(n));
    case MarkOf(n) => MarkingKeepsRecords(b, n);
    case FinishOf(n, k) =>
      SettlingKeepsRecords(b, n);
      var b' := Settled(b, n);
      OtherEntries(b', b'.ledger, Unloaded(n, k));
    case ForgetLoaded => OtherEntries(b, b.ledger.(loaded := {}), FleetDown);
    case _ =>
  }

  lemma CallbacksKeepRecords(b: Book, n: Name)
    requires RecordsInv(b)
    ensures RecordsInv(Reported(b, n)) && RecordsInv(Concluded(b, n))
  {
    OtherEntries(b, Struck(b.ledger, n), Died(n));
    OtherEntries(b, b.ledger, Crashed(n));
    SettlingKeepsRecords(b, n);
  }

  // ---------------------------------------------------------------- deeds keep what the threads rely on

  /** The deed is about another module than the one the thread has locked, and no commit under a fleet teardown. */
  predicate Apart(d: Deed, th: Thread) {
    match d
    case Nothing => true
    case CommitOf(n) => ModuleOf(th.at) != Some(n) && !FleetEmptied(th)
    case ForgetMarks | ForgetLoaded => ModuleOf(th.at).None?
    case _ => ModuleOf(th.at) != Some(d.n)
  }

  lemma TheLocksKeepDeedsApart(b: Book, th: Thread, a: Action, other: Thread)
    requires Fits(b.ledger, th, a) && Shape(th) && Shape(other) && Compatible(th, other)
    ensures Apart(DeedOf(b.ledger, th, a), other)
  {
    assert ModuleOf(other.at).Some? ==> InFleet(other);
    assert FleetEmptied(other) ==> InFleet(other) && Exclusive(other.job);
    assert ModuleOf(th.at).Some? ==> InFleet(th);
    assert th.at.Marking? || th.at.MarksCleared? ==> InFleet(th) && Exclusive(th.job);
  }

  lemma OthersKeepTheirs(b: Book, d: Deed, th: Thread)
    requires ThreadInv(b, th) && Apart(d, th) && b.ledger.marks <= b.ticket.Keys
    ensures ThreadInv(Perform(b, d), th)
  {
    LogOnlyGrows(b, d);
    assert TicketOf(th.at).Some? ==> ModuleOf(th.at) == Some(th.at.n);
    assert BeforeCommit(th.at) || AfterTakingOut(th.at) ==> ModuleOf(th.at) == Some(th.at.n);
  }

  lemma LogOnlyGrows(b: Book, d: Deed)
    ensures forall e :: e in b.log ==> e in Perform(b, d).log
  {
  }

  lemma OwnShape(b: Book, th: Thread, a: Action)
    requires Shape(th) && Fits(b.ledger, th, a) && !a.Leave?
    ensures Shape(ThreadAfter(b.ledger, b.next, th, a))
  {
  }

  lemma OwnLoad(b: Book, th: Thread, a: Action)
    requires LoadInv(b.ledger, th.at) && Fits(b.ledger, th, a)
    ensures LoadInv(Perform(b, DeedOf(b.ledger, th, a)).ledger, PhaseAfter(b.ledger, b.next, th, a))
  {
  }

  lemma OwnTicket(b: Book, th: Thread, a: Action)
    requires TicketInv(b, th.at) && Fits(b.ledger, th, a)
    ensures TicketInv(Perform(b, DeedOf(b.ledger, th, a)), PhaseAfter(b.ledger, b.next, th, a))
  {
  }

  lemma OwnFleet(b: Book, th: Thread, a: Action)
    requires Shape(th) && Fits(b.ledger, th, a) && !a.Leave? && (FleetEmptied(th) ==> b.ledger.loaded == {})
    ensures FleetEmptied(ThreadAfter(b.ledger, b.next, th, a)) ==>
              Perform(b, DeedOf(b.ledger, th, a)).ledger.loaded == {}
  {
  }

  lemma OwnStep(b: Book, th: Thread, a: Action)
    requires ThreadInv(b, th) && Fits(b.ledger, th, a) && !a.Leave?
    ensures ThreadInv(Perform(b, DeedOf(b.ledger, th, a)), ThreadAfter(b.ledger, b.next, th, a))
  {
    OwnShape(b, th, a);
    OwnLoad(b, th, a);
    OwnTicket(b, th, a);
    OwnFleet(b, th, a);
  }

  lemma ThreadsAreEntitled(b: Book, th: Thread, a: Action)
    requires ThreadInv(b, th) && Fits(b.ledger, th, a)
    ensures Entitled(b, DeedOf(b.ledger, th, a))
  {
  }

  lemma CallbacksKeepThreads(b: Book, n: Name, th: Thread)
    requires ThreadInv(b, th) && b.ledger.marks <= b.ticket.Keys
    ensures ThreadInv(Reported(b, n), th) && ThreadInv(Concluded(b, n), th)
  {
  }

  // ---------------------------------------------------------------- every step keeps the invariant

  lemma KeepsExclusion(s: State, ev: Event)
    requires Exclusion(s.threads) && Can(s, ev)
    ensures Exclusion(Do(s, ev).threads)
  {
  }

  lemma KeepsThreads(s: State, ev: Event)
    requires Inv(s) && Can(s, ev)
    ensures ThreadsInv(Do(s, ev))
  {
    var s' := Do(s, ev);
    forall u | u in s'.threads
      ensures ThreadInv(s'.book, s'.threads[u])
    {
      match ev
      case Start(t, job) =>
      case Report(n) => CallbacksKeepThreads(s.book, n, s.threads[u]);
      case Conclude(n) => CallbacksKeepThreads(s.book, n, s.threads[u]);
      case Step(t, a) =>
        if u == t {
          OwnStep(s.book, s.threads[t], a);
        } else {
          TheLocksKeepDeedsApart(s.book, s.threads[t], a, s.threads[u]);
          OthersKeepTheirs(s.book, DeedOf(s.book.ledger, s.threads[t], a), s.threads[u]);
        }
    }
  }

  /** The doer answers for what it enters in the ledger, and leaves nothing behind. */
  lemma OwnAttempts(b: Book, th: Thread, a: Action, n: Name)
    requires Fits(b.ledger, th, a)
    requires n in Perform(b, DeedOf(b.ledger, th, a)).ledger.inFlight && (Loads(th, n) || n !in b.ledger.inFlight)
    ensures Loads(ThreadAfter(b.ledger, b.next, th, a), n) && !a.Leave?
  {
    var d := DeedOf(b.ledger, th, a);
    assert n !in b.ledger.inFlight ==> d == BeginOf(n);
    assert d != CloseOf(n) && d != CommitOf(n);
  }

  lemma OwnMarks(b: Book, th: Thread, a: Action, n: Name)
    requires Fits(b.ledger, th, a)
    requires n in Perform(b, DeedOf(b.ledger, th, a)).ledger.marks && (TearsDown(th, n) || n !in b.ledger.marks)
    ensures TearsDown(ThreadAfter(b.ledger, b.next, th, a), n) && !a.Leave?
  {
    var d := DeedOf(b.ledger, th, a);
    assert n !in b.ledger.marks ==> d == MarkOf(n);
    assert d != UnmarkOf(n) && !d.ForgetMarks? && !d.FinishOf?;
  }

  lemma KeepsAttempts(s: State, t: Tid, a: Action, n: Name)
    requires Ownership(s) && Can(s, Step(t, a)) && n in Do(s, Step(t, a)).book.ledger.inFlight
    ensures SomeLoads(Do(s, Step(t, a)).threads, n)
  {
    var s', th := Do(s, Step(t, a)), s.threads[t];
    if n in s.book.ledger.inFlight && !Loads(th, n) {
      var u :| u in s.threads && Loads(s.threads[u], n);
      assert u in s'.threads && s'.threads[u] == s.threads[u];
    } else {
      OwnAttempts(s.book, th, a, n);
      assert t in s'.threads && Loads(s'.threads[t], n);
    }
  }

  lemma KeepsMarks(s: State, t: Tid, a: Action, n: Name)
    requires Ownership(s) && Can(s, Step(t, a)) && n in Do(s, Step(t, a)).book.ledger.marks
    ensures SomeTearsDown(Do(s, Step(t, a)).threads, n)
  {
    var s', th := Do(s, Step(t, a)), s.threads[t];
    if n in s.book.ledger.marks && !TearsDown(th, n) {
      var u :| u in s.threads && TearsDown(s.threads[u], n);
      assert u in s'.threads && s'.threads[u] == s.threads[u];
    } else {
      OwnMarks(s.book, th, a, n);
      assert t in s'.threads && TearsDown(s'.threads[t], n);
    }
  }

  lemma ArrivalsKeepOwners(threads: map<Tid, Thread>, t: Tid, th: Thread)
    requires t !in threads
    ensures forall n :: SomeLoads(threads, n) ==> SomeLoads(threads[t := th], n)
    ensures forall n :: SomeTearsDown(threads, n) ==> SomeTearsDown(threads[t := th], n)
  {
    var threads' := threads[t := th];
    forall n | SomeLoads(threads, n)
      ensures SomeLoads(threads', n)
    {
      var u :| u in threads && Loads(threads[u], n);
      assert u in threads' && Loads(threads'[u], n);
    }
    forall n | SomeTearsDown(threads, n)
      ensures SomeTearsDown(threads', n)
    {
      var u :| u in threads && TearsDown(threads[u], n);
      assert u in threads' && TearsDown(threads'[u], n);
    }
  }

  lemma KeepsOwnership(s: State, ev: Event)
    requires Inv(s) && Can(s, ev)
    ensures Ownership(Do(s, ev))
  {
    match ev
    case Start(t, job) =>
      if t !in s.threads {
        ArrivalsKeepOwners(s.threads, t, Do(s, ev).threads[t]);
      }
    case Report(n) =>
    case Conclude(n) =>
    case Step(t, a) =>
      forall n | n in Do(s, ev).book.ledger.inFlight
        ensures SomeLoads(Do(s, ev).threads, n)
      {
        KeepsAttempts(s, t, a, n);
      }
      forall n | n in Do(s, ev).book.ledger.marks
        ensures SomeTearsDown(Do(s, ev).threads, n)
      {
        KeepsMarks(s, t, a, n);
      }
  }

  /** Only an unload's tail answers, and only its own announcement. */
  lemma AnswersGrow(b: Book, d: Deed, k: Ticket)
    requires Unanswered(b.log, k) && (d.FinishOf? ==> d.k != k)
    ensures Unanswered(Perform(b, d).log, k)
  {
  }

  lemma AnswersStayDistinct(b: Book, d: Deed)
    requires AnsweredOnce(b.log) && (d.FinishOf? ==> Unanswered(b.log, d.k))
    ensures AnsweredOnce(Perform(b, d).log)
  {
  }

  lemma FreshIsUnanswered(b: Book)
    requires RecordsInv(b)
    ensures Unanswered(b.log, b.next)
  {
    forall i | 0 <= i < |b.log| && b.log[i].Unloaded?
      ensures b.log[i].k != b.next
    {
      var e := Stopped(b.log[i].n, b.log[i].k);
      assert e in b.log;
      var j :| 0 <= j < |b.log| && b.log[j] == e;
    }
  }

  /** A step keeps its thread's announcement, or makes the next one. */
  lemma OwnNumber(b: Book, th: Thread, a: Action)
    requires Fits(b.ledger, th, a)
    ensures var k' := TicketOf(PhaseAfter(b.ledger, b.next, th, a)); var d := DeedOf(b.ledger, th, a);
            && (k'.Some? ==> (k' == TicketOf(th.at) || k' == Some(b.next)) && !d.FinishOf?)
            && (d.FinishOf? ==> TicketOf(th.at) == Some(d.k) && th.at == Tail(d.n, d.k))
  {
  }

  lemma KeepsAnswersOnStep(s: State, t: Tid, a: Action, u: Tid)
    requires Inv(s) && Can(s, Step(t, a)) && u in Do(s, Step(t, a)).threads
    requires TicketOf(Do(s, Step(t, a)).threads[u].at).Some?
    ensures Unanswered(Do(s, Step(t, a)).book.log, TicketOf(Do(s, Step(t, a)).threads[u].at).value)
  {
    var b, th := s.book, s.threads[t];
    var d := DeedOf(b.ledger, th, a);
    FreshIsUnanswered(b);
    OwnNumber(b, th, a);
    if u != t && d.FinishOf? {
      assert Compatible(th, s.threads[u]);
      assert ThreadInv(b, th) && ThreadInv(b, s.threads[u]);
    }
    AnswersGrow(b, d, TicketOf(Do(s, Step(t, a)).threads[u].at).value);
  }

  lemma CallbacksNeverAnswer(b: Book, n: Name)
    requires AnsweredOnce(b.log)
    ensures AnsweredOnce(Reported(b, n).log) && AnsweredOnce(Concluded(b, n).log)
    ensures forall k :: Unanswered(b.log, k) ==> Unanswered(Reported(b, n).log, k) && Unanswered(Concluded(b, n).log, k)
  {
  }

  lemma KeepsAnswers(s: State, ev: Event)
    requires Inv(s) && Can(s, ev)
    ensures Answers(Do(s, ev))
  {
    var s' := Do(s, ev);
    match ev
    case Start(t, job) =>
    case Report(n) => CallbacksNeverAnswer(s.book, n);
    case Conclude(n) => CallbacksNeverAnswer(s.book, n);
    case Step(t, a) =>
      OwnNumber(s.book, s.threads[t], a);
      AnswersStayDistinct(s.book, DeedOf(s.book.ledger, s.threads[t], a));
      forall u | u in s'.threads && TicketOf(s'.threads[u].at).Some?
        ensures Unanswered(s'.book.log, TicketOf(s'.threads[u].at).value)
      {
        KeepsAnswersOnStep(s, t, a, u);
      }
  }

  /** The invariant holds after every legal run. */
  lemma {:induction false} RunsKeepInv(evs: seq<Event>)
    requires Legal(evs)
    ensures Inv(After(evs))
  {
    if evs != [] {
      var front, ev := evs[..|evs| - 1], evs[|evs| - 1];
      RunsKeepInv(front);
      KeepsExclusion(After(front), ev);
      KeepsThreads(After(front), ev);
      KeepsOwnership(After(front), ev);
      KeepsAnswers(After(front), ev);
      match ev
      case Start(t, job) =>
      case Report(n) =>
        CallbacksKeepHistory(After(front).book, n);
        CallbacksKeepRecords(After(front).book, n);
      case Conclude(n) =>
        CallbacksKeepHistory(After(front).book, n);
        CallbacksKeepRecords(After(front).book, n);
      case Step(t, a) =>
        var b, th := After(front).book, After(front).threads[t];
        ThreadsAreEntitled(b, th, a);
        DeedsKeepHistory(b, DeedOf(b.ledger, th, a));
        DeedsKeepRecords(b, DeedOf(b.ledger, th, a));
    }
  }

  // ---------------------------------------------------------------- no lost death

  ghost predicate NoneBetween(log: seq<Entry>, i: int, j: int, e: Entry) {
    forall k :: i < k < j && 0 <= k < |log| ==> log[k] != e
  }

  lemma {:induction false} CleanMeans(log: seq<Entry>, n: Name) returns (b: nat)
    requires Clean(log, n)
    ensures b < |log| && log[b] == Began(n)
    ensures NoneBetween(log, b, |log|, Died(n)) && NoneBetween(log, b, |log|, Began(n))
  {
    if log[|log| - 1] == Began(n) {
      b := |log| - 1;
    } else {
      b := CleanMeans(log[..|log| - 1], n);
    }
  }

  lemma {:induction false} StandingMeans(log: seq<Entry>, n: Name) returns (c: nat)
    requires Standing(log, n)
    ensures c < |log| && log[c] == Listed(n)
    ensures forall k :: c < k < |log| ==> !Ends(log[k], n)
  {
    if log[|log| - 1] == Listed(n) {
      c := |log| - 1;
    } else {
      c := StandingMeans(log[..|log| - 1], n);
    }
  }

  lemma {:induction false} EndedMeans(log: seq<Entry>, n: Name, c: nat) returns (e: nat)
    requires !Standing(log, n) && c < |log| && log[c] == Listed(n)
    ensures c < e < |log| && Ends(log[e], n)
  {
    if Ends(log[|log| - 1], n) {
      e := |log| - 1;
    } else {
      e := EndedMeans(log[..|log| - 1], n, c);
    }
  }

  lemma {:induction false} SoundAt(log: seq<Entry>, c: nat)
    requires Sound(log) && c < |log| && log[c].Listed?
    ensures Clean(log[..c], log[c].n) && !Standing(log[..c], log[c].n)
  {
    var front := log[..|log| - 1];
    if c < |front| {
      SoundAt(front, c);
      assert front[..c] == log[..c];
    }
  }

  ghost function LogAfter(evs: seq<Event>): seq<Entry>
    requires Legal(evs)
  {
    After(evs).book.log
  }

  /** The commit at `c` has its begin at `b`, and no termination came in between. */
  ghost predicate CleanSince(log: seq<Entry>, b: nat, c: nat, n: Name) {
    && b < c < |log| && log[b] == Began(n)
    && NoneBetween(log, b, c, Died(n)) && NoneBetween(log, b, c, Began(n))
  }

  /** A load commits only if no termination of the module arrived since its attempt began. */
  lemma {:induction false} NoLostDeath(evs: seq<Event>, c: nat) returns (b: nat)
    requires Legal(evs) && c < |LogAfter(evs)| && LogAfter(evs)[c].Listed?
    ensures CleanSince(LogAfter(evs), b, c, LogAfter(evs)[c].n)
  {
    RunsKeepInv(evs);
    b := CleanBefore(LogAfter(evs), c);
  }

  lemma {:induction false} CleanBefore(log: seq<Entry>, c: nat) returns (b: nat)
    requires Sound(log) && c < |log| && log[c].Listed?
    ensures CleanSince(log, b, c, log[c].n)
  {
    SoundAt(log, c);
    b := CleanMeans(log[..c], log[c].n);
    forall k | b < k < c
      ensures log[k] != Died(log[c].n) && log[k] != Began(log[c].n)
    {
      assert log[..c][k] == log[k];
    }
  }

  /**
   * A listed module was committed after whatever last ended it; and after a death, by an attempt begun after the
   * death.
   */
  lemma {:induction false} DeadUntilALaterAttemptCommits(evs: seq<Event>, n: Name, d: nat) returns (b: nat, c: nat)
    requires Legal(evs) && n in After(evs).book.ledger.loaded
    requires d < |LogAfter(evs)| && Ends(LogAfter(evs)[d], n)
    ensures d < c < |LogAfter(evs)| && LogAfter(evs)[c] == Listed(n) && CleanSince(LogAfter(evs), b, c, n)
    ensures LogAfter(evs)[d] == Died(n) ==> d < b
  {
    RunsKeepInv(evs);
    var log := LogAfter(evs);
    assert ToldOf(After(evs).book.ledger, log, n);
    c := StandingMeans(log, n);
    assert d != c;
    b := CleanBefore(log, c);
    assert log[d] == Died(n) ==> d <= b;
  }

  /** Between two commits of one name there is always a termination, an unload or a fleet teardown. */
  lemma {:induction false} CommitsAreSeparated(evs: seq<Event>, c1: nat, c2: nat) returns (e: nat)
    requires Legal(evs) && c1 < c2 < |LogAfter(evs)|
    requires LogAfter(evs)[c1].Listed? && LogAfter(evs)[c2] == LogAfter(evs)[c1]
    ensures c1 < e < c2 && Ends(LogAfter(evs)[e], LogAfter(evs)[c1].n)
  {
    RunsKeepInv(evs);
    e := EndBetween(LogAfter(evs), c1, c2);
  }

  lemma {:induction false} EndBetween(log: seq<Entry>, c1: nat, c2: nat) returns (e: nat)
    requires Sound(log) && c1 < c2 < |log| && log[c1].Listed? && log[c2] == log[c1]
    ensures c1 < e < c2 && Ends(log[e], log[c1].n)
  {
    SoundAt(log, c2);
    assert log[..c2][c1] == log[c1];
    e := EndedMeans(log[..c2], log[c1].n, c1);
  }

  // ---------------------------------------------------------------- what the locks are for

  /**
   * In every run: no two calls are in one module's load or unload, no two start a child, nobody reads the
   * configuration while another changes it, and nothing else is inside the fleet with a cascade or a fleet teardown.
   */
  lemma {:induction false} TheLocksExclude(evs: seq<Event>, t: Tid, u: Tid)
    requires Legal(evs) && t in After(evs).threads && u in After(evs).threads && t != u
    ensures var a, b := After(evs).threads[t], After(evs).threads[u];
            && (ModuleOf(a.at).Some? ==> ModuleOf(a.at) != ModuleOf(b.at))
            && !(a.at.Spawning? && b.at.Spawning?)
            && (a.at.Configuring? ==> !b.at.Configuring? && !b.at.Reading?)
            && ((a.job.Fleet? || (a.job.Modules? && a.job.exclusive)) && !a.at.Waiting? ==>
                  b.job.Configure? || b.at.Waiting?)
  {
    RunsKeepInv(evs);
    assert Compatible(After(evs).threads[t], After(evs).threads[u]);
  }

  /** A fleet teardown announces each module it found loaded, once, before it goes on. */
  lemma FleetAnnouncesAll(s: State, t: Tid)
    requires t in s.threads && s.threads[t].job.Fleet?
    ensures Can(s, Step(t, ReadFleet)) ==>
              Do(s, Step(t, ReadFleet)).threads[t].at == Marking(s.book.ledger.loaded)
    ensures forall n :: Can(s, Step(t, AnnounceOne(n))) ==>
                          && s.threads[t].at.Marking? && n in s.threads[t].at.rest
                          && Do(s, Step(t, AnnounceOne(n))).threads[t].at == Marking(s.threads[t].at.rest - {n})
                          && Do(s, Step(t, AnnounceOne(n))).book.ledger.marks == s.book.ledger.marks + {n}
    ensures Can(s, Step(t, ClearMarks)) ==> s.threads[t].at == Marking({})
  {
  }

  // ---------------------------------------------------------------- who owns marks and attempts

  /** Every in-flight entry is a load under its module's lock, every mark a teardown under that or the fleet lock. */
  lemma {:induction false} MarksAreOwned(evs: seq<Event>, n: Name)
    requires Legal(evs)
    ensures n in After(evs).book.ledger.inFlight <==> SomeLoads(After(evs).threads, n)
    ensures n in After(evs).book.ledger.marks ==> SomeTearsDown(After(evs).threads, n)
    ensures After(evs).threads == map[] ==>
              After(evs).book.ledger.inFlight == map[] && After(evs).book.ledger.marks == {}
  {
    RunsKeepInv(evs);
  }

  /**
   * A reported death is left for the callback to conclude if and only if no load of the module is running; a load
   * that is running takes it over, and its commit, if it comes to that, lists nothing.
   */
  lemma {:induction false} HandedOnIffNoLoad(evs: seq<Event>, n: Name)
    requires Legal(evs)
    ensures Can(After(evs), Report(n))
    ensures var s' := Do(After(evs), Report(n));
            && (s'.concluding == After(evs).concluding + multiset{n} <==> !SomeLoads(After(evs).threads, n))
            && (SomeLoads(After(evs).threads, n) ==>
                  s'.concluding == After(evs).concluding && n !in Committed(s'.book.ledger, n).loaded)
            && n !in s'.book.ledger.loaded && s'.book.log == LogAfter(evs) + [Died(n)]
  {
    MarksAreOwned(evs, n);
    if SomeLoads(After(evs).threads, n) {
      assert (After(evs).concluding + multiset{n})[n] == After(evs).concluding[n] + 1;
    }
  }

  /** Whatever comes after it, no commit lists the module before another attempt has begun. */
  lemma {:induction false} ADeathUndoesItsAttempt(evs: seq<Event>, n: Name, more: seq<Event>, c: nat) returns (b: nat)
    requires Legal(evs) && Legal(evs + [Report(n)] + more)
    requires |LogAfter(evs)| <= c < |LogAfter(evs + [Report(n)] + more)|
    requires LogAfter(evs + [Report(n)] + more)[c] == Listed(n)
    ensures |LogAfter(evs)| < b < c && LogAfter(evs + [Report(n)] + more)[b] == Began(n)
  {
    b := NoLostDeath(evs + [Report(n)] + more, c);
    OneMore(evs, Report(n));
    LogsExtend(evs + [Report(n)], more);
    assert LogAfter(evs + [Report(n)])[|LogAfter(evs)|] == Died(n);
  }

  lemma {:induction false} LogsExtend(evs: seq<Event>, more: seq<Event>)
    requires Legal(evs) && Legal(evs + more)
    ensures LogAfter(evs) <= LogAfter(evs + more)
    decreases |more|
  {
    if more == [] {
      assert evs + more == evs;
    } else {
      var all := evs + more;
      assert all[..|all| - 1] == evs + more[..|more| - 1];
      LogsExtend(evs, more[..|more| - 1]);
      LogExtends(After(all[..|all| - 1]), all[|all| - 1]);
    }
  }

  lemma LogExtends(s: State, ev: Event)
    requires Can(s, ev)
    ensures s.book.log <= Do(s, ev).book.log
  {
  }

  /** A commit lists its module exactly when no termination has been recorded since the attempt's own begin. */
  lemma {:induction false} CommitListsIffNoDeath(evs: seq<Event>, t: Tid)
    requires Legal(evs) && Can(After(evs), Step(t, Commits))
    ensures var n, l := After(evs).threads[t].at.n, Do(After(evs), Step(t, Commits)).book.ledger;
            && n !in l.inFlight
            && (n in l.loaded <==> Clean(LogAfter(evs), n))
            && l.loaded - {n} == After(evs).book.ledger.loaded - {n}
  {
    RunsKeepInv(evs);
    CommitStep(After(evs), t);
  }

  lemma CommitStep(s: State, t: Tid)
    requires ThreadsInv(s) && HistoryInv(s.book) && Can(s, Step(t, Commits))
    ensures var n, l := s.threads[t].at.n, Do(s, Step(t, Commits)).book.ledger;
            && n !in l.inFlight && (n in l.loaded <==> Clean(s.book.log, n))
            && l.loaded - {n} == s.book.ledger.loaded - {n}
  {
    assert ThreadInv(s.book, s.threads[t]);
    assert ToldOf(s.book.ledger, s.book.log, s.threads[t].at.n);
    CommitsWhenClean(s.book, s.threads[t].at.n);
  }

  lemma CommitsWhenClean(b: Book, n: Name)
    requires ToldOf(b.ledger, b.log, n) && n in b.ledger.inFlight && n !in b.ledger.loaded
    ensures var l := Perform(b, CommitOf(n)).ledger;
            && n !in l.inFlight && (n in l.loaded <==> Clean(b.log, n))
            && l.loaded - {n} == b.ledger.loaded - {n}
  {
  }

  /** When an unload answers true its module is down, and stays so until the answer is given. */
  lemma {:induction false} AnsweredMeansDown(evs: seq<Event>, t: Tid)
    requires Legal(evs) && Can(After(evs), Step(t, Concludes))
    ensures var at, b := After(evs).threads[t].at, Do(After(evs), Step(t, Concludes)).book;
            && b.log != [] && b.log[|b.log| - 1] == Unloaded(at.n, at.k)
            && at.n !in After(evs).book.ledger.loaded && at.n !in b.ledger.loaded
  {
    RunsKeepInv(evs);
    FinishStep(After(evs), t);
  }

  lemma FinishStep(s: State, t: Tid)
    requires ThreadsInv(s) && Can(s, Step(t, Concludes))
    ensures var at, b := s.threads[t].at, Do(s, Step(t, Concludes)).book;
            && b.log != [] && b.log[|b.log| - 1] == Unloaded(at.n, at.k)
            && at.n !in s.book.ledger.loaded && at.n !in b.ledger.loaded
  {
    assert ThreadInv(s.book, s.threads[t]);
    FinishAnswers(s.book, s.threads[t].at.n, s.threads[t].at.k);
  }

  lemma FinishAnswers(b: Book, n: Name, k: Ticket)
    ensures var b' := Perform(b, FinishOf(n, k));
            b'.log != [] && b'.log[|b'.log| - 1] == Unloaded(n, k) && b'.ledger.loaded == b.ledger.loaded
  {
  }

  /** From the step that empties the loaded set to the one that leaves, nothing is loaded under a fleet teardown. */
  lemma {:induction false} FleetDownMeansEmpty(evs: seq<Event>, t: Tid)
    requires Legal(evs) && t in After(evs).threads && After(evs).threads[t].job.Fleet?
    ensures var at := After(evs).threads[t].at;
            (at.WantsReset? || at.Configuring? || at.Finished?) ==> After(evs).book.ledger.loaded == {}
    ensures Can(After(evs), Step(t, Leave)) ==> Do(After(evs), Step(t, Leave)).book.ledger.loaded == {}
  {
    RunsKeepInv(evs);
  }

  /**
   * With no load of the module running, a reported death is left for the callback to conclude, and the module is
   * unlisted.
   */
  lemma {:induction false} DeathIsHandedOn(evs: seq<Event>, n: Name)
    requires Legal(evs) && !SomeLoads(After(evs).threads, n)
    ensures Can(After(evs), Report(n)) && n in Do(After(evs), Report(n)).concluding
    ensures n !in Do(After(evs), Report(n)).book.ledger.loaded
    ensures Do(After(evs), Report(n)).book.log == LogAfter(evs) + [Died(n)]
  {
    MarksAreOwned(evs, n);
  }

  /** With no teardown of the module running, what the callback concludes is a crash, recorded and supervised. */
  lemma {:induction false} ConcludedIsACrash(evs: seq<Event>, n: Name)
    requires Legal(evs) && n in After(evs).concluding && !SomeTearsDown(After(evs).threads, n)
    ensures Can(After(evs), Conclude(n))
    ensures Do(After(evs), Conclude(n)).book.log == LogAfter(evs) + [Crashed(n)]
  {
    MarksAreOwned(evs, n);
  }

  /** In general: what the callback concludes is a crash exactly when no mark of the name is left at that moment. */
  lemma {:induction false} ConcludedAsCrashIffUnmarked(evs: seq<Event>, n: Name)
    requires Legal(evs) && n in After(evs).concluding
    ensures Can(After(evs), Conclude(n))
    ensures var b, log := After(evs).book, Do(After(evs), Conclude(n)).book.log;
            && (log == LogAfter(evs) + [Crashed(n)] <==> n !in b.ledger.marks)
            && (n in b.ledger.marks ==> n in b.ticket && log == LogAfter(evs) + [Stopped(n, b.ticket[n])])
  {
    RunsKeepInv(evs);
    ConcludesOneWay(After(evs).book, n);
  }

  lemma ConcludesOneWay(b: Book, n: Name)
    requires b.ledger.marks <= b.ticket.Keys
    ensures Concluded(b, n).log == b.log + [Crashed(n)] <==> n !in b.ledger.marks
    ensures n in b.ledger.marks ==> Concluded(b, n).log == b.log + [Stopped(n, b.ticket[n])]
  {
    assert Concluded(b, n).log[|b.log|].Crashed? <==> n !in b.ledger.marks;
  }

  /**
   * A death outside any load of the module, concluded outside any teardown of it, is recorded as a crash and
   * supervised, whatever any thread or callback does between the two sections.
   */
  lemma {:induction false} DeathOutsideIsACrash(evs: seq<Event>, n: Name, more: seq<Event>)
    requires Legal(evs) && !SomeLoads(After(evs).threads, n)
    requires Legal(evs + [Report(n)] + more) && Can(After(evs + [Report(n)] + more), Conclude(n))
    requires !SomeTearsDown(After(evs + [Report(n)] + more).threads, n)
    ensures Legal(evs + [Report(n)]) && n in After(evs + [Report(n)]).concluding
    ensures Legal(evs + [Report(n)] + more + [Conclude(n)])
    ensures LogAfter(evs + [Report(n)] + more + [Conclude(n)]) == LogAfter(evs + [Report(n)] + more) + [Crashed(n)]
  {
    DeathIsHandedOn(evs, n);
    OneMore(evs, Report(n));
    ConcludedIsACrash(evs + [Report(n)] + more, n);
    OneMore(evs + [Report(n)] + more, Conclude(n));
  }

  lemma OneMore(evs: seq<Event>, ev: Event)
    requires Legal(evs) && Can(After(evs), ev)
    ensures Legal(evs + [ev]) && After(evs + [ev]) == Do(After(evs), ev)
  {
    assert (evs + [ev])[..|evs|] == evs;
  }

  /** No other entry of the log than `i` answers, and none but `j` records, the announcement `k`. */
  ghost predicate OnlyRecord(log: seq<Entry>, k: Ticket, i: nat, j: nat) {
    && (forall x :: 0 <= x < |log| && x != j && log[x].Stopped? ==> log[x].k != k)
    && (forall x :: 0 <= x < |log| && x != i && log[x].Unloaded? ==> log[x].k != k)
  }

  /** Each unload that answers true has made exactly one stopping-to-unloaded record, which is no other unload's. */
  lemma {:induction false} EveryUnloadIsRecordedOnce(evs: seq<Event>, i: nat) returns (j: nat)
    requires Legal(evs) && i < |LogAfter(evs)| && LogAfter(evs)[i].Unloaded?
    ensures j < |LogAfter(evs)| && LogAfter(evs)[j] == Stopped(LogAfter(evs)[i].n, LogAfter(evs)[i].k)
    ensures OnlyRecord(LogAfter(evs), LogAfter(evs)[i].k, i, j)
  {
    RunsKeepInv(evs);
    var log := LogAfter(evs);
    var e := Stopped(log[i].n, log[i].k);
    assert e in log;
    j :| 0 <= j < |log| && log[j] == e;
  }

  // ---------------------------------------------------------------- deadlock freedom

  predicate WantsToWrite(th: Thread) {
    th.at.WantsReset? || (th.at.Waiting? && th.job.Configure?)
  }

  ghost predicate WriterWaits(s: State) {
    exists u :: u in s.threads && WantsToWrite(s.threads[u])
  }

  ghost predicate ExclusiveWaits(s: State) {
    exists u :: u in s.threads && s.threads[u].at.Waiting? && Exclusive(s.threads[u].job)
  }

  /** A step that is possible even on locks that let no reader pass a waiting writer. */
  ghost predicate CanAtWorst(s: State, t: Tid, a: Action) {
    && Can(s, Step(t, a))
    && (a.ReadConfig? ==> !WriterWaits(s))
    && (a.EnterFleet? && !Exclusive(s.threads[t].job) ==> !ExclusiveWaits(s))
  }

  predicate Acquires(a: Action) {
    a.EnterFleet? || a.Lock? || a.ReadConfig? || a.TakeSpawn? || a.TakeConfig?
  }

  /** Only those five actions ever wait. */
  lemma OtherwiseFree(s: State, t: Tid, a: Action)
    requires Exclusion(s.threads) && ThreadsInv(s) && t in s.threads
    requires Fits(s.book.ledger, s.threads[t], a) && !Acquires(a)
    ensures Can(s, Step(t, a))
  {
    var th' := ThreadAfter(s.book.ledger, s.book.next, s.threads[t], a);
    forall u | u in s.threads && u != t
      ensures Compatible(th', s.threads[u])
    {
      assert Compatible(s.threads[t], s.threads[u]);
      assert Shape(s.threads[t]);
      HoldsNoMore(s.book.ledger, s.book.next, s.threads[t], a);
    }
  }

  predicate HoldsLess(a: Thread, b: Thread) {
    && (InFleet(a) ==> InFleet(b)) && a.job == b.job
    && (ModuleOf(a.at).Some? ==> ModuleOf(a.at) == ModuleOf(b.at))
    && (a.at.Spawning? ==> b.at.Spawning?) && (a.at.Configuring? ==> b.at.Configuring?)
    && (a.at.Reading? ==> b.at.Reading?)
  }

  lemma HoldsNoMore(l: Ledger, next: Ticket, th: Thread, a: Action)
    requires Shape(th) && Fits(l, th, a) && !Acquires(a)
    ensures HoldsLess(ThreadAfter(l, next, th, a), th)
  {
  }

  lemma ReaderGetsIn(s: State, t: Tid)
    requires Exclusion(s.threads) && t in s.threads && s.threads[t].at.WantsConfig?
    requires forall u :: u in s.threads ==> !s.threads[u].at.Configuring?
    ensures Can(s, Step(t, ReadConfig))
  {
    var th' := ThreadAfter(s.book.ledger, s.book.next, s.threads[t], ReadConfig);
    forall u | u in s.threads && u != t
      ensures Compatible(th', s.threads[u])
    {
      assert Compatible(s.threads[t], s.threads[u]);
    }
  }

  lemma WriterGetsIn(s: State, t: Tid)
    requires Exclusion(s.threads) && t in s.threads && WantsToWrite(s.threads[t]) && Shape(s.threads[t])
    requires forall u :: u in s.threads ==> !s.threads[u].at.Configuring? && !s.threads[u].at.Reading?
    ensures Can(s, Step(t, TakeConfig))
  {
    var th' := ThreadAfter(s.book.ledger, s.book.next, s.threads[t], TakeConfig);
    forall u | u in s.threads && u != t
      ensures Compatible(th', s.threads[u])
    {
      assert Compatible(s.threads[t], s.threads[u]);
    }
  }

  /** At the configuration lock, where no call dials out. */
  predicate AtConfig(th: Thread) {
    th.at.Reading? || th.at.Configuring? || WantsToWrite(th)
  }

  /**
   * Whoever waits for the configuration lock waits only for calls that are at it themselves, so a configuration
   * call delivered inside another's dial never waits for the call beneath it.
   */
  lemma ConfigMoves(s: State, x: Tid) returns (t: Tid, a: Action)
    requires Inv(s) && x in s.threads
    requires || s.threads[x].at.WantsConfig? || s.threads[x].at.Reading?
             || s.threads[x].at.Configuring? || WantsToWrite(s.threads[x])
    ensures CanAtWorst(s, t, a) && (t == x || AtConfig(s.threads[t]))
  {
    if u: Tid :| u in s.threads && s.threads[u].at.Reading? {
      t, a := u, DropReading;
      OtherwiseFree(s, t, a);
    } else if u: Tid :| u in s.threads && s.threads[u].at.Configuring? {
      t, a := u, DropConfig;
      OtherwiseFree(s, t, a);
    } else if u: Tid :| u in s.threads && WantsToWrite(s.threads[u]) {
      t, a := u, TakeConfig;
      WriterGetsIn(s, u);
    } else {
      t, a := x, ReadConfig;
      ReaderGetsIn(s, x);
    }
  }

  lemma SpawnMoves(s: State, x: Tid) returns (t: Tid, a: Action)
    requires Inv(s) && x in s.threads && s.threads[x].at.Attempting?
    ensures CanAtWorst(s, t, a)
  {
    if u: Tid :| u in s.threads && s.threads[u].at.Spawning? {
      t, a := u, Spawned(true);
      OtherwiseFree(s, t, a);
    } else {
      t, a := x, TakeSpawn;
    }
  }

  /** What a thread holding a module's lock, and wanting no further one, does next. */
  function NextInside(l: Ledger, at: Phase): Action {
    match at
    case Checking(n) => if n in l.loaded then Decline else Accept
    case Ready(_) => BeginsLoad
    case Spawning(_) => Spawned(true)
    case Abandoning(_) => Abandons
    case Tokening(_) => Commits
    case TokenMarked(_, _) => Unmarks
    case UnloadChecking(n) => if n in l.loaded then Accept else Decline
    case Announcing(_) => Marks
    case UnloadMarked(_, _) => TakesOut
    case _ => Concludes
  }

  lemma HolderMoves(s: State, x: Tid) returns (t: Tid, a: Action)
    requires Inv(s) && x in s.threads && ModuleOf(s.threads[x].at).Some?
    ensures CanAtWorst(s, t, a)
  {
    var at := s.threads[x].at;
    if at.WantsConfig? || at.Reading? {
      t, a := ConfigMoves(s, x);
    } else if at.Attempting? {
      t, a := SpawnMoves(s, x);
    } else {
      t, a := x, NextInside(s.book.ledger, at);
      OtherwiseFree(s, t, a);
    }
  }

  lemma ModulesMove(s: State, x: Tid) returns (t: Tid, a: Action)
    requires Inv(s) && x in s.threads && InFleet(s.threads[x]) && s.threads[x].job.Modules?
    ensures CanAtWorst(s, t, a)
  {
    var th := s.threads[x];
    if ModuleOf(th.at).Some? {
      t, a := HolderMoves(s, x);
    } else if th.tasks == [] {
      t, a := x, Leave;
      OtherwiseFree(s, t, a);
    } else if u: Tid :| u in s.threads && ModuleOf(s.threads[u].at) == Some(th.tasks[0].n) {
      t, a := HolderMoves(s, u);
    } else {
      t, a := x, Lock;
      assert forall u :: u in s.threads && u != x ==> Compatible(th, s.threads[u]);
    }
  }

  lemma TeardownMoves(s: State, x: Tid) returns (t: Tid, a: Action)
    requires Inv(s) && x in s.threads && InFleet(s.threads[x]) && s.threads[x].job.Fleet?
    ensures CanAtWorst(s, t, a)
  {
    var at := s.threads[x].at;
    if at.WantsReset? || at.Configuring? {
      t, a := ConfigMoves(s, x);
    } else {
      t := x;
      if at.Between? {
        a := ReadFleet;
      } else if at.Marking? {
        if n: Name :| n in at.rest {
          a := AnnounceOne(n);
        } else {
          a := ClearMarks;
        }
      } else if at.MarksCleared? {
        a := ClearLoaded;
      } else {
        a := Leave;
      }
      OtherwiseFree(s, t, a);
    }
  }

  lemma FleetMoves(s: State, x: Tid) returns (t: Tid, a: Action)
    requires Inv(s) && x in s.threads && s.threads[x].at.Waiting? && !s.threads[x].job.Configure?
    ensures CanAtWorst(s, t, a)
  {
    if u: Tid :| u in s.threads && InFleet(s.threads[u]) {
      if s.threads[u].job.Modules? {
        t, a := ModulesMove(s, u);
      } else {
        t, a := TeardownMoves(s, u);
      }
    } else if u: Tid :| u in s.threads && s.threads[u].at.Waiting? && Exclusive(s.threads[u].job) {
      t, a := u, EnterFleet;
    } else {
      t, a := x, EnterFleet;
    }
  }

  /** As long as a call is unfinished some thread can step, whatever calls are under way. */
  lemma {:induction false} SomeThreadCanStep(evs: seq<Event>, x: Tid) returns (t: Tid, a: Action)
    requires Legal(evs) && x in After(evs).threads
    ensures CanAtWorst(After(evs), t, a)
  {
    RunsKeepInv(evs);
    var s := After(evs);
    var th := s.threads[x];
    if th.job.Configure? {
      if th.at.Finished? {
        t, a := x, Leave;
        OtherwiseFree(s, t, a);
      } else {
        t, a := ConfigMoves(s, x);
      }
    } else if th.at.Waiting? {
      t, a := FleetMoves(s, x);
    } else if th.job.Modules? {
      t, a := ModulesMove(s, x);
    } else {
      t, a := TeardownMoves(s, x);
    }
  }
}
