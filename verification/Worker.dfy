/**
 One worker process on top of the job queue: the polling loop, its concurrency slots, the set of
 spawned job tasks and their workspaces, and the shutdown token.

 Each pass of the loop is an actor of the queue. `select!` is a choice among the branches that are
 ready; other processes and the chat application interleave through `Outside`.
 */
module Worker {
  import opened Wrappers
  import opened Messages
  import Queue

  datatype Loop =
    | Top
    | Acquire                // first select!: shutdown, or a free slot
    | Poll(lost: nat)        // holds a permit; `lost` races lost so far in this claim_next
    | Try(lost: nat)
    | Reread
    | Sleep(late: bool)      // second select!: shutdown, or the poll interval; `late` = slept after the cancellation
    | Drain
    | Stopped
  {
    predicate Polling() { Poll? || Try? || Reread? }
  }

  /** Where a spawned task is. The permit is released when it finishes, and the set reaps it later. */
  datatype Phase =
    | Starting
    | Executing
    | Cleaning(outcome: Outcome)
    | Recording(outcome: Outcome)
    | Recorded
    | Finished

  datatype State = State(
    q: Queue.State,
    loop: Loop,
    cur: nat,                 // the actor of the current pass
    max: nat,                 // max_concurrent_jobs
    free: nat,                // permits in the semaphore
    tasks: map<nat, Phase>,   // the JoinSet
    shutdown: bool,
    dirs: set<nat>,           // actors whose workspace exists
    mine: set<nat>,           // actors this worker ever used
    leftovers: set<nat>)      // actors that ended without removing their workspace
  {
    function Unfinished(): set<nat> { set a | a in tasks && !tasks[a].Finished? }
  }

  function Start(max: nat): State {
    State(Queue.Initial, Top, 0, max, max, map[], false, {}, {}, {})
  }

  datatype Event =
    | Outside(sql: Queue.Event)
    | Cancel
      // the loop
    | Reap
    | AcquirePermit(actor: nat)
    | Statement(sql: Queue.Event)    // a statement of claim_next
    | PollFails                      // the select reports an error
    | Wake
    | SeeCancel
    | JoinNext(actor: nat)
    | Stop
      // a task
    | MakeDir(actor: nat, error: Option<string>)
    | RunEnds(actor: nat, outcome: Outcome)
    | TaskSeesCancel(actor: nat)
    | RemoveDir(actor: nat, ok: bool)
    | Record(actor: nat, sql: Queue.Event)
    | RecordFails(actor: nat)
    | Panic(actor: nat)
    | Release(actor: nat)

  /** The SQL statement an event sends, if any. */
  function Sql(e: Event): Option<Queue.Event> {
    match e
    case Outside(sql) => Some(sql)
    case Statement(sql) => Some(sql)
    case Record(_, sql) => Some(sql)
    case RecordFails(a) => Some(Queue.FinishFails(a))
    case Panic(a) => Some(Queue.FinishFails(a))
    case _ => None
  }

  /** `finish` sends one update for a failure, and a transaction of two writes for a success. */
  predicate Records(a: nat, outcome: Outcome, sql: Queue.Event) {
    match outcome
    case Failure(error, partial) => sql == Queue.FinishFailed(a, error, partial)
    case Success(result) =>
      || (sql.InsertReply? && sql.actor == a && sql.text == result)
      || sql == Queue.UpdateJob(a) || sql == Queue.Commit(a)
  }

  predicate In(s: State, a: nat) { a in s.tasks }

  ghost predicate Ready(s: State, e: Event) {
    match e
    case Outside(sql) => Queue.ActorOf(sql).Some? ==> Queue.ActorOf(sql).value !in s.mine
    case Cancel => true
    case Reap => s.loop.Top?
    case AcquirePermit(a) => s.loop.Acquire? && s.free > 0 && a !in s.mine && s.q.Pc(a).Idle?
    case Statement(sql) =>
      (match s.loop
       case Poll(_) => sql == Queue.Select(s.cur)
       case Try(_) => sql == Queue.TryClaim(s.cur) || (sql.TryClaimFails? && sql.actor == s.cur)
       case Reread => sql == Queue.Get(s.cur) || sql == Queue.GetFails(s.cur)
       case _ => false)
    case PollFails => s.loop.Poll?
    case Wake => s.loop == Sleep(false)
    case SeeCancel => s.shutdown && (s.loop.Acquire? || s.loop.Sleep?)
    case JoinNext(a) => s.loop.Drain? && In(s, a) && s.tasks[a].Finished?
    case Stop => s.loop.Drain? && s.tasks == map[]
    case MakeDir(a, _) => In(s, a) && s.tasks[a].Starting?
    case RunEnds(a, _) => In(s, a) && s.tasks[a].Executing?
    case TaskSeesCancel(a) => In(s, a) && s.tasks[a].Executing? && s.shutdown
    case RemoveDir(a, _) => In(s, a) && s.tasks[a].Cleaning?
    case Record(a, sql) => In(s, a) && s.tasks[a].Recording? && Records(a, s.tasks[a].outcome, sql)
    case RecordFails(a) => In(s, a) && s.tasks[a].Recording?
    case Panic(a) => In(s, a) && !s.tasks[a].Recorded? && !s.tasks[a].Finished?
    case Release(a) => In(s, a) && s.tasks[a].Recorded?
  }

  ghost predicate Enabled(s: State, e: Event) {
    Ready(s, e) && (Sql(e).Some? ==> Queue.Enabled(s.q, Sql(e).value))
  }

  /** Dropping the permit and going to sleep. */
  function GiveUp(s: State): State { s.(free := s.free + 1, loop := Sleep(s.shutdown)) }

  function SetPhase(s: State, a: nat, phase: Phase): State { s.(tasks := s.tasks[a := phase]) }

  /** The loop after a statement of `claim_next` that left its actor at `pc`. */
  function LoopStep(s: State, pc: Queue.Pc): State {
    match s.loop
    case Poll(lost) => if pc.Selected? then s.(loop := Try(lost)) else GiveUp(s)
    case Try(lost) =>
      if pc.Claimed? then s.(loop := Reread)
      else if pc.Idle? && lost + 1 < CLAIM_ATTEMPTS then s.(loop := Poll(lost + 1))
      else GiveUp(s)
    case _ => if pc.Running? then s.(tasks := s.tasks[s.cur := Starting], loop := Top) else GiveUp(s)
  }

  /** What an event changes besides the table. */
  function LocalStep(s: State, e: Event): State {
    match e
    case Outside(_) => s
    case Cancel => s.(shutdown := true)
    case Reap => s.(tasks := map a | a in s.tasks && !s.tasks[a].Finished? :: s.tasks[a], loop := Acquire)
    case AcquirePermit(a) =>
      if s.free == 0 then s else s.(free := s.free - 1, cur := a, mine := s.mine + {a}, loop := Poll(0))
    case Statement(_) => LoopStep(s, s.q.Pc(s.cur))
    case PollFails => GiveUp(s)
    case Wake => s.(loop := Top)
    case SeeCancel => s.(loop := Drain)
    case JoinNext(a) => s.(tasks := s.tasks - {a})
    case Stop => s.(loop := Stopped)
    case MakeDir(a, error) =>
      if error.Some? then SetPhase(s, a, Recording(Failure(error.value, None)))
      else SetPhase(s, a, Executing).(dirs := s.dirs + {a})
    case RunEnds(a, outcome) => SetPhase(s, a, Cleaning(outcome))
    case TaskSeesCancel(a) => SetPhase(s, a, Cleaning(Failure("runner shut down before the job finished", None)))
    case RemoveDir(a, ok) =>
      if !In(s, a) || !s.tasks[a].Cleaning? then s else
      var t := SetPhase(s, a, Recording(s.tasks[a].outcome));
      if ok then t.(dirs := s.dirs - {a}) else t.(leftovers := s.leftovers + {a})
    case Record(a, _) => if s.q.Pc(a).Closed? then SetPhase(s, a, Recorded) else s
    case RecordFails(a) => SetPhase(s, a, Recorded)
    case Panic(a) => SetPhase(s, a, Finished).(free := s.free + 1, leftovers := s.leftovers + s.dirs * {a})
    case Release(a) => SetPhase(s, a, Finished).(free := s.free + 1)
  }

  ghost function Apply(s: State, e: Event): State
    requires Enabled(s, e)
  {
    LocalStep(if Sql(e).Some? then s.(q := Queue.Apply(s.q, Sql(e).value)) else s, e)
  }

  ghost predicate Legal(s: State, es: seq<Event>)
    decreases |es|, 0
  {
    es == [] || (Legal(s, es[..|es| - 1]) && Enabled(After(s, es[..|es| - 1]), es[|es| - 1]))
  }

  ghost function After(s: State, es: seq<Event>): State
    requires Legal(s, es)
    decreases |es|, 1
  {
    if es == [] then s else Apply(After(s, es[..|es| - 1]), es[|es| - 1])
  }

  /** The statements a run sends, in order. */
  function Statements(es: seq<Event>): seq<Queue.Event> {
    if es == [] then [] else
    Statements(es[..|es| - 1]) + match Sql(es[|es| - 1]) case Some(sql) => [sql] case None => []
  }
}
