/** Which rows are pending on a worker's account, and which workspaces exist. */
module WorkerRows {
  import opened Wrappers
  import opened Messages
  import Queue
  import QueueHolders
  import QueueTheorems
  import opened Worker
  import opened WorkerCapacity

  /** How far the actor of a task is in the table, for each of the phases. */
  predicate Matches(phase: Phase, pc: Queue.Pc) {
    match phase
    case Starting => pc.Running?
    case Executing => pc.Running?
    case Cleaning(_) => pc.Running?
    case Recording(outcome) => pc.Running? || (outcome.Success? && pc.InTx())
    case Recorded => pc.Closed?
    case Finished => pc.Closed?
  }

  predicate LoopMatches(loop: Loop, pc: Queue.Pc) {
    match loop
    case Poll(_) => pc.Idle?
    case Try(_) => pc.Selected?
    case Reread => pc.Claimed?
    case _ => true
  }

  ghost predicate Follows(s: State) {
    && (forall a | a in s.tasks :: Matches(s.tasks[a], s.q.Pc(a)))
    && LoopMatches(s.loop, s.q.Pc(s.cur))
    && (forall a | a in s.mine && a !in s.tasks && !(s.loop.Polling() && a == s.cur) ::
          s.q.Pc(a).Idle? || s.q.Pc(a).Closed?)
  }

  lemma OutsideKeepsFollows(s: State, e: Event)
    requires e.Outside? && Enabled(s, e) && Follows(s) && Placed(s)
    ensures Follows(Apply(s, e))
  {
    hide Queue.Enabled, Queue.Apply;
    Queue.OthersStay(s.q, e.sql);
  }

  /** Where a statement of `claim_next` can leave its actor. */
  lemma StatementPc(q: Queue.State, loop: Loop, a: nat, sql: Queue.Event)
    requires Queue.Enabled(q, sql) && LoopMatches(loop, q.Pc(a))
    requires match loop
             case Poll(_) => sql == Queue.Select(a)
             case Try(_) => sql == Queue.TryClaim(a) || (sql.TryClaimFails? && sql.actor == a)
             case Reread => sql == Queue.Get(a) || sql == Queue.GetFails(a)
             case _ => false
    ensures var pc := Queue.Apply(q, sql).Pc(a);
            match loop
            case Poll(_) => pc.Idle? || pc.Selected?
            case Try(_) => pc.Idle? || pc.Closed? || pc.Claimed?
            case _ => pc.Closed? || pc.Running?
  {
  }

  lemma StatementKeepsFollows(s: State, e: Event)
    requires e.Statement? && Enabled(s, e) && Follows(s) && Placed(s)
    ensures Follows(Apply(s, e))
  {
    hide Queue.Enabled, Queue.Apply;
    Queue.OthersStay(s.q, e.sql);
    StatementPc(s.q, s.loop, s.cur, e.sql);
  }

  /** Where a statement of `finish` can leave its actor. */
  lemma RecordPc(q: Queue.State, a: nat, outcome: Outcome, sql: Queue.Event)
    requires Queue.Enabled(q, sql) && Records(a, outcome, sql) && Matches(Recording(outcome), q.Pc(a))
    ensures Queue.Apply(q, sql).Pc(a).Closed? || Matches(Recording(outcome), Queue.Apply(q, sql).Pc(a))
  {
  }

  lemma FailureCloses(q: Queue.State, a: nat)
    requires Queue.Enabled(q, Queue.FinishFails(a))
    ensures Queue.Apply(q, Queue.FinishFails(a)).Pc(a).Closed?
  {
  }

  lemma RecordKeepsFollows(s: State, e: Event)
    requires (e.Record? || e.RecordFails? || e.Panic?) && Enabled(s, e) && Follows(s) && Placed(s)
    ensures Follows(Apply(s, e))
  {
    hide Queue.Enabled, Queue.Apply;
    Queue.OthersStay(s.q, Sql(e).value);
    if e.Record? {
      RecordPc(s.q, e.actor, s.tasks[e.actor].outcome, e.sql);
    } else {
      FailureCloses(s.q, e.actor);
    }
  }

  /** A task may go to any phase that its actor's place in the table allows. */
  lemma PhaseKeepsFollows(s: State, t: State, a: nat, phase: Phase)
    requires Follows(s) && a in s.tasks && t.tasks == s.tasks[a := phase] && Matches(phase, s.q.Pc(a))
    requires t.q == s.q && t.loop == s.loop && t.cur == s.cur && t.mine == s.mine
    ensures Follows(t)
  {
  }

  lemma SilentTaskKeepsFollows(s: State, e: Event)
    requires OfTask(e) && Sql(e).None? && Ready(s, e) && Follows(s) && Placed(s)
    ensures Follows(LocalStep(s, e))
  {
    assert Matches(s.tasks[e.actor], s.q.Pc(e.actor));
    hide Follows, Placed, Records;
    var t := LocalStep(s, e);
    assert t.tasks == s.tasks[e.actor := t.tasks[e.actor]];
    PhaseKeepsFollows(s, t, e.actor, t.tasks[e.actor]);
  }

  lemma SilentLoopKeepsFollows(s: State, e: Event)
    requires !OfTask(e) && Sql(e).None? && Ready(s, e) && Follows(s) && Placed(s)
    ensures Follows(LocalStep(s, e))
  {
  }

  lemma FollowsKept(s: State, e: Event)
    requires Enabled(s, e) && Follows(s) && Placed(s)
    ensures Follows(Apply(s, e))
  {
    hide Queue.Enabled, Queue.Apply, Follows, Placed;
    match e {
      case Outside(_) => OutsideKeepsFollows(s, e);
      case Statement(_) => StatementKeepsFollows(s, e);
      case Record(_, _) => RecordKeepsFollows(s, e);
      case RecordFails(_) => RecordKeepsFollows(s, e);
      case Panic(_) => RecordKeepsFollows(s, e);
      case _ =>
        if OfTask(e) { SilentTaskKeepsFollows(s, e); } else { SilentLoopKeepsFollows(s, e); }
    }
  }

  predicate HasDir(phase: Phase) { phase.Executing? || phase.Cleaning? }

  /** A workspace exists exactly while its job runs or is being cleaned up, or when it was left behind. */
  ghost predicate DirsInUse(s: State) {
    && (forall a | a in s.tasks && HasDir(s.tasks[a]) :: a in s.dirs)
    && (forall a | a in s.leftovers :: a in s.dirs)
    && (forall a | a in s.dirs :: a in s.leftovers || (a in s.tasks && HasDir(s.tasks[a])))
  }

  /** Who left a workspace behind has done with it. */
  ghost predicate LeftoversDone(s: State) {
    && s.leftovers <= s.mine && (s.loop.Polling() ==> s.cur !in s.leftovers)
    && forall a | a in s.leftovers && a in s.tasks :: !s.tasks[a].Starting? && !HasDir(s.tasks[a])
  }

  ghost predicate Workspaces(s: State) { DirsInUse(s) && LeftoversDone(s) }

  lemma LoopStepKeepsWorkspaces(s: State, pc: Queue.Pc)
    requires s.loop.Polling() && Workspaces(s) && Placed(s)
    ensures Workspaces(LoopStep(s, pc))
  {
  }

  predicate AtWork(e: Event) { e.MakeDir? || e.RunEnds? || e.TaskSeesCancel? || e.RemoveDir? }

  lemma WorkKeepsWorkspaces(s: State, e: Event)
    requires AtWork(e) && Ready(s, e) && Workspaces(s) && Placed(s)
    ensures Workspaces(LocalStep(s, e))
  {
  }

  lemma EndKeepsWorkspaces(s: State, e: Event)
    requires OfTask(e) && !AtWork(e) && Ready(s, e) && Workspaces(s) && Placed(s)
    ensures Workspaces(LocalStep(s, e))
  {
    hide Records;
  }

  lemma TaskKeepsWorkspaces(s: State, e: Event)
    requires OfTask(e) && Ready(s, e) && Workspaces(s) && Placed(s)
    ensures Workspaces(LocalStep(s, e))
  {
    hide Workspaces, Placed, Ready, LocalStep;
    if AtWork(e) {
      WorkKeepsWorkspaces(s, e);
    } else {
      EndKeepsWorkspaces(s, e);
    }
  }

  lemma LoopKeepsWorkspaces(s: State, e: Event)
    requires !OfTask(e) && !e.Statement? && Ready(s, e) && Workspaces(s) && Placed(s)
    ensures Workspaces(LocalStep(s, e))
  {
  }

  lemma WorkspacesKept(s: State, e: Event)
    requires Enabled(s, e) && Workspaces(s) && Placed(s)
    ensures Workspaces(Apply(s, e))
  {
    hide Queue.Enabled, Queue.Apply;
    var now := if Sql(e).Some? then s.(q := Queue.Apply(s.q, Sql(e).value)) else s;
    assert Workspaces(now) && Placed(now);
    hide Workspaces, Placed;
    if e.Statement? {
      LoopStepKeepsWorkspaces(now, now.q.Pc(now.cur));
    } else if OfTask(e) {
      TaskKeepsWorkspaces(now, e);
    } else {
      LoopKeepsWorkspaces(now, e);
    }
  }

  // ---- runs without failures ----

  /** A store error after a claim, a panic, or a workspace that cannot be removed. */
  predicate IsFailure(e: Event) {
    || (e.Statement? && (e.sql.TryClaimFails? || e.sql.GetFails?))
    || e.RecordFails? || e.Panic? || (e.RemoveDir? && !e.ok)
  }

  predicate Clean(es: seq<Event>) { forall i | 0 <= i < |es| :: !IsFailure(es[i]) }

  predicate NoRequeue(es: seq<Event>) { Outside(Queue.Requeue) !in es }

  /** None of this worker's actors failed, and no workspace was left behind. */
  ghost predicate Unharmed(s: State) { s.q.failures !! s.mine && s.leftovers == {} }

  /** Only a failing statement adds to the failures, and only its own actor. */
  lemma FailuresGrow(q: Queue.State, sql: Queue.Event)
    requires Queue.Enabled(q, sql)
    ensures Queue.Apply(q, sql).failures
         <= q.failures + if sql.TryClaimFails? || sql.GetFails? || sql.FinishFails? then {sql.actor} else {}
  {
  }

  lemma UnharmedKept(s: State, e: Event)
    requires Enabled(s, e) && !IsFailure(e) && Unharmed(s) && Placed(s)
    requires forall a | a in s.q.failures :: !s.q.Pc(a).Idle?
    ensures Unharmed(Apply(s, e))
  {
    hide Queue.Enabled, Queue.Apply;
    if Sql(e).Some? {
      FailuresGrow(s.q, Sql(e).value);
    }
  }

  lemma NoRequeueSent(max: nat, es: seq<Event>)
    requires IsRun(max, es) && NoRequeue(es)
    ensures QueueTheorems.NoRequeue(Statements(es))
    decreases |es|
  {
    hide Queue.Apply, Queue.Enabled, LocalStep;
    if es == [] {
    } else {
      NoRequeueSent(max, es[..|es| - 1]);
      var e := es[|es| - 1];
      assert Ready(End(max, es[..|es| - 1]), e);
      assert e in es && (Sql(e) == Some(Queue.Requeue) ==> e == Outside(Queue.Requeue));
    }
  }

  lemma StartFollows(max: nat)
    ensures Follows(Start(max)) && Workspaces(Start(max)) && Unharmed(Start(max))
  {
  }

  lemma {:induction false} FollowsAlways(max: nat, es: seq<Event>)
    requires IsRun(max, es)
    ensures Follows(End(max, es)) && Workspaces(End(max, es)) && Placed(End(max, es))
    decreases |es|
  {
    StartFollows(max);
    Capacity(max, es);
    if es == [] {
    } else {
      var before, e := es[..|es| - 1], es[|es| - 1];
      FollowsAlways(max, before);
      FollowsKept(End(max, before), e);
      WorkspacesKept(End(max, before), e);
    }
    hide Follows, Workspaces, Placed, Bounded, Ready, LocalStep, Queue.Apply, Queue.Enabled;
  }

  lemma {:induction false} UnharmedAlways(max: nat, es: seq<Event>)
    requires IsRun(max, es) && Clean(es)
    ensures Unharmed(End(max, es))
    decreases |es|
  {
    StartFollows(max);
    if es == [] {
    } else {
      var before, e := es[..|es| - 1], es[|es| - 1];
      UnharmedAlways(max, before);
      FollowsAlways(max, before);
      QueueRun(max, before);
      QueueHolders.ClaimsAlways(Statements(before));
      UnharmedKept(End(max, before), e);
    }
    hide Follows, Workspaces, Placed, Unharmed, Ready, LocalStep, Queue.Apply, Queue.Enabled;
  }

  /** Row `id` is not requeued while somebody works on it. */
  ghost predicate QuietFor(max: nat, es: seq<Event>, id: nat)
    requires IsRun(max, es)
  {
    QueueTheorems.IsRun(Statements(es)) && QueueHolders.QuietFor(Statements(es), id)
  }

  lemma NoRequeueIsQuiet(max: nat, es: seq<Event>, id: nat)
    requires IsRun(max, es) && NoRequeue(es)
    ensures QuietFor(max, es, id)
  {
    QueueRun(max, es);
    NoRequeueSent(max, es);
    QueueHolders.NoRequeueIsQuiet(Statements(es), id);
  }

  /** This worker made the last claim of the row. */
  ghost predicate IsOwnClaim(s: State, i: nat) {
    QueueHolders.IsLastClaim(s.q, i) && i < |s.q.claimants| && s.q.claimants[i] in s.mine
  }

  /** The pending rows whose last claim was this worker's. */
  ghost function OwnPending(s: State): set<nat> {
    set i: nat | i < |s.q.claims| && IsOwnClaim(s, i) && Queue.IsPending(s.q, s.q.claims[i]) :: s.q.claims[i]
  }

  /** The live rows whose last claim was this worker's and was not reset, but whose claimant failed. */
  ghost function Orphans(s: State): set<nat> {
    set i: nat | i < |s.q.claims| && IsOwnClaim(s, i) && s.q.claims[i] in s.q.rows && s.q.claimants[i] in s.q.failures
                 && multiset(s.q.claims)[s.q.claims[i]] > s.q.resets[s.q.claims[i]] :: s.q.claims[i]
  }
}
