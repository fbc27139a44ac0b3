/** A cancelled worker stops: it is never stuck, and every step of its own uses up a finite budget. */
module WorkerTermination {
  import opened Wrappers
  import opened Messages
  import Queue
  import QueueInvariant
  import QueueHolders
  import QueueTheorems
  import opened Worker
  import opened WorkerCapacity
  import opened WorkerRows

  /** Distance of the loop from its end, for one pass that claims nothing. */
  function LoopRank(loop: Loop): nat {
    match loop
    case Reread => 20
    case Sleep(late) => if late then 3 else 20
    case Top => 19
    case Acquire => 18
    case Poll(lost) => if lost < CLAIM_ATTEMPTS then 17 - 2 * lost else 0
    case Try(lost) => if lost < CLAIM_ATTEMPTS then 16 - 2 * lost else 0
    case Drain => 2
    case Stopped => 0
  }

  /** A pass that does claim a job uses up one of the unclaimed jobs. */
  function LoopMeasure(s: State): nat { 21 * |ClaimableIds(s.q.rows)| + LoopRank(s.loop) }

  function TaskRank(phase: Phase, pc: Queue.Pc): nat {
    match phase
    case Starting => 8
    case Executing => 7
    case Cleaning(_) => 6
    case Recording(_) => if pc.Updated? then 3 else if pc.Inserted? then 4 else 5
    case Recorded => 2
    case Finished => 1
  }

  function Ranks(s: State): map<nat, nat> {
    map a | a in s.tasks :: TaskRank(s.tasks[a], s.q.Pc(a))
  }

  ghost function Sum(m: map<nat, nat>): nat {
    if m == map[] then 0
    else
      var k :| k in m;
      m[k] + Sum(m - {k})
  }

  lemma {:induction false} SumWithout(m: map<nat, nat>, a: nat)
    requires a in m
    ensures Sum(m) == m[a] + Sum(m - {a})
    decreases |m|
  {
    var k :| k in m && Sum(m) == m[k] + Sum(m - {k});
    if k == a {
    } else {
      SumWithout(m - {k}, a);
      SumWithout(m - {a}, k);
      assert m - {k} - {a} == m - {a} - {k};
    }
  }

  lemma SumChanged(m: map<nat, nat>, n: map<nat, nat>, a: nat)
    requires a in m && a in n && m - {a} == n - {a}
    ensures Sum(m) - m[a] == Sum(n) - n[a]
  {
    SumWithout(m, a);
    SumWithout(n, a);
  }

  lemma {:induction false} SumBounded(m: map<nat, nat>)
    requires forall k | k in m :: m[k] <= 8
    ensures Sum(m) <= 8 * |m|
    decreases |m|
  {
    if m == map[] {
    } else {
      var k :| k in m && Sum(m) == m[k] + Sum(m - {k});
      SumBounded(m - {k});
      assert (m - {k}).Keys == m.Keys - {k};
    }
  }

  /** Losing every race ends a `claim_next` call. */
  ghost predicate FewLost(s: State) {
    (s.loop.Poll? ==> s.loop.lost < CLAIM_ATTEMPTS) && (s.loop.Try? ==> s.loop.lost < CLAIM_ATTEMPTS)
  }

  /** What this worker does itself, as opposed to other processes and the cancellation. */
  predicate IsOwn(e: Event) { !e.Outside? && !e.Cancel? }

  /** Other processes neither add jobs nor requeue. */
  predicate Quiet(e: Event) {
    e.Outside? ==> !e.sql.Requeue? && (e.sql.Insert? ==> !e.sql.row.IsJob())
  }

  lemma FewLostKept(s: State, e: Event)
    requires Enabled(s, e) && FewLost(s)
    ensures FewLost(Apply(s, e))
  {
    hide Queue.Apply, Queue.Enabled;
  }

  lemma ClaimTakes(q: Queue.State, a: nat)
    requires Queue.Enabled(q, Queue.TryClaim(a)) && Queue.Apply(q, Queue.TryClaim(a)).Pc(a).Claimed?
    ensures q.Pc(a).id in ClaimableIds(q.rows) - ClaimableIds(Queue.Apply(q, Queue.TryClaim(a)).rows)
  {
  }

  lemma OtherRowsDoNotCount(q: Queue.State, e: Queue.Event)
    requires Queue.Enabled(q, e) && e.Insert? && !e.row.IsJob()
    ensures e.id !in ClaimableIds(Queue.Apply(q, e).rows)
  {
  }

  lemma UnclaimedShrinks(q: Queue.State, e: Queue.Event)
    requires Queue.Enabled(q, e) && QueueInvariant.LocksHold(q)
    requires !e.Requeue? && (e.Insert? ==> !e.row.IsJob())
    ensures |ClaimableIds(Queue.Apply(q, e).rows)| <= |ClaimableIds(q.rows)|
    ensures e.TryClaim? && Queue.Apply(q, e).Pc(e.actor).Claimed? ==>
              |ClaimableIds(Queue.Apply(q, e).rows)| < |ClaimableIds(q.rows)|
  {
    hide Queue.Apply, Queue.Enabled, ClaimableIds, QueueInvariant.LocksHold;
    QueueTheorems.ClaimableShrinks(q, e);
    var t := Queue.Apply(q, e);
    var before, after := ClaimableIds(q.rows), ClaimableIds(t.rows);
    if e.TryClaim? && t.Pc(e.actor).Claimed? {
      ClaimTakes(q, e.actor);
    } else if e.Insert? {
      OtherRowsDoNotCount(q, e);
    }
    assert before == after + (before - after);
  }

  /** Every step of the loop other than reaping the drained set lowers the loop's measure. */
  lemma LoopAdvances(s: State, e: Event)
    requires Enabled(s, e) && IsOwn(e) && !OfTask(e) && !e.JoinNext?
    requires s.shutdown && FewLost(s) && Follows(s) && QueueInvariant.LocksHold(s.q)
    ensures LoopMeasure(Apply(s, e)) < LoopMeasure(s)
  {
    TableAfter(s, e);
    if e.Statement? {
      StatementPc(s.q, s.loop, s.cur, e.sql);
      UnclaimedShrinks(s.q, e.sql);
    }
    hide Queue.Apply, Queue.Enabled;
  }

  /** Each statement of `finish` brings its task closer to having recorded the outcome. */
  lemma RecordRank(q: Queue.State, a: nat, outcome: Outcome, sql: Queue.Event)
    requires Queue.Enabled(q, sql) && Records(a, outcome, sql) && Matches(Recording(outcome), q.Pc(a))
    ensures var pc := Queue.Apply(q, sql).Pc(a);
            pc.Closed? || TaskRank(Recording(outcome), pc) < TaskRank(Recording(outcome), q.Pc(a))
  {
  }

  lemma OwnPhaseOnly(s: State, e: Event)
    requires Enabled(s, e) && OfTask(e)
    ensures e.actor in s.tasks && e.actor in Apply(s, e).tasks
    ensures Apply(s, e).tasks == s.tasks[e.actor := Apply(s, e).tasks[e.actor]]
  {
    hide Queue.Apply, Queue.Enabled, Records;
  }

  lemma OwnRankDrops(s: State, e: Event)
    requires Enabled(s, e) && OfTask(e) && e.actor in s.tasks && e.actor in Apply(s, e).tasks
    requires Matches(s.tasks[e.actor], s.q.Pc(e.actor))
    ensures TaskRank(Apply(s, e).tasks[e.actor], Apply(s, e).q.Pc(e.actor)) < TaskRank(s.tasks[e.actor], s.q.Pc(e.actor))
  {
    TableAfter(s, e);
    if e.Record? {
      RecordRank(s.q, e.actor, s.tasks[e.actor].outcome, e.sql);
    }
    hide Queue.Apply, Queue.Enabled;
  }

  lemma TaskIsActor(s: State, e: Event)
    requires OfTask(e) && Ready(s, e) && Sql(e).Some?
    ensures Queue.ActorOf(Sql(e).value) == Some(e.actor)
  {
  }

  lemma TaskStepRank(s: State, e: Event)
    requires Enabled(s, e) && OfTask(e) && Follows(s)
    ensures e.actor in s.tasks && e.actor in Apply(s, e).tasks
    ensures Ranks(Apply(s, e))[e.actor] < Ranks(s)[e.actor]
    ensures Ranks(Apply(s, e)) - {e.actor} == Ranks(s) - {e.actor}
  {
    hide Queue.Apply, Queue.Enabled, LocalStep, TaskRank, Records, Queue.ActorOf;
    TableAfter(s, e);
    OwnPhaseOnly(s, e);
    OwnRankDrops(s, e);
    hide Apply;
    if Sql(e).Some? {
      TaskIsActor(s, e);
      Queue.OthersStay(s.q, Sql(e).value);
    }
  }

  /** Every step of a task, and every reaping of a finished one, lowers the sum of the tasks' ranks. */
  lemma TasksAdvance(s: State, e: Event)
    requires Enabled(s, e) && (OfTask(e) || e.JoinNext?) && Follows(s)
    ensures Sum(Ranks(Apply(s, e))) < Sum(Ranks(s))
  {
    hide Queue.Apply, Queue.Enabled, Follows, TaskRank, Sum;
    var t := Apply(s, e);
    if e.JoinNext? {
      SumWithout(Ranks(s), e.actor);
      assert Ranks(t) == Ranks(s) - {e.actor};
      RankIsPositive(s.tasks[e.actor], s.q.Pc(e.actor));
    } else {
      TaskStepRank(s, e);
      hide Ranks, Apply;
      SumChanged(Ranks(s), Ranks(t), e.actor);
    }
  }

  lemma RankIsPositive(phase: Phase, pc: Queue.Pc)
    ensures TaskRank(phase, pc) > 0
  {
  }

  lemma TasksLeaveLoop(s: State, e: Event)
    requires Enabled(s, e) && (OfTask(e) || e.JoinNext?) && QueueInvariant.LocksHold(s.q)
    ensures LoopMeasure(Apply(s, e)) <= LoopMeasure(s)
  {
    hide Queue.Apply, Queue.Enabled, QueueInvariant.LocksHold, ClaimableIds;
    TableAfter(s, e);
    if Sql(e).Some? {
      UnclaimedShrinks(s.q, Sql(e).value);
    }
  }

  lemma OutsideCostsNothing(s: State, e: Event)
    requires Enabled(s, e) && !IsOwn(e) && Quiet(e) && Placed(s) && QueueInvariant.LocksHold(s.q)
    ensures Ranks(Apply(s, e)) == Ranks(s)
    ensures s.shutdown ==> LoopMeasure(Apply(s, e)) <= LoopMeasure(s)
  {
    TableAfter(s, e);
    if e.Outside? {
      Queue.OthersStay(s.q, e.sql);
      UnclaimedShrinks(s.q, e.sql);
    }
    hide Queue.Apply, Queue.Enabled, TaskRank;
  }

  /** More than any sum of ranks the set of tasks can reach. */
  function Weight(max: nat): nat { 8 * (max + 1) + 1 }

  lemma SumBelowWeight(s: State)
    requires Bounded(s)
    ensures Sum(Ranks(s)) < Weight(s.max)
  {
    SumBounded(Ranks(s));
    assert Ranks(s).Keys == s.tasks.Keys;
  }

  /** The steps a cancelled worker still has in it. */
  ghost function Budget(s: State): nat { LoopMeasure(s) * Weight(s.max) + Sum(Ranks(s)) }

  lemma NoMoreLoop(m: nat, n: nat, w: nat)
    requires m <= n
    ensures m * w <= n * w
  {
  }

  lemma LessLoopLessBudget(m: nat, n: nat, w: nat, x: nat, y: nat)
    requires m < n && x < w
    ensures m * w + x < n * w + y
  {
    NoMoreLoop(m + 1, n, w);
    assert (m + 1) * w == m * w + w;
  }

  lemma BudgetStep(s: State, e: Event)
    requires Enabled(s, e) && Quiet(e) && s.shutdown && FewLost(s) && Follows(s) && Slots(s)
    requires QueueInvariant.LocksHold(s.q)
    ensures IsOwn(e) ==> Budget(Apply(s, e)) < Budget(s)
    ensures !IsOwn(e) ==> Budget(Apply(s, e)) <= Budget(s)
  {
    var t := Apply(s, e);
    var w := Weight(s.max);
    MaxKept(s, e);
    SlotsKept(s, e);
    SumBelowWeight(t);
    if !IsOwn(e) {
      OutsideCostsNothing(s, e);
      NoMoreLoop(LoopMeasure(t), LoopMeasure(s), w);
    } else if OfTask(e) || e.JoinNext? {
      TasksAdvance(s, e);
      TasksLeaveLoop(s, e);
      NoMoreLoop(LoopMeasure(t), LoopMeasure(s), w);
    } else {
      LoopAdvances(s, e);
      LessLoopLessBudget(LoopMeasure(t), LoopMeasure(s), w, Sum(Ranks(t)), Sum(Ranks(s)));
    }
    hide *;
  }

  function OwnSteps(es: seq<Event>): nat {
    if es == [] then 0 else OwnSteps(es[..|es| - 1]) + if IsOwn(es[|es| - 1]) then 1 else 0
  }

  lemma OneMore(max: nat, es: seq<Event>, e: Event)
    requires IsRun(max, es + [e])
    ensures IsRun(max, es) && Enabled(End(max, es), e) && End(max, es + [e]) == Apply(End(max, es), e)
  {
    hide Queue.Apply, Queue.Enabled, LocalStep, Ready;
    assert (es + [e])[..|es + [e]| - 1] == es;
  }

  lemma StaysCancelled(s: State, e: Event)
    requires Enabled(s, e) && s.shutdown
    ensures Apply(s, e).shutdown
  {
    hide Queue.Apply, Queue.Enabled;
  }

  lemma {:induction false} FewLostAlways(max: nat, es: seq<Event>)
    requires IsRun(max, es)
    ensures FewLost(End(max, es))
    decreases |es|
  {
    if es == [] {
    } else {
      FewLostAlways(max, es[..|es| - 1]);
      FewLostKept(End(max, es[..|es| - 1]), es[|es| - 1]);
    }
    hide Queue.Apply, Queue.Enabled, LocalStep, Ready;
  }

  /**
   After the cancellation, while nobody adds jobs or requeues, the steps the worker takes itself are
   bounded by the budget it had then, even though `select!` may go on choosing the acquire branch.
   */
  lemma {:induction false} ShutdownTerminates(max: nat, es: seq<Event>, more: seq<Event>)
    requires IsRun(max, es) && End(max, es).shutdown
    requires IsRun(max, es + more) && forall i | 0 <= i < |more| :: Quiet(more[i])
    ensures End(max, es + more).shutdown
    ensures OwnSteps(more) + Budget(End(max, es + more)) <= Budget(End(max, es))
    decreases |more|
  {
    hide Queue.Apply, Queue.Enabled, LocalStep, Ready, Legal, Budget, IsOwn, Quiet, FewLost, Follows, Slots;
    if more == [] {
      assert es + more == es;
    } else {
      var init, e := more[..|more| - 1], more[|more| - 1];
      assert es + more == es + init + [e];
      OneMore(max, es + init, e);
      var s := End(max, es + init);
      assert forall i | 0 <= i < |init| :: init[i] == more[i];
      assert Quiet(e);
      ShutdownTerminates(max, es, init);
      StaysCancelled(s, e);
      FewLostAlways(max, es + init);
      FollowsAlways(max, es + init);
      Capacity(max, es + init);
      QueueRun(max, es + init);
      QueueTheorems.InvAlways(Statements(es + init));
      BudgetStep(s, e);
    }
  }

  /** Two transactions share the lock on a row that both are about to update; the database fails one of them. */
  ghost predicate Deadlocked(q: Queue.State, a: nat) {
    q.Pc(a).Inserted? && exists b: nat :: b != a && q.Pc(b).Inserted? && q.Pc(b).id == q.Pc(a).id
  }

  /** The database fails the victim of a deadlock. */
  ghost predicate IsVictim(s: State, e: Event) {
    || (e.RecordFails? && Deadlocked(s.q, e.actor))
    || (e.Outside? && e.sql.FinishFails? && Deadlocked(s.q, e.sql.actor))
  }

  /** A step of the worker's own that is no failure, a step of a transaction it waits for, or a deadlock's end. */
  ghost predicate Unblocks(s: State, e: Event) {
    (!IsFailure(e) && (IsOwn(e) || (e.Outside? && (e.sql.UpdateJob? || e.sql.Commit?)))) || IsVictim(s, e)
  }

  lemma OwnTransactionIsTask(s: State, b: nat)
    requires Follows(s) && Placed(s) && b in s.mine && s.q.Pc(b).InTx()
    ensures b in s.tasks && s.tasks[b].Recording? && s.tasks[b].outcome.Success?
  {
  }

  /** A transaction that shares the lock waits for nobody, or is in a deadlock. */
  lemma SharerWaitsForSharer(q: Queue.State, b: nat)
    requires q.Pc(b).Inserted? && q.LockedByOther(b, q.Pc(b).id) && QueueInvariant.LocksExclude(q)
    ensures Deadlocked(q, b)
  {
    var c: nat :| c != b && q.Pc(c).InTx() && q.Pc(c).id == q.Pc(b).id;
    assert q.Pc(c).Inserted?;
  }

  lemma TransactionNext(q: Queue.State, b: nat) returns (sql: Queue.Event)
    requires q.Pc(b).InTx() && QueueInvariant.LocksHold(q) && QueueInvariant.LocksExclude(q)
    ensures Queue.Enabled(q, sql)
    ensures ((sql == Queue.UpdateJob(b) || sql == Queue.Commit(b)) || (sql == Queue.FinishFails(b) && Deadlocked(q, b)))
  {
    if q.Pc(b).Updated? {
      sql := Queue.Commit(b);
    } else if !q.LockedByOther(b, q.Pc(b).id) {
      sql := Queue.UpdateJob(b);
    } else {
      SharerWaitsForSharer(q, b);
      sql := Queue.FinishFails(b);
    }
  }

  /** Whoever holds a lock can go on, or is the victim of a deadlock. */
  lemma TransactionCanMove(s: State, b: nat) returns (e: Event)
    requires s.q.Pc(b).InTx() && Follows(s) && Placed(s)
    requires QueueInvariant.LocksHold(s.q) && QueueInvariant.LocksExclude(s.q)
    ensures Enabled(s, e) && Unblocks(s, e)
  {
    hide Queue.Enabled, Deadlocked, QueueInvariant.LocksHold, QueueInvariant.LocksExclude;
    var sql := TransactionNext(s.q, b);
    if b in s.mine {
      OwnTransactionIsTask(s, b);
      e := if sql.FinishFails? then RecordFails(b) else Record(b, sql);
    } else {
      e := Outside(sql);
    }
  }

  lemma RecordingCanMove(s: State, a: nat, outcome: Outcome) returns (e: Event)
    requires a in s.tasks && s.tasks[a] == Recording(outcome) && Follows(s) && Placed(s)
    requires QueueInvariant.LocksHold(s.q) && QueueInvariant.LocksExclude(s.q)
    ensures Enabled(s, e) && Unblocks(s, e)
  {
    var pc := s.q.Pc(a);
    assert Matches(s.tasks[a], pc);
    hide Follows, Placed, QueueInvariant.LocksHold, QueueInvariant.LocksExclude;
    if pc.InTx() {
      e := TransactionCanMove(s, a);
    } else if b: nat :| b != a && s.q.Pc(b).InTx() && s.q.Pc(b).id == pc.id && (outcome.Failure? || s.q.Pc(b).Updated?) {
      e := TransactionCanMove(s, b);
    } else {
      match outcome {
        case Failure(error, partial) => e := Record(a, Queue.FinishFailed(a, error, partial));
        case Success(result) =>
          var reply := FreshId(s.q.used);
          e := Record(a, Queue.InsertReply(a, reply, result));
      }
    }
  }

  lemma TaskCanMove(s: State, a: nat) returns (e: Event)
    requires a in s.tasks && !s.tasks[a].Finished? && s.shutdown && Follows(s) && Placed(s)
    requires QueueInvariant.LocksHold(s.q) && QueueInvariant.LocksExclude(s.q)
    ensures Enabled(s, e) && Unblocks(s, e)
  {
    hide Queue.Enabled, Follows, Placed, QueueInvariant.LocksHold, QueueInvariant.LocksExclude;
    match s.tasks[a] {
      case Starting => e := MakeDir(a, None);
      case Executing => e := TaskSeesCancel(a);
      case Cleaning(_) => e := RemoveDir(a, true);
      case Recorded => e := Release(a);
      case Recording(outcome) => e := RecordingCanMove(s, a, outcome);
    }
  }

  /** The claim of a locked row waits for a transaction that can go on. */
  lemma ClaimCanMove(s: State) returns (e: Event)
    requires s.loop.Try? && Follows(s) && Placed(s)
    requires QueueInvariant.LocksHold(s.q) && QueueInvariant.LocksExclude(s.q)
    ensures Enabled(s, e) && Unblocks(s, e)
  {
    hide QueueInvariant.LocksHold, QueueInvariant.LocksExclude;
    var id := s.q.Pc(s.cur).id;
    if b: nat :| s.q.Pc(b).InTx() && s.q.Pc(b).id == id {
      e := TransactionCanMove(s, b);
    } else {
      e := Statement(Queue.TryClaim(s.cur));
    }
  }

  lemma CanMove(s: State) returns (e: Event)
    requires s.shutdown && !s.loop.Stopped? && Follows(s) && Placed(s)
    requires QueueInvariant.LocksHold(s.q) && QueueInvariant.LocksExclude(s.q)
    ensures Enabled(s, e) && Unblocks(s, e)
  {
    hide QueueInvariant.LocksHold, QueueInvariant.LocksExclude;
    match s.loop {
      case Top => e := Reap;
      case Acquire => e := SeeCancel;
      case Sleep(_) => e := SeeCancel;
      case Poll(_) => e := Statement(Queue.Select(s.cur));
      case Reread => e := Statement(Queue.Get(s.cur));
      case Try(_) => e := ClaimCanMove(s);
      case Drain =>
        if a :| a in s.tasks {
          if s.tasks[a].Finished? {
            e := JoinNext(a);
          } else {
            e := TaskCanMove(s, a);
          }
        } else {
          e := Stop;
        }
    }
  }

  /** A deadlock takes two actors at work on one row. */
  lemma DeadlockSharesRow(q: Queue.State, a: nat)
    requires Deadlocked(q, a)
    ensures !QueueHolders.OneHolder(q, q.Pc(a).id)
  {
    var id := q.Pc(a).id;
    var b: nat :| b != a && q.Pc(b).Inserted? && q.Pc(b).id == id;
    assert QueueHolders.WorksOn(q, a, id) && QueueHolders.WorksOn(q, b, id);
  }

  /** The row that a deadlock is about. */
  ghost function VictimRow(s: State, e: Event): nat
    requires IsVictim(s, e)
  {
    s.q.Pc(if e.RecordFails? then e.actor else e.sql.actor).id
  }

  lemma VictimWasRequeued(max: nat, es: seq<Event>, e: Event)
    requires IsRun(max, es) && IsVictim(End(max, es), e)
    ensures !QuietFor(max, es, VictimRow(End(max, es), e))
  {
    var q := End(max, es).q;
    QueueRun(max, es);
    DeadlockSharesRow(q, if e.RecordFails? then e.actor else e.sql.actor);
    if QuietFor(max, es, VictimRow(End(max, es), e)) {
      QueueHolders.HeldAlways(Statements(es), VictimRow(End(max, es), e));
      assert false;
    }
  }

  /**
   A cancelled worker is never stuck, whatever was requeued: until it has stopped, a step of its own that is not
   a failure is possible, or one of a transaction it waits for, or the database breaks a deadlock of two tasks
   that record one row, which then was requeued during its job.
   */
  lemma ShutdownProgress(max: nat, es: seq<Event>) returns (e: Event)
    requires IsRun(max, es)
    requires End(max, es).shutdown && !End(max, es).loop.Stopped?
    ensures Enabled(End(max, es), e) && Unblocks(End(max, es), e)
    ensures IsVictim(End(max, es), e) ==> !QuietFor(max, es, VictimRow(End(max, es), e))
  {
    FollowsAlways(max, es);
    QueueRun(max, es);
    QueueTheorems.InvAlways(Statements(es));
    e := CanMove(End(max, es));
    if IsVictim(End(max, es), e) {
      VictimWasRequeued(max, es, e);
    }
    hide Follows, Placed, Enabled, Legal, Deadlocked, QueueInvariant.LocksHold, QueueInvariant.LocksExclude;
  }
}
