/** Permits, the size of the set of tasks, and the rows and workspaces a worker holds. */
module WorkerCapacity {
  import Queue
  import QueueTheorems
  import opened Worker

  ghost predicate IsRun(max: nat, es: seq<Event>) { Legal(Start(max), es) }

  ghost function End(max: nat, es: seq<Event>): State
    requires IsRun(max, es)
  {
    After(Start(max), es)
  }

  lemma TableAfter(s: State, e: Event)
    requires Enabled(s, e)
    ensures Apply(s, e).q == if Sql(e).Some? then Queue.Apply(s.q, Sql(e).value) else s.q
  {
    hide Queue.Apply, Queue.Enabled;
  }

  /** A worker's run is a run of the queue: whatever holds in every queue run holds of its table. */
  lemma {:induction false} QueueRun(max: nat, es: seq<Event>)
    requires IsRun(max, es)
    ensures QueueTheorems.IsRun(Statements(es))
    ensures QueueTheorems.End(Statements(es)) == End(max, es).q
    decreases |es|
  {
    if es == [] {
    } else {
      var before, e := es[..|es| - 1], es[|es| - 1];
      QueueRun(max, before);
      TableAfter(End(max, before), e);
      hide Apply, Queue.Apply, Queue.Enabled, Ready, Queue.Legal;
      if Sql(e).Some? {
        assert Statements(es) == Statements(before) + [Sql(e).value];
        QueueTheorems.OneMore(Statements(before), Sql(e).value);
      } else {
        assert Statements(es) == Statements(before);
      }
    }
  }

  // ---- permits ----

  /** The actor of the current pass has no task yet. */
  ghost predicate Placed(s: State) {
    && (s.loop.Polling() ==> s.cur !in s.tasks && s.cur in s.mine)
    && s.tasks.Keys <= s.mine
  }

  /** Every permit is in the semaphore, with the loop, or with a task that has not finished. */
  ghost predicate Permits(s: State) {
    && s.free + (if s.loop.Polling() then 1 else 0) + |s.Unfinished()| == s.max
    && Placed(s)
  }

  /** Finished tasks stay in the set until the next reaping, but they never pile up. */
  ghost predicate Bounded(s: State) {
    |s.tasks| <= s.max + if s.loop.Top? then 1 else 0
  }

  /** The events of a task; the others are the loop's, or from outside. */
  predicate OfTask(e: Event) {
    e.MakeDir? || e.RunEnds? || e.TaskSeesCancel? || e.RemoveDir? || e.Record? || e.RecordFails? || e.Panic? || e.Release?
  }

  /** A task that moves on keeps its permit until it has finished. */
  lemma PhaseKeepsPermits(s: State, t: State, a: nat, phase: Phase)
    requires Permits(s) && a in s.tasks && !s.tasks[a].Finished? && t.tasks == s.tasks[a := phase]
    requires t.max == s.max && t.mine == s.mine && t.cur == s.cur && t.loop == s.loop
    requires t.free == s.free + if phase.Finished? then 1 else 0
    ensures Permits(t) && t.tasks.Keys == s.tasks.Keys
  {
    assert t.tasks.Keys == s.tasks.Keys;
    if phase.Finished? {
      assert t.Unfinished() == s.Unfinished() - {a};
    } else {
      assert t.Unfinished() == s.Unfinished();
    }
  }

  lemma TaskKeepsPermits(s: State, e: Event)
    requires OfTask(e) && Ready(s, e) && Permits(s)
    ensures Permits(LocalStep(s, e)) && LocalStep(s, e).tasks.Keys == s.tasks.Keys
  {
    hide Permits, Records;
    var t := LocalStep(s, e);
    assert e.actor in s.tasks && e.actor in t.tasks;
    assert t.tasks == s.tasks[e.actor := t.tasks[e.actor]];
    PhaseKeepsPermits(s, t, e.actor, t.tasks[e.actor]);
  }

  lemma SpawnKeepsPermits(s: State)
    requires s.loop.Polling() && Permits(s)
    ensures Permits(s.(tasks := s.tasks[s.cur := Starting], loop := Top))
  {
    assert s.(tasks := s.tasks[s.cur := Starting]).Unfinished() == s.Unfinished() + {s.cur};
  }

  lemma SameTasksSamePermits(s: State, t: State)
    requires Permits(s) && t.tasks == s.tasks && t.max == s.max && t.mine == s.mine && t.cur == s.cur
    requires t.free + (if t.loop.Polling() then 1 else 0) == s.free + (if s.loop.Polling() then 1 else 0)
    requires t.loop.Polling() ==> s.loop.Polling()
    ensures Permits(t)
  {
    assert t.Unfinished() == s.Unfinished();
  }

  lemma LoopStepKeepsPermits(s: State, pc: Queue.Pc)
    requires s.loop.Polling() && Permits(s)
    ensures Permits(LoopStep(s, pc))
    ensures LoopStep(s, pc).tasks.Keys == s.tasks.Keys + if LoopStep(s, pc).loop.Top? then {s.cur} else {}
  {
    hide Permits;
    if s.loop.Reread? && pc.Running? {
      SpawnKeepsPermits(s);
    } else {
      SameTasksSamePermits(s, LoopStep(s, pc));
    }
  }

  lemma AcquireKeepsPermits(s: State, e: Event)
    requires e.AcquirePermit? && Ready(s, e) && Permits(s)
    ensures Permits(LocalStep(s, e))
  {
    assert LocalStep(s, e).Unfinished() == s.Unfinished();
  }

  /** Finished tasks that leave the set have given their permits back before. */
  lemma ReapingKeepsPermits(s: State, e: Event)
    requires (e.Reap? || e.JoinNext?) && Ready(s, e) && Permits(s)
    ensures Permits(LocalStep(s, e))
    ensures LocalStep(s, e).tasks.Keys == if e.Reap? then s.Unfinished() else s.tasks.Keys - {e.actor}
  {
    assert LocalStep(s, e).Unfinished() == s.Unfinished();
  }

  lemma LoopKeepsPermits(s: State, e: Event)
    requires !OfTask(e) && !e.Statement? && Ready(s, e) && Permits(s)
    ensures Permits(LocalStep(s, e))
    ensures e.Reap? ==> LocalStep(s, e).tasks.Keys == s.Unfinished()
    ensures !e.Reap? ==> LocalStep(s, e).tasks.Keys == s.tasks.Keys - if e.JoinNext? then {e.actor} else {}
  {
    hide Permits;
    if e.Reap? || e.JoinNext? {
      ReapingKeepsPermits(s, e);
    } else if e.AcquirePermit? {
      AcquireKeepsPermits(s, e);
    } else {
      SameTasksSamePermits(s, LocalStep(s, e));
    }
  }

  ghost predicate Slots(s: State) { Permits(s) && Bounded(s) }

  lemma LocalStepKeepsSlots(s: State, e: Event)
    requires Ready(s, e) && !e.Statement? && Slots(s)
    ensures Slots(LocalStep(s, e))
  {
    if OfTask(e) {
      TaskKeepsPermits(s, e);
      hide Permits;
    } else {
      LoopKeepsPermits(s, e);
    }
  }

  lemma LoopStepKeepsSlots(s: State, pc: Queue.Pc)
    requires s.loop.Polling() && Slots(s)
    ensures Slots(LoopStep(s, pc))
  {
    hide Permits;
    LoopStepKeepsPermits(s, pc);
  }

  lemma TableDoesNotMatter(s: State, q: Queue.State, e: Event)
    requires Slots(s) && Ready(s, e) && !e.AcquirePermit?
    ensures Slots(s.(q := q)) && Ready(s.(q := q), e)
  {
    SameTasksSamePermits(s, s.(q := q));
  }

  lemma SlotsKept(s: State, e: Event)
    requires Enabled(s, e) && Slots(s)
    ensures Slots(Apply(s, e))
  {
    hide Queue.Apply, Queue.Enabled, Slots;
    var now := if Sql(e).Some? then s.(q := Queue.Apply(s.q, Sql(e).value)) else s;
    if Sql(e).Some? {
      TableDoesNotMatter(s, now.q, e);
    }
    if e.Statement? {
      LoopStepKeepsSlots(now, now.q.Pc(now.cur));
    } else {
      hide LocalStep;
      LocalStepKeepsSlots(now, e);
    }
  }

  lemma MaxKept(s: State, e: Event)
    requires Enabled(s, e)
    ensures Apply(s, e).max == s.max
  {
    hide Queue.Apply, Queue.Enabled;
  }

  lemma StartSlots(max: nat)
    ensures Slots(Start(max))
  {
    assert Start(max).Unfinished() == {};
  }

  /**
   In every run the permits add up to the limit and the set of tasks never exceeds it by more than
   one, whatever fails and whatever other processes do.
   */
  lemma {:induction false} Capacity(max: nat, es: seq<Event>)
    requires IsRun(max, es)
    ensures End(max, es).max == max
    ensures Slots(End(max, es))
    decreases |es|
  {
    hide Slots, Ready, LocalStep, Queue.Apply, Queue.Enabled;
    StartSlots(max);
    if es == [] {
    } else {
      var before, e := es[..|es| - 1], es[|es| - 1];
      Capacity(max, before);
      SlotsKept(End(max, before), e);
      MaxKept(End(max, before), e);
    }
  }
}
