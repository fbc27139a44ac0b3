/** A worker with a free slot takes the oldest waiting job and records whatever its run comes to. */
module WorkerLife {
  import opened Wrappers
  import opened Messages
  import Queue
  import opened Worker

  lemma OneMore(s: State, es: seq<Event>, e: Event)
    requires Legal(s, es) && Enabled(After(s, es), e)
    ensures Legal(s, es + [e]) && After(s, es + [e]) == Apply(After(s, es), e)
  {
    hide Enabled, Apply;
    assert (es + [e])[..|es + [e]| - 1] == es;
  }

  lemma Nothing(s: State)
    ensures Legal(s, []) && After(s, []) == s
  {
  }

  lemma {:induction false} InTurn(s: State, es: seq<Event>, more: seq<Event>)
    requires Legal(s, es) && Legal(After(s, es), more)
    ensures Legal(s, es + more) && After(s, es + more) == After(After(s, es), more)
    decreases |more|
  {
    hide Enabled, Apply;
    if more == [] {
      assert es + more == es;
    } else {
      var init, e := more[..|more| - 1], more[|more| - 1];
      InTurn(s, es, init);
      OneMore(s, es + init, e);
      assert es + more == es + init + [e];
    }
  }

  /** Row `id` is the oldest job that waits, nobody holds a lock on it, and `a` is new. */
  ghost predicate IsNext(s: State, a: nat, id: nat) {
    && s.loop.Top? && s.free > 0 && a !in s.mine && a !in s.tasks && a !in s.dirs && s.q.Pc(a).Idle?
    && id in s.q.rows && Waits(s.q.rows[id])
    && (forall k | k in s.q.rows && Waits(s.q.rows[k]) :: id <= k)
    && forall b: nat :: !s.q.Pc(b).InTx() || s.q.Pc(b).id != id
  }

  function Polling(a: nat): seq<Event> { [Reap] + [AcquirePermit(a)] + [Statement(Queue.Select(a))] }

  function ClaimSteps(a: nat): seq<Event> {
    Polling(a) + [Statement(Queue.TryClaim(a))] + [Statement(Queue.Get(a))]
  }

  /** The loop after the select. */
  ghost function Chosen(s: State, a: nat, id: nat): State
    requires s.free > 0
  {
    s.(tasks := Reaped(s.tasks), loop := Try(0), free := s.free - 1,
    cur := a, mine := s.mine + {a}, q := s.q.At(a, Queue.Selected(id)))
  }

  function Reaped(tasks: map<nat, Phase>): map<nat, Phase> { map b | b in tasks && !tasks[b].Finished? :: tasks[b] }

  /** The state in which the job has been claimed and its task spawned. */
  ghost function Spawned(s: State, a: nat, id: nat): State
    requires id in s.q.rows && s.free > 0
  {
    s.(tasks := Reaped(s.tasks)[a := Starting], free := s.free - 1, cur := a, mine := s.mine + {a},
    q := Queue.Claim(s.q, a, id).At(a, Queue.Running(id)))
  }

  lemma PollingChooses(s: State, a: nat, id: nat)
    requires IsNext(s, a, id)
    ensures Legal(s, Polling(a)) && After(s, Polling(a)) == Chosen(s, a, id)
  {
    var s1 := Apply(s, Reap);
    Nothing(s);
    assert [] + [Reap] == [Reap];
    OneMore(s, [], Reap);
    assert Enabled(s1, AcquirePermit(a));
    OneMore(s, [Reap], AcquirePermit(a));
    var s2 := Apply(s1, AcquirePermit(a));
    assert Enabled(s2, Statement(Queue.Select(a)));
    OneMore(s, [Reap] + [AcquirePermit(a)], Statement(Queue.Select(a)));
    assert forall k | k in s.q.rows :: k in ClaimableIds(s.q.rows) <==> Waits(s.q.rows[k]);
    assert Oldest(s.q.rows) == Some(id);
    hide Legal, After;
    assert Apply(s2, Statement(Queue.Select(a))) == Chosen(s, a, id);
  }

  lemma ClaimingSpawns(s: State, a: nat, id: nat)
    requires IsNext(s, a, id)
    ensures Legal(s, ClaimSteps(a)) && After(s, ClaimSteps(a)) == Spawned(s, a, id)
  {
    PollingChooses(s, a, id);
    ChosenIsClaimed(s, a, id);
    hide Legal, After, Polling, Enabled, Apply, Chosen, Spawned;
    var tryClaim, get := Statement(Queue.TryClaim(a)), Statement(Queue.Get(a));
    OneMore(s, Polling(a), tryClaim);
    OneMore(s, Polling(a) + [tryClaim], get);
  }

  lemma ChosenIsClaimed(s: State, a: nat, id: nat)
    requires IsNext(s, a, id)
    ensures Enabled(Chosen(s, a, id), Statement(Queue.TryClaim(a)))
    ensures var t := Apply(Chosen(s, a, id), Statement(Queue.TryClaim(a)));
            Enabled(t, Statement(Queue.Get(a))) && Apply(t, Statement(Queue.Get(a))) == Spawned(s, a, id)
  {
    ChosenIsFree(s, a, id);
    var s3 := Chosen(s, a, id);
    var s4 := Apply(s3, Statement(Queue.TryClaim(a)));
    assert s4 == s3.(loop := Reread, q := Queue.Claim(s.q, a, id).At(a, Queue.Claimed(id)));
  }

  lemma ChosenIsFree(s: State, a: nat, id: nat)
    requires IsNext(s, a, id)
    ensures !Chosen(s, a, id).q.Locked(id)
  {
    forall b: nat ensures !(Chosen(s, a, id).q.Pc(b).InTx() && Chosen(s, a, id).q.Pc(b).id == id) {
      assert b == a || Chosen(s, a, id).q.Pc(b) == s.q.Pc(b);
    }
  }

  function WorkSteps(a: nat, outcome: Outcome): seq<Event> {
    [MakeDir(a, None)] + [RunEnds(a, outcome)] + [RemoveDir(a, true)]
  }

  lemma DirIsMade(s: State, a: nat)
    requires In(s, a) && s.tasks[a].Starting?
    ensures Enabled(s, MakeDir(a, None))
    ensures Apply(s, MakeDir(a, None)) == SetPhase(s, a, Executing).(dirs := s.dirs + {a})
  {
  }

  lemma RunIsEnded(s: State, a: nat, outcome: Outcome)
    requires In(s, a) && s.tasks[a].Executing?
    ensures Enabled(s, RunEnds(a, outcome)) && Apply(s, RunEnds(a, outcome)) == SetPhase(s, a, Cleaning(outcome))
  {
  }

  lemma DirIsRemoved(s: State, a: nat, outcome: Outcome)
    requires In(s, a) && s.tasks[a] == Cleaning(outcome)
    ensures Enabled(s, RemoveDir(a, true))
    ensures Apply(s, RemoveDir(a, true)) == SetPhase(s, a, Recording(outcome)).(dirs := s.dirs - {a})
  {
  }

  /** A task runs its job to whatever outcome, and cleans up. */
  lemma WorkingKeepsOutcome(s: State, a: nat, outcome: Outcome)
    requires In(s, a) && s.tasks[a].Starting? && a !in s.dirs
    ensures Legal(s, WorkSteps(a, outcome))
    ensures After(s, WorkSteps(a, outcome)) == SetPhase(s, a, Recording(outcome))
  {
    Nothing(s);
    hide Legal, After, Enabled, Apply;
    var e1, e2, e3 := MakeDir(a, None), RunEnds(a, outcome), RemoveDir(a, true);
    DirIsMade(s, a);
    OneMore(s, [], e1);
    assert [] + [e1] == [e1];
    var s1 := Apply(s, e1);
    RunIsEnded(s1, a, outcome);
    OneMore(s, [e1], e2);
    var s2 := Apply(s1, e2);
    DirIsRemoved(s2, a, outcome);
    OneMore(s, [e1] + [e2], e3);
    assert s.dirs + {a} - {a} == s.dirs;
  }

  function RecordSteps(a: nat, outcome: Outcome, reply: nat): seq<Event> {
    match outcome
    case Failure(error, partial) => [Record(a, Queue.FinishFailed(a, error, partial))]
    case Success(text) =>
      [Record(a, Queue.InsertReply(a, reply, text))] + [Record(a, Queue.UpdateJob(a))] + [Record(a, Queue.Commit(a))]
  }

  function RecordedRows(t: Table, id: nat, outcome: Outcome, reply: nat): Table
    requires id in t
  {
    match outcome
    case Failure(error, partial) => t[id := t[id].AsFailed(error, partial)]
    case Success(text) => t[id := t[id].AsDone(reply)][reply := t[id].Reply(id, text)]
  }

  /** Actor `a` is to record its outcome for row `id`, and nobody else has a lock on it. */
  ghost predicate MayRecord(s: State, a: nat, id: nat, outcome: Outcome, reply: nat) {
    && In(s, a) && s.tasks[a] == Recording(outcome) && s.q.Pc(a) == Queue.Running(id) && Queue.IsPending(s.q, id)
    && reply !in s.q.used && reply != id
    && forall b: nat | b != a :: !s.q.Pc(b).InTx() || s.q.Pc(b).id != id
  }

  lemma FailureCloses(q: Queue.State, a: nat, id: nat, error: string, partial: Option<string>)
    requires q.Pc(a) == Queue.Running(id) && Queue.IsPending(q, id)
    requires forall b: nat | b != a :: !q.Pc(b).InTx() || q.Pc(b).id != id
    ensures Queue.Enabled(q, Queue.FinishFailed(a, error, partial))
    ensures var after := Queue.Apply(q, Queue.FinishFailed(a, error, partial));
            after.rows == q.rows[id := q.rows[id].AsFailed(error, partial)] && after.Pc(a).Closed?
  {
  }

  lemma FailureIsRecorded(s: State, a: nat, id: nat, outcome: Outcome, reply: nat)
    requires MayRecord(s, a, id, outcome, reply) && outcome.Failure?
    ensures Legal(s, RecordSteps(a, outcome, reply))
    ensures var t := After(s, RecordSteps(a, outcome, reply));
            t == SetPhase(s, a, Recorded).(q := t.q) && t.q.rows == RecordedRows(s.q.rows, id, outcome, reply)
  {
    var e := Record(a, Queue.FinishFailed(a, outcome.error, outcome.partial));
    Nothing(s);
    FailureCloses(s.q, a, id, outcome.error, outcome.partial);
    hide Legal, After, Queue.Enabled, Queue.Apply;
    assert Enabled(s, e);
    OneMore(s, [], e);
    assert [] + [e] == [e];
  }

  lemma SuccessIsRecorded(s: State, a: nat, id: nat, outcome: Outcome, reply: nat)
    requires MayRecord(s, a, id, outcome, reply) && outcome.Success?
    ensures Legal(s, RecordSteps(a, outcome, reply))
    ensures var t := After(s, RecordSteps(a, outcome, reply));
            t == SetPhase(s, a, Recorded).(q := t.q) && t.q.rows == RecordedRows(s.q.rows, id, outcome, reply)
  {
    var e1 := Record(a, Queue.InsertReply(a, reply, outcome.result));
    var e2, e3 := Record(a, Queue.UpdateJob(a)), Record(a, Queue.Commit(a));
    Nothing(s);
    assert Enabled(s, e1);
    OneMore(s, [], e1);
    assert [] + [e1] == [e1];
    hide Legal, After;
    var s1 := Apply(s, e1);
    Queue.OthersStay(s.q, e1.sql);
    assert s1 == s.(q := s1.q) && s1.q.rows == s.q.rows;
    assert s1.q.Pc(a) == Queue.Inserted(id, reply, s.q.rows[id].Reply(id, outcome.result));
    assert Enabled(s1, e2);
    OneMore(s, [e1], e2);
    var s2 := Apply(s1, e2);
    assert s2 == s.(q := s2.q) && s2.q.rows == s.q.rows;
    assert s2.q.Pc(a).Updated?;
    OneMore(s, [e1] + [e2], e3);
  }

  function LifeSteps(a: nat, outcome: Outcome, reply: nat): seq<Event> {
    ClaimSteps(a) + WorkSteps(a, outcome) + RecordSteps(a, outcome, reply) + [Release(a)]
  }

  /**
   Left alone, a worker with a free slot claims the oldest job that waits, runs it to any outcome, and records that
   outcome and nothing else in the table; in the end slot and workspace are free again.
   */
  lemma FreeWorkerProcesses(s: State, a: nat, id: nat, outcome: Outcome, reply: nat)
    requires IsNext(s, a, id) && reply !in s.q.used && reply != id
    ensures Legal(s, LifeSteps(a, outcome, reply))
    ensures var t := After(s, LifeSteps(a, outcome, reply));
            && t.loop.Top? && t.free == s.free && t.dirs == s.dirs && t.tasks == Reaped(s.tasks)[a := Finished]
            && t.q.rows == RecordedRows(s.q.rows[id := s.q.rows[id].(status := Pending)], id, outcome, reply)
  {
    var s1 := Spawned(s, a, id);
    var s2 := SetPhase(s1, a, Recording(outcome));
    ClaimingSpawns(s, a, id);
    WorkingKeepsOutcome(s1, a, outcome);
    SpawnedMayRecord(s, a, id, outcome, reply);
    OutcomeIsRecorded(s2, a, id, outcome, reply);
    hide *;
    var t := After(s2, RecordSteps(a, outcome, reply));
    EndState(s, a, id, outcome, reply, t);
    AllInTurn(s, a, outcome, reply);
  }

  lemma EndState(s: State, a: nat, id: nat, outcome: Outcome, reply: nat, t: State)
    requires IsNext(s, a, id)
    requires t == SetPhase(SetPhase(Spawned(s, a, id), a, Recording(outcome)), a, Recorded).(q := t.q)
    requires t.q.rows == RecordedRows(Spawned(s, a, id).q.rows, id, outcome, reply)
    ensures In(t, a) && t.tasks[a].Recorded?
    ensures var end := SetPhase(t, a, Finished).(free := t.free + 1);
            && end.loop.Top? && end.free == s.free && end.dirs == s.dirs
            && end.tasks == Reaped(s.tasks)[a := Finished]
            && end.q.rows == RecordedRows(s.q.rows[id := s.q.rows[id].(status := Pending)], id, outcome, reply)
  {
    hide RecordedRows, Reaped;
  }

  lemma OutcomeIsRecorded(s: State, a: nat, id: nat, outcome: Outcome, reply: nat)
    requires MayRecord(s, a, id, outcome, reply)
    ensures Legal(s, RecordSteps(a, outcome, reply))
    ensures var t := After(s, RecordSteps(a, outcome, reply));
            t == SetPhase(s, a, Recorded).(q := t.q) && t.q.rows == RecordedRows(s.q.rows, id, outcome, reply)
  {
    hide Legal, After, RecordSteps, RecordedRows;
    if outcome.Failure? {
      FailureIsRecorded(s, a, id, outcome, reply);
    } else {
      SuccessIsRecorded(s, a, id, outcome, reply);
    }
  }

  lemma Released(s: State, a: nat)
    requires In(s, a) && s.tasks[a].Recorded?
    ensures Enabled(s, Release(a)) && Apply(s, Release(a)) == SetPhase(s, a, Finished).(free := s.free + 1)
  {
  }

  lemma AllInTurn(s: State, a: nat, outcome: Outcome, reply: nat)
    requires Legal(s, ClaimSteps(a)) && Legal(After(s, ClaimSteps(a)), WorkSteps(a, outcome))
    requires Legal(After(After(s, ClaimSteps(a)), WorkSteps(a, outcome)), RecordSteps(a, outcome, reply))
    requires var t := After(After(After(s, ClaimSteps(a)), WorkSteps(a, outcome)), RecordSteps(a, outcome, reply));
             In(t, a) && t.tasks[a].Recorded?
    ensures Legal(s, LifeSteps(a, outcome, reply))
    ensures var t := After(After(After(s, ClaimSteps(a)), WorkSteps(a, outcome)), RecordSteps(a, outcome, reply));
            After(s, LifeSteps(a, outcome, reply)) == SetPhase(t, a, Finished).(free := t.free + 1)
  {
    hide Legal, After, ClaimSteps, WorkSteps, RecordSteps;
    var t := After(After(After(s, ClaimSteps(a)), WorkSteps(a, outcome)), RecordSteps(a, outcome, reply));
    Released(t, a);
    hide Enabled, Apply;
    InTurn(s, ClaimSteps(a), WorkSteps(a, outcome));
    InTurn(s, ClaimSteps(a) + WorkSteps(a, outcome), RecordSteps(a, outcome, reply));
    OneMore(s, ClaimSteps(a) + WorkSteps(a, outcome) + RecordSteps(a, outcome, reply), Release(a));
  }

  lemma SpawnedMayRecord(s: State, a: nat, id: nat, outcome: Outcome, reply: nat)
    requires IsNext(s, a, id) && reply !in s.q.used && reply != id
    ensures MayRecord(SetPhase(Spawned(s, a, id), a, Recording(outcome)), a, id, outcome, reply)
  {
    var t := SetPhase(Spawned(s, a, id), a, Recording(outcome));
    assert forall b: nat | b != a :: t.q.Pc(b) == s.q.Pc(b);
  }
}
