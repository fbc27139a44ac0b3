/** How a job's run ends is what the worker reports and the table shows. */
module WorkerOutcomes {
  import opened Wrappers
  import opened Messages
  import Queue
  import QueueOutcomes
  import opened Worker
  import opened WorkerCapacity
  import opened WorkerRows
  import opened WorkerShutdown

  /** The outcome that this event gives the run of actor `a`: Claude's, no workspace, or the shutdown. */
  function OutcomeIn(e: Event, a: nat): Option<Outcome> {
    match e
    case RunEnds(b, outcome) => if b == a then Some(outcome) else None
    case MakeDir(b, error) => if b == a && error.Some? then Some(Failure(error.value, None)) else None
    case TaskSeesCancel(b) =>
      if b == a then Some(Failure("runner shut down before the job finished", None)) else None
    case _ => None
  }

  /** The outcome of the run of actor `a`, as soon as it has one. */
  function OutcomeOf(es: seq<Event>, a: nat): Option<Outcome> {
    if es == [] then None
    else if OutcomeIn(es[|es| - 1], a).Some? then OutcomeIn(es[|es| - 1], a)
    else OutcomeOf(es[..|es| - 1], a)
  }

  /** What a task keeps in its phase is the outcome of its run, and before that there is none. */
  ghost predicate PhaseTells(s: State, a: nat, outcome: Option<Outcome>) {
    && (a in s.tasks ==>
          match s.tasks[a]
          case Starting => outcome.None?
          case Executing => outcome.None?
          case Cleaning(o) => outcome == Some(o)
          case Recording(o) => outcome == Some(o)
          case _ => true)
    && (a !in s.mine || (s.loop.Polling() && a == s.cur) ==> outcome.None?)
  }

  function Later(e: Event, a: nat, outcome: Option<Outcome>): Option<Outcome> {
    if OutcomeIn(e, a).Some? then OutcomeIn(e, a) else outcome
  }

  lemma TaskTells(s: State, e: Event, a: nat, outcome: Option<Outcome>)
    requires OfTask(e) && Ready(s, e) && Placed(s) && PhaseTells(s, a, outcome)
    ensures PhaseTells(LocalStep(s, e), a, Later(e, a, outcome))
    ensures OutcomeIn(e, a).Some? ==> outcome.None?
  {
    hide Records;
  }

  lemma LoopTells(s: State, e: Event, a: nat, outcome: Option<Outcome>)
    requires !OfTask(e) && Ready(s, e) && Placed(s) && PhaseTells(s, a, outcome)
    ensures PhaseTells(LocalStep(s, e), a, Later(e, a, outcome)) && OutcomeIn(e, a).None?
  {
  }

  lemma PhaseTellsKept(s: State, e: Event, a: nat, outcome: Option<Outcome>)
    requires Enabled(s, e) && Placed(s) && PhaseTells(s, a, outcome)
    ensures PhaseTells(Apply(s, e), a, Later(e, a, outcome))
    ensures OutcomeIn(e, a).Some? ==> outcome.None?
  {
    hide Queue.Enabled, Queue.Apply;
    var now := if Sql(e).Some? then s.(q := Queue.Apply(s.q, Sql(e).value)) else s;
    assert Placed(now) && PhaseTells(now, a, outcome) && Ready(now, e);
    hide PhaseTells, Placed, Ready;
    if OfTask(e) {
      TaskTells(now, e, a, outcome);
    } else {
      LoopTells(now, e, a, outcome);
    }
  }

  lemma {:induction false} PhaseTellsAlways(max: nat, es: seq<Event>, a: nat)
    requires IsRun(max, es)
    ensures PhaseTells(End(max, es), a, OutcomeOf(es, a))
    decreases |es|
  {
    if es == [] {
    } else {
      var before, e := es[..|es| - 1], es[|es| - 1];
      hide Enabled, Apply, PhaseTells, OutcomeIn;
      PhaseTellsAlways(max, before, a);
      FollowsAlways(max, before);
      PhaseTellsKept(End(max, before), e, a, OutcomeOf(before, a));
    }
  }

  /** The run of an actor ends once. */
  lemma {:induction false} EndsOnce(max: nat, es: seq<Event>, i: nat, j: nat, a: nat)
    requires IsRun(max, es) && i < j < |es| && OutcomeIn(es[i], a).Some?
    ensures OutcomeIn(es[j], a).None?
    decreases |es|
  {
    var before, e := es[..|es| - 1], es[|es| - 1];
    hide Enabled, Apply, PhaseTells, OutcomeIn;
    if j < |es| - 1 {
      EndsOnce(max, before, i, j, a);
    } else {
      HasOutcome(before, i, a);
      PhaseTellsAlways(max, before, a);
      FollowsAlways(max, before);
      PhaseTellsKept(End(max, before), e, a, OutcomeOf(before, a));
    }
  }

  lemma {:induction false} HasOutcome(es: seq<Event>, i: nat, a: nat)
    requires i < |es| && OutcomeIn(es[i], a).Some?
    ensures OutcomeOf(es, a).Some?
    decreases |es|
  {
    hide OutcomeIn;
    if i == |es| - 1 {
    } else {
      HasOutcome(es[..|es| - 1], i, a);
    }
  }

  lemma {:induction false} OutcomeHappened(es: seq<Event>, a: nat) returns (i: nat)
    requires OutcomeOf(es, a).Some?
    ensures i < |es| && OutcomeIn(es[i], a) == OutcomeOf(es, a)
    decreases |es|
  {
    hide OutcomeIn;
    if OutcomeIn(es[|es| - 1], a).Some? {
      i := |es| - 1;
    } else {
      i := OutcomeHappened(es[..|es| - 1], a);
    }
  }

  // ---- what is reported ----

  /** A task reports the outcome that it keeps, and nobody reports for it. */
  lemma CarriedIsKept(s: State, e: Event, a: nat)
    requires Ready(s, e) && a in s.mine && Sql(e).Some? && QueueOutcomes.Carried(Sql(e).value, a).Some?
    ensures e.Record? && e.actor == a && a in s.tasks && s.tasks[a].Recording?
    ensures QueueOutcomes.Carried(Sql(e).value, a) == Some(s.tasks[a].outcome) && OutcomeIn(e, a).None?
  {
  }

  lemma MineBefore(s: State, e: Event, a: nat)
    requires Enabled(s, e) && a in Apply(s, e).mine
    ensures a in s.mine || (s.q.Pc(a).Idle? && Sql(e).None?)
  {
    hide Queue.Enabled, Queue.Apply;
  }

  /** Whatever an own actor has reported is the outcome of its run. */
  lemma {:induction false} ReportsItsOutcome(max: nat, es: seq<Event>, a: nat)
    requires IsRun(max, es) && a in End(max, es).mine
    ensures var reported := QueueOutcomes.Reported(Statements(es), a); reported.Some? ==> OutcomeOf(es, a) == reported
    decreases |es|
  {
    if es == [] {
    } else {
      var before, e := es[..|es| - 1], es[|es| - 1];
      var s := End(max, before);
      assert Enabled(s, e) && End(max, es) == Apply(s, e);
      MineBefore(s, e, a);
      PhaseTellsAlways(max, before, a);
      FollowsAlways(max, before);
      PhaseTellsKept(s, e, a, OutcomeOf(before, a));
      hide Legal, After, Apply, Queue.Enabled, Queue.Apply, QueueOutcomes.Carried, OutcomeIn, Placed;
      if a in s.mine {
        ReportsItsOutcome(max, before, a);
        if Sql(e).None? {
          NoStatement(es);
        } else {
          LastStatement(es);
          if QueueOutcomes.Carried(Sql(e).value, a).Some? {
            CarriedIsKept(s, e, a);
          }
        }
      } else {
        NoStatement(es);
        QueueRun(max, before);
        QueueOutcomes.IdleReportsNothing(Statements(before), a);
      }
    }
  }

  lemma NoStatement(es: seq<Event>)
    requires es != [] && Sql(es[|es| - 1]).None?
    ensures Statements(es) == Statements(es[..|es| - 1])
  {
  }

  lemma LastStatement(es: seq<Event>)
    requires es != [] && Sql(es[|es| - 1]).Some?
    ensures Statements(es) != [] && Statements(es)[|Statements(es)| - 1] == Sql(es[|es| - 1]).value
    ensures Statements(es)[..|Statements(es)| - 1] == Statements(es[..|es| - 1])
  {
  }

  lemma {:induction false} PrefixIsRun(max: nat, es: seq<Event>, i: nat)
    requires IsRun(max, es) && i < |es|
    ensures IsRun(max, es[..i]) && Enabled(End(max, es[..i]), es[i])
    decreases |es|
  {
    hide Enabled, Apply;
    if i == |es| - 1 {
    } else {
      PrefixIsRun(max, es[..|es| - 1], i);
      assert es[..|es| - 1][..i] == es[..i];
    }
  }

  /** One of the first `i` events ended the run of actor `a` so. */
  predicate RanTo(es: seq<Event>, i: nat, a: nat, outcome: Outcome) {
    exists j :: 0 <= j < i && j < |es| && EndsRun(es[j], a, outcome)
  }

  /** Claude finished with this outcome, there was no workspace, or the worker shut down. */
  predicate EndsRun(e: Event, a: nat, outcome: Outcome) {
    || e == RunEnds(a, outcome)
    || (outcome.Failure? && outcome.partial.None? && e == MakeDir(a, Some(outcome.error)))
    || (outcome == Failure("runner shut down before the job finished", None) && e == TaskSeesCancel(a))
  }

  /**
   What a task sends to the table is how its run ended: a reply has the text of a success, and a failure the error
   and the partial answer of a failed run, the error of a workspace that could not be made, or the shutdown's.
   */
  lemma StatementsCarryOutcomes(max: nat, es: seq<Event>, i: nat)
    requires IsRun(max, es) && i < |es| && es[i].Record?
    ensures var a, sql := es[i].actor, es[i].sql;
            && (sql.InsertReply? ==> sql.actor == a && RanTo(es, i, a, Success(sql.text)))
            && (sql.FinishFailed? ==> sql.actor == a && RanTo(es, i, a, Failure(sql.error, sql.result)))
            && (sql.UpdateJob? || sql.Commit? ==> sql.actor == a && exists text :: RanTo(es, i, a, Success(text)))
            && (sql.InsertReply? || sql.FinishFailed? || sql.UpdateJob? || sql.Commit?)
  {
    var a := es[i].actor;
    PrefixIsRun(max, es, i);
    PhaseTellsAlways(max, es[..i], a);
    var j := OutcomeHappened(es[..i], a);
    var outcome := End(max, es[..i]).tasks[a].outcome;
    assert EndsRun(es[j], a, outcome);
    hide Legal, After, EndsRun;
    assert RanTo(es, i, a, outcome);
    hide RanTo;
  }

  lemma ShutdownStep(s: State, e: Event)
    requires Enabled(s, e)
    ensures Apply(s, e).shutdown <==> s.shutdown || e == Cancel
    ensures Apply(s, e).loop.Drain? || Apply(s, e).loop.Stopped? ==> s.loop.Drain? || s.loop.Stopped? || s.shutdown
  {
    hide Queue.Enabled, Queue.Apply;
  }

  lemma {:induction false} ShutdownIsCancelled(max: nat, es: seq<Event>)
    requires IsRun(max, es)
    ensures End(max, es).shutdown <==> Cancel in es
    ensures End(max, es).loop.Drain? || End(max, es).loop.Stopped? ==> Cancel in es
    decreases |es|
  {
    if es == [] {
    } else {
      hide Enabled, Apply;
      ShutdownIsCancelled(max, es[..|es| - 1]);
      ShutdownStep(End(max, es[..|es| - 1]), es[|es| - 1]);
      assert forall e | e in es :: e in es[..|es| - 1] || e == es[|es| - 1];
    }
  }

  /** Nobody stops before the cancellation: neither the loop, nor a task on account of the shutdown. */
  lemma StopsOnlyWhenCancelled(max: nat, es: seq<Event>, i: nat)
    requires IsRun(max, es) && i < |es| && (es[i].SeeCancel? || es[i].TaskSeesCancel? || es[i].Stop?)
    ensures Cancel in es[..i]
  {
    PrefixIsRun(max, es, i);
    ShutdownIsCancelled(max, es[..i]);
    hide Legal, After, Apply;
  }

  // ---- what the table shows ----

  lemma ShownRanTo(max: nat, es: seq<Event>, a: nat, reported: Option<Outcome>)
    requires IsRun(max, es) && a in End(max, es).mine
    requires reported == QueueOutcomes.Reported(Statements(es), a) && reported.Some?
    ensures RanTo(es, |es|, a, reported.value)
  {
    ReportsItsOutcome(max, es, a);
    var j := OutcomeHappened(es, a);
    assert EndsRun(es[j], a, reported.value);
  }

  /** An actor claimed the row, is done with it, and if it was one of this worker's its run ended with the outcome. */
  ghost predicate WasRun(max: nat, es: seq<Event>, id: nat, outcome: Outcome)
    requires IsRun(max, es)
  {
    var s := End(max, es);
    exists b: nat ::
      QueueOutcomes.IsClaimant(s.q, b, id) && s.q.Pc(b).Closed? && (b in s.mine ==> RanTo(es, |es|, b, outcome))
  }

  /**
   In every run, requeues and other workers included, a finished row shows an outcome that a claimant of it came to:
   how its run ended, when the claimant is one of this worker's.
   */
  lemma ShownWasRun(max: nat, es: seq<Event>, id: nat) returns (outcome: Outcome)
    requires IsRun(max, es) && id in End(max, es).q.rows && End(max, es).q.rows[id].status.IsTerminal()
    ensures QueueOutcomes.Shows(End(max, es).q, id, outcome) && WasRun(max, es, id, outcome)
  {
    QueueRun(max, es);
    QueueOutcomes.ShownWasReported(Statements(es), id);
    var s := End(max, es);
    hide Legal, After, RanTo, Queue.Legal, Queue.After, QueueOutcomes.Shows, QueueOutcomes.IsClaimant;
    var b: nat :| && QueueOutcomes.IsClaimant(s.q, b, id) && s.q.Pc(b).Closed?
                  && QueueOutcomes.Reported(Statements(es), b).Some?
                  && QueueOutcomes.Shows(s.q, id, QueueOutcomes.Reported(Statements(es), b).value);
    outcome := QueueOutcomes.Reported(Statements(es), b).value;
    if b in s.mine {
      ShownRanTo(max, es, b, Some(outcome));
    }
  }

  /**
   And nothing gets lost: as long as a row is not requeued during its own job, it shows how the run of its claimant
   ended as soon as that one is done, unless that one failed or the row was deleted with its chat.
   */
  lemma OutcomeIsShown(max: nat, es: seq<Event>, a: nat, id: nat) returns (outcome: Outcome)
    requires IsRun(max, es) && QuietFor(max, es, id)
    requires var s := End(max, es);
             && a in s.mine && QueueOutcomes.IsClaimant(s.q, a, id) && s.q.Pc(a).Closed?
             && a !in s.q.failures && id in s.q.rows
    ensures RanTo(es, |es|, a, outcome) && QueueOutcomes.Shows(End(max, es).q, id, outcome)
  {
    QueueRun(max, es);
    QueueOutcomes.ReportIsShown(Statements(es), a, id);
    hide Legal, After, RanTo, Queue.Legal, Queue.After, QueueOutcomes.Shows, QueueOutcomes.IsClaimant;
    outcome := QueueOutcomes.Reported(Statements(es), a).value;
    ShownRanTo(max, es, a, Some(outcome));
  }

  /** So after a run without failures and without requeues every row that a stopped worker claimed shows its outcome. */
  lemma StoppedHasRecorded(max: nat, es: seq<Event>, a: nat, id: nat) returns (outcome: Outcome)
    requires IsRun(max, es) && End(max, es).loop.Stopped? && Clean(es) && NoRequeue(es)
    requires a in End(max, es).mine && QueueOutcomes.IsClaimant(End(max, es).q, a, id) && id in End(max, es).q.rows
    ensures RanTo(es, |es|, a, outcome) && QueueOutcomes.Shows(End(max, es).q, id, outcome)
  {
    var s := End(max, es);
    StoppedIsEmpty(max, es);
    FollowsAlways(max, es);
    UnharmedAlways(max, es);
    NoRequeueIsQuiet(max, es, id);
    QueueHolds(max, es);
    QueueOutcomes.ClaimantsWorkOrClosed(s.q, a, id);
    hide Legal, After, RanTo, QuietFor, QueueOutcomes.Shows, QueueOutcomes.IsClaimant;
    outcome := OutcomeIsShown(max, es, a, id);
  }
}
