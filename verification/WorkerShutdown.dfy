/** What a worker's pending rows mean, and that a cancelled worker stops and leaves nothing behind. */
module WorkerShutdown {
  import opened Messages
  import Queue
  import QueueHolders
  import QueueInvariant
  import QueueTheorems
  import opened Worker
  import opened WorkerCapacity
  import opened WorkerRows

  /** The actors with a job at hand: tasks that have not recorded an outcome, and a loop about to spawn one. */
  ghost function Active(s: State): set<nat> {
    (set a | a in s.tasks && !s.tasks[a].Recorded? && !s.tasks[a].Finished?) + if s.loop.Reread? then {s.cur} else {}
  }

  /** The row an actor is at. */
  function RowOf(s: State, a: nat): nat {
    if s.q.Pc(a).Idle? || s.q.Pc(a).Closed? then 0 else s.q.Pc(a).id
  }

  /** The rows of the active actors, as far as their chats still exist. */
  ghost function ActiveRows(s: State): set<nat> {
    set a | a in Active(s) && RowOf(s, a) in s.q.rows :: RowOf(s, a)
  }

  lemma FewerRows(s: State, actors: set<nat>)
    ensures |set a | a in actors :: RowOf(s, a)| <= |actors|
  {
    if actors == {} {
    } else {
      var a :| a in actors;
      FewerRows(s, actors - {a});
      assert (set b | b in actors :: RowOf(s, b)) == (set b | b in actors - {a} :: RowOf(s, b)) + {RowOf(s, a)};
    }
  }

  lemma HoldersAreActive(s: State)
    requires Follows(s) && Placed(s)
    ensures forall a | a in s.mine :: s.q.Pc(a).Holds() <==> a in Active(s)
  {
  }

  /** The pending rows on the worker's account are being worked on, or their claimant failed. */
  lemma OwnPendingIsAccounted(s: State)
    requires Follows(s) && Placed(s) && QueueHolders.Claims(s.q) && QueueInvariant.ClaimsConserved(s.q)
    ensures OwnPending(s) <= ActiveRows(s) + Orphans(s)
  {
    HoldersAreActive(s);
    hide Follows;
    forall id | id in OwnPending(s) ensures id in ActiveRows(s) + Orphans(s) {
      var i: nat :| i < |s.q.claims| && IsOwnClaim(s, i) && Queue.IsPending(s.q, s.q.claims[i]) && s.q.claims[i] == id;
      assert QueueHolders.ClaimAccounted(s.q, i);
      var a := s.q.claimants[i];
      if a in s.q.failures {
        assert id in Orphans(s);
      } else {
        assert a in Active(s) && RowOf(s, a) == id;
      }
    }
  }

  /** An active actor's row is pending on its account, as long as it is not requeued during its job. */
  lemma ActiveRowIsPending(s: State, a: nat, id: nat)
    requires a in Active(s) && a in s.mine && RowOf(s, a) == id && id in s.q.rows && s.q.Pc(a).Holds()
    requires QueueHolders.HeldPending(s.q, id) && QueueHolders.HoldersLast(s.q, id)
    ensures id in OwnPending(s)
  {
    assert QueueHolders.WorksOn(s.q, a, id) && QueueHolders.ClaimedLast(s.q, a, id);
    var i: nat :| QueueHolders.IsLastClaim(s.q, i) && i < |s.q.claimants|
                  && s.q.claims[i] == id && s.q.claimants[i] == a;
    assert IsOwnClaim(s, i) && Queue.IsPending(s.q, s.q.claims[i]);
  }

  /** And so is an orphan. */
  lemma OrphanIsPending(s: State, id: nat)
    requires id in Orphans(s) && QueueHolders.FailedStay(s.q, id) && QueueInvariant.ClaimsConserved(s.q)
    ensures id in OwnPending(s)
  {
    var i: nat :| i < |s.q.claims| && IsOwnClaim(s, i) && s.q.claims[i] in s.q.rows
                  && s.q.claimants[i] in s.q.failures
                  && multiset(s.q.claims)[s.q.claims[i]] > s.q.resets[s.q.claims[i]] && s.q.claims[i] == id;
    assert Queue.IsPending(s.q, s.q.claims[i]);
  }

  lemma AccountedIsOwnPending(s: State, id: nat)
    requires Follows(s) && Placed(s) && QueueHolders.Held(s.q, id) && QueueInvariant.ClaimsConserved(s.q)
    requires id in ActiveRows(s) + Orphans(s)
    ensures id in OwnPending(s)
  {
    HoldersAreActive(s);
    ActiveAreMine(s);
    hide Follows, Placed, Active, RowOf, OwnPending, Orphans, QueueInvariant.ClaimsConserved;
    hide QueueHolders.HeldPending, QueueHolders.HoldersLast, QueueHolders.FailedStay;
    if id in ActiveRows(s) {
      var a :| a in Active(s) && RowOf(s, a) in s.q.rows && RowOf(s, a) == id;
      ActiveRowIsPending(s, a, id);
    } else {
      OrphanIsPending(s, id);
    }
  }

  lemma ActiveAreMine(s: State)
    requires Placed(s)
    ensures Active(s) <= s.mine
  {
  }

  /** What a run of the worker inherits from the queue. */
  lemma QueueHolds(max: nat, es: seq<Event>)
    requires IsRun(max, es)
    ensures var q := End(max, es).q; QueueHolders.Claims(q) && QueueInvariant.Inv(q)
    ensures forall id: nat | QuietFor(max, es, id) :: QueueHolders.Held(End(max, es).q, id)
  {
    QueueRun(max, es);
    QueueTheorems.InvAlways(Statements(es));
    QueueHolders.ClaimsAlways(Statements(es));
    forall id: nat | QuietFor(max, es, id) ensures QueueHolders.Held(End(max, es).q, id) {
      QueueHolders.HeldAlways(Statements(es), id);
    }
    hide QueueInvariant.Inv, QueueHolders.Claims, QueueHolders.Held;
  }

  /** The rows that are to be pending on the worker's account, given what it did. */
  ghost function Accounted(s: State): set<nat> { ActiveRows(s) + Orphans(s) }

  /**
   A pending row means "running right now": in every run, requeues at any time included, the rows pending on
   this worker's account are rows of its active tasks, of the claim about to be spawned, or orphans of actors
   that failed. A row that is not requeued during its own job is pending exactly if it is one of those; without
   requeues that is so for all. Without failures there are no orphans, and at most `max` such rows.
   */
  lemma PendingMeansRunning(max: nat, es: seq<Event>)
    requires IsRun(max, es)
    ensures var s := End(max, es);
            && (forall a | a in Active(s) :: s.q.Pc(a).Holds())
            && OwnPending(s) <= Accounted(s)
            && (forall id: nat | QuietFor(max, es, id) :: id in OwnPending(s) <==> id in Accounted(s))
            && (NoRequeue(es) ==> OwnPending(s) == Accounted(s))
            && (Clean(es) ==> Orphans(s) == {} && |OwnPending(s)| <= max)
  {
    PendingIsAccounted(max, es);
    QuietRowsAreAccounted(max, es);
    hide IsRun, End, QuietFor, NoRequeue, Clean, Active, Accounted, Orphans, OwnPending;
    if NoRequeue(es) {
      forall id: nat ensures QuietFor(max, es, id) {
        NoRequeueIsQuiet(max, es, id);
      }
    }
    if Clean(es) {
      CleanHasNoOrphans(max, es);
    }
  }

  lemma PendingIsAccounted(max: nat, es: seq<Event>)
    requires IsRun(max, es)
    ensures var s := End(max, es);
            (forall a | a in Active(s) :: s.q.Pc(a).Holds()) && OwnPending(s) <= Accounted(s)
  {
    var s := End(max, es);
    QueueHolds(max, es);
    FollowsAlways(max, es);
    ClaimsAreConserved(s.q);
    hide QuietFor, Follows, Placed, Active, OwnPending, ActiveRows, Orphans, Legal, After;
    hide QueueHolders.Claims, QueueHolders.Held, QueueInvariant.Inv, QueueInvariant.ClaimsConserved;
    HoldersAreActive(s);
    OwnPendingIsAccounted(s);
  }

  lemma QuietRowsAreAccounted(max: nat, es: seq<Event>)
    requires IsRun(max, es)
    ensures forall id: nat | QuietFor(max, es, id) && id in Accounted(End(max, es)) :: id in OwnPending(End(max, es))
  {
    var s := End(max, es);
    QueueHolds(max, es);
    FollowsAlways(max, es);
    ClaimsAreConserved(s.q);
    hide QuietFor, Follows, Placed, OwnPending, ActiveRows, Orphans;
    hide QueueHolders.Claims, QueueHolders.Held, QueueInvariant.Inv, QueueInvariant.ClaimsConserved;
    forall id: nat | QuietFor(max, es, id) && id in Accounted(s) ensures id in OwnPending(s) {
      AccountedIsOwnPending(s, id);
    }
  }

  lemma CleanHasNoOrphans(max: nat, es: seq<Event>)
    requires IsRun(max, es) && Clean(es) && OwnPending(End(max, es)) <= Accounted(End(max, es))
    ensures Orphans(End(max, es)) == {} && |OwnPending(End(max, es))| <= max
  {
    var s := End(max, es);
    UnharmedAlways(max, es);
    UnharmedHasNoOrphans(s);
    Capacity(max, es);
    FewActive(s);
    hide Clean, Unharmed, OwnPending, Orphans, ActiveRows;
    Cardinality(OwnPending(s), ActiveRows(s));
  }

  lemma ClaimsAreConserved(q: Queue.State)
    requires QueueInvariant.Inv(q)
    ensures QueueInvariant.ClaimsConserved(q)
  {
  }

  lemma UnharmedHasNoOrphans(s: State)
    requires Unharmed(s)
    ensures Orphans(s) == {}
  {
  }

  lemma FewActive(s: State)
    requires Permits(s)
    ensures |ActiveRows(s)| <= s.max
  {
    var live := set a | a in Active(s) && RowOf(s, a) in s.q.rows;
    FewerRows(s, live);
    assert ActiveRows(s) == set a | a in live :: RowOf(s, a);
    var extra := if s.loop.Reread? then {s.cur} else {};
    Cardinality(live, s.Unfinished() + extra);
    assert s.Unfinished() !! extra;
  }

  lemma Cardinality(a: set<nat>, b: set<nat>)
    requires a <= b
    ensures |a| <= |b|
  {
    assert b == a + (b - a);
  }

  lemma {:induction false} StoppedIsEmpty(max: nat, es: seq<Event>)
    requires IsRun(max, es) && End(max, es).loop.Stopped?
    ensures End(max, es).tasks == map[]
    decreases |es|
  {
    hide Queue.Apply, Queue.Enabled;
    if es == [] {
    } else {
      if End(max, es[..|es| - 1]).loop.Stopped? {
        StoppedIsEmpty(max, es[..|es| - 1]);
      }
    }
  }

  /**
   When `run` returns, every permit is back and no task is left. The rows still pending on the worker's account
   are orphans of actors that failed, exactly those among the rows that were not requeued during their own jobs, and
   the workspaces that remain are exactly those left behind. After a run without failures there are neither, whatever
   was requeued.
   */
  lemma StoppedIsClean(max: nat, es: seq<Event>)
    requires IsRun(max, es) && End(max, es).loop.Stopped?
    ensures var s := End(max, es);
            && s.free == max && s.tasks == map[]
            && OwnPending(s) <= Orphans(s) && (NoRequeue(es) ==> OwnPending(s) == Orphans(s))
            && (forall id: nat | QuietFor(max, es, id) :: id in OwnPending(s) <==> id in Orphans(s))
            && s.dirs == s.leftovers
            && (Clean(es) ==> OwnPending(s) == {} && s.dirs == {})
  {
    var s := End(max, es);
    StoppedIsEmpty(max, es);
    Capacity(max, es);
    assert s.Unfinished() == {};
    FollowsAlways(max, es);
    PendingMeansRunning(max, es);
    assert Active(s) == {} && ActiveRows(s) == {};
    if Clean(es) {
      UnharmedAlways(max, es);
    }
    hide OwnPending, Orphans, QuietFor, NoRequeue;
  }

  // ---- what failures and the cancellation can leave behind ----

  lemma Step(max: nat, es: seq<Event>, e: Event)
    requires IsRun(max, es) && Enabled(End(max, es), e)
    ensures IsRun(max, es + [e]) && End(max, es + [e]) == Apply(End(max, es), e)
  {
    hide Apply, Enabled;
    assert (es + [e])[..|es + [e]| - 1] == es;
  }

  /** The start of a run: a job arrives, the token is cancelled, and the loop still claims the job. */
  function ClaimingRun(row: Row): seq<Event> {
    [Outside(Queue.Insert(1, row))] + [Cancel] + [Reap] + [AcquirePermit(0)] + [Statement(Queue.Select(0))]
    + [Statement(Queue.TryClaim(0))]
  }

  lemma CancelledAtTop(max: nat, row: Row)
    requires row.IsClaimable()
    ensures var es := [Outside(Queue.Insert(1, row))] + [Cancel];
            && IsRun(max, es)
            && End(max, es) == Start(max).(q := End(max, es).q, shutdown := true)
            && End(max, es).q.rows == map[1 := row] && End(max, es).q.actors == map[]
  {
    var insert := Outside(Queue.Insert(1, row));
    assert [] + [insert] == [insert];
    Step(max, [], insert);
    assert End(max, [insert]) == Start(max).(q := End(max, [insert]).q);
    assert End(max, [insert]).q.rows == map[1 := row] && End(max, [insert]).q.actors == map[];
    hide Legal, After, Queue.Apply, Queue.Enabled;
    Step(max, [insert], Cancel);
  }

  lemma CancelledMayPoll(max: nat, row: Row)
    requires max > 0 && row.IsClaimable()
    ensures var es := [Outside(Queue.Insert(1, row))] + [Cancel] + [Reap] + [AcquirePermit(0)];
            && IsRun(max, es) && End(max, es).shutdown && End(max, es).loop == Poll(0) && End(max, es).cur == 0
            && End(max, es).tasks == map[] && End(max, es).q.rows == map[1 := row] && End(max, es).q.actors == map[]
  {
    CancelledAtTop(max, row);
    hide Legal, After, Queue.Apply, Queue.Enabled;
    var es := [Outside(Queue.Insert(1, row))] + [Cancel];
    Step(max, es, Reap);
    assert End(max, es + [Reap]).tasks == map[];
    Step(max, es + [Reap], AcquirePermit(0));
  }

  /** The cancellation does not keep the loop from claiming: `select!` may choose the free slot. */
  lemma CancelledMayClaim(max: nat, row: Row)
    requires max > 0 && row.IsClaimable()
    ensures IsRun(max, ClaimingRun(row))
    ensures var s := End(max, ClaimingRun(row));
            && s.shutdown && s.loop.Reread? && s.cur == 0 && s.q.Pc(0) == Queue.Claimed(1) && s.tasks == map[]
            && s.q.rows == map[1 := row.(status := Pending)]
  {
    CancelledMayPoll(max, row);
    var es := [Outside(Queue.Insert(1, row))] + [Cancel] + [Reap] + [AcquirePermit(0)];
    assert ClaimableIds(map[1 := row]) == {1};
    Step(max, es, Statement(Queue.Select(0)));
    es := es + [Statement(Queue.Select(0))];
    Step(max, es, Statement(Queue.TryClaim(0)));
  }

  lemma ClaimingHasNoRequeue(row: Row)
    ensures NoRequeue(ClaimingRun(row))
  {
  }

  /** A failed re-read after the claim leaves an orphan: the worker stops, and the row is pending. */
  lemma FailureLeavesOrphan(max: nat, row: Row)
    requires max > 0 && row.IsClaimable()
    ensures var es := ClaimingRun(row) + [Statement(Queue.GetFails(0))] + [SeeCancel] + [Stop];
            && IsRun(max, es) && NoRequeue(es)
            && End(max, es).loop.Stopped? && End(max, es).q.rows == map[1 := row.(status := Pending)]
  {
    hide ClaimingRun;
    CancelledMayClaim(max, row);
    var es := ClaimingRun(row);
    assert Outside(Queue.Requeue) !in es by { ClaimingHasNoRequeue(row); }
    Step(max, es, Statement(Queue.GetFails(0)));
    es := es + [Statement(Queue.GetFails(0))];
    Step(max, es, SeeCancel);
    es := es + [SeeCancel];
    Step(max, es, Stop);
  }
}
