/** Who is working on which row, and what leaves a row pending with nobody at work on it. */
module QueueHolders {
  import opened Wrappers
  import opened Queue
  import opened QueueInvariant
  import opened QueueTheorems

  /** Actor `a` has claimed row `id` and has not recorded its outcome. */
  predicate WorksOn(s: State, a: nat, id: nat) { s.Pc(a).Holds() && s.Pc(a).id == id }

  /** The `i`th claim is the last one of its row. */
  ghost predicate IsLastClaim(s: State, i: nat) {
    i < |s.claims| && forall j | i < j < |s.claims| :: s.claims[j] != s.claims[i]
  }

  lemma LastClaimIsUnique(s: State, i: nat, j: nat)
    requires IsLastClaim(s, i) && IsLastClaim(s, j) && s.claims[i] == s.claims[j]
    ensures i == j
  {
  }

  lemma {:induction false} LastClaimExists(claims: seq<nat>, id: nat) returns (i: nat)
    requires id in claims
    ensures i < |claims| && claims[i] == id && forall j | i < j < |claims| :: claims[j] != id
    decreases |claims|
  {
    var n := |claims| - 1;
    if claims[n] == id {
      i := n;
    } else {
      i := LastClaimExists(claims[..n], id);
    }
  }

  // ---- in every run ----

  /** A pending row is being worked on by its last claimant, unless that one failed. */
  ghost predicate ClaimAccounted(s: State, i: nat)
    requires i < |s.claims| == |s.claimants|
  {
    IsLastClaim(s, i) && IsPending(s, s.claims[i]) ==>
      WorksOn(s, s.claimants[i], s.claims[i]) || s.claimants[i] in s.failures
  }

  ghost predicate ClaimsAccounted(s: State) {
    |s.claims| == |s.claimants| && forall i: nat | i < |s.claims| :: ClaimAccounted(s, i)
  }

  /** An actor claims one row and never polls again. */
  ghost predicate ClaimantsOnce(s: State) {
    && |s.claims| == |s.claimants|
    && NoDuplicates(s.claimants)
    && forall a | a in s.claimants :: s.Pc(a).Holds() || s.Pc(a).Closed?
  }

  /** A claimant at work works on the row it claimed. */
  ghost predicate ClaimantsAtWork(s: State) {
    && |s.claims| == |s.claimants|
    && forall i | 0 <= i < |s.claims| && s.Pc(s.claimants[i]).Holds() :: s.Pc(s.claimants[i]).id == s.claims[i]
  }

  ghost predicate FailuresClosed(s: State) { forall a | a in s.failures :: s.Pc(a).Closed? }

  ghost predicate Claims(s: State) {
    ClaimsAccounted(s) && ClaimantsOnce(s) && ClaimantsAtWork(s) && FailuresClosed(s)
  }

  lemma ClaimsGrow(s: State, e: Event)
    requires Enabled(s, e) && |s.claims| == |s.claimants|
    ensures var t := Apply(s, e);
            (t.claims == s.claims && t.claimants == s.claimants) ||
            (ActorOf(e).Some? && s.Pc(e.actor).Selected? && CanClaim(s, s.Pc(e.actor).id)
             && t.claims == s.claims + [s.Pc(e.actor).id] && t.claimants == s.claimants + [e.actor]
             && IsPending(t, s.Pc(e.actor).id)
             && (t.Pc(e.actor) == Claimed(s.Pc(e.actor).id) || (t.Pc(e.actor).Closed? && e.actor in t.failures)))
    ensures s.failures <= Apply(s, e).failures
  {
  }

  /** Only a claim makes a row pending. */
  lemma PendingBefore(s: State, e: Event, id: nat)
    requires Enabled(s, e) && IsPending(Apply(s, e), id) && id in s.original && Apply(s, e).claims == s.claims
    requires IdsKnown(s) && ReplyIdsFresh(s) && LocksHold(s)
    ensures IsPending(s, id)
  {
  }

  /** Whoever works on a pending row goes on doing so, settles the row, or fails. */
  lemma WorkGoesOn(s: State, e: Event, a: nat, id: nat)
    requires Enabled(s, e) && WorksOn(s, a, id) && IsPending(s, id) && id in s.original
    requires OnlyJobsMove(s) && ReplyIdsFresh(s) && LocksHold(s)
    ensures WorksOn(Apply(s, e), a, id) || !IsPending(Apply(s, e), id) || a in Apply(s, e).failures
  {
    OthersStay(s, e);
  }

  lemma OldClaimAccounted(s: State, e: Event, i: nat)
    requires Enabled(s, e) && IdsKnown(s) && ReplyIdsFresh(s) && LocksHold(s) && OnlyJobsMove(s)
    requires i < |s.claims| == |s.claimants| && ClaimAccounted(s, i)
    ensures |Apply(s, e).claims| == |Apply(s, e).claimants| >= |s.claims| && ClaimAccounted(Apply(s, e), i)
  {
    hide Enabled, Apply, IdsKnown, ReplyIdsFresh, LocksHold, OnlyJobsMove, CanClaim;
    ClaimsGrow(s, e);
    var t, id, a := Apply(s, e), s.claims[i], s.claimants[i];
    assert t.claims[i] == id && t.claimants[i] == a;
    if IsLastClaim(t, i) && IsPending(t, id) {
      assert IsLastClaim(s, i) by {
        assert forall j | i < j < |s.claims| :: t.claims[j] == s.claims[j];
      }
      StillPending(s, e, i);
      if WorksOn(s, a, id) {
        WorkGoesOn(s, e, a, id);
      }
    }
  }

  lemma StillPending(s: State, e: Event, i: nat)
    requires Enabled(s, e) && IdsKnown(s) && ReplyIdsFresh(s) && LocksHold(s) && i < |s.claims| == |s.claimants|
    requires IsLastClaim(Apply(s, e), i) && IsPending(Apply(s, e), s.claims[i])
    ensures s.claims[i] in s.original && IsPending(s, s.claims[i])
  {
    ClaimsGrow(s, e);
    var t, id := Apply(s, e), s.claims[i];
    assert id in s.claims;
    if t.claims == s.claims {
      PendingBefore(s, e, id);
    } else {
      assert t.claims[i] == id && t.claims[|s.claims|] == s.Pc(e.actor).id != id;
      assert e.TryClaim? || e.TryClaimFails?;
    }
  }

  lemma ClaimsAccountedKept(s: State, e: Event)
    requires Enabled(s, e) && ClaimsAccounted(s) && Inv(s)
    ensures ClaimsAccounted(Apply(s, e))
  {
    hide Enabled, Apply, ClaimAccounted, IdsKnown, ReplyIdsFresh, LocksHold, LocksExclude, OnlyJobsMove;
    ClaimsGrow(s, e);
    var t := Apply(s, e);
    forall i: nat | i < |t.claims| ensures |t.claims| == |t.claimants| && ClaimAccounted(t, i) {
      if i < |s.claims| {
        OldClaimAccounted(s, e, i);
      } else {
        NewClaimAccounted(s, e);
      }
    }
  }

  lemma NewClaimAccounted(s: State, e: Event)
    requires Enabled(s, e) && |s.claims| == |s.claimants| < |Apply(s, e).claims|
    ensures |Apply(s, e).claims| == |Apply(s, e).claimants| == |s.claims| + 1
    ensures ClaimAccounted(Apply(s, e), |s.claims|)
  {
    hide Enabled, Apply;
    ClaimsGrow(s, e);
  }

  lemma ClaimantsOnceKept(s: State, e: Event)
    requires Enabled(s, e) && ClaimantsOnce(s)
    ensures ClaimantsOnce(Apply(s, e))
  {
    ClaimsGrow(s, e);
    OthersStay(s, e);
    ClaimantsStayDone(s, e);
    hide Enabled, Apply;
    var t := Apply(s, e);
    if t.claimants != s.claimants {
      assert e.actor !in s.claimants;
      assert forall i | 0 <= i < |s.claimants| :: t.claimants[i] == s.claimants[i] && s.claimants[i] in s.claimants;
    }
  }

  lemma ClaimantsStayDone(s: State, e: Event)
    requires Enabled(s, e)
    ensures forall a: nat | s.Pc(a).Holds() || s.Pc(a).Closed? :: Apply(s, e).Pc(a).Holds() || Apply(s, e).Pc(a).Closed?
  {
    OthersStay(s, e);
  }

  /** Who starts to work on a row has just claimed it; nobody changes the row. */
  lemma HoldersKeepRow(s: State, e: Event, a: nat)
    requires Enabled(s, e) && Apply(s, e).Pc(a).Holds()
    ensures if s.Pc(a).Holds() then Apply(s, e).Pc(a).id == s.Pc(a).id
            else s.Pc(a).Selected? && ActorOf(e) == Some(a) && Apply(s, e).claims != s.claims
                 && Apply(s, e).Pc(a).id == s.Pc(a).id
  {
    OthersStay(s, e);
  }

  lemma ClaimantsAtWorkKept(s: State, e: Event)
    requires Enabled(s, e) && ClaimantsAtWork(s) && ClaimantsOnce(s)
    ensures ClaimantsAtWork(Apply(s, e))
  {
    hide Enabled, Apply, CanClaim;
    ClaimsGrow(s, e);
    var t := Apply(s, e);
    forall i | 0 <= i < |t.claims| && t.Pc(t.claimants[i]).Holds() ensures t.Pc(t.claimants[i]).id == t.claims[i] {
      HoldersKeepRow(s, e, t.claimants[i]);
      if i < |s.claims| {
        assert t.claimants[i] == s.claimants[i] && s.claimants[i] in s.claimants;
      }
    }
  }

  lemma FailuresClosedKept(s: State, e: Event)
    requires Enabled(s, e) && FailuresClosed(s)
    ensures FailuresClosed(Apply(s, e))
  {
    OthersStay(s, e);
  }

  /** In every run, requeues at any time included, a pending row has its last claimant at work on it or failed. */
  lemma {:induction false} ClaimsAlways(es: seq<Event>)
    requires IsRun(es)
    ensures Claims(End(es))
    decreases |es|
  {
    if es == [] {
    } else {
      var before, e := End(es[..|es| - 1]), es[|es| - 1];
      ClaimsAlways(es[..|es| - 1]);
      InvAlways(es[..|es| - 1]);
      hide Inv, Enabled, Apply, ClaimsAccounted, ClaimantsOnce, ClaimantsAtWork, FailuresClosed;
      ClaimsAccountedKept(before, e);
      ClaimantsOnceKept(before, e);
      ClaimantsAtWorkKept(before, e);
      FailuresClosedKept(before, e);
    }
  }

  /** In every run a live row is pending exactly when its last claim was neither reset nor followed by an outcome. */
  lemma PendingIffClaimOpen(es: seq<Event>, id: nat)
    requires IsRun(es) && id in End(es).rows
    ensures IsPending(End(es), id)
       <==> multiset(End(es).claims)[id] > End(es).resets[id] && id !in End(es).outcomes
  {
    InvAlways(es);
  }

  // ---- a row that is not requeued while somebody works on it ----

  /** Whenever there is a requeue, nobody works on row `id`. */
  ghost predicate QuietFor(es: seq<Event>, id: nat)
    requires IsRun(es)
    decreases |es|
  {
    es == [] ||
    var before, e := es[..|es| - 1], es[|es| - 1];
    QuietFor(before, id) && (e.Requeue? ==> forall a: nat :: !WorksOn(End(before), a, id))
  }

  /** Nobody works on any row then, as when a single worker starts. */
  ghost predicate QuietRequeues(es: seq<Event>)
    requires IsRun(es)
  {
    forall id: nat :: QuietFor(es, id)
  }

  lemma {:induction false} NoRequeueIsQuiet(es: seq<Event>, id: nat)
    requires IsRun(es) && NoRequeue(es)
    ensures QuietFor(es, id)
    decreases |es|
  {
    if es == [] {
    } else {
      hide Enabled, Apply;
      NoRequeueIsQuiet(es[..|es| - 1], id);
      assert es[|es| - 1] in es;
    }
  }

  /** While it is being worked on the row is pending, unless its chat was deleted. */
  ghost predicate HeldPending(s: State, id: nat) {
    (exists a: nat :: WorksOn(s, a, id)) && id in s.rows ==> s.rows[id].status.Pending?
  }

  /** Actor `a` made the last claim of row `id`. */
  ghost predicate ClaimedLast(s: State, a: nat, id: nat) {
    exists i: nat :: IsLastClaim(s, i) && i < |s.claimants| && s.claims[i] == id && s.claimants[i] == a
  }

  ghost predicate HoldersLast(s: State, id: nat) { forall a: nat | WorksOn(s, a, id) :: ClaimedLast(s, a, id) }

  /** When its last claimant failed, the row is pending, unless it was reset. */
  ghost predicate FailedStay(s: State, id: nat) {
    && |s.claims| == |s.claimants|
    && forall i: nat | IsLastClaim(s, i) && s.claims[i] == id && s.claimants[i] in s.failures && id in s.rows ::
         s.rows[id].status.Unclaimed? || s.rows[id].status.Pending?
  }

  ghost predicate Held(s: State, id: nat) { HeldPending(s, id) && HoldersLast(s, id) && FailedStay(s, id) }

  /** No two actors work on the row. */
  ghost predicate OneHolder(s: State, id: nat) {
    forall a: nat, b: nat | WorksOn(s, a, id) && WorksOn(s, b, id) :: a == b
  }

  lemma LastIsOne(s: State, id: nat)
    requires HoldersLast(s, id)
    ensures OneHolder(s, id)
  {
    forall a: nat, b: nat | WorksOn(s, a, id) && WorksOn(s, b, id) ensures a == b {
      assert ClaimedLast(s, a, id) && ClaimedLast(s, b, id);
      var i: nat :| IsLastClaim(s, i) && i < |s.claimants| && s.claims[i] == id && s.claimants[i] == a;
      var j: nat :| IsLastClaim(s, j) && j < |s.claimants| && s.claims[j] == id && s.claimants[j] == b;
      LastClaimIsUnique(s, i, j);
    }
  }

  /** A row that is pending and being worked on by `a` stays so, or `a` settles it, when nobody else works on it. */
  lemma HeldRowStays(s: State, e: Event, a: nat, id: nat)
    requires Enabled(s, e) && !e.Requeue? && IdsKnown(s) && ReplyIdsFresh(s)
    requires WorksOn(s, a, id) && OneHolder(s, id) && (id in s.rows ==> s.rows[id].status.Pending?)
    requires WorksOn(Apply(s, e), a, id) && id in Apply(s, e).rows
    ensures Apply(s, e).rows[id].status.Pending?
  {
    OthersStay(s, e);
    assert ActorOf(e).Some? && e.actor != a ==> !WorksOn(s, e.actor, id);
  }

  lemma HeldPendingKept(s: State, e: Event, id: nat)
    requires Enabled(s, e) && !e.Requeue? && HeldPending(s, id) && HoldersLast(s, id) && |s.claims| == |s.claimants|
    requires IdsKnown(s) && ReplyIdsFresh(s)
    ensures HeldPending(Apply(s, e), id)
  {
    hide Enabled, Apply, IdsKnown, ReplyIdsFresh, HoldersLast, CanClaim;
    var t := Apply(s, e);
    if a: nat :| WorksOn(t, a, id) && id in t.rows {
      HoldersKeepRow(s, e, a);
      if s.Pc(a).Holds() {
        LastIsOne(s, id);
        assert WorksOn(s, a, id);
        HeldRowStays(s, e, a, id);
      } else {
        ClaimsGrow(s, e);
      }
    }
  }

  lemma OldClaimStaysLast(s: State, e: Event, i: nat)
    requires Enabled(s, e) && IsLastClaim(s, i) && |s.claims| == |s.claimants|
    requires s.claims[i] in s.rows ==> !s.rows[s.claims[i]].status.Unclaimed?
    ensures IsLastClaim(Apply(s, e), i) && i < |Apply(s, e).claimants|
    ensures Apply(s, e).claims[i] == s.claims[i] && Apply(s, e).claimants[i] == s.claimants[i]
  {
    hide Enabled, Apply;
    ClaimsGrow(s, e);
  }

  lemma ClaimedLastKept(s: State, e: Event, a: nat, id: nat)
    requires Enabled(s, e) && HeldPending(s, id) && HoldersLast(s, id) && |s.claims| == |s.claimants|
    requires WorksOn(Apply(s, e), a, id)
    ensures ClaimedLast(Apply(s, e), a, id)
  {
    hide Enabled, Apply, CanClaim;
    var t := Apply(s, e);
    HoldersKeepRow(s, e, a);
    if s.Pc(a).Holds() {
      assert WorksOn(s, a, id) && ClaimedLast(s, a, id);
      var i: nat :| IsLastClaim(s, i) && i < |s.claimants| && s.claims[i] == id && s.claimants[i] == a;
      OldClaimStaysLast(s, e, i);
      assert t.claims[i] == id && t.claimants[i] == a;
    } else {
      ClaimsGrow(s, e);
      var n := |s.claims|;
      assert IsLastClaim(t, n) && t.claims[n] == id && t.claimants[n] == a;
    }
  }

  /** Only somebody at work on a row settles it. */
  lemma NobodySettles(s: State, e: Event, id: nat)
    requires Enabled(s, e) && IdsKnown(s) && ReplyIdsFresh(s) && LocksHold(s) && id in s.original
    requires id in s.rows ==> !s.rows[id].status.IsTerminal()
    requires forall b: nat :: !WorksOn(s, b, id)
    ensures id in Apply(s, e).rows ==> !Apply(s, e).rows[id].status.IsTerminal()
  {
    if ActorOf(e).Some? {
      assert !WorksOn(s, e.actor, id);
    }
  }

  /** Nobody else works on a row whose last claimant failed. */
  lemma NobodyWorks(s: State, i: nat)
    requires i < |s.claims| && HoldersLast(s, s.claims[i]) && FailuresClosed(s) && |s.claims| == |s.claimants|
    requires IsLastClaim(s, i) && s.claimants[i] in s.failures
    ensures forall b: nat :: !WorksOn(s, b, s.claims[i])
  {
    forall b: nat ensures !WorksOn(s, b, s.claims[i]) {
      if WorksOn(s, b, s.claims[i]) {
        assert ClaimedLast(s, b, s.claims[i]);
        var j: nat :| IsLastClaim(s, j) && j < |s.claimants| && s.claims[j] == s.claims[i] && s.claimants[j] == b;
        LastClaimIsUnique(s, i, j);
        assert false;
      }
    }
  }

  /** Who fails while working was working on a row. */
  lemma FailedWhileWorking(s: State, e: Event, a: nat)
    requires Enabled(s, e) && a in Apply(s, e).failures && a !in s.failures
    ensures ActorOf(e) == Some(a)
    ensures Apply(s, e).claims == s.claims ==> s.Pc(a).Holds() && Apply(s, e).rows == s.rows
  {
  }

  lemma FailedClaimStays(s: State, e: Event, i: nat)
    requires Enabled(s, e) && Claims(s) && IdsKnown(s) && ReplyIdsFresh(s) && LocksHold(s)
    requires i < |s.claims| && Held(s, s.claims[i]) && IsLastClaim(Apply(s, e), i)
    requires Apply(s, e).claims[i] == s.claims[i] && Apply(s, e).claimants[i] == s.claimants[i]
    requires s.claimants[i] in Apply(s, e).failures && s.claims[i] in Apply(s, e).rows
    ensures !Apply(s, e).rows[s.claims[i]].status.IsTerminal()
  {
    hide Enabled, Apply, ClaimsAccounted;
    var t, id, a := Apply(s, e), s.claims[i], s.claimants[i];
    ClaimsGrow(s, e);
    assert id in s.claims && a in s.claimants;
    assert IsLastClaim(s, i) by {
      assert forall j | i < j < |s.claims| :: t.claims[j] == s.claims[j];
    }
    if a in s.failures {
      NobodyWorks(s, i);
      NobodySettles(s, e, id);
    } else {
      FailedHeldPending(s, e, i);
    }
  }

  /** An actor that fails at work leaves its row pending. */
  lemma FailedHeldPending(s: State, e: Event, i: nat)
    requires Enabled(s, e) && ClaimantsOnce(s) && ClaimantsAtWork(s) && i < |s.claims| && HeldPending(s, s.claims[i])
    requires s.claimants[i] !in s.failures && s.claimants[i] in Apply(s, e).failures
    requires s.claims[i] in Apply(s, e).rows
    ensures !Apply(s, e).rows[s.claims[i]].status.IsTerminal()
  {
    hide Enabled, Apply;
    var a := s.claimants[i];
    ClaimsGrow(s, e);
    FailedWhileWorking(s, e, a);
    assert a in s.claimants;
    assert WorksOn(s, a, s.claims[i]);
  }

  lemma FailedStayKept(s: State, e: Event, id: nat)
    requires Enabled(s, e) && Held(s, id) && Claims(s) && IdsKnown(s) && ReplyIdsFresh(s) && LocksHold(s)
    ensures FailedStay(Apply(s, e), id)
  {
    hide Enabled, Apply, Held, Claims, IdsKnown, ReplyIdsFresh, LocksHold, CanClaim;
    var t := Apply(s, e);
    assert |s.claims| == |s.claimants| by { LengthsAgree(s); }
    ClaimsGrow(s, e);
    forall i: nat | IsLastClaim(t, i) && t.claims[i] == id && t.claimants[i] in t.failures && id in t.rows
      ensures t.rows[id].status.Unclaimed? || t.rows[id].status.Pending?
    {
      if i < |s.claims| {
        FailedClaimStays(s, e, i);
      }
    }
  }

  lemma LengthsAgree(s: State)
    requires Claims(s)
    ensures |s.claims| == |s.claimants|
  {
  }

  /** A requeue while nobody works on the row keeps it all: the row is not pending afterwards. */
  lemma QuietRequeueKeeps(s: State, id: nat)
    requires Enabled(s, Requeue) && Held(s, id) && forall a: nat :: !WorksOn(s, a, id)
    ensures Held(Apply(s, Requeue), id)
  {
    OthersStay(s, Requeue);
    var t := Apply(s, Requeue);
    forall a: nat ensures !WorksOn(t, a, id) {
      assert !WorksOn(s, a, id);
    }
    assert forall i: nat :: IsLastClaim(t, i) <==> IsLastClaim(s, i);
  }

  lemma HeldKept(s: State, e: Event, id: nat)
    requires Enabled(s, e) && !e.Requeue? && Held(s, id) && Claims(s)
    requires IdsKnown(s) && ReplyIdsFresh(s) && LocksHold(s)
    ensures Held(Apply(s, e), id)
  {
    LengthsAgree(s);
    HeldPendingKept(s, e, id);
    FailedStayKept(s, e, id);
    forall a: nat | WorksOn(Apply(s, e), a, id) ensures ClaimedLast(Apply(s, e), a, id) {
      ClaimedLastKept(s, e, a, id);
    }
    hide Enabled, Apply, HeldPending, FailedStay, IdsKnown, ReplyIdsFresh, LocksHold, Claims, ClaimedLast;
  }

  /**
   As long as a row is not requeued during its own job, whatever happens to others, its last claimant alone works on
   it, it is pending meanwhile, and it stays pending when that one fails.
   */
  lemma {:induction false} HeldAlways(es: seq<Event>, id: nat)
    requires IsRun(es) && QuietFor(es, id)
    ensures Held(End(es), id) && OneHolder(End(es), id)
    decreases |es|
  {
    if es == [] {
    } else {
      var before, e := End(es[..|es| - 1]), es[|es| - 1];
      assert Enabled(before, e) && End(es) == Apply(before, e);
      HeldAlways(es[..|es| - 1], id);
      InvAlways(es[..|es| - 1]);
      ClaimsAlways(es[..|es| - 1]);
      hide Enabled, Apply, Claims, IdsKnown, ReplyIdsFresh, LocksHold, LocksExclude, RowsFit, HeldPending, FailedStay;
      hide HoldersLast, Legal, After;
      if e.Requeue? {
        QuietRequeueKeeps(before, id);
      } else {
        HeldKept(before, e, id);
      }
      LastIsOne(End(es), id);
    }
  }

  /** The same for all rows when requeues happen only while nobody works. */
  lemma HoldersAlways(es: seq<Event>)
    requires IsRun(es) && QuietRequeues(es)
    ensures forall id: nat :: Held(End(es), id) && OneHolder(End(es), id)
  {
    forall id: nat ensures Held(End(es), id) && OneHolder(End(es), id) {
      HeldAlways(es, id);
    }
    hide *;
  }

  /** The last claim of row `id` was not reset, and its claimant failed. */
  ghost predicate LeftBehind(s: State, id: nat) {
    && |s.claims| == |s.claimants| && multiset(s.claims)[id] > s.resets[id]
    && exists i: nat :: IsLastClaim(s, i) && s.claims[i] == id && s.claimants[i] in s.failures
  }

  /**
   Unless it was requeued during its own job, a live row is pending exactly when some actor works on it or
   the last claimant failed since the last reset.
   */
  lemma PendingIffHeldOrLeft(es: seq<Event>, id: nat)
    requires IsRun(es) && QuietFor(es, id) && id in End(es).rows
    ensures IsPending(End(es), id) <==> (exists a: nat :: WorksOn(End(es), a, id)) || LeftBehind(End(es), id)
  {
    HeldAlways(es, id);
    ClaimsAlways(es);
    InvAlways(es);
    var s := End(es);
    hide Inv, ClaimantsOnce, ClaimantsAtWork, FailuresClosed, HoldersLast, OneHolder, QuietFor;
    assert ClaimsConserved(s) by { ClaimsCount(s); }
    if IsPending(s, id) {
      assert id in multiset(s.claims) && id in s.claims;
      var i := LastClaimExists(s.claims, id);
      assert IsLastClaim(s, i) && ClaimAccounted(s, i);
      if s.claimants[i] in s.failures {
        assert LeftBehind(s, id);
      } else {
        assert WorksOn(s, s.claimants[i], id);
      }
    }
  }

  lemma ClaimsCount(s: State)
    requires Inv(s)
    ensures ClaimsConserved(s)
  {
  }

  /** Without requeues: some actor works on it, or the claimant of a claim of it failed. */
  lemma PendingIffHeldOrFailed(es: seq<Event>, id: nat)
    requires IsRun(es) && NoRequeue(es) && id in End(es).rows
    ensures |End(es).claims| == |End(es).claimants|
    ensures IsPending(End(es), id) <==>
            || (exists a: nat :: WorksOn(End(es), a, id))
            || (exists i: nat :: i < |End(es).claims| && End(es).claims[i] == id
                                 && End(es).claimants[i] in End(es).failures)
  {
    var s := End(es);
    NoRequeueIsQuiet(es, id);
    PendingIffHeldOrLeft(es, id);
    ClaimsAlways(es);
    NothingReset(es);
    ClaimedAtMostOnce(es);
    hide ClaimsAccounted, ClaimantsOnce, ClaimantsAtWork, FailuresClosed, QuietFor, NoRequeue;
    if i: nat :| i < |s.claims| && s.claims[i] == id && s.claimants[i] in s.failures {
      assert IsLastClaim(s, i);
      assert s.claims[i] in multiset(s.claims);
      assert LeftBehind(s, id);
    }
  }
}
