/** What holds in every run of the job queue that starts from the empty table. */
module QueueTheorems {
  import opened Wrappers
  import opened Messages
  import opened Queue
  import opened QueueInvariant

  ghost predicate IsRun(es: seq<Event>) { Legal(Initial, es) }

  ghost function End(es: seq<Event>): State
    requires IsRun(es)
  {
    After(Initial, es)
  }

  lemma {:induction false} InvAlways(es: seq<Event>)
    requires IsRun(es)
    ensures Inv(End(es))
    decreases |es|
  {
    if es == [] {
      hide Inv;
      EmptyTable();
    } else {
      InvAlways(es[..|es| - 1]);
      InvKept(End(es[..|es| - 1]), es[|es| - 1]);
    }
  }

  lemma EmptyTable()
    ensures Inv(Initial)
  {
  }

  lemma {:induction false} Extend(es: seq<Event>, e: Event)
    requires IsRun(es + [e])
    ensures IsRun(es) && Enabled(End(es), e) && End(es + [e]) == Apply(End(es), e)
  {
    assert (es + [e])[..|es + [e]| - 1] == es;
  }

  // ---- one outcome per job, and how a success is linked to its reply ----

  ghost function RepliesTo(s: State, job: nat): set<nat> {
    set r | r in s.replies && r in s.rows && IdAt(s.rows[r], "in_reply_to") == Some(job)
  }

  /** A job is `done` exactly when exactly one reply names it, and then they share the chat and name each other. */
  lemma DoneIffOneReply(es: seq<Event>, job: nat)
    requires IsRun(es) && job in End(es).rows
    ensures End(es).rows[job].status.Done? <==> |RepliesTo(End(es), job)| == 1
    ensures End(es).rows[job].status.Done? ==>
              exists reply: nat :: RepliesTo(End(es), job) == {reply} && Answers(End(es), job, reply)
    ensures !End(es).rows[job].status.Done? ==> RepliesTo(End(es), job) == {}
  {
    InvAlways(es);
    var s := End(es);
    if s.rows[job].status.Done? {
      var reply := IdAt(s.rows[job], "reply_id").value;
      assert Answers(s, job, reply);
      forall r | r in RepliesTo(s, job) ensures r == reply {
        assert Answers(s, job, r);
      }
      assert RepliesTo(s, job) == {reply};
    }
  }

  /** At most one outcome is ever recorded for a job, requeues and racing tasks included. */
  lemma OneOutcome(es: seq<Event>)
    requires IsRun(es)
    ensures NoDuplicates(End(es).outcomes)
    ensures forall id | id in End(es).rows :: End(es).rows[id].status.IsTerminal() <==> id in End(es).outcomes
  {
    InvAlways(es);
  }

  lemma TerminalKept(s: State, e: Event, id: nat)
    requires Enabled(s, e) && LocksHold(s) && ReplyIdsFresh(s) && s.rows.Keys <= s.original.Keys <= s.used
    requires id in s.rows && s.rows[id].status.IsTerminal()
    ensures id in Apply(s, e).rows ==> Apply(s, e).rows[id] == s.rows[id]
    ensures id !in Apply(s, e).rows ==> e.DeleteChat?
  {
  }

  lemma GoneKept(s: State, e: Event, id: nat)
    requires Enabled(s, e) && ReplyIdsFresh(s) && IdsKnown(s)
    requires id in s.original && id !in s.rows
    requires LocksHold(s)
    ensures id in Apply(s, e).original && id !in Apply(s, e).rows
  {
  }

  lemma {:induction false} GoneForever(es: seq<Event>, more: seq<Event>, id: nat)
    requires IsRun(es + more) && IsRun(es) && id in End(es).original && id !in End(es).rows
    ensures id in End(es + more).original && id !in End(es + more).rows
    decreases |more|
  {
    if more == [] {
      assert es + more == es;
    } else {
      var init, e := more[..|more| - 1], more[|more| - 1];
      assert es + more == es + init + [e];
      Extend(es + init, e);
      GoneForever(es, init, id);
      InvAlways(es + init);
      GoneKept(End(es + init), e, id);
    }
  }

  /** A terminal row never changes again: it stays as it is until its chat is deleted. */
  lemma {:induction false} TerminalForever(es: seq<Event>, more: seq<Event>, id: nat)
    requires IsRun(es + more) && IsRun(es)
    requires id in End(es).rows && End(es).rows[id].status.IsTerminal()
    ensures id in End(es + more).rows ==> End(es + more).rows[id] == End(es).rows[id]
    decreases |more|
  {
    if more == [] {
      assert es + more == es;
    } else {
      var init, e := more[..|more| - 1], more[|more| - 1];
      assert es + more == es + init + [e];
      Extend(es + init, e);
      TerminalForever(es, init, id);
      InvAlways(es + init);
      if id in End(es + init).rows {
        TerminalKept(End(es + init), e, id);
      } else {
        InsertedOnce(es, init, id);
        GoneKept(End(es + init), e, id);
      }
    }
  }

  lemma {:induction false} InsertedOnce(es: seq<Event>, more: seq<Event>, id: nat)
    requires IsRun(es + more) && IsRun(es) && id in End(es).rows
    ensures id in End(es + more).original
    decreases |more|
  {
    if more == [] {
      assert es + more == es;
      InvAlways(es);
    } else {
      var init, e := more[..|more| - 1], more[|more| - 1];
      assert es + more == es + init + [e];
      Extend(es + init, e);
      InsertedOnce(es, init, id);
    }
  }

  /** Every payload key the runner does not own is as the row was inserted with. */
  lemma PayloadKeysSurvive(es: seq<Event>, id: nat, key: string)
    requires IsRun(es) && id in End(es).rows
    requires key !in {"reply_id", "error", "result"}
    ensures id in End(es).original
    ensures var now, before := End(es).rows[id].payload.GetOr(map[]), End(es).original[id].GetOr(map[]);
            (key in now <==> key in before) && (key in before ==> now[key] == before[key])
  {
    InvAlways(es);
    assert PayloadFits(End(es).rows[id], End(es).original[id]);
  }

  // ---- claims ----

  /** Each live row was claimed once per requeue that reset it, plus once if it is not unclaimed now. */
  lemma ClaimsMatchRequeues(es: seq<Event>, id: nat)
    requires IsRun(es)
    ensures multiset(End(es).claims)[id] <= End(es).resets[id] + 1
    ensures id in End(es).rows ==>
              multiset(End(es).claims)[id]
              == End(es).resets[id] + if End(es).rows[id].status.Unclaimed? then 0 else 1
  {
    InvAlways(es);
  }

  predicate NoRequeue(es: seq<Event>) { Requeue !in es }

  lemma {:induction false} NothingReset(es: seq<Event>)
    requires IsRun(es) && NoRequeue(es)
    ensures End(es).resets == multiset{}
    decreases |es|
  {
    if es == [] {
    } else {
      NothingReset(es[..|es| - 1]);
    }
  }

  lemma DuplicateCountsTwice<T>(xs: seq<T>, i: nat, j: nat)
    requires i < j < |xs| && xs[i] == xs[j]
    ensures multiset(xs)[xs[i]] >= 2
  {
    assert xs == xs[..j] + [xs[j]] + xs[j + 1..];
    assert xs[i] in xs[..j];
  }

  /** Without a requeue no row is ever claimed twice, whatever order its id arrived in. */
  lemma ClaimedAtMostOnce(es: seq<Event>)
    requires IsRun(es) && NoRequeue(es)
    ensures NoDuplicates(End(es).claims)
  {
    var claims := End(es).claims;
    NothingReset(es);
    forall i, j | 0 <= i < j < |claims| ensures claims[i] != claims[j] {
      ClaimsMatchRequeues(es, claims[i]);
      if claims[i] == claims[j] {
        DuplicateCountsTwice(claims, i, j);
      }
    }
  }

  ghost predicate Increasing(xs: seq<nat>) {
    forall i, j | 0 <= i < j < |xs| :: xs[i] < xs[j]
  }

  /** Actor `a` is about to claim row `id`, and will get it unless somebody else does. */
  predicate IsCandidate(s: State, a: nat, id: nat) {
    s.Pc(a).Selected? && s.Pc(a).id == id && id in ClaimableIds(s.rows)
  }

  /** A job that appears lies above all rows claimed so far and all rows about to be claimed. */
  ghost predicate NotLate(s: State, e: Event) {
    e.Insert? && e.row.IsJob() ==>
      (forall k | k in s.claims :: k < e.id) && (forall a: nat, id: nat | IsCandidate(s, a, id) :: id < e.id)
  }

  ghost predicate NoLateJobs(es: seq<Event>)
    requires IsRun(es)
    decreases |es|
  {
    es == [] || (NoLateJobs(es[..|es| - 1]) && NotLate(End(es[..|es| - 1]), es[|es| - 1]))
  }

  ghost predicate ClaimedBelow(s: State) {
    && Increasing(s.claims)
    && forall k, id | k in s.claims && id in ClaimableIds(s.rows) :: k < id
  }

  ghost predicate CandidatesOldest(s: State) {
    forall a: nat, k: nat, id | IsCandidate(s, a, k) && id in ClaimableIds(s.rows) :: k <= id
  }

  /** Unclaimed jobs lie above everything claimed, and not below any actor's candidate. */
  ghost predicate InOrder(s: State) { ClaimedBelow(s) && CandidatesOldest(s) }

  /** Nothing but the insert of a job and a requeue makes a row claimable. */
  lemma ClaimableShrinks(s: State, e: Event)
    requires Enabled(s, e) && !e.Requeue? && LocksHold(s)
    ensures ClaimableIds(Apply(s, e).rows)
         <= ClaimableIds(s.rows) + if e.Insert? && e.row.IsJob() then {e.id} else {}
  {
  }

  lemma ClaimedBelowKept(s: State, e: Event)
    requires Enabled(s, e) && InOrder(s) && NotLate(s, e)
    requires ClaimableIds(Apply(s, e).rows)
          <= ClaimableIds(s.rows) + if e.Insert? && e.row.IsJob() then {e.id} else {}
    ensures ClaimedBelow(Apply(s, e))
  {
    var t := Apply(s, e);
    if t.claims != s.claims {
      var id := s.Pc(e.actor).id;
      assert t.claims == s.claims + [id] && IsCandidate(s, e.actor, id) && id !in ClaimableIds(t.rows);
      assert forall i | 0 <= i < |s.claims| :: s.claims[i] in s.claims && s.claims[i] < id;
      assert forall later | later in ClaimableIds(t.rows) :: id < later;
    }
  }

  lemma CandidatesOldestKept(s: State, e: Event)
    requires Enabled(s, e) && CandidatesOldest(s) && NotLate(s, e) && IdsKnown(s)
    requires ClaimableIds(Apply(s, e).rows)
          <= ClaimableIds(s.rows) + if e.Insert? && e.row.IsJob() then {e.id} else {}
    ensures CandidatesOldest(Apply(s, e))
  {
    OthersStay(s, e);
    var t := Apply(s, e);
    forall a: nat, k: nat, id | IsCandidate(t, a, k) && id in ClaimableIds(t.rows) ensures k <= id {
      if !e.Select? || e.actor != a {
        assert s.Pc(a).Selected? && s.Pc(a).id == k && k in s.original;
        assert IsCandidate(s, a, k);
      }
    }
  }

  lemma InOrderKept(s: State, e: Event)
    requires Enabled(s, e) && !e.Requeue? && InOrder(s) && NotLate(s, e) && IdsKnown(s) && LocksHold(s)
    ensures InOrder(Apply(s, e))
  {
    ClaimableShrinks(s, e);
    ClaimedBelowKept(s, e);
    CandidatesOldestKept(s, e);
    hide ClaimedBelow, CandidatesOldest;
  }

  lemma {:induction false} InOrderAlways(es: seq<Event>)
    requires IsRun(es) && NoRequeue(es) && NoLateJobs(es)
    ensures InOrder(End(es))
    decreases |es|
  {
    if es == [] {
    } else {
      InOrderAlways(es[..|es| - 1]);
      InvAlways(es[..|es| - 1]);
      hide InOrder, NotLate, Inv;
      KeepInOrder(End(es[..|es| - 1]), es[|es| - 1]);
    }
  }

  lemma KeepInOrder(s: State, e: Event)
    requires Enabled(s, e) && !e.Requeue? && InOrder(s) && NotLate(s, e) && Inv(s)
    ensures InOrder(Apply(s, e))
  {
    InOrderKept(s, e);
    hide *;
  }

  /** Rows are claimed oldest first across all actors together: the ids claimed only go up. */
  lemma ClaimsIncrease(es: seq<Event>)
    requires IsRun(es) && NoRequeue(es) && NoLateJobs(es)
    ensures Increasing(End(es).claims)
  {
    InOrderAlways(es);
  }

  lemma OneMore(es: seq<Event>, e: Event)
    requires IsRun(es) && Enabled(End(es), e)
    ensures IsRun(es + [e]) && End(es + [e]) == Apply(End(es), e)
  {
    assert (es + [e])[..|es + [e]| - 1] == es;
  }

  lemma ClaimInTwoSteps(es: seq<Event>, a: nat, id: nat)
    requires IsRun(es) && End(es).Pc(a).Idle? && Oldest(End(es).rows) == Some(id) && !End(es).Locked(id)
    ensures IsRun(es + [Select(a)] + [TryClaim(a)])
    ensures End(es + [Select(a)] + [TryClaim(a)]) == Claim(End(es), a, id).At(a, Claimed(id))
  {
    var s := End(es);
    OneMore(es, Select(a));
    var t := End(es + [Select(a)]);
    assert t == s.At(a, Selected(id));
    OthersStay(s, Select(a));
    assert !t.Locked(id);
    OneMore(es + [Select(a)], TryClaim(a));
    assert t.At(a, Claimed(id)).actors == s.At(a, Claimed(id)).actors;
  }

  /** An actor that polls claims an unclaimed job below a claimed row. */
  lemma JobBelowClaimIsOvertaken(es: seq<Event>, late: nat, claimed: nat, a: nat)
    requires IsRun(es) && late in ClaimableIds(End(es).rows) && claimed in End(es).claims && late < claimed
    requires End(es).Pc(a).Idle?
    ensures IsRun(es + [Select(a)] + [TryClaim(a)])
    ensures !Increasing(End(es + [Select(a)] + [TryClaim(a)]).claims)
  {
    InvAlways(es);
    var s := End(es);
    var id := Oldest(s.rows).value;
    assert !s.Locked(id);
    hide Inv;
    ClaimInTwoSteps(es, a, id);
    var i :| 0 <= i < |s.claims| && s.claims[i] == claimed;
    var t := End(es + [Select(a)] + [TryClaim(a)]);
    assert t.claims == s.claims + [id] && t.claims[i] == claimed && t.claims[|s.claims|] == id < claimed;
  }

  lemma CandidateIsClaimed(es: seq<Event>, a: nat, id: nat)
    requires IsRun(es) && IsCandidate(End(es), a, id)
    ensures IsRun(es + [TryClaim(a)])
    ensures End(es + [TryClaim(a)]) == Claim(End(es), a, id).At(a, Claimed(id))
  {
    InvAlways(es);
    assert !End(es).Locked(id);
    hide Inv;
    OneMore(es, TryClaim(a));
  }

  /**
   A late job is what it takes: once one has appeared, a claim or two later the claims go down. `a` is any
   actor that is not polling.
   */
  lemma LateJobIsOvertaken(es: seq<Event>, e: Event, a: nat) returns (more: seq<Event>)
    requires IsRun(es) && Enabled(End(es), e) && !NotLate(End(es), e) && End(es).Pc(a).Idle?
    ensures |more| <= 3 && forall x | x in more :: x.Select? || x.TryClaim?
    ensures IsRun(es + [e] + more) && !Increasing(End(es + [e] + more).claims)
  {
    InvAlways(es);
    var s := End(es);
    OneMore(es, e);
    var t := End(es + [e]);
    assert e.id !in s.claims && e.id !in ClaimableIds(s.rows) && e.id in ClaimableIds(t.rows);
    hide Inv, Enabled, Apply;
    if k :| k in s.claims && e.id < k {
      JobBelowClaimIsOvertaken(es + [e], e.id, k, a);
      more := [Select(a), TryClaim(a)];
      assert es + [e] + more == es + [e] + [Select(a)] + [TryClaim(a)];
    } else {
      var b: nat, id: nat :| IsCandidate(s, b, id) && e.id < id;
      InsertKeepsCandidate(s, e, b, id);
      JobBelowCandidateIsOvertaken(es + [e], e.id, b, id, a);
      more := [TryClaim(b), Select(a), TryClaim(a)];
      assert es + [e] + more == es + [e] + [TryClaim(b)] + [Select(a)] + [TryClaim(a)];
    }
  }

  lemma JobBelowCandidateIsOvertaken(es: seq<Event>, late: nat, b: nat, id: nat, a: nat)
    requires IsRun(es) && late in ClaimableIds(End(es).rows) && IsCandidate(End(es), b, id) && late < id
    requires End(es).Pc(a).Idle?
    ensures var run := es + [TryClaim(b)] + [Select(a)] + [TryClaim(a)]; IsRun(run) && !Increasing(End(run).claims)
  {
    hide Enabled, Apply;
    var t := End(es);
    CandidateIsClaimed(es, b, id);
    var run := es + [TryClaim(b)];
    assert End(run).claims[|t.claims|] == id;
    assert End(run).Pc(a) == t.Pc(a);
    JobBelowClaimIsOvertaken(run, late, id, a);
  }

  lemma InsertKeepsCandidate(s: State, e: Event, b: nat, id: nat)
    requires Enabled(s, e) && e.Insert? && IsCandidate(s, b, id) && e.id != id
    ensures IsCandidate(Apply(s, e), b, id)
  {
  }

  lemma UnclaimedIsUnlocked(es: seq<Event>, id: nat)
    requires IsRun(es) && id in ClaimableIds(End(es).rows)
    ensures !End(es).Locked(id)
  {
    InvAlways(es);
  }

  lemma IdleUnlessKnown(s: State, a: nat)
    requires a !in s.actors
    ensures s.Pc(a).Idle?
  {
  }

  /** The unclaimed jobs that come before row `id`. */
  function JobsBefore(s: State, id: nat): set<nat> {
    set k | k in ClaimableIds(s.rows) && k < id
  }

  lemma ClaimTakesOne(s: State, a: nat, first: nat, id: nat)
    requires first in ClaimableIds(s.rows) && first < id && id in ClaimableIds(s.rows)
    ensures var t := Claim(s, a, first).At(a, Claimed(first));
            id in ClaimableIds(t.rows) && JobsBefore(t, id) == JobsBefore(s, id) - {first} && first in JobsBefore(s, id)
  {
  }

  predicate IsClaimStep(e: Event) { e.Select? || e.TryClaim? }

  /** Actors that polled nothing so far can claim the unclaimed jobs in turn, until one of them claims row `id`. */
  lemma {:induction false} ClaimUpTo(es: seq<Event>, id: nat) returns (more: seq<Event>, b: nat)
    requires IsRun(es) && id in ClaimableIds(End(es).rows)
    ensures forall e | e in more :: IsClaimStep(e)
    ensures IsRun(es + more) && b !in End(es).actors && End(es + more).Pc(b) == Claimed(id)
    ensures forall c | c in End(es).actors :: End(es + more).Pc(c) == End(es).Pc(c)
    decreases |JobsBefore(End(es), id)|
  {
    hide Legal, After, Enabled, Apply, ClaimableIds, JobsBefore;
    var s := End(es);
    var a := FreshId(s.actors.Keys);
    IdleUnlessKnown(s, a);
    var first := Oldest(s.rows).value;
    UnclaimedIsUnlocked(es, first);
    ClaimInTwoSteps(es, a, first);
    var two := es + [Select(a)] + [TryClaim(a)];
    assert es + [Select(a), TryClaim(a)] == two;
    if first == id {
      more, b := [Select(a), TryClaim(a)], a;
    } else {
      ClaimTakesOne(s, a, first, id);
      FewerBefore(JobsBefore(s, id), first);
      var later;
      later, b := ClaimUpTo(two, id);
      more := [Select(a), TryClaim(a)] + later;
      assert es + more == two + later;
    }
  }

  lemma FewerBefore(ids: set<nat>, id: nat)
    requires id in ids
    ensures |ids - {id}| < |ids|
  {
  }

  /**
   A requeue while somebody works on a row does hand it out again, whatever else is in the table: once the jobs before
   it have been claimed, a second actor claims the row, and both are working on it.
   */
  lemma RequeueHandsOutTwice(es: seq<Event>, a: nat, id: nat) returns (more: seq<Event>, b: nat)
    requires IsRun(es) && End(es).Pc(a).Holds() && End(es).Pc(a).id == id && IsPending(End(es), id)
    requires Enabled(End(es), Requeue)
    ensures forall e | e in more :: IsClaimStep(e)
    ensures var run := es + [Requeue] + more;
            IsRun(run) && a != b && End(run).Pc(a) == End(es).Pc(a) && End(run).Pc(b) == Claimed(id)
  {
    InvAlways(es);
    OneMore(es, Requeue);
    RequeueReopens(End(es), id);
    assert a in End(es).actors;
    hide Inv, Enabled, Apply, ClaimableIds, Legal, After;
    more, b := ClaimUpTo(es + [Requeue], id);
  }

  lemma RequeueReopens(s: State, id: nat)
    requires Enabled(s, Requeue) && IsPending(s, id) && OnlyJobsMove(s)
    ensures id in ClaimableIds(Apply(s, Requeue).rows) && Apply(s, Requeue).actors == s.actors
  {
  }
}
