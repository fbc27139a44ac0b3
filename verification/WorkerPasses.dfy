/** What one pass of the polling loop does, told by the statements it has sent. */
module WorkerPasses {
  import opened Wrappers
  import opened Messages
  import Queue
  import opened Worker
  import opened WorkerCapacity
  import opened WorkerRows

  /** How often actor `a` has sent the conditional update. */
  function Tries(es: seq<Event>, a: nat): nat {
    if es == [] then 0 else
    Tries(es[..|es| - 1], a) + if es[|es| - 1] == Statement(Queue.TryClaim(a)) then 1 else 0
  }

  ghost predicate Counts(s: State, a: nat, tries: nat) {
    && (a !in s.mine ==> tries == 0)
    && tries <= 5
    && (s.loop.Polling() && a == s.cur ==>
          match s.loop
          case Poll(lost) => tries == lost && tries < 5
          case Try(lost) => tries == lost && tries < 5
          case _ => true)
  }

  lemma CountsKept(s: State, e: Event, a: nat, tries: nat)
    requires Enabled(s, e) && Placed(s) && Counts(s, a, tries)
    ensures Counts(Apply(s, e), a, tries + if e == Statement(Queue.TryClaim(a)) then 1 else 0)
  {
    if e.Statement? && e.sql.TryClaimFails? {
      FailedTryCloses(s.q, e.sql);
    }
    hide Queue.Enabled, Queue.Apply, Records;
  }

  lemma FailedTryCloses(q: Queue.State, sql: Queue.Event)
    requires Queue.Enabled(q, sql) && sql.TryClaimFails?
    ensures Queue.Apply(q, sql).Pc(sql.actor).Closed?
  {
  }

  lemma {:induction false} CountsAlways(max: nat, es: seq<Event>, a: nat)
    requires IsRun(max, es)
    ensures Counts(End(max, es), a, Tries(es, a))
    decreases |es|
  {
    if es == [] {
    } else {
      var before, e := es[..|es| - 1], es[|es| - 1];
      CountsAlways(max, before, a);
      FollowsAlways(max, before);
      hide Enabled, Apply, Counts;
      CountsKept(End(max, before), e, a, Tries(before, a));
    }
  }

  /** The permit is back and the loop sleeps. */
  predicate GaveUp(s: State, t: State) { t.loop.Sleep? && t.free == s.free + 1 && t.tasks == s.tasks }

  ghost predicate ChoseOldest(q: Queue.State, after: Queue.State, a: nat) {
    && after.Pc(a).Selected? && after.Pc(a).id in q.rows && Waits(q.rows[after.Pc(a).id])
    && forall k | k in q.rows && Waits(q.rows[k]) :: after.Pc(a).id <= k
  }

  /** What the last statement of the loop has led to. */
  ghost predicate PassGoesOn(s: State, sql: Queue.Event, t: State, tries: nat) {
    var a := s.cur;
    var id := if s.q.Pc(a).Selected? || s.q.Pc(a).Claimed? then s.q.Pc(a).id else 0;
    match sql
    case Select(_) =>
      if exists k | k in s.q.rows :: Waits(s.q.rows[k]) then t.loop.Try? && t.free == s.free && ChoseOldest(s.q, t.q, a)
      else GaveUp(s, t)
    case TryClaim(_) =>
      if id in s.q.rows && Waits(s.q.rows[id]) then t.loop.Reread? && t.free == s.free
      else if tries < 5 then t.loop.Poll? && t.free == s.free
      else GaveUp(s, t)
    case Get(_) =>
      if id in s.q.rows && s.q.rows[id].sender == User && s.q.rows[id].agentic then
        t.loop.Top? && t.free == s.free && t.tasks == s.tasks[a := Starting]
      else GaveUp(s, t)
    case _ => GaveUp(s, t)
  }

  /**
   In every run a pass looks for the oldest job that waits, tries to claim it, looks again after a lost race until it
   has tried five times, and spawns a task for the job it has claimed; whatever else happens, it gives the permit back.
   */
  lemma PassesFollowClaimNext(max: nat, es: seq<Event>)
    requires IsRun(max, es) && es != [] && es[|es| - 1].Statement?
    ensures var s := End(max, es[..|es| - 1]);
            PassGoesOn(s, es[|es| - 1].sql, End(max, es), Tries(es, s.cur))
  {
    var before, e := es[..|es| - 1], es[|es| - 1];
    var s := End(max, before);
    assert Enabled(s, e) && End(max, es) == Apply(s, e);
    CountsAlways(max, before, s.cur);
    FollowsAlways(max, before);
    hide Legal, After, Follows, Workspaces, Placed;
    assert LoopMatches(s.loop, s.q.Pc(s.cur));
    StatementLeadsTo(s, e, Tries(before, s.cur));
  }

  /** What the statements of `claim_next` do to their actor, told by the row it has chosen or claimed. */
  lemma StatementChooses(q: Queue.State, sql: Queue.Event, a: nat)
    requires Queue.Enabled(q, sql) && Queue.ActorOf(sql) == Some(a)
    requires sql.Select? ==> q.Pc(a).Idle?
    ensures var pc := Queue.Apply(q, sql).Pc(a);
            match sql
            case Select(_) =>
              if exists k | k in q.rows :: Waits(q.rows[k]) then ChoseOldest(q, Queue.Apply(q, sql), a) else !pc.Selected?
            case TryClaim(_) =>
              if q.Pc(a).id in q.rows && Waits(q.rows[q.Pc(a).id]) then pc.Claimed? else pc.Idle?
            case Get(_) =>
              pc.Running? <==>
              q.Pc(a).id in q.rows && q.rows[q.Pc(a).id].sender == User && q.rows[q.Pc(a).id].agentic
            case TryClaimFails(_, _) => pc.Closed?
            case GetFails(_) => pc.Closed?
            case _ => true
  {
    assert forall k | k in q.rows :: k in ClaimableIds(q.rows) <==> Waits(q.rows[k]);
  }

  lemma StatementLeadsTo(s: State, e: Event, tries: nat)
    requires e.Statement? && Enabled(s, e) && Counts(s, s.cur, tries) && LoopMatches(s.loop, s.q.Pc(s.cur))
    ensures PassGoesOn(s, e.sql, Apply(s, e), tries + if e == Statement(Queue.TryClaim(s.cur)) then 1 else 0)
  {
    StatementChooses(s.q, e.sql, s.cur);
    hide Queue.Enabled, Queue.Apply, ChoseOldest;
  }
}
