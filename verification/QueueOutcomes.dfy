/** The outcomes that the table shows, and who reported them. */
module QueueOutcomes {
  import opened Wrappers
  import opened Messages
  import opened Queue
  import opened QueueInvariant
  import opened QueueTheorems
  import opened QueueHolders

  /** The outcome that a statement of `finish` carries. */
  function Carried(e: Event, a: nat): Option<Outcome> {
    if e.FinishFailed? && e.actor == a then Some(Failure(e.error, e.result))
    else if e.InsertReply? && e.actor == a then Some(Success(e.text))
    else None
  }

  /** The outcome that actor `a` has reported. */
  function Reported(es: seq<Event>, a: nat): Option<Outcome> {
    if es == [] then None
    else if Carried(es[|es| - 1], a).Some? then Carried(es[|es| - 1], a)
    else Reported(es[..|es| - 1], a)
  }

  /** Row `id` shows this outcome: the error and the partial answer, or a reply of its own with the text. */
  ghost predicate Shows(s: State, id: nat, outcome: Outcome) {
    id in s.rows &&
    match outcome
    case Failure(error, partial) =>
      && s.rows[id].status.Failed? && s.rows[id].HasKey("error", Text(error))
      && (partial.Some? ==> s.rows[id].HasKey("result", Text(partial.value)))
    case Success(text) => exists reply: nat :: Answers(s, id, reply) && s.rows[reply].content == text
  }

  ghost predicate IsClaimant(s: State, a: nat, id: nat) {
    exists i :: 0 <= i < |s.claims| && i < |s.claimants| && s.claimants[i] == a && s.claims[i] == id
  }

  // ---- every run ----

  /** Whoever works on a row has claimed it. */
  ghost predicate HolderClaimed(s: State, a: nat) { s.Pc(a).Holds() ==> IsClaimant(s, a, s.Pc(a).id) }

  /** An open transaction carries what its actor reported. */
  predicate Delivers(s: State, a: nat, reported: Option<Outcome>) {
    s.Pc(a).InTx() ==> reported == Some(Success(s.Pc(a).replyRow.content))
  }

  lemma ClaimantKept(s: State, e: Event, a: nat, id: nat)
    requires Enabled(s, e) && |s.claims| == |s.claimants| && IsClaimant(s, a, id)
    ensures IsClaimant(Apply(s, e), a, id)
  {
    hide Enabled, Apply;
    ClaimsGrow(s, e);
    var i :| 0 <= i < |s.claims| && s.claimants[i] == a && s.claims[i] == id;
    assert Apply(s, e).claimants[i] == a && Apply(s, e).claims[i] == id;
  }

  lemma ClaimantBefore(s: State, e: Event, a: nat, id: nat)
    requires Enabled(s, e) && |s.claims| == |s.claimants| && IsClaimant(Apply(s, e), a, id)
    ensures IsClaimant(s, a, id) || ActorOf(e) == Some(a)
  {
    hide Enabled, Apply;
    ClaimsGrow(s, e);
    var t := Apply(s, e);
    var i :| 0 <= i < |t.claims| && t.claimants[i] == a && t.claims[i] == id;
    assert i < |s.claims| ==> s.claimants[i] == a && s.claims[i] == id;
  }

  /** An actor comes to work on a row only by claiming it, and then stays with it. */
  lemma HoldsBefore(s: State, e: Event, a: nat)
    requires Enabled(s, e) && Apply(s, e).Pc(a).Holds()
    ensures (s.Pc(a).Holds() && s.Pc(a).id == Apply(s, e).Pc(a).id)
            || (e == TryClaim(a) && Apply(s, e).claims == s.claims + [Apply(s, e).Pc(a).id]
                && Apply(s, e).claimants == s.claimants + [a])
  {
    OthersStay(s, e);
  }

  lemma HolderClaimedKept(s: State, e: Event, a: nat)
    requires Enabled(s, e) && |s.claims| == |s.claimants| && HolderClaimed(s, a)
    ensures HolderClaimed(Apply(s, e), a)
  {
    hide Enabled, Apply;
    var t := Apply(s, e);
    if t.Pc(a).Holds() {
      HoldsBefore(s, e, a);
      if s.Pc(a).Holds() && s.Pc(a).id == t.Pc(a).id {
        ClaimantKept(s, e, a, s.Pc(a).id);
      } else {
        assert t.claimants[|s.claims|] == a && t.claims[|s.claims|] == t.Pc(a).id;
      }
    }
  }

  lemma DeliversKept(s: State, e: Event, a: nat, reported: Option<Outcome>)
    requires Enabled(s, e) && Delivers(s, a, reported)
    ensures Delivers(Apply(s, e), a, if Carried(e, a).Some? then Carried(e, a) else reported)
  {
    OthersStay(s, e);
  }

  lemma {:induction false} ReportsAlways(es: seq<Event>, a: nat)
    requires IsRun(es)
    ensures HolderClaimed(End(es), a) && Delivers(End(es), a, Reported(es, a))
    decreases |es|
  {
    if es == [] {
    } else {
      var before, e := es[..|es| - 1], es[|es| - 1];
      ReportsAlways(before, a);
      ClaimsAlways(before);
      hide Enabled, Apply, HolderClaimed, Delivers, Carried;
      HolderClaimedKept(End(before), e, a);
      DeliversKept(End(before), e, a, Reported(before, a));
    }
  }

  lemma ReportingIsLate(s: State, e: Event, a: nat)
    requires Enabled(s, e) && (Carried(e, a).Some? || s.Pc(a).InTx() || s.Pc(a).Closed?)
    ensures Apply(s, e).Pc(a).InTx() || Apply(s, e).Pc(a).Closed?
  {
    OthersStay(s, e);
  }

  /** Whoever has not started has reported nothing. */
  lemma {:induction false} IdleReportsNothing(es: seq<Event>, a: nat)
    requires IsRun(es)
    ensures Reported(es, a).Some? ==> End(es).Pc(a).InTx() || End(es).Pc(a).Closed?
    decreases |es|
  {
    if es == [] {
    } else {
      var before, e := es[..|es| - 1], es[|es| - 1];
      IdleReportsNothing(before, a);
      hide Enabled, Apply, Carried;
      if Reported(es, a).Some? {
        ReportingIsLate(End(before), e, a);
      }
    }
  }

  /** Replies never change. */
  lemma ReplyKept(s: State, e: Event, id: nat, reply: nat)
    requires Enabled(s, e) && LocksHold(s) && ReplyIdsFresh(s) && OnlyJobsMove(s) && IdsKnown(s) && Answers(s, id, reply)
    ensures reply in Apply(s, e).rows ==> Apply(s, e).rows[reply] == s.rows[reply]
  {
  }

  lemma ShowsKept(s: State, e: Event, id: nat, outcome: Outcome)
    requires Enabled(s, e) && Inv(s) && Inv(Apply(s, e)) && Shows(s, id, outcome) && id in Apply(s, e).rows
    ensures Shows(Apply(s, e), id, outcome)
  {
    hide Enabled, Apply, IdsKnown, LocksHold, LocksExclude, ReplyIdsFresh, PayloadsFit, OutcomesOnce, ClaimsConserved;
    var t := Apply(s, e);
    assert s.rows.Keys <= s.original.Keys <= s.used by { KeysKnown(s); }
    TerminalKept(s, e, id);
    if outcome.Success? {
      var reply: nat :| Answers(s, id, reply) && s.rows[reply].content == outcome.result;
      ReplyKept(s, e, id, reply);
      assert Answers(t, id, reply);
    }
  }

  lemma KeysKnown(s: State)
    requires IdsKnown(s)
    ensures s.rows.Keys <= s.original.Keys <= s.used
  {
  }

  /** A row gets a status that is final only from the statement that records its outcome. */
  lemma BecomesTerminal(s: State, e: Event, id: nat)
    requires Enabled(s, e) && Inv(s) && id in Apply(s, e).rows && Apply(s, e).rows[id].status.IsTerminal()
    requires !(id in s.rows && s.rows[id].status.IsTerminal())
    ensures (e.FinishFailed? || e.Commit?) && s.Pc(e.actor).id == id && IsPending(s, id)
    ensures s.Pc(e.actor).Holds() && Apply(s, e).Pc(e.actor).Closed?
  {
    hide IdsKnown, LocksExclude, PayloadsFit, RepliesLinked, OutcomesOnce, ClaimsConserved;
  }

  lemma FailureShows(s: State, e: Event)
    requires Enabled(s, e) && e.FinishFailed? && IsPending(s, s.Pc(e.actor).id)
    ensures Shows(Apply(s, e), s.Pc(e.actor).id, Failure(e.error, e.result))
  {
  }

  lemma SuccessShows(s: State, e: Event)
    requires Enabled(s, e) && e.Commit? && Inv(s) && Inv(Apply(s, e))
    ensures Shows(Apply(s, e), s.Pc(e.actor).id, Success(s.Pc(e.actor).replyRow.content))
  {
    CommittedRow(s, e);
    hide Enabled, Apply, IdsKnown, ReplyIdsFresh, LocksHold, LocksExclude, OnlyJobsMove, PayloadsFit, OutcomesOnce;
    hide ClaimsConserved;
    var t, pc := Apply(s, e), s.Pc(e.actor);
    assert IdAt(t.rows[pc.id], "reply_id") == Some(pc.reply);
    assert Answers(t, pc.id, pc.reply);
  }

  /** What recording an outcome makes of the row. */
  lemma RecordingShows(s: State, e: Event, reported: Option<Outcome>)
    requires Enabled(s, e) && (e.FinishFailed? || e.Commit?) && Inv(s) && Inv(Apply(s, e))
    requires IsPending(s, s.Pc(e.actor).id) && Delivers(s, e.actor, reported)
    ensures var now := if Carried(e, e.actor).Some? then Carried(e, e.actor) else reported;
            now.Some? && Shows(Apply(s, e), s.Pc(e.actor).id, now.value)
  {
    hide Apply, Inv, Shows;
    if e.Commit? {
      SuccessShows(s, e);
    } else {
      FailureShows(s, e);
    }
  }

  lemma CommittedRow(s: State, e: Event)
    requires Enabled(s, e) && e.Commit? && LocksHold(s) && ReplyIdsFresh(s) && IdsKnown(s)
    ensures s.Pc(e.actor).doneRow == s.rows[s.Pc(e.actor).id].AsDone(s.Pc(e.actor).reply)
    ensures Apply(s, e).rows[s.Pc(e.actor).id] == s.Pc(e.actor).doneRow
    ensures Apply(s, e).rows[s.Pc(e.actor).reply] == s.Pc(e.actor).replyRow
  {
  }

  /** Some actor that claimed the row has reported the outcome that it shows, and is done with it. */
  ghost predicate WasReported(es: seq<Event>, id: nat)
    requires IsRun(es)
  {
    exists b: nat ::
      IsClaimant(End(es), b, id) && End(es).Pc(b).Closed? && Reported(es, b).Some?
      && Shows(End(es), id, Reported(es, b).value)
  }

  lemma ClosedStays(s: State, e: Event, b: nat)
    requires Enabled(s, e) && s.Pc(b).Closed?
    ensures ActorOf(e) != Some(b) && Apply(s, e).Pc(b).Closed? && Carried(e, b).None?
  {
    OthersStay(s, e);
  }

  /** The last step of a run, and what is known before and after it. */
  lemma LastStep(es: seq<Event>)
    requires IsRun(es) && es != []
    ensures var before, e := es[..|es| - 1], es[|es| - 1];
            && IsRun(before) && Enabled(End(before), e) && End(es) == Apply(End(before), e)
            && Inv(End(before)) && Inv(End(es)) && Claims(End(before)) && |End(before).claims| == |End(before).claimants|
  {
    hide Enabled, Apply;
    InvAlways(es[..|es| - 1]);
    InvAlways(es);
    ClaimsAlways(es[..|es| - 1]);
    hide Inv;
  }

  lemma StillReported(es: seq<Event>, id: nat)
    requires IsRun(es) && es != [] && IsRun(es[..|es| - 1]) && WasReported(es[..|es| - 1], id) && id in End(es).rows
    ensures WasReported(es, id)
  {
    hide Legal, After, Enabled, Apply, Shows, IsClaimant, Inv, Claims;
    var before, e := es[..|es| - 1], es[|es| - 1];
    var s := End(before);
    LastStep(es);
    var b: nat :| IsClaimant(s, b, id) && s.Pc(b).Closed? && Reported(before, b).Some?
                  && Shows(s, id, Reported(before, b).value);
    ClosedStays(s, e, b);
    ClaimantKept(s, e, b, id);
    ShowsKept(s, e, id, Reported(before, b).value);
  }

  lemma NowReported(es: seq<Event>, id: nat)
    requires IsRun(es) && es != [] && id in End(es).rows && End(es).rows[id].status.IsTerminal()
    requires IsRun(es[..|es| - 1])
    requires var s := End(es[..|es| - 1]); !(id in s.rows && s.rows[id].status.IsTerminal())
    ensures WasReported(es, id)
  {
    hide Legal, After, Enabled, Apply, Shows, IsClaimant, Inv, Claims, Delivers;
    var before, e := es[..|es| - 1], es[|es| - 1];
    var s := End(before);
    LastStep(es);
    BecomesTerminal(s, e, id);
    ReportsAlways(before, e.actor);
    ClaimantKept(s, e, e.actor, id);
    RecordingShows(s, e, Reported(before, e.actor));
  }

  /** In every run, requeues included: what a finished row shows is what one of its claimants reported. */
  lemma {:induction false} ShownWasReported(es: seq<Event>, id: nat)
    requires IsRun(es) && id in End(es).rows && End(es).rows[id].status.IsTerminal()
    ensures WasReported(es, id)
    decreases |es|
  {
    if es == [] {
    } else {
      var s := End(es[..|es| - 1]);
      hide Enabled, Apply, WasReported;
      if id in s.rows && s.rows[id].status.IsTerminal() {
        ShownWasReported(es[..|es| - 1], id);
        StillReported(es, id);
      } else {
        NowReported(es, id);
      }
    }
  }

  // ---- a row that is not requeued during its job ----

  /** What a claimant that is done without a failure has reported is what the row shows, as long as there is one. */
  ghost predicate ShowsReport(es: seq<Event>, a: nat, id: nat)
    requires IsRun(es)
  {
    var s := End(es);
    IsClaimant(s, a, id) && s.Pc(a).Closed? && a !in s.failures && id in s.rows ==>
      Reported(es, a).Some? && Shows(s, id, Reported(es, a).value)
  }

  lemma ClaimantsWorkOrClosed(s: State, a: nat, id: nat)
    requires Claims(s) && IsClaimant(s, a, id)
    ensures s.Pc(a).Closed? || WorksOn(s, a, id)
  {
    var i :| 0 <= i < |s.claims| && s.claimants[i] == a && s.claims[i] == id;
    assert a in s.claimants;
  }

  /** How a claimant at work on a pending row can be done with it: it records its outcome, or fails. */
  lemma WorkEnds(s: State, e: Event, a: nat, id: nat)
    requires Enabled(s, e) && WorksOn(s, a, id) && IsPending(s, id) && Inv(s) && Apply(s, e).Pc(a).Closed?
    ensures a in Apply(s, e).failures || ((e.FinishFailed? || e.Commit?) && e.actor == a)
  {
    hide IdsKnown, ReplyIdsFresh, LocksHold, LocksExclude, PayloadsFit, RepliesLinked, OutcomesOnce, ClaimsConserved;
    OthersStay(s, e);
  }

  /** Only those who claimed a row can be done with it. */
  lemma ClaimingIsNotEnding(s: State, e: Event, a: nat, id: nat)
    requires Enabled(s, e) && |s.claims| == |s.claimants| && IsClaimant(Apply(s, e), a, id) && !IsClaimant(s, a, id)
    ensures !Apply(s, e).Pc(a).Closed? || a in Apply(s, e).failures
  {
    hide Enabled, Apply;
    ClaimsGrow(s, e);
    ClaimantBefore(s, e, a, id);
    var t := Apply(s, e);
  }

  lemma GoneStays(s: State, e: Event, a: nat, id: nat)
    requires Enabled(s, e) && Inv(s) && IsClaimant(s, a, id) && id in Apply(s, e).rows
    ensures id in s.rows
  {
    var i :| 0 <= i < |s.claims| && s.claimants[i] == a && s.claims[i] == id;
    assert id in s.claims && id in s.original;
    if id !in s.rows {
      GoneKept(s, e, id);
    }
  }

  lemma ShowsReportKept(es: seq<Event>, a: nat, id: nat)
    requires IsRun(es) && es != [] && IsRun(es[..|es| - 1])
    requires ShowsReport(es[..|es| - 1], a, id) && HeldPending(End(es[..|es| - 1]), id)
    ensures ShowsReport(es, a, id)
  {
    hide Legal, After, Enabled, Apply, Shows, IsClaimant, Inv, Claims, Delivers;
    var before, e := es[..|es| - 1], es[|es| - 1];
    var s, t := End(before), End(es);
    LastStep(es);
    FailuresStay(s, e);
    if IsClaimant(t, a, id) && t.Pc(a).Closed? && a !in t.failures && id in t.rows {
      if !IsClaimant(s, a, id) {
        ClaimingIsNotEnding(s, e, a, id);
      } else {
        GoneStays(s, e, a, id);
        ClaimantsWorkOrClosed(s, a, id);
        if s.Pc(a).Closed? {
          ClosedStays(s, e, a);
          ShowsKept(s, e, id, Reported(before, a).value);
        } else {
          WorkEnds(s, e, a, id);
          ReportsAlways(before, a);
          RecordingShows(s, e, Reported(before, a));
        }
      }
    }
  }

  lemma FailuresStay(s: State, e: Event)
    requires Enabled(s, e)
    ensures s.failures <= Apply(s, e).failures
  {
  }

  /** As long as a row is not requeued during its own job, it shows what its claimant reported. */
  lemma {:induction false} ReportIsShown(es: seq<Event>, a: nat, id: nat)
    requires IsRun(es) && QuietFor(es, id)
    ensures ShowsReport(es, a, id)
    decreases |es|
  {
    if es == [] {
    } else {
      hide Enabled, Apply, ShowsReport;
      ReportIsShown(es[..|es| - 1], a, id);
      HeldAlways(es[..|es| - 1], id);
      ShowsReportKept(es, a, id);
    }
  }
}
