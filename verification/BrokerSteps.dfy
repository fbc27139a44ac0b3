/** Runs of the protocol put together from whole calls. */
module BrokerSteps {
  import opened Wrappers
  import opened Broker
  import opened BrokerProtocol
  import opened BrokerTheorems

  lemma OneMore(s: State, es: seq<Event>, e: Event)
    requires Legal(s, es) && Enabled(After(s, es), e)
    ensures Legal(s, es + [e]) && After(s, es + [e]) == Apply(After(s, es), e)
  {
    assert (es + [e])[..|es + [e]| - 1] == es;
  }

  /** A call that refreshes, until its request is out; Intuit answers after `there`. */
  function Asked(caller: nat, there: nat): seq<Event> { [Lock(caller, false)] + [Send] + [Tick(there)] }

  /** The whole call: the answer arrives after `back` and is stored. */
  function RefreshSteps(s: State, caller: nat, tokens: TokenSet, there: nat, back: nat): seq<Event> {
    var at := UnixNow(s.time + there + back);
    Asked(caller, there) + [Issue(tokens)] + [Tick(back)] + [Receive]
    + [Commit(at + tokens.expiresIn, at + tokens.refreshExpiresIn)]
  }

  lemma AskedSteps(s: State, caller: nat, there: nat)
    requires s.holder.None? && Decide(Some(s.row), s.config, s.time).Spend? && Stored(s) == Some(s.current)
    ensures Legal(s, Asked(caller, there))
    ensures After(s, Asked(caller, there))
         == s.(holder := Some(Holder(caller, false, Sent(s.current, s.time))), time := s.time + there)
  {
    hide Decide;
    var es := [Lock(caller, false)];
    assert [] + es == es && Legal(s, []) && After(s, []) == s;
    OneMore(s, [], Lock(caller, false));
    OneMore(s, es, Send);
    OneMore(s, es + [Send], Tick(there));
  }

  /** The answer is on its way, and then here. */
  lemma AnsweredSteps(s: State, caller: nat, tokens: TokenSet, there: nat, back: nat)
    requires s.holder.None? && Decide(Some(s.row), s.config, s.time).Spend? && Stored(s) == Some(s.current)
    requires tokens.refresh !in s.issued && tokens.access !in s.expiry && there + back <= 20_000
    ensures var es := Asked(caller, there) + [Issue(tokens)] + [Tick(back)] + [Receive];
            && Legal(s, es)
            && var t := After(s, es);
            && t.row == s.row && t.time == s.time + there + back
            && t.holder == Some(Holder(caller, false, Received(tokens, s.time + there, t.time)))
            && t.sent == s.sent + [s.current] && t.spent == s.spent + [s.current] && t.current == tokens.refresh
  {
    AskedSteps(s, caller, there);
    hide Decide, Asked, Legal, After;
    var es := Asked(caller, there);
    OneMore(s, es, Issue(tokens));
    OneMore(s, es + [Issue(tokens)], Tick(back));
    OneMore(s, es + [Issue(tokens)] + [Tick(back)], Receive);
  }

  /** Taken in a row, the steps of the protocol change the row exactly as one call of `TryAccess` does. */
  lemma StepsAreTryAccess(s: State, caller: nat, tokens: TokenSet, there: nat, back: nat)
    requires s.holder.None? && Decide(Some(s.row), s.config, s.time).Spend? && Stored(s) == Some(s.current)
    requires tokens.refresh !in s.issued && tokens.access !in s.expiry && there + back <= 20_000
    ensures Legal(s, RefreshSteps(s, caller, tokens, there, back))
    ensures var t := After(s, RefreshSteps(s, caller, tokens, there, back));
            && t.row == Rotated(s.row, tokens, s.time + there + back) && t.holder.None?
            && t.sent == s.sent + [s.current] && t.spent == s.spent + [s.current] && t.current == tokens.refresh
  {
    AnsweredSteps(s, caller, tokens, there, back);
    hide Decide, Rotated, Asked, Legal, After;
    RotatedExpiry(s.row, tokens, s.time + there + back);
    var at := UnixNow(s.time + there + back);
    OneMore(s, Asked(caller, there) + [Issue(tokens)] + [Tick(back)] + [Receive],
            Commit(at + tokens.expiresIn, at + tokens.refreshExpiresIn));
  }

  lemma RotatedExpiry(row: CompanyRow, tokens: TokenSet, at: nat)
    ensures Rotated(row, tokens, at).accessExpires == Some(UnixNow(at) + tokens.expiresIn)
    ensures Rotated(row, tokens, at).refreshExpires == Some(UnixNow(at) + tokens.refreshExpiresIn)
  {
  }

  // ---- a request that was given up ----

  lemma {:induction false} InTurn(s: State, es: seq<Event>, more: seq<Event>)
    requires Legal(s, es) && Legal(After(s, es), more)
    ensures Legal(s, es + more) && After(s, es + more) == After(After(s, es), more)
    decreases |more|
  {
    if more == [] {
      assert es + more == es;
    } else {
      var init, e := more[..|more| - 1], more[|more| - 1];
      assert es + more == es + init + [e];
      InTurn(s, es, init);
      OneMore(s, es + init, e);
    }
  }

  function GivenUp(s: State): State { s.(abandoned := s.abandoned + multiset{s.current}) }

  /** One call asks and gives up, another one refreshes, and then the first request arrives. */
  function GivenUpRun(s: State, first: nat, second: nat, tokens: TokenSet, there: nat, back: nat): seq<Event> {
    Asked(first, 0) + [GiveUp] + RefreshSteps(GivenUp(s), second, tokens, there, back) + [RejectLate(s.current)]
  }

  lemma AskAndGiveUp(s: State, first: nat)
    requires s.holder.None? && Decide(Some(s.row), s.config, s.time).Spend? && Stored(s) == Some(s.current)
    ensures Legal(s, Asked(first, 0) + [GiveUp]) && After(s, Asked(first, 0) + [GiveUp]) == GivenUp(s)
  {
    AskedSteps(s, first, 0);
    hide Asked, Decide, Legal, After;
    OneMore(s, Asked(first, 0), GiveUp);
  }

  lemma GivenUpRunLosesNothing(s: State, first: nat, second: nat, tokens: TokenSet, there: nat, back: nat)
    ensures forall e | e in GivenUpRun(s, first, second, tokens, there, back) :: !IsLoss(e)
  {
  }

  /**
   No rotation is lost when a call gives up, another one refreshes, and the first request arrives after that:
   the stored token stays current, and yet Intuit has seen the old one twice.
   */
  lemma GivenUpRequestIsRejected(s: State, first: nat, second: nat, tokens: TokenSet, there: nat, back: nat)
    requires s.holder.None? && Decide(Some(s.row), s.config, s.time).Spend? && Stored(s) == Some(s.current)
    requires tokens.refresh !in s.issued && tokens.access !in s.expiry && there + back <= 20_000
    requires s.current in s.issued
    ensures var es := GivenUpRun(s, first, second, tokens, there, back);
            && Legal(s, es) && (forall e | e in es :: !IsLoss(e))
            && After(s, es).sent == s.sent + [s.current, s.current]
            && After(s, es).spent == s.spent + [s.current, s.current]
            && Stored(After(s, es)) == Some(After(s, es).current) && After(s, es).current == tokens.refresh
  {
    AskAndGiveUp(s, first);
    GivenUpRunLosesNothing(s, first, second, tokens, there, back);
    hide Asked, RefreshSteps, Decide, Legal, After, IsLoss;
    var steps := RefreshSteps(GivenUp(s), second, tokens, there, back);
    StepsAreTryAccess(GivenUp(s), second, tokens, there, back);
    InTurn(s, Asked(first, 0) + [GiveUp], steps);
    StepsKeepAbandoned(GivenUp(s), second, tokens, there, back);
    OneMore(s, Asked(first, 0) + [GiveUp] + steps, RejectLate(s.current));
  }

  lemma StepsKeepAbandoned(s: State, caller: nat, tokens: TokenSet, there: nat, back: nat)
    requires Legal(s, RefreshSteps(s, caller, tokens, there, back))
    ensures After(s, RefreshSteps(s, caller, tokens, there, back)).abandoned == s.abandoned
  {
    NoneGivenUp(s, RefreshSteps(s, caller, tokens, there, back));
  }

  lemma {:induction false} NoneGivenUp(s: State, es: seq<Event>)
    requires Legal(s, es) && forall e | e in es :: !IsLate(e)
    ensures After(s, es).abandoned == s.abandoned
    decreases |es|
  {
    if es == [] {
    } else {
      var before, e := es[..|es| - 1], es[|es| - 1];
      assert e in es && forall x | x in before :: x in es;
      NoneGivenUp(s, before);
    }
  }

  // ---- a request that Intuit answered with an error ----

  function RefusedState(s: State): State { s.(sent := s.sent + [s.current], refused := s.refused + {s.current}) }

  /** An error response ends a call as it ends `TryAccess`: the row is as it was, and the token has been sent. */
  lemma RefusalIsTryAccess(s: State, caller: nat)
    requires s.holder.None? && Decide(Some(s.row), s.config, s.time).Spend? && Stored(s) == Some(s.current)
    ensures Legal(s, Asked(caller, 0) + [Refuse]) && After(s, Asked(caller, 0) + [Refuse]) == RefusedState(s)
  {
    AskedSteps(s, caller, 0);
    hide Asked, Decide, Legal, After;
    OneMore(s, Asked(caller, 0), Refuse);
  }

  /** One call gets an error, and the next one refreshes. */
  function RefusedRun(s: State, first: nat, second: nat, tokens: TokenSet, there: nat, back: nat): seq<Event> {
    Asked(first, 0) + [Refuse] + RefreshSteps(RefusedState(s), second, tokens, there, back)
  }

  lemma RefusedRunIsCalm(s: State, first: nat, second: nat, tokens: TokenSet, there: nat, back: nat)
    ensures var es := RefusedRun(s, first, second, tokens, there, back); Calm(es) && NoneRejected(es)
  {
  }

  /**
   Nothing is lost, given up or rejected when Intuit answers a request with an error and the next call refreshes with
   the same token: it is spent once and the stored token stays current, and yet it has reached Intuit twice.
   */
  lemma RefusedTokenIsSentAgain(s: State, first: nat, second: nat, tokens: TokenSet, there: nat, back: nat)
    requires s.holder.None? && Decide(Some(s.row), s.config, s.time).Spend? && Stored(s) == Some(s.current)
    requires tokens.refresh !in s.issued && tokens.access !in s.expiry && there + back <= 20_000
    ensures var es := RefusedRun(s, first, second, tokens, there, back);
            && Legal(s, es) && Calm(es) && NoneRejected(es)
            && After(s, es).sent == s.sent + [s.current, s.current] && After(s, es).spent == s.spent + [s.current]
            && Stored(After(s, es)) == Some(After(s, es).current) && After(s, es).current == tokens.refresh
  {
    RefusalIsTryAccess(s, first);
    RefusedRunIsCalm(s, first, second, tokens, there, back);
    hide Asked, RefreshSteps, Decide, Legal, After, Calm, NoneRejected;
    var steps := RefreshSteps(RefusedState(s), second, tokens, there, back);
    StepsAreTryAccess(RefusedState(s), second, tokens, there, back);
    InTurn(s, Asked(first, 0) + [Refuse], steps);
  }
}
