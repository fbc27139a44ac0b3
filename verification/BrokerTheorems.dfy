/** Linearity of the refresh token, over every run. */
module BrokerTheorems {
  import opened Wrappers
  import opened Broker
  import opened BrokerProtocol

  ghost predicate NoDuplicates(xs: seq<string>) { forall i, j | 0 <= i < j < |xs| :: xs[i] != xs[j] }

  predicate Asking(s: State) { s.holder.None? || s.holder.value.stage.Reading? || s.holder.value.stage.Sent? }

  ghost predicate TokensKnown(s: State) {
    && s.current in s.issued && s.current !in s.spent
    && (forall token | token in s.spent || token in s.abandoned :: token in s.issued)
    && (!Asking(s) ==> s.current !in s.abandoned)
    && Stored(s).Some? && Stored(s).value in s.issued
    && (s.holder.Some? && s.holder.value.stage.Sent? ==> s.holder.value.stage.token == Stored(s).value)
  }

  /** The stored token is current until it is spent; from then on the answer holds the current one. */
  predicate Linear(s: State) {
    if Asking(s) then Stored(s) == Some(s.current)
    else s.holder.value.stage.tokens.refresh == s.current && Stored(s).Some? && Stored(s).value in s.spent
  }

  /** After a loss the row keeps a token that is already spent. */
  predicate Stale(s: State) { Asking(s) && Stored(s).Some? && Stored(s).value in s.spent }

  ghost predicate TokenInv(s: State, lost: bool) {
    TokensKnown(s) && if lost then Stale(s) else Linear(s)
  }

  /** What becomes of requests that were given up. */
  predicate IsLate(e: Event) { e.GiveUp? || e.IssueLate? || e.RejectLate? || e.RefuseLate? }

  lemma LateKeepsTokens(s: State, e: Event, lost: bool)
    requires Enabled(s, e) && IsLate(e) && TokenInv(s, lost)
    ensures TokensKnown(Apply(s, e))
  {
    hide Decide, Rotated;
    if e.IssueLate? {
      IssueLateKeepsTokens(s, e.tokens, lost);
    } else if e.RejectLate? {
      RejectLateKeepsTokens(s, e.token, lost);
    }
  }

  lemma IssueLateKeepsTokens(s: State, tokens: TokenSet, lost: bool)
    requires Enabled(s, IssueLate(tokens)) && TokenInv(s, lost)
    ensures TokensKnown(Apply(s, IssueLate(tokens)))
  {
    hide Decide, Rotated;
    var t := Apply(s, IssueLate(tokens));
    assert t.spent == s.spent + [s.current] && forall token | token in t.abandoned :: token in s.abandoned;
  }

  lemma RejectLateKeepsTokens(s: State, token: string, lost: bool)
    requires Enabled(s, RejectLate(token)) && TokenInv(s, lost)
    ensures TokensKnown(Apply(s, RejectLate(token)))
  {
    hide Decide, Rotated;
    var t := Apply(s, RejectLate(token));
    assert t.spent == s.spent + [token] && forall other | other in t.abandoned :: other in s.abandoned;
  }

  lemma OthersKeepTokens(s: State, e: Event, lost: bool)
    requires Enabled(s, e) && !IsLate(e) && TokenInv(s, lost)
    ensures TokensKnown(Apply(s, e))
  {
    hide Decide;
    assert Apply(s, e).abandoned == s.abandoned;
  }

  lemma GiveUpKeepsPlace(s: State, lost: bool)
    requires Enabled(s, GiveUp) && TokenInv(s, lost)
    ensures if lost then Stale(Apply(s, GiveUp)) else Linear(Apply(s, GiveUp))
  {
    hide Decide, Rotated;
    assert Stored(Apply(s, GiveUp)) == Stored(s);
  }

  lemma IssueLateMakesStale(s: State, tokens: TokenSet, lost: bool)
    requires Enabled(s, IssueLate(tokens)) && TokenInv(s, lost)
    ensures Stale(Apply(s, IssueLate(tokens)))
  {
    hide Decide, Rotated;
    var t := Apply(s, IssueLate(tokens));
    assert t.row == s.row && t.holder == s.holder && t.spent == s.spent + [s.current];
    assert Asking(s);
  }

  lemma RejectLateKeepsPlace(s: State, token: string, lost: bool)
    requires Enabled(s, RejectLate(token)) && TokenInv(s, lost)
    ensures if lost then Stale(Apply(s, RejectLate(token))) else Linear(Apply(s, RejectLate(token)))
  {
    hide Decide, Rotated;
    var t := Apply(s, RejectLate(token));
    assert t.row == s.row && t.holder == s.holder && t.current == s.current && t.spent == s.spent + [token];
  }

  lemma RefuseLateKeepsPlace(s: State, token: string, lost: bool)
    requires Enabled(s, RefuseLate(token)) && TokenInv(s, lost)
    ensures if lost then Stale(Apply(s, RefuseLate(token))) else Linear(Apply(s, RefuseLate(token)))
  {
    hide Decide, Rotated;
    var t := Apply(s, RefuseLate(token));
    assert t.row == s.row && t.holder == s.holder && t.current == s.current && t.spent == s.spent;
  }

  lemma LateKeepsPlace(s: State, e: Event, lost: bool)
    requires Enabled(s, e) && IsLate(e) && TokenInv(s, lost)
    ensures if e.IssueLate? || lost then Stale(Apply(s, e)) else Linear(Apply(s, e))
  {
    hide Enabled, Apply, TokenInv, Stale, Linear;
    match e {
      case GiveUp => GiveUpKeepsPlace(s, lost);
      case IssueLate(tokens) => IssueLateMakesStale(s, tokens, lost);
      case RejectLate(token) => RejectLateKeepsPlace(s, token, lost);
      case RefuseLate(token) => RefuseLateKeepsPlace(s, token, lost);
    }
  }

  lemma OthersKeepPlace(s: State, e: Event, lost: bool)
    requires Enabled(s, e) && !IsLate(e) && TokenInv(s, lost)
    ensures if IsLoss(e) || (!e.Reconnect? && lost) then Stale(Apply(s, e)) else Linear(Apply(s, e))
  {
    hide Decide;
  }

  lemma TokenInvKept(s: State, e: Event, lost: bool)
    requires Enabled(s, e) && TokenInv(s, lost)
    ensures TokenInv(Apply(s, e), IsLoss(e) || (!e.Reconnect? && lost))
  {
    if IsLate(e) {
      LateKeepsTokens(s, e, lost);
      LateKeepsPlace(s, e, lost);
    } else {
      OthersKeepTokens(s, e, lost);
      OthersKeepPlace(s, e, lost);
    }
    hide Decide, Apply, Enabled, TokensKnown, Stale, Linear;
  }

  lemma {:induction false} TokenInvAlways(s: State, es: seq<Event>)
    requires IsStart(s) && Legal(s, es)
    ensures TokenInv(After(s, es), Lost(es))
    decreases |es|
  {
    if es == [] {
    } else {
      TokenInvAlways(s, es[..|es| - 1]);
      TokenInvKept(After(s, es[..|es| - 1]), es[|es| - 1], Lost(es[..|es| - 1]));
    }
  }

  /** Whenever the row is unlocked, the stored refresh token is Intuit's current one exactly if no rotation was lost. */
  lemma StoredIsCurrentIffNothingLost(s: State, es: seq<Event>)
    requires IsStart(s) && Legal(s, es) && After(s, es).holder.None?
    ensures Stored(After(s, es)) == Some(After(s, es).current) <==> !Lost(es)
  {
    TokenInvAlways(s, es);
  }

  /** A request that Intuit rejects because its token was already spent. */
  predicate RejectsAgain(s: State, e: Event) {
    e.Reject? || (e.RejectLate? && e.token in s.spent)
  }

  /** The call that holds the lock has sent this token and has no answer yet. */
  predicate IsAsking(t: State, token: string) {
    t.holder.Some? && t.holder.value.stage.Sent? && t.holder.value.stage.token == token
  }

  predicate NeverRejectsAgain(s: State, es: seq<Event>)
    requires Legal(s, es)
    decreases |es|
  {
    es == [] || (NeverRejectsAgain(s, es[..|es| - 1]) && !RejectsAgain(After(s, es[..|es| - 1]), es[|es| - 1]))
  }

  lemma SpentStep(s: State, e: Event, lost: bool)
    requires Enabled(s, e) && TokenInv(s, lost)
    ensures NoDuplicates(Apply(s, e).spent) <==> NoDuplicates(s.spent) && !RejectsAgain(s, e)
    ensures e.Reject? ==> lost
  {
    var t := Apply(s, e);
    if t.spent != s.spent {
      var token := if e.IssueLate? then s.current else if e.RejectLate? then e.token else s.holder.value.stage.token;
      assert t.spent == s.spent + [token];
      assert forall i | 0 <= i < |s.spent| :: t.spent[i] == s.spent[i];
      if RejectsAgain(s, e) {
        var i :| 0 <= i < |s.spent| && s.spent[i] == token;
        assert t.spent[i] == t.spent[|s.spent|];
      } else {
        assert forall i | 0 <= i < |s.spent| :: s.spent[i] in s.spent;
      }
    }
  }

  /** A refresh token is consumed or rejected twice exactly in the runs in which Intuit rejects a spent one. */
  lemma {:induction false} SpentTwiceIffRejectedAgain(s: State, es: seq<Event>)
    requires IsStart(s) && Legal(s, es)
    ensures NoDuplicates(After(s, es).spent) <==> NeverRejectsAgain(s, es)
    decreases |es|
  {
    if es == [] {
    } else {
      var before, e := es[..|es| - 1], es[|es| - 1];
      SpentTwiceIffRejectedAgain(s, before);
      TokenInvAlways(s, before);
      SpentStep(After(s, before), e, Lost(before));
    }
  }

  /**
   The next request to reach Intuit can be rejected so exactly when some spent token is still on its way: in the
   call that holds the lock, or in one that was given up.
   */
  lemma DuplicateNextIff(s: State, es: seq<Event>, token: string)
    requires IsStart(s) && Legal(s, es)
    ensures var t := After(s, es);
            (exists e :: Enabled(t, e) && RejectsAgain(t, e) && Apply(t, e).spent == t.spent + [token])
            <==> token in t.spent
                 && (token in t.abandoned || IsAsking(t, token))
  {
    TokenInvAlways(s, es);
    var t := After(s, es);
    if token in t.spent {
      if token in t.abandoned {
        assert Enabled(t, RejectLate(token)) && RejectsAgain(t, RejectLate(token));
      }
      if IsAsking(t, token) {
        assert Enabled(t, Reject) && RejectsAgain(t, Reject);
      }
    }
    if e :| Enabled(t, e) && RejectsAgain(t, e) && Apply(t, e).spent == t.spent + [token] {
      RejectedToken(t, e, token, Lost(es));
    }
  }

  lemma RejectedToken(t: State, e: Event, token: string, lost: bool)
    requires Enabled(t, e) && RejectsAgain(t, e) && Apply(t, e).spent == t.spent + [token] && TokenInv(t, lost)
    ensures token in t.spent
    ensures token in t.abandoned || IsAsking(t, token)
  {
    assert Apply(t, e).spent[|t.spent|] == token;
  }

  predicate IsGiveUp(e: Event) { e.GiveUp? }

  lemma NothingRejectedNext(t: State, e: Event)
    requires Enabled(t, e) && !IsLoss(e) && !IsGiveUp(e) && TokenInv(t, false) && t.abandoned == multiset{}
    ensures !e.Reject? && !e.RejectLate? && Apply(t, e).abandoned == multiset{}
  {
    hide Decide, Rotated;
  }

  /** No rotation is lost, and no request is given up. */
  predicate Calm(es: seq<Event>) { forall e | e in es :: !IsLoss(e) && !IsGiveUp(e) }

  predicate NoneRejected(es: seq<Event>) { forall e | e in es :: !e.Reject? && !e.RejectLate? }

  lemma CalmBefore(es: seq<Event>)
    requires es != [] && Calm(es)
    ensures Calm(es[..|es| - 1]) && !IsLoss(es[|es| - 1]) && !IsGiveUp(es[|es| - 1])
  {
    assert es[|es| - 1] in es && forall x | x in es[..|es| - 1] :: x in es;
  }

  lemma NoneRejectedMore(es: seq<Event>)
    requires es != [] && NoneRejected(es[..|es| - 1]) && !es[|es| - 1].Reject? && !es[|es| - 1].RejectLate?
    ensures NoneRejected(es)
  {
    assert forall x | x in es :: x in es[..|es| - 1] || x == es[|es| - 1];
  }

  /** Without a lost rotation and without giving up on a request, Intuit rejects none and spends no token twice. */
  lemma {:induction false} RejectedOnlyAfterLossOrGiveUp(s: State, es: seq<Event>)
    requires IsStart(s) && Legal(s, es) && Calm(es)
    ensures NoneRejected(es) && NoDuplicates(After(s, es).spent) && !Lost(es)
    ensures After(s, es).abandoned == multiset{}
    decreases |es|
  {
    if es == [] {
    } else {
      hide Enabled, Apply, TokenInv, NoDuplicates, IsStart, Calm, NoneRejected;
      var before, e := es[..|es| - 1], es[|es| - 1];
      var t := After(s, before);
      assert Legal(s, before) && Enabled(t, e) && After(s, es) == Apply(t, e);
      assert Lost(es) <==> IsLoss(e) || (!e.Reconnect? && Lost(before));
      hide Legal, After, Lost, IsLoss, IsGiveUp;
      CalmBefore(es);
      RejectedOnlyAfterLossOrGiveUp(s, before);
      TokenInvAlways(s, before);
      NothingRejectedNext(t, e);
      SpentStep(t, e, false);
      NoneRejectedMore(es);
    }
  }

  // ---- which tokens reach Intuit again ----

  /** The tokens that reached Intuit are those it spent and those it answered with another error. */
  predicate SentKnown(s: State) {
    && (forall token | token in s.sent :: token in s.spent || token in s.refused)
    && (forall token | token in s.spent :: token in s.sent)
    && (forall token | token in s.refused :: token in s.sent)
  }

  lemma SentGrows(s: State, e: Event)
    requires Enabled(s, e)
    ensures var t := Apply(s, e);
            match Reaching(s, e)
            case None => t.sent == s.sent && t.spent == s.spent && t.refused == s.refused
            case Some(token) =>
              && t.sent == s.sent + [token]
              && ((t.spent == s.spent + [token] && t.refused == s.refused)
                  || (t.spent == s.spent && t.refused == s.refused + {token}))
  {
    hide Decide, Rotated;
  }

  lemma SentKnownKept(s: State, e: Event)
    requires Enabled(s, e) && SentKnown(s)
    ensures SentKnown(Apply(s, e))
  {
    hide Enabled, Apply, Reaching;
    SentGrows(s, e);
  }

  lemma {:induction false} SentKnownAlways(s: State, es: seq<Event>)
    requires IsStart(s) && Legal(s, es)
    ensures SentKnown(After(s, es))
    decreases |es|
  {
    if es == [] {
    } else {
      hide Enabled, Apply, SentKnown;
      SentKnownAlways(s, es[..|es| - 1]);
      SentKnownKept(After(s, es[..|es| - 1]), es[|es| - 1]);
    }
  }

  /** A request with a token that Intuit has consumed or rejected before, or answered with another error. */
  predicate Repeats(s: State, e: Event) {
    Reaching(s, e).Some? && (Reaching(s, e).value in s.spent || Reaching(s, e).value in s.refused)
  }

  predicate NeverRepeats(s: State, es: seq<Event>)
    requires Legal(s, es)
    decreases |es|
  {
    es == [] || (NeverRepeats(s, es[..|es| - 1]) && !Repeats(After(s, es[..|es| - 1]), es[|es| - 1]))
  }

  /** All rejections of spent tokens are among them, and Intuit rotates again only for a token it had refused. */
  lemma RepeatsIff(s: State, e: Event, lost: bool)
    requires Enabled(s, e) && TokenInv(s, lost) && SentKnown(s)
    ensures Repeats(s, e) <==> Reaching(s, e).Some? && Reaching(s, e).value in s.sent
    ensures RejectsAgain(s, e) ==> Repeats(s, e)
    ensures (e.Issue? || e.IssueLate?) && Repeats(s, e) ==> s.current in s.refused
  {
    hide Decide, Rotated;
  }

  lemma NoDuplicatesMore(xs: seq<string>, x: string)
    ensures NoDuplicates(xs + [x]) <==> NoDuplicates(xs) && x !in xs
  {
    var ys := xs + [x];
    assert forall i | 0 <= i < |xs| :: ys[i] == xs[i];
    if x in xs {
      var i :| 0 <= i < |xs| && xs[i] == x;
      assert ys[i] == ys[|xs|];
    } else {
      assert forall i | 0 <= i < |xs| :: xs[i] in xs;
    }
  }

  lemma SentStep(s: State, e: Event, lost: bool)
    requires Enabled(s, e) && TokenInv(s, lost) && SentKnown(s)
    ensures NoDuplicates(Apply(s, e).sent) <==> NoDuplicates(s.sent) && !Repeats(s, e)
  {
    hide Enabled, Apply, NoDuplicates, Reaching, Repeats, TokenInv, SentKnown;
    RepeatsIff(s, e, lost);
    SentGrows(s, e);
    if Reaching(s, e).Some? {
      NoDuplicatesMore(s.sent, Reaching(s, e).value);
    }
  }

  /**
   A refresh token reaches Intuit twice exactly in the runs in which a request arrives whose token Intuit had consumed,
   rejected, or answered with another error.
   */
  lemma {:induction false} SentTwiceIff(s: State, es: seq<Event>)
    requires IsStart(s) && Legal(s, es)
    ensures NoDuplicates(After(s, es).sent) <==> NeverRepeats(s, es)
    decreases |es|
  {
    if es == [] {
    } else {
      hide Enabled, Apply, Repeats, NoDuplicates, TokenInv, SentKnown;
      var before, e := es[..|es| - 1], es[|es| - 1];
      SentTwiceIff(s, before);
      TokenInvAlways(s, before);
      SentKnownAlways(s, before);
      SentStep(After(s, before), e, Lost(before));
    }
  }

  /**
   The next request to reach Intuit can repeat a token exactly when that token reached it before and is on its way
   again, in the call that holds the lock or in one that was given up.
   */
  lemma RepeatNextIff(s: State, es: seq<Event>, token: string)
    requires IsStart(s) && Legal(s, es)
    ensures var t := After(s, es);
            (exists e :: Enabled(t, e) && Repeats(t, e) && Reaching(t, e) == Some(token))
            <==> token in t.sent && (token in t.abandoned || IsAsking(t, token))
  {
    TokenInvAlways(s, es);
    SentKnownAlways(s, es);
    var t := After(s, es);
    hide Legal, After, IsStart, Lost, TokenInv, SentKnown, Repeats, Enabled, Reaching;
    if token in t.sent && (token in t.abandoned || IsAsking(t, token)) {
      var e := MayReach(t, token);
      RepeatsIff(t, e, Lost(es));
    }
    if e :| Enabled(t, e) && Repeats(t, e) && Reaching(t, e) == Some(token) {
      RepeatsIff(t, e, Lost(es));
      ReachedFrom(t, e, token);
    }
  }

  lemma MayReach(t: State, token: string) returns (e: Event)
    requires token in t.abandoned || IsAsking(t, token)
    ensures Enabled(t, e) && Reaching(t, e) == Some(token)
  {
    e := if token in t.abandoned then RefuseLate(token) else Refuse;
  }

  lemma ReachedFrom(t: State, e: Event, token: string)
    requires Enabled(t, e) && Reaching(t, e) == Some(token)
    ensures token in t.abandoned || IsAsking(t, token)
  {
  }

  predicate IsRefusal(e: Event) { e.Refuse? || e.RefuseLate? }

  predicate NoneRefused(es: seq<Event>) { forall e | e in es :: !IsRefusal(e) }

  /** Without loss, without giving up and without other errors, no token reaches Intuit twice at all. */
  lemma SentOnce(s: State, es: seq<Event>)
    requires IsStart(s) && Legal(s, es) && Calm(es) && NoneRefused(es)
    ensures After(s, es).sent == After(s, es).spent && NoDuplicates(After(s, es).sent)
  {
    RejectedOnlyAfterLossOrGiveUp(s, es);
    NothingRefused(s, es);
  }

  lemma NoneRefusedBefore(es: seq<Event>)
    requires es != [] && NoneRefused(es)
    ensures NoneRefused(es[..|es| - 1]) && !IsRefusal(es[|es| - 1])
  {
    assert es[|es| - 1] in es && forall x | x in es[..|es| - 1] :: x in es;
  }

  lemma NotRefusedNext(t: State, e: Event)
    requires Enabled(t, e) && !IsRefusal(e) && t.refused == {} && t.sent == t.spent
    ensures Apply(t, e).refused == {} && Apply(t, e).sent == Apply(t, e).spent
  {
    hide Decide, Rotated;
  }

  lemma {:induction false} NothingRefused(s: State, es: seq<Event>)
    requires IsStart(s) && Legal(s, es) && NoneRefused(es)
    ensures After(s, es).refused == {} && After(s, es).sent == After(s, es).spent
    decreases |es|
  {
    if es == [] {
    } else {
      hide Enabled, Apply, IsStart, NoneRefused;
      var before, e := es[..|es| - 1], es[|es| - 1];
      assert Legal(s, before) && Enabled(After(s, before), e) && After(s, es) == Apply(After(s, before), e);
      hide Legal, After;
      NoneRefusedBefore(es);
      NothingRefused(s, before);
      NotRefusedNext(After(s, before), e);
    }
  }

  /** After a loss every attempt to refresh gives Intuit a token it has already seen, and fails. */
  lemma LossMakesRefreshFail(s: State, es: seq<Event>)
    requires IsStart(s) && Legal(s, es) && Lost(es)
    requires After(s, es).holder.Some? && After(s, es).holder.value.stage.Sent?
    ensures After(s, es).holder.value.stage.token in After(s, es).spent
    ensures Enabled(After(s, es), Reject) && forall tokens :: !Enabled(After(s, es), Issue(tokens))
  {
    TokenInvAlways(s, es);
  }
}
