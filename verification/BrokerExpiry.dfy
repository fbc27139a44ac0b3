/** Truth of the recorded expiries, and what they promise, over every run. */
module BrokerExpiry {
  import opened Wrappers
  import opened Broker
  import opened BrokerProtocol
  import opened BrokerTheorems

  /** Both tokens expire when Intuit said at `at`. */
  predicate Lives(s: State, tokens: TokenSet, at: nat) {
    && tokens.access in s.expiry && s.expiry[tokens.access] == at + 1000 * tokens.expiresIn
    && tokens.refresh in s.refreshExpiry && s.refreshExpiry[tokens.refresh] == at + 1000 * tokens.refreshExpiresIn
  }

  /** What is known about the tokens on their way and about those this broker stored. */
  predicate Timed(s: State) {
    && (s.holder.Some? ==>
          match s.holder.value.stage
          case Reading => true
          case Sent(_, at) =>
            at <= s.time && (!s.holder.value.app ==> Decide(Some(s.row), s.config, at).Spend?)
          case Issued(tokens, sentAt, at) =>
            sentAt <= at <= s.time && Lives(s, tokens, at)
          case Received(tokens, issuedAt, at) =>
            && issuedAt <= at <= s.time && (s.holder.value.app || at <= issuedAt + HTTP_TIMEOUT_MS)
            && Lives(s, tokens, issuedAt))
    && (s.storedByBroker ==>
          && s.row.access.Some? && s.row.access.value.Sealed? && s.row.accessExpires.Some?
          && s.row.access.value.text in s.expiry
          && -1000 < 1000 * s.row.accessExpires.value - s.expiry[s.row.access.value.text] <= 20_000
          && Stored(s).Some? && Stored(s).value in s.refreshExpiry && s.row.refreshExpires.Some?
          && -1000 < 1000 * s.row.refreshExpires.value - s.refreshExpiry[Stored(s).value] <= 20_000)
  }

  predicate KnownAreIssued(s: State) { s.refreshExpiry.Keys <= s.issued }

  lemma TimedKept(s: State, e: Event)
    requires Enabled(s, e) && Timed(s) && KnownAreIssued(s)
    ensures Timed(Apply(s, e)) && KnownAreIssued(Apply(s, e))
  {
  }

  lemma {:induction false} TimedAlways(s: State, es: seq<Event>)
    requires IsStart(s) && Legal(s, es)
    ensures Timed(After(s, es)) && KnownAreIssued(After(s, es))
    decreases |es|
  {
    if es == [] {
    } else {
      hide Enabled, Apply, Timed, KnownAreIssued;
      TimedAlways(s, es[..|es| - 1]);
      TimedKept(After(s, es[..|es| - 1]), es[|es| - 1]);
    }
  }

  /** The expiries this broker records are later than the true ones by at most 20 s, and earlier by less than a second. */
  lemma RecordedExpiryIsClose(s: State, es: seq<Event>)
    requires IsStart(s) && Legal(s, es) && After(s, es).storedByBroker
    ensures var t := After(s, es);
            && t.row.access.Some? && t.row.access.value.Sealed? && t.row.accessExpires.Some?
            && t.row.access.value.text in t.expiry
            && -1000 < 1000 * t.row.accessExpires.value - t.expiry[t.row.access.value.text] <= 20_000
            && Stored(t).Some? && t.row.refreshExpires.Some? && Stored(t).value in t.refreshExpiry
            && -1000 < 1000 * t.row.refreshExpires.value - t.refreshExpiry[Stored(t).value] <= 20_000
  {
    TimedAlways(s, es);
  }

  /**
   A token this broker stored and hands out from the row stays valid for more than the requested time
   less 21 seconds, so longer than a job whose timeout is five minutes below the requested time.
   */
  lemma CachedTokenOutlivesJob(s: State, es: seq<Event>, timeout: nat)
    requires IsStart(s) && Legal(s, es) && After(s, es).storedByBroker
    requires After(s, es).config.needed == timeout + 300
    requires var t := After(s, es);
             Decide(Some(t.row), t.config, t.time).Answer? && Decide(Some(t.row), t.config, t.time).access.Connected?
    ensures var t := After(s, es);
            var token := Decide(Some(t.row), t.config, t.time).access.token;
            && token in t.expiry
            && t.expiry[token] - t.time > 1000 * t.config.needed - 21_000
            && t.expiry[token] - t.time > 1000 * timeout
  {
    TimedAlways(s, es);
  }

  /** What a refreshed token is worth when it arrives: its lifetime less the time it was on its way. */
  lemma RefreshedTokenLifetime(s: State, es: seq<Event>)
    requires IsStart(s) && Legal(s, es) && After(s, es).holder.Some? && !After(s, es).holder.value.app
    requires After(s, es).holder.value.stage.Received?
    ensures var t := After(s, es);
            var Received(tokens, issuedAt, at) := t.holder.value.stage;
            && tokens.access in t.expiry && 0 <= at - issuedAt <= 20_000
            && t.expiry[tokens.access] - at == 1000 * tokens.expiresIn - (at - issuedAt)
  {
    TimedAlways(s, es);
  }

  /**
   On this path the code does not compare the lifetime with what was requested. Exactly the tokens outlive the job
   that were on their way for less time than the lifetime exceeds the job's timeout by: all of a lifetime more than
   the HTTP timeout above it, so all that meet the request, and none of a lifetime not above it.
   */
  lemma RefreshedTokenOutlivesJobIff(s: State, es: seq<Event>, timeout: nat)
    requires IsStart(s) && Legal(s, es) && After(s, es).holder.Some? && !After(s, es).holder.value.app
    requires After(s, es).holder.value.stage.Received?
    ensures var t := After(s, es);
            var Received(tokens, issuedAt, at) := t.holder.value.stage;
            && tokens.access in t.expiry
            && (t.expiry[tokens.access] - at > 1000 * timeout <==> at - issuedAt < 1000 * (tokens.expiresIn - timeout))
            && (1000 * (tokens.expiresIn - timeout) > 20_000 ==> t.expiry[tokens.access] - at > 1000 * timeout)
            && (tokens.expiresIn <= timeout ==> t.expiry[tokens.access] - at <= 1000 * timeout)
  {
    RefreshedTokenLifetime(s, es);
  }

  /**
   A refresh token that this broker stored and now sends is still valid at Intuit, by more than the request can take:
   the code refrains from sending one that expires within a minute by its own record.
   */
  lemma SentTokenIsValid(s: State, es: seq<Event>)
    requires IsStart(s) && Legal(s, es) && After(s, es).storedByBroker
    requires After(s, es).holder.Some? && !After(s, es).holder.value.app && After(s, es).holder.value.stage.Sent?
    ensures var t := After(s, es);
            var Sent(token, at) := t.holder.value.stage;
            && token in t.refreshExpiry
            && t.refreshExpiry[token] - at > 40_000
            && (InTime(t, at) ==> t.refreshExpiry[token] - t.time > 20_000)
  {
    TimedAlways(s, es);
    TokenInvAlways(s, es);
  }

  /** And nothing is sent before it is needed: the access token it replaces does not last for the requested time. */
  lemma SentMeansNeeded(s: State, es: seq<Event>)
    requires IsStart(s) && Legal(s, es) && After(s, es).storedByBroker
    requires After(s, es).holder.Some? && !After(s, es).holder.value.app && After(s, es).holder.value.stage.Sent?
    ensures var t := After(s, es);
            && t.row.access.Some? && t.row.access.value.Sealed? && t.row.access.value.text in t.expiry
            && t.expiry[t.row.access.value.text] - t.holder.value.stage.at < 1000 * t.config.needed
  {
    TimedAlways(s, es);
  }

  /** A call that gives the connection up as expired is right: the stored token is gone in about a minute. */
  lemma ExpiredMeansSoon(s: State, es: seq<Event>)
    requires IsStart(s) && Legal(s, es) && After(s, es).storedByBroker
    requires Decide(Some(After(s, es).row), After(s, es).config, After(s, es).time) == Answer(Unavailable(Expired))
    ensures var t := After(s, es);
            && Stored(t).Some? && Stored(t).value in t.refreshExpiry
            && t.refreshExpiry[Stored(t).value] - t.time < 61_000
  {
    TimedAlways(s, es);
  }

  // ---- no second refresh ----

  /** Calls of this broker, time, and whatever becomes of requests that were given up before. */
  predicate BrokerOnly(es: seq<Event>) {
    forall e | e in es :: !e.Reconnect? && (e.Lock? ==> !e.app)
  }

  /** The recorded lifetime still covers the requested time at `ms`. */
  predicate Covered(s: State, ms: nat) {
    s.row.accessExpires.Some? && s.row.accessExpires.value - UnixNow(ms) >= s.config.needed
  }

  predicate NoRefresh(s: State) {
    s.holder.None? || (!s.holder.value.app && s.holder.value.stage.Reading?)
  }

  lemma BrokerOnlyBefore(es: seq<Event>)
    requires es != [] && BrokerOnly(es)
    ensures var e := es[|es| - 1]; BrokerOnly(es[..|es| - 1]) && !e.Reconnect? && (e.Lock? ==> !e.app)
  {
    assert es[|es| - 1] in es && forall x | x in es[..|es| - 1] :: x in es;
  }

  lemma NotLater(es: seq<Event>, e: Event)
    requires es != [] && e !in es[..|es| - 1] && es[|es| - 1] != e
    ensures e !in es
  {
    assert forall x | x in es :: x in es[..|es| - 1] || x == es[|es| - 1];
  }

  lemma TimePasses(t: State, e: Event)
    requires Enabled(t, e)
    ensures Apply(t, e).time >= t.time
  {
  }

  lemma CoveredEarlier(s: State, t: State, earlier: nat, later: nat)
    requires earlier <= later && Covered(s, later) && t.row == s.row && t.config == s.config
    ensures Covered(t, earlier)
  {
  }

  /** While the lifetime covers what is needed, a call that holds the lock does not refresh. */
  lemma NoRefreshNext(t: State, e: Event)
    requires Enabled(t, e) && !e.Reconnect? && (e.Lock? ==> !e.app)
    requires HasTokens(t.row) && NoRefresh(t) && Covered(t, t.time)
    ensures e != Send && NoRefresh(Apply(t, e)) && Apply(t, e).row == t.row && Apply(t, e).config == t.config
  {
  }

  /**
   Callers queued behind a refresh do not refresh again: as long as the stored lifetime covers what
   they need when they get the lock, nobody sends Intuit a token and the row stays as it is.
   */
  lemma {:induction false} NoSecondRefresh(s: State, es: seq<Event>)
    requires s.holder.None? && Legal(s, es) && BrokerOnly(es) && HasTokens(s.row)
    requires Covered(s, After(s, es).time)
    ensures Send !in es && After(s, es).row == s.row && NoRefresh(After(s, es))
    ensures After(s, es).config == s.config
    decreases |es|
  {
    if es == [] {
    } else {
      hide Enabled, Apply, HasTokens, NoRefresh, Covered, BrokerOnly;
      var before, e := es[..|es| - 1], es[|es| - 1];
      var t := After(s, before);
      assert Legal(s, before) && Enabled(t, e) && After(s, es) == Apply(t, e);
      BrokerOnlyBefore(es);
      hide Legal, After;
      TimePasses(t, e);
      CoveredEarlier(s, s, t.time, After(s, es).time);
      NoSecondRefresh(s, before);
      CoveredEarlier(s, t, t.time, After(s, es).time);
      NoRefreshNext(t, e);
      NotLater(es, Send);
    }
  }
}
