/** When a call gives which answer, told by the row, the clock and the configuration. */
module BrokerAnswers {
  import opened Wrappers
  import opened Texts
  import opened Broker

  /** QuickBooks is connected: all four columns of the tokens are there, and a realm that is not blank. */
  predicate IsConnected(row: CompanyRow) {
    && row.access.Some? && row.refresh.Some? && row.accessExpires.Some? && row.refreshExpires.Some?
    && row.realm.Some? && !AllBlank(row.realm.value)
  }

  predicate IsUsable(row: CompanyRow) { row.enabled && IsConnected(row) }

  /** At second `s`, the access token lasts for as long as callers need it by the row's record. */
  predicate IsFresh(row: CompanyRow, config: Config, s: int) {
    IsUsable(row) && s + config.needed <= row.accessExpires.value
  }

  /** It does not, and the refresh token lasts for less than a minute more, or longer. */
  predicate IsOver(row: CompanyRow, config: Config, s: int) {
    IsUsable(row) && !IsFresh(row, config, s) && row.refreshExpires.value <= s + 60
  }

  predicate IsDue(row: CompanyRow, config: Config, s: int) {
    IsUsable(row) && !IsFresh(row, config, s) && s + 60 < row.refreshExpires.value
  }

  /** A stored credential that counts: at least ten characters without the white space around it. */
  ghost predicate IsOwn(blob: Option<Blob>, text: string) {
    blob.Some? && blob.value.Sealed? && IsTrimOf(blob.value.text, text) && |text| >= 10
  }

  ghost predicate HasOwn(blob: Option<Blob>) { exists text :: IsOwn(blob, text) }

  /** The company's own credentials when it has both, and otherwise the application's. */
  ghost predicate AreUsed(row: CompanyRow, config: Config, credentials: Credentials) {
    if HasOwn(row.clientId) && HasOwn(row.clientSecret) then
      IsOwn(row.clientId, credentials.id) && IsOwn(row.clientSecret, credentials.secret)
    else config.app == Some(credentials)
  }

  lemma OwnIff(blob: Option<Blob>, text: string)
    ensures Own(blob) == Some(text) <==> IsOwn(blob, text)
    ensures Own(blob).None? <==> !HasOwn(blob)
  {
    if blob.Some? && blob.value.Sealed? {
      TrimIff(blob.value.text, text);
      TrimIff(blob.value.text, Trim(blob.value.text));
      if Own(blob).Some? {
        assert IsOwn(blob, Own(blob).value);
      } else if HasOwn(blob) {
        var other :| IsOwn(blob, other);
        TrimIff(blob.value.text, other);
      }
    }
  }

  lemma CredentialsIff(row: CompanyRow, config: Config, credentials: Credentials)
    ensures ClientCredentials(row, config) == Some(credentials) <==> AreUsed(row, config, credentials)
  {
    hide Own, IsOwn, HasOwn;
    OwnIff(row.clientId, credentials.id);
    OwnIff(row.clientSecret, credentials.secret);
  }

  lemma ConnectedIff(row: CompanyRow)
    ensures HasTokens(row) && Realm(row) != "" <==> IsConnected(row)
  {
    BlankIff(row.realm.GetOr(""));
  }

  /** When a call does not ask Intuit, told at the second `s` in which it reads the clock. */
  lemma AnswersIff(found: Option<CompanyRow>, config: Config, now: nat, s: nat)
    requires 1000 * s <= now < 1000 * s + 1000
    ensures var plan := Decide(found, config, now);
            && (plan == Answer(Unavailable(TurnedOff)) <==> found.Some? && !found.value.enabled)
            && (plan == Answer(Unavailable(NotConnected)) <==>
                found.None? || (found.value.enabled && !IsConnected(found.value)))
            && (plan == Answer(Unavailable(Expired)) <==> found.Some? && IsOver(found.value, config, s))
            && (plan == Fail(CannotDecrypt) <==>
                found.Some? && ((IsFresh(found.value, config, s) && found.value.access == Some(Garbage))
                                || (IsDue(found.value, config, s) && found.value.refresh == Some(Garbage))))
            && plan != Fail(Http)
  {
    assert UnixNow(now) == s;
    if found.Some? {
      ConnectedIff(found.value);
    }
    hide HasTokens, Realm, ClientCredentials, UnixNow, IsConnected;
  }

  /** A call answers with a token of the row exactly while that one is fresh, and with this one. */
  lemma CachedIff(found: Option<CompanyRow>, config: Config, now: nat, s: nat, realm: string, token: string)
    requires 1000 * s <= now < 1000 * s + 1000
    ensures Decide(found, config, now) == Answer(Connected(realm, token)) <==>
            && found.Some? && IsFresh(found.value, config, s)
            && found.value.access == Some(Sealed(token)) && IsTrimOf(found.value.realm.value, realm)
  {
    assert UnixNow(now) == s;
    if found.Some? {
      ConnectedIff(found.value);
      if found.value.realm.Some? {
        TrimIff(found.value.realm.value, realm);
      }
    }
    hide HasTokens, ClientCredentials, UnixNow, Trim;
  }

  /**
   A call asks Intuit exactly when the access token no longer lasts long enough and the refresh token still lasts for
   more than a minute: with the stored refresh token, and with the company's own credentials if it has them.
   */
  lemma AsksIff(found: Option<CompanyRow>, config: Config, now: nat, s: nat, token: string, credentials: Credentials)
    requires 1000 * s <= now < 1000 * s + 1000
    ensures Decide(found, config, now) == Spend(token, credentials) <==>
            && found.Some? && IsDue(found.value, config, s)
            && found.value.refresh == Some(Sealed(token)) && AreUsed(found.value, config, credentials)
  {
    assert UnixNow(now) == s;
    if found.Some? {
      ConnectedIff(found.value);
      CredentialsIff(found.value, config, credentials);
    }
    hide HasTokens, Realm, ClientCredentials, UnixNow, IsConnected, AreUsed;
  }

  /** It fails for want of credentials exactly when it would ask, and has none to ask with. */
  lemma LacksCredentialsIff(found: Option<CompanyRow>, config: Config, now: nat, s: nat)
    requires 1000 * s <= now < 1000 * s + 1000
    ensures Decide(found, config, now) == Fail(NoCredentials) <==>
            && found.Some? && IsDue(found.value, config, s) && found.value.refresh.value.Sealed?
            && !exists credentials :: AreUsed(found.value, config, credentials)
  {
    assert UnixNow(now) == s;
    if found.Some? {
      ConnectedIff(found.value);
      var used := ClientCredentials(found.value, config);
      if used.Some? {
        CredentialsIff(found.value, config, used.value);
      } else if credentials :| AreUsed(found.value, config, credentials) {
        CredentialsIff(found.value, config, credentials);
      }
    }
    hide HasTokens, Realm, ClientCredentials, UnixNow, IsConnected, AreUsed;
  }

  /** A refresh received in second `s` replaces the tokens and their expiries, and nothing else of the row. */
  lemma RefreshReplacesTokens(row: CompanyRow, tokens: TokenSet, at: nat, s: nat)
    requires 1000 * s <= at < 1000 * s + 1000
    ensures var after := Rotated(row, tokens, at);
            && after.access == Some(Sealed(tokens.access)) && after.accessExpires == Some(s + tokens.expiresIn)
            && after.refresh == Some(Sealed(tokens.refresh)) && after.refreshExpires == Some(s + tokens.refreshExpiresIn)
            && after.enabled == row.enabled && after.realm == row.realm
            && after.clientId == row.clientId && after.clientSecret == row.clientSecret
  {
  }
}
