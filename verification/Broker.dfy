/** One call of `QboBroker::try_access` on a company's row. */
module Broker {
  import opened Wrappers
  import opened Texts

  const HTTP_TIMEOUT_MS: nat := 20_000
  const MIN_CREDENTIAL_LEN: nat := 10

  /** An encrypted column. Decryption inverts encryption and refuses everything else. */
  datatype Blob = Sealed(text: string) | Garbage {
    function Open(): Option<string> { if Sealed? then Some(text) else None }
  }

  datatype CompanyRow = CompanyRow(
    enabled: bool,
    realm: Option<string>,
    access: Option<Blob>,
    refresh: Option<Blob>,
    accessExpires: Option<int>,    // Unix seconds
    refreshExpires: Option<int>,
    clientId: Option<Blob>,
    clientSecret: Option<Blob>)

  datatype Credentials = Credentials(id: string, secret: string)

  datatype Config = Config(app: Option<Credentials>, needed: nat)

  datatype TokenSet = TokenSet(access: string, refresh: string, expiresIn: int, refreshExpiresIn: int)

  datatype Reason = NotConnected | TurnedOff | Expired

  datatype Access = Connected(realm: string, token: string) | Unavailable(reason: Reason)

  datatype QboError = NoCredentials | CannotDecrypt | Http

  /** The request to Intuit's token endpoint. */
  datatype Request = Request(token: string, credentials: Credentials)

  /** What a call does with the locked row: answer, fail, or spend the refresh token. */
  datatype Plan = Answer(access: Access) | Fail(error: QboError) | Spend(token: string, credentials: Credentials)

  /** `unix_now` at `ms` milliseconds after the epoch. */
  function UnixNow(ms: nat): nat { ms / 1000 }

  function Realm(row: CompanyRow): string { Trim(row.realm.GetOr("")) }

  function Own(blob: Option<Blob>): Option<string> {
    if blob.Some? && blob.value.Sealed? && |Trim(blob.value.text)| >= MIN_CREDENTIAL_LEN
    then Some(Trim(blob.value.text)) else None
  }

  function ClientCredentials(row: CompanyRow, config: Config): Option<Credentials> {
    var id, secret := Own(row.clientId), Own(row.clientSecret);
    if id.Some? && secret.Some? then Some(Credentials(id.value, secret.value)) else config.app
  }

  predicate HasTokens(row: CompanyRow) {
    row.access.Some? && row.refresh.Some? && row.accessExpires.Some? && row.refreshExpires.Some?
  }

  function Decide(found: Option<CompanyRow>, config: Config, now: nat): Plan {
    if found.None? then Answer(Unavailable(NotConnected)) else
    var row := found.value;
    if !row.enabled then Answer(Unavailable(TurnedOff))
    else if !HasTokens(row) || Realm(row) == "" then Answer(Unavailable(NotConnected))
    else if row.accessExpires.value - UnixNow(now) >= config.needed then
      (match row.access.value.Open()
       case Some(token) => Answer(Connected(Realm(row), token))
       case None => Fail(CannotDecrypt))
    else if row.refreshExpires.value <= UnixNow(now) + 60 then Answer(Unavailable(Expired))
    else
      match (row.refresh.value.Open(), ClientCredentials(row, config))
      case (None, _) => Fail(CannotDecrypt)
      case (_, None) => Fail(NoCredentials)
      case (Some(token), Some(credentials)) => Spend(token, credentials)
  }

  /** The row after storing a token set received at `at`. */
  function Rotated(row: CompanyRow, tokens: TokenSet, at: nat): CompanyRow {
    row.(access := Some(Sealed(tokens.access)), refresh := Some(Sealed(tokens.refresh)),
    accessExpires := Some(UnixNow(at) + tokens.expiresIn),
    refreshExpires := Some(UnixNow(at) + tokens.refreshExpiresIn))
  }

  class Company {
    var row: Option<CompanyRow>

    constructor (row: Option<CompanyRow>)
      ensures this.row == row
    {
      this.row := row;
    }
  }

  /**
   The whole call, holding the row lock throughout: it reads the clock at `now`, and when it refreshes
   Intuit's response (or the failure to get one) arrives at `replyAt`.
   */
  method TryAccess(company: Company, config: Config, now: nat, reply: Result<TokenSet, QboError>, replyAt: nat)
    returns (r: Result<Access, QboError>, sent: Option<Request>)
    modifies company
    ensures match Decide(old(company.row), config, now)
            case Answer(access) => r == Ok(access) && company.row == old(company.row) && sent == None
            case Fail(error) => r == Err(error) && company.row == old(company.row) && sent == None
            case Spend(token, credentials) =>
              && sent == Some(Request(token, credentials)) && old(company.row).Some?
              && match reply
                 case Err(error) => r == Err(error) && company.row == old(company.row)
                 case Ok(tokens) =>
                   && r == Ok(Connected(Realm(old(company.row).value), tokens.access))
                   && company.row == Some(Rotated(old(company.row).value, tokens, replyAt))
  {
    sent := None;
    if company.row.None? { return Ok(Unavailable(NotConnected)), None; }
    var row := company.row.value;
    if !row.enabled { return Ok(Unavailable(TurnedOff)), None; }
    if row.access.None? || row.refresh.None? || row.accessExpires.None? || row.refreshExpires.None? {
      return Ok(Unavailable(NotConnected)), None;
    }
    var realm := Realm(row);
    if realm == "" { return Ok(Unavailable(NotConnected)), None; }
    if row.accessExpires.value - UnixNow(now) >= config.needed {
      var token := row.access.value.Open();
      if token.None? { return Err(CannotDecrypt), None; }
      return Ok(Connected(realm, token.value)), None;
    }
    if row.refreshExpires.value <= UnixNow(now) + 60 { return Ok(Unavailable(Expired)), None; }
    var refreshToken := row.refresh.value.Open();
    if refreshToken.None? { return Err(CannotDecrypt), None; }
    var credentials := ClientCredentials(row, config);
    if credentials.None? { return Err(NoCredentials), None; }
    sent := Some(Request(refreshToken.value, credentials.value));
    if reply.Err? { return Err(reply.error), sent; }
    var tokens := reply.value;
    company.row := Some(row.(access := Some(Sealed(tokens.access)), refresh := Some(Sealed(tokens.refresh)),
                        accessExpires := Some(UnixNow(replyAt) + tokens.expiresIn),
                        refreshExpires := Some(UnixNow(replyAt) + tokens.refreshExpiresIn)));
    return Ok(Connected(realm, tokens.access)), sent;
  }

  /**
   After a refresh the next caller gets the very token just stored, without spending anything,
   exactly while its recorded lifetime still covers what callers need.
   */
  lemma CachedExactlyWhileCovered(row: CompanyRow, config: Config, asked: nat, tokens: TokenSet, at: nat, later: nat)
    requires Decide(Some(row), config, asked).Spend?
    ensures Decide(Some(Rotated(row, tokens, at)), config, later) == Answer(Connected(Realm(row), tokens.access))
       <==> UnixNow(later) - UnixNow(at) <= tokens.expiresIn - config.needed
  {
  }
}
