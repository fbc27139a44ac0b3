/**
 Broker calls and the chat application sharing one rotating refresh token.

 Each caller locks the company's row, may spend the refresh token it read with Intuit, stores the
 rotated tokens and commits. The clock (milliseconds) runs between any two steps. A response is lost
 when anything fails between Intuit's answer and the commit.
 */
module BrokerProtocol {
  import opened Wrappers
  import opened Broker

  datatype Stage =
    | Reading
    | Sent(token: string, at: nat)                             // the request left at `at`
    | Issued(tokens: TokenSet, sentAt: nat, at: nat)           // Intuit rotated the tokens at `at`
    | Received(tokens: TokenSet, issuedAt: nat, at: nat)

  /** Who holds the row lock. */
  datatype Holder = Holder(caller: nat, app: bool, stage: Stage)

  datatype State = State(
    row: CompanyRow,
    holder: Option<Holder>,
    time: nat,
    config: Config,
    // Intuit's side: the refresh token it accepts, and when each access token really expires
    current: string,
    expiry: map<string, int>,
    refreshExpiry: map<string, int>,   // and each refresh token that it issued on a request
    issued: set<string>,       // refresh tokens that exist or existed
    abandoned: multiset<string>,   // tokens of requests that were given up but may still reach Intuit
    // history: the refresh tokens that reached Intuit, in order; those of them that it consumed or rejected as stale;
    // those that it answered with another error; and whether this broker stored the row's tokens
    sent: seq<string>,
    spent: seq<string>,
    refused: set<string>,
    storedByBroker: bool)

  datatype Event =
    | Tick(ms: nat)
    | Lock(caller: nat, app: bool)
    | Settle                                   // a call that ends without Intuit, with an answer, an error or a crash
    | Send                                     // spends the stored refresh token
    | GiveUp                                   // no response so far: the transaction rolls back
    | Reject                                   // Intuit rejects a token that is not current
    | Refuse                                   // any other error response: Intuit did not look at the token
    | Issue(tokens: TokenSet)
    | Receive
    | Lose                                     // any failure after Intuit rotated: the transaction rolls back
    | IssueLate(tokens: TokenSet)              // Intuit rotates for a request that was given up
    | RejectLate(token: string)                // or rejects it, because its token is no longer current
    | RefuseLate(token: string)                // or answers it with another error
    | Commit(accessExpires: int, refreshExpires: int)
    | Reconnect(row: CompanyRow, token: string)  // an admin connects QuickBooks anew

  function Stored(s: State): Option<string> {
    if s.row.refresh.Some? then s.row.refresh.value.Open() else None
  }

  /** The broker's HTTP client gives up after its timeout. */
  predicate InTime(s: State, sentAt: nat)
    requires s.holder.Some?
  {
    s.holder.value.app || s.time <= sentAt + HTTP_TIMEOUT_MS
  }

  predicate Enabled(s: State, e: Event) {
    match e
    case Tick(_) => true
    case Lock(_, _) => s.holder.None?
    case Settle => s.holder.Some? && s.holder.value.stage.Reading?
    case Send =>
      s.holder.Some? && s.holder.value.stage.Reading?
      && (if s.holder.value.app then Stored(s).Some? else Decide(Some(s.row), s.config, s.time).Spend?)
    case GiveUp => s.holder.Some? && s.holder.value.stage.Sent?
    case Reject => s.holder.Some? && s.holder.value.stage.Sent? && s.holder.value.stage.token != s.current
    case Refuse => s.holder.Some? && s.holder.value.stage.Sent?
    case Issue(tokens) =>
      && s.holder.Some? && s.holder.value.stage.Sent? && s.holder.value.stage.token == s.current
      && InTime(s, s.holder.value.stage.at)
      && tokens.refresh !in s.issued && tokens.access !in s.expiry
    case Receive =>
      s.holder.Some? && s.holder.value.stage.Issued? && InTime(s, s.holder.value.stage.sentAt)
    case Lose => s.holder.Some? && (s.holder.value.stage.Issued? || s.holder.value.stage.Received?)
    case IssueLate(tokens) =>
      s.current in s.abandoned && tokens.refresh !in s.issued && tokens.access !in s.expiry
    case RejectLate(token) => token in s.abandoned && token != s.current
    case RefuseLate(token) => token in s.abandoned
    case Commit(accessExpires, refreshExpires) =>
      && s.holder.Some? && s.holder.value.stage.Received?
      && (!s.holder.value.app ==>
            var row := Rotated(s.row, s.holder.value.stage.tokens, s.holder.value.stage.at);
            row.accessExpires == Some(accessExpires) && row.refreshExpires == Some(refreshExpires))
    case Reconnect(row, token) =>
      s.holder.None? && token !in s.issued && row.refresh == Some(Sealed(token))
  }

  /** The token of the request that reaches Intuit with this event, if one does. */
  function Reaching(s: State, e: Event): Option<string> {
    if e.IssueLate? then Some(s.current)
    else if e.RejectLate? || e.RefuseLate? then Some(e.token)
    else if (e.Reject? || e.Refuse? || e.Issue?) && s.holder.Some? && s.holder.value.stage.Sent? then
      Some(s.holder.value.stage.token)
    else None
  }

  /** Intuit accepts `token` and issues new ones. */
  function Rotate(s: State, token: string, tokens: TokenSet): State {
    s.(sent := s.sent + [token],
    spent := s.spent + [token],
    current := tokens.refresh,
    issued := s.issued + {tokens.refresh},
    expiry := s.expiry[tokens.access := s.time + 1000 * tokens.expiresIn],
    refreshExpiry := s.refreshExpiry[tokens.refresh := s.time + 1000 * tokens.refreshExpiresIn])
  }

  function Apply(s: State, e: Event): State
    requires Enabled(s, e)
  {
    match e
    case Tick(ms) => s.(time := s.time + ms)
    case Lock(caller, app) => s.(holder := Some(Holder(caller, app, Reading)))
    case Settle => s.(holder := None)
    case Send =>
      var token := Stored(s).value;
      s.(holder := Some(s.holder.value.(stage := Sent(token, s.time))))
    case GiveUp => s.(holder := None, abandoned := s.abandoned + multiset{s.holder.value.stage.token})
    case Reject =>
      var token := s.holder.value.stage.token;
      s.(holder := None, sent := s.sent + [token], spent := s.spent + [token])
    case Refuse =>
      var token := s.holder.value.stage.token;
      s.(holder := None, sent := s.sent + [token], refused := s.refused + {token})
    case Issue(tokens) =>
      var stage := s.holder.value.stage;
      Rotate(s, stage.token, tokens).(holder := Some(s.holder.value.(stage := Issued(tokens, stage.at, s.time))))
    case Receive =>
      var stage := s.holder.value.stage;
      s.(holder := Some(s.holder.value.(stage := Received(stage.tokens, stage.at, s.time))))
    case Lose => s.(holder := None)
    case IssueLate(tokens) => Rotate(s, s.current, tokens).(abandoned := s.abandoned - multiset{s.current})
    case RejectLate(token) =>
      s.(abandoned := s.abandoned - multiset{token}, sent := s.sent + [token], spent := s.spent + [token])
    case RefuseLate(token) =>
      s.(abandoned := s.abandoned - multiset{token}, sent := s.sent + [token], refused := s.refused + {token})
    case Commit(accessExpires, refreshExpires) =>
      s.(row := Rotated(s.row, s.holder.value.stage.tokens, s.holder.value.stage.at)
      .(accessExpires := Some(accessExpires), refreshExpires := Some(refreshExpires)),
      holder := None, storedByBroker := !s.holder.value.app)
    case Reconnect(row, token) =>
      s.(row := row, current := token, issued := s.issued + {token}, storedByBroker := false)
  }

  /** A connected company, before anyone asks. */
  predicate IsStart(s: State) {
    s.holder.None? && s.expiry == map[] && s.refreshExpiry == map[] && s.issued == {s.current}
    && s.sent == [] && s.spent == [] && s.refused == {} && s.abandoned == multiset{}
    && Stored(s) == Some(s.current) && !s.storedByBroker
  }

  predicate Legal(s: State, es: seq<Event>)
    decreases |es|, 0
  {
    es == [] || (Legal(s, es[..|es| - 1]) && Enabled(After(s, es[..|es| - 1]), es[|es| - 1]))
  }

  function After(s: State, es: seq<Event>): State
    requires Legal(s, es)
    decreases |es|, 1
  {
    if es == [] then s else Apply(After(s, es[..|es| - 1]), es[|es| - 1])
  }

  /** Intuit rotated the tokens, and the new ones will not be stored. */
  predicate IsLoss(e: Event) { e.Lose? || e.IssueLate? }

  /** The last rotation that was lost is not yet repaired by reconnecting. */
  predicate Lost(es: seq<Event>) {
    es != [] &&
    var e := es[|es| - 1];
    IsLoss(e) || (!e.Reconnect? && Lost(es[..|es| - 1]))
  }
}
