/** The `chat_messages` table and the SQL statements the runner sends to it. */
module Messages {
  import opened Wrappers

  /** The `status` column; `Unclaimed` is SQL `NULL`. */
  datatype Status = Unclaimed | Pending | Done | Failed {
    predicate IsTerminal() { Done? || Failed? }
  }

  datatype Sender = User | Ai

  /** How a job ended; a failure may carry a partial answer. */
  datatype Outcome = Success(result: string) | Failure(error: string, partial: Option<string>)

  /** How often `claim_next` looks for another row after losing a race. */
  const CLAIM_ATTEMPTS: nat := 5

  datatype Json = Number(n: int) | Text(s: string) | Bool(b: bool) | Null

  type Payload = map<string, Json>

  datatype Row = Row(chat: int, sender: Sender, content: string, agentic: bool, status: Status,
                     payload: Option<Payload>) {
    /** `sender = 'user' AND is_agentic = 1` */
    predicate IsJob() { sender.User? && agentic }

    predicate IsClaimable() { IsJob() && status.Unclaimed? }

    predicate HasKey(key: string, value: Json) { payload.Some? && key in payload.value && payload.value[key] == value }

    /** `JSON_SET(COALESCE(payload, JSON_OBJECT()), '$.key', value)` */
    function With(key: string, value: Json): Row {
      this.(payload := Some(payload.GetOr(map[])[key := value]))
    }

    function AsDone(reply: nat): Row {
      With("reply_id", Number(reply)).(status := Done)
    }

    function AsFailed(error: string, result: Option<string>): Row {
      var marked := With("error", Text(error)).(status := Failed);
      if result.Some? then marked.With("result", Text(result.value)) else marked
    }

    /** The `ai` row that answers this job, whose id is `id`. */
    function Reply(id: nat, text: string): Row {
      Row(chat, Ai, text, true, Unclaimed, Some(map["in_reply_to" := Number(id)]))
    }
  }

  /** An agentic message of a user that nobody has claimed. */
  predicate Waits(r: Row) { r.sender == User && r.agentic && r.status == Unclaimed }

  type Table = map<nat, Row>

  function ClaimableIds(t: Table): set<nat> {
    set id | id in t && t[id].IsClaimable()
  }

  lemma {:induction false} MinExists(ids: set<nat>) returns (least: nat)
    requires ids != {}
    ensures least in ids && forall k | k in ids :: least <= k
    decreases |ids|
  {
    var m :| m in ids;
    var rest := ids - {m};
    if rest == {} {
      least := m;
      forall k | k in ids ensures least <= k {
        assert k in rest || k == m;
      }
    } else {
      var n := MinExists(rest);
      least := if m < n then m else n;
      forall k | k in ids ensures least <= k {
        assert k in rest || k == m;
      }
    }
  }

  lemma MinIsThere(ids: set<nat>)
    requires ids != {}
    ensures exists m :: m in ids && forall k | k in ids :: m <= k
  {
    var m := MinExists(ids);
  }

  lemma FreshId(used: set<nat>) returns (id: nat)
    ensures forall x | x in used :: x < id
  {
    if used == {} {
      id := 0;
    } else {
      var x :| x in used;
      id := FreshId(used - {x});
      id := if x < id then id else x + 1;
      assert forall y | y in used :: y == x || y in used - {x};
    }
  }

  /** `... AND status IS NULL ORDER BY id LIMIT 1` */
  function Oldest(t: Table): (r: Option<nat>)
    ensures r.Some? <==> ClaimableIds(t) != {}
    ensures r.Some? ==> r.value in ClaimableIds(t) && forall k | k in ClaimableIds(t) :: r.value <= k
  {
    var ids := ClaimableIds(t);
    if ids == {} then None
    else
      MinIsThere(ids);
      var m :| m in ids && forall k | k in ids :: m <= k;
      Some(m)
  }

  /** `UPDATE ... SET status = NULL WHERE status = 'pending'` */
  function Requeued(t: Table): Table {
    map id | id in t :: if t[id].status.Pending? then t[id].(status := Unclaimed) else t[id]
  }

  function PendingIds(t: Table): set<nat> {
    set id | id in t && t[id].status.Pending?
  }

  /** Deleting a chat deletes its messages (`ON DELETE CASCADE`). */
  function WithoutChat(t: Table, chat: int): Table {
    map id | id in t && t[id].chat != chat :: t[id]
  }
}
