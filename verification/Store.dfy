/**
 `JobStore`: the operations on the `chat_messages` table as one caller sees them.

 Between two of the caller's statements other sessions may do anything they can do to the table; a
 schedule lists their moves, and which of the caller's statements report a database error.
 */
module Store {
  import opened Wrappers
  import opened Messages

  const MAX_ID: nat := 0x7fff_ffff_ffff_ffff

  datatype StoreError = Database | NotPending(id: nat) | InsertIdOutOfRange(raw: nat)

  datatype Job = Job(id: nat, chat: int, content: string, status: Status, replyId: Option<int>, error: Option<string>)

  /** The table and the next id AUTO_INCREMENT hands out. */
  datatype Db = Db(rows: Table, next: nat) {
    predicate Valid() { forall id | id in rows :: id < next }
  }

  function At(r: Row, key: string): Json {
    if r.payload.Some? && key in r.payload.value then r.payload.value[key] else Null
  }

  function ToJob(id: nat, r: Row): Job {
    Job(id, r.chat, r.content, r.status,
        match At(r, "reply_id") case Number(n) => Some(n) case _ => None,
        match At(r, "error") case Text(s) => Some(s) case _ => None)
  }

  function GetIn(db: Db, id: nat): Option<Job> {
    if id in db.rows && db.rows[id].IsJob() then Some(ToJob(id, db.rows[id])) else None
  }

  function ReplyIn(db: Db, id: nat): Option<string> {
    if id in db.rows && db.rows[id].sender.Ai? then Some(db.rows[id].content) else None
  }

  // ---- what other sessions do ----

  datatype Move =
    | Arrive(row: Row)
    | Take(id: nat)
    | Settle(id: nat, outcome: Outcome)
    | Vanish(id: nat)
    | ResetPending

  function Moved(db: Db, m: Move): Db {
    match m
    case Arrive(row) => Db(db.rows[db.next := row.(status := Unclaimed)], db.next + 1)
    case Take(id) => if id in ClaimableIds(db.rows) then db.(rows := Marked(db.rows, id)) else db
    case Settle(id, outcome) => FinishIn(db, id, outcome).0
    case Vanish(id) => db.(rows := db.rows - {id})
    case ResetPending => db.(rows := Requeued(db.rows))
  }

  function Marked(t: Table, id: nat): Table
    requires id in t
  {
    t[id := t[id].(status := Pending)]
  }

  function MovedAll(db: Db, moves: seq<Move>): Db {
    if moves == [] then db else Moved(MovedAll(db, moves[..|moves| - 1]), moves[|moves| - 1])
  }

  /** `moves[k]` happens before the `k`th statement of a call; statements in `faults` report an error. */
  datatype Schedule = Schedule(moves: seq<seq<Move>>, faults: set<nat>) {
    function Before(k: nat): seq<Move> { if k < |moves| then moves[k] else [] }
  }

  // ---- claim_next ----

  /** How a call to `claim_next` ended, and the candidates it tried on the way. */
  datatype Ending = Won(job: Option<Job>) | Empty | Lost | Broken

  datatype Call = Call(db: Db, ending: Ending, tried: seq<nat>)

  function Claiming(db: Db, schedule: Schedule, attempt: nat, tried: seq<nat>): Call
    requires attempt <= CLAIM_ATTEMPTS
    decreases CLAIM_ATTEMPTS - attempt
  {
    if attempt == CLAIM_ATTEMPTS then Call(db, Lost, tried) else
    var db1 := MovedAll(db, schedule.Before(2 * attempt));
    if 2 * attempt in schedule.faults then Call(db1, Broken, tried) else
    var oldest := Oldest(db1.rows);
    if oldest.None? then Call(db1, Empty, tried) else
    var id := oldest.value;
    var db2 := MovedAll(db1, schedule.Before(2 * attempt + 1));
    if 2 * attempt + 1 in schedule.faults then Call(db2, Broken, tried + [id]) else
    if id in ClaimableIds(db2.rows) then
      var db3 := MovedAll(db2.(rows := Marked(db2.rows, id)), schedule.Before(2 * attempt + 2));
      if 2 * attempt + 2 in schedule.faults then Call(db3, Broken, tried + [id])
      else Call(db3, Won(GetIn(db3, id)), tried + [id])
    else Claiming(db2, schedule, attempt + 1, tried + [id])
  }

  function Claimed(c: Call): Result<Option<Job>, StoreError> {
    match c.ending
    case Won(job) => Ok(job)
    case Empty => Ok(None)
    case Lost => Ok(None)
    case Broken => Err(Database)
  }

  // ---- finish ----

  function FinishIn(db: Db, id: nat, outcome: Outcome): (Db, Result<(), StoreError>) {
    if id !in db.rows || !db.rows[id].status.Pending? then (db, Err(NotPending(id)))
    else
      match outcome
      case Failure(error, partial) => (db.(rows := db.rows[id := db.rows[id].AsFailed(error, partial)]), Ok(()))
      case Success(result) =>
        if db.next > MAX_ID then (db.(next := db.next + 1), Err(InsertIdOutOfRange(db.next)))
        else
          (Db(db.rows[id := db.rows[id].AsDone(db.next)][db.next := db.rows[id].Reply(id, result)], db.next + 1), Ok(()))
  }

  /** The statement of a call that reports an error, and whether the server had executed it. */
  datatype Fault = NoFault | Fails(statement: nat, executed: bool) {
    predicate At(k: nat) { Fails? && statement == k }
  }

  /**
   `finish` with a failing statement. A failure is one update. A success begins a transaction, inserts, updates
   and commits; when there was nothing to insert it rolls back instead. Used ids stay used after a rollback.
   */
  function FinishWith(db: Db, id: nat, outcome: Outcome, fault: Fault): (Db, Result<(), StoreError>) {
    var finished := FinishIn(db, id, outcome);
    var pending := id in db.rows && db.rows[id].status.Pending?;
    if outcome.Failure? then
      if fault.At(0) then (if fault.executed then finished.0 else db, Err(Database)) else finished
    else if fault.At(0) then (db, Err(Database))
    else if fault.At(1) then (if pending && fault.executed then db.(next := db.next + 1) else db, Err(Database))
    else if !pending then (db, if fault.At(2) then Err(Database) else Err(NotPending(id)))
    else if db.next <= MAX_ID && fault.At(2) then (db.(next := db.next + 1), Err(Database))
    else if db.next <= MAX_ID && fault.At(3) then
      (if fault.executed then finished.0 else db.(next := db.next + 1), Err(Database))
    else finished
  }

  class JobStore {
    var rows: Table
    var next: nat

    ghost predicate Valid() reads this { Now().Valid() }

    function Now(): Db reads this { Db(rows, next) }

    constructor ()
      ensures Valid() && Now() == Db(map[], 1)
    {
      rows, next := map[], 1;
    }

    method Insert(chat: int, content: string) returns (r: Result<nat, StoreError>)
      requires Valid()
      modifies this
      ensures Valid()
      ensures Now() == Db(old(rows)[old(next) := Row(chat, User, content, true, Unclaimed, None)], old(next) + 1)
      ensures r == if old(next) <= MAX_ID then Ok(old(next)) else Err(InsertIdOutOfRange(old(next)))
    {
      var id := next;
      rows := rows[id := Row(chat, User, content, true, Unclaimed, None)];
      next := next + 1;
      if id > MAX_ID { return Err(InsertIdOutOfRange(id)); }
      return Ok(id);
    }

    method Get(id: nat) returns (job: Option<Job>)
      ensures job == GetIn(Now(), id)
    {
      if id in rows && rows[id].IsJob() { return Some(ToJob(id, rows[id])); }
      return None;
    }

    method TryClaim(id: nat) returns (claimed: bool)
      modifies this
      ensures claimed == (id in ClaimableIds(old(rows)))
      ensures Now() == if claimed then Db(Marked(old(rows), id), old(next)) else old(Now())
    {
      claimed := id in rows && rows[id].IsClaimable();
      if claimed {
        rows := rows[id := rows[id].(status := Pending)];
      }
    }

    /** Other sessions move between two statements. */
    method Interfere(moves: seq<Move>)
      modifies this
      ensures Now() == MovedAll(old(Now()), moves)
    {
      var i := 0;
      assert moves[..0] == [];
      while i < |moves|
        invariant 0 <= i <= |moves|
        invariant Now() == MovedAll(old(Now()), moves[..i])
      {
        assert moves[..i + 1][..i] == moves[..i];
        var db := Moved(Now(), moves[i]);
        rows, next := db.rows, db.next;
        i := i + 1;
      }
      assert moves[..i] == moves;
    }

    method ClaimNext(schedule: Schedule) returns (r: Result<Option<Job>, StoreError>)
      modifies this
      ensures var call := Claiming(old(Now()), schedule, 0, []);
              Now() == call.db && r == Claimed(call)
    {
      hide MovedAll, Oldest, GetIn;
      var attempt := 0;
      ghost var tried := [];
      while attempt < CLAIM_ATTEMPTS
        invariant 0 <= attempt <= CLAIM_ATTEMPTS
        invariant Claiming(old(Now()), schedule, 0, []) == Claiming(Now(), schedule, attempt, tried)
      {
        Interfere(schedule.Before(2 * attempt));
        if 2 * attempt in schedule.faults { return Err(Database); }
        var oldest := Oldest(rows);
        if oldest.None? { return Ok(None); }
        var id := oldest.value;
        Interfere(schedule.Before(2 * attempt + 1));
        if 2 * attempt + 1 in schedule.faults { return Err(Database); }
        var claimed := TryClaim(id);
        if claimed {
          Interfere(schedule.Before(2 * attempt + 2));
          if 2 * attempt + 2 in schedule.faults { return Err(Database); }
          var job := Get(id);
          return Ok(job);
        }
        tried := tried + [id];
        attempt := attempt + 1;
      }
      return Ok(None);
    }

    method FinishDone(id: nat, result: string, fault: Fault) returns (r: Result<(), StoreError>)
      requires Valid()
      modifies this
      ensures Valid()
      ensures (Now(), r) == FinishWith(old(Now()), id, Success(result), fault)
    {
      if fault.At(0) { return Err(Database); }
      var committed := rows;
      var inserted := id in rows && rows[id].status.Pending?;
      var reply := next;
      if inserted && fault != Fails(1, false) {
        rows := rows[reply := rows[id].Reply(id, result)];
        next := next + 1;
      }
      if fault.At(1) {
        rows := committed;
        return Err(Database);
      }
      if !inserted {
        if fault.At(2) { return Err(Database); }
        return Err(NotPending(id));
      }
      if reply > MAX_ID {
        rows := committed;
        return Err(InsertIdOutOfRange(reply));
      }
      if fault.At(2) {
        rows := committed;
        return Err(Database);
      }
      rows := rows[id := rows[id].AsDone(reply)];
      if fault == Fails(3, false) {
        rows := committed;
        return Err(Database);
      }
      assert rows == committed[id := committed[id].AsDone(reply)][reply := committed[id].Reply(id, result)];
      if fault.At(3) { return Err(Database); }
      return Ok(());
    }

    method FinishFailed(id: nat, error: string, result: Option<string>, fault: Fault) returns (r: Result<(), StoreError>)
      requires Valid()
      modifies this
      ensures Valid()
      ensures (Now(), r) == FinishWith(old(Now()), id, Failure(error, result), fault)
    {
      var affected := id in rows && rows[id].status.Pending?;
      if affected && fault != Fails(0, false) {
        rows := rows[id := rows[id].AsFailed(error, result)];
      }
      if fault.At(0) { return Err(Database); }
      if affected { return Ok(()); }
      return Err(NotPending(id));
    }

    method Finish(id: nat, outcome: Outcome, fault: Fault) returns (r: Result<(), StoreError>)
      requires Valid()
      modifies this
      ensures Valid()
      ensures (Now(), r) == FinishWith(old(Now()), id, outcome, fault)
    {
      match outcome {
        case Success(result) => r := FinishDone(id, result, fault);
        case Failure(error, result) => r := FinishFailed(id, error, result, fault);
      }
    }

    method RequeuePending() returns (count: nat)
      modifies this
      ensures Now() == Db(Requeued(old(rows)), old(next))
      ensures count == |PendingIds(old(rows))|
    {
      count := |PendingIds(rows)|;
      rows := Requeued(rows);
    }
  }
}
