/** What callers of `JobStore` can rely on. */
module StoreTheorems {
  import opened Wrappers
  import opened Messages
  import opened Store
  import Queue

  function Last(xs: seq<nat>): nat
    requires xs != []
  {
    xs[|xs| - 1]
  }

  // ---- claim_next ----

  /** The table when attempt `k` begins, after the attempts before it have lost their races. */
  function AtStart(db: Db, schedule: Schedule, k: nat): Db
    decreases k, 0
  {
    if k == 0 then db else AtUpdate(db, schedule, k - 1)
  }

  /** The table that attempt `k` selects its candidate from. */
  function AtSelect(db: Db, schedule: Schedule, k: nat): Db
    decreases k, 1
  {
    MovedAll(AtStart(db, schedule, k), schedule.Before(2 * k))
  }

  /** The table that its conditional update finds. */
  function AtUpdate(db: Db, schedule: Schedule, k: nat): Db
    decreases k, 2
  {
    MovedAll(AtSelect(db, schedule, k), schedule.Before(2 * k + 1))
  }

  /** Attempt `k` chose `id`, the oldest unclaimed job at that instant. */
  predicate Chose(db: Db, schedule: Schedule, k: nat, id: nat) { Oldest(AtSelect(db, schedule, k).rows) == Some(id) }

  /** Each candidate was claimable when it was selected and no longer claimable when it was to be updated. */
  ghost predicate LostRaces(db: Db, schedule: Schedule, tried: seq<nat>) {
    forall k: nat | k < |tried| ::
      Chose(db, schedule, k, tried[k]) && tried[k] !in ClaimableIds(AtUpdate(db, schedule, k).rows)
  }

  /** The last candidate was claimable at its update, so this call claimed it. */
  ghost predicate WonLast(db: Db, schedule: Schedule, tried: seq<nat>) {
    tried != [] &&
    var k, id := |tried| - 1, Last(tried);
    LostRaces(db, schedule, tried[..k]) && Chose(db, schedule, k, id)
    && id in ClaimableIds(AtUpdate(db, schedule, k).rows)
  }

  /** The table a winning call ends with: the row marked, and what others did before the re-read. */
  function AtReread(db: Db, schedule: Schedule, tried: seq<nat>): Db
    requires tried != []
  {
    var claimed := AtUpdate(db, schedule, |tried| - 1);
    MovedAll(if Last(tried) in claimed.rows then claimed.(rows := Marked(claimed.rows, Last(tried))) else claimed,
             schedule.Before(2 * |tried|))
  }

  ghost predicate Ends(db: Db, schedule: Schedule, c: Call) {
    match c.ending
    case Won(job) =>
      WonLast(db, schedule, c.tried) && c.db == AtReread(db, schedule, c.tried) && job == GetIn(c.db, Last(c.tried))
    case Empty =>
      && LostRaces(db, schedule, c.tried)
      && c.db == AtSelect(db, schedule, |c.tried|) && ClaimableIds(c.db.rows) == {}
    case Lost => |c.tried| == CLAIM_ATTEMPTS && LostRaces(db, schedule, c.tried)
    case Broken => EndsBroken(db, schedule, c)
  }

  /** The failing statement was a select, the update of the last candidate, or the re-read after that one was won. */
  ghost predicate EndsBroken(db: Db, schedule: Schedule, c: Call) {
    || (LostRaces(db, schedule, c.tried) && c.db == AtSelect(db, schedule, |c.tried|))
    || (c.tried != [] && LostRaces(db, schedule, c.tried[..|c.tried| - 1])
        && Chose(db, schedule, |c.tried| - 1, Last(c.tried)) && c.db == AtUpdate(db, schedule, |c.tried| - 1))
    || (WonLast(db, schedule, c.tried) && c.db == AtReread(db, schedule, c.tried))
  }

  lemma OneAttempt(db: Db, schedule: Schedule, tried: seq<nat>)
    requires |tried| < CLAIM_ATTEMPTS && LostRaces(db, schedule, tried)
    ensures var k := |tried|;
            var c := Claiming(AtStart(db, schedule, k), schedule, k, tried);
            var id := Oldest(AtSelect(db, schedule, k).rows);
            Ends(db, schedule, c) ||
            (id.Some? && LostRaces(db, schedule, tried + [id.value])
             && c == Claiming(AtStart(db, schedule, k + 1), schedule, k + 1, tried + [id.value]))
  {
    hide MovedAll, Oldest, GetIn, LostRaces;
    var k := |tried|;
    var c := Claiming(AtStart(db, schedule, k), schedule, k, tried);
    var id := Oldest(AtSelect(db, schedule, k).rows);
    if id.Some? {
      var more := tried + [id.value];
      assert more[..k] == tried && Last(more) == id.value;
      if id.value in ClaimableIds(AtUpdate(db, schedule, k).rows) {
        assert id.value in AtUpdate(db, schedule, k).rows;
        assert WonLast(db, schedule, more);
      } else {
        LostOneMore(db, schedule, tried, id.value);
      }
    }
  }

  lemma LostOneMore(db: Db, schedule: Schedule, tried: seq<nat>, id: nat)
    requires LostRaces(db, schedule, tried) && Chose(db, schedule, |tried|, id)
    requires id !in ClaimableIds(AtUpdate(db, schedule, |tried|).rows)
    ensures LostRaces(db, schedule, tried + [id])
  {
    hide Chose, AtUpdate;
    assert forall k | 0 <= k < |tried| :: (tried + [id])[k] == tried[k];
  }

  lemma {:induction false} EndsAfter(db: Db, schedule: Schedule, tried: seq<nat>)
    requires |tried| <= CLAIM_ATTEMPTS && LostRaces(db, schedule, tried)
    ensures Ends(db, schedule, Claiming(AtStart(db, schedule, |tried|), schedule, |tried|, tried))
    decreases CLAIM_ATTEMPTS - |tried|
  {
    if |tried| == CLAIM_ATTEMPTS {
    } else {
      OneAttempt(db, schedule, tried);
      hide Claiming, Ends, LostRaces, AtStart, AtSelect;
      var c := Claiming(AtStart(db, schedule, |tried|), schedule, |tried|, tried);
      if !Ends(db, schedule, c) {
        EndsAfter(db, schedule, tried + [Oldest(AtSelect(db, schedule, |tried|).rows).value]);
      }
    }
  }

  /** How a call ends, told by the tables it met, for every schedule of other sessions and faults. */
  lemma EndingOf(db: Db, schedule: Schedule)
    ensures Ends(db, schedule, Claiming(db, schedule, 0, []))
  {
    hide Claiming, Ends;
    EndsAfter(db, schedule, []);
  }

  /**
   `None` has three causes: at the instant of a select no job was unclaimed, or the row this call had just
   claimed was gone at the re-read, or all attempts lost their races.
   */
  lemma NoneMeans(db: Db, schedule: Schedule)
    requires Claimed(Claiming(db, schedule, 0, [])) == Ok(None)
    ensures var c := Claiming(db, schedule, 0, []);
            || ClaimableIds(AtSelect(db, schedule, |c.tried|).rows) == {}
            || (WonLast(db, schedule, c.tried) && GetIn(AtReread(db, schedule, c.tried), Last(c.tried)) == None)
            || (|c.tried| == CLAIM_ATTEMPTS && LostRaces(db, schedule, c.tried))
  {
    hide Claiming;
    EndingOf(db, schedule);
  }

  /** The first statement of a call that is to fail is the one at which the call ends, when it gets there. */
  predicate EndsAtFault(schedule: Schedule, c: Call) {
    var k := |c.tried|;
    match c.ending
    case Won(_) => Faultless(schedule, 2 * k + 1)
    case Empty => Faultless(schedule, 2 * k + 1)
    case Lost => Faultless(schedule, 2 * k)
    case Broken =>
      || (2 * k in schedule.faults && Faultless(schedule, 2 * k))
      || (k > 0 && 2 * k - 1 in schedule.faults && Faultless(schedule, 2 * k - 1))
  }

  /** None of the first `n` statements fails. */
  predicate Faultless(schedule: Schedule, n: nat) { forall i | i in schedule.faults :: i >= n }

  lemma {:induction false} FaultsEnd(db: Db, schedule: Schedule, attempt: nat, tried: seq<nat>)
    requires |tried| == attempt <= CLAIM_ATTEMPTS && Faultless(schedule, 2 * attempt)
    ensures EndsAtFault(schedule, Claiming(db, schedule, attempt, tried))
    decreases CLAIM_ATTEMPTS - attempt
  {
    hide MovedAll, Oldest, GetIn;
    if attempt == CLAIM_ATTEMPTS {
    } else {
      var db1 := MovedAll(db, schedule.Before(2 * attempt));
      var oldest := Oldest(db1.rows);
      if 2 * attempt !in schedule.faults && oldest.Some? && 2 * attempt + 1 !in schedule.faults {
        var db2 := MovedAll(db1, schedule.Before(2 * attempt + 1));
        if oldest.value !in ClaimableIds(db2.rows) {
          FaultsEnd(db2, schedule, attempt + 1, tried + [oldest.value]);
        }
      }
    }
  }

  /** A call reports a database error exactly when a statement that it gets to fails, and at the first such one. */
  lemma FirstFaultIsReported(db: Db, schedule: Schedule)
    ensures EndsAtFault(schedule, Claiming(db, schedule, 0, []))
    ensures var c := Claiming(db, schedule, 0, []);
            (Claimed(c).Err? <==> c.ending.Broken?) && (Claimed(c).Err? ==> Claimed(c) == Err(Database))
  {
    FaultsEnd(db, schedule, 0, []);
  }

  predicate CalmMoves(moves: seq<Move>) { forall m | m in moves :: !m.Vanish? && !m.ResetPending? }

  /** No row is deleted and nothing is requeued. */
  ghost predicate Calm(schedule: Schedule) { forall k: nat :: CalmMoves(schedule.Before(k)) }

  lemma MovedKeepsValid(db: Db, m: Move)
    requires db.Valid()
    ensures Moved(db, m).Valid() && Moved(db, m).next >= db.next
  {
  }

  lemma MoveClaims(db: Db, m: Move)
    requires !m.Vanish? && !m.ResetPending?
    ensures forall id | id in ClaimableIds(Moved(db, m).rows) :: id in ClaimableIds(db.rows) || id >= db.next
    ensures forall id | id in ClaimableIds(db.rows) && id != db.next && m != Take(id) ::
              id in ClaimableIds(Moved(db, m).rows)
  {
  }

  /** Calm moves add claimable rows only at the end, and take one away only by claiming it. */
  lemma {:induction false} MovesClaim(db: Db, moves: seq<Move>)
    requires db.Valid() && CalmMoves(moves)
    ensures MovedAll(db, moves).Valid() && MovedAll(db, moves).next >= db.next
    ensures forall id | id in ClaimableIds(MovedAll(db, moves).rows) :: id in ClaimableIds(db.rows) || id >= db.next
    ensures forall id | id in ClaimableIds(db.rows) && Take(id) !in moves :: id in ClaimableIds(MovedAll(db, moves).rows)
    decreases |moves|
  {
    if moves == [] {
    } else {
      var init, m := moves[..|moves| - 1], moves[|moves| - 1];
      assert m in moves && forall x | x in init :: x in moves;
      MovesClaim(db, init);
      MovedKeepsValid(MovedAll(db, init), m);
      MoveClaims(MovedAll(db, init), m);
    }
  }

  ghost predicate Increasing(xs: seq<nat>) { forall i, j | 0 <= i < j < |xs| :: xs[i] < xs[j] }

  /** One of the moves claimed row `id` while it was claimable. */
  ghost predicate TakenBy(db: Db, moves: seq<Move>, id: nat) {
    exists m: nat :: m < |moves| && moves[m] == Take(id) && id in ClaimableIds(MovedAll(db, moves[..m]).rows)
  }

  /** Calm moves take a row away only by claiming it, at a moment when it is claimable. */
  lemma {:induction false} TakenAway(db: Db, moves: seq<Move>, id: nat)
    requires db.Valid() && CalmMoves(moves)
    requires id in ClaimableIds(db.rows) && id !in ClaimableIds(MovedAll(db, moves).rows)
    ensures TakenBy(db, moves, id)
    decreases |moves|
  {
    if moves == [] {
    } else {
      var n := |moves| - 1;
      var init, m := moves[..n], moves[n];
      assert m in moves && forall x | x in init :: x in moves;
      MovesClaim(db, init);
      hide MovedAll;
      if id in ClaimableIds(MovedAll(db, init).rows) {
        assert MovedAll(db, moves) == Moved(MovedAll(db, init), m) by { LastMove(db, moves); }
        MoveClaims(MovedAll(db, init), m);
        assert id < MovedAll(db, init).next;
        assert moves[n] == Take(id);
      } else {
        TakenAway(db, init, id);
        var k: nat :| k < |init| && init[k] == Take(id) && id in ClaimableIds(MovedAll(db, init[..k]).rows);
        assert moves[k] == Take(id) && moves[..k] == init[..k];
      }
    }
  }

  lemma LastMove(db: Db, moves: seq<Move>)
    requires moves != []
    ensures MovedAll(db, moves) == Moved(MovedAll(db, moves[..|moves| - 1]), moves[|moves| - 1])
  {
  }

  /** What attempt `k` leaves behind: everything still claimable lies above the candidates so far. */
  ghost predicate Above(tried: seq<nat>, k: nat, db: Db) {
    k <= |tried| && db.Valid() &&
    forall i | 0 <= i < k :: tried[i] < db.next && forall id | id in ClaimableIds(db.rows) :: tried[i] < id
  }

  lemma AboveAfterMoves(tried: seq<nat>, k: nat, db: Db, moves: seq<Move>)
    requires Above(tried, k, db) && CalmMoves(moves)
    ensures Above(tried, k, MovedAll(db, moves))
  {
    MovesClaim(db, moves);
    hide MovedAll;
  }

  lemma {:induction false} AboveAtStart(db: Db, schedule: Schedule, tried: seq<nat>, k: nat)
    requires db.Valid() && Calm(schedule) && LostRaces(db, schedule, tried) && k <= |tried|
    ensures Above(tried, k, AtStart(db, schedule, k))
    decreases k
  {
    if k == 0 {
    } else {
      AboveAtStart(db, schedule, tried, k - 1);
      var j := k - 1;
      assert CalmMoves(schedule.Before(2 * j)) && CalmMoves(schedule.Before(2 * j + 1));
      assert Chose(db, schedule, j, tried[j]) && tried[j] !in ClaimableIds(AtUpdate(db, schedule, j).rows);
      hide MovedAll, Calm, LostRaces, Above;
      AboveAfterMoves(tried, j, AtStart(db, schedule, j), schedule.Before(2 * j));
      AboveMore(tried, j, AtSelect(db, schedule, j), schedule.Before(2 * j + 1));
    }
  }

  lemma AboveMore(tried: seq<nat>, j: nat, selected: Db, moves: seq<Move>)
    requires j < |tried| && Above(tried, j, selected) && CalmMoves(moves)
    requires Oldest(selected.rows) == Some(tried[j]) && tried[j] !in ClaimableIds(MovedAll(selected, moves).rows)
    ensures Above(tried, j + 1, MovedAll(selected, moves))
  {
    AboveAfterMoves(tried, j, selected, moves);
    MovesClaim(selected, moves);
    hide MovedAll;
    assert tried[j] in selected.rows;
  }

  /**
   Giving up after five lost races means progress elsewhere: the candidates were strictly
   increasing, and each was claimed by another session between this call's select and update.
   */
  lemma GivingUpMeansProgress(db: Db, schedule: Schedule)
    requires db.Valid() && Calm(schedule) && Claiming(db, schedule, 0, []).ending.Lost?
    ensures var tried := Claiming(db, schedule, 0, []).tried;
            && |tried| == 5 && Increasing(tried)
            && forall k: nat | k < |tried| ::
                 && Chose(db, schedule, k, tried[k])
                 && TakenBy(AtSelect(db, schedule, k), schedule.Before(2 * k + 1), tried[k])
  {
    EndingOf(db, schedule);
    hide Claiming;
    var tried := Claiming(db, schedule, 0, []).tried;
    forall k: nat | k < |tried|
      ensures Chose(db, schedule, k, tried[k])
      ensures TakenBy(AtSelect(db, schedule, k), schedule.Before(2 * k + 1), tried[k])
      ensures forall i | 0 <= i < k :: tried[i] < tried[k]
    {
      RaceWasLost(db, schedule, tried, k);
    }
  }

  lemma RaceWasLost(db: Db, schedule: Schedule, tried: seq<nat>, k: nat)
    requires db.Valid() && Calm(schedule) && LostRaces(db, schedule, tried) && k < |tried|
    ensures Chose(db, schedule, k, tried[k])
    ensures TakenBy(AtSelect(db, schedule, k), schedule.Before(2 * k + 1), tried[k])
    ensures forall i | 0 <= i < k :: tried[i] < tried[k]
  {
    AboveAtStart(db, schedule, tried, k);
    assert CalmMoves(schedule.Before(2 * k)) && CalmMoves(schedule.Before(2 * k + 1));
    assert Chose(db, schedule, k, tried[k]) && tried[k] !in ClaimableIds(AtUpdate(db, schedule, k).rows);
    hide MovedAll, Calm, LostRaces, TakenBy;
    AboveAfterMoves(tried, k, AtStart(db, schedule, k), schedule.Before(2 * k));
    TakenAway(AtSelect(db, schedule, k), schedule.Before(2 * k + 1), tried[k]);
  }

  /** With nobody else around a call takes the oldest job that waits, and nothing else. */
  lemma AloneTakesOldest(db: Db)
    ensures var c := Claiming(db, Schedule([], {}), 0, []);
            && Claimed(c).Ok?
            && (Claimed(c).value.None? <==> forall id | id in db.rows :: !Waits(db.rows[id]))
            && match Claimed(c).value
               case None => c.db == db
               case Some(job) =>
                 && job.id in db.rows && Waits(db.rows[job.id])
                 && (forall id | id in db.rows && Waits(db.rows[id]) :: job.id <= id)
                 && c.db == db.(rows := db.rows[job.id := db.rows[job.id].(status := Pending)])
                 && job.chat == db.rows[job.id].chat && job.content == db.rows[job.id].content && job.status == Pending
  {
    assert forall id | id in db.rows :: id in ClaimableIds(db.rows) <==> Waits(db.rows[id]);
  }

  /** A job is read as its row is; any other message is no job. */
  lemma JobIsReadable(db: Db, id: nat)
    ensures GetIn(db, id).Some? <==> id in db.rows && db.rows[id].sender == User && db.rows[id].agentic
    ensures GetIn(db, id).Some? ==>
              var job, row := GetIn(db, id).value, db.rows[id];
              && job.id == id && job.chat == row.chat && job.content == row.content && job.status == row.status
              && (forall reply :: job.replyId == Some(reply) <==> row.HasKey("reply_id", Number(reply)))
              && (forall error :: job.error == Some(error) <==> row.HasKey("error", Text(error)))
  {
    if GetIn(db, id).Some? {
      var job, row := GetIn(db, id).value, db.rows[id];
      assert forall reply :: job.replyId == Some(reply) <==> At(row, "reply_id") == Number(reply);
      assert forall error :: job.error == Some(error) <==> At(row, "error") == Text(error);
    }
  }

  // ---- finish ----

  predicate IsPending(db: Db, id: nat) { id in db.rows && db.rows[id].status == Pending }

  /** A success needs an id for the reply. */
  predicate CanRecord(db: Db, id: nat, outcome: Outcome) {
    IsPending(db, id) && (outcome.Success? ==> db.next <= 0x7fff_ffff_ffff_ffff)
  }

  /** A pending job can be finished, whatever its outcome is, and nothing else can. */
  lemma FinishSucceedsIff(db: Db, id: nat, outcome: Outcome)
    ensures var r := FinishIn(db, id, outcome).1;
            && (r == Ok(()) <==> CanRecord(db, id, outcome))
            && (r == Err(NotPending(id)) <==> !IsPending(db, id))
            && (r == Err(InsertIdOutOfRange(db.next)) <==> IsPending(db, id) && !CanRecord(db, id, outcome))
  {
  }

  /** Status and payload are all that finishing changes in the job's row, and in the table all but a reply. */
  ghost predicate OnlyFinished(db: Db, after: Db, id: nat, keys: set<string>) {
    && id in db.rows && id in after.rows
    && after.rows[id] == db.rows[id].(status := after.rows[id].status, payload := after.rows[id].payload)
    && (forall key | key !in keys :: At(after.rows[id], key) == At(db.rows[id], key))
    && (forall other | other in db.rows && other != id :: other in after.rows && after.rows[other] == db.rows[other])
  }

  /** A recorded success is readable: the job is done, names its reply, and the reply has the text and names the job. */
  lemma SuccessIsReadable(db: Db, id: nat, text: string)
    requires db.Valid() && CanRecord(db, id, Success(text))
    ensures var after := FinishIn(db, id, Success(text)).0;
            && after.next == db.next + 1 && after.rows.Keys == db.rows.Keys + {db.next}
            && OnlyFinished(db, after, id, {"reply_id"})
            && after.rows[id].status == Done && At(after.rows[id], "reply_id") == Number(db.next)
            && ReplyIn(after, db.next) == Some(text) && GetIn(after, db.next) == None
            && after.rows[db.next].chat == after.rows[id].chat && after.rows[db.next].agentic
            && after.rows[db.next].status == Unclaimed && At(after.rows[db.next], "in_reply_to") == Number(id)
            && (db.rows[id].IsJob() ==>
                  GetIn(after, id).Some? && GetIn(after, id).value.status.Done?
                  && GetIn(after, id).value.replyId == Some(db.next))
  {
  }

  /** A recorded failure is readable, with the partial answer when there is one, and nothing else has changed. */
  lemma FailureIsReadable(db: Db, id: nat, error: string, partial: Option<string>)
    requires CanRecord(db, id, Failure(error, partial))
    ensures var after := FinishIn(db, id, Failure(error, partial)).0;
            && after.next == db.next && after.rows.Keys == db.rows.Keys
            && OnlyFinished(db, after, id, {"error", "result"})
            && after.rows[id].status == Failed && At(after.rows[id], "error") == Text(error)
            && At(after.rows[id], "result") == (if partial.Some? then Text(partial.value) else At(db.rows[id], "result"))
            && (db.rows[id].IsJob() ==>
                  GetIn(after, id).Some? && GetIn(after, id).value.status.Failed?
                  && GetIn(after, id).value.error == Some(error))
  {
  }

  /** How many statements a call sends when none fails. */
  function StatementsOf(db: Db, id: nat, outcome: Outcome): nat {
    if outcome.Failure? then 1
    else if !IsPending(db, id) then 3              // begin, insert, roll back
    else if !CanRecord(db, id, outcome) then 2     // begin, insert
    else 4                                         // begin, insert, update, commit
  }

  /** The fault strikes a statement that the call gets to. */
  predicate Strikes(fault: Fault, db: Db, id: nat, outcome: Outcome) {
    fault.Fails? && fault.statement < StatementsOf(db, id, outcome)
  }

  /**
   Whatever statement fails, the call reports a database error, and otherwise what it would without a fault. The
   outcome is recorded whole or not at all: exactly when it can be recorded and no statement failed, or only the
   response to the last one was lost.
   */
  lemma FinishIsAllOrNothing(db: Db, id: nat, outcome: Outcome, fault: Fault)
    ensures var (after, r) := FinishWith(db, id, outcome, fault);
            var recorded := CanRecord(db, id, outcome) &&
                            (!Strikes(fault, db, id, outcome)
                             || (fault.executed && fault.statement == StatementsOf(db, id, outcome) - 1));
            && (r == Err(Database) <==> Strikes(fault, db, id, outcome))
            && (r == Ok(()) <==> CanRecord(db, id, outcome) && !Strikes(fault, db, id, outcome))
            && (r == Err(NotPending(id)) <==> !IsPending(db, id) && !Strikes(fault, db, id, outcome))
            && after.rows == (if recorded then FinishIn(db, id, outcome).0.rows else db.rows)
            && db.next <= after.next <= db.next + 1 && (recorded ==> after == FinishIn(db, id, outcome).0)
  {
  }

  /** A job is finished once: the second caller is told so and changes nothing, whatever the outcomes. */
  lemma SecondFinishRefused(db: Db, id: nat, first: Outcome, second: Outcome)
    requires db.Valid() && CanRecord(db, id, first)
    ensures var after := FinishIn(db, id, first).0; FinishIn(after, id, second) == (after, Err(NotPending(id)))
  {
  }

  /** A requeue undoes a claim: it leaves the table as if the row had not been claimed. */
  lemma RequeueUndoesClaim(db: Db, id: nat)
    requires id in ClaimableIds(db.rows)
    ensures Requeued(Marked(db.rows, id)) == Requeued(db.rows)
    ensures PendingIds(db.rows) == {} ==> Requeued(db.rows) == db.rows
  {
    assert forall k | k in db.rows :: k in PendingIds(db.rows) <==> db.rows[k].status.Pending?;
  }

  /** A requeue makes every pending job wait again, and touches no other row. */
  lemma RequeueReopens(t: Table)
    ensures Requeued(t).Keys == t.Keys
    ensures forall id | id in t ::
              Requeued(t)[id] == if t[id].status == Pending then t[id].(status := Unclaimed) else t[id]
    ensures PendingIds(Requeued(t)) == {} && ClaimableIds(Requeued(t)) >= ClaimableIds(t)
    ensures forall id | id in PendingIds(t) :: t[id].IsJob() ==> Waits(Requeued(t)[id])
  {
  }

  /** A new job is read back as it was inserted, unclaimed, and claimed after all jobs that were there before. */
  lemma InsertIsReadable(db: Db, chat: int, content: string)
    requires db.Valid()
    ensures var after := Db(db.rows[db.next := Row(chat, User, content, true, Unclaimed, None)], db.next + 1);
            && after.Valid()
            && GetIn(after, db.next) == Some(Job(db.next, chat, content, Unclaimed, None, None))
            && ReplyIn(after, db.next) == None
            && (forall other | other != db.next :: GetIn(after, other) == GetIn(db, other))
            && ClaimableIds(after.rows) == ClaimableIds(db.rows) + {db.next}
            && (Oldest(db.rows).Some? ==> Oldest(after.rows) == Oldest(db.rows))
  {
    var after := Db(db.rows[db.next := Row(chat, User, content, true, Unclaimed, None)], db.next + 1);
    assert ClaimableIds(after.rows) == ClaimableIds(db.rows) + {db.next};
    if Oldest(db.rows).Some? {
      assert Oldest(db.rows).value in db.rows;
    }
  }

  /** The other steps of the queue do to the table what the store's statements do. */
  lemma StepsAreStatements(s: Queue.State, db: Db, a: nat)
    requires s.rows == db.rows
    ensures Queue.Enabled(s, Queue.Requeue) ==> Queue.Apply(s, Queue.Requeue).rows == Requeued(db.rows)
    ensures forall chat, id: nat | Queue.Enabled(s, Queue.DeleteChat(chat)) ::
              id in Queue.Apply(s, Queue.DeleteChat(chat)).rows <==> id in db.rows && db.rows[id].chat != chat
    ensures s.Pc(a).Idle? ==>
              var pc := Queue.Apply(s, Queue.Select(a)).Pc(a);
              if Oldest(db.rows).Some? then pc == Queue.Selected(Oldest(db.rows).value) else pc.Idle?
    ensures Queue.Enabled(s, Queue.TryClaim(a)) ==>
              var t, id := Queue.Apply(s, Queue.TryClaim(a)), s.Pc(a).id;
              if id in db.rows && Waits(db.rows[id]) then t.rows == Marked(db.rows, id) && t.Pc(a) == Queue.Claimed(id)
              else t.rows == db.rows && t.Pc(a).Idle?
    ensures s.Pc(a).Claimed? ==>
              (Queue.Apply(s, Queue.Get(a)).Pc(a) == Queue.Running(s.Pc(a).id) <==> GetIn(db, s.Pc(a).id).Some?)
    ensures forall error, partial | Queue.Enabled(s, Queue.FinishFailed(a, error, partial)) ::
              (Queue.Apply(s, Queue.FinishFailed(a, error, partial)).rows
               == FinishIn(db, s.Pc(a).id, Failure(error, partial)).0.rows)
  {
  }

  /**
   The three steps of the queue's transaction, taken in a row, do to the table exactly what
   `finish_done` does as one operation.
   */
  lemma TransactionIsFinishDone(s: Queue.State, db: Db, a: nat, text: string)
    requires db.Valid() && s.rows == db.rows && db.next <= MAX_ID && db.next !in s.used
    requires s.Pc(a).Running? && forall b: nat | b != a :: !s.Pc(b).InTx()
    requires CanRecord(db, s.Pc(a).id, Success(text))
    ensures var es := [Queue.InsertReply(a, db.next, text), Queue.UpdateJob(a), Queue.Commit(a)];
            && Queue.Legal(s, es)
            && Queue.After(s, es).rows == FinishIn(db, s.Pc(a).id, Success(text)).0.rows
  {
    var e0, e1, e2 := Queue.InsertReply(a, db.next, text), Queue.UpdateJob(a), Queue.Commit(a);
    assert [e0, e1, e2][..2] == [e0, e1] && [e0, e1][..1] == [e0] && [e0][..0] == [];
    assert Queue.Legal(s, []) && Queue.After(s, []) == s;
    assert Queue.Legal(s, [e0]);
    var s1 := Queue.After(s, [e0]);
    assert s1 == Queue.Apply(s, e0);
    Queue.OthersStay(s, e0);
    assert Queue.Legal(s, [e0, e1]);
    var s2 := Queue.After(s, [e0, e1]);
    assert s2 == Queue.Apply(s1, e1);
    assert Queue.Legal(s, [e0, e1, e2]);
    assert Queue.After(s, [e0, e1, e2]) == Queue.Apply(s2, e2);
  }
}
