/**
 The job queue as a step system: any number of actors race on one `chat_messages` table.

 An actor is one pass of a worker's polling loop: it selects the oldest unclaimed id, tries the
 conditional update (going back to the selection when it loses), re-reads the row, runs the job and
 records its outcome. Every SQL statement is one step. The transaction that records a success is
 three steps: the `INSERT ... SELECT` holds a shared lock on the job's row, the `UPDATE` an
 exclusive one, and neither write is visible to others before the commit.
 */
module Queue {
  import opened Wrappers
  import opened Messages

  datatype Pc =
    | Idle
    | Selected(id: nat)
    | Claimed(id: nat)
    | Running(id: nat)
    | Inserted(id: nat, reply: nat, replyRow: Row)
    | Updated(id: nat, reply: nat, replyRow: Row, doneRow: Row)
    | Closed
  {
    /** An open transaction: the lock on row `id` is shared when `Inserted`, exclusive when `Updated`. */
    predicate InTx() { Inserted? || Updated? }

    /** The actor has claimed row `id` and not yet recorded its outcome. */
    predicate Holds() { Claimed? || Running? || InTx() }
  }

  datatype State = State(
    rows: Table,
    // ids that AUTO_INCREMENT has handed out
    used: set<nat>,
    actors: map<nat, Pc>,
    // History, which no step reads: the successful conditional updates in order (row, and who did
    // it), the rows each requeue reset, the recorded outcomes, the replies the runner committed,
    // the payload each row was inserted with, and the actors that stopped on a failure.
    claims: seq<nat>,
    claimants: seq<nat>,
    resets: multiset<nat>,
    outcomes: seq<nat>,
    replies: set<nat>,
    original: map<nat, Option<Payload>>,
    failures: set<nat>)
  {
    function Pc(a: nat): Pc { if a in actors then actors[a] else Idle }

    function At(a: nat, pc: Pc): State { this.(actors := actors[a := pc]) }

    ghost predicate Locked(id: nat) { exists a :: Pc(a).InTx() && Pc(a).id == id }

    ghost predicate LockedByOther(a: nat, id: nat) { exists b :: b != a && Pc(b).InTx() && Pc(b).id == id }
  }

  const Initial := State(map[], {}, map[], [], [], multiset{}, [], {}, map[], {})

  datatype Event =
      // the chat application and the HTTP API
    | Insert(id: nat, row: Row)
    | DeleteChat(chat: int)
    | Requeue
      // claim_next
    | Select(actor: nat)
    | TryClaim(actor: nat)
    | Get(actor: nat)
      // finish_failed
    | FinishFailed(actor: nat, error: string, result: Option<string>)
      // finish_done
    | InsertReply(actor: nat, reply: nat, text: string)
    | UpdateJob(actor: nat)
    | Commit(actor: nat)
      // a statement that reports an error; `applied` says whether the server had executed it
    | TryClaimFails(actor: nat, applied: bool)
    | GetFails(actor: nat)
      // a store error or a panic before the outcome is recorded, which rolls the transaction back
    | FinishFails(actor: nat)

  ghost predicate Enabled(s: State, e: Event) {
    match e
    case Insert(id, row) => id !in s.used && row.status.Unclaimed?
    case DeleteChat(chat) => forall a :: s.Pc(a).InTx() && s.Pc(a).id in s.rows ==> s.rows[s.Pc(a).id].chat != chat
    case Requeue => forall a :: s.Pc(a).InTx() && s.Pc(a).id in s.rows ==> !s.rows[s.Pc(a).id].status.Pending?
    case Select(a) => s.Pc(a).Idle?
    case TryClaim(a) => s.Pc(a).Selected? && !s.Locked(s.Pc(a).id)
    case Get(a) => s.Pc(a).Claimed?
    case FinishFailed(a, _, _) => s.Pc(a).Running? && !s.LockedByOther(a, s.Pc(a).id)
    case InsertReply(a, reply, _) =>
      && s.Pc(a).Running? && reply !in s.used
      && forall b :: s.Pc(b).Updated? ==> s.Pc(b).id != s.Pc(a).id
    case UpdateJob(a) => s.Pc(a).Inserted? && !s.LockedByOther(a, s.Pc(a).id) && s.Pc(a).id in s.rows
    case Commit(a) => s.Pc(a).Updated?
    case TryClaimFails(a, applied) => s.Pc(a).Selected? && (applied ==> !s.Locked(s.Pc(a).id))
    case GetFails(a) => s.Pc(a).Claimed?
    case FinishFails(a) => s.Pc(a).Running? || s.Pc(a).InTx()
  }

  function ActorOf(e: Event): Option<nat> {
    if e.Insert? || e.DeleteChat? || e.Requeue? then None else Some(e.actor)
  }

  /** The conditional update of row `id` by actor `a`, when row `id` is still unclaimed. */
  function Claim(s: State, a: nat, id: nat): State
    requires id in s.rows
  {
    s.(rows := s.rows[id := s.rows[id].(status := Pending)], claims := s.claims + [id], claimants := s.claimants + [a])
  }

  predicate CanClaim(s: State, id: nat) { id in s.rows && s.rows[id].IsClaimable() }

  predicate IsPending(s: State, id: nat) { id in s.rows && s.rows[id].status.Pending? }

  ghost function Apply(s: State, e: Event): State
    requires Enabled(s, e)
  {
    match e
    case Insert(id, row) =>
      s.(rows := s.rows[id := row], used := s.used + {id}, original := s.original[id := row.payload])
    case DeleteChat(chat) => s.(rows := WithoutChat(s.rows, chat))
    case Requeue => s.(rows := Requeued(s.rows), resets := s.resets + multiset(PendingIds(s.rows)))
    case Select(a) =>
      var oldest := Oldest(s.rows);
      if oldest.None? then s else s.At(a, Selected(oldest.value))
    case TryClaim(a) =>
      var id := s.Pc(a).id;
      if CanClaim(s, id) then Claim(s, a, id).At(a, Claimed(id)) else s.At(a, Idle)
    case Get(a) =>
      var id := s.Pc(a).id;
      s.At(a, if id in s.rows && s.rows[id].IsJob() then Running(id) else Closed)
    case FinishFailed(a, error, result) =>
      var id := s.Pc(a).id;
      if IsPending(s, id) then
        s.(rows := s.rows[id := s.rows[id].AsFailed(error, result)], outcomes := s.outcomes + [id]).At(a, Closed)
      else s.At(a, Closed)
    case InsertReply(a, reply, text) =>
      var id := s.Pc(a).id;
      if IsPending(s, id) then
        s.(used := s.used + {reply}).At(a, Inserted(id, reply, s.rows[id].Reply(id, text)))
      else s.At(a, Closed)
    case UpdateJob(a) =>
      var pc := s.Pc(a);
      s.At(a, Updated(pc.id, pc.reply, pc.replyRow, s.rows[pc.id].AsDone(pc.reply)))
    case Commit(a) =>
      var pc := s.Pc(a);
      s.(rows := s.rows[pc.id := pc.doneRow][pc.reply := pc.replyRow],
      outcomes := s.outcomes + [pc.id],
      replies := s.replies + {pc.reply},
      original := s.original[pc.reply := pc.replyRow.payload]).At(a, Closed)
    case TryClaimFails(a, applied) =>
      var id := s.Pc(a).id;
      if applied && CanClaim(s, id) then
        Claim(s, a, id).(failures := s.failures + {a}).At(a, Closed)
      else s.At(a, Closed)
    case GetFails(a) => s.(failures := s.failures + {a}).At(a, Closed)
    case FinishFails(a) => s.(failures := s.failures + {a}).At(a, Closed)
  }

  lemma OthersStay(s: State, e: Event)
    requires Enabled(s, e)
    ensures forall b: nat :: ActorOf(e) != Some(b) ==> Apply(s, e).Pc(b) == s.Pc(b)
  {
  }

  /** `es` is a run from `s`: each event is enabled where it happens. */
  ghost predicate Legal(s: State, es: seq<Event>)
    decreases |es|, 0
  {
    es == [] || (Legal(s, es[..|es| - 1]) && Enabled(After(s, es[..|es| - 1]), es[|es| - 1]))
  }

  ghost function After(s: State, es: seq<Event>): State
    requires Legal(s, es)
    decreases |es|, 1
  {
    if es == [] then s else Apply(After(s, es[..|es| - 1]), es[|es| - 1])
  }
}
