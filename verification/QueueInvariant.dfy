/** What every step of the job queue keeps, and what follows for every run. */
module QueueInvariant {
  import opened Wrappers
  import opened Messages
  import opened Queue

  ghost predicate NoDuplicates<T>(xs: seq<T>) {
    forall i, j | 0 <= i < j < |xs| :: xs[i] != xs[j]
  }

  /** Only ids of rows that exist or existed are mentioned, and those were handed out. */
  ghost predicate IdsKnown(s: State) {
    && s.rows.Keys <= s.original.Keys <= s.used
    && s.replies <= s.original.Keys
    && (forall id | id in s.claims || id in s.outcomes || id in s.resets :: id in s.original)
    && (forall a: nat | !s.Pc(a).Idle? && !s.Pc(a).Closed? :: s.Pc(a).id in s.original)
  }

  /** The reply id of an open transaction is its own. */
  ghost predicate ReplyIdsFresh(s: State) {
    && (forall a: nat | s.Pc(a).InTx() :: s.Pc(a).reply in s.used && s.Pc(a).reply !in s.original)
    && (forall a: nat, b: nat | a != b && s.Pc(a).InTx() && s.Pc(b).InTx() :: s.Pc(a).reply != s.Pc(b).reply)
  }

  /** Only jobs ever get a status. */
  ghost predicate OnlyJobsMove(s: State) {
    forall id | id in s.rows :: !s.rows[id].IsJob() ==> s.rows[id].status.Unclaimed?
  }

  /** What the lock of an open transaction protects: the job stays pending and as it was read. */
  ghost predicate LocksHold(s: State) {
    && (forall a: nat | s.Pc(a).InTx() ::
          && IsPending(s, s.Pc(a).id)
          && s.Pc(a).replyRow == s.rows[s.Pc(a).id].Reply(s.Pc(a).id, s.Pc(a).replyRow.content))
    && (forall a: nat | s.Pc(a).Updated? :: s.Pc(a).doneRow == s.rows[s.Pc(a).id].AsDone(s.Pc(a).reply))
  }

  /** The lock of an updated job is exclusive. */
  ghost predicate LocksExclude(s: State) {
    forall a: nat, b: nat | a != b && s.Pc(a).Updated? && s.Pc(b).InTx() :: s.Pc(a).id != s.Pc(b).id
  }

  /** The row id stored under `key` in a row's payload. */
  function IdAt(r: Row, key: string): Option<nat> {
    if r.payload.Some? && key in r.payload.value && r.payload.value[key].Number? && r.payload.value[key].n >= 0
    then Some(r.payload.value[key].n) else None
  }

  /** The payload says exactly what happened to the row and keeps every key it came with. */
  ghost predicate PayloadFits(r: Row, original: Option<Payload>) {
    match r.status
    case Unclaimed => r.payload == original
    case Pending => r.payload == original
    case Done => IdAt(r, "reply_id").Some? && r == r.(payload := original).AsDone(IdAt(r, "reply_id").value)
    case Failed => exists error, result :: r == r.(payload := original).AsFailed(error, result)
  }

  ghost predicate PayloadsFit(s: State) {
    forall id | id in s.rows && id in s.original :: PayloadFits(s.rows[id], s.original[id])
  }

  /** `reply` is the answer to `job`: same chat, and each row's payload names the other. */
  ghost predicate Answers(s: State, job: nat, reply: nat) {
    && job in s.rows && reply in s.rows && reply in s.replies
    && s.rows[job].status.Done? && IdAt(s.rows[job], "reply_id") == Some(reply)
    && s.rows[reply] == s.rows[job].Reply(job, s.rows[reply].content)
  }

  ghost predicate RepliesLinked(s: State) {
    && (forall job | job in s.rows && s.rows[job].status.Done? ::
          var reply := IdAt(s.rows[job], "reply_id");
          reply.Some? && Answers(s, job, reply.value))
    && (forall reply | reply in s.replies && reply in s.rows ::
          var job := IdAt(s.rows[reply], "in_reply_to");
          job.Some? && Answers(s, job.value, reply))
  }

  /** A row has an outcome exactly when it is terminal, and never two. */
  ghost predicate OutcomesOnce(s: State) {
    && NoDuplicates(s.outcomes)
    && (forall id | id in s.rows :: s.rows[id].status.IsTerminal() <==> id in s.outcomes)
  }

  /** Claims are conserved: each live job was claimed once per requeue, plus once if it is not unclaimed now. */
  ghost predicate ClaimsConserved(s: State) {
    && |s.claims| == |s.claimants|
    && (forall id :: multiset(s.claims)[id] <= s.resets[id] + 1)
    && (forall id | id in s.rows ::
          multiset(s.claims)[id] == s.resets[id] + if s.rows[id].status.Unclaimed? then 0 else 1)
  }

  /** The part of the invariant that only the rows and the history decide. */
  ghost predicate RowsFit(s: State) {
    OnlyJobsMove(s) && PayloadsFit(s) && RepliesLinked(s) && OutcomesOnce(s) && ClaimsConserved(s)
  }

  ghost predicate Inv(s: State) {
    IdsKnown(s) && ReplyIdsFresh(s) && LocksHold(s) && LocksExclude(s) && RowsFit(s)
  }

  ghost predicate SameRows(s: State, t: State) {
    && t.rows == s.rows && t.claims == s.claims && t.claimants == s.claimants && t.resets == s.resets
    && t.outcomes == s.outcomes && t.replies == s.replies && t.original == s.original
  }

  lemma SameRowsFit(s: State, t: State)
    requires RowsFit(s) && SameRows(s, t)
    ensures RowsFit(t)
  {
    assert forall job: nat, reply: nat | Answers(s, job, reply) :: Answers(t, job, reply);
  }

  /** Rows change only in status and payload, and terminal rows and replies not at all. */
  ghost predicate AnswersKept(s: State, t: State) {
    forall job: nat, reply: nat | Answers(s, job, reply) :: Answers(t, job, reply)
  }

  /** Steps that only move jobs among the states other than `done` keep the links. */
  lemma LinksKept(s: State, t: State)
    requires RepliesLinked(s) && t.replies == s.replies && t.rows.Keys == s.rows.Keys
    requires forall id | id in s.rows ::
               t.rows[id] == s.rows[id] || (s.rows[id].IsJob() && !s.rows[id].status.Done? && !t.rows[id].status.Done?)
    ensures RepliesLinked(t)
  {
    assert AnswersKept(s, t);
  }

  lemma InsertKeepsRows(s: State, id: nat, row: Row, t: State)
    requires id !in s.used && row.status.Unclaimed? && IdsKnown(s) && RowsFit(s)
    requires SameRows(s.(rows := s.rows[id := row], original := s.original[id := row.payload]), t)
    ensures RowsFit(t)
  {
    assert AnswersKept(s, t);
    assert id !in s.claims && id !in s.resets && id !in s.outcomes;
  }

  lemma DeleteKeepsRows(s: State, chat: int)
    requires RowsFit(s)
    ensures RowsFit(s.(rows := WithoutChat(s.rows, chat)))
  {
    var t := s.(rows := WithoutChat(s.rows, chat));
    forall job: nat, reply: nat | Answers(s, job, reply)
      ensures (job in t.rows <==> reply in t.rows) && (job in t.rows ==> Answers(t, job, reply))
    {
    }
  }

  ghost function AfterRequeue(s: State): State {
    s.(rows := Requeued(s.rows), resets := s.resets + multiset(PendingIds(s.rows)))
  }

  lemma RequeueConservesClaims(s: State)
    requires ClaimsConserved(s)
    ensures ClaimsConserved(AfterRequeue(s))
  {
    assert forall id :: multiset(PendingIds(s.rows))[id] == if id in PendingIds(s.rows) then 1 else 0;
  }

  lemma RequeueKeepsPayloads(s: State)
    requires PayloadsFit(s)
    ensures PayloadsFit(AfterRequeue(s))
  {
    var t := AfterRequeue(s);
    forall id | id in t.rows && id in t.original ensures PayloadFits(t.rows[id], t.original[id]) {
      assert PayloadFits(s.rows[id], s.original[id]);
    }
  }

  lemma RequeueKeepsRows(s: State)
    requires RowsFit(s)
    ensures RowsFit(AfterRequeue(s))
  {
    RequeueConservesClaims(s);
    RequeueKeepsPayloads(s);
    LinksKept(s, AfterRequeue(s));
    hide ClaimsConserved, RepliesLinked, PayloadsFit;
  }

  lemma ClaimConservesClaims(s: State, a: nat, id: nat, t: State)
    requires CanClaim(s, id) && ClaimsConserved(s) && SameRows(Claim(s, a, id), t)
    ensures ClaimsConserved(t)
  {
    assert multiset(t.claims) == multiset(s.claims) + multiset{id};
  }

  lemma ClaimKeepsRows(s: State, a: nat, id: nat, t: State)
    requires CanClaim(s, id) && RowsFit(s) && SameRows(Claim(s, a, id), t)
    ensures RowsFit(t)
  {
    ClaimConservesClaims(s, a, id, t);
    LinksKept(s, t);
    hide ClaimsConserved, RepliesLinked;
  }

  lemma FailKeepsRows(s: State, e: Event)
    requires e.FinishFailed? && Enabled(s, e) && RowsFit(s) && s.rows.Keys <= s.original.Keys
    ensures RowsFit(Apply(s, e))
  {
    var t, id := Apply(s, e), s.Pc(e.actor).id;
    if IsPending(s, id) {
      var r := s.rows[id].AsFailed(e.error, e.result);
      assert r == r.(payload := s.original[id]).AsFailed(e.error, e.result);
      LinksKept(s, t);
    } else {
      SameRowsFit(s, t);
    }
  }

  /** What is known of the transaction that commits. */
  ghost predicate ReadyToCommit(s: State, pc: Pc) {
    && pc.Updated? && IsPending(s, pc.id) && pc.reply !in s.original && s.rows.Keys <= s.original.Keys
    && pc.replyRow == s.rows[pc.id].Reply(pc.id, pc.replyRow.content)
    && pc.doneRow == s.rows[pc.id].AsDone(pc.reply)
  }

  ghost function AfterCommit(s: State, pc: Pc): State
    requires pc.Updated?
  {
    s.(rows := s.rows[pc.id := pc.doneRow][pc.reply := pc.replyRow],
    outcomes := s.outcomes + [pc.id],
    replies := s.replies + {pc.reply},
    original := s.original[pc.reply := pc.replyRow.payload])
  }

  lemma CommitLinksReplies(s: State, pc: Pc)
    requires ReadyToCommit(s, pc) && RepliesLinked(s) && s.replies <= s.original.Keys
    ensures RepliesLinked(AfterCommit(s, pc))
  {
    assert AnswersKept(s, AfterCommit(s, pc));
    assert Answers(AfterCommit(s, pc), pc.id, pc.reply);
  }

  lemma CommitConservesClaims(s: State, pc: Pc)
    requires ReadyToCommit(s, pc) && ClaimsConserved(s)
    requires forall id | id in s.claims || id in s.resets :: id in s.original
    ensures ClaimsConserved(AfterCommit(s, pc))
  {
    assert pc.reply !in s.claims && pc.reply !in s.resets;
  }

  lemma CommitKeepsPayloads(s: State, pc: Pc)
    requires ReadyToCommit(s, pc) && PayloadsFit(s)
    ensures PayloadsFit(AfterCommit(s, pc))
  {
    assert pc.doneRow == pc.doneRow.(payload := s.original[pc.id]).AsDone(pc.reply);
  }

  lemma CommitKeepsRows(s: State, pc: Pc, t: State)
    requires ReadyToCommit(s, pc) && IdsKnown(s) && RowsFit(s)
    requires SameRows(AfterCommit(s, pc), t)
    ensures RowsFit(t)
  {
    CommitLinksReplies(s, pc);
    CommitConservesClaims(s, pc);
    CommitKeepsPayloads(s, pc);
    hide RepliesLinked, ClaimsConserved, PayloadsFit;
    assert RowsFit(AfterCommit(s, pc));
    hide RowsFit;
    SameRowsFit(AfterCommit(s, pc), t);
  }

  lemma RowsKnown(s: State)
    requires IdsKnown(s)
    ensures s.rows.Keys <= s.original.Keys
  {
  }

  lemma Ready(s: State, a: nat)
    requires s.Pc(a).Updated? && IdsKnown(s) && ReplyIdsFresh(s) && LocksHold(s)
    ensures ReadyToCommit(s, s.Pc(a))
  {
  }

  lemma RowsFitKept(s: State, e: Event)
    requires Enabled(s, e) && Inv(s)
    ensures RowsFit(Apply(s, e))
  {
    hide RowsFit, IdsKnown, ReplyIdsFresh, LocksHold, LocksExclude;
    var t := Apply(s, e);
    match e {
      case Insert(id, row) => InsertKeepsRows(s, id, row, t);
      case DeleteChat(chat) => DeleteKeepsRows(s, chat);
      case Requeue => RequeueKeepsRows(s);
      case FinishFailed(_, _, _) => RowsKnown(s); FailKeepsRows(s, e);
      case Commit(a) =>
        Ready(s, a);
        CommitKeepsRows(s, s.Pc(a), t);
      case TryClaim(a) =>
        if CanClaim(s, s.Pc(a).id) { ClaimKeepsRows(s, a, s.Pc(a).id, t); } else { SameRowsFit(s, t); }
      case TryClaimFails(a, applied) =>
        if applied && CanClaim(s, s.Pc(a).id) { ClaimKeepsRows(s, a, s.Pc(a).id, t); } else { SameRowsFit(s, t); }
      case _ => SameRowsFit(s, t);
    }
  }

  lemma IdsKnownKept(s: State, e: Event)
    requires Enabled(s, e) && IdsKnown(s) && ReplyIdsFresh(s)
    ensures IdsKnown(Apply(s, e))
  {
    OthersStay(s, e);
  }

  /** An open transaction has its reply id from this step, or had it before. */
  lemma ReplyIdBefore(s: State, e: Event, a: nat)
    requires Enabled(s, e) && Apply(s, e).Pc(a).InTx()
    ensures (s.Pc(a).InTx() && Apply(s, e).Pc(a).reply == s.Pc(a).reply)
            || (e.InsertReply? && e.actor == a && Apply(s, e).Pc(a).reply == e.reply && e.reply !in s.used)
    ensures s.used <= Apply(s, e).used && (e.InsertReply? && e.actor == a ==> e.reply in Apply(s, e).used)
  {
    OthersStay(s, e);
  }

  /** Only an insert and a commit make an id known, and not that of another open transaction. */
  lemma OriginalGrows(s: State, e: Event)
    requires Enabled(s, e)
    ensures Apply(s, e).original.Keys
         <= s.original.Keys + (if e.Insert? then {e.id} else if e.Commit? then {s.Pc(e.actor).reply} else {})
    ensures e.Insert? ==> e.id !in s.used
    ensures e.Commit? ==> s.Pc(e.actor).InTx() && Apply(s, e).Pc(e.actor).Closed?
  {
  }

  lemma ReplyIdsFreshKept(s: State, e: Event)
    requires Enabled(s, e) && ReplyIdsFresh(s) && s.original.Keys <= s.used
    ensures ReplyIdsFresh(Apply(s, e))
  {
    hide Enabled, Apply;
    var t := Apply(s, e);
    OriginalGrows(s, e);
    forall a: nat | t.Pc(a).InTx() ensures t.Pc(a).reply in t.used && t.Pc(a).reply !in t.original {
      ReplyIdBefore(s, e, a);
    }
    forall a: nat, b: nat | a != b && t.Pc(a).InTx() && t.Pc(b).InTx() ensures t.Pc(a).reply != t.Pc(b).reply {
      ReplyIdBefore(s, e, a);
      ReplyIdBefore(s, e, b);
    }
  }

  /** No step of anyone else touches the row of an open transaction. */
  lemma LockedRowStays(s: State, e: Event, b: nat)
    requires Enabled(s, e) && ActorOf(e) != Some(b) && s.Pc(b).InTx() && IsPending(s, s.Pc(b).id)
    requires LocksExclude(s) && ReplyIdsFresh(s) && s.rows.Keys <= s.original.Keys <= s.used
    ensures IsPending(Apply(s, e), s.Pc(b).id) && Apply(s, e).rows[s.Pc(b).id] == s.rows[s.Pc(b).id]
  {
  }

  lemma LocksHoldKept(s: State, e: Event)
    requires Enabled(s, e) && LocksHold(s) && LocksExclude(s) && ReplyIdsFresh(s)
    requires s.rows.Keys <= s.original.Keys <= s.used
    ensures LocksHold(Apply(s, e))
  {
    OthersStay(s, e);
    var t := Apply(s, e);
    forall b: nat | t.Pc(b).InTx() && ActorOf(e) != Some(b)
      ensures IsPending(t, t.Pc(b).id) && t.rows[t.Pc(b).id] == s.rows[t.Pc(b).id]
    {
      LockedRowStays(s, e, b);
    }
    hide LocksExclude, ReplyIdsFresh;
  }

  lemma LocksExcludeKept(s: State, e: Event)
    requires Enabled(s, e) && LocksExclude(s)
    ensures LocksExclude(Apply(s, e))
  {
    OthersStay(s, e);
  }

  lemma InvKept(s: State, e: Event)
    requires Enabled(s, e) && Inv(s)
    ensures Inv(Apply(s, e))
  {
    RowsFitKept(s, e);
    IdsKnownKept(s, e);
    ReplyIdsFreshKept(s, e);
    LocksHoldKept(s, e);
    LocksExcludeKept(s, e);
    hide RowsFit, IdsKnown, ReplyIdsFresh, LocksHold, LocksExclude;
  }
}
