/** What the answer of a delete tells its caller about the world and the ledger. */
module DeleteAnswers {
  import Slices
  import opened Framing
  import opened DeleteProtocol
  import AuditChain

  // ---- Refusals ----

  /** Why a delete may be refused with `r`; several causes can hold at once. */
  predicate Cause(db: Db, req: Request, f: Faults, r: Outcome) {
    match r
    case AppendOnlyLedger => req.world == "var/log/deletes"
    case ShuttingDown => f.closed
    case PreconditionFailed => f.preconditionFails
    case InvalidMetadata => f.metadataInvalid
    case ReservedHeader => AuditChain.HasReserved(req.headers)
    case NotFound => req.world !in db.worlds
    case StorageFailed => f.readFails || (req.world in db.worlds && db.worlds[req.world].Durable? && (f.usageFails || f.captureFails))
    case _ => false
  }

  /** The refusals in the order they are looked for. */
  const REFUSALS: seq<Outcome> :=
    [AppendOnlyLedger, ShuttingDown, PreconditionFailed, InvalidMetadata, ReservedHeader, StorageFailed, NotFound]

  predicate Refused(db: Db, req: Request, f: Faults) { exists r :: r in REFUSALS && Cause(db, req, f, r) }

  /** The first refusal that has a cause. */
  predicate IsFirst(db: Db, req: Request, f: Faults, i: int) {
    0 <= i < |REFUSALS| && Cause(db, req, f, REFUSALS[i]) && forall j :: 0 <= j < i ==> !Cause(db, req, f, REFUSALS[j])
  }

  /** Any cause stops the delete before it changes anything, and the answer is the first refusal that has one. */
  lemma RefusedChangesNothing(db: Db, req: Request, f: Faults)
    ensures Refusal(db, req, f).Some? <==> Refused(db, req, f)
    ensures Refused(db, req, f) ==> Delete(db, req, f).0 == db
    ensures Refused(db, req, f) ==> exists i :: IsFirst(db, req, f, i) && Delete(db, req, f).1 == REFUSALS[i]
  {
    hide AuditChain.HasReserved, RemoveStage, Finish, AppendRow, Delete;
    if Refused(db, req, f) {
      var i := FirstCause(db, req, f);
      RefusalIsFirst(db, req, f, i);
      hide Refusal;
      assert Delete(db, req, f) == (db, REFUSALS[i]) by { DeleteStages(db, req, f); }
    } else {
      NoCause(db, req, f);
    }
  }

  lemma FirstCause(db: Db, req: Request, f: Faults) returns (i: nat)
    requires Refused(db, req, f)
    ensures IsFirst(db, req, f, i)
  {
    hide Cause;
    var r :| r in REFUSALS && Cause(db, req, f, r);
    var k :| 0 <= k < |REFUSALS| && REFUSALS[k] == r;
    i := 0;
    while !Cause(db, req, f, REFUSALS[i])
      invariant i <= k && forall j :: 0 <= j < i ==> !Cause(db, req, f, REFUSALS[j])
      decreases k - i
    {
      i := i + 1;
    }
  }

  lemma RefusalIsFirst(db: Db, req: Request, f: Faults, i: nat)
    requires IsFirst(db, req, f, i)
    ensures Refusal(db, req, f) == Some(REFUSALS[i])
  {
    hide AuditChain.HasReserved;
    assert i > 0 ==> !Cause(db, req, f, REFUSALS[0]);
    assert i > 1 ==> !Cause(db, req, f, REFUSALS[1]);
    assert i > 2 ==> !Cause(db, req, f, REFUSALS[2]);
    assert i > 3 ==> !Cause(db, req, f, REFUSALS[3]);
    assert i > 4 ==> !Cause(db, req, f, REFUSALS[4]);
    assert i > 5 ==> !Cause(db, req, f, REFUSALS[5]);
  }

  lemma NoCause(db: Db, req: Request, f: Faults)
    requires !Refused(db, req, f)
    ensures Refusal(db, req, f) == None
  {
    hide AuditChain.HasReserved;
    assert forall i :: 0 <= i < |REFUSALS| ==> REFUSALS[i] in REFUSALS;
    assert !Cause(db, req, f, REFUSALS[0]) && !Cause(db, req, f, REFUSALS[1]) && !Cause(db, req, f, REFUSALS[2]);
    assert !Cause(db, req, f, REFUSALS[3]) && !Cause(db, req, f, REFUSALS[4]) && !Cause(db, req, f, REFUSALS[5]);
    assert !Cause(db, req, f, REFUSALS[6]);
  }

  // ---- Rows ----

  /** A ledger row of this request about this content. */
  predicate RowFor(row: Job, kind: Kind, req: Request, content: World) {
    && row.kind == kind && row.target == req.world && row.contentType == req.contentType && row.headers == req.headers
    && row.bodySha == (if content.Durable? then content.head.bodySha else content.bodySha)
    && row.subject == (if content.Durable? then Some(content.head) else None)
  }

  /** The ledger ends with the commit of this delete, right after its own intent; both rows are new. */
  predicate CommitLast(before: seq<Job>, after: seq<Job>, req: Request, content: World) {
    && |before| + 2 <= |after|
    && RowFor(after[|after| - 1], DeleteCommit, req, content) && RowFor(after[|after| - 2], DeleteIntent, req, content)
  }

  predicate FailureLast(before: seq<Job>, after: seq<Job>, req: Request, content: World) {
    && |before| + 2 <= |after|
    && RowFor(after[|after| - 1], DeleteCommitFailed, req, content) && RowFor(after[|after| - 2], DeleteIntent, req, content)
  }

  predicate IntentLast(before: seq<Job>, after: seq<Job>, req: Request, content: World) {
    |before| + 1 <= |after| && RowFor(after[|after| - 1], DeleteIntent, req, content)
  }

  lemma JobIsRow(kind: Kind, req: Request, content: World)
    ensures RowFor(JobFor(kind, req, content), kind, req, content)
  {
  }

  /** The append cannot happen: no counter room, a ledger that does not open, or a failing append. */
  predicate AppendBlocked(db: Db, fault: AppendFault) {
    db.auditEvents + 2 > USIZE_MAX || (!db.ledgerOpen && fault.OpenFails?) || fault.AppendFails?
  }

  /** An append to a ledger that has rows adds the one row, or nothing; it fails only by its fault or for want
      of counter room. */
  lemma AppendOne(db: Db, job: Job, fault: AppendFault)
    requires db.ledger != []
    ensures var (after, event) := AppendRow(db, job, fault);
      && after.ledger == (if event.Some? then db.ledger + [job] else db.ledger)
      && after.auditEvents == db.auditEvents + (if event.Some? then 1 else 0)
      && after.worlds == db.worlds && after.lost == db.lost
      && (event.None? <==> AppendBlocked(db, fault))
      && (db.ledgerOpen ==> after.ledgerOpen)
  {
    hide NotesFor, FORMAT_ROW;
    Slices.Empty([job]);
  }

  /** The end of a delete: it answers `Deleted` exactly when its commit row was appended. */
  lemma FinishAnswers(db: Db, run: Running)
    requires db.ledger != []
    ensures var (after, r) := Finish(db, run);
      var commit, failed := JobFor(DeleteCommit, run.req, run.content), JobFor(DeleteCommitFailed, run.req, run.content);
      && after.worlds == db.worlds && after.lost == db.lost && (r == Deleted || r == AuditCommitFailed)
      && (r == Deleted <==> after.ledger == db.ledger + [commit])
      && (r == AuditCommitFailed <==> after.ledger == db.ledger + [failed] || after.ledger == db.ledger)
      && (r == Deleted <==> !AppendBlocked(db, run.faults.commit))
      && (after.ledger == db.ledger ==> after.auditEvents == db.auditEvents)
      && (after.ledger == db.ledger ==> AppendBlocked(db, run.faults.commitFailed))
  {
    var commit, failed := JobFor(DeleteCommit, run.req, run.content), JobFor(DeleteCommitFailed, run.req, run.content);
    AppendOne(db, commit, run.faults.commit);
    var (committed, row) := AppendRow(db, commit, run.faults.commit);
    AppendOne(committed, failed, run.faults.commitFailed);
    var (after, late) := AppendRow(committed, failed, run.faults.commitFailed);
    hide AppendRow;
    assert Finish(db, run) == if row.Some? then (committed, Deleted) else (after, AuditCommitFailed);
    assert (db.ledger + [commit])[|db.ledger|] == commit && (db.ledger + [failed])[|db.ledger|] == failed;
    assert commit.kind != failed.kind;
  }

  // ---- One delete ----

  lemma DeleteStages(db: Db, req: Request, f: Faults)
    ensures var (begun, run, refused) := Begin(db, req, f);
      Delete(db, req, f) == match run
                            case None => (begun, refused)
                            case Some(running) =>
                              var (gone, stopped) := RemoveStage(begun, running);
                              if stopped.Some? then (gone, stopped.value) else Finish(gone, running)
  {
    hide Begin, RemoveStage, Finish;
  }

  lemma StageLedgers(db: Db, run: Running)
    requires run.proof == CaptureUsage(db, run.req.world, run.content) && run.event.row.kind == DeleteIntent
    ensures var (after, stopped) := RemoveStage(db, run);
      && after.ledger == db.ledger && after.ledgerOpen == db.ledgerOpen && after.auditEvents <= db.auditEvents
      && (stopped == None <==> RemovalOf(run.content, run.faults).Success?)
      && (stopped == None || stopped == Some(FailedAfterIntent))
      && after.lost == (if RemovalOf(run.content, run.faults).Lost? then db.lost + [run.content] else db.lost)
      && after.worlds == (if RemovalOf(run.content, run.faults).Kept? then db.worlds else db.worlds - {run.req.world})
  {
    RemoveEffect(db, run);
    hide RemoveStage;
  }

  lemma BeginLedgers(db: Db, req: Request, f: Faults)
    requires req.world in db.worlds
    ensures var (begun, run, refused) := Begin(db, req, f);
      && begun.lost == db.lost && begun.worlds == db.worlds
      && (run.None? ==> begun.ledger == db.ledger && refused != Deleted && refused != AuditCommitFailed && refused != FailedAfterIntent)
      && (run.Some? ==> (
        && begun.ledger != [] && |begun.ledger| > |db.ledger| && begun.ledgerOpen && begun.auditEvents <= db.auditEvents + 2
        && begun.ledger[|begun.ledger| - 1] == JobFor(DeleteIntent, req, db.worlds[req.world])))
      && (Refusal(db, req, f).None? ==> (run.None? <==> AppendBlocked(db, f.intent)))
  {
    hide AppendRow, AuditChain.HasReserved, NotesFor;
    if Refusal(db, req, f).None? {
      var job := JobFor(DeleteIntent, req, db.worlds[req.world]);
      FirstAppend(db, job, f.intent);
      var (intended, event) := AppendRow(db, job, f.intent);
      assert Begin(db, req, f).0 == if event.None? then intended else CountLedger(intended);
    }
  }

  lemma FirstAppend(db: Db, job: Job, fault: AppendFault)
    ensures var (after, event) := AppendRow(db, job, fault);
      && after.worlds == db.worlds && after.lost == db.lost
      && (event.None? ==> after.ledger == db.ledger)
      && (event.Some? ==> (
        && |after.ledger| > |db.ledger| && after.ledger[|after.ledger| - 1] == job && after.ledgerOpen
        && after.auditEvents <= db.auditEvents + 2))
      && (event.None? <==> AppendBlocked(db, fault))
  {
    hide NotesFor, FORMAT_ROW;
  }

  /** What each answer says, for every database, request and fault. `Deleted`: the ledger ends with this delete's
      commit, after its own intent. `AuditCommitFailed`: the world is gone, the removal did not report failure,
      no commit row is there, and the commit-failed row is unless its append failed too. `FailedAfterIntent`: the intent is the last row, and the removal failed.
      Any other answer: ledger and worlds are as they were. */
  lemma AnswerMeans(db: Db, req: Request, f: Faults)
    requires req.world in db.worlds
    ensures var (after, r), content := Delete(db, req, f), db.worlds[req.world];
      && (r == Deleted <==> CommitLast(db.ledger, after.ledger, req, content))
      && (r == AuditCommitFailed <==>
          req.world !in after.worlds && after.lost == db.lost && !CommitLast(db.ledger, after.ledger, req, content))
      && (r == AuditCommitFailed ==>
          || FailureLast(db.ledger, after.ledger, req, content)
          || (IntentLast(db.ledger, after.ledger, req, content) && (f.commitFailed.AppendFails? || after.auditEvents + 2 > USIZE_MAX)))
      && (r == FailedAfterIntent <==>
          IntentLast(db.ledger, after.ledger, req, content) && (req.world in after.worlds || after.lost != db.lost))
      && (r != Deleted && r != AuditCommitFailed && r != FailedAfterIntent <==> after.ledger == db.ledger)
      && (r == Deleted ==> req.world !in after.worlds)
  {
    var content := db.worlds[req.world];
    JobIsRow(DeleteIntent, req, content);
    JobIsRow(DeleteCommit, req, content);
    JobIsRow(DeleteCommitFailed, req, content);
    BeginEffect(db, req, f);
    BeginLedgers(db, req, f);
    hide Begin, RemoveStage, Finish, JobFor, NewRows, WithRows, RowFor, CommitLast, FailureLast, IntentLast, RemovalOf;
    var (begun, run, refused) := Begin(db, req, f);
    if run.None? {
      assert Delete(db, req, f) == (begun, refused);
    } else {
      StageLedgers(begun, run.value);
      var (gone, stopped) := RemoveStage(begun, run.value);
      FinishAnswers(gone, run.value);
      assert Delete(db, req, f) == if stopped.Some? then (gone, stopped.value) else Finish(gone, run.value);
      AnswerFromStages(db, begun, gone, req, content, run.value, Delete(db, req, f).0, stopped, Delete(db, req, f).1);
    }
  }

  /** The same, from what the stages did to the ledger. */
  lemma AnswerFromStages(db: Db, begun: Db, gone: Db, req: Request, content: World, run: Running, after: Db, stopped: Option<Outcome>, r: Outcome)
    requires run.req == req && run.content == content && req.world in db.worlds && begun.lost == db.lost && begun.worlds == db.worlds
    requires begun.ledger != [] && |begun.ledger| > |db.ledger| && begun.ledger[|begun.ledger| - 1] == JobFor(DeleteIntent, req, content)
    requires RowFor(JobFor(DeleteIntent, req, content), DeleteIntent, req, content)
    requires RowFor(JobFor(DeleteCommit, req, content), DeleteCommit, req, content)
    requires RowFor(JobFor(DeleteCommitFailed, req, content), DeleteCommitFailed, req, content)
    requires gone.ledger == begun.ledger
    requires stopped.Some? ==> after == gone && r == FailedAfterIntent && (req.world in gone.worlds || gone.lost != db.lost)
    requires stopped.None? ==> gone.worlds == db.worlds - {req.world} && gone.lost == db.lost && after.worlds == gone.worlds && after.lost == gone.lost
    requires stopped.None? ==> (r == Deleted || r == AuditCommitFailed)
    requires stopped.None? ==> (r == Deleted <==> after.ledger == gone.ledger + [JobFor(DeleteCommit, req, content)])
    requires stopped.None? ==> (r == AuditCommitFailed <==> after.ledger == gone.ledger + [JobFor(DeleteCommitFailed, req, content)] || after.ledger == gone.ledger)
    ensures r == Deleted <==> CommitLast(db.ledger, after.ledger, req, content)
    ensures r == AuditCommitFailed <==>
            req.world !in after.worlds && after.lost == db.lost && !CommitLast(db.ledger, after.ledger, req, content)
    ensures r == AuditCommitFailed ==>
            FailureLast(db.ledger, after.ledger, req, content) || after.ledger == gone.ledger
    ensures after.ledger == gone.ledger ==> IntentLast(db.ledger, after.ledger, req, content)
    ensures r == FailedAfterIntent <==>
            IntentLast(db.ledger, after.ledger, req, content) && (req.world in after.worlds || after.lost != db.lost)
    ensures r == FailedAfterIntent || r == Deleted || r == AuditCommitFailed
    ensures |after.ledger| > |db.ledger| && (r == Deleted ==> req.world !in after.worlds)
  {
    hide JobFor;
  }

  /** The process-wide row counter has room for the two rows an append may need. */
  predicate Room(events: nat) { events + 2 <= USIZE_MAX }

  /** The counter once the intent is appended and the removed world's rows are subtracted. */
  function CountAfterRemoval(db: Db, content: World): nat {
    var intended := db.auditEvents + if db.ledger == [] then 2 else 1;
    if content.Memory? then intended else if intended < content.events then 0 else intended - content.events
  }

  /** A delete succeeds exactly when nothing refuses it, its intent can be appended, its removal works, and its
      commit can be appended. By then the ledger is open, so the commit cannot fail to open it. */
  lemma DeletedIff(db: Db, req: Request, f: Faults)
    ensures Delete(db, req, f).1 == Deleted <==> (
      && !Refused(db, req, f) && req.world in db.worlds
      && Room(db.auditEvents) && !f.intent.AppendFails? && (f.intent.OpenFails? ==> db.ledgerOpen)
      && RemovalOf(db.worlds[req.world], f).Success?
      && Room(CountAfterRemoval(db, db.worlds[req.world])) && !f.commit.AppendFails?)
  {
    RefusedChangesNothing(db, req, f);
    DeleteStages(db, req, f);
    if !Refused(db, req, f) {
      BeginLedgers(db, req, f);
      BeginEffect(db, req, f);
      var (begun, run, _) := Begin(db, req, f);
      hide Begin, RemoveStage, Finish, Refusal, Refused, NotesFor, Delete;
      if run.Some? {
        StageLedgers(begun, run.value);
        RemoveEffect(begun, run.value);
        var gone := RemoveStage(begun, run.value).0;
        FinishAnswers(gone, run.value);
      }
    }
  }

  /** What the subscribers are told of a delete whose intent brought `rows` to the ledger: those rows, then that
      the world is gone, naming the intent, then the commit. */
  predicate Told(before: Db, after: Db, rows: seq<Job>, w: string, subject: Option<Head>, commit: Job) {
    && after.ledger == before.ledger + rows + [commit] && rows != []
    && after.broadcasts == before.broadcasts + NotesFor(|before.ledger|, rows)
                           + [Gone(w, |before.ledger| + |rows| - 1, subject)] + NotesFor(|before.ledger| + |rows|, [commit])
  }

  /** A successful delete leaves nothing of the world behind but the ledger's rows: no mark, no cached writer,
      no tombstone; and the subscribers are told. */
  lemma DeletedLeavesNothing(db: Db, req: Request, f: Faults) returns (rows: seq<Job>)
    requires req.world in db.worlds && Delete(db, req, f).1 == Deleted
    ensures var after := Delete(db, req, f).0;
      && req.world !in after.worlds && req.world !in after.verified && req.world !in after.writeConns
      && (db.worlds[req.world].Durable? ==> req.world !in after.tombstones)
    ensures Told(db, Delete(db, req, f).0, rows, req.world, SubjectOf(db.worlds[req.world]), JobFor(DeleteCommit, req, db.worlds[req.world]))
  {
    var content := db.worlds[req.world];
    SuccessStages(db, req, f);
    BeginEffect(db, req, f);
    var (begun, run, _) := Begin(db, req, f);
    var gone := RemoveStage(begun, run.value).0;
    RemoveEffect(begun, run.value);
    IntentEvent(db, req, f);
    CommitEffect(gone, run.value);
    rows := NewRows(db.ledger, JobFor(DeleteIntent, req, content));
    hide Begin, RemoveStage, Finish, Delete, AppendRow, NotesFor, NewRows;
  }

  lemma SuccessStages(db: Db, req: Request, f: Faults)
    requires req.world in db.worlds && Delete(db, req, f).1 == Deleted
    ensures Begin(db, req, f).1.Some?
    ensures var run := Begin(db, req, f).1.value;
      var (gone, stopped) := RemoveStage(Begin(db, req, f).0, run);
      stopped == None && Finish(gone, run) == Delete(db, req, f)
  {
    BeginEffect(db, req, f);
    hide Begin, RemoveStage, Finish;
    var (begun, run, refused) := Begin(db, req, f);
    DeleteStages(db, req, f);
    RemoveEffect(begun, run.value);
  }

  lemma IntentEvent(db: Db, req: Request, f: Faults)
    requires req.world in db.worlds && Begin(db, req, f).1.Some?
    ensures var (begun, run, _) := Begin(db, req, f);
      var rows := NewRows(db.ledger, JobFor(DeleteIntent, req, db.worlds[req.world]));
      && run.value.event == Appended(|db.ledger| + |rows| - 1, JobFor(DeleteIntent, req, db.worlds[req.world]))
      && begun.ledger == db.ledger + rows && begun.broadcasts == db.broadcasts + NotesFor(|db.ledger|, rows)
  {
    hide AppendRow, AuditChain.HasReserved, NotesFor;
    var job := JobFor(DeleteIntent, req, db.worlds[req.world]);
    AppendEffect(db, job, f.intent);
    var (intended, event) := AppendRow(db, job, f.intent);
    assert Refusal(db, req, f).None?;
    assert Begin(db, req, f).0 == CountLedger(intended) && Begin(db, req, f).1.value.event == event.value;
  }

  lemma CommitEffect(db: Db, run: Running)
    requires db.ledger != [] && Finish(db, run).1 == Deleted
    ensures var after := Finish(db, run).0; var job := JobFor(DeleteCommit, run.req, run.content);
      after == db.(ledger := db.ledger + [job], auditEvents := db.auditEvents + 1, broadcasts := db.broadcasts + NotesFor(|db.ledger|, [job]),
                   ledgerOpen := after.ledgerOpen, inits := after.inits)
  {
    hide AppendRow, NotesFor;
    var job := JobFor(DeleteCommit, run.req, run.content);
    AppendEffect(db, job, run.faults.commit);
    var (after, row) := AppendRow(db, job, run.faults.commit);
    assert row.Some? && Finish(db, run).0 == after;
    Slices.Empty([job]);
    assert NewRows(db.ledger, job) == [job];
  }

  // ---- Every run ----

  /** Whatever other worlds did meanwhile, a delete that reaches its last stage finds its intent the ledger's
      last row and its world gone. It answers `Deleted` exactly when its commit row follows that intent, and
      `AuditCommitFailed` otherwise, with the commit-failed row there unless that append failed too. */
  lemma LastStageAnswers(a: Engine, ops: seq<Op>, b: Engine)
    requires Paired(a.db.ledger) && Formatted(a.db.ledger) && a.db.removals == [] && a.db.broadcasts == [] && a.progress.Idle?
    requires Runs(a, ops, b) && b.progress.Vanished?
    ensures var run := b.progress.run; var (after, r) := Finish(b.db, run);
      && b.db.ledger != [] && RowFor(b.db.ledger[|b.db.ledger| - 1], DeleteIntent, run.req, run.content)
      && run.req.world !in after.worlds && after.worlds == b.db.worlds
      && b.db.ledger <= after.ledger && (r == Deleted || r == AuditCommitFailed)
      && (r == Deleted <==> |after.ledger| == |b.db.ledger| + 1 && RowFor(after.ledger[|b.db.ledger|], DeleteCommit, run.req, run.content))
      && (r == AuditCommitFailed <==> (
        || after.ledger == b.db.ledger
        || (|after.ledger| == |b.db.ledger| + 1 && RowFor(after.ledger[|b.db.ledger|], DeleteCommitFailed, run.req, run.content))))
      && (after.ledger == b.db.ledger ==> AppendBlocked(b.db, run.faults.commit) && AppendBlocked(b.db, run.faults.commitFailed))
  {
    VanishedState(a, ops, b);
    var run := b.progress.run;
    FinishAnswers(b.db, run);
    JobIsRow(DeleteIntent, run.req, run.content);
    JobIsRow(DeleteCommit, run.req, run.content);
    JobIsRow(DeleteCommitFailed, run.req, run.content);
    hide Finish, Runs, Paired, Formatted, JobFor, AppendBlocked;
  }

  lemma VanishedState(a: Engine, ops: seq<Op>, b: Engine)
    requires Paired(a.db.ledger) && Formatted(a.db.ledger) && a.db.removals == [] && a.db.broadcasts == [] && a.progress.Idle?
    requires Runs(a, ops, b) && b.progress.Vanished?
    ensures IntentIsLast(b.db, b.progress.run) && b.progress.run.req.world !in b.db.worlds
  {
    assert a.db.ledger[|a.db.ledger|..] == [];
    RunKeepsLedger(a, ops, b, |a.db.ledger|);
    hide Runs, LedgerOk, IntentIsLast;
  }
}
