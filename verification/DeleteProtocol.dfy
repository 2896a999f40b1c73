/** Deleting a world: intent in the ledger, drain, physical removal, notice, then commit or commit-failed,
    with every storage call free to fail. */
module DeleteProtocol {
  import Slices
  import opened Framing
  import opened MapSum
  import AuditChain

  const USIZE_MAX: nat := 0xFFFF_FFFF_FFFF_FFFF
  const LEDGER_WORLD := "var/log/deletes"

  datatype Head = Head(generation: string, row: int, bodySha: string, hmac: string)

  datatype World = Durable(head: Head, usage: nat, events: nat) | Memory(bodySha: string)

  datatype Kind = Format | DeleteIntent | DeleteCommit | DeleteCommitFailed

  /** A ledger row as its append job describes it; `subject` is the deleted head signed into its headers. */
  datatype Job = Job(kind: Kind, target: string, bodySha: string, contentType: string, headers: seq<Header>, subject: Option<Head>)

  const FORMAT_ROW := Job(Format, LEDGER_WORLD, "", "", [], None)

  /** Broadcasts: a ledger row with its position, the id-less delete ping, or another world's event. */
  datatype Note = LedgerNote(index: nat, row: Job) | Gone(world: string, intent: nat, subject: Option<Head>) | OtherNote(world: string)

  /** Every physical removal, with the head it destroyed and the ledger's length at that moment. */
  datatype Removal = Removal(world: string, content: World, ledgerLen: nat)

  /** Two histories ride along: `removals`, and `lost`, the worlds whose removal destroyed the database and
      still reported failure. */
  datatype Db = Db(root: string, worlds: map<string, World>, ledger: seq<Job>, ledgerOpen: bool, inits: nat, ledgerCreated: bool,
                   broadcasts: seq<Note>, verified: set<string>, tombstones: set<string>, writeConns: set<string>,
                   bodyBytes: nat, auditEvents: nat, durableCount: nat, removals: seq<Removal>, lost: seq<World>)

  datatype AppendFault = NoFault | OpenFails | AppendFails

  /** How removing the directory ends: gone; given up with the database still there; or given up after the
      database was already destroyed. The last two are one and the same failure to the caller. */
  datatype RemovalOutcome = Success | Kept | Lost

  /** A ledger row as the append hands it back: read from the ledger, not from the job. */
  datatype Appended = Appended(index: nat, row: Job)

  /** Accounted usage, with the store and world it was taken for. */
  datatype UsageProof = UsageProof(root: string, world: string, usage: nat, events: nat)

  datatype Faults = Faults(closed: bool, preconditionFails: bool, metadataInvalid: bool, readFails: bool, usageFails: bool,
                           captureFails: bool, intent: AppendFault, removal: RemovalOutcome, commit: AppendFault,
                           commitFailed: AppendFault)

  datatype Request = Request(world: string, contentType: string, headers: seq<Header>)

  datatype Outcome =
    | Deleted | AppendOnlyLedger | ShuttingDown | PreconditionFailed | InvalidMetadata | ReservedHeader
    | StorageFailed | NotFound | AuditIntentFailed | FailedAfterIntent | InternalInvariant | AuditCommitFailed

  function SubjectOf(w: World): Option<Head> { if w.Durable? then Some(w.head) else None }

  function BodySha(w: World): string { if w.Durable? then w.head.bodySha else w.bodySha }

  function JobFor(kind: Kind, req: Request, w: World): Job {
    Job(kind, req.world, BodySha(w), req.contentType, req.headers, SubjectOf(w))
  }

  function NewRows(ledger: seq<Job>, job: Job): seq<Job> { (if ledger == [] then [FORMAT_ROW] else []) + [job] }

  function NotesFor(from: nat, rows: seq<Job>): seq<Note> { seq(|rows|, i requires 0 <= i < |rows| => LedgerNote(from + i, rows[i])) }

  function WithRows(db: Db, rows: seq<Job>): Db {
    db.(ledger := db.ledger + rows, auditEvents := db.auditEvents + |rows|, broadcasts := db.broadcasts + NotesFor(|db.ledger|, rows))
  }

  /** `append_ledger_event_and_notify`: the appended row, or nothing when it was not appended. */
  function AppendRow(db: Db, job: Job, fault: AppendFault): (Db, Option<Appended>) {
    if db.auditEvents + 2 > USIZE_MAX || (!db.ledgerOpen && fault.OpenFails?) then (db, None)
    else
      var open := db.(ledgerOpen := true, inits := db.inits + if db.ledgerOpen then 0 else 1);
      if fault.AppendFails? then (open, None)
      else
        var after := WithRows(open, NewRows(db.ledger, job));
        (after, Some(Appended(|after.ledger| - 1, after.ledger[|after.ledger| - 1])))
  }

  function Monus(a: nat, b: nat): nat { if a < b then 0 else a - b }

  /** The ledger world is counted once, after the first intent. */
  function CountLedger(db: Db): Db {
    db.(ledgerCreated := true, durableCount := db.durableCount + if db.ledgerCreated then 0 else 1)
  }

  /** Connections dropped, tombstone put up and taken down: what is left if the removal then fails. */
  function Drained(db: Db, w: string, content: World): Db {
    db.(writeConns := db.writeConns - {w}, tombstones := if content.Durable? then db.tombstones - {w} else db.tombstones)
  }

  /** The database is gone, whatever the caller is told. */
  function Destroyed(db: Db, w: string, content: World): Db {
    db.(worlds := db.worlds - {w}, removals := db.removals + [Removal(w, content, |db.ledger|)])
  }

  function Settled(db: Db, proof: UsageProof): Db {
    db.(bodyBytes := Monus(db.bodyBytes, proof.usage), auditEvents := Monus(db.auditEvents, proof.events),
        durableCount := Monus(db.durableCount, 1))
  }

  function CaptureUsage(db: Db, w: string, content: World): Option<UsageProof> {
    if content.Durable? then Some(UsageProof(db.root, w, content.usage, content.events)) else None
  }

  /** `into_snapshot_for`: a proof is only good for the store and world it was taken for. */
  predicate GoodFor(proof: UsageProof, db: Db, w: string) { proof.root == db.root && proof.world == w }

  /** A memory world is removed whenever it is there. */
  function RemovalOf(content: World, f: Faults): RemovalOutcome { if content.Memory? then Success else f.removal }

  /** What a refused request is refused with, before anything is appended. */
  function Refusal(db: Db, req: Request, f: Faults): Option<Outcome> {
    if req.world == LEDGER_WORLD then Some(AppendOnlyLedger)
    else if f.closed then Some(ShuttingDown)
    else if f.preconditionFails then Some(PreconditionFailed)
    else if f.metadataInvalid then Some(InvalidMetadata)
    else if AuditChain.HasReserved(req.headers) then Some(ReservedHeader)
    else if f.readFails then Some(StorageFailed)
    else if req.world !in db.worlds then Some(NotFound)
    else if db.worlds[req.world].Durable? && (f.usageFails || f.captureFails) then Some(StorageFailed)
    else None
  }

  /** A delete between its intent and its end, under the world's lock and the ledger stream lock. */
  datatype Running = Running(req: Request, content: World, proof: Option<UsageProof>, faults: Faults, event: Appended)

  /** From request to intent: refused, failed, or under way. */
  function Begin(db: Db, req: Request, f: Faults): (Db, Option<Running>, Outcome) {
    if Refusal(db, req, f).Some? then (db, None, Refusal(db, req, f).value)
    else
      var content := db.worlds[req.world];
      var (intended, event) := AppendRow(db, JobFor(DeleteIntent, req, content), f.intent);
      if event.None? then (intended, None, AuditIntentFailed)
      else (CountLedger(intended), Some(Running(req, content, CaptureUsage(db, req.world, content), f, event.value)), Deleted)
  }

  /** Drain, remove, settle the counters, tell the subscribers. `None` when the delete goes on. */
  function RemoveStage(db: Db, run: Running): (Db, Option<Outcome>) {
    var w := run.req.world;
    var drained := Drained(db, w, run.content);
    match RemovalOf(run.content, run.faults)
    case Kept => (drained, Some(FailedAfterIntent))
    case Lost =>
      var gone := Destroyed(drained, w, run.content);
      (gone.(lost := gone.lost + [run.content]), Some(FailedAfterIntent))
    case Success =>
      var gone := Destroyed(drained, w, run.content);
      var unmarked := gone.(verified := gone.verified - {w});
      if run.proof.Some? && !GoodFor(run.proof.value, unmarked, w) then (unmarked, Some(InternalInvariant))
      else
        var settled := if run.proof.Some? then Settled(unmarked, run.proof.value) else unmarked;
        if run.event.row.kind != DeleteIntent then (settled, Some(InternalInvariant))
        else (settled.(broadcasts := settled.broadcasts + [Gone(w, run.event.index, run.event.row.subject)]), None)
  }

  /** The end of a delete whose world is gone: commit, or failing that commit-failed. */
  function Finish(db: Db, run: Running): (Db, Outcome) {
    var (committed, row) := AppendRow(db, JobFor(DeleteCommit, run.req, run.content), run.faults.commit);
    if row.Some? then (committed, Deleted)
    else (AppendRow(committed, JobFor(DeleteCommitFailed, run.req, run.content), run.faults.commitFailed).0, AuditCommitFailed)
  }

  /** A delete that nothing else comes between. */
  function Delete(db: Db, req: Request, f: Faults): (Db, Outcome) {
    var (begun, run, refused) := Begin(db, req, f);
    if run.None? then (begun, refused)
    else
      var (gone, stopped) := RemoveStage(begun, run.value);
      if stopped.Some? then (gone, stopped.value) else Finish(gone, run.value)
  }

  lemma UpAndDown(s: set<string>, w: string)
    ensures s + {w} - {w} == s - {w}
  {
  }

  /** The engine's shared state, updated in place by one delete at a time: the caller holds the world's
      lock and the ledger stream lock throughout. */
  class Core {
    const root: string
    var worlds: map<string, World>
    var ledger: seq<Job>
    var ledgerOpen: bool
    var inits: nat
    var ledgerCreated: bool
    var broadcasts: seq<Note>
    var verified: set<string>
    var tombstones: set<string>
    var writeConns: set<string>
    var bodyBytes: nat
    var auditEvents: nat
    var durableCount: nat
    ghost var removals: seq<Removal>
    ghost var lost: seq<World>

    ghost function State(): Db
      reads this
    {
      Db(root, worlds, ledger, ledgerOpen, inits, ledgerCreated, broadcasts, verified, tombstones, writeConns,
         bodyBytes, auditEvents, durableCount, removals, lost)
    }

    constructor (root: string)
      ensures State() == Db(root, map[], [], false, 0, false, [], {}, {}, {}, 0, 0, 0, [], [])
    {
      this.root := root;
      worlds, ledger, ledgerOpen, inits, ledgerCreated := map[], [], false, 0, false;
      broadcasts, verified, tombstones, writeConns := [], {}, {}, {};
      bodyBytes, auditEvents, durableCount, removals, lost := 0, 0, 0, [], [];
    }

    method NotifyLedgerEvent(format: bool, index: nat, job: Job)
      requires format ==> index > 0
      modifies `broadcasts
      ensures broadcasts == old(broadcasts)
              + NotesFor(if format then index - 1 else index, (if format then [FORMAT_ROW] else []) + [job])
    {
      if format { broadcasts := broadcasts + [LedgerNote(index - 1, FORMAT_ROW)]; }
      broadcasts := broadcasts + [LedgerNote(index, job)];
    }

    /** `LedgerWriter::append`: open on first use, and let the genesis append bring the format row along.
        `None` when no row was appended, otherwise whether it was the genesis. */
    method LedgerAppend(job: Job, fault: AppendFault) returns (genesis: Option<bool>)
      modifies `ledger, `ledgerOpen, `inits
      ensures genesis.None? <==> fault.AppendFails? || (fault.OpenFails? && !old(ledgerOpen))
      ensures genesis.Some? ==> genesis.value == (old(ledger) == [])
      ensures ledger == if genesis.Some? then old(ledger) + NewRows(old(ledger), job) else old(ledger)
      ensures ledgerOpen == (old(ledgerOpen) || !fault.OpenFails?) && |old(ledger)| <= |ledger|
      ensures inits == old(inits) + if ledgerOpen && !old(ledgerOpen) then 1 else 0
    {
      if !ledgerOpen {
        if fault.OpenFails? { return None; }
        ledgerOpen, inits := true, inits + 1;
      }
      if fault.AppendFails? { return None; }
      var empty := ledger == [];
      if empty { ledger := ledger + [FORMAT_ROW]; }
      ledger := ledger + [job];
      return Some(empty);
    }

    /** Both possible rows are reserved before the append; what was not used is given back. */
    method AppendLedgerEventAndNotify(job: Job, fault: AppendFault) returns (event: Option<Appended>)
      modifies this
      ensures (State(), event) == AppendRow(old(State()), job, fault)
    {
      hide NotesFor, FORMAT_ROW;
      if auditEvents + 2 > USIZE_MAX { return None; }
      auditEvents := auditEvents + 2;
      var genesis := LedgerAppend(job, fault);
      if genesis.None? {
        auditEvents := auditEvents - 2;
        return None;
      }
      if !genesis.value { auditEvents := auditEvents - 1; }
      NotifyLedgerEvent(genesis.value, |ledger| - 1, job);
      assert State() == WithRows(old(State()).(ledgerOpen := true, inits := inits), NewRows(old(ledger), job));
      hide WithRows, NewRows;
      return Some(Appended(|ledger| - 1, ledger[|ledger| - 1]));
    }

    method CheckRequest(req: Request, f: Faults) returns (r: Option<Outcome>)
      ensures r == Refusal(State(), req, f)
    {
      if req.world == LEDGER_WORLD { return Some(AppendOnlyLedger); }
      if f.closed { return Some(ShuttingDown); }
      if f.preconditionFails { return Some(PreconditionFailed); }
      if f.metadataInvalid { return Some(InvalidMetadata); }
      if AuditChain.HasReserved(req.headers) { return Some(ReservedHeader); }
      if f.readFails { return Some(StorageFailed); }
      if req.world !in worlds { return Some(NotFound); }
      if worlds[req.world].Durable? && (f.usageFails || f.captureFails) { return Some(StorageFailed); }
      return None;
    }

    /** Cached connections go, the tombstone goes up, the files go or do not, the tombstone comes down. */
    method DrainAndRemove(w: string, content: World, f: Faults) returns (removed: bool)
      modifies this
      ensures removed == RemovalOf(content, f).Success?
      ensures var drained := Drained(old(State()), w, content);
        State() == match RemovalOf(content, f)
                   case Success => Destroyed(drained, w, content)
                   case Kept => drained
                   case Lost => Destroyed(drained, w, content).(lost := drained.lost + [content])
    {
      writeConns := writeConns - {w};
      if content.Durable? { tombstones := tombstones + {w}; }
      removed := RemoveFiles(w, content, f);
      UpAndDown(old(tombstones), w);
      if content.Durable? { tombstones := tombstones - {w}; }
    }

    method RemoveFiles(w: string, content: World, f: Faults) returns (removed: bool)
      modifies `worlds, `removals, `lost
      ensures removed == RemovalOf(content, f).Success?
      ensures worlds == (if RemovalOf(content, f).Kept? then old(worlds) else old(worlds) - {w})
      ensures removals == old(removals) + if RemovalOf(content, f).Kept? then [] else [Removal(w, content, |ledger|)]
      ensures lost == old(lost) + if RemovalOf(content, f).Lost? then [content] else []
    {
      removed := true;
      if content.Durable? && f.removal.Kept? { return false; }
      worlds := worlds - {w};
      removals := removals + [Removal(w, content, |ledger|)];
      if content.Durable? && f.removal.Lost? {
        lost := lost + [content];
        return false;
      }
    }

    /** `subtract_storage_usage` and the world count, refused for another store's or world's proof. */
    method SettleCounters(w: string, proof: UsageProof) returns (ok: bool)
      modifies `bodyBytes, `auditEvents, `durableCount
      ensures ok <==> GoodFor(proof, old(State()), w)
      ensures State() == if ok then Settled(old(State()), proof) else old(State())
    {
      if proof.root != root || proof.world != w { return false; }
      bodyBytes := Monus(bodyBytes, proof.usage);
      auditEvents := Monus(auditEvents, proof.events);
      durableCount := Monus(durableCount, 1);
      return true;
    }

    method RemoveAndTell(run: Running) returns (stopped: Option<Outcome>)
      modifies this
      ensures (State(), stopped) == RemoveStage(old(State()), run)
    {
      var w := run.req.world;
      var removed := DrainAndRemove(w, run.content, run.faults);
      if !removed { return Some(FailedAfterIntent); }
      verified := verified - {w};
      if run.proof.Some? {
        var ok := SettleCounters(w, run.proof.value);
        if !ok { return Some(InternalInvariant); }
      }
      if run.event.row.kind != DeleteIntent { return Some(InternalInvariant); }
      broadcasts := broadcasts + [Gone(w, run.event.index, run.event.row.subject)];
      return None;
    }

    method CommitOrFail(run: Running) returns (r: Outcome)
      modifies this
      ensures (State(), r) == Finish(old(State()), run)
    {
      hide AppendRow;
      var commit := AppendLedgerEventAndNotify(JobFor(DeleteCommit, run.req, run.content), run.faults.commit);
      if commit.Some? { return Deleted; }
      var failed := AppendLedgerEventAndNotify(JobFor(DeleteCommitFailed, run.req, run.content), run.faults.commitFailed);
      return AuditCommitFailed;
    }

    /** `delete_blocking`. */
    method DeleteBlocking(req: Request, f: Faults) returns (r: Outcome)
      modifies this
      ensures (State(), r) == Delete(old(State()), req, f)
    {
      hide AppendRow, Finish, RemoveStage, AuditChain.HasReserved;
      var refused := CheckRequest(req, f);
      if refused.Some? { return refused.value; }
      var content := worlds[req.world];
      var proof := if content.Durable? then Some(UsageProof(root, req.world, content.usage, content.events)) else None;
      hide Refusal;
      var event := AppendLedgerEventAndNotify(JobFor(DeleteIntent, req, content), f.intent);
      if event.None? { return AuditIntentFailed; }
      if !ledgerCreated { durableCount := durableCount + 1; }
      ledgerCreated := true;
      var run := Running(req, content, proof, f, event.value);
      var stopped := RemoveAndTell(run);
      if stopped.Some? { return stopped.value; }
      r := CommitOrFail(run);
    }
  }

  // ---- Every interleaving of deletes and writes ----

  /** Where the one running delete is, if any: the ledger stream lock admits no second one. */
  datatype Progress = Idle | Intended(run: Running) | Vanished(run: Running)

  datatype Engine = Engine(db: Db, progress: Progress)

  datatype Op =
    | Start(req: Request, faults: Faults)
    | Remove
    | Commit
    | DoWrite(world: string, content: World)
    | CloseLedger

  /** A write needs the world's lock, which a running delete of that world holds; the ledger connection is
      closed only once no file operation is left. */
  predicate Enabled(e: Engine, op: Op) {
    match op
    case Start(_, _) => e.progress.Idle?
    case Remove => e.progress.Intended?
    case Commit => e.progress.Vanished?
    case DoWrite(w, content) =>
      && w != LEDGER_WORLD && (w in e.db.worlds ==> e.db.worlds[w].Durable? == content.Durable?)
      && (!e.progress.Idle? ==> e.progress.run.req.world != w)
    case CloseLedger => e.progress.Idle?
  }

  function Bytes(): World -> nat { (w: World) => if w.Durable? then w.usage else 0 }
  function Events(): World -> nat { (w: World) => if w.Durable? then w.events else 0 }
  function One(): World -> nat { (w: World) => if w.Durable? then 1 else 0 }

  function Measure(worlds: map<string, World>, f: World -> nat): map<string, nat> { map w | w in worlds :: f(worlds[w]) }

  function Share(db: Db, w: string, f: World -> nat): nat { if w in db.worlds then f(db.worlds[w]) else 0 }

  /** A write by the lock holder of one world: its new head, usage and row count, and its counters. */
  function Write(db: Db, w: string, content: World): Db {
    db.(worlds := db.worlds[w := content], tombstones := db.tombstones - {w},
        verified := if content.Durable? then db.verified + {w} else db.verified,
        bodyBytes := Monus(db.bodyBytes + Bytes()(content), Share(db, w, Bytes())),
        auditEvents := Monus(db.auditEvents + Events()(content), Share(db, w, Events())),
        durableCount := Monus(db.durableCount + One()(content), Share(db, w, One())),
        broadcasts := db.broadcasts + [OtherNote(w)])
  }

  function Apply(e: Engine, op: Op): Engine
    requires Enabled(e, op)
  {
    match op
    case Start(req, f) =>
      var (begun, run, _) := Begin(e.db, req, f);
      Engine(begun, if run.Some? then Intended(run.value) else Idle)
    case Remove =>
      var (gone, stopped) := RemoveStage(e.db, e.progress.run);
      Engine(gone, if stopped.Some? then Idle else Vanished(e.progress.run))
    case Commit => Engine(Finish(e.db, e.progress.run).0, Idle)
    case DoWrite(w, content) => e.(db := Write(e.db, w, content))
    case CloseLedger => e.(db := e.db.(ledgerOpen := false))
  }

  predicate Runs(a: Engine, ops: seq<Op>, b: Engine)
    decreases |ops|
  {
    if ops == [] then a == b else Enabled(a, ops[0]) && Runs(Apply(a, ops[0]), ops[1..], b)
  }

  function LedgerNotes(notes: seq<Note>): seq<Note> {
    if notes == [] then [] else (if notes[0].LedgerNote? then [notes[0]] else []) + LedgerNotes(notes[1..])
  }

  predicate Closes(kind: Kind) { kind.DeleteCommit? || kind.DeleteCommitFailed? }

  /** A commit or commit-failed row stands right after the intent of the same delete. */
  predicate Paired(ledger: seq<Job>) {
    forall i :: 0 <= i < |ledger| && Closes(ledger[i].kind) ==> i > 0 && ledger[i - 1] == ledger[i].(kind := DeleteIntent)
  }

  /** The format row is the first row and no other. */
  predicate Formatted(ledger: seq<Job>) { forall i :: 0 <= i < |ledger| ==> (ledger[i].kind.Format? <==> i == 0) }

  predicate IntentAt(ledger: seq<Job>, i: int, w: string, subject: Option<Head>) {
    0 <= i < |ledger| && ledger[i].kind.DeleteIntent? && ledger[i].target == w && ledger[i].subject == subject
  }

  /** Each removal came right after an intent row that carries the removed world's final head. */
  predicate RemovalsIntended(db: Db) {
    forall i :: 0 <= i < |db.removals| ==> RemovalIntended(db.ledger, db.removals[i])
  }

  predicate RemovalIntended(ledger: seq<Job>, r: Removal) {
    IntentAt(ledger, r.ledgerLen - 1, r.world, SubjectOf(r.content)) && ledger[r.ledgerLen - 1].bodySha == BodySha(r.content)
  }

  /** Each delete ping names the intent row of its own world and head. */
  predicate PingsIntended(db: Db) {
    forall i :: 0 <= i < |db.broadcasts| && db.broadcasts[i].Gone? ==>
      IntentAt(db.ledger, db.broadcasts[i].intent, db.broadcasts[i].world, db.broadcasts[i].subject)
  }

  predicate LedgerOk(db: Db, base: nat) {
    && base <= |db.ledger| && Paired(db.ledger) && Formatted(db.ledger) && RemovalsIntended(db) && PingsIntended(db)
    && LedgerNotes(db.broadcasts) == NotesFor(base, db.ledger[base..])
  }

  /** While a delete runs, its intent is the ledger's last row, whatever other worlds do. */
  predicate IntentIsLast(db: Db, run: Running) {
    && db.ledger != [] && db.ledger[|db.ledger| - 1] == JobFor(DeleteIntent, run.req, run.content)
    && run.event == Appended(|db.ledger| - 1, db.ledger[|db.ledger| - 1])
  }

  predicate ProgressOk(e: Engine) {
    match e.progress
    case Idle => true
    case Intended(run) =>
      && IntentIsLast(e.db, run) && run.req.world in e.db.worlds && e.db.worlds[run.req.world] == run.content
      && run.proof == CaptureUsage(e.db, run.req.world, run.content)
    case Vanished(run) => IntentIsLast(e.db, run) && run.req.world !in e.db.worlds
  }

  predicate MayAppend(ledger: seq<Job>, job: Job) {
    job.kind.DeleteIntent? || (Closes(job.kind) && ledger != [] && ledger[|ledger| - 1] == job.(kind := DeleteIntent))
  }

  lemma {:induction false} LedgerNotesConcat(a: seq<Note>, b: seq<Note>)
    ensures LedgerNotes(a + b) == LedgerNotes(a) + LedgerNotes(b)
  {
    if a == [] {
      assert a + b == b;
    } else {
      var head := if a[0].LedgerNote? then [a[0]] else [];
      LedgerNotesConcat(a[1..], b);
      Slices.TailOfConcat(a, b);
      Slices.Assoc(head, LedgerNotes(a[1..]), LedgerNotes(b));
    }
  }

  lemma {:induction false} LedgerNotesAll(from: nat, rows: seq<Job>)
    ensures LedgerNotes(NotesFor(from, rows)) == NotesFor(from, rows)
    decreases |rows|
  {
    if rows != [] {
      LedgerNotesAll(from + 1, rows[1..]);
      assert NotesFor(from, rows)[1..] == NotesFor(from + 1, rows[1..]);
    }
  }

  lemma AppendPairs(ledger: seq<Job>, job: Job)
    requires Paired(ledger) && Formatted(ledger) && MayAppend(ledger, job)
    ensures Paired(ledger + NewRows(ledger, job)) && Formatted(ledger + NewRows(ledger, job))
  {
    var rows := NewRows(ledger, job);
    var all := ledger + rows;
    forall i | 0 <= i < |all| ensures (all[i].kind.Format? <==> i == 0)
      ensures Closes(all[i].kind) ==> i > 0 && all[i - 1] == all[i].(kind := DeleteIntent)
    {
      if i < |ledger| { assert all[i] == ledger[i]; }
    }
  }

  lemma AppendBroadcasts(broadcasts: seq<Note>, ledger: seq<Job>, rows: seq<Job>, base: nat)
    requires base <= |ledger| && LedgerNotes(broadcasts) == NotesFor(base, ledger[base..])
    ensures LedgerNotes(broadcasts + NotesFor(|ledger|, rows)) == NotesFor(base, (ledger + rows)[base..])
  {
    LedgerNotesConcat(broadcasts, NotesFor(|ledger|, rows));
    LedgerNotesAll(|ledger|, rows);
    assert (ledger + rows)[base..] == ledger[base..] + rows;
  }

  lemma LongerLedgerKeepsIntents(db: Db, ledger: seq<Job>, notes: seq<Note>, extra: seq<Note>)
    requires RemovalsIntended(db) && PingsIntended(db) && db.ledger <= ledger && notes == db.broadcasts + extra
    requires forall i :: 0 <= i < |extra| ==> !extra[i].Gone?
    ensures RemovalsIntended(db.(ledger := ledger, broadcasts := notes)) && PingsIntended(db.(ledger := ledger, broadcasts := notes))
  {
  }

  /** What an append does, and what it leaves alone. */
  lemma AppendEffect(db: Db, job: Job, fault: AppendFault)
    ensures var (after, event) := AppendRow(db, job, fault);
      && (event.None? ==> after == db.(ledgerOpen := after.ledgerOpen, inits := after.inits))
      && (event.Some? ==> (
        && after == WithRows(db, NewRows(db.ledger, job)).(ledgerOpen := after.ledgerOpen, inits := after.inits)
        && |after.ledger| > |db.ledger| && after.auditEvents - |after.ledger| == db.auditEvents - |db.ledger|
        && event.value == Appended(|after.ledger| - 1, job) && after.ledger[|after.ledger| - 1] == job))
  {
    hide NotesFor, FORMAT_ROW;
  }

  /** An append keeps the ledger's shape and broadcasts, and its row is the last. */
  lemma AppendKeepsLedgerOk(db: Db, base: nat, job: Job, fault: AppendFault)
    requires LedgerOk(db, base) && MayAppend(db.ledger, job)
    ensures LedgerOk(AppendRow(db, job, fault).0, base)
    ensures var (after, event) := AppendRow(db, job, fault);
      event.Some? ==> event.value == Appended(|after.ledger| - 1, job) && after.ledger != [] && after.ledger[|after.ledger| - 1] == job
  {
    AppendEffect(db, job, fault);
    var (after, event) := AppendRow(db, job, fault);
    if event.Some? {
      var rows := NewRows(db.ledger, job);
      AppendPairs(db.ledger, job);
      AppendBroadcasts(db.broadcasts, db.ledger, rows, base);
      LongerLedgerKeepsIntents(db, after.ledger, after.broadcasts, NotesFor(|db.ledger|, rows));
    }
    hide AppendRow, Paired, Formatted, LedgerNotes, NotesFor, NewRows, RemovalIntended, IntentAt;
  }

  /** The ledger invariant looks at the ledger, the removals and the broadcasts only. */
  lemma LedgerOkFrame(a: Db, b: Db, base: nat)
    requires LedgerOk(a, base) && b.ledger == a.ledger && b.removals == a.removals && b.broadcasts == a.broadcasts
    ensures LedgerOk(b, base)
  {
    hide Paired, Formatted, LedgerNotes, NotesFor, RemovalIntended, IntentAt;
  }

  lemma OtherNoteKeeps(notes: seq<Note>, note: Note)
    requires !note.LedgerNote?
    ensures LedgerNotes(notes + [note]) == LedgerNotes(notes)
  {
    LedgerNotesConcat(notes, [note]);
    assert LedgerNotes([note]) == [];
  }

  lemma StartKeeps(e: Engine, base: nat, req: Request, f: Faults)
    requires LedgerOk(e.db, base) && Enabled(e, Start(req, f))
    ensures var r := Apply(e, Start(req, f)); LedgerOk(r.db, base) && ProgressOk(r)
  {
    hide AppendRow, AuditChain.HasReserved, Paired, Formatted, LedgerNotes, NotesFor, NewRows, RemovalIntended, IntentAt;
    if Refusal(e.db, req, f).None? {
      var job := JobFor(DeleteIntent, req, e.db.worlds[req.world]);
      AppendKeepsLedgerOk(e.db, base, job, f.intent);
      AppendEffect(e.db, job, f.intent);
    }
  }

  lemma DestroyedKeeps(db: Db, base: nat, run: Running)
    requires LedgerOk(db, base) && IntentIsLast(db, run)
    ensures LedgerOk(Destroyed(Drained(db, run.req.world, run.content), run.req.world, run.content), base)
  {
    hide Paired, Formatted, LedgerNotes, NotesFor;
    var r := Removal(run.req.world, run.content, |db.ledger|);
    assert RemovalIntended(db.ledger, r);
    hide RemovalIntended;
  }

  lemma PingKeeps(db: Db, base: nat, run: Running)
    requires LedgerOk(db, base) && IntentIsLast(db, run)
    ensures LedgerOk(db.(broadcasts := db.broadcasts + [Gone(run.req.world, run.event.index, run.event.row.subject)]), base)
  {
    OtherNoteKeeps(db.broadcasts, Gone(run.req.world, run.event.index, run.event.row.subject));
    hide Paired, Formatted, LedgerNotes, NotesFor;
  }

  /** The removal stage of a delete whose proof and event are its own. */
  lemma RemoveEffect(db: Db, run: Running)
    requires run.proof == CaptureUsage(db, run.req.world, run.content) && run.event.row.kind == DeleteIntent
    ensures var w, (after, stopped) := run.req.world, RemoveStage(db, run);
      var drained := Drained(db, w, run.content);
      var gone := Destroyed(drained, w, run.content);
      match RemovalOf(run.content, run.faults)
      case Kept => after == drained && stopped == Some(FailedAfterIntent)
      case Lost => after == gone.(lost := gone.lost + [run.content]) && stopped == Some(FailedAfterIntent)
      case Success =>
        && stopped == None
        && after == (if run.content.Durable? then Settled(gone, run.proof.value) else gone).(
             verified := gone.verified - {w}, broadcasts := gone.broadcasts + [Gone(w, run.event.index, run.event.row.subject)])
  {
  }

  lemma RemoveKeeps(e: Engine, base: nat)
    requires LedgerOk(e.db, base) && ProgressOk(e) && Enabled(e, Remove)
    ensures var r := Apply(e, Remove); LedgerOk(r.db, base) && ProgressOk(r)
  {
    var run := e.progress.run;
    var w := run.req.world;
    var drained := Drained(e.db, w, run.content);
    var gone := Destroyed(drained, w, run.content);
    RemoveEffect(e.db, run);
    var after := RemoveStage(e.db, run).0;
    hide RemoveStage, Paired, Formatted, LedgerNotes, NotesFor, RemovalIntended, IntentAt;
    LedgerOkFrame(e.db, drained, base);
    DestroyedKeeps(e.db, base, run);
    PingKeeps(gone, base, run);
    match RemovalOf(run.content, run.faults)
    case Kept =>
    case Lost => LedgerOkFrame(gone, after, base);
    case Success =>
      LedgerOkFrame(gone.(broadcasts := gone.broadcasts + [Gone(w, run.event.index, run.event.row.subject)]), after, base);
  }

  lemma CommitKeeps(e: Engine, base: nat)
    requires LedgerOk(e.db, base) && ProgressOk(e) && Enabled(e, Commit)
    ensures LedgerOk(Apply(e, Commit).db, base)
  {
    var run := e.progress.run;
    var job, failed := JobFor(DeleteCommit, run.req, run.content), JobFor(DeleteCommitFailed, run.req, run.content);
    AppendKeepsLedgerOk(e.db, base, job, run.faults.commit);
    AppendEffect(e.db, job, run.faults.commit);
    var (committed, row) := AppendRow(e.db, job, run.faults.commit);
    hide AppendRow, LedgerOk, WithRows;
    if row.None? { AppendKeepsLedgerOk(committed, base, failed, run.faults.commitFailed); }
  }

  lemma WriteKeeps(e: Engine, base: nat, w: string, content: World)
    requires LedgerOk(e.db, base) && ProgressOk(e) && Enabled(e, DoWrite(w, content))
    ensures var r := Apply(e, DoWrite(w, content)); LedgerOk(r.db, base) && ProgressOk(r)
  {
    OtherNoteKeeps(e.db.broadcasts, OtherNote(w));
    hide Paired, Formatted, LedgerNotes, NotesFor, RemovalIntended, IntentAt;
  }

  lemma OpKeepsLedger(e: Engine, base: nat, op: Op)
    requires LedgerOk(e.db, base) && ProgressOk(e) && Enabled(e, op)
    ensures LedgerOk(Apply(e, op).db, base) && ProgressOk(Apply(e, op))
  {
    match op
    case Start(req, f) => StartKeeps(e, base, req, f);
    case Remove => RemoveKeeps(e, base);
    case Commit => CommitKeeps(e, base);
    case DoWrite(w, content) => WriteKeeps(e, base, w, content);
    case CloseLedger => hide Paired, Formatted, LedgerNotes, NotesFor, RemovalIntended, IntentAt;
  }

  lemma {:induction false} RunKeepsLedger(a: Engine, ops: seq<Op>, b: Engine, base: nat)
    requires LedgerOk(a.db, base) && ProgressOk(a) && Runs(a, ops, b)
    ensures LedgerOk(b.db, base) && ProgressOk(b)
    decreases |ops|
  {
    if ops != [] {
      OpKeepsLedger(a, base, ops[0]);
      RunKeepsLedger(Apply(a, ops[0]), ops[1..], b, base);
    }
  }

  /** Over every run: commits and commit-failures stand right after their own intent, the format row comes
      first, no world was removed without an intent row naming its final head, every delete ping names its
      intent, and what was broadcast of the ledger since the start is the ledger since the start. */
  lemma LedgerTellsTheStory(a: Engine, ops: seq<Op>, b: Engine)
    requires Paired(a.db.ledger) && Formatted(a.db.ledger) && a.db.removals == [] && a.db.broadcasts == [] && a.progress.Idle?
    requires Runs(a, ops, b)
    ensures Paired(b.db.ledger) && Formatted(b.db.ledger) && RemovalsIntended(b.db) && PingsIntended(b.db)
    ensures |a.db.ledger| <= |b.db.ledger|
    ensures LedgerNotes(b.db.broadcasts) == NotesFor(|a.db.ledger|, b.db.ledger[|a.db.ledger|..])
  {
    assert a.db.ledger[|a.db.ledger|..] == [];
    RunKeepsLedger(a, ops, b, |a.db.ledger|);
  }

  /** Neither internal-invariant exit is ever taken: the appended event is the intent just signed, and the
      usage proof is for this store and world, whatever ran in between. */
  lemma NoInternalInvariant(a: Engine, ops: seq<Op>, b: Engine)
    requires Paired(a.db.ledger) && Formatted(a.db.ledger) && a.db.removals == [] && a.db.broadcasts == [] && a.progress.Idle?
    requires Runs(a, ops, b) && b.progress.Intended?
    ensures RemoveStage(b.db, b.progress.run).1 != Some(InternalInvariant)
  {
    assert a.db.ledger[|a.db.ledger|..] == [];
    RunKeepsLedger(a, ops, b, |a.db.ledger|);
  }

  // ---- Counters ----

  function Total(lost: seq<World>, f: World -> nat): nat { if lost == [] then 0 else f(lost[0]) + Total(lost[1..], f) }

  /** The process counters equal what they count, plus what lost worlds left behind; the ledger's own rows
      and world are included. */
  ghost predicate Counted(db: Db) {
    && db.bodyBytes == Sum(Measure(db.worlds, Bytes())) + Total(db.lost, Bytes())
    && db.auditEvents == |db.ledger| + Sum(Measure(db.worlds, Events())) + Total(db.lost, Events())
    && db.durableCount == Sum(Measure(db.worlds, One())) + Total(db.lost, One()) + (if db.ledgerCreated then 1 else 0)
    && (db.ledgerCreated <==> db.ledger != [])
    && (forall i :: 0 <= i < |db.lost| ==> db.lost[i].Durable?)
  }

  /** The counters equal what they count, and nothing else. */
  ghost predicate Exact(db: Db) {
    && db.bodyBytes == Sum(Measure(db.worlds, Bytes()))
    && db.auditEvents == |db.ledger| + Sum(Measure(db.worlds, Events()))
    && db.durableCount == Sum(Measure(db.worlds, One())) + (if db.ledgerCreated then 1 else 0)
    && (db.ledgerCreated <==> db.ledger != [])
  }

  lemma MeasureChange(worlds: map<string, World>, w: string, content: World, f: World -> nat)
    ensures Sum(Measure(worlds[w := content], f)) == Sum(Measure(worlds, f)) - (if w in worlds then f(worlds[w]) else 0) + f(content)
    ensures Sum(Measure(worlds - {w}, f)) == Sum(Measure(worlds, f)) - (if w in worlds then f(worlds[w]) else 0)
    ensures w in worlds ==> f(worlds[w]) <= Sum(Measure(worlds, f))
  {
    assert Measure(worlds[w := content], f) == Measure(worlds, f)[w := f(content)];
    assert Measure(worlds - {w}, f) == Measure(worlds, f) - {w};
    SumOfUpdate(Measure(worlds, f), w, f(content));
    SumOfRemove(Measure(worlds, f), w);
  }

  lemma {:induction false} TotalSnoc(lost: seq<World>, w: World, f: World -> nat)
    ensures Total(lost + [w], f) == Total(lost, f) + f(w)
  {
    if lost == [] {
      assert [w][1..] == [];
    } else {
      TotalSnoc(lost[1..], w, f);
      assert (lost + [w])[1..] == lost[1..] + [w];
    }
  }

  lemma WriteCounts(db: Db, w: string, content: World)
    requires Counted(db)
    ensures Counted(Write(db, w, content))
  {
    MeasureChange(db.worlds, w, content, Bytes());
    MeasureChange(db.worlds, w, content, Events());
    MeasureChange(db.worlds, w, content, One());
    hide Measure, Total;
  }

  lemma StartCounts(db: Db, req: Request, f: Faults)
    requires Counted(db)
    ensures Counted(Begin(db, req, f).0)
  {
    hide AppendRow, AuditChain.HasReserved, Measure, Total, NotesFor, NewRows;
    if Refusal(db, req, f).None? {
      var job := JobFor(DeleteIntent, req, db.worlds[req.world]);
      AppendEffect(db, job, f.intent);
      var (intended, event) := AppendRow(db, job, f.intent);
      assert Begin(db, req, f).0 == if event.None? then intended else CountLedger(intended);
    }
  }

  lemma DestroyedCounts(db: Db, w: string, content: World)
    requires Counted(db) && w in db.worlds && db.worlds[w] == content
    ensures var gone := Destroyed(Drained(db, w, content), w, content);
      && (content.Durable? ==> Counted(gone.(lost := gone.lost + [content])))
      && (content.Durable? ==> Counted(Settled(gone, CaptureUsage(db, w, content).value)))
      && (content.Memory? ==> Counted(gone))
  {
    MeasureChange(db.worlds, w, content, Bytes());
    MeasureChange(db.worlds, w, content, Events());
    MeasureChange(db.worlds, w, content, One());
    TotalSnoc(db.lost, content, Bytes());
    TotalSnoc(db.lost, content, Events());
    TotalSnoc(db.lost, content, One());
    hide Measure, Total;
  }

  lemma CountedFrame(a: Db, b: Db)
    requires Counted(a) && b.worlds == a.worlds && b.ledger == a.ledger && b.ledgerCreated == a.ledgerCreated && b.lost == a.lost
    requires b.bodyBytes == a.bodyBytes && b.auditEvents == a.auditEvents && b.durableCount == a.durableCount
    ensures Counted(b)
  {
    hide Measure, Total;
  }

  lemma RemoveCounts(db: Db, run: Running)
    requires Counted(db) && run.req.world in db.worlds && db.worlds[run.req.world] == run.content
    requires run.proof == CaptureUsage(db, run.req.world, run.content) && run.event.row.kind == DeleteIntent
    ensures Counted(RemoveStage(db, run).0)
  {
    var w := run.req.world;
    var drained := Drained(db, w, run.content);
    var gone := Destroyed(drained, w, run.content);
    DestroyedCounts(db, w, run.content);
    CountedFrame(db, drained);
    RemoveEffect(db, run);
    var after := RemoveStage(db, run).0;
    hide RemoveStage, Counted;
    if RemovalOf(run.content, run.faults).Success? {
      CountedFrame(if run.content.Durable? then Settled(gone, run.proof.value) else gone, after);
    }
  }

  lemma FinishCounts(db: Db, run: Running)
    requires Counted(db) && db.ledger != []
    ensures Counted(Finish(db, run).0)
  {
    hide AppendRow, Measure, Total, NotesFor, NewRows;
    AppendEffect(db, JobFor(DeleteCommit, run.req, run.content), run.faults.commit);
    var (committed, row) := AppendRow(db, JobFor(DeleteCommit, run.req, run.content), run.faults.commit);
    AppendEffect(committed, JobFor(DeleteCommitFailed, run.req, run.content), run.faults.commitFailed);
  }

  lemma OpKeepsCounts(e: Engine, op: Op)
    requires Counted(e.db) && ProgressOk(e) && Enabled(e, op)
    ensures Counted(Apply(e, op).db)
  {
    match op
    case Start(req, f) => StartCounts(e.db, req, f);
    case Remove => RemoveCounts(e.db, e.progress.run);
    case Commit => FinishCounts(e.db, e.progress.run);
    case DoWrite(w, content) => WriteCounts(e.db, w, content);
    case CloseLedger =>
  }

  /** No removal of the run destroys a database and reports failure. */
  predicate LosesNone(e: Engine, ops: seq<Op>)
    decreases |ops|
  {
    ops == [] || (
      && Enabled(e, ops[0])
      && (ops[0].Remove? ==> !RemovalOf(e.progress.run.content, e.progress.run.faults).Lost?)
      && LosesNone(Apply(e, ops[0]), ops[1..]))
  }

  lemma LostGrows(e: Engine, op: Op)
    requires Enabled(e, op)
    ensures Apply(e, op).db.lost == e.db.lost + (
      if op.Remove? && RemovalOf(e.progress.run.content, e.progress.run.faults).Lost? then [e.progress.run.content] else [])
  {
    hide AuditChain.HasReserved, NotesFor, NewRows;
  }

  lemma {:induction false} RunCounts(a: Engine, ops: seq<Op>, b: Engine, base: nat)
    requires Counted(a.db) && LedgerOk(a.db, base) && ProgressOk(a) && Runs(a, ops, b)
    ensures Counted(b.db) && |a.db.lost| <= |b.db.lost|
    ensures b.db.lost == a.db.lost <==> LosesNone(a, ops)
    decreases |ops|
  {
    if ops != [] {
      var next := Apply(a, ops[0]);
      OpKeepsCounts(a, ops[0]);
      OpKeepsLedger(a, base, ops[0]);
      LostGrows(a, ops[0]);
      hide Apply, Counted, LedgerOk, ProgressOk, Enabled;
      RunCounts(next, ops[1..], b, base);
      assert a.db.lost + [] == a.db.lost;
    }
  }

  lemma ExactIffNoneLost(db: Db)
    requires Counted(db)
    ensures Exact(db) <==> db.lost == []
  {
    if db.lost != [] { assert One()(db.lost[0]) == 1; }
  }

  /** Over every interleaving of deletes, writes and faults the counters end equal to what they count,
      exactly when no removal destroyed a database and then reported failure. */
  lemma CountersExactIff(a: Engine, ops: seq<Op>, b: Engine)
    requires Exact(a.db) && a.db.lost == [] && a.progress.Idle?
    requires Paired(a.db.ledger) && Formatted(a.db.ledger) && a.db.removals == [] && a.db.broadcasts == [] && Runs(a, ops, b)
    ensures Exact(b.db) <==> LosesNone(a, ops)
  {
    assert a.db.ledger[|a.db.ledger|..] == [];
    RunCounts(a, ops, b, |a.db.ledger|);
    ExactIffNoneLost(b.db);
  }

  // ---- One delete ----

  /** A whole delete is its three stages with nothing in between, so what is proved of runs holds of it. */
  lemma DeleteIsRun(e: Engine, req: Request, f: Faults)
    requires e.progress.Idle?
    ensures exists ops :: Runs(e, ops, Engine(Delete(e.db, req, f).0, Idle))
  {
    var e1 := Apply(e, Start(req, f));
    hide Begin, RemoveStage, Finish;
    var (begun, run, refused) := Begin(e.db, req, f);
    if run.None? {
      assert e1 == Engine(Delete(e.db, req, f).0, Idle);
      assert [Start(req, f)][1..] == [];
      assert Runs(e1, [], e1);
      assert Runs(e, [Start(req, f)], e1);
    } else {
      var e2 := Apply(e1, Remove);
      var (gone, stopped) := RemoveStage(begun, run.value);
      assert Delete(e.db, req, f).0 == if stopped.Some? then gone else Finish(gone, run.value).0;
      if stopped.Some? {
        var ops := [Start(req, f), Remove];
        assert ops[1..] == [Remove] && [Remove][1..] == [] && Runs(e2, [], e2) && Runs(e1, [Remove], e2);
        assert Runs(e, ops, e2);
      } else {
        var e3 := Apply(e2, Commit);
        var ops := [Start(req, f), Remove, Commit];
        assert ops[1..] == [Remove, Commit] && [Remove, Commit][1..] == [Commit] && [Commit][1..] == [];
        assert Runs(e3, [], e3) && Runs(e2, [Commit], e3) && Runs(e1, [Remove, Commit], e3);
        assert Runs(e, ops, e3);
      }
    }
  }

  lemma BeginEffect(db: Db, req: Request, f: Faults)
    requires req.world in db.worlds
    ensures var (begun, run, refused) := Begin(db, req, f);
      var content := db.worlds[req.world];
      && begun.worlds == db.worlds
      && (run.None? ==> refused != InternalInvariant && !refused.Deleted? && !refused.AuditCommitFailed? && !refused.FailedAfterIntent?)
      && (run.Some? ==> (
        && begun == CountLedger(WithRows(db, NewRows(db.ledger, JobFor(DeleteIntent, req, content))).(ledgerOpen := begun.ledgerOpen, inits := begun.inits))
        && begun.auditEvents - |begun.ledger| == db.auditEvents - |db.ledger|
        && run.value == Running(req, content, CaptureUsage(begun, req.world, content), f, run.value.event)
        && run.value.event.row.kind == DeleteIntent))
  {
    hide AppendRow, AuditChain.HasReserved, NotesFor, NewRows;
    if Refusal(db, req, f).None? {
      var job := JobFor(DeleteIntent, req, db.worlds[req.world]);
      AppendEffect(db, job, f.intent);
      var (intended, event) := AppendRow(db, job, f.intent);
      assert Begin(db, req, f).0 == if event.None? then intended else CountLedger(intended);
    }
  }

  lemma FinishEffect(db: Db, run: Running)
    ensures var (after, r) := Finish(db, run); after.worlds == db.worlds && (r.Deleted? || r.AuditCommitFailed?)
  {
    hide AppendRow, NotesFor, NewRows;
    var job, failed := JobFor(DeleteCommit, run.req, run.content), JobFor(DeleteCommitFailed, run.req, run.content);
    AppendEffect(db, job, run.faults.commit);
    var (committed, row) := AppendRow(db, job, run.faults.commit);
    AppendEffect(committed, failed, run.faults.commitFailed);
    var (after, _) := AppendRow(committed, failed, run.faults.commitFailed);
    assert Finish(db, run).0 == if row.Some? then committed else after;
  }

  /** A delete is told that its removal failed only by the removal stage. */
  lemma FailedAfterIntentMeans(db: Db, req: Request, f: Faults)
    requires req.world in db.worlds
    ensures Delete(db, req, f).1.FailedAfterIntent? ==> (
      && Begin(db, req, f).1.Some?
      && Delete(db, req, f).0 == RemoveStage(Begin(db, req, f).0, Begin(db, req, f).1.value).0
      && RemoveStage(Begin(db, req, f).0, Begin(db, req, f).1.value).1 == Some(FailedAfterIntent))
  {
    hide Begin, RemoveStage, Finish;
    var (begun, run, refused) := Begin(db, req, f);
    BeginEffect(db, req, f);
    if run.Some? {
      var (gone, stopped) := RemoveStage(begun, run.value);
      FinishEffect(gone, run.value);
      assert Delete(db, req, f) == if stopped.Some? then (gone, stopped.value) else Finish(gone, run.value);
    } else {
      assert Delete(db, req, f) == (begun, refused);
    }
  }

  /** The world is gone exactly when the delete succeeded, failed only to commit, or failed its removal
      after destroying the database; every other world is untouched. */
  lemma DeleteOutcome(db: Db, req: Request, f: Faults)
    requires req.world in db.worlds
    ensures var (after, r) := Delete(db, req, f);
      && r != InternalInvariant
      && after.worlds == (if r.Deleted? || r.AuditCommitFailed? || (r.FailedAfterIntent? && RemovalOf(db.worlds[req.world], f).Lost?)
                          then db.worlds - {req.world} else db.worlds)
      && (r.FailedAfterIntent? ==> !RemovalOf(db.worlds[req.world], f).Success?)
  {
    hide Begin, RemoveStage, Finish;
    var (begun, run, refused) := Begin(db, req, f);
    BeginEffect(db, req, f);
    if run.Some? {
      RemoveEffect(begun, run.value);
      var (gone, stopped) := RemoveStage(begun, run.value);
      FinishEffect(gone, run.value);
      assert Delete(db, req, f) == if stopped.Some? then (gone, stopped.value) else Finish(gone, run.value);
    } else {
      assert Delete(db, req, f) == (begun, refused);
    }
  }

  /** A removal that reports failure leaves the mark and the counters as they were and no tombstone; the
      trace is the intent row, which is the ledger's last. The world itself is left intact exactly when the
      database was not destroyed. */
  lemma FailedRemovalLeavesWorldIff(db: Db, req: Request, f: Faults)
    requires req.world in db.worlds && Delete(db, req, f).1.FailedAfterIntent?
    ensures var after := Delete(db, req, f).0;
      && (after.worlds == db.worlds <==> RemovalOf(db.worlds[req.world], f).Kept?)
      && after.verified == db.verified && after.bodyBytes == db.bodyBytes
      && after.auditEvents - |after.ledger| == db.auditEvents - |db.ledger|
      && (db.worlds[req.world].Durable? ==> req.world !in after.tombstones)
      && after.ledger == db.ledger + NewRows(db.ledger, JobFor(DeleteIntent, req, db.worlds[req.world]))
  {
    hide Begin, RemoveStage, Finish, Delete, NewRows, NotesFor;
    FailedAfterIntentMeans(db, req, f);
    BeginEffect(db, req, f);
    var (begun, run, _) := Begin(db, req, f);
    RemoveEffect(begun, run.value);
    assert req.world !in db.worlds - {req.world};
  }
}
