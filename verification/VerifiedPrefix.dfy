/** The verified-prefix cache: when the O(1) tail gate may stand in for the full walk. */
module VerifiedPrefix {
  import Slices
  import opened Framing
  import opened EventId
  import opened AuditChain
  import opened AuditWriter
  import opened StreamingVerifier

  /** One world's database: its incarnation, its chain, and whether it still has the empty shape a
      freshly created file has. */
  datatype ChainFile = ChainFile(generation: string, events: seq<Event>, bootstrap: bool)

  /** Files on disk, worlds marked verified, and worlds inside a delete's removal window: files gone or
      going, the mark not yet dropped, the world lock held. */
  datatype Store = Store(files: map<string, ChainFile>, verified: set<string>, removing: set<string>)

  datatype Config = Config(crypto: Crypto, key: string)

  function CtxOf(c: Config, world: string, file: ChainFile): Ctx {
    Ctx(c.crypto, c.key, world, file.generation)
  }

  predicate FullGate(c: Config, world: string, file: ChainFile) {
    file.events != [] && Accepted(Engine, CtxOf(c, world, file), file.events)
  }

  predicate TailGate(c: Config, world: string, file: ChainFile) {
    TailOk(Engine, CtxOf(c, world, file), file.events)
  }

  /** What one durable write brings: row ids, a clock reading and the body row's fields. */
  datatype WriteArgs = WriteArgs(
    formatId: int, bodyId: int, timestamp: string, append: bool, bodySha256: string, size: int,
    contentType: string, headers: seq<Header>)

  function FormatFields(c: Config, world: string, a: WriteArgs): Fields {
    Fields(a.timestamp, "format", world, c.crypto.sha256(""), 0, "", [FORMAT_HEADER])
  }

  function BodyFields(world: string, a: WriteArgs): Fields {
    Fields(a.timestamp, if a.append then "append" else "put", world, a.bodySha256, a.size, a.contentType, a.headers)
  }

  /** The rows of the transaction: a format marker first when the chain is being base. */
  function Rows(c: Config, world: string, file: ChainFile, a: WriteArgs): seq<Event> {
    var ctx := CtxOf(c, world, file);
    var base :=
      if file.bootstrap then file.events + [NewEvent(ctx, file.events, a.formatId, FormatFields(c, world, a))]
      else file.events;
    base + [NewEvent(ctx, base, a.bodyId, BodyFields(world, a))]
  }

  /** How removing a world's directory ends: gone; given up with the file still there; or given up, and
      reported as a failure, after the file was already destroyed. */
  datatype RemovalOutcome = Success | Kept | Lost

  datatype Step =
    | Write(world: string, a: WriteArgs, freshGeneration: string, commits: bool)
    | RemoveFiles(world: string, outcome: RemovalOutcome)
    | Unmark(world: string)
    | Appear(world: string, file: ChainFile)

  /** Writes and deletes of one world exclude each other; a foreign file can appear where none is. */
  predicate Enabled(s: Store, step: Step) {
    match step
    case Write(w, a, g, commits) => w !in s.removing
    case RemoveFiles(w, _) => w in s.files && w !in s.removing
    case Unmark(w) => w in s.removing
    case Appear(w, file) => w !in s.files && (file.bootstrap ==> file.events == [])
  }

  function Apply(c: Config, s: Store, step: Step): Store {
    match step
    case Write(w, a, g, commits) => ApplyWrite(c, s, w, a, g, commits)
    case RemoveFiles(w, outcome) =>
      (match outcome
       case Success => Store(s.files - {w}, s.verified, s.removing + {w})
       case Kept => s
       case Lost => Store(s.files - {w}, s.verified, s.removing))
    case Unmark(w) => Store(s.files, s.verified - {w}, s.removing - {w})
    case Appear(w, file) => Store(s.files[w := file], s.verified, s.removing)
  }

  /** Open or create the file, choose the gate, append, commit, and only then mark the prefix. Appending
      to a missing world finds nothing and creates nothing. */
  function ApplyWrite(c: Config, s: Store, w: string, a: WriteArgs, g: string, commits: bool): Store {
    if w !in s.files && a.append then s else
    var file := if w in s.files then s.files[w] else ChainFile(g, [], true);
    var base := Store(s.files[w := file], s.verified, s.removing);
    var passes :=
      if file.bootstrap then true
      else if w in s.verified then TailGate(c, w, file)
      else FullGate(c, w, file);
    if !passes || !commits || !CanonicalTimestamp(a.timestamp) then base
    else
      var written := ChainFile(file.generation, Rows(c, w, file, a), false);
      Store(s.files[w := written], if file.bootstrap || w !in s.verified then s.verified + {w} else s.verified, s.removing)
  }

  /** A mark that the tail gate would rely on. */
  predicate Relied(s: Store, w: string) { w in s.verified && w !in s.removing }

  /** A file a mark may stand on: freshly created and empty, or one the full walk accepts. */
  predicate Walkable(c: Config, w: string, file: ChainFile) { file.bootstrap || FullGate(c, w, file) }

  /** Every file of a marked world outside a removal window is one the full walk accepts, or has no row yet
      and will be walked when it gets one. */
  predicate Sound(c: Config, s: Store) {
    && (forall w :: Relied(s, w) && w in s.files ==> Walkable(c, w, s.files[w]))
    && (forall w :: w in s.files && s.files[w].bootstrap ==> s.files[w].events == [])
  }

  lemma WrittenRowsAccepted(c: Config, world: string, file: ChainFile, a: WriteArgs)
    requires CanonicalTimestamp(a.timestamp) && Accepted(Engine, CtxOf(c, world, file), file.events)
    ensures Rows(c, world, file, a) != [] && Accepted(Engine, CtxOf(c, world, file), Rows(c, world, file, a))
  {
    var ctx := CtxOf(c, world, file);
    var base := file.events;
    if file.bootstrap {
      FormatRowWellFormed(c, world, file, a);
      NewEventVerifies(Engine, ctx, base, a.formatId, FormatFields(c, world, a));
      AcceptedSnoc(Engine, ctx, base, NewEvent(ctx, base, a.formatId, FormatFields(c, world, a)));
      base := base + [NewEvent(ctx, base, a.formatId, FormatFields(c, world, a))];
    }
    BodyRowWellFormed(c, world, file, a);
    NewEventVerifies(Engine, ctx, base, a.bodyId, BodyFields(world, a));
    AcceptedSnoc(Engine, ctx, base, NewEvent(ctx, base, a.bodyId, BodyFields(world, a)));
  }

  lemma FormatRowWellFormed(c: Config, world: string, file: ChainFile, a: WriteArgs)
    requires CanonicalTimestamp(a.timestamp)
    ensures WellFormed(Engine, CtxOf(c, world, file), FormatFields(c, world, a))
  {
    hide CanonicalTimestamp, EngineDelete, MirrorDelete;
    LowerFixes("auditedb-world-format-version", "");
    assert "auditedb-world-format-version" + "" == "auditedb-world-format-version";
    assert LowerNames([FORMAT_HEADER]) == [FORMAT_HEADER];
    assert Sort([FORMAT_HEADER]) == [FORMAT_HEADER] by { assert [FORMAT_HEADER][1..] == []; }
  }

  lemma BodyRowWellFormed(c: Config, world: string, file: ChainFile, a: WriteArgs)
    requires CanonicalTimestamp(a.timestamp)
    ensures WellFormed(Engine, CtxOf(c, world, file), BodyFields(world, a))
  {
    hide CanonicalTimestamp, EngineDelete, MirrorDelete, CanonicalHeaders, FORMAT_HEADER;
  }

  function Opened(s: Store, w: string, g: string): ChainFile { if w in s.files then s.files[w] else ChainFile(g, [], true) }

  /** A write that passes its gate leaves a file the full walk accepts. */
  lemma WrittenPassesFullGate(c: Config, w: string, file: ChainFile, a: WriteArgs)
    requires CanonicalTimestamp(a.timestamp) && (if file.bootstrap then file.events == [] else FullGate(c, w, file))
    ensures FullGate(c, w, ChainFile(file.generation, Rows(c, w, file, a), false))
  {
    EmptyAccepted(c, w, file);
    WrittenRowsAccepted(c, w, file, a);
    hide Accepted, Rows, CanonicalTimestamp;
    assert CtxOf(c, w, ChainFile(file.generation, Rows(c, w, file, a), false)) == CtxOf(c, w, file);
  }

  lemma WriteSound(c: Config, s: Store, w: string, a: WriteArgs, g: string, commits: bool)
    requires Sound(c, s) && w !in s.removing
    ensures Sound(c, ApplyWrite(c, s, w, a, g, commits))
  {
    hide FullGate, TailGate, Rows, CanonicalTimestamp;
    var file := Opened(s, w, g);
    assert w in s.verified ==> Walkable(c, w, file);
    if CanonicalTimestamp(a.timestamp) && (if file.bootstrap then file.events == [] else FullGate(c, w, file)) {
      WrittenPassesFullGate(c, w, file, a);
    }
  }

  /** A write takes effect: it may create the world unless it is an append, the file must be fresh or one the
      full walk accepts, the clock reading must be canonical, and the storage must commit. */
  predicate TakesEffect(c: Config, s: Store, w: string, a: WriteArgs, g: string, commits: bool) {
    && (w in s.files || !a.append) && Walkable(c, w, Opened(s, w, g)) && CanonicalTimestamp(a.timestamp) && commits
  }

  /** The rows a write adds: its own row last, which carries what the write was given, and before it, on a
      fresh file only, the format row. */
  predicate Adds(c: Config, w: string, a: WriteArgs, file: ChainFile, written: seq<Event>) {
    && file.events <= written && |written| == |file.events| + (if file.bootstrap then 2 else 1)
    && (var last := written[|written| - 1];
        && last.row.eventType == (if a.append then "append" else "put") && last.row.target == w && last.row.id == a.bodyId
        && last.row.timestamp == a.timestamp && last.row.bodySha256 == a.bodySha256 && last.row.size == a.size
        && last.row.contentType == a.contentType && multiset(last.headers) == multiset(LowerNames(a.headers)))
    && (file.bootstrap ==>
        var format := written[|written| - 2];
        format.row.eventType == "format" && format.row.target == w && format.row.id == a.formatId && FORMAT_HEADER in format.headers)
  }

  lemma RowsAdd(c: Config, w: string, a: WriteArgs, file: ChainFile)
    ensures Adds(c, w, a, file, Rows(c, w, file, a))
  {
    var ctx := CtxOf(c, w, file);
    var base := file.events;
    if file.bootstrap {
      NewEventCarries(ctx, base, a.formatId, FormatFields(c, w, a));
      FormatHeaderStays();
      base := base + [NewEvent(ctx, base, a.formatId, FormatFields(c, w, a))];
    }
    NewEventCarries(ctx, base, a.bodyId, BodyFields(w, a));
    hide NewEvent, LowerNames, FORMAT_HEADER;
  }

  lemma FormatHeaderStays()
    ensures forall headers: seq<Header> :: multiset(headers) == multiset(LowerNames([FORMAT_HEADER])) ==> FORMAT_HEADER in headers
  {
    LowerFixes("auditedb-world-format-version", "");
    assert "auditedb-world-format-version" + "" == "auditedb-world-format-version";
    assert LowerNames([FORMAT_HEADER]) == [FORMAT_HEADER];
    hide FORMAT_HEADER;
    forall headers: seq<Header> | multiset(headers) == multiset([FORMAT_HEADER]) ensures FORMAT_HEADER in headers {
      assert FORMAT_HEADER in multiset(headers);
    }
  }

  /** With sound marks, the gate a write takes decides what the full walk would. */
  lemma GateIsWalk(c: Config, s: Store, w: string, g: string)
    requires Sound(c, s) && w !in s.removing
    ensures var file := Opened(s, w, g);
      Walkable(c, w, file) <==> (file.bootstrap || if w in s.verified then TailGate(c, w, file) else FullGate(c, w, file))
  {
    var file := Opened(s, w, g);
    if w in s.verified && file.events != [] { FullWalkIsPrefixAndTail(Engine, CtxOf(c, w, file), file.events); }
    hide Accepted;
    assert w in s.verified ==> Walkable(c, w, file);
  }

  /** With sound marks, a write grows its chain exactly when it takes effect. It then leaves the world marked
      and adds the rows it should; otherwise it changes no chain and no mark. No other file is touched. */
  lemma WriteGrowsIff(c: Config, s: Store, w: string, a: WriteArgs, g: string, commits: bool)
    requires Sound(c, s) && w !in s.removing
    ensures var t, file := ApplyWrite(c, s, w, a, g, commits), Opened(s, w, g);
      && (w in t.files && |t.files[w].events| > |file.events| <==> TakesEffect(c, s, w, a, g, commits))
      && (TakesEffect(c, s, w, a, g, commits) ==> (
        && w in t.files && t.files[w].generation == file.generation && !t.files[w].bootstrap
        && Adds(c, w, a, file, t.files[w].events) && t.verified == s.verified + {w}))
      && (!TakesEffect(c, s, w, a, g, commits) ==> t.verified == s.verified && (w in t.files ==> t.files[w] == file))
      && (forall v :: v != w ==> (v in t.files <==> v in s.files) && (v in s.files ==> t.files[v] == s.files[v]))
      && t.removing == s.removing
  {
    var file := Opened(s, w, g);
    RowsAdd(c, w, a, file);
    assert |Rows(c, w, file, a)| > |file.events|;
    GateIsWalk(c, s, w, g);
    hide Rows, CanonicalTimestamp, FullGate, TailGate, Walkable, Sound, Adds;
  }

  /** A file that turns up under a mark nobody has dropped is one the full walk accepts, or an empty one. */
  predicate Harmless(c: Config, s: Store, step: Step) {
    step.Appear? && Relied(s, step.world) ==> Walkable(c, step.world, step.file)
  }

  /** Whatever a step does, the marks stay sound exactly when it brings no unwalkable file under one. */
  lemma StepSoundIff(c: Config, s: Store, step: Step)
    requires Sound(c, s) && Enabled(s, step)
    ensures Sound(c, Apply(c, s, step)) <==> Harmless(c, s, step)
  {
    hide ApplyWrite, FullGate;
    if step.Write? {
      WriteSound(c, s, step.world, step.a, step.freshGeneration, step.commits);
    } else if step.Appear? {
      assert step.world in Apply(c, s, step).files;
    }
  }

  lemma EmptyAccepted(c: Config, w: string, file: ChainFile)
    ensures file.events == [] ==> Accepted(Engine, CtxOf(c, w, file), file.events)
  {
  }

  function Run(c: Config, s: Store, steps: seq<Step>): Store
    decreases |steps|
  {
    if steps == [] then s else Run(c, Apply(c, s, steps[0]), steps[1..])
  }

  predicate AllEnabled(c: Config, s: Store, steps: seq<Step>)
    decreases |steps|
  {
    steps == [] || (Enabled(s, steps[0]) && AllEnabled(c, Apply(c, s, steps[0]), steps[1..]))
  }

  predicate HarmlessRun(c: Config, s: Store, steps: seq<Step>)
    decreases |steps|
  {
    steps == [] || (Harmless(c, s, steps[0]) && HarmlessRun(c, Apply(c, s, steps[0]), steps[1..]))
  }

  /** The states a run passes through, first and last included. */
  function States(c: Config, s: Store, steps: seq<Step>): (states: seq<Store>)
    ensures |states| > 0 && states[0] == s
    decreases |steps|
  {
    if steps == [] then [s] else [s] + States(c, Apply(c, s, steps[0]), steps[1..])
  }

  predicate AllSound(c: Config, states: seq<Store>) { forall i :: 0 <= i < |states| ==> Sound(c, states[i]) }

  lemma AllSoundCons(c: Config, s: Store, rest: seq<Store>)
    ensures AllSound(c, [s] + rest) <==> Sound(c, s) && AllSound(c, rest)
  {
    hide Sound;
    var all := [s] + rest;
    Slices.Shift(s, rest);
    if AllSound(c, all) {
      assert Sound(c, all[0]);
      forall i | 0 <= i < |rest| ensures Sound(c, rest[i]) { assert Sound(c, all[i + 1]); }
    }
  }

  lemma FirstSound(c: Config, states: seq<Store>)
    requires states != [] && AllSound(c, states)
    ensures Sound(c, states[0])
  {
  }

  /** Over every run of writes, failed writes, deletes, removals that fail in either way and files dropped in
      by others: the marks are sound throughout exactly when no unwalkable file ever turned up under one. */
  lemma {:induction false} SoundThroughoutIff(c: Config, s: Store, steps: seq<Step>)
    requires Sound(c, s) && AllEnabled(c, s, steps)
    ensures AllSound(c, States(c, s, steps)) <==> HarmlessRun(c, s, steps)
    decreases |steps|
  {
    if steps == [] {
      AllSoundCons(c, s, []);
      assert [s] + [] == [s];
    } else {
      var t := Apply(c, s, steps[0]);
      var rest := States(c, t, steps[1..]);
      StepSoundIff(c, s, steps[0]);
      hide Sound, Apply, Harmless, AllSound;
      assert States(c, s, steps) == [s] + rest;
      AllSoundCons(c, s, rest);
      if Sound(c, t) {
        SoundThroughoutIff(c, t, steps[1..]);
      } else if AllSound(c, rest) {
        FirstSound(c, rest);
      }
    }
  }

  lemma {:induction false} HarmlessRunSound(c: Config, s: Store, steps: seq<Step>)
    requires Sound(c, s) && AllEnabled(c, s, steps) && HarmlessRun(c, s, steps)
    ensures Sound(c, Run(c, s, steps))
    decreases |steps|
  {
    if steps != [] {
      StepSoundIff(c, s, steps[0]);
      HarmlessRunSound(c, Apply(c, s, steps[0]), steps[1..]);
    }
  }

  /** In such a run a write to a marked world with rows passes the tail gate exactly when the full gate
      would pass it, and the full gate does. */
  lemma MarkedWorldsPassTheFullWalk(c: Config, s: Store, steps: seq<Step>, w: string)
    requires Sound(c, s) && AllEnabled(c, s, steps) && HarmlessRun(c, s, steps)
    ensures var t := Run(c, s, steps);
            Relied(t, w) && w in t.files && !t.files[w].bootstrap ==>
              FullGate(c, w, t.files[w]) && (TailGate(c, w, t.files[w]) <==> FullGate(c, w, t.files[w]))
  {
    HarmlessRunSound(c, s, steps);
    var t := Run(c, s, steps);
    if w in t.files && t.files[w].events != [] {
      FullWalkIsPrefixAndTail(Engine, CtxOf(c, w, t.files[w]), t.files[w].events);
    }
  }

  /** A removal that destroys the file and reports failure keeps the mark without a window: a foreign file
      that turns up then is relied on although nobody walked it. */
  lemma LostRemovalKeepsMark(c: Config, s: Store, w: string, foreign: ChainFile)
    requires Sound(c, s) && w in s.verified && w in s.files && w !in s.removing
    requires !foreign.bootstrap && !FullGate(c, w, foreign)
    ensures var steps := [RemoveFiles(w, Lost), Appear(w, foreign)];
            AllEnabled(c, s, steps) && !HarmlessRun(c, s, steps)
            && Relied(Run(c, s, steps), w) && w in Run(c, s, steps).files && Run(c, s, steps).files[w] == foreign && !Sound(c, Run(c, s, steps))
  {
    var steps := [RemoveFiles(w, Lost), Appear(w, foreign)];
    var s1 := Apply(c, s, steps[0]);
    var s2 := Apply(c, s1, steps[1]);
    assert steps[1..] == [Appear(w, foreign)] && steps[1..][1..] == [];
    assert Run(c, s2, []) == s2 && Run(c, s1, steps[1..]) == s2;
    assert AllEnabled(c, s2, []) && AllEnabled(c, s1, steps[1..]);
    assert Relied(s1, w) && !Harmless(c, s1, steps[1]) && !HarmlessRun(c, s1, steps[1..]);
    hide FullGate;
    assert Relied(s2, w) && s2.files[w] == foreign && !Walkable(c, w, s2.files[w]);
  }

  /** Inside the window the mark can name a foreign chain nobody walked: the drop of the mark is what
      closes it, and the tail gate would be wrong there. */
  lemma RemovalWindowIsNeeded(c: Config, s: Store, w: string, foreign: ChainFile)
    requires Sound(c, s) && w in s.verified && w in s.files && w !in s.removing
    requires !foreign.bootstrap && !FullGate(c, w, foreign)
    ensures var inside := Run(c, s, [RemoveFiles(w, Success), Appear(w, foreign)]);
            AllEnabled(c, s, [RemoveFiles(w, Success), Appear(w, foreign)])
            && w in inside.verified && w in inside.files && !FullGate(c, w, inside.files[w])
            && w !in Apply(c, inside, Unmark(w)).verified
  {
    var steps := [RemoveFiles(w, Success), Appear(w, foreign)];
    var s1 := Apply(c, s, steps[0]);
    var s2 := Apply(c, s1, steps[1]);
    assert steps[1..] == [Appear(w, foreign)] && steps[1..][1..] == [];
    assert Run(c, s2, []) == s2 && Run(c, s1, steps[1..]) == s2;
    assert AllEnabled(c, s2, []) && AllEnabled(c, s1, steps[1..]);
  }

  /** Any sequence of well-formed appends is reported valid, with its count, both ends and any past
      head on request. */
  lemma WrittenReport(d: Dialect, ctx: Ctx, fs: seq<Fields>, ids: seq<int>, k: nat, allowEmpty: bool)
    requires |fs| == |ids| && 1 <= k <= |fs| && forall i :: 0 <= i < |fs| ==> WellFormed(d, ctx, fs[i])
    ensures |Written(ctx, fs, ids)| == |fs| && |Written(ctx, fs[..k], ids[..k])| == k
    ensures var es, past := Written(ctx, fs, ids), Written(ctx, fs[..k], ids[..k]);
            Describes(d, ctx, es, allowEmpty, Some(k),
              Valid(|fs|, HmacLabel(es[0].row.hmac), HmacLabel(es[|es| - 1].row.hmac),
                    Some(Found(k, HmacLabel(past[k - 1].row.hmac)))))
  {
    WrittenAccepted(d, ctx, fs, ids);
    WrittenGrows(ctx, fs, ids, k);
    WrittenLength(ctx, fs[..k], ids[..k]);
    hide *;
    WalkedReport(d, ctx, Written(ctx, fs, ids), Written(ctx, fs[..k], ids[..k]), k, allowEmpty);
  }

  lemma WalkedReport(d: Dialect, ctx: Ctx, es: seq<Event>, past: seq<Event>, k: nat, allowEmpty: bool)
    requires Accepted(d, ctx, es) && 1 <= k <= |es| && |past| == k && es[..k] == past
    ensures Describes(d, ctx, es, allowEmpty, Some(k),
              Valid(|es|, HmacLabel(es[0].row.hmac), HmacLabel(es[|es| - 1].row.hmac),
                    Some(Found(k, HmacLabel(past[k - 1].row.hmac)))))
  {
    hide Accepted, HmacLabel;
    assert es[..k][k - 1] == es[k - 1];
  }
}
