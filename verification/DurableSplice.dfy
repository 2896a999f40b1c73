/** Resuming one durable world: receiver first, then the chain snapshot, then the fenced live stream,
    interleaved in every way with the world's writers, its deletes and other worlds' traffic. */
module DurableSplice {
  import Slices
  import opened Framing
  import opened EventId
  import opened Subscription

  /** The followed world, the pattern that names it, the client's cursor, and the engine's limits.
      `initial` holds the chains that existed before this process sent anything. */
  datatype Setup = Setup(world: string, pattern: string, cursor: Id, replayMax: nat, capacity: nat,
                         initial: map<string, seq<string>>)
  {
    ghost predicate Valid() {
      && (forall other :: Matches(pattern, other) <==> other == world)
      && 0 < capacity && 0 < cursor.row
      && (forall g :: g in initial ==> initial[g] != [])
    }

    function Base(generation: string): nat {
      if generation in initial then |initial[generation]| else 0
    }
  }

  datatype Phase = NotOpened | ReceiverOpen | Open(state: State, fence: Fence)

  /** `chains` maps every incarnation to its rows, `current` names the one on disk, `unsent` is what the
      holder of the world's lock has committed but not yet notified, `sent` is the whole broadcast and
      `at` the receiver's position in it. */
  datatype System = System(chains: map<string, seq<string>>, current: Option<string>, unsent: seq<Change>,
                           sent: seq<Change>, at: nat, phase: Phase, out: seq<Item>)

  datatype Step =
    | Commit(generation: string, etags: seq<string>)
    | Remove
    | Notify(delivery: nat)
    | NotifyOther(change: Change)
    | OpenReceiver
    | Snapshot
    | Receive
    | ShutDown

  function RowsFrom(world: string, generation: string, count: nat, etags: seq<string>): seq<Change> {
    seq(|etags|, i requires 0 <= i < |etags| => ChainEvent(0, Id(world, generation, count + i + 1), etags[i]))
  }

  /** `replay_after_durable_event_id` for an exact pattern: the replay queue and the fence. */
  function Replay(p: Setup, s: System): (seq<Item>, Fence) {
    var k, g := p.cursor.row, p.cursor.generation;
    if p.cursor.world != p.world then ([Reset(RingMiss)], NoFence)
    else if s.current.None? then ([Reset(RingMiss)], NoFence)
    else if s.current.value != g then ([Reset(Incarnation)], NoFence)
    else if g !in s.chains || !(0 < k <= |s.chains[g]|) then ([Reset(Truncation)], NoFence)
    else if |s.chains[g]| - k > p.replayMax then ([Reset(RingMiss)], NoFence)
    else
      var rows := RowsFrom(p.world, g, k, s.chains[g][k..]);
      (seq(|rows|, i requires 0 <= i < |rows| => Delivered(rows[i])), Durable(Id(p.world, g, |s.chains[g]|)))
  }

  predicate Enabled(p: Setup, s: System, step: Step) {
    match step
    case Commit(g, etags) =>
      s.unsent == [] && etags != [] && (s.current == Some(g) || (s.current.None? && g !in s.chains))
    case Remove => s.unsent == [] && s.current.Some?
    case Notify(_) => s.unsent != []
    case NotifyOther(change) => change.World() != p.world
    case OpenReceiver => s.phase.NotOpened?
    case Snapshot => s.phase.ReceiverOpen?
    case Receive => s.phase.Open? && (s.phase.state.Replaying? || (s.phase.state.Live? && s.at < |s.sent|))
    case ShutDown => s.phase.Open? && s.phase.state.Live?
  }

  function Chain(s: System, g: string): seq<string> { if g in s.chains then s.chains[g] else [] }

  function Received1(p: Setup, s: System): System
    requires Enabled(p, s, Receive)
  {
    var fence := s.phase.fence;
    match s.phase.state
    case Replaying(remaining) =>
      if remaining == [] then s.(phase := Open(Live, fence))
      else s.(phase := Open(Replaying(remaining[1..]), fence), out := s.out + [remaining[0]])
    case Live =>
      if |s.sent| - s.at > p.capacity then
        var oldest := |s.sent| - p.capacity;
        s.(at := oldest, out := s.out + [Lagged(oldest - s.at)])
      else
        var got := Got(s.sent[s.at]);
        if Silent(fence, p.pattern, got) then s.(at := s.at + 1)
        else s.(at := s.at + 1, out := s.out + [Answer(fence, p.pattern, got)])
  }

  function Apply(p: Setup, s: System, step: Step): System
    requires Enabled(p, s, step)
  {
    match step
    case Commit(g, etags) =>
      s.(chains := s.chains[g := Chain(s, g) + etags], current := Some(g),
         unsent := RowsFrom(p.world, g, |Chain(s, g)|, etags))
    case Remove => s.(current := None, unsent := [Ping(0, p.world)])
    case Notify(d) => s.(sent := s.sent + [s.unsent[0].(delivery := d)], unsent := s.unsent[1..])
    case NotifyOther(change) => s.(sent := s.sent + [change])
    case OpenReceiver => s.(phase := ReceiverOpen, at := |s.sent|)
    case Snapshot =>
      var (replay, fence) := Replay(p, s);
      s.(phase := Open(if replay == [] then Live else Replaying(replay), fence))
    case Receive => Received1(p, s)
    case ShutDown => s.(phase := Open(Closed, s.phase.fence), out := s.out + [ClosedItem])
  }

  predicate Init(p: Setup, s: System) {
    && s.chains == p.initial && (s.current.Some? ==> s.current.value in p.initial)
    && s.unsent == [] && s.sent == [] && s.at == 0 && s.phase == NotOpened && s.out == []
  }

  predicate Runs(p: Setup, s: System, steps: seq<Step>, t: System)
    decreases |steps|
  {
    if steps == [] then s == t
    else Enabled(p, s, steps[0]) && Runs(p, Apply(p, s, steps[0]), steps[1..], t)
  }

  // ---- What was delivered, and what is stored, as numbered rows ----

  datatype Row = Row(number: int, etag: string)

  predicate IsRow(world: string, g: string, c: Change) {
    c.ChainEvent? && c.id.world == world && c.id.generation == g
  }

  function Rows(world: string, g: string, s: seq<Change>): seq<Row> {
    if s == [] then []
    else (if IsRow(world, g, s[0]) then [Row(s[0].id.row, s[0].etag)] else []) + Rows(world, g, s[1..])
  }

  function Changes(items: seq<Item>): seq<Change> {
    if items == [] then []
    else (if items[0].Delivered? then [items[0].change] else []) + Changes(items[1..])
  }

  /** The rows a client has been given, in the order it was given them. */
  function OutRows(p: Setup, items: seq<Item>): seq<Row> {
    Rows(p.world, p.cursor.generation, Changes(items))
  }

  /** Rows `from + 1`, `from + 2`, ... of a chain. */
  function Numbered(chain: seq<string>, from: nat): seq<Row> {
    if from > |chain| then [] else seq(|chain| - from, i requires 0 <= i < |chain| - from => Row(from + i + 1, chain[from + i]))
  }

  /** The part of `Numbered` up to and including row `upTo`. */
  function Stretch(chain: seq<string>, from: nat, upTo: nat): seq<Row>
    requires from <= upTo <= |chain|
  {
    seq(upTo - from, i requires 0 <= i < upTo - from => Row(from + i + 1, chain[from + i]))
  }

  predicate Interrupted(items: seq<Item>) { exists i :: 0 <= i < |items| && (items[i].Reset? || items[i].Lagged?) }

  lemma {:induction false} RowsConcat(w: string, g: string, a: seq<Change>, b: seq<Change>)
    ensures Rows(w, g, a + b) == Rows(w, g, a) + Rows(w, g, b)
  {
    if a == [] {
      assert a + b == b;
    } else {
      var head := if IsRow(w, g, a[0]) then [Row(a[0].id.row, a[0].etag)] else [];
      RowsConcat(w, g, a[1..], b);
      Slices.TailOfConcat(a, b);
      Slices.Assoc(head, Rows(w, g, a[1..]), Rows(w, g, b));
    }
  }

  lemma RowsSnoc(w: string, g: string, a: seq<Change>, c: Change)
    ensures Rows(w, g, a + [c]) == Rows(w, g, a) + (if IsRow(w, g, c) then [Row(c.id.row, c.etag)] else [])
  {
    RowsConcat(w, g, a, [c]);
    assert Rows(w, g, [c]) == if IsRow(w, g, c) then [Row(c.id.row, c.etag)] else [];
  }

  lemma {:induction false} ChangesConcat(a: seq<Item>, b: seq<Item>)
    ensures Changes(a + b) == Changes(a) + Changes(b)
  {
    if a == [] {
      assert a + b == b;
    } else {
      var head := if a[0].Delivered? then [a[0].change] else [];
      ChangesConcat(a[1..], b);
      Slices.TailOfConcat(a, b);
      Slices.Assoc(head, Changes(a[1..]), Changes(b));
    }
  }

  lemma OutRowsSnoc(p: Setup, items: seq<Item>, item: Item)
    ensures OutRows(p, items + [item]) == OutRows(p, items)
            + (if item.Delivered? && IsRow(p.world, p.cursor.generation, item.change)
               then [Row(item.change.id.row, item.change.etag)] else [])
  {
    ChangesConcat(items, [item]);
    if item.Delivered? {
      assert Changes([item]) == [item.change];
      RowsSnoc(p.world, p.cursor.generation, Changes(items), item.change);
    } else {
      assert Changes([item]) == [];
      assert Changes(items) + [] == Changes(items);
    }
  }

  /** Freshly committed rows are the chain's new rows; they belong to no other incarnation. */
  lemma {:induction false} RowsOfRowsFrom(w: string, g: string, h: string, chain: seq<string>, etags: seq<string>)
    ensures Rows(w, h, RowsFrom(w, g, |chain|, etags)) == if h == g then Numbered(chain + etags, |chain|) else []
    decreases |etags|
  {
    var rows := RowsFrom(w, g, |chain|, etags);
    if etags != [] {
      var one := chain + [etags[0]];
      RowsOfRowsFrom(w, g, h, one, etags[1..]);
      assert one + etags[1..] == chain + etags;
      assert rows[1..] == RowsFrom(w, g, |one|, etags[1..]);
      assert rows[0] == ChainEvent(0, Id(w, g, |chain| + 1), etags[0]);
      NumberedHead(chain + etags, |chain|);
      hide RowsFrom, Numbered, Stretch;
    }
  }

  lemma NumberedHead(chain: seq<string>, from: nat)
    requires from < |chain|
    ensures Numbered(chain, from) == [Row(from + 1, chain[from])] + Numbered(chain, from + 1)
  {
    var whole, rest := Numbered(chain, from), Numbered(chain, from + 1);
    assert |whole| == |rest| + 1 && whole[0] == Row(from + 1, chain[from]);
    forall i | 0 <= i < |rest| ensures whole[1..][i] == rest[i] { assert whole[i + 1] == Row(from + i + 2, chain[from + i + 1]); }
    assert whole[1..] == rest;
    Slices.HeadAndTail(whole);
  }

  lemma NumberedGrows(chain: seq<string>, etags: seq<string>, from: nat)
    requires from <= |chain|
    ensures Numbered(chain + etags, from) == Numbered(chain, from) + Numbered(chain + etags, |chain|)
  {
    var whole, front, back := Numbered(chain + etags, from), Numbered(chain, from), Numbered(chain + etags, |chain|);
    assert |whole| == |front| + |back|;
    forall i | 0 <= i < |whole| ensures whole[i] == (front + back)[i] {
      if i < |front| { assert front[i] == whole[i]; } else { assert back[i - |front|] == whole[i]; }
    }
  }

  lemma {:induction false} ChangesOfDelivered(rows: seq<Change>)
    ensures Changes(seq(|rows|, i requires 0 <= i < |rows| => Delivered(rows[i]))) == rows
  {
    var items := seq(|rows|, i requires 0 <= i < |rows| => Delivered(rows[i]));
    if rows != [] {
      ChangesOfDelivered(rows[1..]);
      assert items[1..] == seq(|rows[1..]|, i requires 0 <= i < |rows[1..]| => Delivered(rows[1..][i]));
    }
  }

  // ---- The writers' side: the broadcast is the chain, in order ----

  /** Notified and still unsent rows of an incarnation are its rows since the process started, in order. */
  predicate GenerationInOrder(p: Setup, s: System, g: string) {
    && p.Base(g) <= |Chain(s, g)|
    && Rows(p.world, g, s.sent) + Rows(p.world, g, s.unsent) == Numbered(Chain(s, g), p.Base(g))
  }

  ghost predicate LogOk(p: Setup, s: System) {
    LogShape(p, s) && forall g: string :: GenerationInOrder(p, s, g)
  }

  lemma CommitInOrder(p: Setup, s: System, g: string, etags: seq<string>, h: string)
    requires GenerationInOrder(p, s, h) && Enabled(p, s, Commit(g, etags))
    ensures GenerationInOrder(p, Apply(p, s, Commit(g, etags)), h)
  {
    var chain := Chain(s, g);
    RowsOfRowsFrom(p.world, g, h, chain, etags);
    assert Rows(p.world, h, []) == [];
    if h == g { NumberedGrows(chain, etags, p.Base(g)); }
  }

  lemma NotifyInOrder(p: Setup, s: System, d: nat, h: string)
    requires GenerationInOrder(p, s, h) && Enabled(p, s, Notify(d))
    ensures GenerationInOrder(p, Apply(p, s, Notify(d)), h)
  {
    var sent, rest := Rows(p.world, h, s.sent), Rows(p.world, h, s.unsent[1..]);
    var first := if IsRow(p.world, h, s.unsent[0]) then [Row(s.unsent[0].id.row, s.unsent[0].etag)] else [];
    RowsSnoc(p.world, h, s.sent, s.unsent[0].(delivery := d));
    assert Rows(p.world, h, s.unsent) == first + rest;
    hide Rows, Numbered;
    Slices.Assoc(sent, first, rest);
  }

  lemma RemoveInOrder(p: Setup, s: System, h: string)
    requires GenerationInOrder(p, s, h) && Enabled(p, s, Remove)
    ensures GenerationInOrder(p, Apply(p, s, Remove), h)
  {
    RowsSnoc(p.world, h, [], Ping(0, p.world));
  }

  lemma NotifyOtherInOrder(p: Setup, s: System, change: Change, h: string)
    requires GenerationInOrder(p, s, h) && Enabled(p, s, NotifyOther(change))
    ensures GenerationInOrder(p, Apply(p, s, NotifyOther(change)), h)
  {
    RowsSnoc(p.world, h, s.sent, change);
  }

  predicate WriterStep(step: Step) { step.Commit? || step.Remove? || step.Notify? || step.NotifyOther? }

  lemma FollowerFrame(p: Setup, s: System, step: Step)
    requires Enabled(p, s, step) && !WriterStep(step)
    ensures var t := Apply(p, s, step);
      t.chains == s.chains && t.current == s.current && t.unsent == s.unsent && t.sent == s.sent
    ensures s.at <= |s.sent| ==> Apply(p, s, step).at <= |s.sent|
  {
    hide Replay, LiveAction, Answer, Silent;
  }

  lemma StepInOrder(p: Setup, s: System, step: Step, h: string)
    requires GenerationInOrder(p, s, h) && Enabled(p, s, step)
    ensures GenerationInOrder(p, Apply(p, s, step), h)
  {
    hide Apply, Rows, Numbered, Stretch;
    match step
    case Commit(g, etags) => CommitInOrder(p, s, g, etags, h);
    case Notify(d) => NotifyInOrder(p, s, d, h);
    case Remove => RemoveInOrder(p, s, h);
    case NotifyOther(change) => NotifyOtherInOrder(p, s, change, h);
    case _ => FollowerFrame(p, s, step);
  }

  /** The parts of the log invariant that do not look at the order of rows. */
  ghost predicate LogShape(p: Setup, s: System) {
    && (forall g :: g in s.chains ==> s.chains[g] != [])
    && (forall g :: g in p.initial ==> g in s.chains)
    && (s.current.Some? ==> s.current.value in s.chains)
    && (forall i :: 0 <= i < |s.unsent| ==> s.unsent[i].World() == p.world)
    && s.at <= |s.sent|
  }

  lemma StepKeepsShape(p: Setup, s: System, step: Step)
    requires LogShape(p, s) && Enabled(p, s, step)
    ensures LogShape(p, Apply(p, s, step))
  {
    if !WriterStep(step) {
      FollowerFrame(p, s, step);
      hide Apply;
    }
  }

  lemma StepKeepsLog(p: Setup, s: System, step: Step)
    requires LogOk(p, s) && Enabled(p, s, step)
    ensures LogOk(p, Apply(p, s, step))
  {
    StepKeepsShape(p, s, step);
    hide Apply, GenerationInOrder, LogShape;
    forall h: string ensures GenerationInOrder(p, Apply(p, s, step), h) { StepInOrder(p, s, step, h); }
  }

  // ---- The follower's side ----

  /** The row number up to which the live stream has been read, and never before the fence. */
  function Reached(p: Setup, s: System): int
    requires s.at <= |s.sent| && s.phase.Open? && s.phase.fence.Durable?
  {
    var read := p.Base(p.cursor.generation) + |Rows(p.world, p.cursor.generation, s.sent[..s.at])|;
    if read < s.phase.fence.row.row then s.phase.fence.row.row else read
  }

  /** Rows of the chain, after the cursor and no later than `reached`, in increasing order. */
  predicate Stored(chain: seq<string>, rows: seq<Row>, k: int, reached: int) {
    && (forall i :: 0 <= i < |rows| ==> StoredRow(chain, rows[i], k, reached))
    && (forall i, j :: 0 <= i < j < |rows| ==> rows[i].number < rows[j].number)
  }

  predicate StoredRow(chain: seq<string>, row: Row, k: int, reached: int) {
    0 <= k < row.number <= reached && row.number <= |chain| && row.etag == chain[row.number - 1]
  }

  predicate OwnRow(p: Setup, item: Item) {
    item.Delivered? && item.change.ChainEvent? ==> IsRow(p.world, p.cursor.generation, item.change)
  }

  predicate FenceOk(p: Setup, s: System)
    requires s.phase.Open? && s.phase.fence.Durable?
  {
    var f := s.phase.fence.row;
    && f.world == p.world == p.cursor.world && f.generation == p.cursor.generation
    && 0 < p.cursor.row <= f.row <= |Chain(s, f.generation)|
    && (forall i :: 0 <= i < |s.out| ==> OwnRow(p, s.out[i]))
  }

  predicate ReplayingOk(p: Setup, s: System)
    requires s.at <= |s.sent| && s.phase.Open? && s.phase.fence.Durable? && s.phase.state.Replaying? && FenceOk(p, s)
  {
    var k, f, rest := p.cursor.row, s.phase.fence.row.row, s.phase.state.remaining;
    && !Interrupted(s.out)
    && (forall i :: 0 <= i < |rest| ==> rest[i].Delivered? && OwnRow(p, rest[i]))
    && OutRows(p, s.out) + OutRows(p, rest) == Stretch(Chain(s, p.cursor.generation), k, f)
    && Reached(p, s) == f
  }

  predicate LiveOk(p: Setup, s: System)
    requires s.at <= |s.sent| && s.phase.Open? && s.phase.fence.Durable? && FenceOk(p, s)
  {
    var chain, k := Chain(s, p.cursor.generation), p.cursor.row;
    && Reached(p, s) <= |chain|
    && Stored(chain, OutRows(p, s.out), k, Reached(p, s))
    && (!Interrupted(s.out) ==> OutRows(p, s.out) == Stretch(chain, k, Reached(p, s)))
  }

  /** A newer incarnation cannot go unnoticed: its rows are all still ahead of the receiver. */
  predicate NoNewIncarnationPassed(p: Setup, s: System)
    requires s.at <= |s.sent|
  {
    s.current.Some? && s.current.value != p.cursor.generation ==>
      s.current.value !in p.initial && Rows(p.world, s.current.value, s.sent[..s.at]) == []
  }

  predicate FollowOk(p: Setup, s: System)
    requires s.at <= |s.sent|
  {
    if !s.phase.Open? then s.out == []
    else if s.phase.fence.Durable? then
      && FenceOk(p, s)
      && (if s.phase.state.Replaying? then ReplayingOk(p, s) else LiveOk(p, s))
      && (!Interrupted(s.out) ==> NoNewIncarnationPassed(p, s))
    else
      Interrupted(s.out) || (s.out == [] && s.phase.state.Replaying? && |s.phase.state.remaining| == 1
                             && s.phase.state.remaining[0].Reset?)
  }

  ghost predicate Inv(p: Setup, s: System) { p.Valid() && LogOk(p, s) && FollowOk(p, s) }

  lemma NumberedPrefix(chain: seq<string>, longer: seq<string>, k: nat, upTo: nat)
    requires chain <= longer && k <= upTo <= |chain|
    ensures Stretch(chain, k, upTo) == Stretch(longer, k, upTo)
  {
  }

  /** Writers only append: to the chain, to the broadcast, and as newer incarnations. */
  lemma WriterFrame(p: Setup, s: System, step: Step)
    requires p.Valid() && LogOk(p, s) && WriterStep(step) && Enabled(p, s, step)
    ensures var t := Apply(p, s, step);
      && t.at == s.at && t.phase == s.phase && t.out == s.out && s.sent <= t.sent && t.sent[..s.at] == s.sent[..s.at]
      && Chain(s, p.cursor.generation) <= Chain(t, p.cursor.generation)
      && (t.current == s.current || t.current.None? || (t.current.value !in p.initial && t.current.value !in s.chains))
  {
  }

  lemma NothingSentOfUnborn(p: Setup, s: System, g: string)
    requires p.Valid() && LogOk(p, s) && g !in s.chains
    ensures Rows(p.world, g, s.sent[..s.at]) == []
  {
    assert GenerationInOrder(p, s, g);
    RowsConcat(p.world, g, s.sent[..s.at], s.sent[s.at..]);
    assert s.sent == s.sent[..s.at] + s.sent[s.at..];
  }

  /** What a follower sees of a writer's step: the same position and past, and longer chains. */
  predicate Extends(p: Setup, s: System, t: System) {
    && s.at <= |s.sent| && t.at == s.at && t.phase == s.phase && t.out == s.out
    && s.sent <= t.sent && t.sent[..s.at] == s.sent[..s.at]
    && Chain(s, p.cursor.generation) <= Chain(t, p.cursor.generation)
  }

  lemma ExtendKeepsFence(p: Setup, s: System, t: System)
    requires Extends(p, s, t) && s.phase.Open? && s.phase.fence.Durable? && FenceOk(p, s)
    ensures FenceOk(p, t) && Reached(p, t) == Reached(p, s)
  {
    hide Rows, OwnRow;
  }

  lemma ExtendKeepsReplaying(p: Setup, s: System, t: System)
    requires Extends(p, s, t) && s.phase.Open? && s.phase.fence.Durable? && s.phase.state.Replaying?
    requires FenceOk(p, s) && FenceOk(p, t) && Reached(p, t) == Reached(p, s) && ReplayingOk(p, s)
    ensures ReplayingOk(p, t)
  {
    NumberedPrefix(Chain(s, p.cursor.generation), Chain(t, p.cursor.generation), p.cursor.row, s.phase.fence.row.row);
    hide Rows, Changes, Interrupted, Reached, Numbered, Stretch, OutRows, OwnRow;
  }

  lemma ExtendKeepsLive(p: Setup, s: System, t: System)
    requires Extends(p, s, t) && s.phase.Open? && s.phase.fence.Durable?
    requires FenceOk(p, s) && FenceOk(p, t) && Reached(p, t) == Reached(p, s) && LiveOk(p, s)
    ensures LiveOk(p, t)
  {
    var chain, longer := Chain(s, p.cursor.generation), Chain(t, p.cursor.generation);
    NumberedPrefix(chain, longer, p.cursor.row, Reached(p, s));
    StoredInLonger(chain, longer, OutRows(p, s.out), p.cursor.row, Reached(p, s));
    hide Rows, Changes, Interrupted, Reached, Numbered, Stretch, OutRows, OwnRow, Stored;
  }

  lemma StoredInLonger(chain: seq<string>, longer: seq<string>, rows: seq<Row>, k: int, reached: int)
    requires chain <= longer && Stored(chain, rows, k, reached)
    ensures Stored(longer, rows, k, reached)
  {
    forall i | 0 <= i < |rows| ensures StoredRow(longer, rows[i], k, reached) {
      assert StoredRow(chain, rows[i], k, reached);
    }
  }

  lemma WriterKeepsNotice(p: Setup, s: System, step: Step)
    requires p.Valid() && LogOk(p, s) && WriterStep(step) && Enabled(p, s, step) && NoNewIncarnationPassed(p, s)
    requires s.at <= |Apply(p, s, step).sent|
    ensures NoNewIncarnationPassed(p, Apply(p, s, step))
  {
    var t := Apply(p, s, step);
    WriterFrame(p, s, step);
    if t.current.Some? && t.current.value !in s.chains { NothingSentOfUnborn(p, s, t.current.value); }
    hide Apply, LogOk, Rows;
  }

  lemma WriterKeepsFollow(p: Setup, s: System, step: Step)
    requires Inv(p, s) && WriterStep(step) && Enabled(p, s, step)
    requires s.at <= |Apply(p, s, step).sent| && Apply(p, s, step).at == s.at
    ensures FollowOk(p, Apply(p, s, step))
  {
    var t := Apply(p, s, step);
    WriterFrame(p, s, step);
    assert Extends(p, s, t);
    if NoNewIncarnationPassed(p, s) { WriterKeepsNotice(p, s, step); }
    hide Apply, LogOk, Rows, Changes, Interrupted, FenceOk, ReplayingOk, LiveOk, NoNewIncarnationPassed, WriterStep, Enabled;
    if s.phase.Open? && s.phase.fence.Durable? {
      ExtendKeepsFence(p, s, t);
      if s.phase.state.Replaying? { ExtendKeepsReplaying(p, s, t); } else { ExtendKeepsLive(p, s, t); }
    }
  }

  /** At the snapshot nothing of the followed incarnation that was already broadcast lies past the fence. */
  lemma SnapshotCoversSent(p: Setup, s: System, g: string)
    requires GenerationInOrder(p, s, g) && s.at <= |s.sent|
    ensures p.Base(g) + |Rows(p.world, g, s.sent[..s.at])| <= |Chain(s, g)|
  {
    RowsConcat(p.world, g, s.sent[..s.at], s.sent[s.at..]);
    assert s.sent == s.sent[..s.at] + s.sent[s.at..];
  }

  /** A snapshot that does not reset replays exactly the rows after the cursor and fences at the last. */
  lemma ReplayIsChain(p: Setup, s: System)
    requires p.Valid() && LogOk(p, s) && Replay(p, s).1.Durable?
    ensures var (replay, fence) := Replay(p, s);
      var chain := Chain(s, p.cursor.generation);
      && s.current == Some(p.cursor.generation) && p.cursor.world == p.world
      && 0 < p.cursor.row <= |chain| && fence == Durable(Id(p.world, p.cursor.generation, |chain|))
      && OutRows(p, replay) == Numbered(chain, p.cursor.row) && |replay| == |chain| - p.cursor.row
      && (forall i :: 0 <= i < |replay| ==> replay[i].Delivered? && OwnRow(p, replay[i]))
  {
    var g, k := p.cursor.generation, p.cursor.row;
    var chain := Chain(s, g);
    var rows := RowsFrom(p.world, g, k, chain[k..]);
    ChangesOfDelivered(rows);
    assert chain == chain[..k] + chain[k..];
    RowsOfRowsFrom(p.world, g, g, chain[..k], chain[k..]);
    assert Replay(p, s).0 == seq(|rows|, i requires 0 <= i < |rows| => Delivered(rows[i]));
  }

  lemma ResetIsOnlyItem(p: Setup, s: System)
    requires !Replay(p, s).1.Durable?
    ensures Replay(p, s).1 == NoFence && |Replay(p, s).0| == 1 && Replay(p, s).0[0].Reset?
  {
  }

  lemma WholeNumbered(chain: seq<string>, k: nat)
    requires k <= |chain|
    ensures Stretch(chain, k, |chain|) == Numbered(chain, k)
    ensures k == |chain| ==> Numbered(chain, k) == []
  {
  }

  lemma NothingDelivered(p: Setup)
    ensures OutRows(p, []) == [] && !Interrupted([])
  {
  }

  lemma DurableSnapshot(p: Setup, s: System, t: System, replay: seq<Item>)
    requires s.at <= |s.sent| && s.out == [] && t == s.(phase := t.phase) && t.phase.Open? && t.phase.fence.Durable?
    requires t.phase.state == if replay == [] then Live else Replaying(replay)
    requires FenceOk(p, t) && t.phase.fence.row.row == |Chain(s, p.cursor.generation)|
    requires Reached(p, t) == |Chain(s, p.cursor.generation)|
    requires OutRows(p, replay) == Numbered(Chain(s, p.cursor.generation), p.cursor.row)
    requires forall i :: 0 <= i < |replay| ==> replay[i].Delivered? && OwnRow(p, replay[i])
    ensures if t.phase.state.Replaying? then ReplayingOk(p, t) else LiveOk(p, t)
  {
    var chain, k := Chain(s, p.cursor.generation), p.cursor.row;
    NothingDelivered(p);
    WholeNumbered(chain, k);
    NumberedIsStored(chain, k, |chain|);
    assert [] + Numbered(chain, k) == Numbered(chain, k);
    assert Chain(t, p.cursor.generation) == chain;
    hide Rows, Changes, Interrupted, Numbered, Stretch, OutRows, Reached, OwnRow, FenceOk, Stored, Chain;
  }

  lemma SnapshotKeepsFollow(p: Setup, s: System)
    requires Inv(p, s) && Enabled(p, s, Snapshot)
    ensures FollowOk(p, Apply(p, s, Snapshot))
  {
    var g, t := p.cursor.generation, Apply(p, s, Snapshot);
    if Replay(p, s).1.Durable? {
      ReplayIsChain(p, s);
      assert GenerationInOrder(p, s, g);
      SnapshotCoversSent(p, s, g);
      hide Replay, LogOk, Rows, Changes, OwnRow, ReplayingOk, LiveOk;
      assert FenceOk(p, t);
      assert Reached(p, t) == |Chain(s, g)|;
      DurableSnapshot(p, s, t, Replay(p, s).0);
    } else {
      ResetIsOnlyItem(p, s);
      hide Replay, LogOk;
    }
  }

  lemma InterruptedSnoc(items: seq<Item>, item: Item)
    ensures Interrupted(items + [item]) <==> Interrupted(items) || item.Reset? || item.Lagged?
  {
    var all := items + [item];
    if Interrupted(items) {
      var i :| 0 <= i < |items| && (items[i].Reset? || items[i].Lagged?);
      assert all[i] == items[i];
    }
    if item.Reset? || item.Lagged? { assert all[|items|] == item; }
  }

  lemma OutRowsHead(p: Setup, items: seq<Item>)
    requires items != []
    ensures OutRows(p, items) == OutRows(p, [items[0]]) + OutRows(p, items[1..])
  {
    ChangesConcat([items[0]], items[1..]);
    assert items == [items[0]] + items[1..];
    RowsConcat(p.world, p.cursor.generation, Changes([items[0]]), Changes(items[1..]));
  }

  lemma ConcatOutRows(p: Setup, a: seq<Item>, b: seq<Item>)
    ensures OutRows(p, a + b) == OutRows(p, a) + OutRows(p, b)
  {
    ChangesConcat(a, b);
    RowsConcat(p.world, p.cursor.generation, Changes(a), Changes(b));
  }

  lemma NumberedIsStored(chain: seq<string>, k: nat, reached: nat)
    requires k <= reached <= |chain|
    ensures Stored(chain, Stretch(chain, k, reached), k, reached)
  {
  }

  lemma FenceSnoc(p: Setup, s: System, t: System, item: Item)
    requires s.phase.Open? && s.phase.fence.Durable? && FenceOk(p, s) && OwnRow(p, item)
    requires t.phase.Open? && t.phase.fence == s.phase.fence && t.chains == s.chains && t.out == s.out + [item]
    ensures FenceOk(p, t)
  {
    hide OwnRow;
  }

  lemma ReplayDone(p: Setup, s: System, t: System)
    requires s.at <= |s.sent| && s.phase.Open? && s.phase.fence.Durable? && s.phase.state == Replaying([])
    requires FenceOk(p, s) && ReplayingOk(p, s) && t == s.(phase := Open(Live, s.phase.fence))
    ensures FenceOk(p, t) && LiveOk(p, t)
  {
    assert Reached(p, t) == Reached(p, s);
    assert OutRows(p, []) == [] && OutRows(p, s.out) + [] == OutRows(p, s.out);
    NumberedIsStored(Chain(s, p.cursor.generation), p.cursor.row, s.phase.fence.row.row);
    hide Rows, Changes, Interrupted, Stored, Numbered, Stretch, OutRows, Reached, OwnRow;
  }

  lemma ReplayOne(p: Setup, s: System, rest: seq<Item>, t: System)
    requires s.at <= |s.sent| && s.phase.Open? && s.phase.fence.Durable? && s.phase.state == Replaying(rest) && rest != []
    requires FenceOk(p, s) && ReplayingOk(p, s)
    requires t == s.(phase := Open(Replaying(rest[1..]), s.phase.fence), out := s.out + [rest[0]])
    ensures FenceOk(p, t) && ReplayingOk(p, t)
  {
    assert Reached(p, t) == Reached(p, s);
    FenceSnoc(p, s, t, rest[0]);
    InterruptedSnoc(s.out, rest[0]);
    RegroupOutRows(p, s.out, rest);
    hide Rows, Changes, Interrupted, Numbered, Stretch, OutRows, Reached, OwnRow, FenceOk;
  }

  lemma RegroupOutRows(p: Setup, done: seq<Item>, rest: seq<Item>)
    requires rest != []
    ensures OutRows(p, done + [rest[0]]) + OutRows(p, rest[1..]) == OutRows(p, done) + OutRows(p, rest)
  {
    hide *;
    OutRowsHead(p, rest);
    ConcatOutRows(p, done, [rest[0]]);
    assert (OutRows(p, done) + OutRows(p, [rest[0]])) + OutRows(p, rest[1..])
        == OutRows(p, done) + (OutRows(p, [rest[0]]) + OutRows(p, rest[1..]));
  }

  lemma ReplayStepKeepsFollow(p: Setup, s: System)
    requires Inv(p, s) && Enabled(p, s, Receive) && s.phase.state.Replaying?
    ensures FollowOk(p, Apply(p, s, Receive))
  {
    var rest, t := s.phase.state.remaining, Apply(p, s, Receive);
    hide LogOk, FenceOk, ReplayingOk, LiveOk;
    if rest == [] {
      if s.phase.fence.Durable? { ReplayDone(p, s, t); }
    } else {
      InterruptedSnoc(s.out, rest[0]);
      hide Interrupted;
      if s.phase.fence.Durable? { ReplayOne(p, s, rest, t); }
    }
  }

  lemma RowsSplit(w: string, g: string, s: seq<Change>, i: nat)
    requires i < |s|
    ensures s[..i + 1] == s[..i] + [s[i]]
    ensures Rows(w, g, s[..i + 1]) == Rows(w, g, s[..i]) + (if IsRow(w, g, s[i]) then [Row(s[i].id.row, s[i].etag)] else [])
    ensures Rows(w, g, s) == Rows(w, g, s[..i + 1]) + Rows(w, g, s[i + 1..])
  {
    hide *;
    assert s[..i + 1] == s[..i] + [s[i]];
    RowsSnoc(w, g, s[..i], s[i]);
    assert s == s[..i + 1] + s[i + 1..];
    RowsConcat(w, g, s[..i + 1], s[i + 1..]);
  }

  /** A row found after `front` in a numbered stretch is the one its position says. */
  lemma NumberedAt(chain: seq<string>, base: nat, front: seq<Row>, row: Row, back: seq<Row>)
    requires base <= |chain| && Numbered(chain, base) == (front + [row]) + back
    ensures base + |front| < |chain| && row == Row(base + |front| + 1, chain[base + |front|])
  {
    assert Numbered(chain, base)[|front|] == row;
  }

  /** The next broadcast row of the followed incarnation is the row after those already read. */
  lemma NextRow(p: Setup, s: System, g: string)
    requires p.Valid() && LogOk(p, s) && s.at < |s.sent|
    ensures s.sent[..s.at + 1] == s.sent[..s.at] + [s.sent[s.at]]
    ensures var read := p.Base(g) + |Rows(p.world, g, s.sent[..s.at])|;
      if IsRow(p.world, g, s.sent[s.at]) then
        && read < |Chain(s, g)|
        && Row(s.sent[s.at].id.row, s.sent[s.at].etag) == Row(read + 1, Chain(s, g)[read])
        && |Rows(p.world, g, s.sent[..s.at + 1])| == |Rows(p.world, g, s.sent[..s.at])| + 1
      else
        Rows(p.world, g, s.sent[..s.at + 1]) == Rows(p.world, g, s.sent[..s.at])
  {
    assert GenerationInOrder(p, s, g);
    hide Rows, Numbered, Stretch, LogOk, Matches, IsRow;
    var c := s.sent[s.at];
    RowsSplit(p.world, g, s.sent, s.at);
    if IsRow(p.world, g, c) {
      var front, later, row := Rows(p.world, g, s.sent[..s.at]), Rows(p.world, g, s.sent[s.at + 1..]), Row(c.id.row, c.etag);
      var unsent := Rows(p.world, g, s.unsent);
      assert ((front + [row]) + later) + unsent == (front + [row]) + (later + unsent);
      NumberedAt(Chain(s, g), p.Base(g), front, row, later + unsent);
    }
  }

  /** What the durable fence does with the next broadcast change. */
  lemma FenceAction(p: Setup, s: System)
    requires p.Valid() && s.phase.Open? && s.phase.fence.Durable? && FenceOk(p, s) && s.at < |s.sent|
    ensures var c, f := s.sent[s.at], s.phase.fence;
      LiveAction(f, p.pattern, c) == (
        if c.World() != p.world then Drop
        else if c.Ping? then Accept
        else if c.id.generation != p.cursor.generation then Refuse(Incarnation)
        else if c.id.row <= f.row.row then Drop
        else Accept)
  {
  }

  lemma AcceptKeepsLive(p: Setup, s: System, t: System, read: nat)
    requires s.phase.Open? && s.phase.fence.Durable? && FenceOk(p, s) && s.at < |s.sent| && LiveOk(p, s)
    requires var c := s.sent[s.at];
      && IsRow(p.world, p.cursor.generation, c) && t == s.(at := s.at + 1, out := s.out + [Delivered(c)])
      && read < |Chain(s, p.cursor.generation)| && c.id.row == read + 1 && c.etag == Chain(s, p.cursor.generation)[read]
    requires Reached(p, s) == read && Reached(p, t) == read + 1
    ensures FenceOk(p, t) && LiveOk(p, t)
  {
    var item := Delivered(s.sent[s.at]);
    FenceSnoc(p, s, t, item);
    OutRowsSnoc(p, s.out, item);
    InterruptedSnoc(s.out, item);
    StoredSnoc(Chain(s, p.cursor.generation), OutRows(p, s.out), p.cursor.row, read);
    assert Chain(t, p.cursor.generation) == Chain(s, p.cursor.generation);
    hide Rows, Changes, Interrupted, Stored, Numbered, Stretch, OutRows, Reached, FenceOk, Chain, IsRow;
  }

  lemma StoredSnoc(chain: seq<string>, rows: seq<Row>, k: nat, read: nat)
    requires k <= read < |chain| && Stored(chain, rows, k, read)
    ensures Stored(chain, rows + [Row(read + 1, chain[read])], k, read + 1)
    ensures Stretch(chain, k, read + 1) == Stretch(chain, k, read) + [Row(read + 1, chain[read])]
  {
  }

  lemma ReachedGrows(p: Setup, s: System, t: System)
    requires p.Valid() && LogOk(p, s) && s.phase.Open? && s.phase.fence.Durable? && FenceOk(p, s)
    requires s.at <= t.at <= |s.sent| && t == s.(at := t.at, out := t.out)
    ensures Reached(p, s) <= Reached(p, t) <= |Chain(s, p.cursor.generation)|
  {
    var g := p.cursor.generation;
    assert GenerationInOrder(p, s, g);
    SnapshotCoversSent(p, t, g);
    RowsConcat(p.world, g, s.sent[..s.at], s.sent[s.at..t.at]);
    assert s.sent[..t.at] == s.sent[..s.at] + s.sent[s.at..t.at];
  }

  /** Reading on past a change the fence drops. */
  lemma DropKeepsLive(p: Setup, s: System, t: System)
    requires s.phase.Open? && s.phase.fence.Durable? && FenceOk(p, s) && s.at < |s.sent| && LiveOk(p, s)
    requires t == s.(at := s.at + 1) && Reached(p, t) == Reached(p, s)
    ensures FenceOk(p, t) && LiveOk(p, t)
  {
    assert FenceOk(p, t) && Chain(t, p.cursor.generation) == Chain(s, p.cursor.generation);
    hide Rows, Changes, Interrupted, OutRows, Reached, Stored, Numbered, Stretch, OwnRow, FenceOk, Chain;
  }

  /** Moving on with an item that is no row: a signal, or the report of a loss or a reset. */
  lemma TellKeepsLive(p: Setup, s: System, t: System, item: Item)
    requires s.phase.Open? && s.phase.fence.Durable? && FenceOk(p, s) && s.at <= t.at <= |s.sent| && LiveOk(p, s)
    requires t == s.(at := t.at, out := s.out + [item]) && !(item.Delivered? && item.change.ChainEvent?)
    requires Reached(p, s) <= Reached(p, t) <= |Chain(s, p.cursor.generation)|
    requires Reached(p, t) == Reached(p, s) || item.Lagged? || item.Reset?
    ensures FenceOk(p, t) && LiveOk(p, t)
  {
    FenceSnoc(p, s, t, item);
    OutRowsSnoc(p, s.out, item);
    InterruptedSnoc(s.out, item);
    assert OutRows(p, t.out) == OutRows(p, s.out) && Chain(t, p.cursor.generation) == Chain(s, p.cursor.generation);
    hide Rows, Changes, Interrupted, OutRows, Reached, OwnRow, FenceOk, Chain;
    StoredUpTo(Chain(s, p.cursor.generation), OutRows(p, s.out), p.cursor.row, Reached(p, s), Reached(p, t));
    hide Stored, Numbered, Stretch;
  }

  lemma StoredUpTo(chain: seq<string>, rows: seq<Row>, k: int, reached: int, further: int)
    requires reached <= further && Stored(chain, rows, k, reached)
    ensures Stored(chain, rows, k, further)
  {
  }

  lemma LiveStepKeepsFollow(p: Setup, s: System)
    requires Inv(p, s) && Enabled(p, s, Receive) && s.phase.state.Live? && s.phase.fence.Durable?
    requires |s.sent| - s.at <= p.capacity
    ensures FollowOk(p, Apply(p, s, Receive))
  {
    var g := p.cursor.generation;
    var t, c := Apply(p, s, Receive), s.sent[s.at];
    FenceAction(p, s);
    NextRow(p, s, g);
    var action := LiveAction(s.phase.fence, p.pattern, c);
    if action == Accept && c.ChainEvent? {
      var read := p.Base(g) + |Rows(p.world, g, s.sent[..s.at])|;
      assert Reached(p, s) == read && Reached(p, t) == read + 1;
      AcceptKeepsLive(p, s, t, read);
    } else {
      ReachedGrows(p, s, t);
      if action == Drop {
        DropKeepsLive(p, s, t);
      } else {
        TellKeepsLive(p, s, t, Answer(s.phase.fence, p.pattern, Got(c)));
      }
    }
    LiveStepNotices(p, s);
  }

  /** Reading a row of a newer incarnation resets, so until a reset none has been read. */
  lemma LiveStepNotices(p: Setup, s: System)
    requires Inv(p, s) && Enabled(p, s, Receive) && s.phase.state.Live? && s.phase.fence.Durable?
    requires |s.sent| - s.at <= p.capacity
    ensures var t := Apply(p, s, Receive); !Interrupted(t.out) ==> NoNewIncarnationPassed(p, t)
  {
    var t, c := Apply(p, s, Receive), s.sent[s.at];
    FenceAction(p, s);
    if t.out != s.out { InterruptedSnoc(s.out, t.out[|s.out|]); }
    if s.current.Some? && s.current.value != p.cursor.generation { NextRow(p, s, s.current.value); }
  }

  lemma LagKeepsFollow(p: Setup, s: System)
    requires Inv(p, s) && Enabled(p, s, Receive) && s.phase.state.Live? && s.phase.fence.Durable?
    requires |s.sent| - s.at > p.capacity
    ensures FollowOk(p, Apply(p, s, Receive))
  {
    var t := Apply(p, s, Receive);
    var lost := Lagged(t.at - s.at);
    InterruptedSnoc(s.out, lost);
    ReachedGrows(p, s, t);
    TellKeepsLive(p, s, t, lost);
  }

  lemma ReceiveKeepsFollow(p: Setup, s: System)
    requires Inv(p, s) && Enabled(p, s, Receive)
    ensures Apply(p, s, Receive).at <= |s.sent| && FollowOk(p, Apply(p, s, Receive))
  {
    if s.phase.state.Replaying? {
      ReplayStepKeepsFollow(p, s);
    } else if s.phase.fence.Durable? {
      if |s.sent| - s.at > p.capacity { LagKeepsFollow(p, s); } else { LiveStepKeepsFollow(p, s); }
    } else {
      var t := Apply(p, s, Receive);
      if t.out != s.out { InterruptedSnoc(s.out, t.out[|s.out|]); }
    }
  }

  lemma CloseKeepsLive(p: Setup, s: System, t: System)
    requires s.at <= |s.sent| && s.phase.Open? && s.phase.fence.Durable? && FenceOk(p, s) && LiveOk(p, s)
    requires t == s.(phase := Open(Closed, s.phase.fence), out := s.out + [ClosedItem])
    ensures FenceOk(p, t) && LiveOk(p, t)
  {
    FenceSnoc(p, s, t, ClosedItem);
    OutRowsSnoc(p, s.out, ClosedItem);
    InterruptedSnoc(s.out, ClosedItem);
    assert Reached(p, t) == Reached(p, s) && Chain(t, p.cursor.generation) == Chain(s, p.cursor.generation);
    hide Rows, Changes, Interrupted, Numbered, Stretch, OutRows, Reached, OwnRow, FenceOk, Stored, Chain;
  }

  lemma ShutDownKeepsFollow(p: Setup, s: System)
    requires Inv(p, s) && Enabled(p, s, ShutDown)
    ensures FollowOk(p, Apply(p, s, ShutDown))
  {
    InterruptedSnoc(s.out, ClosedItem);
    assert s.at <= |s.sent|;
    hide FenceOk, LiveOk, LogOk, Interrupted, ReplayingOk;
    if s.phase.fence.Durable? { CloseKeepsLive(p, s, Apply(p, s, ShutDown)); }
  }

  lemma StepKeepsInv(p: Setup, s: System, step: Step)
    requires Inv(p, s) && Enabled(p, s, step)
    ensures Inv(p, Apply(p, s, step))
  {
    StepKeepsLog(p, s, step);
    match step
    case OpenReceiver =>
    case Snapshot => SnapshotKeepsFollow(p, s);
    case Receive => ReceiveKeepsFollow(p, s);
    case ShutDown => ShutDownKeepsFollow(p, s);
    case _ => WriterKeepsFollow(p, s, step);
  }

  lemma {:induction false} RunKeepsInv(p: Setup, s: System, steps: seq<Step>, t: System)
    requires Inv(p, s) && Runs(p, s, steps, t)
    ensures Inv(p, t)
    decreases |steps|
  {
    if steps != [] {
      StepKeepsInv(p, s, steps[0]);
      RunKeepsInv(p, Apply(p, s, steps[0]), steps[1..], t);
    }
  }

  lemma InitInv(p: Setup, s: System)
    requires p.Valid() && Init(p, s)
    ensures Inv(p, s)
  {
    forall g: string ensures GenerationInOrder(p, s, g) {
      assert Rows(p.world, g, []) == [];
    }
  }

  // ---- Main results, over every run ----

  /** Until a loss or a reset is reported, the rows delivered are rows k + 1, k + 2, ... of the cursor's
      own incarnation: in order, with their stored content, no gap and no repeat. */
  lemma SpliceIsExactlyOnce(p: Setup, s: System, steps: seq<Step>, t: System)
    requires p.Valid() && Init(p, s) && Runs(p, s, steps, t) && !Interrupted(t.out)
    ensures OutRows(p, t.out) <= Numbered(Chain(t, p.cursor.generation), p.cursor.row)
    ensures forall i :: 0 <= i < |t.out| ==> OwnRow(p, t.out[i])
  {
    InitInv(p, s);
    RunKeepsInv(p, s, steps, t);
    if t.out == [] {
      assert OutRows(p, []) == [];
    }
    var chain, k := Chain(t, p.cursor.generation), p.cursor.row;
    forall upTo: nat | k <= upTo <= |chain| ensures Stretch(chain, k, upTo) <= Numbered(chain, k) {}
  }

  /** Caught up and uninterrupted, the client holds every row after its cursor, and no newer incarnation
      of the world exists. */
  lemma CaughtUpIsComplete(p: Setup, s: System, steps: seq<Step>, t: System)
    requires p.Valid() && Init(p, s) && Runs(p, s, steps, t) && !Interrupted(t.out)
    requires t.phase.Open? && t.phase.state.Live? && t.at == |t.sent| && t.unsent == []
    ensures OutRows(p, t.out) == Numbered(Chain(t, p.cursor.generation), p.cursor.row)
    ensures t.current.None? || t.current == Some(p.cursor.generation)
  {
    InitInv(p, s);
    RunKeepsInv(p, s, steps, t);
    var g, k := p.cursor.generation, p.cursor.row;
    assert t.sent[..t.at] == t.sent;
    assert GenerationInOrder(p, t, g);
    assert Rows(p.world, g, []) == [];
    assert t.phase.fence.Durable?;
    WholeNumbered(Chain(t, g), k);
    if t.current.Some? {
      var h := t.current.value;
      assert GenerationInOrder(p, t, h) && Rows(p.world, h, []) == [];
      assert |Rows(p.world, h, t.sent)| == |Chain(t, h)| - p.Base(h) && |Chain(t, h)| > 0;
    }
  }

  /** Whatever was lost or reset on the way, a fenced stream never delivers a row of another incarnation,
      never repeats or reorders a row, and always with the stored content. */
  lemma NeverForeignNeverTwice(p: Setup, s: System, steps: seq<Step>, t: System)
    requires p.Valid() && Init(p, s) && Runs(p, s, steps, t)
    requires t.phase.Open? && t.phase.fence.Durable? && !t.phase.state.Replaying?
    ensures forall i :: 0 <= i < |t.out| ==> OwnRow(p, t.out[i])
    ensures Stored(Chain(t, p.cursor.generation), OutRows(p, t.out), p.cursor.row, |Chain(t, p.cursor.generation)|)
  {
    InitInv(p, s);
    RunKeepsInv(p, s, steps, t);
    StoredUpTo(Chain(t, p.cursor.generation), OutRows(p, t.out), p.cursor.row, Reached(p, t), |Chain(t, p.cursor.generation)|);
  }
}
