/** When resuming one durable world must not reset, must not lag, and does catch up. */
module SpliceProgress {
  import Slices
  import opened Framing
  import opened EventId
  import opened Subscription
  import opened DurableSplice

  // ---- What the snapshot answers ----

  predicate Followed(p: Setup) { p.cursor.world == p.world }

  /** The cursor's row is still in the chain on disk. */
  predicate MarkerPresent(p: Setup, s: System) { 0 < p.cursor.row <= |Chain(s, p.cursor.generation)| }

  /** The cursor names a row of the incarnation on disk, and no more rows follow it than a replay may hold. */
  predicate Resumable(p: Setup, s: System) {
    && Followed(p) && s.current == Some(p.cursor.generation) && MarkerPresent(p, s)
    && |Chain(s, p.cursor.generation)| - p.cursor.row <= p.replayMax
  }

  /** After any run, the snapshot resumes exactly when the cursor is resumable; otherwise the one thing it
      queues is a reset, and its reason says why. */
  lemma SnapshotAnswers(p: Setup, s: System, steps: seq<Step>, t: System)
    requires p.Valid() && Init(p, s) && Runs(p, s, steps, t) && Enabled(p, t, Snapshot)
    ensures var phase := Apply(p, t, Snapshot).phase;
      && phase.Open?
      && (phase.fence.Durable? <==> Resumable(p, t))
      && (phase == Open(Replaying([Reset(Incarnation)]), NoFence)
          <==> Followed(p) && t.current.Some? && t.current.value != p.cursor.generation)
      && (phase == Open(Replaying([Reset(Truncation)]), NoFence)
          <==> Followed(p) && t.current == Some(p.cursor.generation) && !MarkerPresent(p, t))
      && (phase == Open(Replaying([Reset(RingMiss)]), NoFence)
          <==> !Followed(p) || t.current.None?
               || (t.current == Some(p.cursor.generation) && MarkerPresent(p, t) && !Resumable(p, t)))
  {
    InitInv(p, s);
    RunKeepsInv(p, s, steps, t);
    assert t.current.Some? ==> t.current.value in t.chains;
    hide Inv, RowsFrom;
  }

  // ---- Draining the replay ----

  function Receives(n: nat): seq<Step> { seq(n, _ => Receive) }

  lemma ReceivesTail(n: nat)
    requires n > 0
    ensures Receives(n) != [] && Receives(n)[0] == Receive && Receives(n)[1..] == Receives(n - 1)
  {
  }

  /** As many receives as the queue is long hand it over item by item. */
  lemma {:induction false} DrainReplay(p: Setup, s: System, rest: seq<Item>, t: System)
    requires s.phase.Open? && s.phase.state == Replaying(rest)
    requires t == s.(phase := Open(Replaying([]), s.phase.fence), out := s.out + rest)
    ensures Runs(p, s, Receives(|rest|), t)
    decreases |rest|
  {
    if rest == [] {
      Slices.Empty(s.out);
    } else {
      ReceivesTail(|rest|);
      var next := Apply(p, s, Receive);
      assert next == s.(phase := Open(Replaying(rest[1..]), s.phase.fence), out := s.out + [rest[0]]);
      Slices.HeadAndTail(rest);
      Slices.Assoc(s.out, [rest[0]], rest[1..]);
      hide Apply;
      DrainReplay(p, next, rest[1..], t);
    }
  }

  lemma NoneInterrupted(items: seq<Item>)
    requires forall i :: 0 <= i < |items| ==> items[i].Delivered?
    ensures !Interrupted(items)
  {
  }

  /** A resumable cursor is resumed: one receive per row after it, and the client holds those rows, in order
      and without interruption. */
  lemma ResumeDelivers(p: Setup, s: System, steps: seq<Step>, t: System) returns (u: System)
    requires p.Valid() && Init(p, s) && Runs(p, s, steps, t) && Enabled(p, t, Snapshot) && Resumable(p, t)
    ensures Runs(p, Apply(p, t, Snapshot), Receives(|Chain(t, p.cursor.generation)| - p.cursor.row), u)
    ensures !Interrupted(u.out) && OutRows(p, u.out) == Numbered(Chain(t, p.cursor.generation), p.cursor.row)
    ensures u == Apply(p, t, Snapshot).(phase := u.phase, out := u.out)
    ensures u.phase.Open? && Draining(u.phase.state) && u.phase.fence == Apply(p, t, Snapshot).phase.fence
  {
    SnapshotAnswers(p, s, steps, t);
    InitInv(p, s);
    RunKeepsInv(p, s, steps, t);
    ReplayIsChain(p, t);
    var replay, snap := Replay(p, t).0, Apply(p, t, Snapshot);
    assert snap.out == [] && |replay| == |Chain(t, p.cursor.generation)| - p.cursor.row;
    NoneInterrupted(replay);
    Slices.Empty(replay);
    hide Inv, Replay, OutRows, Numbered, Interrupted;
    if replay == [] {
      u := snap;
      assert Receives(0) == [];
    } else {
      u := snap.(phase := Open(Replaying([]), snap.phase.fence), out := snap.out + replay);
      DrainReplay(p, snap, replay, u);
    }
  }

  // ---- Live ----

  predicate RowOfOther(p: Setup, c: Change) { c.ChainEvent? && c.id.world == p.world && c.id.generation != p.cursor.generation }

  /** Live behind a durable fence, after any run: the next receive reports a loss exactly when the receiver
      is further behind than the channel holds, with the exact number of changes lost; and a reset exactly
      when the next change is a row of another incarnation. */
  lemma LiveInterruptsIff(p: Setup, s: System, steps: seq<Step>, t: System)
    requires p.Valid() && Init(p, s) && Runs(p, s, steps, t)
    requires Enabled(p, t, Receive) && t.phase.state.Live? && t.phase.fence.Durable?
    ensures var out := Apply(p, t, Receive).out;
      && ((exists n :: out == t.out + [Lagged(n)]) <==> |t.sent| - t.at > p.capacity)
      && (|t.sent| - t.at > p.capacity ==> out == t.out + [Lagged(|t.sent| - t.at - p.capacity)])
      && ((exists r :: out == t.out + [Reset(r)]) <==> |t.sent| - t.at <= p.capacity && RowOfOther(p, t.sent[t.at]))
      && (Interrupted(out) ==> Interrupted(t.out) || |t.sent| - t.at > p.capacity || RowOfOther(p, t.sent[t.at]))
  {
    InitInv(p, s);
    RunKeepsInv(p, s, steps, t);
    LiveStep(p, t);
    var v := Apply(p, t, Receive);
    if v.out != t.out { InterruptedSnoc(t.out, v.out[|t.out|]); }
    hide Inv, Apply, Interrupted;
    forall item: Item ensures t.out + [item] != t.out && (t.out + [item])[|t.out|] == item { }
  }

  lemma LiveStep(p: Setup, t: System)
    requires Inv(p, t) && Enabled(p, t, Receive) && t.phase.state.Live? && t.phase.fence.Durable?
    ensures var v := Apply(p, t, Receive);
      if |t.sent| - t.at > p.capacity then v.out == t.out + [Lagged(|t.sent| - t.at - p.capacity)]
      else if RowOfOther(p, t.sent[t.at]) then v == t.(at := t.at + 1, out := t.out + [Reset(Incarnation)])
      else v == t.(at := t.at + 1, out := v.out) && (v.out == t.out || v.out == t.out + [Delivered(t.sent[t.at])])
  {
    FenceAction(p, t);
    hide LogOk, LiveAction, Matches;
  }

  /** Nothing of another incarnation is waiting to be read. */
  predicate OwnAhead(p: Setup, t: System)
    requires t.at <= |t.sent|
  {
    forall i :: t.at <= i < |t.sent| ==> !RowOfOther(p, t.sent[i])
  }

  /** Within the channel's capacity, reading on to the end meets no interruption. */
  lemma {:induction false} ReadsOn(p: Setup, t: System) returns (v: System)
    requires Inv(p, t) && t.phase.Open? && t.phase.state.Live? && t.phase.fence.Durable? && !Interrupted(t.out)
    requires t.at <= |t.sent| && |t.sent| - t.at <= p.capacity && OwnAhead(p, t)
    ensures Runs(p, t, Receives(|t.sent| - t.at), v)
    ensures v == t.(at := |t.sent|, out := v.out) && !Interrupted(v.out)
    decreases |t.sent| - t.at
  {
    if t.at == |t.sent| {
      v := t;
    } else {
      var next := Apply(p, t, Receive);
      StepKeepsInv(p, t, Receive);
      LiveStep(p, t);
      InterruptedSnoc(t.out, Delivered(t.sent[t.at]));
      ReceivesTail(|t.sent| - t.at);
      hide Inv, Apply, Interrupted, Receives;
      assert !Interrupted(next.out) && Enabled(p, t, Receive);
      hide Enabled;
      v := ReadsOn(p, next);
    }
  }

  lemma {:induction false} RunsConcat(p: Setup, s: System, a: seq<Step>, mid: System, b: seq<Step>, t: System)
    requires Runs(p, s, a, mid) && Runs(p, mid, b, t)
    ensures Runs(p, s, a + b, t)
    decreases |a|
  {
    hide Apply, Enabled;
    if a == [] {
      Slices.Empty(b);
    } else {
      Slices.TailOfConcat(a, b);
      RunsConcat(p, Apply(p, s, a[0]), a[1..], mid, b, t);
    }
  }

  predicate OnlyReceives(steps: seq<Step>) { forall i :: 0 <= i < |steps| ==> steps[i] == Receive }

  lemma GoesLive(p: Setup, u: System) returns (steps: seq<Step>, live: System)
    requires u.phase.Open? && Draining(u.phase.state)
    ensures live == u.(phase := Open(Live, u.phase.fence)) && Runs(p, u, steps, live) && OnlyReceives(steps)
  {
    live := u.(phase := Open(Live, u.phase.fence));
    if u.phase.state.Live? {
      steps := [];
    } else {
      steps := [Receive];
      assert steps[1..] == [] && Apply(p, u, Receive) == live && Runs(p, live, [], live);
    }
  }

  /** From the snapshot to the live stream, by receiving alone. */
  lemma ReachesLive(p: Setup, s: System, steps: seq<Step>, t: System) returns (way: seq<Step>, live: System)
    requires p.Valid() && Init(p, s) && Runs(p, s, steps, t) && Enabled(p, t, Snapshot) && Resumable(p, t)
    ensures OnlyReceives(way) && Runs(p, Apply(p, t, Snapshot), way, live) && !Interrupted(live.out)
    ensures live.phase.Open? && live.phase.state.Live? && live.phase.fence.Durable?
    ensures live.at == t.at && live.sent == t.sent && live.unsent == t.unsent && live.chains == t.chains
  {
    SnapshotAnswers(p, s, steps, t);
    var snap := Apply(p, t, Snapshot);
    assert snap == t.(phase := snap.phase);
    var u := ResumeDelivers(p, s, steps, t);
    hide Apply, Enabled, Runs, Interrupted, OutRows, Numbered, Resumable, Init;
    var turn, there := GoesLive(p, u);
    live := there;
    var n := |Chain(t, p.cursor.generation)| - p.cursor.row;
    way := Receives(n) + turn;
    RunsConcat(p, snap, Receives(n), u, turn, live);
  }

  lemma OnlyReceivesConcat(a: seq<Step>, n: nat)
    requires OnlyReceives(a)
    ensures OnlyReceives(a + Receives(n))
  {
  }

  /** The whole way: a resumable cursor, nothing unsent, a receiver no further behind than the channel holds
      and no newer incarnation announced. Receiving alone brings the client to the end of the stream,
      uninterrupted and with every row after its cursor. */
  lemma ResumeCatchesUp(p: Setup, s: System, steps: seq<Step>, t: System) returns (more: seq<Step>, v: System)
    requires p.Valid() && Init(p, s) && Runs(p, s, steps, t) && Enabled(p, t, Snapshot) && Resumable(p, t)
    requires t.unsent == [] && t.at <= |t.sent| && |t.sent| - t.at <= p.capacity && OwnAhead(p, t)
    ensures OnlyReceives(more)
    ensures Runs(p, Apply(p, t, Snapshot), more, v) && !Interrupted(v.out) && v.at == |v.sent|
    ensures OutRows(p, v.out) == Numbered(Chain(t, p.cursor.generation), p.cursor.row)
  {
    hide Apply, Enabled, Runs, Interrupted, OutRows, Numbered, Resumable, Init, OwnAhead, OnlyReceives, Receives;
    var snap := Apply(p, t, Snapshot);
    var way, live := ReachesLive(p, s, steps, t);
    var first := steps + [Snapshot];
    FromSnapshot(p, s, steps, t, snap);
    RunsConcat(p, s, first, snap, way, live);
    InitInv(p, s);
    RunKeepsInv(p, s, first + way, live);
    AheadSame(p, t, live);
    v := ReadsOn(p, live);
    var rest := Receives(|live.sent| - live.at);
    more := way + rest;
    OnlyReceivesConcat(way, |live.sent| - live.at);
    RunsConcat(p, snap, way, live, rest, v);
    RunsConcat(p, s, first + way, live, rest, v);
    CaughtUpIsComplete(p, s, first + way + rest, v);
    assert Chain(v, p.cursor.generation) == Chain(t, p.cursor.generation);
  }

  lemma FromSnapshot(p: Setup, s: System, steps: seq<Step>, t: System, snap: System)
    requires Runs(p, s, steps, t) && Enabled(p, t, Snapshot) && snap == Apply(p, t, Snapshot)
    ensures Runs(p, s, steps + [Snapshot], snap)
  {
    assert [Snapshot][1..] == [] && Runs(p, snap, [], snap) && Runs(p, t, [Snapshot], snap);
    hide Apply, Enabled;
    RunsConcat(p, s, steps, t, [Snapshot], snap);
  }

  lemma AheadSame(p: Setup, t: System, live: System)
    requires t.at <= |t.sent| && OwnAhead(p, t) && live.at == t.at && live.sent == t.sent
    ensures OwnAhead(p, live)
  {
  }

  // ---- Deletes are announced ----

  /** The delete signals of one world. */
  function Pings(world: string, s: seq<Change>): nat {
    if s == [] then 0 else (if s[0].Ping? && s[0].path == world then 1 else 0) + Pings(world, s[1..])
  }

  function Removals(steps: seq<Step>): nat { if steps == [] then 0 else (if steps[0].Remove? then 1 else 0) + Removals(steps[1..]) }

  lemma {:induction false} PingsConcat(world: string, a: seq<Change>, b: seq<Change>)
    ensures Pings(world, a + b) == Pings(world, a) + Pings(world, b)
  {
    if a == [] {
      Slices.Empty(b);
    } else {
      PingsConcat(world, a[1..], b);
      Slices.TailOfConcat(a, b);
    }
  }

  lemma {:induction false} RowsHaveNoPing(world: string, s: seq<Change>)
    requires forall i :: 0 <= i < |s| ==> s[i].ChainEvent?
    ensures Pings(world, s) == 0
  {
    if s != [] { RowsHaveNoPing(world, s[1..]); }
  }

  lemma StepAnnounces(p: Setup, s: System, step: Step)
    requires Enabled(p, s, step)
    ensures var t := Apply(p, s, step);
      Pings(p.world, t.sent) + Pings(p.world, t.unsent) == Pings(p.world, s.sent) + Pings(p.world, s.unsent) + (if step.Remove? then 1 else 0)
  {
    match step
    case Commit(g, etags) => RowsHaveNoPing(p.world, RowsFrom(p.world, g, |Chain(s, g)|, etags));
    case Remove => assert [Ping(0, p.world)][1..] == [];
    case Notify(d) =>
      var next := s.unsent[0].(delivery := d);
      PingsConcat(p.world, s.sent, [next]);
      assert [next][1..] == [];
    case NotifyOther(change) =>
      PingsConcat(p.world, s.sent, [change]);
      assert [change][1..] == [];
    case _ => hide RowsFrom;
  }

  lemma {:induction false} RunAnnounces(p: Setup, s: System, steps: seq<Step>, t: System)
    requires Runs(p, s, steps, t)
    ensures Pings(p.world, t.sent) + Pings(p.world, t.unsent) == Pings(p.world, s.sent) + Pings(p.world, s.unsent) + Removals(steps)
    decreases |steps|
  {
    if steps != [] {
      StepAnnounces(p, s, steps[0]);
      hide Apply, Enabled;
      RunAnnounces(p, Apply(p, s, steps[0]), steps[1..], t);
    }
  }

  /** Over every run, each removal of the followed world is announced once: by a signal already broadcast or the
      next thing to be. A live client that has not fallen behind is handed it. */
  lemma DeletesAnnounced(p: Setup, s: System, steps: seq<Step>, t: System)
    requires p.Valid() && Init(p, s) && Runs(p, s, steps, t)
    ensures Pings(p.world, t.sent) + Pings(p.world, t.unsent) == Removals(steps)
    ensures Enabled(p, t, Receive) && t.phase.state.Live? && |t.sent| - t.at <= p.capacity && t.sent[t.at].Ping? && t.sent[t.at].path == p.world
      ==> Apply(p, t, Receive).out == t.out + [Delivered(t.sent[t.at])]
  {
    RunAnnounces(p, s, steps, t);
    hide Runs;
    assert Matches(p.pattern, p.world);
  }

  // ---- Nothing older is read ----

  lemma StepReadsOn(p: Setup, s: System, step: Step)
    requires Enabled(p, s, step) && !s.phase.NotOpened? && s.at <= |s.sent|
    ensures var t := Apply(p, s, step); !t.phase.NotOpened? && s.at <= t.at <= |t.sent| && s.sent <= t.sent
  {
    hide RowsFrom, Silent, Replay;
  }

  /** A receiver starts at the end of the broadcast and only moves on: what was sent before it was opened never
      reaches the client live. */
  lemma NothingOlderIsRead(p: Setup, s: System, steps: seq<Step>, t: System)
    requires Enabled(p, s, OpenReceiver) && Runs(p, Apply(p, s, OpenReceiver), steps, t)
    ensures |s.sent| <= t.at <= |t.sent| && s.sent <= t.sent
  {
    RunReadsOn(p, Apply(p, s, OpenReceiver), steps, t);
  }

  lemma {:induction false} RunReadsOn(p: Setup, s: System, steps: seq<Step>, t: System)
    requires Runs(p, s, steps, t) && !s.phase.NotOpened? && s.at <= |s.sent|
    ensures s.at <= t.at <= |t.sent| && s.sent <= t.sent
    decreases |steps|
  {
    if steps != [] {
      StepReadsOn(p, s, steps[0]);
      hide Apply, Enabled;
      RunReadsOn(p, Apply(p, s, steps[0]), steps[1..], t);
    }
  }
}
