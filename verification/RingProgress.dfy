/** When a ring resume must not report a loss, and that receiving alone brings it to the end of the stream. */
module RingProgress {
  import Slices
  import opened Framing
  import opened Subscription
  import opened RingResume
  import D = DurableSplice

  function Receives(n: nat): seq<Step> { seq(n, _ => Receive) }

  lemma ReceivesTail(n: nat)
    requires n > 0
    ensures Receives(n) != [] && Receives(n)[0] == Receive && Receives(n)[1..] == Receives(n - 1)
  {
  }

  /** A live receive of a resumed subscription. */
  lemma LiveStep(p: Setup, s: System)
    requires Enabled(s, Receive) && s.phase.Resumed? && s.phase.state.Live?
    ensures var v := Apply(p, s, Receive);
      if |s.sent| - s.at > p.capacity then v == s.(at := |s.sent| - p.capacity, out := s.out + [Lagged(|s.sent| - s.at - p.capacity)])
      else v == s.(at := s.at + 1, out := s.out + Said(ProcessLocal(s.phase.floor), p.pattern, Got(s.sent[s.at])))
  {
    AnswerIsSaid(ProcessLocal(s.phase.floor), p.pattern, Got(s.sent[s.at]));
    Slices.Empty(s.out);
    hide LiveAction, Names, Matches, Said;
  }

  /** A resumed stream reports a loss exactly when the receiver is further behind than the channel holds,
      with the exact number of changes lost, and is never reset. */
  lemma LagsIff(p: Setup, s: System)
    requires Enabled(s, Receive) && s.phase.Resumed? && s.phase.state.Live? && !D.Interrupted(s.out)
    ensures D.Interrupted(Apply(p, s, Receive).out) <==> |s.sent| - s.at > p.capacity
    ensures |s.sent| - s.at > p.capacity ==> Apply(p, s, Receive).out == s.out + [Lagged(|s.sent| - s.at - p.capacity)]
  {
    LiveStep(p, s);
    var v := Apply(p, s, Receive);
    hide Apply, Names;
    if v.out != s.out { D.InterruptedSnoc(s.out, v.out[|s.out|]); }
  }

  lemma {:induction false} ReadsOn(p: Setup, s: System) returns (v: System)
    requires s.phase.Resumed? && s.phase.state.Live? && !D.Interrupted(s.out)
    requires s.at <= |s.sent| && |s.sent| - s.at <= p.capacity
    ensures Runs(p, s, Receives(|s.sent| - s.at), v)
    ensures v == s.(at := |s.sent|, out := v.out) && !D.Interrupted(v.out)
    decreases |s.sent| - s.at
  {
    if s.at == |s.sent| {
      v := s;
    } else {
      var next := Apply(p, s, Receive);
      LiveStep(p, s);
      LagsIff(p, s);
      ReceivesTail(|s.sent| - s.at);
      hide Apply, D.Interrupted, Said;
      v := ReadsOn(p, next);
    }
  }

  lemma {:induction false} DrainReplay(p: Setup, s: System, rest: seq<Item>, t: System)
    requires s.phase.Resumed? && s.phase.state == Replaying(rest)
    requires t == s.(phase := s.phase.(state := Live), out := s.out + rest)
    ensures Runs(p, s, Receives(|rest| + 1), t)
    decreases |rest|
  {
    ReceivesTail(|rest| + 1);
    var next := Apply(p, s, Receive);
    if rest == [] {
      Slices.Empty(s.out);
      assert Receives(0) == [] && next == t;
    } else {
      assert next == s.(phase := s.phase.(state := Replaying(rest[1..])), out := s.out + [rest[0]]);
      Slices.HeadAndTail(rest);
      Slices.Assoc(s.out, [rest[0]], rest[1..]);
      hide Apply;
      DrainReplay(p, next, rest[1..], t);
    }
  }

  lemma {:induction false} RunsConcat(p: Setup, s: System, a: seq<Step>, mid: System, b: seq<Step>, t: System)
    requires Runs(p, s, a, mid) && Runs(p, mid, b, t)
    ensures Runs(p, s, a + b, t)
    decreases |a|
  {
    hide Apply, Enabled;
    if a == [] {
      Slices.Empty(b);
    } else {
      Slices.TailOfConcat(a, b);
      RunsConcat(p, Apply(p, s, a[0]), a[1..], mid, b, t);
    }
  }

  /** A snapshot that found its marker, with the receiver no further behind than the channel holds: receiving
      alone drains the replay and then the stream, to its end and without interruption. */
  lemma ResumeReachesEnd(p: Setup, s: System, steps: seq<Step>, t: System) returns (more: seq<Step>, v: System)
    requires Init(s) && Runs(p, s, steps, t) && Enabled(t, Snapshot) && Apply(p, t, Snapshot).phase.Resumed?
    requires t.at <= |t.sent| && |t.sent| - t.at <= p.capacity
    ensures forall i :: 0 <= i < |more| ==> more[i] == Receive
    ensures Runs(p, Apply(p, t, Snapshot), more, v) && !D.Interrupted(v.out)
    ensures v.phase.Resumed? && v.phase.state.Live? && v.at == |v.sent| && v.logged == t.logged && v.sent == t.sent
  {
    var snap := Apply(p, t, Snapshot);
    SnapshotReady(p, s, steps, t);
    hide Apply, D.Interrupted, Runs, Init;
    if snap.phase.state.Live? {
      v := ReadsOn(p, snap);
      more := Receives(|snap.sent| - snap.at);
    } else {
      var rest := snap.phase.state.remaining;
      var live := snap.(phase := snap.phase.(state := Live), out := snap.out + rest);
      Slices.Empty(rest);
      DrainReplay(p, snap, rest, live);
      v := ReadsOn(p, live);
      more := Receives(|rest| + 1) + Receives(|live.sent| - live.at);
      RunsConcat(p, snap, Receives(|rest| + 1), live, Receives(|live.sent| - live.at), v);
    }
  }

  /** Right after a snapshot nothing was handed out yet, and nothing queued is an interruption. */
  lemma SnapshotReady(p: Setup, s: System, steps: seq<Step>, t: System)
    requires Init(s) && Runs(p, s, steps, t) && Enabled(t, Snapshot) && Apply(p, t, Snapshot).phase.Resumed?
    ensures var snap := Apply(p, t, Snapshot);
      && snap == t.(phase := snap.phase) && snap.out == [] && !D.Interrupted(snap.out) && !snap.phase.state.Closed?
      && (snap.phase.state.Replaying? ==> !D.Interrupted(snap.phase.state.remaining))
  {
    RunKeepsInv(p, s, steps, t);
    hide Runs, Init;
  }
}
