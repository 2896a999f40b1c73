/** Resuming a wildcard pattern from the in-memory ring, with notifications as the three steps they take:
    draw a delivery id, push to the ring under its lock, send on the broadcast. */
module RingResume {
  import Slices
  import opened Framing
  import opened EventId
  import opened Subscription
  import D = DurableSplice

  datatype Setup = Setup(pattern: string, marker: Id, ringMax: nat, capacity: nat)

  /** Where a resumed subscription started: marker position and log length at the snapshot, and the
      broadcast position when its receiver was opened. */
  datatype Start = Start(mark: nat, snap: nat, from: nat)

  datatype Phase = NotOpened | ReceiverOpen(from: nat) | Missed(state: State) | Resumed(state: State, floor: nat, start: Start)

  /** `taken` have an id but are not in the ring yet; `unsent` are in the ring but not broadcast; `logged`
      is everything ever pushed, of which `ring` is what is still retained. */
  datatype System = System(next: nat, taken: seq<Change>, unsent: seq<Change>, logged: seq<Change>, ring: seq<Change>,
                           sent: seq<Change>, at: nat, phase: Phase, out: seq<Item>)

  datatype Step =
    | TakeId(change: Change)
    | Push(which: nat)
    | Send(which: nat)
    | OpenReceiver
    | Snapshot
    | Receive

  function Remove<T>(s: seq<T>, i: nat): seq<T>
    requires i < |s|
  {
    s[..i] + s[i + 1..]
  }

  function Last<T>(s: seq<T>, n: nat): seq<T> { if |s| <= n then s else s[|s| - n..] }

  /** The ring as `notify_with_aux` keeps it: push, then drop from the front while too long. */
  method PushAndTrim(ring: seq<Change>, change: Change, ringMax: nat) returns (r: seq<Change>)
    ensures r == Last(ring + [change], ringMax)
  {
    var all := ring + [change];
    r := all;
    while |r| > ringMax
      invariant |r| <= |all| && r == all[|all| - |r|..]
      invariant |all| <= ringMax ==> r == all
      invariant |all| > ringMax ==> |r| >= ringMax
      decreases |r|
    {
      r := r[1..];
    }
  }

  function Filter(keep: Change -> bool, s: seq<Change>): seq<Change> {
    if s == [] then [] else (if keep(s[0]) then [s[0]] else []) + Filter(keep, s[1..])
  }

  function IsChain(): Change -> bool { (c: Change) => c.ChainEvent? }
  function Wanted(pattern: string): Change -> bool { (c: Change) => Matches(pattern, c.World()) }
  function Passes(floor: nat, pattern: string): Change -> bool {
    (c: Change) => LiveAction(ProcessLocal(floor), pattern, c) == Accept
  }

  /** First position of the marker's row, or the length when it is not there. */
  function Position(ring: seq<Change>, marker: Id): (i: nat)
    ensures i <= |ring|
    ensures i < |ring| ==> ring[i].ChainEvent? && ring[i].id == marker
    ensures forall j :: 0 <= j < i ==> !(ring[j].ChainEvent? && ring[j].id == marker)
  {
    if ring == [] then 0
    else if ring[0].ChainEvent? && ring[0].id == marker then 0
    else 1 + Position(ring[1..], marker)
  }

  function AsItems(s: seq<Change>): seq<Item> { seq(|s|, i requires 0 <= i < |s| => Delivered(s[i])) }

  function Floor(replay: seq<Change>, marker: Change): nat {
    if replay == [] then marker.delivery else replay[|replay| - 1].delivery
  }

  function InitialState(replay: seq<Item>): State { if replay == [] then Live else Replaying(replay) }

  /** `replay_after_durable_ring_event_id`, then `EngineSubscription::new`. */
  function Resume(p: Setup, s: System, from: nat): Phase {
    var i := Position(s.ring, p.marker);
    if i == |s.ring| then Missed(Replaying([Reset(RingMiss)]))
    else
      var replay := Filter(Wanted(p.pattern), s.ring[i + 1..]);
      var dropped := if |s.ring| <= |s.logged| then |s.logged| - |s.ring| else 0;
      Resumed(InitialState(AsItems(replay)), Floor(replay, s.ring[i]), Start(dropped + i, |s.logged|, from))
  }

  function FenceOf(phase: Phase): Fence { if phase.Resumed? then ProcessLocal(phase.floor) else NoFence }

  predicate Drains(phase: Phase) { phase.Missed? || phase.Resumed? }

  predicate Enabled(s: System, step: Step) {
    match step
    case TakeId(change) => change.delivery == s.next + 1
    case Push(i) => i < |s.taken|
    case Send(i) => i < |s.unsent|
    case OpenReceiver => s.phase.NotOpened?
    case Snapshot => s.phase.ReceiverOpen?
    case Receive => Drains(s.phase) && (s.phase.state.Replaying? || (s.phase.state.Live? && s.at < |s.sent|))
  }

  function Apply(p: Setup, s: System, step: Step): System
    requires Enabled(s, step)
  {
    match step
    case TakeId(change) => s.(next := s.next + 1, taken := s.taken + [change])
    case Push(i) =>
      s.(taken := Remove(s.taken, i), unsent := s.unsent + [s.taken[i]], logged := s.logged + [s.taken[i]],
         ring := Last(s.ring + [s.taken[i]], p.ringMax))
    case Send(i) => s.(unsent := Remove(s.unsent, i), sent := s.sent + [s.unsent[i]])
    case OpenReceiver => s.(phase := ReceiverOpen(|s.sent|), at := |s.sent|)
    case Snapshot => s.(phase := Resume(p, s, s.phase.from))
    case Receive =>
      match s.phase.state
      case Replaying(rest) =>
        if rest == [] then s.(phase := s.phase.(state := Live))
        else s.(phase := s.phase.(state := Replaying(rest[1..])), out := s.out + [rest[0]])
      case Live =>
        if |s.sent| - s.at > p.capacity then
          s.(at := |s.sent| - p.capacity, out := s.out + [Lagged(|s.sent| - p.capacity - s.at)])
        else
          var got := Got(s.sent[s.at]);
          if Silent(FenceOf(s.phase), p.pattern, got) then s.(at := s.at + 1)
          else s.(at := s.at + 1, out := s.out + [Answer(FenceOf(s.phase), p.pattern, got)])
  }

  predicate Init(s: System) { s == System(0, [], [], [], [], [], 0, NotOpened, []) }

  predicate Runs(p: Setup, s: System, steps: seq<Step>, t: System)
    decreases |steps|
  {
    if steps == [] then s == t
    else Enabled(s, steps[0]) && Runs(p, Apply(p, s, steps[0]), steps[1..], t)
  }

  /** A run in which no notification starts while another is under way. */
  predicate SerialRun(p: Setup, s: System, steps: seq<Step>)
    decreases |steps|
  {
    steps == [] || (
      && Enabled(s, steps[0])
      && (steps[0].TakeId? ==> s.taken == [] && s.unsent == [])
      && SerialRun(p, Apply(p, s, steps[0]), steps[1..]))
  }

  lemma {:induction false} FilterConcat(keep: Change -> bool, a: seq<Change>, b: seq<Change>)
    ensures Filter(keep, a + b) == Filter(keep, a) + Filter(keep, b)
  {
    if a == [] {
      assert a + b == b;
    } else {
      var head := if keep(a[0]) then [a[0]] else [];
      FilterConcat(keep, a[1..], b);
      Slices.TailOfConcat(a, b);
      Slices.Assoc(head, Filter(keep, a[1..]), Filter(keep, b));
    }
  }

  lemma FilterLast(keep: Change -> bool, s: seq<Change>, i: nat, j: nat)
    requires i < j <= |s|
    ensures Filter(keep, s[i..j]) == Filter(keep, s[i..j - 1]) + (if keep(s[j - 1]) then [s[j - 1]] else [])
  {
    assert Filter(keep, [s[j - 1]]) == if keep(s[j - 1]) then [s[j - 1]] else [];
    hide *;
    assert s[i..j] == s[i..j - 1] + [s[j - 1]];
    FilterConcat(keep, s[i..j - 1], [s[j - 1]]);
  }

  lemma {:induction false} FilterMembers(keep: Change -> bool, s: seq<Change>)
    ensures forall c :: c in Filter(keep, s) <==> c in s && keep(c)
  {
    if s != [] {
      FilterMembers(keep, s[1..]);
      assert s == [s[0]] + s[1..];
    }
  }

  lemma {:induction false} FilterAgree(f: Change -> bool, g: Change -> bool, s: seq<Change>)
    requires forall i :: 0 <= i < |s| ==> f(s[i]) == g(s[i])
    ensures Filter(f, s) == Filter(g, s)
  {
    if s != [] { FilterAgree(f, g, s[1..]); }
  }

  lemma {:induction false} FilterNone(f: Change -> bool, s: seq<Change>)
    requires forall i :: 0 <= i < |s| ==> !f(s[i])
    ensures Filter(f, s) == []
  {
    if s != [] { FilterNone(f, s[1..]); }
  }

  // ---- All runs, overlapping or not ----

  predicate Anchored(p: Setup, s: System) {
    s.phase.Resumed? && (
      var st := s.phase.start;
      && st.mark < st.snap <= |s.logged| && st.from <= s.at <= |s.sent|
      && s.logged[st.mark].ChainEvent? && s.logged[st.mark].id == p.marker)
  }

  /** The wanted events that were pushed after the marker and before the snapshot. */
  function Replayed(p: Setup, s: System): seq<Change>
    requires Anchored(p, s)
  {
    Filter(Wanted(p.pattern), s.logged[s.phase.start.mark + 1..s.phase.start.snap])
  }

  /** What the fence lets through of the broadcast read so far. */
  function Passed(p: Setup, s: System): seq<Change>
    requires Anchored(p, s)
  {
    Filter(Passes(s.phase.floor, p.pattern), s.sent[s.phase.start.from..s.at])
  }

  predicate Delivering(p: Setup, s: System)
    requires Anchored(p, s)
  {
    && s.phase.floor == Floor(Replayed(p, s), s.logged[s.phase.start.mark])
    && (if s.phase.state.Replaying? then
          && !D.Interrupted(s.out) && !D.Interrupted(s.phase.state.remaining) && s.at == s.phase.start.from
          && D.Changes(s.out) + D.Changes(s.phase.state.remaining) == Replayed(p, s)
        else
          D.Interrupted(s.out) || D.Changes(s.out) == Replayed(p, s) + Passed(p, s))
  }

  predicate Inv(p: Setup, s: System) {
    && s.ring == Last(s.logged, p.ringMax)
    && s.at <= |s.sent|
    && (s.phase.ReceiverOpen? ==> s.phase.from == s.at)
    && (s.phase.NotOpened? || s.phase.ReceiverOpen? ==> s.out == [])
    && (s.phase.Missed? ==> D.Interrupted(s.out) || (s.out == [] && s.phase.state == Replaying([Reset(RingMiss)])))
    && (s.phase.Resumed? ==> Anchored(p, s) && Delivering(p, s))
  }

  lemma LastGrows<T>(s: seq<T>, x: T, n: nat)
    ensures Last(Last(s, n) + [x], n) == Last(s + [x], n)
  {
  }

  predicate NotifierStep(step: Step) { step.TakeId? || step.Push? || step.Send? }

  lemma NotifierFrame(p: Setup, s: System, step: Step)
    requires Enabled(s, step) && NotifierStep(step) && s.at <= |s.sent|
    ensures var t := Apply(p, s, step);
      t.phase == s.phase && t.out == s.out && t.at == s.at && s.logged <= t.logged && s.sent <= t.sent
      && (s.ring == Last(s.logged, p.ringMax) ==> t.ring == Last(t.logged, p.ringMax))
  {
    if step.Push? { LastGrows(s.logged, s.taken[step.which], p.ringMax); }
  }

  lemma NotifierKeepsInv(p: Setup, s: System, step: Step)
    requires Inv(p, s) && Enabled(s, step) && NotifierStep(step)
    ensures Inv(p, Apply(p, s, step))
  {
    var t := Apply(p, s, step);
    NotifierFrame(p, s, step);
    hide Apply, Filter, D.Changes, D.Interrupted, Last, Floor;
    if s.phase.Resumed? { SameAnchors(p, s, t); }
  }

  lemma SameAnchors(p: Setup, s: System, t: System)
    requires Anchored(p, s) && s.logged <= t.logged && s.sent <= t.sent && t.phase == s.phase && t.at == s.at
    ensures Anchored(p, t) && Replayed(p, t) == Replayed(p, s) && Passed(p, t) == Passed(p, s)
    ensures t.logged[s.phase.start.mark] == s.logged[s.phase.start.mark]
  {
    hide Filter, Wanted, Passes;
    var st := s.phase.start;
    assert t.logged[st.mark + 1..st.snap] == s.logged[st.mark + 1..st.snap];
    assert t.sent[st.from..s.at] == s.sent[st.from..s.at];
  }

  lemma LastIsTail<T>(s: seq<T>, n: nat, i: nat)
    requires i < |Last(s, n)|
    ensures |Last(s, n)| <= |s|
    ensures var j := |s| - |Last(s, n)| + i; Last(s, n)[i] == s[j] && Last(s, n)[i + 1..] == s[j + 1..|s|]
  {
  }

  lemma ResumeAnchors(p: Setup, s: System, t: System)
    requires Inv(p, s) && s.phase.ReceiverOpen? && t == s.(phase := Resume(p, s, s.at)) && t.phase.Resumed?
    ensures Anchored(p, t) && Passed(p, t) == []
    ensures t.phase.floor == Floor(Replayed(p, t), t.logged[t.phase.start.mark])
    ensures t.phase.state == InitialState(AsItems(Replayed(p, t)))
  {
    hide Filter, Wanted, Passes, AsItems, Floor, InitialState;
    LastIsTail(s.logged, p.ringMax, Position(s.ring, p.marker));
    assert Anchored(p, t);
    NothingPassedYet(p, t);
  }

  lemma NothingPassedYet(p: Setup, t: System)
    requires Anchored(p, t) && t.at == t.phase.start.from
    ensures Passed(p, t) == []
  {
    assert t.sent[t.at..t.at] == [];
  }

  lemma NoInterruptionInItems(s: seq<Change>)
    ensures !D.Interrupted(AsItems(s)) && !D.Interrupted([])
  {
  }

  lemma SnapshotKeepsInv(p: Setup, s: System)
    requires Inv(p, s) && Enabled(s, Snapshot)
    ensures Inv(p, Apply(p, s, Snapshot))
  {
    var t := Apply(p, s, Snapshot);
    if t.phase.Resumed? {
      ResumeAnchors(p, s, t);
      var replay := Replayed(p, t);
      hide Resume, Replayed, Passed, Filter, Position;
      D.ChangesOfDelivered(replay);
      NoInterruptionInItems(replay);
      assert D.Changes([]) == [] && [] + replay == replay && replay + [] == replay;
      hide D.Changes, D.Interrupted;
    }
  }

  lemma ReplayStepKeepsDelivering(p: Setup, s: System, rest: seq<Item>, t: System)
    requires Anchored(p, s) && Delivering(p, s) && s.phase.state == Replaying(rest) && rest != []
    requires t == s.(phase := s.phase.(state := Replaying(rest[1..])), out := s.out + [rest[0]])
    ensures Anchored(p, t) && Delivering(p, t)
  {
    hide Filter, D.Changes, D.Interrupted;
    ShiftItem(s.out, rest);
    assert Replayed(p, t) == Replayed(p, s);
  }

  lemma ShiftItem(done: seq<Item>, rest: seq<Item>)
    requires rest != []
    ensures D.Changes(done + [rest[0]]) + D.Changes(rest[1..]) == D.Changes(done) + D.Changes(rest)
    ensures !D.Interrupted(done) && !D.Interrupted(rest) ==> !D.Interrupted(done + [rest[0]]) && !D.Interrupted(rest[1..])
  {
    D.InterruptedSnoc(done, rest[0]);
    if !D.Interrupted(rest) { InterruptedTail(rest); }
    D.ChangesConcat(done, [rest[0]]);
    D.ChangesConcat([rest[0]], rest[1..]);
    assert rest == [rest[0]] + rest[1..];
    hide *;
    assert D.Changes(done) + D.Changes([rest[0]]) + D.Changes(rest[1..])
        == D.Changes(done) + (D.Changes([rest[0]]) + D.Changes(rest[1..]));
  }

  lemma ReplayEndKeepsDelivering(p: Setup, s: System, t: System)
    requires Anchored(p, s) && Delivering(p, s) && s.phase.state == Replaying([])
    requires t == s.(phase := s.phase.(state := Live))
    ensures Anchored(p, t) && Delivering(p, t)
  {
    assert s.sent[s.phase.start.from..s.at] == [];
    assert Replayed(p, t) == Replayed(p, s) && Passed(p, t) == [];
    hide Replayed, Passed;
    assert D.Changes([]) == [];
    assert D.Changes(s.out) + [] == D.Changes(s.out) && Replayed(p, s) + [] == Replayed(p, s);
  }

  lemma ReplayStepKeepsInv(p: Setup, s: System)
    requires Inv(p, s) && Enabled(s, Receive) && s.phase.state.Replaying?
    ensures Inv(p, Apply(p, s, Receive))
  {
    var rest, t := s.phase.state.remaining, Apply(p, s, Receive);
    hide Anchored, Delivering;
    if s.phase.Resumed? {
      if rest == [] { ReplayEndKeepsDelivering(p, s, t); } else { ReplayStepKeepsDelivering(p, s, rest, t); }
    } else if rest != [] {
      D.InterruptedSnoc(s.out, rest[0]);
    }
  }

  lemma InterruptedTail(items: seq<Item>)
    requires items != [] && !D.Interrupted(items)
    ensures !D.Interrupted(items[1..]) && !items[0].Reset? && !items[0].Lagged?
  {
    var rest := items[1..];
    forall i | 0 <= i < |rest| ensures !rest[i].Reset? && !rest[i].Lagged? { assert rest[i] == items[i + 1]; }
  }

  lemma PassedSnoc(p: Setup, s: System, t: System)
    requires Anchored(p, s) && s.at < |s.sent| && t == s.(at := s.at + 1, out := t.out)
    ensures Anchored(p, t) && Replayed(p, t) == Replayed(p, s)
    ensures var c := s.sent[s.at]; Passed(p, t) == Passed(p, s) + (if Passes(s.phase.floor, p.pattern)(c) then [c] else [])
  {
    hide Filter, Passes, Wanted;
    FilterLast(Passes(s.phase.floor, p.pattern), s.sent, s.phase.start.from, s.at + 1);
  }

  lemma DeliverItem(done: seq<Item>, c: Change)
    ensures D.Changes(done + [Delivered(c)]) == D.Changes(done) + [c]
    ensures D.Interrupted(done + [Delivered(c)]) <==> D.Interrupted(done)
  {
    D.InterruptedSnoc(done, Delivered(c));
    D.ChangesConcat(done, [Delivered(c)]);
    assert D.Changes([Delivered(c)]) == [c];
  }

  lemma LiveStepKeepsDelivering(p: Setup, s: System, t: System)
    requires Anchored(p, s) && Delivering(p, s) && s.phase.state.Live? && s.at < |s.sent|
    requires var c := s.sent[s.at];
      t == if Passes(s.phase.floor, p.pattern)(c) then s.(at := s.at + 1, out := s.out + [Delivered(c)]) else s.(at := s.at + 1)
    ensures Anchored(p, t) && Delivering(p, t)
  {
    hide Filter, Passes, Wanted, D.Changes, D.Interrupted;
    PassedSnoc(p, s, t);
    DeliverItem(s.out, s.sent[s.at]);
    hide Replayed, Passed;
    assert Replayed(p, s) + Passed(p, s) + [s.sent[s.at]] == Replayed(p, s) + (Passed(p, s) + [s.sent[s.at]]);
  }

  lemma LagKeepsDelivering(p: Setup, s: System, t: System, lost: nat)
    requires Anchored(p, s) && Delivering(p, s) && s.phase.state.Live? && s.at + lost <= |s.sent|
    requires t == s.(at := s.at + lost, out := s.out + [Lagged(lost)])
    ensures Anchored(p, t) && Delivering(p, t)
  {
    hide Filter;
    D.InterruptedSnoc(s.out, Lagged(lost));
    assert Replayed(p, t) == Replayed(p, s);
  }

  lemma LiveStepKeepsInv(p: Setup, s: System)
    requires Inv(p, s) && Enabled(s, Receive) && s.phase.state.Live?
    ensures Inv(p, Apply(p, s, Receive))
  {
    var t := Apply(p, s, Receive);
    hide Anchored, Delivering;
    if s.phase.Resumed? {
      if |s.sent| - s.at > p.capacity {
        LagKeepsDelivering(p, s, t, |s.sent| - p.capacity - s.at);
      } else {
        LiveStepKeepsDelivering(p, s, t);
      }
    } else if t.out != s.out {
      D.InterruptedSnoc(s.out, t.out[|s.out|]);
    }
  }

  lemma StepKeepsInv(p: Setup, s: System, step: Step)
    requires Inv(p, s) && Enabled(s, step)
    ensures Inv(p, Apply(p, s, step))
  {
    match step
    case Snapshot => SnapshotKeepsInv(p, s);
    case Receive => if s.phase.state.Replaying? { ReplayStepKeepsInv(p, s); } else { LiveStepKeepsInv(p, s); }
    case OpenReceiver =>
    case _ => NotifierKeepsInv(p, s, step);
  }

  lemma {:induction false} RunKeepsInv(p: Setup, s: System, steps: seq<Step>, t: System)
    requires Inv(p, s) && Runs(p, s, steps, t)
    ensures Inv(p, t)
    decreases |steps|
  {
    if steps != [] {
      StepKeepsInv(p, s, steps[0]);
      RunKeepsInv(p, Apply(p, s, steps[0]), steps[1..], t);
    }
  }

  /** After any run, a snapshot resets exactly when the marker is not among the last `ringMax` events
      pushed; the reset is then the first thing the client is told. */
  lemma MissIffMarkerGone(p: Setup, s: System, steps: seq<Step>, t: System)
    requires Init(s) && Runs(p, s, steps, t) && Enabled(t, Snapshot)
    ensures Apply(p, t, Snapshot).phase == Missed(Replaying([Reset(RingMiss)]))
       <==> forall i :: 0 <= i < |t.logged| && |t.logged| - p.ringMax <= i ==> !(t.logged[i].ChainEvent? && t.logged[i].id == p.marker)
  {
    RunKeepsInv(p, s, steps, t);
    var i := Position(t.ring, p.marker);
    var dropped := |t.logged| - |t.ring|;
    if i < |t.ring| {
      LastIsTail(t.logged, p.ringMax, i);
    } else {
      forall j | 0 <= j < |t.logged| && |t.logged| - p.ringMax <= j
        ensures !(t.logged[j].ChainEvent? && t.logged[j].id == p.marker)
      {
        assert t.logged[j] == t.ring[j - dropped];
      }
    }
  }

  // ---- Notifications that do not overlap ----

  predicate Ascending(s: seq<Change>) { forall i, j :: 0 <= i < j < |s| ==> s[i].delivery < s[j].delivery }

  predicate Serial(s: System) {
    && |s.taken| + |s.unsent| <= 1
    && s.logged == s.sent + s.unsent
    && Ascending(s.logged + s.taken)
    && (forall i :: 0 <= i < |s.logged + s.taken| ==> (s.logged + s.taken)[i].delivery <= s.next)
    && (s.phase.ReceiverOpen? ==> s.phase.from <= |s.sent|)
    && (s.phase.Resumed? ==> s.phase.start.from <= s.phase.start.snap)
  }

  lemma TakeIdKeepsSerial(p: Setup, s: System, c: Change)
    requires Serial(s) && c.delivery == s.next + 1 && s.taken == [] && s.unsent == []
    ensures Serial(s.(next := s.next + 1, taken := s.taken + [c]))
  {
    var all, more := s.logged + s.taken, s.logged + (s.taken + [c]);
    assert more == all + [c];
    forall i, j | 0 <= i < j < |more| ensures more[i].delivery < more[j].delivery {
      assert all[i].delivery <= s.next;
      assert j < |all| ==> all[i].delivery < all[j].delivery;
    }
    forall i | 0 <= i < |more| ensures more[i].delivery <= s.next + 1 {
      assert i < |all| ==> all[i].delivery <= s.next;
    }
  }

  lemma SameEventsKeepSerial(s: System, t: System)
    requires Serial(s) && t.logged + t.taken == s.logged + s.taken && t.next == s.next && t.phase == s.phase
    requires |s.sent| <= |t.sent| && |t.taken| + |t.unsent| <= 1 && t.logged == t.sent + t.unsent
    ensures Serial(t)
  {
  }

  lemma PushKeepsSerial(p: Setup, s: System, i: nat)
    requires Serial(s) && i < |s.taken|
    ensures Serial(Apply(p, s, Push(i)))
  {
    hide Ascending;
    assert i == 0 && s.unsent == [] && s.taken == [s.taken[0]];
    SameEventsKeepSerial(s, Apply(p, s, Push(i)));
  }

  lemma SendKeepsSerial(p: Setup, s: System, i: nat)
    requires Serial(s) && i < |s.unsent|
    ensures Serial(Apply(p, s, Send(i)))
  {
    hide Ascending;
    assert i == 0 && s.unsent == [s.unsent[0]] && s.taken == [];
    SameEventsKeepSerial(s, Apply(p, s, Send(i)));
  }

  /** A subscriber's step: the notifications are untouched and the snapshot is no older than the receiver. */
  lemma SubscriberFrame(p: Setup, s: System, step: Step)
    requires Enabled(s, step) && !NotifierStep(step)
    requires s.phase.ReceiverOpen? ==> s.phase.from <= |s.logged|
    requires s.phase.Resumed? ==> s.phase.start.from <= s.phase.start.snap
    ensures var t := Apply(p, s, step);
      && t.next == s.next && t.taken == s.taken && t.unsent == s.unsent && t.logged == s.logged && t.sent == s.sent
      && (t.phase.ReceiverOpen? ==> t.phase.from <= |t.sent|)
      && (t.phase.Resumed? ==> t.phase.start.from <= t.phase.start.snap)
  {
    hide Filter, LiveAction, Matches, Position, Floor, AsItems, InitialState;
  }

  lemma StepKeepsSerial(p: Setup, s: System, step: Step)
    requires Serial(s) && Enabled(s, step) && (step.TakeId? ==> s.taken == [] && s.unsent == [])
    ensures Serial(Apply(p, s, step))
  {
    match step
    case TakeId(c) => TakeIdKeepsSerial(p, s, c);
    case Push(i) =>
      hide Apply, Serial;
      PushKeepsSerial(p, s, i);
    case Send(i) =>
      hide Apply, Serial;
      SendKeepsSerial(p, s, i);
    case _ =>
      SubscriberFrame(p, s, step);
      hide Apply, Ascending;
  }

  lemma {:induction false} SerialRunKeeps(p: Setup, s: System, steps: seq<Step>, t: System)
    requires Serial(s) && Runs(p, s, steps, t) && SerialRun(p, s, steps)
    ensures Serial(t)
    decreases |steps|
  {
    if steps != [] {
      StepKeepsSerial(p, s, steps[0]);
      SerialRunKeeps(p, Apply(p, s, steps[0]), steps[1..], t);
    }
  }

  /** The floor is the id of the marker or of the last wanted event the snapshot saw. */
  lemma {:induction false} FloorIndex(pattern: string, logged: seq<Change>, mark: nat, snap: nat) returns (at: nat)
    requires mark < snap <= |logged|
    ensures mark <= at < snap
    ensures Floor(Filter(Wanted(pattern), logged[mark + 1..snap]), logged[mark]) == logged[at].delivery
    ensures forall i :: at < i < snap ==> !Matches(pattern, logged[i].World())
    decreases snap
  {
    hide Matches, Filter;
    if snap == mark + 1 {
      at := mark;
      FilterOfNothing(Wanted(pattern), logged, snap);
    } else {
      FilterLast(Wanted(pattern), logged, mark + 1, snap);
      if Matches(pattern, logged[snap - 1].World()) {
        at := snap - 1;
      } else {
        at := FloorIndex(pattern, logged, mark, snap - 1);
      }
    }
  }

  lemma FilterOfNothing(keep: Change -> bool, s: seq<Change>, i: nat)
    requires i <= |s|
    ensures Filter(keep, s[i..i]) == []
  {
    assert s[i..i] == [];
  }

  /** The floor separates what the snapshot covered from what came later. */
  lemma FloorSeparates(pattern: string, logged: seq<Change>, mark: nat, snap: nat, i: nat)
    requires Ascending(logged) && mark < snap <= |logged| && i < |logged|
    ensures var floor := Floor(Filter(Wanted(pattern), logged[mark + 1..snap]), logged[mark]);
      && (i < snap && Matches(pattern, logged[i].World()) ==> logged[i].delivery <= floor)
      && (i >= snap ==> logged[i].delivery > floor)
  {
    hide *;
    var at := FloorIndex(pattern, logged, mark, snap);
    AscendsAt(logged, at, i);
  }

  lemma AscendsAt(s: seq<Change>, i: nat, j: nat)
    requires Ascending(s) && i < |s| && j < |s|
    ensures i < j ==> s[i].delivery < s[j].delivery
    ensures j <= i ==> s[j].delivery <= s[i].delivery
  {
  }

  function End(snap: nat, at: nat): nat { if at < snap then snap else at }

  lemma {:induction false} FilterTwiceNone(f: Change -> bool, g: Change -> bool, s: seq<Change>)
    requires forall i :: 0 <= i < |s| && g(s[i]) ==> !f(s[i])
    ensures Filter(f, Filter(g, s)) == []
  {
    if s != [] {
      FilterTwiceNone(f, g, s[1..]);
      var first := if g(s[0]) then [s[0]] else [];
      FilterConcat(f, first, Filter(g, s[1..]));
      assert Filter(f, first) == [];
    }
  }

  lemma OldChainEventsStop(pattern: string, logged: seq<Change>, mark: nat, snap: nat, from: nat, upTo: nat)
    requires Ascending(logged) && mark < snap <= |logged| && from <= upTo <= snap
    ensures var floor := Floor(Filter(Wanted(pattern), logged[mark + 1..snap]), logged[mark]);
      Filter(IsChain(), Filter(Passes(floor, pattern), logged[from..upTo])) == []
  {
    hide Filter, Matches, Floor, Ascending, Wanted;
    var floor := Floor(Filter(Wanted(pattern), logged[mark + 1..snap]), logged[mark]);
    var earlier := logged[from..upTo];
    forall i | 0 <= i < |earlier| && Passes(floor, pattern)(earlier[i]) ensures !IsChain()(earlier[i]) {
      FloorSeparates(pattern, logged, mark, snap, from + i);
    }
    FilterTwiceNone(IsChain(), Passes(floor, pattern), earlier);
  }

  lemma NewEventsPass(pattern: string, logged: seq<Change>, mark: nat, snap: nat, at: nat)
    requires Ascending(logged) && mark < snap <= at <= |logged|
    ensures var floor := Floor(Filter(Wanted(pattern), logged[mark + 1..snap]), logged[mark]);
      Filter(Passes(floor, pattern), logged[snap..at]) == Filter(Wanted(pattern), logged[snap..at])
  {
    hide Filter, Matches, Floor, Ascending;
    var floor := Floor(Filter(Wanted(pattern), logged[mark + 1..snap]), logged[mark]);
    var later := logged[snap..at];
    forall i | 0 <= i < |later| ensures Passes(floor, pattern)(later[i]) == Wanted(pattern)(later[i]) {
      FloorSeparates(pattern, logged, mark, snap, snap + i);
    }
    FilterAgree(Passes(floor, pattern), Wanted(pattern), later);
  }

  lemma SpliceBeforeSnapshot(pattern: string, logged: seq<Change>, mark: nat, snap: nat, from: nat, at: nat, replay: seq<Change>)
    requires Ascending(logged) && mark < snap <= |logged| && from <= at <= snap
    requires replay == Filter(Wanted(pattern), logged[mark + 1..snap])
    ensures Filter(IsChain(), replay + Filter(Passes(Floor(replay, logged[mark]), pattern), logged[from..at]))
         == Filter(IsChain(), replay)
  {
    hide *;
    var passed := Filter(Passes(Floor(replay, logged[mark]), pattern), logged[from..at]);
    OldChainEventsStop(pattern, logged, mark, snap, from, at);
    FilterConcat(IsChain(), replay, passed);
    assert Filter(IsChain(), replay) + [] == Filter(IsChain(), replay);
  }

  lemma SpliceAfterSnapshot(pattern: string, logged: seq<Change>, mark: nat, snap: nat, from: nat, at: nat, replay: seq<Change>)
    requires Ascending(logged) && mark < snap <= |logged| && from <= snap <= at <= |logged|
    requires replay == Filter(Wanted(pattern), logged[mark + 1..snap])
    ensures Filter(IsChain(), replay + Filter(Passes(Floor(replay, logged[mark]), pattern), logged[from..at]))
         == Filter(IsChain(), Filter(Wanted(pattern), logged[mark + 1..at]))
  {
    hide *;
    var pass := Passes(Floor(replay, logged[mark]), pattern);
    OldChainEventsStop(pattern, logged, mark, snap, from, snap);
    NewEventsPass(pattern, logged, mark, snap, at);
    FilterSplit(pass, logged, from, snap, at);
    FilterSplit(Wanted(pattern), logged, mark + 1, snap, at);
    DropEarly(IsChain(), replay, Filter(pass, logged[from..snap]), Filter(pass, logged[snap..at]));
  }

  /** Replay followed by what the fence passes is, for chain events, everything wanted after the marker. */
  lemma SpliceOfLog(pattern: string, logged: seq<Change>, mark: nat, snap: nat, from: nat, at: nat, replay: seq<Change>)
    requires Ascending(logged) && mark < snap <= |logged| && from <= snap && from <= at <= |logged|
    requires replay == Filter(Wanted(pattern), logged[mark + 1..snap])
    ensures snap <= End(snap, at) <= |logged|
    ensures Filter(IsChain(), replay + Filter(Passes(Floor(replay, logged[mark]), pattern), logged[from..at]))
         == Filter(IsChain(), Filter(Wanted(pattern), logged[mark + 1..End(snap, at)]))
  {
    EndIs(snap, at);
    hide *;
    if at <= snap {
      SpliceBeforeSnapshot(pattern, logged, mark, snap, from, at, replay);
    } else {
      SpliceAfterSnapshot(pattern, logged, mark, snap, from, at, replay);
    }
  }

  lemma EndIs(snap: nat, at: nat)
    ensures End(snap, at) == if at <= snap then snap else at
  {
  }

  lemma FilterSplit(keep: Change -> bool, s: seq<Change>, i: nat, j: nat, k: nat)
    requires i <= j <= k <= |s|
    ensures Filter(keep, s[i..k]) == Filter(keep, s[i..j]) + Filter(keep, s[j..k])
  {
    hide Filter;
    FilterConcat(keep, s[i..j], s[j..k]);
    assert s[i..k] == s[i..j] + s[j..k];
  }

  lemma DropEarly(keep: Change -> bool, replay: seq<Change>, early: seq<Change>, late: seq<Change>)
    requires Filter(keep, early) == []
    ensures Filter(keep, replay + (early + late)) == Filter(keep, replay + late)
  {
    FilterConcat(keep, replay, early + late);
    FilterConcat(keep, early, late);
    FilterConcat(keep, replay, late);
  }

  // ---- Main results for notifications that do not overlap ----

  lemma InitSerial(p: Setup, s: System)
    requires Init(s)
    ensures Inv(p, s) && Serial(s)
  {
  }

  lemma SentIsLogged(t: System)
    requires Serial(t)
    ensures t.sent <= t.logged && Ascending(t.logged)
  {
    assert forall i :: 0 <= i < |t.logged| ==> (t.logged + t.taken)[i] == t.logged[i];
  }

  /** What a serial run has delivered once the replay has drained without loss, in terms of the log alone. */
  predicate Spliced(pattern: string, logged: seq<Change>, st: Start, at: nat, floor: nat, got: seq<Change>) {
    && st.mark < st.snap <= |logged| && st.from <= st.snap && st.from <= at <= |logged| && Ascending(logged)
    && floor == Floor(Filter(Wanted(pattern), logged[st.mark + 1..st.snap]), logged[st.mark])
    && got == Filter(Wanted(pattern), logged[st.mark + 1..st.snap]) + Filter(Passes(floor, pattern), logged[st.from..at])
  }

  predicate SerialLive(p: Setup, t: System) {
    && Anchored(p, t) && t.sent <= t.logged
    && Spliced(p.pattern, t.logged, t.phase.start, t.at, t.phase.floor, D.Changes(t.out))
  }

  lemma SerialIsLive(p: Setup, t: System)
    requires Inv(p, t) && Serial(t) && t.phase.Resumed? && !t.phase.state.Replaying? && !D.Interrupted(t.out)
    ensures SerialLive(p, t)
  {
    SentIsLogged(t);
    SameSlice(t.sent, t.logged, t.phase.start.from, t.at);
    assert |t.sent| <= |t.logged| && t.phase.start.from <= t.phase.start.snap;
    hide Filter, D.Changes, D.Interrupted, Ascending, Floor, Passes, Wanted, Last, Serial;
  }

  lemma SameSlice(a: seq<Change>, b: seq<Change>, i: nat, j: nat)
    requires a <= b && i <= j <= |a|
    ensures a[i..j] == b[i..j]
  {
  }

  lemma SerialFacts(p: Setup, s: System, steps: seq<Step>, t: System)
    requires Init(s) && Runs(p, s, steps, t) && SerialRun(p, s, steps)
    requires t.phase.Resumed? && !t.phase.state.Replaying? && !D.Interrupted(t.out)
    ensures SerialLive(p, t)
  {
    hide *;
    InitSerial(p, s);
    RunKeepsInv(p, s, steps, t);
    SerialRunKeeps(p, s, steps, t);
    SerialIsLive(p, t);
  }

  lemma SplicedChains(pattern: string, logged: seq<Change>, st: Start, at: nat, floor: nat, got: seq<Change>)
    requires Spliced(pattern, logged, st, at, floor, got)
    ensures st.mark < st.snap <= End(st.snap, at) <= |logged|
    ensures Filter(IsChain(), got) == Filter(IsChain(), Filter(Wanted(pattern), logged[st.mark + 1..End(st.snap, at)]))
  {
    hide Filter, Wanted, Passes, Floor, Ascending, IsChain, End;
    SpliceOfLog(pattern, logged, st.mark, st.snap, st.from, at, Filter(Wanted(pattern), logged[st.mark + 1..st.snap]));
  }

  lemma SerialSplice(p: Setup, t: System)
    requires SerialLive(p, t)
    ensures Anchored(p, t) && t.sent <= t.logged && End(t.phase.start.snap, t.at) <= |t.logged|
    ensures var st := t.phase.start;
      Filter(IsChain(), D.Changes(t.out))
      == Filter(IsChain(), Filter(Wanted(p.pattern), t.logged[st.mark + 1..End(st.snap, t.at)]))
  {
    hide Filter, Wanted, Passes, Floor, Ascending, IsChain, End, Spliced, D.Changes;
    SplicedChains(p.pattern, t.logged, t.phase.start, t.at, t.phase.floor, D.Changes(t.out));
  }

  /** Every chain event pushed after the marker and read so far was delivered exactly once, in push order,
      and nothing else of the chains was. */
  lemma SerialResumeIsExactlyOnce(p: Setup, s: System, steps: seq<Step>, t: System)
    requires Init(s) && Runs(p, s, steps, t) && SerialRun(p, s, steps)
    requires t.phase.Resumed? && !t.phase.state.Replaying? && !D.Interrupted(t.out)
    ensures Anchored(p, t) && t.sent <= t.logged && End(t.phase.start.snap, t.at) <= |t.logged|
    ensures var st := t.phase.start;
      Filter(IsChain(), D.Changes(t.out))
      == Filter(IsChain(), Filter(Wanted(p.pattern), t.logged[st.mark + 1..End(st.snap, t.at)]))
  {
    hide *;
    SerialFacts(p, s, steps, t);
    SerialSplice(p, t);
  }

  lemma InSlice(s: seq<Change>, i: nat, j: nat, k: nat)
    requires i <= j < k <= |s|
    ensures s[j] in s[i..k]
  {
    assert s[i..k][j - i] == s[j];
  }

  lemma SignalDelivered(pattern: string, logged: seq<Change>, st: Start, at: nat, floor: nat, got: seq<Change>, i: nat)
    requires Spliced(pattern, logged, st, at, floor, got) && st.mark < i < End(st.snap, at) && i < |logged|
    requires logged[i].Ping? && Matches(pattern, logged[i].World())
    ensures logged[i] in got
  {
    var replay, passed := logged[st.mark + 1..st.snap], logged[st.from..at];
    assert Wanted(pattern)(logged[i]) && Passes(floor, pattern)(logged[i]);
    FilterMembers(Wanted(pattern), replay);
    FilterMembers(Passes(floor, pattern), passed);
    hide Filter, Floor, Ascending, Matches, LiveAction, Wanted, Passes;
    if i < st.snap { InSlice(logged, st.mark + 1, i, st.snap); } else { InSlice(logged, st.from, i, at); }
  }

  /** Signals without a durable identity arrive at least once. */
  lemma SerialResumeKeepsSignals(p: Setup, s: System, steps: seq<Step>, t: System, i: nat)
    requires Init(s) && Runs(p, s, steps, t) && SerialRun(p, s, steps)
    requires t.phase.Resumed? && !t.phase.state.Replaying? && !D.Interrupted(t.out)
    requires t.phase.start.mark < i < End(t.phase.start.snap, t.at) && i < |t.logged|
    requires t.logged[i].Ping? && Matches(p.pattern, t.logged[i].World())
    ensures t.logged[i] in D.Changes(t.out)
  {
    hide Runs, SerialRun, Init, Apply, Enabled, Spliced, Anchored, End, D.Changes, D.Interrupted, Matches;
    SerialFacts(p, s, steps, t);
    SignalDelivered(p.pattern, t.logged, t.phase.start, t.at, t.phase.floor, D.Changes(t.out), i);
  }
}
