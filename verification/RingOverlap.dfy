/** Resuming from the ring while notifications overlap: what each event's id decides, in every run. */
module RingOverlap {
  import Slices
  import opened Framing
  import opened EventId
  import opened Subscription
  import opened RingResume
  import D = DurableSplice

  // ---- Every notification is logged once and sent once ----

  /** Everything that has an id. */
  function Numbered(s: System): multiset<Change> { multiset(s.logged) + multiset(s.taken) }

  /** Ids are drawn once, in the ring's log each event is there once, and what was sent or waits to be
      sent is what was logged. */
  ghost predicate Tracked(s: System) {
    && (forall c :: c in Numbered(s) ==> Numbered(s)[c] == 1 && c.delivery <= s.next)
    && multiset(s.sent) + multiset(s.unsent) == multiset(s.logged)
    && s.at <= |s.sent|
    && (s.phase.ReceiverOpen? ==> s.phase.from <= |s.sent|)
    && (s.phase.Resumed? ==> CoversSent(s))
  }

  /** What was sent before the receiver opened had been logged by the time of the snapshot. */
  predicate CoversSent(s: System)
    requires s.phase.Resumed?
  {
    && s.phase.start.from <= |s.sent| && s.phase.start.snap <= |s.logged|
    && forall c :: c in s.sent[..s.phase.start.from] ==> c in s.logged[..s.phase.start.snap]
  }

  lemma RemoveTakesOne(s: seq<Change>, i: nat)
    requires i < |s|
    ensures multiset(Remove(s, i)) + multiset{s[i]} == multiset(s)
  {
    assert s == s[..i] + [s[i]] + s[i + 1..];
  }

  lemma SnocAdds(s: seq<Change>, c: Change)
    ensures multiset(s + [c]) == multiset(s) + multiset{c}
  {
  }

  lemma TakeIdKeepsTracked(p: Setup, s: System, c: Change)
    requires Tracked(s) && Enabled(s, TakeId(c))
    ensures Tracked(Apply(p, s, TakeId(c)))
  {
    var t := Apply(p, s, TakeId(c));
    SnocAdds(s.taken, c);
    assert c !in Numbered(s);
    assert Numbered(t) == Numbered(s) + multiset{c};
  }

  lemma PushKeepsTracked(p: Setup, s: System, i: nat)
    requires Tracked(s) && Enabled(s, Push(i))
    ensures Tracked(Apply(p, s, Push(i)))
  {
    var t := Apply(p, s, Push(i));
    RemoveTakesOne(s.taken, i);
    SnocAdds(s.logged, s.taken[i]);
    SnocAdds(s.unsent, s.taken[i]);
    hide Remove, Last, CoversSent;
    assert Numbered(t) == Numbered(s);
    if s.phase.Resumed? { SamePast(s, t); }
  }

  lemma SendKeepsTracked(p: Setup, s: System, i: nat)
    requires Tracked(s) && Enabled(s, Send(i))
    ensures Tracked(Apply(p, s, Send(i)))
  {
    var t := Apply(p, s, Send(i));
    RemoveTakesOne(s.unsent, i);
    SnocAdds(s.sent, s.unsent[i]);
    hide Remove, CoversSent;
    assert Numbered(t) == Numbered(s);
    if s.phase.Resumed? { SamePast(s, t); }
  }

  lemma NotifierKeepsTracked(p: Setup, s: System, step: Step)
    requires Tracked(s) && Enabled(s, step) && NotifierStep(step)
    ensures Tracked(Apply(p, s, step))
  {
    hide Apply, Tracked;
    match step
    case TakeId(c) => TakeIdKeepsTracked(p, s, c);
    case Push(i) => PushKeepsTracked(p, s, i);
    case Send(i) => SendKeepsTracked(p, s, i);
  }

  lemma SamePast(s: System, t: System)
    requires s.phase.Resumed? && CoversSent(s) && t.phase == s.phase && s.sent <= t.sent && s.logged <= t.logged
    ensures CoversSent(t)
  {
    assert t.sent[..s.phase.start.from] == s.sent[..s.phase.start.from];
    assert t.logged[..s.phase.start.snap] == s.logged[..s.phase.start.snap];
  }

  lemma SentWasLogged(s: System, c: Change)
    requires multiset(s.sent) + multiset(s.unsent) == multiset(s.logged) && c in s.sent
    ensures c in s.logged
  {
    assert c in multiset(s.sent);
    assert c in multiset(s.logged);
  }

  lemma SubscriberKeepsTracked(p: Setup, s: System, step: Step)
    requires Tracked(s) && Enabled(s, step) && !NotifierStep(step)
    ensures Tracked(Apply(p, s, step))
  {
    var t := Apply(p, s, step);
    SubscriberEffect(p, s, step);
    hide Apply;
    assert Numbered(t) == Numbered(s);
    if step.Snapshot? && t.phase.Resumed? {
      assert s.logged[..|s.logged|] == s.logged;
      forall c | c in s.sent[..t.phase.start.from] ensures c in s.logged { SentWasLogged(s, c); }
    }
  }

  lemma SubscriberEffect(p: Setup, s: System, step: Step)
    requires Enabled(s, step) && !NotifierStep(step) && s.at <= |s.sent|
    ensures var t := Apply(p, s, step);
      && t.next == s.next && t.taken == s.taken && t.unsent == s.unsent && t.logged == s.logged && t.sent == s.sent
      && t.at <= |t.sent|
      && (t.phase.ReceiverOpen? ==> t.phase.from <= |t.sent|)
      && (t.phase.Resumed? ==> (if step.Snapshot? then s.phase.ReceiverOpen? && t.phase.start.from == s.phase.from && t.phase.start.snap == |s.logged|
                                else s.phase.Resumed? && t.phase.start == s.phase.start))
  {
    hide Filter, LiveAction, Matches, Position, Floor, AsItems, InitialState, Answer, Silent;
  }

  lemma {:induction false} RunKeepsTracked(p: Setup, s: System, steps: seq<Step>, t: System)
    requires Tracked(s) && Runs(p, s, steps, t)
    ensures Tracked(t)
    decreases |steps|
  {
    if steps != [] {
      if NotifierStep(steps[0]) { NotifierKeepsTracked(p, s, steps[0]); } else { SubscriberKeepsTracked(p, s, steps[0]); }
      RunKeepsTracked(p, Apply(p, s, steps[0]), steps[1..], t);
    }
  }

  // ---- How often an event is delivered ----

  lemma {:induction false} FilterCounts(keep: Change -> bool, s: seq<Change>, c: Change)
    ensures multiset(Filter(keep, s))[c] == if keep(c) then multiset(s)[c] else 0
  {
    if s != [] {
      FilterCounts(keep, s[1..], c);
      assert s == [s[0]] + s[1..];
    }
  }

  lemma SliceCounts(s: seq<Change>, i: nat, k: nat, j: nat)
    requires i <= k <= |s| && j < |s| && multiset(s)[s[j]] == 1
    ensures multiset(s[i..k])[s[j]] == if i <= j < k then 1 else 0
  {
    assert s == s[..i] + s[i..k] + s[k..];
    assert multiset(s) == multiset(s[..i]) + multiset(s[i..k]) + multiset(s[k..]);
    if j < i { assert s[..i][j] == s[j]; } else if j < k { assert s[i..k][j - i] == s[j]; } else { assert s[k..][j - k] == s[j]; }
  }

  lemma SliceCountsAtMostOnce(s: seq<Change>, i: nat, k: nat, c: Change)
    requires i <= k <= |s| && multiset(s)[c] <= 1
    ensures multiset(s[i..k])[c] == if c in s[i..k] then 1 else 0
  {
    assert s == s[..i] + s[i..k] + s[k..];
    assert multiset(s) == multiset(s[..i]) + multiset(s[i..k]) + multiset(s[k..]);
    assert c in s[i..k] <==> c in multiset(s[i..k]);
  }

  lemma FilteredSliceCounts(keep: Change -> bool, s: seq<Change>, i: nat, k: nat, j: nat)
    requires i <= k <= |s| && j < |s| && multiset(s)[s[j]] == 1 && keep(s[j])
    ensures multiset(Filter(keep, s[i..k]))[s[j]] == if i <= j < k then 1 else 0
  {
    SliceCounts(s, i, k, j);
    FilterCounts(keep, s[i..k], s[j]);
  }

  lemma WantedSliceCounts(pattern: string, logged: seq<Change>, i: nat, k: nat, j: nat, replay: seq<Change>)
    requires i <= k <= |logged| && j < |logged| && multiset(logged)[logged[j]] == 1 && Matches(pattern, logged[j].World())
    requires replay == Filter(Wanted(pattern), logged[i..k])
    ensures multiset(replay)[logged[j]] == if i <= j < k then 1 else 0
  {
    hide Filter, Matches;
    FilteredSliceCounts(Wanted(pattern), logged, i, k, j);
  }

  lemma PassedCount(p: Setup, t: System, c: Change)
    requires Anchored(p, t) && multiset(t.sent)[c] <= 1 && c.ChainEvent? && Matches(p.pattern, c.World())
    ensures multiset(Passed(p, t))[c] == if c in t.sent[t.phase.start.from..t.at] && c.delivery > t.phase.floor then 1 else 0
  {
    hide Filter, Matches;
    assert Passes(t.phase.floor, p.pattern)(c) <==> c.delivery > t.phase.floor;
    assert Passed(p, t) == Filter(Passes(t.phase.floor, p.pattern), t.sent[t.phase.start.from..t.at]);
    assert t.phase.start.from <= t.at <= |t.sent|;
    hide *;
    SliceCountsAtMostOnce(t.sent, t.phase.start.from, t.at, c);
    FilterCounts(Passes(t.phase.floor, p.pattern), t.sent[t.phase.start.from..t.at], c);
  }

  lemma ConcatCounts(a: seq<Change>, b: seq<Change>, c: Change)
    ensures multiset(a + b)[c] == multiset(a)[c] + multiset(b)[c]
  {
  }

  /** Delivered as the replay, and once more if the fence passes it live. */
  lemma DeliveryCount(p: Setup, t: System, j: nat)
    requires Inv(p, t) && Tracked(t) && t.phase.Resumed? && t.phase.state.Live? && !D.Interrupted(t.out)
    requires j < |t.logged| && t.logged[j].ChainEvent? && Matches(p.pattern, t.logged[j].World())
    ensures var st, c := t.phase.start, t.logged[j];
      && st.mark < st.snap && st.from <= t.at <= |t.sent|
      && multiset(D.Changes(t.out))[c] == (if st.mark < j < st.snap then 1 else 0)
                                          + (if c in t.sent[st.from..t.at] && c.delivery > t.phase.floor then 1 else 0)
  {
    LiveParts(p, t);
    LoggedOnce(t, t.logged[j]);
    hide *;
    CountFromParts(p, t, j);
  }

  lemma LiveParts(p: Setup, t: System)
    requires Inv(p, t) && t.phase.Resumed? && t.phase.state.Live? && !D.Interrupted(t.out)
    ensures Anchored(p, t) && D.Changes(t.out) == Replayed(p, t) + Passed(p, t)
    ensures t.phase.start.mark < t.phase.start.snap <= |t.logged| && t.phase.start.from <= t.at <= |t.sent|
    ensures Replayed(p, t) == Filter(Wanted(p.pattern), t.logged[t.phase.start.mark + 1..t.phase.start.snap])
  {
    hide Filter, Matches, D.Changes, D.Interrupted, Last, Floor, Wanted, Passes;
  }

  lemma CountFromParts(p: Setup, t: System, j: nat)
    requires t.phase.Resumed? && Anchored(p, t) && D.Changes(t.out) == Replayed(p, t) + Passed(p, t)
    requires t.phase.start.mark < t.phase.start.snap <= |t.logged| && t.phase.start.from <= t.at <= |t.sent|
    requires Replayed(p, t) == Filter(Wanted(p.pattern), t.logged[t.phase.start.mark + 1..t.phase.start.snap])
    requires j < |t.logged| && t.logged[j].ChainEvent? && Matches(p.pattern, t.logged[j].World())
    requires multiset(t.logged)[t.logged[j]] == 1 && multiset(t.sent)[t.logged[j]] <= 1
    ensures var st, c := t.phase.start, t.logged[j];
      multiset(D.Changes(t.out))[c] == (if st.mark < j < st.snap then 1 else 0)
                                       + (if c in t.sent[st.from..t.at] && c.delivery > t.phase.floor then 1 else 0)
  {
    hide *;
    var replay, passed := Replayed(p, t), Passed(p, t);
    WantedSliceCounts(p.pattern, t.logged, t.phase.start.mark + 1, t.phase.start.snap, j, replay);
    PassedCount(p, t, t.logged[j]);
    ConcatCounts(replay, passed, t.logged[j]);
  }

  lemma LoggedOnce(t: System, c: Change)
    requires Tracked(t) && c in t.logged
    ensures multiset(t.logged)[c] == 1 && multiset(t.sent)[c] <= 1
  {
    assert c in multiset(t.logged) && c in Numbered(t);
    assert multiset(t.sent)[c] <= multiset(t.logged)[c];
  }

  /** What a client resuming after the marker is owed of the event at position `j` of the log. */
  function Owed(t: System, j: nat): nat
    requires t.phase.Resumed?
  {
    if j > t.phase.start.mark then 1 else 0
  }

  /** The fence separates this event from the snapshot as it should: pushed later, its id is above the
      floor; pushed before and still to be read at the opening, its id is not. */
  predicate Separated(t: System, j: nat)
    requires t.phase.Resumed? && j < |t.logged| && t.phase.start.from <= t.at <= |t.sent|
  {
    var st, c := t.phase.start, t.logged[j];
    && (j >= st.snap ==> c.delivery > t.phase.floor)
    && (j < st.snap && c in t.sent[st.from..t.at] ==> c.delivery <= t.phase.floor)
  }

  /** In every run, overlapping or not, a wanted chain event that has been read was delivered exactly as
      often as it is owed, once after the marker and never before it, exactly when the fence separates
      it. */
  lemma DeliveredAsOwedIff(p: Setup, s: System, steps: seq<Step>, t: System, j: nat)
    requires Init(s) && Runs(p, s, steps, t)
    requires t.phase.Resumed? && t.phase.state.Live? && !D.Interrupted(t.out)
    requires j < |t.logged| && t.logged[j].ChainEvent? && Matches(p.pattern, t.logged[j].World())
    requires t.at <= |t.sent| && (t.phase.start.snap <= j ==> t.logged[j] in t.sent[..t.at])
    ensures t.phase.start.from <= t.at
    ensures multiset(D.Changes(t.out))[t.logged[j]] == Owed(t, j) <==> Separated(t, j)
  {
    InitTracked(p, s);
    RunKeepsInv(p, s, steps, t);
    RunKeepsTracked(p, s, steps, t);
    hide Runs, Init;
    DeliveryCount(p, t, j);
    if t.phase.start.snap <= j { LateWasReadLive(p, t, j); }
  }

  lemma InitTracked(p: Setup, s: System)
    requires Init(s)
    ensures Inv(p, s) && Tracked(s)
  {
  }

  lemma LateWasReadLive(p: Setup, t: System, j: nat)
    requires Tracked(t) && t.phase.Resumed? && t.phase.start.snap <= j < |t.logged|
    requires t.phase.start.from <= t.at && t.logged[j] in t.sent[..t.at]
    ensures t.logged[j] in t.sent[t.phase.start.from..t.at]
  {
    var st, c := t.phase.start, t.logged[j];
    LoggedOnce(t, c);
    SliceCounts(t.logged, 0, st.snap, j);
    assert c !in multiset(t.logged[0..st.snap]);
    assert t.logged[0..st.snap] == t.logged[..st.snap] && c !in t.logged[..st.snap];
    assert t.sent[..t.at] == t.sent[..st.from] + t.sent[st.from..t.at];
  }

  // ---- What the snapshot can know ----

  predicate Concerns(p: Setup, c: Change) { c.ChainEvent? && Matches(p.pattern, c.World()) }

  /** Nothing under way is on the wrong side of the floor: ids drawn but not pushed by the snapshot are
      above it, and what was pushed by then and not sent before the receiver opened is not. */
  predicate Clean(p: Setup, s: System)
    requires s.phase.Resumed? && CoversSent(s)
  {
    var st, floor := s.phase.start, s.phase.floor;
    && floor <= s.next
    && (forall c :: c in s.taken && Concerns(p, c) ==> c.delivery > floor)
    && (forall j :: st.snap <= j < |s.logged| && Concerns(p, s.logged[j]) ==> s.logged[j].delivery > floor)
    && (forall j :: 0 <= j < st.snap && Concerns(p, s.logged[j]) && Outstanding(s, s.logged[j]) ==> s.logged[j].delivery <= floor)
  }

  /** Sent since the receiver opened, or still to be sent. */
  predicate Outstanding(s: System, c: Change)
    requires s.phase.Resumed? && s.phase.start.from <= |s.sent|
  {
    c in s.unsent || c in s.sent[s.phase.start.from..]
  }

  /** `Separated`, whether or not the event has been read yet. */
  predicate WillSeparate(t: System, j: nat)
    requires t.phase.Resumed? && j < |t.logged| && t.phase.start.from <= |t.sent|
  {
    var st, c := t.phase.start, t.logged[j];
    && (j >= st.snap ==> c.delivery > t.phase.floor)
    && (j < st.snap && c in t.sent[st.from..] ==> c.delivery <= t.phase.floor)
  }

  lemma WillSeparateSeparates(t: System, j: nat)
    requires t.phase.Resumed? && j < |t.logged| && t.phase.start.from <= t.at <= |t.sent| && WillSeparate(t, j)
    ensures Separated(t, j)
  {
    assert t.sent[t.phase.start.from..] == t.sent[t.phase.start.from..t.at] + t.sent[t.at..];
  }

  lemma TakenIsNotLogged(s: System, c: Change)
    requires Tracked(s) && c in s.taken
    ensures c !in s.logged
  {
    assert c in multiset(s.taken) && Numbered(s)[c] == 1;
    assert c !in multiset(s.logged);
  }

  lemma PushKeepsClean(p: Setup, s: System, i: nat)
    requires Tracked(s) && s.phase.Resumed? && Clean(p, s) && Enabled(s, Push(i))
    ensures CoversSent(Apply(p, s, Push(i))) && Clean(p, Apply(p, s, Push(i)))
  {
    var t, c, st := Apply(p, s, Push(i)), s.taken[i], s.phase.start;
    SamePast(s, t);
    TakenIsNotLogged(s, c);
    RemoveKeepsOthers(s.taken, i, "");
    assert CoversSent(s);
    hide Tracked, Last, Remove, Concerns, CoversSent;
    forall j | 0 <= j < st.snap && Concerns(p, t.logged[j]) && Outstanding(t, t.logged[j]) ensures t.logged[j].delivery <= s.phase.floor {
      assert t.logged[j] == s.logged[j] && s.logged[j] != c;
      assert Outstanding(s, s.logged[j]);
    }
  }

  lemma SendKeepsClean(p: Setup, s: System, i: nat)
    requires s.phase.Resumed? && CoversSent(s) && Clean(p, s) && Enabled(s, Send(i))
    ensures CoversSent(Apply(p, s, Send(i))) && Clean(p, Apply(p, s, Send(i)))
  {
    var t, st := Apply(p, s, Send(i)), s.phase.start;
    SamePast(s, t);
    assert t.sent[st.from..] == s.sent[st.from..] + [s.unsent[i]];
    forall c | Outstanding(t, c) ensures Outstanding(s, c) { RemoveTakesOne(s.unsent, i); }
    hide Remove, Concerns, Outstanding;
  }

  lemma TakeIdKeepsClean(p: Setup, s: System, c: Change)
    requires s.phase.Resumed? && CoversSent(s) && Clean(p, s) && Enabled(s, TakeId(c))
    ensures CoversSent(Apply(p, s, TakeId(c))) && Clean(p, Apply(p, s, TakeId(c)))
  {
    hide Concerns;
  }

  lemma StepKeepsClean(p: Setup, s: System, step: Step)
    requires Tracked(s) && s.phase.Resumed? && Clean(p, s) && Enabled(s, step)
    ensures var t := Apply(p, s, step);
      Tracked(t) && t.phase.Resumed? && t.phase.start == s.phase.start && t.phase.floor == s.phase.floor && Clean(p, t)
  {
    assert CoversSent(s);
    if NotifierStep(step) {
      NotifierKeepsTracked(p, s, step);
      hide Clean, Tracked, CoversSent;
      match step
      case TakeId(c) => TakeIdKeepsClean(p, s, c);
      case Push(i) => PushKeepsClean(p, s, i);
      case Send(i) => SendKeepsClean(p, s, i);
    } else {
      SubscriberKeepsTracked(p, s, step);
      ResumedEffect(p, s, step);
      hide Apply, Tracked;
    }
  }

  lemma ResumedEffect(p: Setup, s: System, step: Step)
    requires s.phase.Resumed? && Enabled(s, step) && !NotifierStep(step)
    ensures var t := Apply(p, s, step);
      && t.next == s.next && t.taken == s.taken && t.unsent == s.unsent && t.logged == s.logged && t.sent == s.sent
      && t.phase.Resumed? && t.phase.start == s.phase.start && t.phase.floor == s.phase.floor
  {
    hide LiveAction, Answer, Silent, Matches;
  }

  lemma {:induction false} RunKeepsClean(p: Setup, s: System, steps: seq<Step>, t: System)
    requires Tracked(s) && s.phase.Resumed? && Clean(p, s) && Runs(p, s, steps, t)
    ensures Tracked(t) && t.phase.Resumed? && t.phase.start == s.phase.start && t.phase.floor == s.phase.floor && Clean(p, t)
    decreases |steps|
  {
    if steps != [] {
      StepKeepsClean(p, s, steps[0]);
      RunKeepsClean(p, Apply(p, s, steps[0]), steps[1..], t);
    }
  }

  ghost predicate AlwaysSeparates(p: Setup, s: System) {
    forall rest, t, j :: Runs(p, s, rest, t) && 0 <= j < |t.logged| && Concerns(p, t.logged[j]) ==>
      t.phase.Resumed? && t.phase.start.from <= |t.sent| && WillSeparate(t, j)
  }

  lemma LoggedHaveDrawnIds(s: System)
    requires Tracked(s)
    ensures forall i :: 0 <= i < |s.logged| ==> s.logged[i].delivery <= s.next
  {
    forall i | 0 <= i < |s.logged| ensures s.logged[i].delivery <= s.next {
      assert s.logged[i] in multiset(s.logged) && s.logged[i] in Numbered(s);
    }
  }

  lemma FloorIsSomeId(pattern: string, logged: seq<Change>, mark: nat, snap: nat, bound: nat)
    requires mark < snap <= |logged| && forall i :: 0 <= i < |logged| ==> logged[i].delivery <= bound
    ensures Floor(Filter(Wanted(pattern), logged[mark + 1..snap]), logged[mark]) <= bound
  {
    hide *;
    var at := FloorIndex(pattern, logged, mark, snap);
  }

  lemma FloorOfLog(p: Setup, s: System)
    requires Inv(p, s) && s.phase.Resumed?
    ensures var st := s.phase.start;
      && st.mark < st.snap <= |s.logged|
      && s.phase.floor == Floor(Filter(Wanted(p.pattern), s.logged[st.mark + 1..st.snap]), s.logged[st.mark])
  {
    hide Filter, Wanted, Floor, Last, D.Changes, D.Interrupted, Passed;
  }

  lemma FloorWasDrawn(p: Setup, s: System)
    requires Inv(p, s) && Tracked(s) && s.phase.Resumed?
    ensures s.phase.floor <= s.next
  {
    hide *;
    FloorOfLog(p, s);
    LoggedHaveDrawnIds(s);
    FloorIsSomeId(p.pattern, s.logged, s.phase.start.mark, s.phase.start.snap, s.next);
  }

  lemma WrongTaken(p: Setup, s: System, i: nat)
    requires Tracked(s) && s.phase.Resumed? && i < |s.taken| && Concerns(p, s.taken[i]) && s.taken[i].delivery <= s.phase.floor
    ensures !AlwaysSeparates(p, s)
  {
    var t := Apply(p, s, Push(i));
    assert Runs(p, t, [], t);
    Prepend(p, s, Push(i), [], t);
    assert t.logged[|s.logged|] == s.taken[i] && Concerns(p, t.logged[|s.logged|]);
    assert !WillSeparate(t, |s.logged|);
  }

  lemma WrongOutstanding(p: Setup, s: System, j: nat)
    requires Tracked(s) && s.phase.Resumed? && j < s.phase.start.snap && Concerns(p, s.logged[j])
    requires Outstanding(s, s.logged[j]) && s.logged[j].delivery > s.phase.floor
    ensures !AlwaysSeparates(p, s)
  {
    var from := s.phase.start.from;
    if s.logged[j] in s.sent[from..] {
      assert Runs(p, s, [], s);
      assert !WillSeparate(s, j);
    } else {
      var i :| 0 <= i < |s.unsent| && s.unsent[i] == s.logged[j];
      var t := Apply(p, s, Send(i));
      assert Runs(p, t, [], t);
      Prepend(p, s, Send(i), [], t);
      assert t.sent[from..] == s.sent[from..] + [s.unsent[i]];
      assert t.sent[from..][|s.sent| - from] == s.unsent[i];
      assert t.logged[j] == s.logged[j] && Concerns(p, t.logged[j]);
      assert !WillSeparate(t, j);
    }
  }

  /** Right after the snapshot, what is under way decides everything: the resume separates every event
      of every continuation exactly when the snapshot was clean. */
  lemma CleanIffAlwaysSeparates(p: Setup, s: System, steps: seq<Step>, snapped: System)
    requires Init(s) && Runs(p, s, steps, snapped) && snapped.phase.Resumed? && snapped.phase.start.snap == |snapped.logged|
    ensures CoversSent(snapped)
    ensures Clean(p, snapped) <==> AlwaysSeparates(p, snapped)
  {
    InitTracked(p, s);
    RunKeepsInv(p, s, steps, snapped);
    RunKeepsTracked(p, s, steps, snapped);
    FloorWasDrawn(p, snapped);
    assert CoversSent(snapped);
    hide Init, Inv, Tracked, Clean, AlwaysSeparates;
    if Clean(p, snapped) { CleanSeparates(p, snapped); } else { NotCleanFails(p, snapped); }
  }

  lemma CleanSeparates(p: Setup, s: System)
    requires Tracked(s) && s.phase.Resumed? && Clean(p, s)
    ensures AlwaysSeparates(p, s)
  {
    hide Runs, Concerns;
    forall rest, t, j | Runs(p, s, rest, t) && 0 <= j < |t.logged| && Concerns(p, t.logged[j])
      ensures t.phase.Resumed? && t.phase.start.from <= |t.sent| && WillSeparate(t, j)
    {
      RunKeepsClean(p, s, rest, t);
    }
  }

  lemma NotCleanFails(p: Setup, s: System)
    requires Tracked(s) && s.phase.Resumed? && s.phase.start.snap == |s.logged| && !Clean(p, s) && s.phase.floor <= s.next
    ensures !AlwaysSeparates(p, s)
  {
    assert CoversSent(s);
    hide AlwaysSeparates, Tracked, Concerns, Outstanding;
    if c :| c in s.taken && Concerns(p, c) && c.delivery <= s.phase.floor {
      var i :| 0 <= i < |s.taken| && s.taken[i] == c;
      WrongTaken(p, s, i);
    } else {
      var j :| 0 <= j < s.phase.start.snap && Concerns(p, s.logged[j]) && Outstanding(s, s.logged[j]) && s.logged[j].delivery > s.phase.floor;
      WrongOutstanding(p, s, j);
    }
  }

  lemma Prepend(p: Setup, s: System, step: Step, steps: seq<Step>, t: System)
    requires Enabled(s, step) && Runs(p, Apply(p, s, step), steps, t)
    ensures Runs(p, s, [step] + steps, t)
  {
    assert ([step] + steps)[1..] == steps;
  }

  lemma {:induction false} RunsConcat(p: Setup, s: System, a: seq<Step>, mid: System, b: seq<Step>, t: System)
    requires Runs(p, s, a, mid) && Runs(p, mid, b, t)
    ensures Runs(p, s, a + b, t)
    decreases |a|
  {
    hide Apply, Enabled;
    if a == [] {
      Slices.Empty(b);
    } else {
      Slices.TailOfConcat(a, b);
      RunsConcat(p, Apply(p, s, a[0]), a[1..], mid, b, t);
      RunsCons(p, s, a + b, t);
    }
  }

  lemma RunsCons(p: Setup, s: System, steps: seq<Step>, t: System)
    requires steps != [] && Enabled(s, steps[0]) && Runs(p, Apply(p, s, steps[0]), steps[1..], t)
    ensures Runs(p, s, steps, t)
  {
    hide Apply, Enabled;
  }

  /** A resume from a clean snapshot is exactly-once, however the notifications around it overlap. */
  lemma CleanResumeIsExactlyOnce(p: Setup, s: System, steps: seq<Step>, snapped: System, rest: seq<Step>, t: System, j: nat)
    requires Init(s) && Runs(p, s, steps, snapped) && snapped.phase.Resumed? && CoversSent(snapped) && Clean(p, snapped)
    requires Runs(p, snapped, rest, t) && t.phase.Resumed? && t.phase.state.Live? && !D.Interrupted(t.out)
    requires j < |t.logged| && Concerns(p, t.logged[j])
    requires t.at <= |t.sent| && (t.phase.start.snap <= j ==> t.logged[j] in t.sent[..t.at])
    ensures multiset(D.Changes(t.out))[t.logged[j]] == Owed(t, j)
  {
    InitTracked(p, s);
    RunKeepsTracked(p, s, steps, snapped);
    RunKeepsClean(p, snapped, rest, t);
    RunsConcat(p, s, steps, snapped, rest, t);
    hide Runs, Init, D.Changes, D.Interrupted;
    DeliveredAsOwedIff(p, s, steps + rest, t, j);
    WillSeparateSeparates(t, j);
  }

  // ---- Order within one world ----

  /** A run in which, as the world lock demands, a world's next notification starts only when its last one
      has been sent; notifications of different worlds overlap freely. */
  predicate WorldSerialRun(p: Setup, s: System, steps: seq<Step>)
    decreases |steps|
  {
    steps == [] || (
      && Enabled(s, steps[0])
      && (steps[0].TakeId? ==> NonePending(s, steps[0].change.World()))
      && WorldSerialRun(p, Apply(p, s, steps[0]), steps[1..]))
  }

  predicate NonePending(s: System, w: string) {
    && (forall c :: c in s.taken ==> c.World() != w)
    && (forall c :: c in s.unsent ==> c.World() != w)
  }

  predicate Ascends(q: seq<Change>, w: string) {
    forall i, j :: 0 <= i < j < |q| && q[i].World() == w && q[j].World() == w ==> q[i].delivery < q[j].delivery
  }

  predicate Below(q: seq<Change>, w: string, c: Change) {
    forall i :: 0 <= i < |q| && q[i].World() == w ==> q[i].delivery < c.delivery
  }

  /** The world's events are logged and sent in id order, and the one under way comes next in both. */
  predicate InOrder(s: System, w: string) {
    && Ascends(s.logged, w) && Ascends(s.sent, w)
    && (forall i :: 0 <= i < |s.taken| && s.taken[i].World() == w ==>
          Below(s.logged, w, s.taken[i]) && OnlyPending(s.taken, i, s.unsent, w))
    && (forall i :: 0 <= i < |s.unsent| && s.unsent[i].World() == w ==>
          Below(s.sent, w, s.unsent[i]) && OnlyPending(s.unsent, i, s.taken, w))
  }

  predicate OnlyPending(q: seq<Change>, i: nat, others: seq<Change>, w: string) {
    && (forall j :: 0 <= j < |q| && j != i ==> q[j].World() != w)
    && (forall c :: c in others ==> c.World() != w)
  }

  lemma AscendsSnoc(q: seq<Change>, w: string, c: Change)
    requires Ascends(q, w) && (c.World() == w ==> Below(q, w, c))
    ensures Ascends(q + [c], w)
  {
  }

  lemma RemoveKeepsOthers(q: seq<Change>, i: nat, w: string)
    requires i < |q|
    ensures forall c :: c in Remove(q, i) ==> c in q
    ensures (forall j :: 0 <= j < |q| && j != i ==> q[j].World() != w) ==> forall c :: c in Remove(q, i) ==> c.World() != w
  {
  }

  lemma NewIdIsAbove(s: System, c: Change, w: string)
    requires Tracked(s) && c.delivery == s.next + 1
    ensures Below(s.logged, w, c)
  {
    forall i | 0 <= i < |s.logged| ensures s.logged[i].delivery < c.delivery {
      assert s.logged[i] in multiset(s.logged) && s.logged[i] in Numbered(s);
    }
  }

  lemma OwnIdKeepsOrder(s: System, c: Change, w: string)
    requires InOrder(s, w) && NonePending(s, w) && c.World() == w && Below(s.logged, w, c)
    ensures InOrder(s.(next := s.next + 1, taken := s.taken + [c]), w)
  {
    hide Ascends, Below;
    assert forall i :: 0 <= i < |s.taken| ==> s.taken[i] in s.taken;
    assert forall i :: 0 <= i < |s.unsent| ==> s.unsent[i] in s.unsent;
  }

  lemma OtherIdKeepsOrder(s: System, c: Change, w: string)
    requires InOrder(s, w) && c.World() != w
    ensures InOrder(s.(next := s.next + 1, taken := s.taken + [c]), w)
  {
    hide Ascends, Below;
  }

  lemma TakeIdKeepsOrder(p: Setup, s: System, c: Change, w: string)
    requires Tracked(s) && InOrder(s, w) && Enabled(s, TakeId(c)) && NonePending(s, c.World())
    ensures InOrder(Apply(p, s, TakeId(c)), w)
  {
    NewIdIsAbove(s, c, w);
    if c.World() == w { OwnIdKeepsOrder(s, c, w); } else { OtherIdKeepsOrder(s, c, w); }
    hide Tracked, InOrder, NonePending;
  }

  lemma PushKeepsTakenOrder(p: Setup, s: System, k: nat, w: string)
    requires InOrder(s, w) && k < |s.taken|
    ensures var c := s.taken[k];
      forall i :: 0 <= i < |Remove(s.taken, k)| && Remove(s.taken, k)[i].World() == w ==>
        Below(s.logged + [c], w, Remove(s.taken, k)[i]) && OnlyPending(Remove(s.taken, k), i, s.unsent + [c], w)
  {
    hide Ascends;
    var rest := Remove(s.taken, k);
    forall i | 0 <= i < |rest| && rest[i].World() == w ensures Below(s.logged + [s.taken[k]], w, rest[i]) && OnlyPending(rest, i, s.unsent + [s.taken[k]], w) {
      StillOnlyPending(s.taken, k, i, s.unsent, w);
    }
  }

  lemma PushKeepsUnsentOrder(p: Setup, s: System, k: nat, w: string)
    requires Tracked(s) && InOrder(s, w) && k < |s.taken|
    ensures var q := s.unsent + [s.taken[k]];
      forall i :: 0 <= i < |q| && q[i].World() == w ==> Below(s.sent, w, q[i]) && OnlyPending(q, i, Remove(s.taken, k), w)
  {
    var c := s.taken[k];
    RemoveKeepsOthers(s.taken, k, w);
    assert c in s.taken;
    if c.World() == w { SentBelow(s, w, c); }
    hide Tracked, Ascends, Remove;
  }

  lemma PushKeepsOrder(p: Setup, s: System, k: nat, w: string)
    requires Tracked(s) && InOrder(s, w) && Enabled(s, Push(k))
    ensures InOrder(Apply(p, s, Push(k)), w)
  {
    AscendsSnoc(s.logged, w, s.taken[k]);
    PushKeepsTakenOrder(p, s, k, w);
    PushKeepsUnsentOrder(p, s, k, w);
    hide Tracked, Ascends, Last, Remove, Below, OnlyPending;
  }

  lemma SentBelow(s: System, w: string, c: Change)
    requires Tracked(s) && Below(s.logged, w, c)
    ensures Below(s.sent, w, c)
  {
    forall i | 0 <= i < |s.sent| && s.sent[i].World() == w ensures s.sent[i].delivery < c.delivery {
      SentWasLogged(s, s.sent[i]);
    }
  }

  lemma StillOnlyPending(q: seq<Change>, k: nat, i: nat, others: seq<Change>, w: string)
    requires k < |q| && i < |Remove(q, k)| && Remove(q, k)[i].World() == w
    requires forall j :: 0 <= j < |q| && q[j].World() == w ==> OnlyPending(q, j, others, w)
    ensures q[k].World() != w && OnlyPending(Remove(q, k), i, others, w)
    ensures var j := if i < k then i else i + 1; q[j] == Remove(q, k)[i]
  {
    var j := if i < k then i else i + 1;
    assert q[j] == Remove(q, k)[i] && OnlyPending(q, j, others, w);
  }

  lemma SendKeepsOrder(p: Setup, s: System, k: nat, w: string)
    requires InOrder(s, w) && Enabled(s, Send(k))
    ensures InOrder(Apply(p, s, Send(k)), w)
  {
    var t, c := Apply(p, s, Send(k)), s.unsent[k];
    AscendsSnoc(s.sent, w, c);
    RemoveKeepsOthers(s.unsent, k, w);
    hide Ascends;
    forall i | 0 <= i < |t.unsent| && t.unsent[i].World() == w ensures Below(t.sent, w, t.unsent[i]) && OnlyPending(t.unsent, i, t.taken, w) {
      assert t.unsent[i] in t.unsent;
      StillOnlyPending(s.unsent, k, i, s.taken, w);
    }
    forall i | 0 <= i < |t.taken| && t.taken[i].World() == w ensures Below(t.logged, w, t.taken[i]) && OnlyPending(t.taken, i, t.unsent, w) {
      assert OnlyPending(s.taken, i, s.unsent, w);
    }
  }

  lemma {:induction false} WorldSerialKeepsOrder(p: Setup, s: System, steps: seq<Step>, t: System, w: string)
    requires Tracked(s) && InOrder(s, w) && Runs(p, s, steps, t) && WorldSerialRun(p, s, steps)
    ensures InOrder(t, w)
    decreases |steps|
  {
    if steps != [] {
      var step := steps[0];
      if NotifierStep(step) {
        NotifierKeepsTracked(p, s, step);
        match step {
          case TakeId(c) => TakeIdKeepsOrder(p, s, c, w);
          case Push(k) => PushKeepsOrder(p, s, k, w);
          case Send(k) => SendKeepsOrder(p, s, k, w);
        }
      } else {
        SubscriberKeepsTracked(p, s, step);
        SubscriberEffect(p, s, step);
        assert InOrder(Apply(p, s, step), w);
      }
      hide Apply, Enabled, InOrder, Tracked;
      WorldSerialKeepsOrder(p, Apply(p, s, step), steps[1..], t, w);
    }
  }

  lemma {:induction false} FilterAscends(keep: Change -> bool, q: seq<Change>, w: string)
    requires Ascends(q, w)
    ensures Ascends(Filter(keep, q), w)
  {
    if q != [] {
      var rest := Filter(keep, q[1..]);
      FilterAscends(keep, q[1..], w);
      FilterMembers(keep, q[1..]);
      if keep(q[0]) && q[0].World() == w {
        forall i | 0 <= i < |rest| && rest[i].World() == w ensures q[0].delivery < rest[i].delivery {
          assert rest[i] in q[1..];
          var j :| 0 <= j < |q[1..]| && q[1..][j] == rest[i];
          assert q[j + 1] == rest[i];
        }
      }
    }
  }

  lemma AscendsConcat(a: seq<Change>, b: seq<Change>, w: string)
    requires Ascends(a, w) && Ascends(b, w)
    requires forall c, d :: c in a && d in b && c.World() == w && d.World() == w ==> c.delivery < d.delivery
    ensures Ascends(a + b, w)
  {
    forall i, j | 0 <= i < j < |a + b| && (a + b)[i].World() == w && (a + b)[j].World() == w
      ensures (a + b)[i].delivery < (a + b)[j].delivery
    {
      if i < |a| && |a| <= j { assert a[i] in a && b[j - |a|] in b; }
    }
  }

  /** With only the world lock for order, a world's chain events reach the client in ascending order, each
      once, whenever the fence separates them; events of other worlds may overlap as they like. */
  lemma WorldEventsAscend(p: Setup, s: System, steps: seq<Step>, t: System, w: string)
    requires Init(s) && Runs(p, s, steps, t) && WorldSerialRun(p, s, steps)
    requires t.phase.Resumed? && t.phase.state.Live? && !D.Interrupted(t.out)
    requires t.phase.start.from <= t.at <= |t.sent|
    requires forall j :: 0 <= j < |t.logged| && Concerns(p, t.logged[j]) && t.logged[j].World() == w ==> Separated(t, j)
    ensures Ascends(Filter(IsChain(), D.Changes(t.out)), w)
  {
    InitTracked(p, s);
    RunKeepsInv(p, s, steps, t);
    RunKeepsTracked(p, s, steps, t);
    WorldSerialKeepsOrder(p, s, steps, t, w);
    hide Runs, WorldSerialRun, Init;
    OrderAtState(p, t, w);
  }

  lemma PartsAscend(p: Setup, t: System, w: string)
    requires Inv(p, t) && InOrder(t, w) && t.phase.Resumed?
    ensures Ascends(Filter(IsChain(), Replayed(p, t)), w) && Ascends(Filter(IsChain(), Passed(p, t)), w)
  {
    var st := t.phase.start;
    hide Filter, Ascends, D.Changes, D.Interrupted, Floor, Last, Wanted, Passes, IsChain;
    SliceAscends(t.logged, st.mark + 1, st.snap, w);
    SliceAscends(t.sent, st.from, t.at, w);
    FilterAscends(Wanted(p.pattern), t.logged[st.mark + 1..st.snap], w);
    FilterAscends(Passes(t.phase.floor, p.pattern), t.sent[st.from..t.at], w);
    FilterAscends(IsChain(), Replayed(p, t), w);
    FilterAscends(IsChain(), Passed(p, t), w);
  }

  lemma OrderAtState(p: Setup, t: System, w: string)
    requires Inv(p, t) && Tracked(t) && InOrder(t, w)
    requires t.phase.Resumed? && t.phase.state.Live? && !D.Interrupted(t.out)
    requires forall j :: 0 <= j < |t.logged| && Concerns(p, t.logged[j]) && t.logged[j].World() == w ==> Separated(t, j)
    ensures Ascends(Filter(IsChain(), D.Changes(t.out)), w)
  {
    assert D.Changes(t.out) == Replayed(p, t) + Passed(p, t);
    var replay, passed := Replayed(p, t), Passed(p, t);
    PartsAscend(p, t, w);
    FilterMembers(IsChain(), replay);
    FilterMembers(IsChain(), passed);
    hide Filter, Inv, InOrder, Tracked, D.Changes, Replayed, Passed, Concerns, Separated, Ascends;
    FilterConcat(IsChain(), replay, passed);
    var a, b := Filter(IsChain(), replay), Filter(IsChain(), passed);
    forall c, d | c in a && d in b && c.World() == w && d.World() == w ensures c.delivery < d.delivery {
      ReplayBeforeLive(p, t, w, c, d);
    }
    AscendsConcat(a, b, w);
  }

  lemma SliceAscends(q: seq<Change>, i: nat, j: nat, w: string)
    requires i <= j <= |q| && Ascends(q, w)
    ensures Ascends(q[i..j], w)
  {
  }

  lemma IndexInSlice(q: seq<Change>, i: nat, j: nat, c: Change) returns (k: nat)
    requires i <= j <= |q| && c in q[i..j]
    ensures i <= k < j && q[k] == c
  {
    var n :| 0 <= n < |q[i..j]| && q[i..j][n] == c;
    k := i + n;
  }

  lemma ReplayedWasEarly(p: Setup, t: System, c: Change) returns (i: nat)
    requires Anchored(p, t) && c in Replayed(p, t)
    ensures i < t.phase.start.snap && t.logged[i] == c
  {
    var st := t.phase.start;
    FilterMembers(Wanted(p.pattern), t.logged[st.mark + 1..st.snap]);
    hide Filter;
    i := IndexInSlice(t.logged, st.mark + 1, st.snap, c);
  }

  lemma PassedWasSent(p: Setup, t: System, d: Change)
    requires Anchored(p, t) && d in Passed(p, t) && d.ChainEvent?
    ensures d in t.sent[t.phase.start.from..t.at] && d in t.sent && d.delivery > t.phase.floor && Concerns(p, d)
  {
    var st := t.phase.start;
    FilterMembers(Passes(t.phase.floor, p.pattern), t.sent[st.from..t.at]);
    hide Filter, Matches;
    var k := IndexInSlice(t.sent, st.from, t.at, d);
  }

  lemma ReplayBeforeLive(p: Setup, t: System, w: string, c: Change, d: Change)
    requires Inv(p, t) && Tracked(t) && InOrder(t, w) && t.phase.Resumed?
    requires forall j :: 0 <= j < |t.logged| && Concerns(p, t.logged[j]) && t.logged[j].World() == w ==> Separated(t, j)
    requires c in Replayed(p, t) && d in Passed(p, t) && d.ChainEvent? && c.World() == w && d.World() == w
    ensures c.delivery < d.delivery
  {
    assert Ascends(t.logged, w);
    hide Replayed, Passed, Concerns, Delivering, Last, InOrder;
    var i := ReplayedWasEarly(p, t, c);
    PassedWasSent(p, t, d);
    SentWasLogged(t, d);
    var j :| 0 <= j < |t.logged| && t.logged[j] == d;
    assert Separated(t, j);
    hide Tracked;
    assert i < t.phase.start.snap <= j;
  }

  // ---- Overlap loses an event ----

  function Three(marker: Id, lost: Id, other: Id): (Change, Change, Change) {
    (ChainEvent(1, marker, "m"), ChainEvent(2, lost, "x"), ChainEvent(3, other, "y"))
  }

  const EMPTY := System(0, [], [], [], [], [], 0, NotOpened, [])

  /** Two notifications overlap after the marker's: the later id enters the ring first. */
  lemma LaterIdPushedFirst(p: Setup, marker: Id, first: Id, second: Id, t: System)
    requires p == Setup("*", marker, 8, 8)
    requires var (m, x, y) := Three(marker, first, second); t == System(3, [x], [y], [m, y], [m, y], [m], 0, NotOpened, [])
    ensures var (m, x, y) := Three(marker, first, second);
      Runs(p, EMPTY, [TakeId(m), Push(0), Send(0), TakeId(x), TakeId(y), Push(1)], t)
  {
    var (m, x, y) := Three(marker, first, second);
    var s1 := EMPTY.(next := 1, taken := [m]);
    var s2 := EMPTY.(next := 1, unsent := [m], logged := [m], ring := [m]);
    var s3 := EMPTY.(next := 1, logged := [m], ring := [m], sent := [m]);
    var s4 := s3.(next := 2, taken := [x]);
    var s5 := s3.(next := 3, taken := [x, y]);
    assert Apply(p, EMPTY, TakeId(m)) == s1;
    assert Apply(p, s1, Push(0)) == s2;
    assert Apply(p, s2, Send(0)) == s3;
    assert Apply(p, s3, TakeId(x)) == s4;
    assert Apply(p, s4, TakeId(y)) == s5;
    assert Apply(p, s5, Push(1)) == t;
    hide Apply;
    Prepend(p, s5, Push(1), [], t);
    Prepend(p, s4, TakeId(y), [Push(1)], t);
    Prepend(p, s3, TakeId(x), [TakeId(y), Push(1)], t);
    Prepend(p, s2, Send(0), [TakeId(x), TakeId(y), Push(1)], t);
    Prepend(p, s1, Push(0), [Send(0), TakeId(x), TakeId(y), Push(1)], t);
    Prepend(p, EMPTY, TakeId(m), [Push(0), Send(0), TakeId(x), TakeId(y), Push(1)], t);
  }

  /** The snapshot is taken with one of them in the ring and fences at its id. */
  lemma OverlapUntilSnapshot(p: Setup, marker: Id, lost: Id, other: Id, s: System, t: System)
    requires p == Setup("*", marker, 8, 8)
    requires var (m, x, y) := Three(marker, lost, other);
      && s == System(3, [x], [y], [m, y], [m, y], [m], 0, NotOpened, [])
      && t == s.(at := 1, phase := Resumed(Replaying([Delivered(y)]), 3, Start(0, 2, 1)))
    ensures Runs(p, s, [OpenReceiver, Snapshot], t)
  {
    var (m, x, y) := Three(marker, lost, other);
    var s7 := s.(phase := ReceiverOpen(1), at := 1);
    assert Apply(p, s, OpenReceiver) == s7;
    assert Apply(p, s7, Snapshot) == t by {
      assert Filter(Wanted("*"), s7.ring[1..]) == [y];
      assert AsItems([y]) == [Delivered(y)];
    }
    hide Apply;
    Prepend(p, s7, Snapshot, [], t);
    Prepend(p, s, OpenReceiver, [Snapshot], t);
  }

  lemma OverlapAfterSnapshot(p: Setup, marker: Id, lost: Id, other: Id, s: System, t: System)
    requires p == Setup("*", marker, 8, 8)
    requires var (m, x, y) := Three(marker, lost, other);
      s == System(3, [x], [y], [m, y], [m, y], [m], 1, Resumed(Replaying([Delivered(y)]), 3, Start(0, 2, 1)), [])
    requires var (m, x, y) := Three(marker, lost, other);
      t == System(3, [], [], [m, y, x], [m, y, x], [m, y, x], 3, Resumed(Live, 3, Start(0, 2, 1)), [Delivered(y)])
    ensures Runs(p, s, [Receive, Receive, Push(0), Send(0), Send(0), Receive, Receive], t)
  {
    var (m, x, y) := Three(marker, lost, other);
    var live := Resumed(Live, 3, Start(0, 2, 1));
    var s2 := s.(phase := live, out := [Delivered(y)]);
    var s3 := s2.(taken := [], unsent := [y, x], logged := [m, y, x], ring := [m, y, x]);
    var s4 := s3.(unsent := [x], sent := [m, y]);
    var s5 := s3.(unsent := [], sent := [m, y, x]);
    assert Apply(p, Apply(p, s, Receive), Receive) == s2;
    assert Apply(p, s2, Push(0)) == s3;
    assert Apply(p, s3, Send(0)) == s4;
    assert Apply(p, s4, Send(0)) == s5;
    assert Apply(p, s5, Receive) == s5.(at := 2);
    assert Apply(p, s5.(at := 2), Receive) == t;
    hide Apply;
    Prepend(p, s5.(at := 2), Receive, [], t);
    Prepend(p, s5, Receive, [Receive], t);
    Prepend(p, s4, Send(0), [Receive, Receive], t);
    Prepend(p, s3, Send(0), [Send(0), Receive, Receive], t);
    Prepend(p, s2, Push(0), [Send(0), Send(0), Receive, Receive], t);
    Prepend(p, Apply(p, s, Receive), Receive, [Push(0), Send(0), Send(0), Receive, Receive], t);
    Prepend(p, s, Receive, [Receive, Push(0), Send(0), Send(0), Receive, Receive], t);
  }

  /** Without the serial assumption exactly-once fails: a run in which nothing is lost by the channel and
      everything sent has been read, yet a chain event pushed after the marker is never delivered. */
  lemma OverlapLosesAnEvent(marker: Id, lost: Id, other: Id) returns (p: Setup, s: System, steps: seq<Step>, t: System)
    requires lost.world != other.world
    ensures p.pattern == "*" && Init(s) && Runs(p, s, steps, t)
    ensures t.phase.Resumed? && t.phase.state.Live? && !D.Interrupted(t.out)
    ensures t.taken == [] && t.unsent == [] && t.at == |t.sent|
    ensures exists i :: t.phase.start.mark < i < |t.logged| && t.logged[i].ChainEvent? && t.logged[i].id == lost
                        && Matches(p.pattern, t.logged[i].World()) && t.logged[i] !in D.Changes(t.out)
  {
    var (m, x, y) := Three(marker, lost, other);
    p, s := Setup("*", marker, 8, 8), EMPTY;
    var pushed := System(3, [x], [y], [m, y], [m, y], [m], 0, NotOpened, []);
    var mid := pushed.(at := 1, phase := Resumed(Replaying([Delivered(y)]), 3, Start(0, 2, 1)));
    t := System(3, [], [], [m, y, x], [m, y, x], [m, y, x], 3, Resumed(Live, 3, Start(0, 2, 1)), [Delivered(y)]);
    hide Apply, Runs, Enabled;
    LaterIdPushedFirst(p, marker, lost, other, pushed);
    OverlapUntilSnapshot(p, marker, lost, other, pushed, mid);
    OverlapAfterSnapshot(p, marker, lost, other, mid, t);
    var a := [TakeId(m), Push(0), Send(0), TakeId(x), TakeId(y), Push(1)];
    var b := [OpenReceiver, Snapshot];
    var c := [Receive, Receive, Push(0), Send(0), Send(0), Receive, Receive];
    RunsConcat(p, s, a, pushed, b, mid);
    RunsConcat(p, s, a + b, mid, c, t);
    steps := a + b + c;
    assert D.Changes([Delivered(y)]) == [y];
    assert t.logged[2] == x;
  }

  // ---- Overlap delivers an event twice ----

  /** Both notifications are in the ring, the later id first, and neither is sent: the floor is the
      smaller id. */
  lemma BothPushedUntilSnapshot(p: Setup, marker: Id, other: Id, twice: Id, s: System, t: System)
    requires p == Setup("*", marker, 8, 8)
    requires var (m, x, y) := Three(marker, other, twice);
      && s == System(3, [x], [y], [m, y], [m, y], [m], 0, NotOpened, [])
      && t == System(3, [], [y, x], [m, y, x], [m, y, x], [m], 1, Resumed(Replaying([Delivered(y), Delivered(x)]), 2, Start(0, 3, 1)), [])
    ensures Runs(p, s, [Push(0), OpenReceiver, Snapshot], t)
  {
    var (m, x, y) := Three(marker, other, twice);
    var s7 := System(3, [], [y, x], [m, y, x], [m, y, x], [m], 0, NotOpened, []);
    var s8 := s7.(phase := ReceiverOpen(1), at := 1);
    assert Apply(p, s, Push(0)) == s7;
    assert Apply(p, s7, OpenReceiver) == s8;
    BothReplayed(s8.ring, m, y, x);
    assert Apply(p, s8, Snapshot) == t;
    hide Apply;
    Prepend(p, s8, Snapshot, [], t);
    Prepend(p, s7, OpenReceiver, [Snapshot], t);
    Prepend(p, s, Push(0), [OpenReceiver, Snapshot], t);
  }

  lemma BothReplayed(ring: seq<Change>, m: Change, y: Change, x: Change)
    requires ring == [m, y, x]
    ensures Filter(Wanted("*"), ring[1..]) == [y, x] && AsItems([y, x]) == [Delivered(y), Delivered(x)]
  {
    var q := ring[1..];
    assert q == [y, x] && q[1..] == [x] && q[1..][1..] == [];
    assert Filter(Wanted("*"), q[1..]) == [x];
  }

  lemma BothPushedAfterSnapshot(p: Setup, marker: Id, other: Id, twice: Id, s: System, t: System)
    requires p == Setup("*", marker, 8, 8)
    requires var (m, x, y) := Three(marker, other, twice);
      s == System(3, [], [y, x], [m, y, x], [m, y, x], [m], 1, Resumed(Replaying([Delivered(y), Delivered(x)]), 2, Start(0, 3, 1)), [])
    requires var (m, x, y) := Three(marker, other, twice);
      t == System(3, [], [], [m, y, x], [m, y, x], [m, y, x], 3, Resumed(Live, 2, Start(0, 3, 1)), [Delivered(y), Delivered(x), Delivered(y)])
    ensures Runs(p, s, [Receive, Receive, Receive, Send(0), Send(0), Receive, Receive], t)
  {
    var (m, x, y) := Three(marker, other, twice);
    var start := Start(0, 3, 1);
    var s1 := s.(phase := Resumed(Replaying([Delivered(x)]), 2, start), out := [Delivered(y)]);
    var s3 := s.(phase := Resumed(Live, 2, start), out := [Delivered(y), Delivered(x)]);
    var s4 := s3.(unsent := [x], sent := [m, y]);
    var s5 := s3.(unsent := [], sent := [m, y, x]);
    var s6 := s5.(at := 2, out := [Delivered(y), Delivered(x), Delivered(y)]);
    assert Apply(p, s, Receive) == s1;
    assert Apply(p, Apply(p, s1, Receive), Receive) == s3;
    assert Apply(p, s3, Send(0)) == s4;
    assert Apply(p, s4, Send(0)) == s5;
    assert Apply(p, s5, Receive) == s6;
    assert Apply(p, s6, Receive) == t;
    hide Apply;
    Prepend(p, s6, Receive, [], t);
    Prepend(p, s5, Receive, [Receive], t);
    Prepend(p, s4, Send(0), [Receive, Receive], t);
    Prepend(p, s3, Send(0), [Send(0), Receive, Receive], t);
    Prepend(p, Apply(p, s1, Receive), Receive, [Send(0), Send(0), Receive, Receive], t);
    Prepend(p, s1, Receive, [Receive, Send(0), Send(0), Receive, Receive], t);
    Prepend(p, s, Receive, [Receive, Receive, Send(0), Send(0), Receive, Receive], t);
  }

  /** The other failure: a run without loss in which a chain event after the marker arrives twice. */
  lemma OverlapRepeatsAnEvent(marker: Id, other: Id, twice: Id) returns (p: Setup, s: System, steps: seq<Step>, t: System)
    requires other.world != twice.world
    ensures p.pattern == "*" && Init(s) && Runs(p, s, steps, t)
    ensures t.phase.Resumed? && t.phase.state.Live? && !D.Interrupted(t.out)
    ensures t.taken == [] && t.unsent == [] && t.at == |t.sent|
    ensures exists i :: t.phase.start.mark < i < |t.logged| && t.logged[i].ChainEvent? && t.logged[i].id == twice
                        && Matches(p.pattern, t.logged[i].World()) && multiset(D.Changes(t.out))[t.logged[i]] == 2
  {
    var (m, x, y) := Three(marker, other, twice);
    p, s := Setup("*", marker, 8, 8), EMPTY;
    var start := Start(0, 3, 1);
    var pushed := System(3, [x], [y], [m, y], [m, y], [m], 0, NotOpened, []);
    var mid := System(3, [], [y, x], [m, y, x], [m, y, x], [m], 1, Resumed(Replaying([Delivered(y), Delivered(x)]), 2, start), []);
    t := System(3, [], [], [m, y, x], [m, y, x], [m, y, x], 3, Resumed(Live, 2, start), [Delivered(y), Delivered(x), Delivered(y)]);
    steps := [TakeId(m), Push(0), Send(0), TakeId(x), TakeId(y), Push(1)] + [Push(0), OpenReceiver, Snapshot]
             + [Receive, Receive, Receive, Send(0), Send(0), Receive, Receive];
    RepeatRuns(p, marker, other, twice, pushed, mid, t, steps);
    hide Apply, Runs, Enabled;
    ThreeDelivered(y, x);
    assert t.logged[1] == y;
  }

  lemma RepeatRuns(p: Setup, marker: Id, other: Id, twice: Id, pushed: System, mid: System, t: System, steps: seq<Step>)
    requires p == Setup("*", marker, 8, 8)
    requires var (m, x, y) := Three(marker, other, twice);
      && pushed == System(3, [x], [y], [m, y], [m, y], [m], 0, NotOpened, [])
      && mid == System(3, [], [y, x], [m, y, x], [m, y, x], [m], 1, Resumed(Replaying([Delivered(y), Delivered(x)]), 2, Start(0, 3, 1)), [])
      && t == System(3, [], [], [m, y, x], [m, y, x], [m, y, x], 3, Resumed(Live, 2, Start(0, 3, 1)), [Delivered(y), Delivered(x), Delivered(y)])
      && steps == [TakeId(m), Push(0), Send(0), TakeId(x), TakeId(y), Push(1)] + [Push(0), OpenReceiver, Snapshot]
                  + [Receive, Receive, Receive, Send(0), Send(0), Receive, Receive]
    ensures Runs(p, EMPTY, steps, t)
  {
    var (m, x, y) := Three(marker, other, twice);
    hide Apply, Runs, Enabled, EMPTY;
    LaterIdPushedFirst(p, marker, other, twice, pushed);
    BothPushedUntilSnapshot(p, marker, other, twice, pushed, mid);
    BothPushedAfterSnapshot(p, marker, other, twice, mid, t);
    var a := [TakeId(m), Push(0), Send(0), TakeId(x), TakeId(y), Push(1)];
    var b := [Push(0), OpenReceiver, Snapshot];
    var c := [Receive, Receive, Receive, Send(0), Send(0), Receive, Receive];
    RunsConcat(p, EMPTY, a, pushed, b, mid);
    RunsConcat(p, EMPTY, a + b, mid, c, t);
  }

  lemma ThreeDelivered(y: Change, x: Change)
    ensures D.Changes([Delivered(y), Delivered(x), Delivered(y)]) == [y, x, y]
    ensures y != x ==> multiset([y, x, y])[y] == 2
  {
    D.ChangesOfDelivered([y, x, y]);
    assert seq(3, i requires 0 <= i < 3 => Delivered([y, x, y][i])) == [Delivered(y), Delivered(x), Delivered(y)];
  }
}
