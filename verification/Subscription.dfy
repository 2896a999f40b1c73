/** The subscription a client drains: a replay queue, then the live broadcast behind a fence. */
module Subscription {
  import Slices
  import opened Framing
  import opened EventId
  import WorldPath

  /** A broadcast change: a row of a world's audit chain, or a signal that has no durable identity. */
  datatype Change =
    | ChainEvent(delivery: nat, id: Id, etag: string)
    | Ping(delivery: nat, path: string)
  {
    function World(): string { if ChainEvent? then id.world else path }
  }

  datatype ResetReason = RingMiss | Truncation | Incarnation

  datatype Item = Delivered(change: Change) | Reset(reason: ResetReason) | Lagged(skipped: nat) | ClosedItem

  datatype Fence = NoFence | ProcessLocal(floor: nat) | Durable(row: Id)

  function StripSlash(s: string): string { if s != "" && s[0] == '/' then s[1..] else s }

  predicate EndsWithStar(s: string) { s != "" && s[|s| - 1] == '*' }

  /** `matches_world`: everything, a prefix, or one world. */
  predicate Matches(pattern: string, world: string) {
    if pattern == "*" then true
    else if EndsWithStar(pattern) then StripSlash(pattern[..|pattern| - 1]) <= world
    else world == StripSlash(pattern)
  }

  /** `exact_world`: the one world a pattern without a star names; `None` inside means invalid. */
  function ExactWorld(pattern: string): Option<Option<string>> {
    if EndsWithStar(pattern) then None
    else if WorldPath.CanonicalWorld(StripSlash(pattern)) then Some(Some(StripSlash(pattern)))
    else Some(None)
  }

  /** A pattern that names one world matches that world and no other. */
  lemma ExactMatchesOne(pattern: string, world: string, other: string)
    requires ExactWorld(pattern) == Some(Some(world))
    ensures Matches(pattern, other) <==> other == world
  {
    hide WorldPath.CanonicalWorld;
  }

  predicate StartsWithSlash(s: string) { s != "" && s[0] == '/' }

  /** A pattern spells a text plainly or with one leading slash. */
  predicate Spells(pattern: string, text: string) {
    pattern == "/" + text || (pattern == text && !StartsWithSlash(text))
  }

  /** What a pattern names: every world that begins with the text before its star, or the one world it
      spells. */
  predicate Names(pattern: string, world: string) {
    || (exists n :: 0 <= n <= |world| && Spells(pattern, world[..n] + "*"))
    || (!EndsWithStar(pattern) && Spells(pattern, world))
  }

  lemma SpellsIsStrip(pattern: string, text: string)
    ensures Spells(pattern, text) <==> StripSlash(pattern) == text && (StartsWithSlash(text) ==> StartsWithSlash(pattern))
  {
    if StartsWithSlash(pattern) {
      assert pattern == "/" + pattern[1..];
      assert ("/" + text)[1..] == text;
    } else {
      assert ("/" + text)[0] == '/';
    }
  }

  lemma StripStar(pattern: string)
    requires EndsWithStar(pattern) && pattern != "*"
    ensures StripSlash(pattern) == StripSlash(pattern[..|pattern| - 1]) + "*"
  {
    var body := pattern[..|pattern| - 1];
    assert pattern == body + "*" && body != "" && body[0] == pattern[0];
    if pattern[0] == '/' { assert pattern[1..] == body[1..] + "*"; }
  }

  lemma AppendedStar(text: string, body: string)
    ensures text + "*" == body + "*" <==> text == body
  {
    assert (text + "*")[..|text|] == text && (body + "*")[..|body|] == body;
    if text + "*" == body + "*" { assert |text| == |body|; }
  }

  /** A starred pattern spells a prefix of the world exactly when the world begins with what is before
      the star. */
  lemma PrefixNamed(pattern: string, world: string)
    requires EndsWithStar(pattern) && pattern != "*"
    ensures (exists n :: 0 <= n <= |world| && Spells(pattern, world[..n] + "*"))
       <==> StripSlash(pattern[..|pattern| - 1]) <= world
  {
    var body := StripSlash(pattern[..|pattern| - 1]);
    StripStar(pattern);
    forall n | 0 <= n <= |world| ensures Spells(pattern, world[..n] + "*") <==> world[..n] == body {
      SpellsIsStrip(pattern, world[..n] + "*");
      AppendedStar(world[..n], body);
      SlashBeforeSlash(pattern, world[..n] + "*");
    }
    if body <= world { assert world[..|body|] == body; }
  }

  lemma SlashBeforeSlash(pattern: string, text: string)
    ensures StripSlash(pattern) == text && StartsWithSlash(text) ==> StartsWithSlash(pattern)
  {
  }

  /** The matcher agrees with what a pattern names, on every pattern and every world. */
  lemma MatchesIsNames(pattern: string, world: string)
    ensures Matches(pattern, world) <==> Names(pattern, world)
  {
    if pattern == "*" {
      assert world[..0] + "*" == "*" && Spells(pattern, world[..0] + "*");
    } else if EndsWithStar(pattern) {
      PrefixNamed(pattern, world);
    } else {
      SpellsIsStrip(pattern, world);
      forall n | 0 <= n <= |world| ensures !Spells(pattern, world[..n] + "*") { StarAtEnd(pattern, world[..n]); }
    }
  }

  lemma StarAtEnd(pattern: string, text: string)
    ensures Spells(pattern, text + "*") ==> EndsWithStar(pattern)
  {
    assert (text + "*")[|text|] == '*' && ("/" + (text + "*"))[|text| + 1] == '*';
  }

  /** A pattern is an exact one exactly when it spells a canonical world that does not end in a star. */
  lemma ExactIff(pattern: string, world: string)
    requires !StartsWithSlash(world)
    ensures ExactWorld(pattern) == Some(Some(world))
       <==> WorldPath.CanonicalWorld(world) && !EndsWithStar(pattern) && (pattern == world || pattern == "/" + world)
    ensures ExactWorld(pattern).None? <==> EndsWithStar(pattern)
  {
    hide WorldPath.CanonicalWorld;
    SpellsIsStrip(pattern, world);
  }

  datatype Action = Accept | Drop | Refuse(reason: ResetReason)

  /** `live_change_action`. */
  function LiveAction(fence: Fence, pattern: string, change: Change): Action {
    if !Matches(pattern, change.World()) then Drop
    else match fence
      case NoFence => Accept
      case ProcessLocal(floor) => if change.ChainEvent? && change.delivery <= floor then Drop else Accept
      case Durable(row) =>
        if change.ChainEvent? && change.id.world == row.world then
          if change.id.generation != row.generation then Refuse(Incarnation)
          else if SameChainAtOrBefore(change.id, row) then Drop
          else Accept
        else Accept
  }

  /** What the live `select!` can yield: a change, a loss report, or the end of the stream. */
  datatype Received = Got(change: Change) | Lost(skipped: nat) | ChannelClosed | ShutdownSignal

  predicate Silent(fence: Fence, pattern: string, got: Received) {
    got.Got? && LiveAction(fence, pattern, got.change) == Drop
  }

  function Answer(fence: Fence, pattern: string, got: Received): Item
    requires !Silent(fence, pattern, got)
  {
    match got
    case Got(change) =>
      var action := LiveAction(fence, pattern, change);
      if action.Refuse? then Reset(action.reason) else Delivered(change)
    case Lost(n) => Lagged(n)
    case ChannelClosed => ClosedItem
    case ShutdownSignal => ClosedItem
  }

  /** Before the switch to live the shutdown receiver is parked in the slot; afterwards the state owns it. */
  datatype State = Closed | Replaying(remaining: seq<Item>) | Live

  class EngineSubscription {
    const pattern: string
    const fence: Fence
    var state: State
    var pendingShutdown: bool

    ghost predicate Valid()
      reads this
    {
      (state.Replaying? <==> pendingShutdown)
      && (state.Replaying? ==> ClosedItem !in state.remaining)
    }

    constructor (replay: seq<Item>, pattern: string, fence: Fence)
      requires ClosedItem !in replay
      ensures Valid() && this.pattern == pattern && this.fence == fence
      ensures state == if replay == [] then Live else Replaying(replay)
    {
      this.pattern, this.fence := pattern, fence;
      if replay == [] {
        state, pendingShutdown := Live, false;
      } else {
        state, pendingShutdown := Replaying(replay), true;
      }
    }

    /** `recv`, run to completion against what the live side yields during the call. `None` means the
        call is still waiting once `feed` is used up. The assertion is the `expect` on the parked
        shutdown receiver. */
    method Recv(shutdown: bool, feed: seq<Received>) returns (item: Option<Item>, used: nat)
      requires Valid()
      modifies `state, `pendingShutdown
      ensures Valid() && used <= |feed|
      ensures old(state).Closed? ==> state == Closed && item == Some(ClosedItem) && used == 0
      // the replay queue drains first, in order, whatever the live side holds
      ensures old(state).Replaying? && old(state).remaining != [] ==> (
        && item == Some(old(state).remaining[0])
        && state == Replaying(old(state).remaining[1..]) && used == 0)
      // then the answer is the first live element that is not dropped
      ensures Draining(old(state)) && shutdown ==> state == Closed && item == Some(ClosedItem) && used == 0
      ensures Draining(old(state)) && !shutdown ==> (
        && (forall i :: 0 <= i < used - (if item.Some? then 1 else 0) ==> Silent(fence, pattern, feed[i]))
        && (item.None? ==> used == |feed| && state == Live)
        && (item.Some? ==> (
            && used > 0 && !Silent(fence, pattern, feed[used - 1])
            && item == Some(Answer(fence, pattern, feed[used - 1]))
            && state == (if item.value == ClosedItem then Closed else Live))))
    {
      used := 0;
      ghost var before := state;
      while true
        invariant used <= |feed|
        invariant Valid()
        invariant (state == before && used == 0) || (Draining(before) && state == Live)
        invariant Draining(before) ==> forall i :: 0 <= i < used ==> Silent(fence, pattern, feed[i])
        invariant used > 0 ==> !shutdown
        decreases |feed| - used, if state.Live? then 0 else 1
      {
        var current := state;
        state := Closed;
        match current
        case Closed =>
          return Some(ClosedItem), used;
        case Replaying(remaining) =>
          if remaining != [] {
            state := Replaying(remaining[1..]);
            return Some(remaining[0]), used;
          }
          assert pendingShutdown;
          pendingShutdown := false;
          state := Live;
        case Live =>
          if shutdown { return Some(ClosedItem), used; }
          if used == |feed| {
            state := Live;
            return None, used;
          }
          var got := feed[used];
          used := used + 1;
          if !Silent(fence, pattern, got) {
            var answer := Answer(fence, pattern, got);
            state := if answer == ClosedItem then Closed else Live;
            return Some(answer), used;
          }
          state := Live;
      }
    }
  }

  predicate Draining(state: State) { state.Live? || (state.Replaying? && state.remaining == []) }

  // ---- What a whole stream says ----

  /** The replay behind this fence already brought the row. */
  predicate Covered(fence: Fence, c: Change) {
    match fence
    case NoFence => false
    case ProcessLocal(floor) => c.ChainEvent? && c.delivery <= floor
    case Durable(last) => c.ChainEvent? && c.id.world == last.world && c.id.generation == last.generation && c.id.row <= last.row
  }

  /** A row of the followed world, but of another incarnation. */
  predicate OtherIncarnation(fence: Fence, c: Change) {
    fence.Durable? && c.ChainEvent? && c.id.world == fence.row.world && c.id.generation != fence.row.generation
  }

  predicate Ends(got: Received) { got.ChannelClosed? || got.ShutdownSignal? }

  /** What a client hears of a feed: every named change the replay did not cover, in order; each loss as a
      loss; another incarnation as a reset; and the end once. */
  function Heard(fence: Fence, pattern: string, feed: seq<Received>): seq<Item> {
    if feed == [] then []
    else if Ends(feed[0]) then [ClosedItem]
    else Said(fence, pattern, feed[0]) + Heard(fence, pattern, feed[1..])
  }

  function Said(fence: Fence, pattern: string, got: Received): seq<Item>
    requires !Ends(got)
  {
    match got
    case Lost(n) => [Lagged(n)]
    case Got(c) =>
      if !Names(pattern, c.World()) || Covered(fence, c) then []
      else if OtherIncarnation(fence, c) then [Reset(Incarnation)]
      else [Delivered(c)]
  }

  /** One live element: silent exactly when nothing is to be said of it, and otherwise answered so. */
  lemma AnswerIsSaid(fence: Fence, pattern: string, got: Received)
    ensures Ends(got) ==> !Silent(fence, pattern, got) && Answer(fence, pattern, got) == ClosedItem
    ensures !Ends(got) ==> Said(fence, pattern, got) == if Silent(fence, pattern, got) then [] else [Answer(fence, pattern, got)]
  {
    if got.Got? { MatchesIsNames(pattern, got.change.World()); }
    hide Matches, Names;
  }

  lemma {:induction false} HeardAfterSilence(fence: Fence, pattern: string, feed: seq<Received>, n: nat)
    requires n <= |feed| && forall i :: 0 <= i < n ==> Silent(fence, pattern, feed[i])
    ensures Heard(fence, pattern, feed) == Heard(fence, pattern, feed[n..])
    decreases n
  {
    hide Names, Silent, Said;
    if n > 0 {
      AnswerIsSaid(fence, pattern, feed[0]);
      HeardAfterSilence(fence, pattern, feed[1..], n - 1);
      assert feed[1..][n - 1..] == feed[n..];
    } else {
      assert feed[0..] == feed;
    }
  }

  /** The part of a feed one call used up, and what it answered. */
  lemma HeardOneCall(fence: Fence, pattern: string, feed: seq<Received>, used: nat)
    requires 0 < used <= |feed| && !Silent(fence, pattern, feed[used - 1])
    requires forall i :: 0 <= i < used - 1 ==> Silent(fence, pattern, feed[i])
    ensures var answer := Answer(fence, pattern, feed[used - 1]);
      Heard(fence, pattern, feed) == if answer == ClosedItem then [ClosedItem] else [answer] + Heard(fence, pattern, feed[used..])
  {
    HeardAfterSilence(fence, pattern, feed, used - 1);
    var rest := feed[used - 1..];
    AnswerIsSaid(fence, pattern, feed[used - 1]);
    assert rest[0] == feed[used - 1] && rest[1..] == feed[used..];
    assert !Ends(feed[used - 1]) ==> Answer(fence, pattern, feed[used - 1]) != ClosedItem;
    hide Names, Silent, Said, Answer;
  }

  predicate Finished(feed: seq<Received>) { exists i :: 0 <= i < |feed| && Ends(feed[i]) }

  lemma {:induction false} HeardEnds(fence: Fence, pattern: string, feed: seq<Received>)
    ensures ClosedItem in Heard(fence, pattern, feed) <==> Finished(feed)
  {
    if feed != [] && !Ends(feed[0]) {
      HeardEnds(fence, pattern, feed[1..]);
      assert ClosedItem !in Said(fence, pattern, feed[0]);
      if Finished(feed) {
        var i :| 0 <= i < |feed| && Ends(feed[i]);
        assert feed[1..][i - 1] == feed[i];
      }
      if Finished(feed[1..]) {
        var i :| 0 <= i < |feed[1..]| && Ends(feed[1..][i]);
        assert feed[i + 1] == feed[1..][i];
      }
    }
  }

  /** What is still to be heard: the replay queue, then the feed. */
  function Ahead(state: State, fence: Fence, pattern: string, feed: seq<Received>): seq<Item> {
    (if state.Replaying? then state.remaining else []) + (if state.Closed? then [] else Heard(fence, pattern, feed))
  }

  /** What one call that answers takes off the front of that. */
  predicate Took(before: State, after: State, fence: Fence, pattern: string, feed: seq<Received>, item: Item, used: nat) {
    used <= |feed| && if before.Replaying? && before.remaining != [] then
      item == before.remaining[0] && after == Replaying(before.remaining[1..]) && used == 0
    else
      && Draining(before) && used > 0 && !Silent(fence, pattern, feed[used - 1])
      && (forall i :: 0 <= i < used - 1 ==> Silent(fence, pattern, feed[i]))
      && item == Answer(fence, pattern, feed[used - 1]) && after == (if item == ClosedItem then Closed else Live)
  }

  lemma TookFromFront(before: State, after: State, fence: Fence, pattern: string, feed: seq<Received>, item: Item, used: nat)
    requires Took(before, after, fence, pattern, feed, item, used)
    ensures Ahead(before, fence, pattern, feed) == [item] + Ahead(after, fence, pattern, feed[used..])
  {
    hide Heard, Silent, Answer;
    if before.Replaying? && before.remaining != [] {
      assert feed[0..] == feed;
      assert before.remaining == [before.remaining[0]] + before.remaining[1..];
      assert ([before.remaining[0]] + before.remaining[1..]) + Heard(fence, pattern, feed)
          == [before.remaining[0]] + (before.remaining[1..] + Heard(fence, pattern, feed));
    } else {
      HeardOneCall(fence, pattern, feed, used);
    }
  }

  lemma NothingAhead(state: State, fence: Fence, pattern: string, feed: seq<Received>)
    requires Draining(state) && forall i :: 0 <= i < |feed| ==> Silent(fence, pattern, feed[i])
    ensures Ahead(state, fence, pattern, feed) == []
  {
    HeardAfterSilence(fence, pattern, feed, |feed|);
    assert feed[|feed|..] == [];
  }

  /** So far `items` were handed over of all there was to hear, and `rest` is left; the end is among them when
      the stream has closed. */
  predicate Handed(all: seq<Item>, items: seq<Item>, rest: seq<Item>, closed: bool) {
    all == items + rest && (closed <==> ClosedItem in items)
  }

  lemma HandOver(all: seq<Item>, items: seq<Item>, item: Item, rest: seq<Item>)
    requires Handed(all, items, [item] + rest, false)
    ensures Handed(all, items + [item], rest, item == ClosedItem)
  {
    Slices.Assoc(items, [item], rest);
  }

  lemma AllHanded(all: seq<Item>, items: seq<Item>, closed: bool)
    requires Handed(all, items, [], closed)
    ensures all == items && (closed <==> ClosedItem in items)
  {
    Slices.Empty(items);
  }

  /** One call, said of what is still to be heard: it takes the first item off, or there is none. */
  method Next(sub: EngineSubscription, feed: seq<Received>) returns (item: Option<Item>, used: nat)
    requires sub.Valid() && !sub.state.Closed?
    modifies sub`state, sub`pendingShutdown
    ensures sub.Valid() && used <= |feed|
    ensures item.None? ==> Ahead(old(sub.state), sub.fence, sub.pattern, feed) == [] && sub.state == Live
    ensures item.Some? ==> (
      && Ahead(old(sub.state), sub.fence, sub.pattern, feed) == [item.value] + Ahead(sub.state, sub.fence, sub.pattern, feed[used..])
      && (sub.state.Closed? <==> item.value == ClosedItem)
      && (used > 0 || (old(sub.state).Replaying? && sub.state.Replaying? && |sub.state.remaining| < |old(sub.state).remaining|)))
  {
    item, used := sub.Recv(false, feed);
    hide Silent, Answer, Heard, Ahead;
    if item.None? {
      NothingAhead(old(sub.state), sub.fence, sub.pattern, feed);
    } else {
      TookFromFront(old(sub.state), sub.state, sub.fence, sub.pattern, feed, item.value, used);
    }
  }

  /** The pump around `recv`: call it until the stream closes or the feed is used up. Whatever the fence,
      the client hears the replay queue and then the feed as `Heard` has it, and the stream is closed
      afterwards exactly when the feed closed it. */
  method Pump(sub: EngineSubscription, feed: seq<Received>) returns (items: seq<Item>)
    requires sub.Valid() && !sub.state.Closed?
    modifies sub`state, sub`pendingShutdown
    ensures sub.Valid()
    ensures items == (if old(sub.state).Replaying? then old(sub.state).remaining else []) + Heard(sub.fence, sub.pattern, feed)
    ensures sub.state == if Finished(feed) then Closed else Live
  {
    items := [];
    var rest := feed;
    ghost var all := Ahead(sub.state, sub.fence, sub.pattern, feed);
    HandNothing(all);
    hide Ahead, Heard, Finished, Handed;
    while !sub.state.Closed?
      invariant sub.Valid() && !old(sub.state).Closed?
      invariant Handed(all, items, Ahead(sub.state, sub.fence, sub.pattern, rest), sub.state.Closed?)
      decreases if sub.state.Closed? then 0 else 1, |rest|, if sub.state.Replaying? then |sub.state.remaining| else 0
    {
      var item, used := Next(sub, rest);
      if item.None? {
        break;
      }
      HandOver(all, items, item.value, Ahead(sub.state, sub.fence, sub.pattern, rest[used..]));
      items := items + [item.value];
      rest := rest[used..];
    }
    if sub.state.Closed? { ClosedAhead(sub.fence, sub.pattern, rest); }
    AllHanded(all, items, sub.state.Closed?);
    PumpDone(old(sub.state), sub.state, sub.fence, sub.pattern, feed, items);
  }

  lemma HandNothing(all: seq<Item>)
    ensures Handed(all, [], all, false)
  {
    Slices.Empty(all);
  }

  lemma ClosedAhead(fence: Fence, pattern: string, feed: seq<Received>)
    ensures Ahead(Closed, fence, pattern, feed) == []
  {
  }

  lemma PumpDone(first: State, last: State, fence: Fence, pattern: string, feed: seq<Received>, items: seq<Item>)
    requires !first.Closed? && (first.Replaying? ==> ClosedItem !in first.remaining)
    requires last.Closed? <==> ClosedItem in items
    requires Ahead(first, fence, pattern, feed) == items
    ensures items == (if first.Replaying? then first.remaining else []) + Heard(fence, pattern, feed)
    ensures last.Closed? <==> Finished(feed)
  {
    HeardEnds(fence, pattern, feed);
    hide Heard;
    assert items + [] == items;
  }

  // ---- A subscription without a cursor ----

  /** The changes of a feed up to its end, in order. */
  function Sent(feed: seq<Received>): seq<Change> {
    if feed == [] || Ends(feed[0]) then []
    else (if feed[0].Got? then [feed[0].change] else []) + Sent(feed[1..])
  }

  function Named(pattern: string, cs: seq<Change>): seq<Change> {
    if cs == [] then [] else (if Names(pattern, cs[0].World()) then [cs[0]] else []) + Named(pattern, cs[1..])
  }

  function DeliveredOf(items: seq<Item>): seq<Change> {
    if items == [] then [] else (if items[0].Delivered? then [items[0].change] else []) + DeliveredOf(items[1..])
  }

  function LossesOf(items: seq<Item>): seq<nat> {
    if items == [] then [] else (if items[0].Lagged? then [items[0].skipped] else []) + LossesOf(items[1..])
  }

  function LossesIn(feed: seq<Received>): seq<nat> {
    if feed == [] || Ends(feed[0]) then []
    else (if feed[0].Lost? then [feed[0].skipped] else []) + LossesIn(feed[1..])
  }

  /** Without a fence a client is given exactly the changes the pattern names, in feed order, is told of
      every loss with its size, and of no reset. */
  lemma {:induction false} UnfencedHearsAll(pattern: string, feed: seq<Received>)
    ensures DeliveredOf(Heard(NoFence, pattern, feed)) == Named(pattern, Sent(feed))
    ensures LossesOf(Heard(NoFence, pattern, feed)) == LossesIn(feed)
    ensures forall i :: 0 <= i < |Heard(NoFence, pattern, feed)| ==> !Heard(NoFence, pattern, feed)[i].Reset?
  {
    if feed != [] && !Ends(feed[0]) {
      hide Names, DeliveredOf, LossesOf, Named;
      var said, rest := Said(NoFence, pattern, feed[0]), Heard(NoFence, pattern, feed[1..]);
      UnfencedHearsAll(pattern, feed[1..]);
      ItemsConcat(said, rest);
      SaidUnfenced(pattern, feed[0]);
      assert Heard(NoFence, pattern, feed) == said + rest;
      hide Heard, Said;
      Slices.Empty(Sent(feed[1..]));
      if feed[0].Got? { NamedCons(pattern, feed[0].change, Sent(feed[1..])); } else { Slices.Empty(Named(pattern, Sent(feed[1..]))); }
    }
  }

  lemma ItemsConcat(said: seq<Item>, rest: seq<Item>)
    requires |said| <= 1
    ensures DeliveredOf(said + rest) == DeliveredOf(said) + DeliveredOf(rest) && LossesOf(said + rest) == LossesOf(said) + LossesOf(rest)
  {
    if said == [] {
      Slices.Empty(rest);
      Slices.Empty(DeliveredOf(rest));
      Slices.Empty(LossesOf(rest));
      assert DeliveredOf(said) == [] && LossesOf(said) == [];
    } else {
      OneItem(said[0], rest);
      assert said == [said[0]];
    }
  }

  lemma OneItem(item: Item, rest: seq<Item>)
    ensures DeliveredOf([item]) == if item.Delivered? then [item.change] else []
    ensures LossesOf([item]) == if item.Lagged? then [item.skipped] else []
    ensures DeliveredOf([item] + rest) == DeliveredOf([item]) + DeliveredOf(rest) && LossesOf([item] + rest) == LossesOf([item]) + LossesOf(rest)
  {
    assert [item][1..] == [];
    Slices.TailOfConcat([item], rest);
    Slices.Empty(rest);
  }

  lemma SaidUnfenced(pattern: string, got: Received)
    requires !Ends(got)
    ensures var said := Said(NoFence, pattern, got);
      && |said| <= 1 && (forall i :: 0 <= i < |said| ==> !said[i].Reset?)
      && DeliveredOf(said) == (if got.Got? && Names(pattern, got.change.World()) then [got.change] else [])
      && LossesOf(said) == (if got.Lost? then [got.skipped] else [])
  {
    hide Names;
    var said := Said(NoFence, pattern, got);
    if said != [] {
      OneItem(said[0], []);
      assert said == [said[0]];
    }
  }

  lemma NamedCons(pattern: string, c: Change, cs: seq<Change>)
    ensures Named(pattern, [c] + cs) == (if Names(pattern, c.World()) then [c] else []) + Named(pattern, cs)
  {
    hide Names;
    assert ([c] + cs)[1..] == cs;
  }
}
