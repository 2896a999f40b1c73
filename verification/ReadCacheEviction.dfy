/** Approximate-LRU eviction of the read cache, without concurrent mutation of the table. */
module ReadCacheEviction {
  import Slices

  const SAMPLE_SIZE: nat := 8
  const RETRY_BUDGET: nat := 16
  const CURSOR_MODULUS: nat := 0x1_0000_0000_0000_0000

  datatype SlotState = Opening | Ready | Evicted | Tombstone

  /** A table entry in iteration order. `guarded` says some thread holds the slot's lock. */
  datatype Entry = Entry(world: string, state: SlotState, guarded: bool, lastAccess: nat)

  predicate Evictable(e: Entry) { e.state == Ready && !e.guarded }

  predicate DistinctWorlds(es: seq<Entry>) { forall i, j :: 0 <= i < j < |es| ==> es[i].world != es[j].world }

  function Others(es: seq<Entry>, target: string): seq<Entry> {
    if es == [] then []
    else (if es[0].world == target then [] else [es[0]]) + Others(es[1..], target)
  }

  function Rotate(es: seq<Entry>, start: nat): seq<Entry>
    requires start <= |es|
  {
    es[start..] + es[..start]
  }

  function Take(es: seq<Entry>, n: nat): seq<Entry> { if |es| <= n then es else es[..n] }

  /** The sample: from the cursor, wrapping round, the first eight entries that are not the target. */
  function Sample(es: seq<Entry>, start: nat, target: string): seq<Entry>
    requires start <= |es|
  {
    Take(Others(Rotate(es, start), target), SAMPLE_SIZE)
  }

  lemma {:induction false} OthersConcat(a: seq<Entry>, b: seq<Entry>, target: string)
    ensures Others(a + b, target) == Others(a, target) + Others(b, target)
  {
    if a == [] {
      assert a + b == b;
    } else {
      var head := if a[0].world == target then [] else [a[0]];
      OthersConcat(a[1..], b, target);
      Slices.TailOfConcat(a, b);
      Slices.Assoc(head, Others(a[1..], target), Others(b, target));
    }
  }

  lemma {:induction false} OthersFacts(es: seq<Entry>, target: string)
    ensures forall e :: e in Others(es, target) <==> e in es && e.world != target
    ensures DistinctWorlds(es) ==> DistinctWorlds(Others(es, target))
    ensures |Others(es, target)| <= |es|
  {
    if es != [] {
      OthersFacts(es[1..], target);
      Slices.HeadAndTail(es);
    }
  }

  /** The sample has no duplicates, leaves the target out, holds only table entries, and is as large as
      eight or the number of other entries allows. */
  lemma SampleIsFair(es: seq<Entry>, start: nat, target: string)
    requires start <= |es| && DistinctWorlds(es)
    ensures var s := Sample(es, start, target);
            && DistinctWorlds(s)
            && (forall e :: e in s ==> e in es && e.world != target)
            && |s| == (if |Others(es, target)| < SAMPLE_SIZE then |Others(es, target)| else SAMPLE_SIZE)
            && (|s| < SAMPLE_SIZE ==> forall e :: e in es && e.world != target ==> e in s)
  {
    hide Others;
    OthersOfRotation(es, start, target);
    RotationKeeps(es, start);
    OthersFacts(Rotate(es, start), target);
    OthersFacts(es, target);
  }

  lemma OthersOfRotation(es: seq<Entry>, start: nat, target: string)
    requires start <= |es|
    ensures |Others(Rotate(es, start), target)| == |Others(es, target)|
  {
    hide Others;
    OthersConcat(es[..start], es[start..], target);
    OthersConcat(es[start..], es[..start], target);
    assert es == es[..start] + es[start..];
  }

  lemma RotationKeeps(es: seq<Entry>, start: nat)
    requires start <= |es|
    ensures DistinctWorlds(es) ==> DistinctWorlds(Rotate(es, start))
    ensures forall e :: e in Rotate(es, start) <==> e in es
  {
    assert es == es[..start] + es[start..];
  }

  function InsertByAge(e: Entry, es: seq<Entry>): seq<Entry> {
    if es == [] then [e] else if e.lastAccess <= es[0].lastAccess then [e] + es else [es[0]] + InsertByAge(e, es[1..])
  }

  /** Stable sort by access tick, oldest first. */
  function ByAge(es: seq<Entry>): seq<Entry> {
    if es == [] then [] else InsertByAge(es[0], ByAge(es[1..]))
  }

  predicate Ordered(es: seq<Entry>) { forall i, j :: 0 <= i < j < |es| ==> es[i].lastAccess <= es[j].lastAccess }

  lemma {:induction false} InsertByAgeOrders(e: Entry, es: seq<Entry>)
    requires Ordered(es)
    ensures Ordered(InsertByAge(e, es)) && forall x :: x in InsertByAge(e, es) <==> x == e || x in es
  {
    if es != [] && e.lastAccess > es[0].lastAccess {
      InsertByAgeOrders(e, es[1..]);
      var rest := InsertByAge(e, es[1..]);
      forall j | 0 <= j < |rest| ensures es[0].lastAccess <= rest[j].lastAccess {
        assert rest[j] in rest;
      }
    }
    if es != [] { assert es == [es[0]] + es[1..]; }
  }

  lemma {:induction false} ByAgeOrders(es: seq<Entry>)
    ensures Ordered(ByAge(es)) && forall x :: x in ByAge(es) <==> x in es
  {
    if es != [] {
      ByAgeOrders(es[1..]);
      InsertByAgeOrders(es[0], ByAge(es[1..]));
      assert es == [es[0]] + es[1..];
    }
  }

  /** `victim` is what a sample gives up: evictable, and no older evictable candidate was sampled. */
  predicate OldestEvictable(sample: seq<Entry>, victim: Entry) {
    victim in sample && Evictable(victim)
    && forall e :: e in sample && Evictable(e) ==> victim.lastAccess <= e.lastAccess
  }

  function SampleAt(es: seq<Entry>, cursor: nat, target: string): seq<Entry>
    requires es != []
  {
    Sample(es, cursor % |es|, target)
  }

  predicate NothingEvictable(es: seq<Entry>, cursor: nat, target: string) {
    es != [] ==> forall e :: e in SampleAt(es, cursor, target) ==> !Evictable(e)
  }

  /** `after` is `before` without one entry, an oldest evictable one of the sample. */
  predicate RemovedOldest(before: seq<Entry>, cursor: nat, target: string, after: seq<Entry>)
    requires before != []
  {
    exists v :: v in before && OldestEvictable(SampleAt(before, cursor, target), v) && after == Others(before, v.world)
  }

  /** Nothing is added, and only evictable entries other than the target's may be gone. */
  predicate Kept(before: seq<Entry>, after: seq<Entry>, target: string) {
    && (forall e :: e in after ==> e in before)
    && (forall e :: e in before && (e.world == target || !Evictable(e)) ==> e in after)
  }

  lemma FirstEvictableIsOldest(sample: seq<Entry>, i: nat)
    requires i < |ByAge(sample)| && Evictable(ByAge(sample)[i])
    requires forall j :: 0 <= j < i ==> !Evictable(ByAge(sample)[j])
    ensures OldestEvictable(sample, ByAge(sample)[i])
  {
    ByAgeOrders(sample);
    var sorted := ByAge(sample);
    forall e | e in sample && Evictable(e) ensures sorted[i].lastAccess <= e.lastAccess {
      assert e in sorted;
      var k :| 0 <= k < |sorted| && sorted[k] == e;
    }
  }

  lemma {:induction false} OthersOfAbsent(es: seq<Entry>, world: string)
    requires forall k :: 0 <= k < |es| ==> es[k].world != world
    ensures Others(es, world) == es
  {
    if es != [] { OthersOfAbsent(es[1..], world); }
  }

  /** Removing one key of a table removes one entry. */
  lemma {:induction false} RemovesOne(es: seq<Entry>, i: nat)
    requires i < |es| && forall k :: 0 <= k < |es| && k != i ==> es[k].world != es[i].world
    ensures Others(es, es[i].world) == es[..i] + es[i + 1..]
    decreases |es|
  {
    var rest := es[1..];
    if i == 0 {
      OthersOfAbsent(rest, es[0].world);
      assert es[..0] + rest == rest;
    } else {
      assert rest[i - 1] == es[i];
      RemovesOne(rest, i - 1);
      assert [es[0]] + (rest[..i - 1] + rest[i..]) == es[..i] + es[i + 1..];
    }
  }

  lemma DistinctTail(es: seq<Entry>, i: nat)
    requires DistinctWorlds(es) && i <= |es|
    ensures DistinctWorlds(es[i..])
  {
  }

  lemma RemovalKeeps(before: seq<Entry>, cursor: nat, target: string, after: seq<Entry>)
    requires before != [] && DistinctWorlds(before) && RemovedOldest(before, cursor, target, after)
    ensures Kept(before, after, target) && |after| == |before| - 1
  {
    var v :| v in before && OldestEvictable(SampleAt(before, cursor, target), v) && after == Others(before, v.world);
    var i :| 0 <= i < |before| && before[i] == v;
    RemovesOne(before, i);
    OthersFacts(before, v.world);
    SampleIsFair(before, cursor % |before|, target);
    forall e | e in before && (e.world == target || !Evictable(e)) ensures e in after {
      var j :| 0 <= j < |before| && before[j] == e;
      assert j != i;
    }
  }

  lemma CursorSteppedBack(cursor: nat)
    requires cursor < CURSOR_MODULUS
    ensures ((cursor + SAMPLE_SIZE) % CURSOR_MODULUS + CURSOR_MODULUS - SAMPLE_SIZE) % CURSOR_MODULUS == cursor
  {
  }

  lemma OthersOfNone(target: string)
    ensures Others([], target) == []
  {
  }

  lemma OthersSnoc(es: seq<Entry>, from: nat, i: nat, target: string)
    requires from <= i < |es|
    ensures es[from..i + 1] == es[from..i] + [es[i]]
    ensures Others(es[from..i + 1], target) == Others(es[from..i], target) + (if es[i].world == target then [] else [es[i]])
  {
    assert Others([es[i]], target) == if es[i].world == target then [] else [es[i]];
    hide Others;
    assert es[from..i + 1] == es[from..i] + [es[i]];
    OthersConcat(es[from..i], [es[i]], target);
  }

  /** The scans may stop as soon as the sample is full, or must have covered everything. */
  lemma SampleFromScan(es: seq<Entry>, start: nat, stop: nat, wrapped: nat, target: string)
    requires start <= stop <= |es| && wrapped <= start && (wrapped > 0 ==> stop == |es|)
    ensures var found := Others(es[start..stop], target) + Others(es[0..wrapped], target);
            |found| == SAMPLE_SIZE || (|found| < SAMPLE_SIZE && stop == |es| && wrapped == start)
            ==> found == Sample(es, start, target)
  {
    OthersOfNone(target);
    hide Others;
    var all := Rotate(es, start);
    if wrapped > 0 || stop == |es| {
      assert all == es[start..stop] + (es[0..wrapped] + es[wrapped..start]);
      OthersConcat(es[start..stop], es[0..wrapped] + es[wrapped..start], target);
      OthersConcat(es[0..wrapped], es[wrapped..start], target);
    } else {
      assert all == es[start..stop] + (es[stop..] + es[..start]);
      OthersConcat(es[start..stop], es[stop..] + es[..start], target);
    }
  }

  class ReadCache {
    var entries: seq<Entry>
    var cursor: nat
    var evictions: nat
    const maxEntries: nat

    predicate Valid() reads this { DistinctWorlds(entries) && cursor < CURSOR_MODULUS }

    constructor (maxEntries: nat)
      ensures Valid() && entries == [] && cursor == 0 && evictions == 0 && this.maxEntries == maxEntries
    {
      entries, cursor, evictions, this.maxEntries := [], 0, 0, maxEntries;
    }

    /** The two scans of `try_evict_oldest_sample`: on from the cursor, then the skipped front. */
    method Collect(start: nat, target: string) returns (sample: seq<Entry>)
      requires start < |entries|
      ensures sample == Sample(entries, start, target)
    {
      hide Others;
      OthersOfNone(target);
      sample := [];
      var i := start;
      assert entries[start..start] == [];
      while i < |entries| && |sample| < SAMPLE_SIZE
        invariant start <= i <= |entries|
        invariant sample == Others(entries[start..i], target)
        invariant |sample| <= SAMPLE_SIZE
      {
        OthersSnoc(entries, start, i, target);
        if entries[i].world != target { sample := sample + [entries[i]]; }
        i := i + 1;
      }
      SampleFromScan(entries, start, i, 0, target);
      if |sample| < SAMPLE_SIZE && start > 0 {
        var back := sample;
        i := 0;
        assert entries[0..0] == [];
        while i < start && |sample| < SAMPLE_SIZE
          invariant 0 <= i <= start
          invariant sample == back + Others(entries[0..i], target)
          invariant |sample| <= SAMPLE_SIZE
        {
          OthersSnoc(entries, 0, i, target);
          if entries[i].world != target { sample := sample + [entries[i]]; }
          i := i + 1;
        }
        SampleFromScan(entries, start, |entries|, i, target);
      }
    }

    /** `try_evict_ready_slot` for a slot the table holds: the slot goes only if it is Ready and nobody
        holds its guard. */
    method TryEvictReadySlot(candidate: Entry) returns (evicted: bool)
      requires Valid() && candidate in entries
      modifies `entries
      ensures Valid()
      ensures evicted <==> Evictable(candidate)
      ensures entries == if evicted then Others(old(entries), candidate.world) else old(entries)
    {
      if candidate.guarded { return false; }
      if candidate.state != Ready { return false; }
      OthersFacts(entries, candidate.world);
      entries := Others(entries, candidate.world);
      return true;
    }

    /** `try_evict_oldest_sample`: succeeds exactly when some sampled slot is evictable, and then removes
        one entry, an oldest evictable one of the sample. */
    method TryEvictOldestSample(target: string) returns (evicted: bool)
      requires Valid()
      modifies `entries, `cursor, `evictions
      ensures Valid()
      ensures cursor == (if old(entries) == [] then old(cursor) else (old(cursor) + SAMPLE_SIZE) % CURSOR_MODULUS)
      ensures evicted <==> old(entries) != [] && exists e :: e in SampleAt(old(entries), old(cursor), target) && Evictable(e)
      ensures evicted ==> RemovedOldest(old(entries), old(cursor), target, entries)
      ensures !evicted ==> entries == old(entries)
      ensures evictions == old(evictions) + if evicted then 1 else 0
    {
      hide Others, ByAge, Rotate, Take;
      if |entries| == 0 { return false; }
      var start := cursor % |entries|;
      cursor := (cursor + SAMPLE_SIZE) % CURSOR_MODULUS;
      var sample := Collect(start, target);
      SampleIsFair(entries, start, target);
      ByAgeOrders(sample);
      var candidates := ByAge(sample);
      for i := 0 to |candidates|
        invariant Valid() && entries == old(entries) && evictions == old(evictions)
        invariant cursor == (old(cursor) + SAMPLE_SIZE) % CURSOR_MODULUS
        invariant forall j :: 0 <= j < i ==> !Evictable(candidates[j])
      {
        var victim := candidates[i];
        assert victim in sample && victim in entries;
        var gone := TryEvictReadySlot(victim);
        if gone {
          evictions := evictions + 1;
          FirstEvictableIsOldest(sample, i);
          return true;
        }
      }
      return false;
    }

    /** `best_effort_trim_over_cap`: at most sixteen evictions, none of the target, of a tombstone or of a
        slot in use, and none that would leave the table below its cap. */
    method TrimOverCap(target: string)
      requires Valid()
      modifies `entries, `cursor, `evictions
      ensures Valid()
      ensures Kept(old(entries), entries, target)
      ensures |old(entries)| - |entries| == evictions - old(evictions) <= RETRY_BUDGET
      ensures |old(entries)| <= maxEntries ==> entries == old(entries)
      ensures |old(entries)| > maxEntries ==> |entries| >= maxEntries
      ensures (|entries| <= maxEntries || evictions - old(evictions) == RETRY_BUDGET
               || NothingEvictable(entries, (cursor + CURSOR_MODULUS - SAMPLE_SIZE) % CURSOR_MODULUS, target))
    {
      for i := 0 to RETRY_BUDGET
        invariant Valid()
        invariant Kept(old(entries), entries, target)
        invariant |old(entries)| - |entries| == evictions - old(evictions) == i
        invariant |old(entries)| <= maxEntries ==> i == 0 && entries == old(entries)
        invariant |old(entries)| > maxEntries ==> |entries| >= maxEntries
      {
        if |entries| <= maxEntries { return; }
        ghost var before, at := entries, cursor;
        var evicted := TryEvictOldestSample(target);
        if !evicted {
          CursorSteppedBack(at);
          return;
        }
        RemovalKeeps(before, at, target, entries);
      }
    }

    /** `drain_all_blocking` with no reader inside: every slot is evicted and removed. */
    method DrainAll()
      requires Valid()
      modifies `entries
      ensures Valid() && entries == []
    {
      var slots := entries;
      for i := 0 to |slots|
        invariant Valid()
        invariant entries == slots[i..]
      {
        DistinctTail(entries, 1);
        hide Others;
        RemovesOne(entries, 0);
        assert entries[..0] + entries[1..] == slots[i + 1..];
        entries := Others(entries, slots[i].world);
      }
    }
  }
}
