/** Durable storage quota: growth is reserved before the storage transaction, credit is published after. */
module StorageQuota {
  import opened Framing
  import opened MapSum

  const USIZE_MAX: nat := 0xFFFF_FFFF_FFFF_FFFF

  function SaturatingSub(a: nat, b: nat): nat { if a < b then 0 else a - b }
  function SaturatingAdd(a: nat, b: nat): nat { if a + b > USIZE_MAX then USIZE_MAX else a + b }

  datatype Reservation = Granted(increase: nat, credit: nat) | Denied(used: nat, quota: nat, projected: nat)

  /** The growth a write publishes at once and the credit it keeps back, for a write that replaces
      `prevLen` bytes, prunes `pruned` and stores `newLen`. */
  function Increase(prevLen: nat, newLen: nat, pruned: nat): nat { SaturatingSub(newLen, prevLen + pruned) }
  function Credit(prevLen: nat, newLen: nat, pruned: nat): nat { SaturatingSub(prevLen + pruned, newLen) }

  /** The counter after publishing growth, if that still fits the quota. */
  function Charged(used: nat, quota: nat, increase: nat): Option<nat> {
    if used + increase <= quota then Some(used + increase) else None
  }

  /** The process-wide counter. */
  class StorageCounter {
    var used: nat
    const quota: nat

    ghost predicate Valid()
      reads this
    {
      used <= USIZE_MAX && quota <= USIZE_MAX
    }

    constructor (used: nat, maxBytes: nat)
      requires used <= USIZE_MAX && maxBytes <= USIZE_MAX
      ensures Valid() && this.used == used && quota == maxBytes
    {
      this.used, quota := used, maxBytes;
    }

    /** `reserve_storage_after_prune`: granted exactly when the grown counter still fits the quota; a
        denial leaves the counter alone. */
    method Reserve(prevLen: nat, newLen: nat, pruned: nat) returns (r: Reservation)
      requires Valid() && prevLen <= USIZE_MAX && newLen <= USIZE_MAX && pruned <= USIZE_MAX
      modifies `used
      ensures Valid()
      ensures r.Granted? <==> prevLen + pruned <= USIZE_MAX && Charged(old(used), quota, Increase(prevLen, newLen, pruned)).Some?
      ensures r.Granted? ==> (
        && r.increase == Increase(prevLen, newLen, pruned) && r.credit == Credit(prevLen, newLen, pruned)
        && r.increase - r.credit == newLen - prevLen - pruned && (r.increase == 0 || r.credit == 0)
        && Some(used) == Charged(old(used), quota, r.increase))
      ensures r.Denied? ==> used == old(used) == r.used && r.quota == quota
      ensures r.Denied? ==> r.projected == (if prevLen + pruned > USIZE_MAX then USIZE_MAX
                                            else SaturatingAdd(old(used), Increase(prevLen, newLen, pruned)))
    {
      if prevLen + pruned > USIZE_MAX { return Denied(used, quota, USIZE_MAX); }
      var predicted := prevLen + pruned;
      var increase, credit := 0, 0;
      if newLen >= predicted { increase := newLen - predicted; } else { credit := predicted - newLen; }
      if used + increase <= USIZE_MAX && used + increase <= quota {
        used := used + increase;
        return Granted(increase, credit);
      }
      return Denied(used, quota, SaturatingAdd(used, increase));
    }

    /** `credit_storage_counter`: what is held is given back in full. */
    method GiveBack(bytes: nat)
      requires Valid()
      modifies `used
      ensures Valid() && used == SaturatingSub(old(used), bytes)
      ensures bytes <= old(used) ==> used + bytes == old(used)
    {
      if bytes != 0 { used := SaturatingSub(used, bytes); }
    }
  }

  // ---- All worlds together ----

  /** A world's accounted bytes and its lock holder's progress: nothing pending, a reservation before the
      storage transaction, or credits still to be published after it. */
  datatype Phase =
    | Quiet
    | Reserved(prevLen: nat, body: nat, candidate: nat, pruned: nat)
    | Settling(credits: seq<nat>)

  datatype Account = Account(usage: nat, phase: Phase)

  datatype Store = Store(quota: nat, used: nat, worlds: map<string, Account>)

  datatype Step =
    | Reserve(world: string, prevLen: nat, body: nat, candidate: nat, pruned: nat)
    | Transact(world: string, inserted: bool, prunedActual: nat)
    | Abort(world: string)
    | Remove(world: string)
    | Publish(world: string)

  function Get(s: Store, w: string): Account { if w in s.worlds then s.worlds[w] else Account(0, Quiet) }

  function Total(credits: seq<nat>): nat { if credits == [] then 0 else credits[0] + Total(credits[1..]) }

  function Grown(p: Phase): nat
    requires p.Reserved?
  {
    Increase(p.prevLen, p.body + p.candidate, p.pruned)
  }

  /** What a world accounts for beyond its committed usage. */
  function Pending(p: Phase): nat {
    match p
    case Quiet => 0
    case Reserved(_, _, _, _) => Grown(p)
    case Settling(credits) => Total(credits)
  }

  /** Usage after the transaction: the old body and the pruned bodies go, the new body stays, and the
      candidate body is kept only if it was not stored already. */
  function UsageAfter(a: Account, inserted: bool, prunedActual: nat): int
    requires a.phase.Reserved?
  {
    a.usage - a.phase.prevLen + a.phase.body + (if inserted then a.phase.candidate else 0) - prunedActual
  }

  /** The credits published after a committed transaction, in order. */
  function Credits(p: Phase, inserted: bool, prunedActual: nat): seq<nat>
    requires p.Reserved?
  {
    [Credit(p.prevLen, p.body + p.candidate, p.pruned)]
    + (if inserted then [] else [p.candidate])
    + [SaturatingSub(prunedActual, p.pruned)]
  }

  /** The replaced body and the predicted pruning are part of the world's own usage, which only the lock
      holder changes. */
  predicate Enabled(s: Store, step: Step) {
    match step
    case Reserve(w, prevLen, body, candidate, pruned) =>
      Get(s, w).phase.Quiet? && prevLen + pruned <= Get(s, w).usage
    case Transact(w, inserted, prunedActual) =>
      Get(s, w).phase.Reserved? && UsageAfter(Get(s, w), inserted, prunedActual) >= 0
    case Abort(w) => Get(s, w).phase.Reserved?
    case Remove(w) => Get(s, w).phase.Quiet?
    case Publish(w) => Get(s, w).phase.Settling?
  }

  function Apply(s: Store, step: Step): Store
    requires Enabled(s, step)
  {
    match step
    case Reserve(w, prevLen, body, candidate, pruned) =>
      var p := Reserved(prevLen, body, candidate, pruned);
      var charged := Charged(s.used, s.quota, Grown(p));
      if charged.Some? then s.(used := charged.value, worlds := s.worlds[w := Account(Get(s, w).usage, p)]) else s
    case Transact(w, inserted, prunedActual) =>
      var a := Get(s, w);
      s.(worlds := s.worlds[w := Account(UsageAfter(a, inserted, prunedActual), Settling(Credits(a.phase, inserted, prunedActual)))])
    case Abort(w) =>
      s.(used := SaturatingSub(s.used, Grown(Get(s, w).phase)), worlds := s.worlds[w := Account(Get(s, w).usage, Quiet)])
    case Remove(w) => s.(worlds := s.worlds[w := Account(0, Settling([Get(s, w).usage]))])
    case Publish(w) =>
      var a := Get(s, w);
      if a.phase.credits == [] then s.(worlds := s.worlds[w := Account(a.usage, Quiet)])
      else s.(used := SaturatingSub(s.used, a.phase.credits[0]),
              worlds := s.worlds[w := Account(a.usage, Settling(a.phase.credits[1..]))])
  }

  /** The transaction prunes no less than was predicted when the growth was reserved. */
  predicate PrunesAsPredicted(s: Store, step: Step) {
    step.Transact? && Get(s, step.world).phase.Reserved? ==> Get(s, step.world).phase.pruned <= step.prunedActual
  }

  predicate Runs(s: Store, steps: seq<Step>, t: Store)
    decreases |steps|
  {
    if steps == [] then s == t else Enabled(s, steps[0]) && Runs(Apply(s, steps[0]), steps[1..], t)
  }

  function Loads(s: Store): map<string, nat> { map w | w in s.worlds :: s.worlds[w].usage + Pending(s.worlds[w].phase) }
  function Usages(s: Store): map<string, nat> { map w | w in s.worlds :: s.worlds[w].usage }

  /** The counter is committed usage plus everything pending. */
  ghost predicate Accounted(s: Store) { s.used == Sum(Loads(s)) }

  /** A transaction moves bytes between usage and credits exactly when it pruned no less than predicted;
      otherwise the counter would end below the true usage. */
  lemma SettlesExactlyIff(a: Account, inserted: bool, prunedActual: nat)
    requires a.phase.Reserved? && a.phase.prevLen + a.phase.pruned <= a.usage
    ensures UsageAfter(a, inserted, prunedActual) + Total(Credits(a.phase, inserted, prunedActual)) == a.usage + Grown(a.phase)
       <==> prunedActual >= a.phase.pruned
  {
    var p := a.phase;
    var first, last := Credit(p.prevLen, p.body + p.candidate, p.pruned), SaturatingSub(prunedActual, p.pruned);
    if inserted {
      TotalOf([first, last]);
    } else {
      TotalOf([first, p.candidate, last]);
    }
  }

  lemma TotalOf(c: seq<nat>)
    requires 2 <= |c| <= 3
    ensures Total(c) == c[0] + c[1] + if |c| == 3 then c[2] else 0
  {
    assert Total(c) == c[0] + Total(c[1..]);
    assert Total(c[1..]) == c[1] + Total(c[1..][1..]);
    if |c| == 3 { assert Total(c[1..][1..]) == c[2] + Total(c[1..][1..][1..]); }
  }

  /** Each world's reservation stays within its own usage while it is pending. */
  predicate Bounded(s: Store) {
    forall w :: w in s.worlds && s.worlds[w].phase.Reserved? ==>
      s.worlds[w].phase.prevLen + s.worlds[w].phase.pruned <= s.worlds[w].usage
  }

  lemma LoadsUpdate(s: Store, w: string, a: Account, used: nat)
    ensures Loads(s.(used := used, worlds := s.worlds[w := a])) == Loads(s)[w := a.usage + Pending(a.phase)]
  {
  }

  /** The counter moves exactly as much as the load of the stepping world, and never below zero. */
  lemma StepMovesLoad(s: Store, step: Step)
    requires Bounded(s) && Enabled(s, step) && PrunesAsPredicted(s, step)
    requires var a := Get(s, step.world); a.usage + Pending(a.phase) <= s.used
    ensures var t, w := Apply(s, step), step.world;
      var a, b := Get(s, w), Get(t, w);
      && t.used - (b.usage + Pending(b.phase)) == s.used - (a.usage + Pending(a.phase))
      && (t == s || t == s.(used := t.used, worlds := s.worlds[w := b]))
      && (b.phase.Reserved? ==> b.phase.prevLen + b.phase.pruned <= b.usage)
    ensures step.Abort? ==> Grown(Get(s, step.world).phase) <= s.used
    ensures step.Publish? && Get(s, step.world).phase.credits != [] ==> Get(s, step.world).phase.credits[0] <= s.used
  {
    var a := Get(s, step.world);
    if step.Transact? {
      SettlesExactlyIff(a, step.inserted, step.prunedActual);
      hide Credits;
    }
    if step.Remove? { assert Total([a.usage]) == a.usage; }
  }

  lemma StepChangesOne(s: Store, step: Step)
    requires Bounded(s) && Enabled(s, step)
    ensures var t, w := Apply(s, step), step.world;
      && (t == s || t == s.(used := t.used, worlds := s.worlds[w := Get(t, w)]))
      && Bounded(t)
  {
    hide Pending, Grown, Credits, UsageAfter;
  }

  lemma ShortPruneMovesMore(s: Store, step: Step)
    requires Bounded(s) && Enabled(s, step) && !PrunesAsPredicted(s, step)
    ensures var t, w := Apply(s, step), step.world;
      var a, b := Get(s, w), Get(t, w);
      t.used == s.used && t != s && b.usage + Pending(b.phase) != a.usage + Pending(a.phase)
  {
    SettlesExactlyIff(Get(s, step.world), step.inserted, step.prunedActual);
    hide Credits, UsageAfter;
  }

  /** No subtraction saturates: what a step gives back is part of what the counter holds. */
  lemma StepKeepsAccounts(s: Store, step: Step)
    requires Accounted(s) && Bounded(s) && Enabled(s, step)
    ensures Bounded(Apply(s, step))
    ensures Accounted(Apply(s, step)) <==> PrunesAsPredicted(s, step)
    ensures step.Abort? ==> Grown(Get(s, step.world).phase) <= s.used
    ensures step.Publish? && Get(s, step.world).phase.credits != [] ==> Get(s, step.world).phase.credits[0] <= s.used
  {
    var t, w := Apply(s, step), step.world;
    var a, b := Get(s, w), Get(t, w);
    SumOfUpdate(Loads(s), w, b.usage + Pending(b.phase));
    LoadsUpdate(s, w, b, t.used);
    StepChangesOne(s, step);
    assert w in s.worlds ==> Loads(s)[w] == a.usage + Pending(a.phase);
    if PrunesAsPredicted(s, step) {
      StepMovesLoad(s, step);
    } else {
      ShortPruneMovesMore(s, step);
    }
    hide Apply, Pending, Grown, Credits, UsageAfter, PrunesAsPredicted, Bounded;
  }

  predicate Legal(s: Store, steps: seq<Step>)
    decreases |steps|
  {
    steps == [] || (Enabled(s, steps[0]) && Legal(Apply(s, steps[0]), steps[1..]))
  }

  /** The states a run passes through, first and last included. */
  function States(s: Store, steps: seq<Step>): seq<Store>
    requires Legal(s, steps)
    decreases |steps|
  {
    if steps == [] then [s] else [s] + States(Apply(s, steps[0]), steps[1..])
  }

  predicate PredictsRight(s: Store, steps: seq<Step>)
    requires Legal(s, steps)
    decreases |steps|
  {
    steps == [] || (PrunesAsPredicted(s, steps[0]) && PredictsRight(Apply(s, steps[0]), steps[1..]))
  }

  ghost predicate AllAccounted(states: seq<Store>) { forall i :: 0 <= i < |states| ==> Accounted(states[i]) }

  /** Throughout a run the counter is committed usage plus everything pending, exactly when no transaction
      of the run prunes less than was predicted. */
  lemma {:induction false} AccountedIffPredictsRight(s: Store, steps: seq<Step>)
    requires Accounted(s) && Bounded(s) && Legal(s, steps)
    ensures AllAccounted(States(s, steps)) <==> PredictsRight(s, steps)
    decreases |steps|
  {
    if steps != [] {
      var t, rest := Apply(s, steps[0]), States(Apply(s, steps[0]), steps[1..]);
      StepKeepsAccounts(s, steps[0]);
      FirstState(t, steps[1..]);
      hide Apply, Accounted, PrunesAsPredicted, Enabled;
      assert States(s, steps) == [s] + rest && States(s, steps)[1] == t;
      if Accounted(t) {
        AccountedIffPredictsRight(t, steps[1..]);
        assert forall i :: 0 < i <= |rest| ==> States(s, steps)[i] == rest[i - 1];
        assert forall i :: 0 <= i < |rest| ==> rest[i] == States(s, steps)[i + 1];
      }
    }
  }

  lemma FirstState(s: Store, steps: seq<Step>)
    requires Legal(s, steps)
    ensures |States(s, steps)| > 0 && States(s, steps)[0] == s
  {
  }

  lemma {:induction false} RunKeepsAccounts(s: Store, steps: seq<Step>, t: Store)
    requires Accounted(s) && Bounded(s) && Runs(s, steps, t) && Legal(s, steps) && PredictsRight(s, steps)
    ensures Accounted(t) && Bounded(t) && t.quota == s.quota
    ensures s.used <= s.quota ==> t.used <= t.quota
    decreases |steps|
  {
    if steps != [] {
      StepKeepsAccounts(s, steps[0]);
      RunKeepsAccounts(Apply(s, steps[0]), steps[1..], t);
    }
  }

  lemma SteadyUsage(s: Store, w: string)
    requires Accounted(s) && Get(s, w).phase.Quiet?
    ensures Get(s, w).usage <= s.used
  {
    if w in s.worlds {
      assert Loads(s)[w] == Get(s, w).usage;
      SumOfUpdate(Loads(s), w, 0);
    }
  }

  /** A store but for one world's account and the counter. */
  function Put(s: Store, used: nat, w: string, a: Account): Store { s.(used := used, worlds := s.worlds[w := a]) }

  lemma PutTwice(s: Store, used: nat, w: string, a: Account, later: nat, b: Account)
    ensures Get(Put(s, used, w, a), w) == a && Put(Put(s, used, w, a), later, w, b) == Put(s, later, w, b)
  {
    assert s.worlds[w := a][w := b] == s.worlds[w := b];
  }

  lemma PublishCredit(s: Store, w: string, credit: nat)
    requires Get(s, w) == Account(0, Settling([credit]))
    ensures Enabled(s, Publish(w)) && Apply(s, Publish(w)) == Put(s, SaturatingSub(s.used, credit), w, Account(0, Settling([])))
  {
    assert [credit][1..] == [];
  }

  lemma PublishEnd(s: Store, w: string)
    requires Get(s, w) == Account(0, Settling([]))
    ensures Enabled(s, Publish(w)) && Apply(s, Publish(w)) == Put(s, s.used, w, Account(0, Quiet))
  {
  }

  lemma RemoveSettles(s: Store, w: string)
    requires Enabled(s, Remove(w))
    ensures Apply(s, Remove(w)) == Put(s, s.used, w, Account(0, Settling([Get(s, w).usage])))
  {
  }

  /** A delete gives back all that the world used: once its credit is published the world accounts for nothing and
      the counter is down by its usage, with every other account as it was. */
  lemma RemoveFreesUsage(s: Store, w: string)
    requires Accounted(s) && Enabled(s, Remove(w))
    ensures Get(s, w).usage <= s.used
    ensures Runs(s, [Remove(w), Publish(w), Publish(w)], Put(s, s.used - Get(s, w).usage, w, Account(0, Quiet)))
  {
    SteadyUsage(s, w);
    var usage := Get(s, w).usage;
    var s1 := Put(s, s.used, w, Account(0, Settling([usage])));
    var s2 := Put(s, s.used - usage, w, Account(0, Settling([])));
    var s3 := Put(s, s.used - usage, w, Account(0, Quiet));
    assert s1.used == s.used && s2.used == s.used - usage;
    hide Apply, Enabled, Runs, Accounted, Put, Get;
    PutTwice(s, s.used, w, Account(0, Settling([usage])), s.used - usage, Account(0, Settling([])));
    PutTwice(s, s.used - usage, w, Account(0, Settling([])), s.used - usage, Account(0, Quiet));
    RemoveSettles(s, w);
    PublishCredit(s1, w, usage);
    PublishEnd(s2, w);
    ThreeSteps(s, Remove(w), s1, Publish(w), s2, Publish(w), s3);
  }

  lemma ThreeSteps(s: Store, a: Step, s1: Store, b: Step, s2: Store, c: Step, s3: Store)
    requires Enabled(s, a) && Apply(s, a) == s1 && Enabled(s1, b) && Apply(s1, b) == s2 && Enabled(s2, c) && Apply(s2, c) == s3
    ensures Runs(s, [a, b, c], s3)
  {
    hide Apply, Enabled;
    assert [a, b, c][1..] == [b, c] && [b, c][1..] == [c] && [c][1..] == [];
    assert Runs(s3, [], s3) && Runs(s2, [c], s3) && Runs(s1, [b, c], s3);
  }

  /** A write that fails before its transaction leaves no trace: dropping the reservation restores the
      counter and every account. */
  lemma AbortUndoesReserve(s: Store, w: string, prevLen: nat, body: nat, candidate: nat, pruned: nat)
    requires Accounted(s) && Bounded(s) && Enabled(s, Reserve(w, prevLen, body, candidate, pruned))
    ensures var held := Apply(s, Reserve(w, prevLen, body, candidate, pruned));
      held != s ==> (
        && Enabled(held, Abort(w)) && Apply(held, Abort(w)).used == s.used
        && forall v :: Get(Apply(held, Abort(w)), v) == Get(s, v))
  {
    var step := Reserve(w, prevLen, body, candidate, pruned);
    StepKeepsAccounts(s, step);
    hide Accounted, Bounded;
  }

  /** How one pending reservation ends. */
  datatype Ending = Commits(inserted: bool, prunedActual: nat) | Drops

  function Ended(a: Account, e: Ending): int {
    if a.phase.Reserved? && e.Commits? then UsageAfter(a, e.inserted, e.prunedActual) else a.usage
  }

  predicate Possible(s: Store, ends: map<string, Ending>) {
    && ends.Keys == s.worlds.Keys
    && forall w :: w in s.worlds && s.worlds[w].phase.Reserved? && ends[w].Commits? ==>
         s.worlds[w].phase.pruned <= ends[w].prunedActual && Ended(s.worlds[w], ends[w]) >= 0
  }

  /** After any run of a store that started within its quota: any subset of the pending reservations may
      commit, with or without new retained bodies, and the rest drop, and total usage fits the quota. */
  lemma EverySubsetFits(s: Store, steps: seq<Step>, t: Store, ends: map<string, Ending>)
    requires Accounted(s) && Bounded(s) && s.used <= s.quota && Runs(s, steps, t) && Possible(t, ends)
    requires Legal(s, steps) && PredictsRight(s, steps)
    ensures forall w :: w in t.worlds ==> Ended(t.worlds[w], ends[w]) >= 0
    ensures Sum(map w | w in t.worlds :: Ended(t.worlds[w], ends[w]) as nat) <= t.quota
    ensures Sum(Usages(t)) <= t.used <= t.quota
  {
    RunKeepsAccounts(s, steps, t);
    var after: map<string, nat> := map w | w in t.worlds :: Ended(t.worlds[w], ends[w]) as nat;
    forall w | w in t.worlds ensures after[w] <= Loads(t)[w] {
      var a := t.worlds[w];
      if a.phase.Reserved? && ends[w].Commits? {
        SettlesExactlyIff(a, ends[w].inserted, ends[w].prunedActual);
      }
    }
    SumMonotone(after, Loads(t));
    SumMonotone(Usages(t), Loads(t));
  }

  /** A store already above its quota refuses every write, even one that would shrink it. */
  lemma OverQuotaRefusesAll(s: Store, w: string, prevLen: nat, body: nat, candidate: nat, pruned: nat)
    requires Enabled(s, Reserve(w, prevLen, body, candidate, pruned))
    ensures Apply(s, Reserve(w, prevLen, body, candidate, pruned)) == s
       <==> s.used + Increase(prevLen, body + candidate, pruned) > s.quota
    ensures s.used > s.quota ==> Apply(s, Reserve(w, prevLen, body, candidate, pruned)) == s
  {
    var t := Apply(s, Reserve(w, prevLen, body, candidate, pruned));
    if Charged(s.used, s.quota, Increase(prevLen, body + candidate, pruned)).Some? {
      assert Get(t, w).phase.Reserved?;
    }
  }
}
