/** The table of per-world write locks: weak entries, lazy creation, opportunistic sweeping. */
module WorldLocks {

  /** A task that asked for a world's lock holds a strong reference to the mutex it was given, first as a
      waiter and then as the guard's owner. */
  datatype Task = Waiting(world: string, lock: nat) | Holding(world: string, lock: nat)

  /** `table` maps a world to the mutex its weak entry points at; `next` numbers mutexes never made yet. */
  datatype Locks = Locks(table: map<string, nat>, next: nat, tasks: map<nat, Task>)

  datatype Step =
    | GetHandle(t: nat, world: string)
    | Sweep(expired: set<string>)
    | Acquire(t: nat)
    | Release(t: nat)
    | Cancel(t: nat)

  /** Strong count above zero. */
  predicate Alive(s: Locks, lock: nat) { exists t :: t in s.tasks && s.tasks[t].lock == lock }

  predicate Upgrades(s: Locks, world: string) { world in s.table && Alive(s, s.table[world]) }

  predicate Taken(s: Locks, lock: nat) { exists t :: t in s.tasks && s.tasks[t].Holding? && s.tasks[t].lock == lock }

  predicate Enabled(s: Locks, step: Step) {
    match step
    case GetHandle(t, _) => t !in s.tasks
    case Sweep(expired) => forall w :: w in expired ==> w in s.table && !Alive(s, s.table[w])
    case Acquire(t) => t in s.tasks && s.tasks[t].Waiting? && !Taken(s, s.tasks[t].lock)
    case Release(t) => t in s.tasks && s.tasks[t].Holding?
    case Cancel(t) => t in s.tasks && s.tasks[t].Waiting?
  }

  function Apply(s: Locks, step: Step): Locks
    requires Enabled(s, step)
  {
    match step
    case GetHandle(t, w) =>
      if Upgrades(s, w) then s.(tasks := s.tasks[t := Waiting(w, s.table[w])])
      else Locks(s.table[w := s.next], s.next + 1, s.tasks[t := Waiting(w, s.next)])
    case Sweep(expired) => s.(table := s.table - expired)
    case Acquire(t) => s.(tasks := s.tasks[t := Holding(s.tasks[t].world, s.tasks[t].lock)])
    case Release(t) => s.(tasks := s.tasks - {t})
    case Cancel(t) => s.(tasks := s.tasks - {t})
  }

  predicate Init(s: Locks) { s == Locks(map[], 0, map[]) }

  predicate Runs(s: Locks, steps: seq<Step>, t: Locks)
    decreases |steps|
  {
    if steps == [] then s == t else Enabled(s, steps[0]) && Runs(Apply(s, steps[0]), steps[1..], t)
  }

  predicate Clash(a: Task, b: Task) { a.Holding? && b.Holding? && a.lock == b.lock }

  predicate Inv(s: Locks) {
    && (forall t :: t in s.tasks ==> s.tasks[t].world in s.table && s.table[s.tasks[t].world] == s.tasks[t].lock)
    && (forall w :: w in s.table ==> s.table[w] < s.next)
    && (forall v, w :: v in s.table && w in s.table && v != w ==> s.table[v] != s.table[w])
    && (forall t, u :: t in s.tasks && u in s.tasks && Clash(s.tasks[t], s.tasks[u]) ==> t == u)
  }

  lemma NewLockKeepsInv(s: Locks, t: nat, w: string)
    requires Inv(s) && t !in s.tasks && !Upgrades(s, w)
    ensures Inv(Locks(s.table[w := s.next], s.next + 1, s.tasks[t := Waiting(w, s.next)]))
  {
    forall u | u in s.tasks ensures s.tasks[u].world != w {
      if s.tasks[u].world == w { assert Alive(s, s.table[w]); }
    }
  }

  lemma SweepKeepsInv(s: Locks, expired: set<string>)
    requires Inv(s) && Enabled(s, Sweep(expired))
    ensures Inv(Apply(s, Sweep(expired)))
  {
    forall u | u in s.tasks ensures s.tasks[u].world !in expired {
      assert Alive(s, s.tasks[u].lock);
    }
  }

  lemma StepKeepsInv(s: Locks, step: Step)
    requires Inv(s) && Enabled(s, step)
    ensures Inv(Apply(s, step))
  {
    match step
    case GetHandle(t, w) =>
      if !Upgrades(s, w) { NewLockKeepsInv(s, t, w); } else { hide Alive; }
    case Sweep(expired) => SweepKeepsInv(s, expired);
    case Acquire(t) =>
    case Release(t) =>
    case Cancel(t) =>
  }

  lemma {:induction false} RunKeepsInv(s: Locks, steps: seq<Step>, t: Locks)
    requires Inv(s) && Runs(s, steps, t)
    ensures Inv(t)
    decreases |steps|
  {
    if steps != [] {
      StepKeepsInv(s, steps[0]);
      RunKeepsInv(Apply(s, steps[0]), steps[1..], t);
    }
  }

  /** After any run a world has at most one mutex that anybody still references, the table names it, and
      no mutex serves two worlds. */
  lemma OneLiveLockPerWorld(s: Locks, steps: seq<Step>, r: Locks, t: nat, u: nat)
    requires Init(s) && Runs(s, steps, r) && t in r.tasks && u in r.tasks
    ensures r.tasks[t].world in r.table && r.table[r.tasks[t].world] == r.tasks[t].lock
    ensures r.tasks[t].world == r.tasks[u].world <==> r.tasks[t].lock == r.tasks[u].lock
  {
    RunKeepsInv(s, steps, r);
  }

  /** Writers of one world exclude each other. */
  lemma MutualExclusion(s: Locks, steps: seq<Step>, r: Locks, t: nat, u: nat)
    requires Init(s) && Runs(s, steps, r) && t in r.tasks && u in r.tasks
    requires r.tasks[t].Holding? && r.tasks[u].Holding? && r.tasks[t].world == r.tasks[u].world
    ensures t == u
  {
    RunKeepsInv(s, steps, r);
  }

  /** A waiter can go ahead exactly when no task holds the same world: other worlds never block it. */
  lemma BlockedOnlyBySameWorld(s: Locks, steps: seq<Step>, r: Locks, t: nat)
    requires Init(s) && Runs(s, steps, r) && t in r.tasks && r.tasks[t].Waiting?
    ensures Enabled(r, Acquire(t)) <==>
            forall u :: u in r.tasks && r.tasks[u].world == r.tasks[t].world ==> !r.tasks[u].Holding?
  {
    RunKeepsInv(s, steps, r);
    if Taken(r, r.tasks[t].lock) {
      var u :| u in r.tasks && r.tasks[u].Holding? && r.tasks[u].lock == r.tasks[t].lock;
      assert r.tasks[u].world == r.tasks[t].world;
    }
  }

  /** Sweeping never separates a world from a mutex in use: with every entry of unused worlds swept, a new
      request still gets the mutex its holders and waiters have. */
  lemma SweepThenAskSharesLock(s: Locks, steps: seq<Step>, r: Locks, expired: set<string>, t: nat, u: nat)
    requires Init(s) && Runs(s, steps, r) && Enabled(r, Sweep(expired)) && t in r.tasks && u !in r.tasks
    ensures var swept := Apply(r, Sweep(expired));
      Enabled(swept, GetHandle(u, r.tasks[t].world))
      && Apply(swept, GetHandle(u, r.tasks[t].world)).tasks[u] == Waiting(r.tasks[t].world, r.tasks[t].lock)
  {
    RunKeepsInv(s, steps, r);
    assert Alive(r, r.tasks[t].lock);
    var swept := Apply(r, Sweep(expired));
    assert swept.tasks == r.tasks && Alive(swept, r.tasks[t].lock);
  }

  /** A released lock goes to whichever waiter of the world asks next, and to no one else's detriment. */
  lemma ReleaseLetsAWaiterIn(s: Locks, steps: seq<Step>, r: Locks, t: nat, u: nat)
    requires Init(s) && Runs(s, steps, r) && t in r.tasks && u in r.tasks
    requires r.tasks[t].Holding? && r.tasks[u].Waiting? && r.tasks[t].world == r.tasks[u].world
    ensures !Enabled(r, Acquire(u)) && Enabled(Apply(r, Release(t)), Acquire(u))
    ensures var after := Apply(Apply(r, Release(t)), Acquire(u));
      after.tasks == (r.tasks - {t})[u := Holding(r.tasks[u].world, r.tasks[u].lock)] && after.table == r.table
  {
    RunKeepsInv(s, steps, r);
    assert Taken(r, r.tasks[u].lock);
    var freed := Apply(r, Release(t));
    forall v | v in freed.tasks && freed.tasks[v].Holding? ensures freed.tasks[v].lock != r.tasks[u].lock {
      assert v in r.tasks && v != t;
      assert r.tasks[v].lock == r.tasks[t].lock ==> Clash(r.tasks[v], r.tasks[t]);
    }
  }

  /** The table can be swept empty exactly when no task is left: no entry outlives its users for good. */
  lemma SweptEmptyIffUnused(s: Locks, steps: seq<Step>, r: Locks)
    requires Init(s) && Runs(s, steps, r)
    ensures Enabled(r, Sweep(r.table.Keys)) <==> r.tasks == map[]
    ensures r.tasks == map[] ==> Apply(r, Sweep(r.table.Keys)) == Locks(map[], r.next, map[])
  {
    RunKeepsInv(s, steps, r);
    if t :| t in r.tasks { assert Alive(r, r.table[r.tasks[t].world]); }
  }
}
