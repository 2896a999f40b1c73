/** Memory-store calls as they interleave: each holds its world's entry guard, then the quota mutex, then
    changes the entry and only afterwards the counter. */
module MemoryInterleaving {
  import opened Framing
  import opened MapSum

  /** What a call does to its world: store an entry of a given charge, append (only if present), delete. */
  datatype Op = Write(next: nat) | Append(next: nat) | Delete

  datatype Pc =
    | Guarded(world: string, op: Op, previous: Option<nat>)
    | Locked(world: string, op: Op, previous: Option<nat>)
    | Changed(world: string, projected: nat)
    | Finished(accepted: bool)

  datatype Memory = Memory(quota: nat, sizes: map<string, nat>, counter: nat, guards: map<string, nat>,
                           mutex: Option<nat>, pcs: map<nat, Pc>)

  datatype Step = Grab(t: nat, world: string, op: Op) | Lock(t: nat) | Decide(t: nat) | SetCounter(t: nat)

  predicate Enabled(s: Memory, step: Step) {
    match step
    case Grab(t, w, op) => t !in s.pcs && w !in s.guards
    case Lock(t) => t in s.pcs && s.pcs[t].Guarded? && s.mutex.None?
    case Decide(t) => t in s.pcs && s.pcs[t].Locked?
    case SetCounter(t) => t in s.pcs && s.pcs[t].Changed?
  }

  function Lookup(s: Memory, w: string): Option<nat> { if w in s.sizes then Some(s.sizes[w]) else None }

  function Amount(o: Option<nat>): nat { if o.Some? then o.value else 0 }

  function NextSize(op: Op): nat { if op.Delete? then 0 else op.next }

  /** Checked subtraction failing would refuse the call; `Projected` exists when it does not. */
  predicate Underflows(s: Memory, pc: Pc)
    requires pc.Locked?
  {
    s.counter < Amount(pc.previous)
  }

  function Apply(s: Memory, step: Step): Memory
    requires Enabled(s, step)
  {
    match step
    case Grab(t, w, op) =>
      if w !in s.sizes && !op.Write? then s.(pcs := s.pcs[t := Finished(false)])
      else s.(pcs := s.pcs[t := Guarded(w, op, Lookup(s, w))], guards := s.guards[w := t])
    case Lock(t) =>
      var pc := s.pcs[t];
      s.(pcs := s.pcs[t := Locked(pc.world, pc.op, pc.previous)], mutex := Some(t))
    case Decide(t) =>
      var pc := s.pcs[t];
      if Underflows(s, pc) || (!pc.op.Delete? && s.counter - Amount(pc.previous) + pc.op.next > s.quota) then
        s.(pcs := s.pcs[t := Finished(false)], guards := s.guards - {pc.world}, mutex := None)
      else
        s.(pcs := s.pcs[t := Changed(pc.world, s.counter - Amount(pc.previous) + NextSize(pc.op))],
           sizes := if pc.op.Delete? then s.sizes - {pc.world} else s.sizes[pc.world := pc.op.next])
    case SetCounter(t) =>
      var pc := s.pcs[t];
      s.(pcs := s.pcs[t := Finished(true)], counter := pc.projected, guards := s.guards - {pc.world}, mutex := None)
  }

  predicate Init(s: Memory) {
    s.sizes == map[] && s.counter == 0 && s.guards == map[] && s.mutex.None? && s.pcs == map[]
  }

  predicate Runs(s: Memory, steps: seq<Step>, t: Memory)
    decreases |steps|
  {
    if steps == [] then s == t else Enabled(s, steps[0]) && Runs(Apply(s, steps[0]), steps[1..], t)
  }

  /** Each call's own guard, mutex and view of its entry. */
  predicate CallOk(s: Memory, t: nat)
    requires t in s.pcs
  {
    match s.pcs[t]
    case Guarded(w, op, previous) =>
      w in s.guards && s.guards[w] == t && previous == Lookup(s, w) && (!op.Write? ==> previous.Some?) && s.mutex != Some(t)
    case Locked(w, op, previous) =>
      w in s.guards && s.guards[w] == t && previous == Lookup(s, w) && (!op.Write? ==> previous.Some?) && s.mutex == Some(t)
    case Changed(w, projected) => w in s.guards && s.guards[w] == t && s.mutex == Some(t)
    case Finished(_) => s.mutex != Some(t)
  }

  /** Between changing an entry and the counter, the mutex holder carries the right total. */
  ghost predicate Balanced(s: Memory) {
    && s.counter <= s.quota
    && (if s.mutex.Some? && s.mutex.value in s.pcs && s.pcs[s.mutex.value].Changed? then
          s.pcs[s.mutex.value].projected == Sum(s.sizes) <= s.quota
        else
          s.counter == Sum(s.sizes))
  }

  ghost predicate Inv(s: Memory) {
    && (forall t :: t in s.pcs ==> CallOk(s, t))
    && (s.mutex.Some? ==> s.mutex.value in s.pcs)
    && Balanced(s)
  }

  lemma StepKeepsCall(s: Memory, step: Step, u: nat)
    requires Inv(s) && Enabled(s, step) && u in Apply(s, step).pcs
    ensures CallOk(Apply(s, step), u)
  {
    hide Balanced;
    assert u in s.pcs ==> CallOk(s, u);
    assert step.t in s.pcs ==> CallOk(s, step.t);
  }

  lemma StepKeepsBalance(s: Memory, step: Step)
    requires Inv(s) && Enabled(s, step)
    ensures Balanced(Apply(s, step))
  {
    assert step.t in s.pcs ==> CallOk(s, step.t);
    if step.Decide? {
      var pc := s.pcs[step.t];
      SumOfUpdate(s.sizes, pc.world, NextSize(pc.op));
      SumOfRemove(s.sizes, pc.world);
    }
  }

  lemma StepKeepsInv(s: Memory, step: Step)
    requires Inv(s) && Enabled(s, step)
    ensures Inv(Apply(s, step))
  {
    StepKeepsBalance(s, step);
    forall u | u in Apply(s, step).pcs ensures CallOk(Apply(s, step), u) { StepKeepsCall(s, step, u); }
  }

  lemma {:induction false} RunKeepsInv(s: Memory, steps: seq<Step>, t: Memory)
    requires Inv(s) && Runs(s, steps, t)
    ensures Inv(t) && t.quota == s.quota
    decreases |steps|
  {
    if steps != [] {
      StepKeepsInv(s, steps[0]);
      RunKeepsInv(Apply(s, steps[0]), steps[1..], t);
    }
  }

  /** Whenever the quota mutex is free the counter is the sum of the entries' charges and within quota. */
  lemma CounterIsSum(s: Memory, steps: seq<Step>, t: Memory)
    requires Init(s) && Runs(s, steps, t) && t.mutex.None?
    ensures t.counter == Sum(t.sizes) <= t.quota
  {
    assert Sum(s.sizes) == 0;
    RunKeepsInv(s, steps, t);
  }

  /** The underflow branches cannot be taken, so a delete that found its entry always succeeds, and a
      write is refused exactly when the store with its entry replaced would exceed the quota. */
  lemma NeverUnderflows(s: Memory, steps: seq<Step>, t: Memory, c: nat)
    requires Init(s) && Runs(s, steps, t) && c in t.pcs && t.pcs[c].Locked?
    ensures !Underflows(t, t.pcs[c])
    ensures t.pcs[c].op.Delete? ==> Apply(t, Decide(c)).pcs[c].Changed?
    ensures !t.pcs[c].op.Delete? ==> (
      Apply(t, Decide(c)).pcs[c].Changed? <==> Sum(t.sizes[t.pcs[c].world := t.pcs[c].op.next]) <= t.quota)
  {
    assert Sum(s.sizes) == 0;
    RunKeepsInv(s, steps, t);
    assert CallOk(t, c);
    SumOfUpdate(t.sizes, t.pcs[c].world, NextSize(t.pcs[c].op));
  }
}
