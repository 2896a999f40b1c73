/** Interleaved memory-store calls amount to the same calls one after another. */
module MemoryLinear {
  import Slices
  import opened Framing
  import opened MapSum
  import opened MemoryInterleaving

  /** One call and the caller that made it. */
  datatype Call = Call(t: nat, world: string, op: Op)

  /** What a call does alone: an append or a delete of a missing world is refused, a delete succeeds, and an entry
      is stored exactly when the store with it fits the quota. */
  ghost predicate Accepts(quota: nat, sizes: map<string, nat>, call: Call) {
    match call.op
    case Delete => call.world in sizes
    case Append(next) => call.world in sizes && Sum(sizes[call.world := next]) <= quota
    case Write(next) => Sum(sizes[call.world := next]) <= quota
  }

  ghost function Outcome(quota: nat, sizes: map<string, nat>, call: Call): map<string, nat> {
    if !Accepts(quota, sizes, call) then sizes
    else if call.op.Delete? then sizes - {call.world} else sizes[call.world := call.op.next]
  }

  /** The calls one after another: the entries they leave. */
  ghost function Replayed(quota: nat, sizes: map<string, nat>, calls: seq<Call>): map<string, nat>
    decreases |calls|
  {
    if calls == [] then sizes else Replayed(quota, Outcome(quota, sizes, calls[0]), calls[1..])
  }

  /** The calls one after another: the answer each caller gets. */
  ghost function Answers(quota: nat, sizes: map<string, nat>, calls: seq<Call>, known: map<nat, bool>): map<nat, bool>
    decreases |calls|
  {
    if calls == [] then known
    else Answers(quota, Outcome(quota, sizes, calls[0]), calls[1..], known[calls[0].t := Accepts(quota, sizes, calls[0])])
  }

  /** The call a step decides, if it decides one. */
  function Decides(s: Memory, step: Step): seq<Call>
    requires Enabled(s, step)
  {
    match step
    case Grab(t, w, op) => if w !in s.sizes && !op.Write? then [Call(t, w, op)] else []
    case Decide(t) => [Call(t, s.pcs[t].world, s.pcs[t].op)]
    case _ => []
  }

  /** The calls of a run in the order they are decided. */
  function History(s: Memory, steps: seq<Step>, t: Memory): seq<Call>
    requires Runs(s, steps, t)
    decreases |steps|
  {
    if steps == [] then [] else Decides(s, steps[0]) + History(Apply(s, steps[0]), steps[1..], t)
  }

  /** Who has been told, or is about to be, what the record says. */
  predicate Told(s: Memory, known: map<nat, bool>) {
    forall t :: t in s.pcs ==>
      && (s.pcs[t].Finished? ==> t in known && known[t] == s.pcs[t].accepted)
      && (s.pcs[t].Changed? ==> t in known && known[t])
  }

  lemma DecideIsOutcome(s: Memory, t: nat)
    requires Inv(s) && Enabled(s, Decide(t))
    ensures var call := Call(t, s.pcs[t].world, s.pcs[t].op); var next := Apply(s, Decide(t));
      && next.sizes == Outcome(s.quota, s.sizes, call)
      && (if Accepts(s.quota, s.sizes, call) then next.pcs[t].Changed? else next.pcs[t] == Finished(false))
  {
    var pc := s.pcs[t];
    assert CallOk(s, t);
    SumOfUpdate(s.sizes, pc.world, NextSize(pc.op));
    SumOfRemove(s.sizes, pc.world);
  }

  lemma MissingIsRefused(s: Memory, step: Step)
    requires Enabled(s, step) && step.Grab? && step.world !in s.sizes && !step.op.Write?
    ensures var call := Call(step.t, step.world, step.op);
      && !Accepts(s.quota, s.sizes, call) && Outcome(s.quota, s.sizes, call) == s.sizes
      && Apply(s, step) == s.(pcs := s.pcs[step.t := Finished(false)])
  {
  }

  lemma UndecidedTells(s: Memory, step: Step, known: map<nat, bool>)
    requires Enabled(s, step) && Decides(s, step) == [] && Told(s, known)
    ensures Apply(s, step).sizes == s.sizes && Told(Apply(s, step), known)
  {
  }

  /** A step leaves the entries that the call it decides, if any, would leave alone, and tells its caller so. */
  lemma StepIsSequential(s: Memory, step: Step, known: map<nat, bool>)
    requires Inv(s) && Enabled(s, step) && Told(s, known)
    ensures var next, calls := Apply(s, step), Decides(s, step);
      && next.quota == s.quota && next.sizes == Replayed(s.quota, s.sizes, calls)
      && Told(next, Answers(s.quota, s.sizes, calls, known))
  {
    var calls := Decides(s, step);
    if calls == [] {
      UndecidedTells(s, step, known);
      hide Told, Inv;
    } else {
      OneCall(s.quota, s.sizes, calls[0], known);
      assert calls == [calls[0]];
      if step.Decide? { DecideIsOutcome(s, step.t); } else { MissingIsRefused(s, step); }
      hide Inv, Outcome, Accepts, Replayed, Answers;
    }
  }

  lemma OneCall(quota: nat, sizes: map<string, nat>, call: Call, known: map<nat, bool>)
    ensures Replayed(quota, sizes, [call]) == Outcome(quota, sizes, call)
    ensures Answers(quota, sizes, [call], known) == known[call.t := Accepts(quota, sizes, call)]
  {
    hide Outcome, Accepts;
    assert [call][1..] == [];
  }

  lemma {:induction false} OneAfterAnother(quota: nat, sizes: map<string, nat>, a: seq<Call>, b: seq<Call>, known: map<nat, bool>)
    ensures Replayed(quota, sizes, a + b) == Replayed(quota, Replayed(quota, sizes, a), b)
    ensures Answers(quota, sizes, a + b, known) == Answers(quota, Replayed(quota, sizes, a), b, Answers(quota, sizes, a, known))
    decreases |a|
  {
    hide Outcome, Accepts;
    if a == [] {
      Slices.Empty(b);
    } else {
      Slices.TailOfConcat(a, b);
      OneAfterAnother(quota, Outcome(quota, sizes, a[0]), a[1..], b, known[a[0].t := Accepts(quota, sizes, a[0])]);
    }
  }

  lemma {:induction false} RunIsSequential(s: Memory, steps: seq<Step>, t: Memory, known: map<nat, bool>)
    requires Inv(s) && Runs(s, steps, t) && Told(s, known)
    ensures var calls := History(s, steps, t);
      t.sizes == Replayed(s.quota, s.sizes, calls) && Told(t, Answers(s.quota, s.sizes, calls, known))
    decreases |steps|
  {
    if steps != [] {
      var next := Apply(s, steps[0]);
      var first := Decides(s, steps[0]);
      StepKeepsInv(s, steps[0]);
      StepIsSequential(s, steps[0], known);
      hide Apply, Enabled, Inv, Decides, Told;
      RunIsSequential(next, steps[1..], t, Answers(s.quota, s.sizes, first, known));
      OneAfterAnother(s.quota, s.sizes, first, History(next, steps[1..], t), known);
    }
  }

  /** Over every interleaving: the entries are those the calls leave when made one after another in the order
      they were decided, and every caller that has returned got the answer it gets there. */
  lemma Linearizable(s: Memory, steps: seq<Step>, t: Memory)
    requires Init(s) && Runs(s, steps, t)
    ensures var calls := History(s, steps, t);
      && t.sizes == Replayed(s.quota, map[], calls)
      && forall c :: c in t.pcs && t.pcs[c].Finished? ==>
           c in Answers(s.quota, map[], calls, map[]) && Answers(s.quota, map[], calls, map[])[c] == t.pcs[c].accepted
  {
    assert Sum(s.sizes) == 0;
    RunIsSequential(s, steps, t, map[]);
    hide Runs, History, Answers;
  }
}
