/** The shutdown gate: file operations take counted permits, shutdown waits for the last one. Every
    atomic access and every mutex section is a step of its own. */
module FileOpGate {

  const USIZE_MAX: nat := 0xFFFF_FFFF_FFFF_FFFF

  /** Where one caller is: in `begin`, holding its permit, dropping it, or in `shutdown_and_wait` and the
      handle draining after it. */
  datatype Pc =
    | Checked            // first flag load was false
    | BeginLocked        // holds the mutex, second load to come
    | Admitted           // second load was false, count not raised yet
    | Refused
    | Holding
    | DropStarted
    | DropLocked
    | Dropped
    | Flagged            // shutdown flag stored
    | ShutLocked         // holds the mutex, about to look at the count
    | Parked             // waiting on the condition variable, mutex released
    | Woken
    | Draining
    | Drained

  datatype Gate = Gate(shuttingDown: bool, active: nat, owner: Owner, pcs: map<nat, Pc>)
  datatype Owner = Free | HeldBy(who: nat)

  datatype Step =
    | BeginLoad(t: nat)
    | BeginLock(t: nat)
    | BeginReload(t: nat)
    | Admit(t: nat)
    | StartDrop(t: nat)
    | DropLock(t: nat)
    | DropDone(t: nat)
    | StoreFlag(t: nat)
    | ShutLock(t: nat)
    | TestCount(t: nat)
    | SpuriousWake(t: nat)
    | FinishDrain(t: nat)

  predicate At(g: Gate, t: nat, pc: Pc) { t in g.pcs && g.pcs[t] == pc }

  predicate Enabled(g: Gate, step: Step) {
    match step
    case BeginLoad(t) => t !in g.pcs
    case BeginLock(t) => At(g, t, Checked) && g.owner.Free?
    case BeginReload(t) => At(g, t, BeginLocked)
    case Admit(t) => At(g, t, Admitted)
    case StartDrop(t) => At(g, t, Holding)
    case DropLock(t) => At(g, t, DropStarted) && g.owner.Free?
    case DropDone(t) => At(g, t, DropLocked)
    case StoreFlag(t) => t !in g.pcs
    case ShutLock(t) => (At(g, t, Flagged) || At(g, t, Woken)) && g.owner.Free?
    case TestCount(t) => At(g, t, ShutLocked)
    case SpuriousWake(t) => At(g, t, Parked)
    case FinishDrain(t) => At(g, t, Draining)
  }

  function SaturatingInc(n: nat): nat { if n >= USIZE_MAX then USIZE_MAX else n + 1 }
  function SaturatingDec(n: nat): nat { if n == 0 then 0 else n - 1 }

  function NotifyAll(pcs: map<nat, Pc>): map<nat, Pc> {
    map t | t in pcs :: if pcs[t] == Parked then Woken else pcs[t]
  }

  function Apply(g: Gate, step: Step): Gate
    requires Enabled(g, step)
  {
    match step
    case BeginLoad(t) => g.(pcs := g.pcs[t := if g.shuttingDown then Refused else Checked])
    case BeginLock(t) => g.(pcs := g.pcs[t := BeginLocked], owner := HeldBy(t))
    case BeginReload(t) =>
      if g.shuttingDown then g.(pcs := g.pcs[t := Refused], owner := Free) else g.(pcs := g.pcs[t := Admitted])
    case Admit(t) => g.(pcs := g.pcs[t := Holding], active := SaturatingInc(g.active), owner := Free)
    case StartDrop(t) => g.(pcs := g.pcs[t := DropStarted])
    case DropLock(t) => g.(pcs := g.pcs[t := DropLocked], owner := HeldBy(t))
    case DropDone(t) =>
      var left := SaturatingDec(g.active);
      var pcs := g.pcs[t := Dropped];
      g.(pcs := if left == 0 then NotifyAll(pcs) else pcs, active := left, owner := Free)
    case StoreFlag(t) => g.(pcs := g.pcs[t := Flagged], shuttingDown := true)
    case ShutLock(t) => g.(pcs := g.pcs[t := ShutLocked], owner := HeldBy(t))
    case TestCount(t) => g.(pcs := g.pcs[t := if g.active == 0 then Draining else Parked], owner := Free)
    case SpuriousWake(t) => g.(pcs := g.pcs[t := Woken])
    case FinishDrain(t) => g.(pcs := g.pcs[t := Drained])
  }

  predicate Init(g: Gate) { g == Gate(false, 0, Free, map[]) }

  /** A permit exists from the moment the count is raised until it is lowered again. */
  predicate HasPermit(pc: Pc) { pc.Holding? || pc.DropStarted? || pc.DropLocked? }
  predicate InMutex(pc: Pc) { pc.BeginLocked? || pc.Admitted? || pc.DropLocked? || pc.ShutLocked? }
  predicate InShutdown(pc: Pc) { pc.Flagged? || pc.ShutLocked? || pc.Parked? || pc.Woken? || pc.Draining? || pc.Drained? }
  predicate Past(pc: Pc) { pc.Draining? || pc.Drained? }

  function Permits(g: Gate): set<nat> { set t | t in g.pcs && HasPermit(g.pcs[t]) }

  /** What one caller's position says about the shared state. */
  predicate CallerOk(g: Gate, t: nat)
    requires t in g.pcs
  {
    && (InMutex(g.pcs[t]) <==> g.owner == HeldBy(t))
    && (InShutdown(g.pcs[t]) ==> g.shuttingDown)
    && (g.pcs[t] == Parked ==> g.active > 0)
    && (Past(g.pcs[t]) ==> g.active == 0 && forall u :: u in g.pcs ==> g.pcs[u] != Admitted)
  }

  predicate Inv(g: Gate) {
    && (forall t :: t in g.pcs ==> CallerOk(g, t))
    && (g.owner.HeldBy? ==> g.owner.who in g.pcs)
    && g.active == |Permits(g)|
  }

  lemma PermitsSame(g: Gate, h: Gate)
    requires forall t :: (t in g.pcs && HasPermit(g.pcs[t])) <==> (t in h.pcs && HasPermit(h.pcs[t]))
    ensures Permits(h) == Permits(g)
  {
  }

  lemma AdmitCounts(g: Gate, t: nat)
    requires Inv(g) && Enabled(g, Admit(t)) && |Permits(Apply(g, Admit(t)))| <= USIZE_MAX
    ensures Apply(g, Admit(t)).active == |Permits(Apply(g, Admit(t)))|
  {
    var h := Apply(g, Admit(t));
    assert Permits(h) == Permits(g) + {t} && t !in Permits(g);
  }

  lemma DropCounts(g: Gate, t: nat)
    requires Inv(g) && Enabled(g, DropDone(t))
    ensures Apply(g, DropDone(t)).active == |Permits(Apply(g, DropDone(t)))|
  {
    var h := Apply(g, DropDone(t));
    assert Permits(h) == Permits(g) - {t} && t in Permits(g);
  }

  /** The count follows the permits, as long as there is room to count one more. */
  lemma StepCounts(g: Gate, step: Step)
    requires Inv(g) && Enabled(g, step) && |Permits(Apply(g, step))| <= USIZE_MAX
    ensures Apply(g, step).active == |Permits(Apply(g, step))|
  {
    match step
    case Admit(t) => AdmitCounts(g, t);
    case DropDone(t) => DropCounts(g, t);
    case _ =>
      hide CallerOk, Permits;
      PermitsSame(g, Apply(g, step));
  }

  lemma StepKeepsCaller(g: Gate, step: Step, u: nat)
    requires Inv(g) && Enabled(g, step) && u in Apply(g, step).pcs && |Permits(Apply(g, step))| <= USIZE_MAX
    ensures CallerOk(Apply(g, step), u)
  {
    var h := Apply(g, step);
    assert step.t in g.pcs ==> CallerOk(g, step.t);
    assert u in g.pcs ==> CallerOk(g, u);
    if Past(h.pcs[u]) { PastStays(g, step, u); }
    if step.DropDone? {
      assert step.t in Permits(g);
    }
  }

  lemma PastStays(g: Gate, step: Step, u: nat)
    requires Inv(g) && Enabled(g, step) && u in Apply(g, step).pcs && Past(Apply(g, step).pcs[u])
    ensures Apply(g, step).active == 0 && forall v :: v in Apply(g, step).pcs ==> Apply(g, step).pcs[v] != Admitted
  {
    var h := Apply(g, step);
    forall v | v in h.pcs ensures h.pcs[v] != Admitted && h.active == 0 {
      assert u in g.pcs && CallerOk(g, u) && g.shuttingDown;
      assert v in g.pcs ==> CallerOk(g, v);
    }
  }

  lemma StepKeepsInv(g: Gate, step: Step)
    requires Inv(g) && Enabled(g, step) && |Permits(Apply(g, step))| <= USIZE_MAX
    ensures Inv(Apply(g, step))
  {
    StepCounts(g, step);
    forall u | u in Apply(g, step).pcs ensures CallerOk(Apply(g, step), u) { StepKeepsCaller(g, step, u); }
  }

  /** The states a run passes through, first and last included. */
  function States(g: Gate, steps: seq<Step>): seq<Gate>
    decreases |steps|
  {
    if steps == [] || !Enabled(g, steps[0]) then [g] else [g] + States(Apply(g, steps[0]), steps[1..])
  }

  predicate Legal(g: Gate, steps: seq<Step>)
    decreases |steps|
  {
    steps == [] || (Enabled(g, steps[0]) && Legal(Apply(g, steps[0]), steps[1..]))
  }

  predicate Roomy(states: seq<Gate>) { forall i :: 0 <= i < |states| ==> |Permits(states[i])| <= USIZE_MAX }

  lemma {:induction false} RunKeepsInv(g: Gate, steps: seq<Step>)
    requires Inv(g) && Legal(g, steps) && Roomy(States(g, steps))
    ensures forall i :: 0 <= i < |States(g, steps)| ==> Inv(States(g, steps)[i])
    decreases |steps|
  {
    if steps != [] {
      var h, rest := Apply(g, steps[0]), States(Apply(g, steps[0]), steps[1..]);
      assert States(g, steps) == [g] + rest;
      assert rest[0] == h && States(g, steps)[1] == h;
      StepKeepsInv(g, steps[0]);
      assert forall i :: 0 <= i < |rest| ==> rest[i] == States(g, steps)[i + 1];
      RunKeepsInv(h, steps[1..]);
    }
  }

  lemma {:induction false} ActiveFits(g: Gate, steps: seq<Step>)
    requires g.active <= USIZE_MAX && Legal(g, steps)
    ensures forall i :: 0 <= i < |States(g, steps)| ==> States(g, steps)[i].active <= USIZE_MAX
    decreases |steps|
  {
    if steps != [] { ActiveFits(Apply(g, steps[0]), steps[1..]); }
  }

  /** The counter equals the number of live permits throughout a run exactly when there are never more
      permits than a `usize` can count: past that the saturating addition loses one. */
  lemma CountsPermitsIff(steps: seq<Step>)
    requires Legal(Gate(false, 0, Free, map[]), steps)
    ensures var states := States(Gate(false, 0, Free, map[]), steps);
      (forall i :: 0 <= i < |states| ==> states[i].active == |Permits(states[i])|) <==> Roomy(states)
  {
    var g := Gate(false, 0, Free, map[]);
    assert Permits(g) == {};
    ActiveFits(g, steps);
    if Roomy(States(g, steps)) { RunKeepsInv(g, steps); }
  }

  /** Once some `shutdown_and_wait` has returned, no permit exists, in that state or any later one, so the
      draining of file handles never overlaps a file operation. */
  lemma DrainNeverOverlaps(steps: seq<Step>, i: nat, t: nat)
    requires var states := States(Gate(false, 0, Free, map[]), steps);
      Legal(Gate(false, 0, Free, map[]), steps) && Roomy(states)
      && i < |states| && t in states[i].pcs && Past(states[i].pcs[t])
    ensures var states := States(Gate(false, 0, Free, map[]), steps);
      forall j :: i <= j < |states| ==> Permits(states[j]) == {} && t in states[j].pcs && Past(states[j].pcs[t])
  {
    var g := Gate(false, 0, Free, map[]);
    var states := States(g, steps);
    assert Permits(g) == {};
    RunKeepsInv(g, steps);
    PastForGood(g, steps, i, t);
    forall j | i <= j < |states| ensures Permits(states[j]) == {} {
      assert Inv(states[j]) && CallerOk(states[j], t);
    }
  }

  lemma {:induction false} PastForGood(g: Gate, steps: seq<Step>, i: nat, t: nat)
    requires Legal(g, steps) && i < |States(g, steps)| && t in States(g, steps)[i].pcs && Past(States(g, steps)[i].pcs[t])
    ensures forall j :: i <= j < |States(g, steps)| ==> t in States(g, steps)[j].pcs && Past(States(g, steps)[j].pcs[t])
    decreases |steps|
  {
    if steps != [] {
      var h, rest := Apply(g, steps[0]), States(Apply(g, steps[0]), steps[1..]);
      assert States(g, steps) == [g] + rest && rest[0] == h;
      if i > 0 {
        PastForGood(h, steps[1..], i - 1, t);
      } else {
        assert t in h.pcs && Past(h.pcs[t]);
        PastForGood(h, steps[1..], 0, t);
      }
    }
  }

  /** No lost wake-up: a shutdown still parked on the condition variable is waiting for a live permit. */
  lemma ParkedWaitsForAPermit(steps: seq<Step>, i: nat, t: nat)
    requires var states := States(Gate(false, 0, Free, map[]), steps);
      Legal(Gate(false, 0, Free, map[]), steps) && Roomy(states) && i < |states| && At(states[i], t, Parked)
    ensures Permits(States(Gate(false, 0, Free, map[]), steps)[i]) != {}
  {
    var g := Gate(false, 0, Free, map[]);
    assert Permits(g) == {};
    RunKeepsInv(g, steps);
    assert CallerOk(States(g, steps)[i], t);
  }

  // ---- Who is admitted ----

  predicate StoredBefore(steps: seq<Step>, i: nat) { exists j :: 0 <= j < i && j < |steps| && steps[j].StoreFlag? }

  lemma {:induction false} FlagIffStored(g: Gate, steps: seq<Step>, i: nat)
    requires Legal(g, steps) && i <= |steps|
    ensures |States(g, steps)| == |steps| + 1
    ensures States(g, steps)[i].shuttingDown <==> g.shuttingDown || StoredBefore(steps, i)
    decreases |steps|
  {
    if steps != [] {
      var h, rest := Apply(g, steps[0]), steps[1..];
      FlagIffStored(h, rest, if i > 0 then i - 1 else 0);
      if i > 0 {
        if StoredBefore(rest, i - 1) {
          var j :| 0 <= j < i - 1 && j < |rest| && rest[j].StoreFlag?;
          assert steps[j + 1].StoreFlag?;
        }
        if StoredBefore(steps, i) {
          var j :| 0 <= j < i && j < |steps| && steps[j].StoreFlag?;
          if j > 0 { assert rest[j - 1].StoreFlag?; }
        }
      }
    }
  }

  lemma {:induction false} NextState(g: Gate, steps: seq<Step>, i: nat)
    requires Legal(g, steps) && i < |steps|
    ensures |States(g, steps)| == |steps| + 1
    ensures Enabled(States(g, steps)[i], steps[i]) && States(g, steps)[i + 1] == Apply(States(g, steps)[i], steps[i])
    decreases |steps|
  {
    var h, rest := Apply(g, steps[0]), steps[1..];
    if rest == [] {
      assert States(g, steps) == [g, h];
    } else {
      NextState(h, rest, if i > 0 then i - 1 else 0);
      assert States(g, steps) == [g] + States(h, rest);
      assert States(h, rest)[0] == h;
    }
  }

  /** A caller of `begin` is refused at a load of the flag exactly when some shutdown stored it before that
      load; otherwise it goes on, and past the second load it gets its permit. */
  lemma RefusedIffFlagStored(steps: seq<Step>, i: nat)
    requires Legal(Gate(false, 0, Free, map[]), steps) && i < |steps|
    ensures var states := States(Gate(false, 0, Free, map[]), steps);
      && |states| == |steps| + 1
      && (steps[i].BeginLoad? ==> (At(states[i + 1], steps[i].t, Refused) <==> StoredBefore(steps, i)))
      && (steps[i].BeginLoad? ==> (At(states[i + 1], steps[i].t, Checked) <==> !StoredBefore(steps, i)))
      && (steps[i].BeginReload? ==> (At(states[i + 1], steps[i].t, Refused) <==> StoredBefore(steps, i)))
      && (steps[i].BeginReload? ==> (At(states[i + 1], steps[i].t, Admitted) <==> !StoredBefore(steps, i)))
      && (steps[i].Admit? ==> At(states[i], steps[i].t, Admitted) && steps[i].t in Permits(states[i + 1]))
  {
    var g := Gate(false, 0, Free, map[]);
    FlagIffStored(g, steps, i);
    NextState(g, steps, i);
    hide States, StoredBefore;
  }
}
