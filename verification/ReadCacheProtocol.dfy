/** The read-cache slot protocol: readers, openers, evictors, deletes and writes over one slot table,
    at the granularity of map operations and guard acquisitions. */
module ReadCacheProtocol {
  import Slices

  datatype SlotState = Opening(owner: nat) | Ready | Evicted | Tombstone

  /** A slot on the heap. `stone` marks the slots a delete created as tombstones. */
  datatype Slot = Slot(world: string, state: SlotState, stone: bool)

  /** What one thread is doing. Holding an `Arc` keeps the slot alive; `Reading` is a read guard over a
      Ready slot, `Opener` a write guard over an Opening one. `own` is a transient reader's own slot. */
  datatype Thread =
    | Idle
    | Holding(slot: nat, own: bool)
    | Reading(slot: nat, own: bool)
    | Opener(slot: nat, own: bool)
    | Drainer(slot: nat, own: bool)
    | Remover(slot: nat)
    | Displacer(world: string, prev: nat, tomb: nat)
    | Window(world: string, tomb: nat)

  /** Two histories ride along: `displaced` maps a slot a delete has put out of the table to the thread
      that is waiting to drain it, and `orphans` collects the slots a write's `clear_tombstone` took
      out of the table undrained. */
  datatype Cache = Cache(
    slots: map<nat, Slot>, table: map<string, nat>, threads: map<nat, Thread>,
    displaced: map<nat, nat>, orphans: set<nat>)

  predicate HasFd(s: Slot) { s.state == Ready || s.state.Opening? }

  predicate Refers(th: Thread, s: nat) {
    match th
    case Idle => false
    case Displacer(_, prev, tomb) => s == prev || s == tomb
    case Window(_, tomb) => s == tomb
    case Remover(slot) => s == slot
    case Holding(slot, _) => s == slot
    case Reading(slot, _) => s == slot
    case Opener(slot, _) => s == slot
    case Drainer(slot, _) => s == slot
  }

  /** Write guard free: nobody reads through the slot and nobody is opening it. */
  predicate Unguarded(c: Cache, s: nat) {
    forall t :: t in c.threads ==> !((c.threads[t].Reading? || c.threads[t].Opener?) && c.threads[t].slot == s)
  }

  /** Read guard free: nobody is opening it. */
  predicate NotOpening(c: Cache, s: nat) {
    forall t :: t in c.threads ==> !(c.threads[t].Opener? && c.threads[t].slot == s)
  }

  predicate IsDelete(th: Thread) { th.Displacer? || th.Window? }

  predicate Deleting(th: Thread, w: string) { IsDelete(th) && th.world == w }

  /** The per-world lock: a delete holds it from before the install until after the clear. */
  predicate LockFree(c: Cache, w: string) { forall t :: t in c.threads ==> !Deleting(c.threads[t], w) }

  // ---- Steps --------------------------------------------------------------------------------

  datatype Step =
    | Get(t: nat, w: string)
    | Open(t: nat, w: string, id: nat, own: bool)
    | Promote(t: nat)
    | FailOpen(t: nat)
    | Probe(t: nat)
    | EndRead(t: nat)
    | Choose(t: nat)
    | TryEvict(t: nat)
    | DrainOwn(t: nat)
    | RemoveSame(t: nat)
    | Install(t: nat, w: string, id: nat)
    | Displace(t: nat)
    | Clear(t: nat)
    | WriteClear(w: string)

  predicate Enabled(c: Cache, st: Step) {
    if st.WriteClear? then LockFree(c, st.w)
    else st.t in c.threads && EnabledIn(c, c.threads[st.t], st)
  }

  predicate EnabledIn(c: Cache, th: Thread, st: Step)
    requires !st.WriteClear?
  {
    match st
    case Get(t, w) => th.Idle? && w in c.table
    case Open(t, w, id, own) => th.Idle? && w !in c.table && id !in c.slots
    case Promote(t) => th.Opener?
    case FailOpen(t) => th.Opener?
    case Probe(t) => th.Holding? && NotOpening(c, th.slot)
    case EndRead(t) => th.Reading?
    case Choose(t) => th.Holding? && !th.own
    case TryEvict(t) => th.Drainer? && !th.own
    case DrainOwn(t) => th.Drainer? && th.own && Unguarded(c, th.slot)
    case RemoveSame(t) => th.Remover?
    case Install(t, w, id) => th.Idle? && id !in c.slots && LockFree(c, w)
    case Displace(t) => th.Displacer? && Unguarded(c, th.prev)
    case Clear(t) => th.Window?
  }

  function SetState(c: Cache, s: nat, state: SlotState): Cache {
    if s in c.slots then c.(slots := c.slots[s := c.slots[s].(state := state)]) else c
  }

  function SetThread(c: Cache, t: nat, th: Thread): Cache { c.(threads := c.threads[t := th]) }

  /** `remove_if` under `Arc` identity: the entry goes only if it is this very slot. */
  function RemoveIfSame(c: Cache, s: nat): Cache {
    if s in c.slots && InTable(c, s) then c.(table := c.table - {c.slots[s].world}) else c
  }

  // ---- Invariant ----------------------------------------------------------------------------

  predicate InTable(c: Cache, s: nat)
    requires s in c.slots
  {
    c.slots[s].world in c.table && c.table[c.slots[s].world] == s
  }

  /** The tombstone of a running delete is in the table and stays a tombstone. */
  predicate TombInPlace(c: Cache, w: string, tomb: nat) {
    tomb in c.slots && c.slots[tomb] == Slot(w, Tombstone, true) && w in c.table && c.table[w] == tomb
  }

  predicate ThreadOk(c: Cache, t: nat)
    requires t in c.threads
  {
    match c.threads[t]
    case Idle => true
    case Reading(s, own) => s in c.slots && c.slots[s].state == Ready
    case Opener(s, own) => s in c.slots && c.slots[s].state == Opening(t)
    case Remover(s) => s in c.slots && !HasFd(c.slots[s]) && !c.slots[s].stone
    case Holding(s, own) => s in c.slots && (own ==> !c.slots[s].stone && !c.slots[s].state.Opening?)
    case Drainer(s, own) => s in c.slots && (own ==> !c.slots[s].stone && !c.slots[s].state.Opening?)
    case Displacer(w, prev, tomb) =>
      TombInPlace(c, w, tomb) && prev in c.slots && c.slots[prev].world == w && prev != tomb
      && prev in c.displaced && c.displaced[prev] == t
    case Window(w, tomb) => TombInPlace(c, w, tomb)
  }

  /** A slot that has, or is about to have, a file handle is reachable: through the table, through the
      delete displacing it, or it was orphaned. */
  predicate FdAccounted(c: Cache, s: nat)
    requires s in c.slots
  {
    HasFd(c.slots[s]) ==>
      || InTable(c, s)
      || (s in c.displaced && c.displaced[s] in c.threads && c.threads[c.displaced[s]].Displacer?
          && c.threads[c.displaced[s]].prev == s)
      || s in c.orphans
  }

  predicate SlotOk(c: Cache, s: nat)
    requires s in c.slots
  {
    var slot := c.slots[s];
    && FdAccounted(c, s)
    && (slot.stone ==> slot.state == Tombstone)
    && (slot.state.Opening? ==> slot.state.owner in c.threads && c.threads[slot.state.owner].Opener?
                                && c.threads[slot.state.owner].slot == s)
  }

  predicate TableOk(c: Cache, w: string)
    requires w in c.table
  {
    c.table[w] in c.slots && c.slots[c.table[w]].world == w
  }

  ghost predicate Inv(c: Cache) {
    && (forall t :: t in c.threads ==> ThreadOk(c, t))
    && (forall s :: s in c.slots ==> SlotOk(c, s))
    && (forall w :: w in c.table ==> TableOk(c, w))
    && (forall t, u :: t in c.threads && u in c.threads && t != u ==> ApartAsDeletes(c.threads[t], c.threads[u]))
    && (forall s :: s in c.displaced ==> s in c.slots)
    && (forall s :: s in c.orphans ==> s in c.slots && !InTable(c, s))
  }

  function Apply(c: Cache, st: Step): Cache
    requires Enabled(c, st)
  {
    if st.WriteClear? then
      if st.w !in c.table then c
      else
        var s := c.table[st.w];
        var loses := s in c.slots && HasFd(c.slots[s]);
        c.(table := c.table - {st.w}, orphans := if loses then c.orphans + {s} else c.orphans)
    else
      var th := c.threads[st.t];
      match st
      case Get(t, w) => SetThread(c, t, Holding(c.table[w], false))
      case Open(t, w, id, own) =>
        SetThread(c.(slots := c.slots[id := Slot(w, Opening(t), false)], table := c.table[w := id]),
                  t, Opener(id, own))
      case Promote(t) => SetThread(SetState(c, th.slot, Ready), t, Holding(th.slot, th.own))
      case FailOpen(t) => SetThread(SetState(c, th.slot, Evicted), t, Remover(th.slot))
      case Probe(t) =>
        if th.slot !in c.slots then SetThread(c, t, Idle) else
        SetThread(c, t, match c.slots[th.slot].state
                        case Ready => Reading(th.slot, th.own)
                        case Tombstone => Idle
                        case Opening(_) => Idle
                        case Evicted => Remover(th.slot))
      case EndRead(t) => SetThread(c, t, if th.own then Drainer(th.slot, true) else Idle)
      case Choose(t) => SetThread(c, t, Drainer(th.slot, false))
      case TryEvict(t) =>
        if Unguarded(c, th.slot) && th.slot in c.slots && c.slots[th.slot].state == Ready
        then SetThread(SetState(c, th.slot, Evicted), t, Remover(th.slot))
        else SetThread(c, t, Idle)
      case DrainOwn(t) => SetThread(SetState(c, th.slot, Evicted), t, Remover(th.slot))
      case RemoveSame(t) => SetThread(RemoveIfSame(c, th.slot), t, Idle)
      case Install(t, w, id) =>
        var next := c.(slots := c.slots[id := Slot(w, Tombstone, true)], table := c.table[w := id]);
        if w in c.table
        then SetThread(next.(displaced := c.displaced[c.table[w] := t]), t, Displacer(w, c.table[w], id))
        else SetThread(next, t, Window(w, id))
      case Displace(t) =>
        SetThread(SetState(c, th.prev, Tombstone).(displaced := c.displaced - {th.prev}), t, Window(th.world, th.tomb))
      case Clear(t) => SetThread(c.(table := c.table - {th.world}), t, Idle)
  }

  // ---- Every step keeps the invariant -------------------------------------------------------

  /** The thread that takes the step, when there is one, meets its part of the invariant. */
  predicate ActorOk(c: Cache, st: Step) { st.WriteClear? || (st.t in c.threads && ThreadOk(c, st.t)) }

  predicate ApartAsDeletes(a: Thread, b: Thread) { IsDelete(a) && IsDelete(b) ==> a.world != b.world }

  lemma StepKeepsTable(c: Cache, st: Step, w: string)
    requires Enabled(c, st) && ActorOk(c, st) && (w in c.table ==> TableOk(c, w)) && w in Apply(c, st).table
    ensures TableOk(Apply(c, st), w)
  {
    hide Unguarded, NotOpening, LockFree;
  }

  lemma StepKeepsOneDelete(c: Cache, st: Step, t: nat, u: nat)
    requires Enabled(c, st) && t in c.threads && u in c.threads && t != u
    requires ApartAsDeletes(c.threads[t], c.threads[u])
    ensures Apply(c, st).threads.Keys == c.threads.Keys
    ensures ApartAsDeletes(Apply(c, st).threads[t], Apply(c, st).threads[u])
  {
    hide Unguarded, NotOpening;
  }

  lemma StepKeepsOwnThread(c: Cache, st: Step)
    requires Enabled(c, st) && !st.WriteClear? && ThreadOk(c, st.t)
    requires var th := c.threads[st.t]; (th.Holding? || th.Opener? || th.Drainer? || th.Reading?) ==> SlotOk(c, th.slot)
    requires (st.Get? || st.Install?) && st.w in c.table ==> TableOk(c, st.w)
    ensures st.t in Apply(c, st).threads && ThreadOk(Apply(c, st), st.t)
  {
    hide Unguarded, LockFree, FdAccounted;
  }

  predicate ReaderStep(st: Step) { st.Get? || st.Open? || st.Promote? || st.FailOpen? || st.Probe? || st.EndRead? || st.Choose? }

  predicate DrainStep(st: Step) { st.TryEvict? || st.DrainOwn? || st.RemoveSame? }

  predicate DeleteStep(st: Step) { st.Install? || st.Displace? || st.Clear? || st.WriteClear? }

  lemma ReaderStepKeepsThread(c: Cache, st: Step, u: nat)
    requires ReaderStep(st) && Enabled(c, st) && ActorOk(c, st) && u in c.threads && u != st.t && ThreadOk(c, u)
    ensures Apply(c, st).threads.Keys == c.threads.Keys && ThreadOk(Apply(c, st), u)
  {
    hide NotOpening;
  }

  lemma ReaderStepKeepsSlot(c: Cache, st: Step, s: nat)
    requires ReaderStep(st) && Enabled(c, st) && ActorOk(c, st) && (s in c.slots ==> SlotOk(c, s)) && s in Apply(c, st).slots
    ensures SlotOk(Apply(c, st), s)
  {
    hide NotOpening;
  }

  lemma DrainStepKeepsThread(c: Cache, st: Step, u: nat)
    requires DrainStep(st) && Enabled(c, st) && ActorOk(c, st) && u in c.threads && u != st.t && ThreadOk(c, u)
    ensures Apply(c, st).threads.Keys == c.threads.Keys && ThreadOk(Apply(c, st), u)
  {
  }

  lemma DrainStepKeepsSlot(c: Cache, st: Step, s: nat)
    requires DrainStep(st) && Enabled(c, st) && ActorOk(c, st) && (s in c.slots ==> SlotOk(c, s)) && s in Apply(c, st).slots
    ensures SlotOk(Apply(c, st), s)
  {
  }

  lemma InstallKeepsThread(c: Cache, st: Step, u: nat)
    requires st.Install? && Enabled(c, st) && u in c.threads && u != st.t && ThreadOk(c, u)
    requires st.w in c.table ==> TableOk(c, st.w)
    ensures Apply(c, st).threads.Keys == c.threads.Keys && ThreadOk(Apply(c, st), u)
  {
    assert !Deleting(c.threads[u], st.w);
    hide LockFree;
  }

  lemma DisplaceKeepsThread(c: Cache, st: Step, u: nat)
    requires st.Displace? && Enabled(c, st) && ActorOk(c, st) && u in c.threads && u != st.t && ThreadOk(c, u)
    ensures Apply(c, st).threads.Keys == c.threads.Keys && ThreadOk(Apply(c, st), u)
  {
  }

  lemma ClearKeepsThread(c: Cache, st: Step, u: nat)
    requires (st.Clear? || st.WriteClear?) && Enabled(c, st) && u in c.threads && ThreadOk(c, u)
    requires !st.WriteClear? ==> u != st.t && ApartAsDeletes(c.threads[st.t], c.threads[u])
    ensures Apply(c, st).threads.Keys == c.threads.Keys && ThreadOk(Apply(c, st), u)
  {
    assert st.WriteClear? ==> !Deleting(c.threads[u], st.w);
    hide LockFree;
  }

  lemma DeleteStepKeepsSlot(c: Cache, st: Step, s: nat)
    requires DeleteStep(st) && Enabled(c, st) && ActorOk(c, st) && (s in c.slots ==> SlotOk(c, s)) && s in Apply(c, st).slots
    ensures SlotOk(Apply(c, st), s)
  {
    hide LockFree;
  }

  lemma StepKeepsDisplaced(c: Cache, st: Step, s: nat)
    requires Enabled(c, st) && ActorOk(c, st) && (s in c.displaced ==> s in c.slots)
    requires st.Install? && st.w in c.table ==> TableOk(c, st.w)
    requires s in Apply(c, st).displaced
    ensures s in Apply(c, st).slots
  {
    hide Unguarded, NotOpening, LockFree;
  }

  lemma StepKeepsOrphan(c: Cache, st: Step, s: nat)
    requires Enabled(c, st) && ActorOk(c, st) && (s in c.orphans ==> s in c.slots && !InTable(c, s))
    requires st.WriteClear? && st.w in c.table ==> TableOk(c, st.w)
    requires s in Apply(c, st).orphans
    ensures s in Apply(c, st).slots && !InTable(Apply(c, st), s)
  {
    hide Unguarded, NotOpening, LockFree;
  }

  lemma StepKeepsInv(c: Cache, st: Step)
    requires Inv(c) && Enabled(c, st)
    ensures Inv(Apply(c, st))
  {
    var d := Apply(c, st);
    StepKeepsThreads(c, st);
    StepKeepsSlots(c, st);
    hide Apply, ThreadOk, SlotOk, TableOk, InTable, Unguarded, NotOpening, LockFree, EnabledIn;
    forall w | w in d.table ensures TableOk(d, w) { StepKeepsTable(c, st, w); }
    forall s | s in d.displaced ensures s in d.slots { StepKeepsDisplaced(c, st, s); }
    forall s | s in d.orphans ensures s in d.slots && !InTable(d, s) { StepKeepsOrphan(c, st, s); }
  }

  lemma StepKeepsSlots(c: Cache, st: Step)
    requires Inv(c) && Enabled(c, st)
    ensures forall s :: s in Apply(c, st).slots ==> SlotOk(Apply(c, st), s)
  {
    hide Apply, ThreadOk, SlotOk, TableOk, InTable, Unguarded, NotOpening, LockFree, EnabledIn;
    forall s | s in Apply(c, st).slots ensures SlotOk(Apply(c, st), s) {
      if ReaderStep(st) { ReaderStepKeepsSlot(c, st, s); }
      else if DrainStep(st) { DrainStepKeepsSlot(c, st, s); }
      else { DeleteStepKeepsSlot(c, st, s); }
    }
  }

  lemma StepKeepsThreads(c: Cache, st: Step)
    requires Inv(c) && Enabled(c, st)
    ensures forall u :: u in Apply(c, st).threads ==> ThreadOk(Apply(c, st), u)
    ensures forall t, u :: t in Apply(c, st).threads && u in Apply(c, st).threads && t != u
              ==> ApartAsDeletes(Apply(c, st).threads[t], Apply(c, st).threads[u])
  {
    var d := Apply(c, st);
    SameThreads(c, st);
    if !st.WriteClear? {
      assert ThreadOk(c, st.t);
      StepKeepsOwnThread(c, st);
    }
    hide Apply, ThreadOk, SlotOk, TableOk, InTable, Unguarded, NotOpening, LockFree, EnabledIn;
    forall u | u in d.threads && (st.WriteClear? || u != st.t) ensures ThreadOk(d, u) {
      if ReaderStep(st) { ReaderStepKeepsThread(c, st, u); }
      else if DrainStep(st) { DrainStepKeepsThread(c, st, u); }
      else if st.Install? { InstallKeepsThread(c, st, u); }
      else if st.Displace? { DisplaceKeepsThread(c, st, u); }
      else { ClearKeepsThread(c, st, u); }
    }
    forall t, u | t in d.threads && u in d.threads && t != u ensures ApartAsDeletes(d.threads[t], d.threads[u]) {
      StepKeepsOneDelete(c, st, t, u);
    }
  }

  lemma SameThreads(c: Cache, st: Step)
    requires Enabled(c, st)
    ensures Apply(c, st).threads.Keys == c.threads.Keys
  {
    hide Unguarded, NotOpening, LockFree;
  }

  // ---- Runs ---------------------------------------------------------------------------------

  ghost predicate Initial(c: Cache) {
    c.slots == map[] && c.table == map[] && c.displaced == map[] && c.orphans == {}
    && forall t :: t in c.threads ==> c.threads[t].Idle?
  }

  predicate Runs(c: Cache, steps: seq<Step>)
    decreases |steps|
  {
    steps == [] || (Enabled(c, steps[0]) && Runs(Apply(c, steps[0]), steps[1..]))
  }

  function After(c: Cache, steps: seq<Step>): Cache
    requires Runs(c, steps)
    decreases |steps|
  {
    if steps == [] then c else After(Apply(c, steps[0]), steps[1..])
  }

  lemma {:induction false} RunKeepsInv(c: Cache, steps: seq<Step>)
    requires Inv(c) && Runs(c, steps)
    ensures Inv(After(c, steps))
    decreases |steps|
  {
    if steps != [] {
      StepKeepsInv(c, steps[0]);
      RunKeepsInv(Apply(c, steps[0]), steps[1..]);
    }
  }

  /** A slot still reachable by somebody, so its connection has not been dropped. */
  predicate Alive(c: Cache, s: nat)
    requires s in c.slots
  {
    InTable(c, s) || exists t :: t in c.threads && Refers(c.threads[t], s)
  }

  /** An open, or opening, file handle on the world's database. */
  predicate FdOn(c: Cache, w: string, s: nat) {
    s in c.slots && c.slots[s].world == w && HasFd(c.slots[s]) && Alive(c, s)
  }

  /** Some thread still has the slot's `Arc`. */
  predicate Held(c: Cache, s: nat) { exists t :: t in c.threads && Refers(c.threads[t], s) }

  /** An orphan of the world that has a handle and is kept alive by a thread. */
  predicate HeldOrphan(c: Cache, w: string, s: nat) {
    s in c.orphans && s in c.slots && c.slots[s].world == w && HasFd(c.slots[s]) && Held(c, s)
  }

  /** While a delete's removal window is open, its tombstone answers for the world, and only an
      orphan can still hold a handle on the world's file. */
  lemma WindowIsFdFree(c: Cache, steps: seq<Step>, t: nat, w: string, tomb: nat)
    requires Initial(c) && Runs(c, steps)
    requires t in After(c, steps).threads && After(c, steps).threads[t] == Window(w, tomb)
    ensures var d := After(c, steps);
            && TombInPlace(d, w, tomb)
            && (forall s :: FdOn(d, w, s) ==> s in d.orphans)
            && (forall u :: u in d.threads && d.threads[u].Reading? && d.threads[u].slot !in d.orphans
                  ==> d.threads[u].slot in d.slots && d.slots[d.threads[u].slot].world != w)
  {
    RunKeepsInv(c, steps);
    var d := After(c, steps);
    assert ThreadOk(d, t);
    forall s | s in d.slots && d.slots[s].world == w && HasFd(d.slots[s]) ensures s in d.orphans {
      assert SlotOk(d, s);
      if s in d.displaced && d.displaced[s] in d.threads { assert ThreadOk(d, d.displaced[s]); }
    }
    forall u | u in d.threads && d.threads[u].Reading? && d.threads[u].slot !in d.orphans
      ensures d.threads[u].slot in d.slots && d.slots[d.threads[u].slot].world != w
    {
      assert ThreadOk(d, u);
    }
  }

  /** Outside a displacement in progress every slot with a handle is in the table, orphans aside. */
  lemma HandlesAreInTable(c: Cache, steps: seq<Step>, s: nat)
    requires Initial(c) && Runs(c, steps) && s in After(c, steps).slots && HasFd(After(c, steps).slots[s])
    requires forall t :: t in After(c, steps).threads ==> !After(c, steps).threads[t].Displacer?
    ensures InTable(After(c, steps), s) || s in After(c, steps).orphans
  {
    RunKeepsInv(c, steps);
    assert SlotOk(After(c, steps), s);
  }

  /** Drain before remove: whatever leaves the table by a reader, an opener or an evictor has no handle,
      is the very slot that thread drained, and is never a delete's tombstone. */
  lemma RemovalsAreDrained(c: Cache, steps: seq<Step>, st: Step, w: string)
    requires Initial(c) && Runs(c, steps) && Enabled(After(c, steps), st)
    requires ReaderStep(st) || DrainStep(st)
    requires w in After(c, steps).table && w !in Apply(After(c, steps), st).table
    ensures var d := After(c, steps);
            var s := d.table[w];
            d.threads[st.t] == Remover(s) && s in d.slots && !HasFd(d.slots[s]) && !d.slots[s].stone
  {
    RunKeepsInv(c, steps);
    OnlyRemoversRemove(After(c, steps), st, w);
  }

  lemma OnlyRemoversRemove(d: Cache, st: Step, w: string)
    requires Inv(d) && Enabled(d, st) && (ReaderStep(st) || DrainStep(st)) && w in d.table && w !in Apply(d, st).table
    ensures var s := d.table[w];
            d.threads[st.t] == Remover(s) && s in d.slots && !HasFd(d.slots[s]) && !d.slots[s].stone
  {
    assert ThreadOk(d, st.t);
    hide Inv, Unguarded, NotOpening;
  }

  // ---- Where fd safety fails, and exactly when it holds -------------------------------------

  /** In an open removal window the handles on the world are exactly its held orphans. */
  lemma WindowHandlesAreHeldOrphans(c: Cache, steps: seq<Step>, t: nat, w: string, tomb: nat, s: nat)
    requires Initial(c) && Runs(c, steps)
    requires t in After(c, steps).threads && After(c, steps).threads[t] == Window(w, tomb)
    ensures FdOn(After(c, steps), w, s) <==> HeldOrphan(After(c, steps), w, s)
  {
    WindowIsFdFree(c, steps, t, w, tomb);
    RunKeepsInv(c, steps);
  }

  /** A write takes the world's entry out by key. That is harmless when the entry is absent, already
      drained, or held by nobody, so that its handle closes with the last `Arc`. */
  predicate ClearIsHarmless(c: Cache, w: string) {
    w in c.table && c.table[w] in c.slots && HasFd(c.slots[c.table[w]]) ==> !Held(c, c.table[w])
  }

  /** Out of the table and not a held handle: no step brings such a slot back. */
  predicate Spent(c: Cache, s: nat) { s in c.slots && !InTable(c, s) && !(HasFd(c.slots[s]) && Held(c, s)) }

  lemma SpentStaysUnheld(c: Cache, st: Step, s: nat)
    requires Enabled(c, st) && ActorOk(c, st) && s in c.slots && !InTable(c, s) && !Held(c, s)
    requires (st.Get? || st.Install?) && st.w in c.table ==> TableOk(c, st.w)
    ensures !Held(Apply(c, st), s)
  {
    var d := Apply(c, st);
    hide Unguarded, NotOpening, LockFree;
    assert st.WriteClear? || !Refers(c.threads[st.t], s);
    forall u | u in d.threads ensures !Refers(d.threads[u], s) {
      assert u in c.threads && !Refers(c.threads[u], s);
    }
  }

  lemma SpentStaysOut(c: Cache, st: Step, s: nat)
    requires Enabled(c, st) && ActorOk(c, st) && s in c.slots && !InTable(c, s)
    ensures s in Apply(c, st).slots && !InTable(Apply(c, st), s) && Apply(c, st).slots[s].world == c.slots[s].world
    ensures !HasFd(c.slots[s]) ==> !HasFd(Apply(c, st).slots[s])
  {
    hide Unguarded, NotOpening, LockFree;
  }

  lemma SpentStays(c: Cache, st: Step, s: nat)
    requires Inv(c) && Enabled(c, st) && Spent(c, s)
    ensures Spent(Apply(c, st), s)
  {
    assert ActorOk(c, st);
    assert (st.Get? || st.Install?) && st.w in c.table ==> TableOk(c, st.w);
    hide Apply, Inv, Held, InTable, ActorOk, ThreadOk, TableOk;
    SpentStaysOut(c, st, s);
    if !Held(c, s) { SpentStaysUnheld(c, st, s); }
  }

  ghost predicate NoHeldOrphan(c: Cache, w: string) { forall s :: !HeldOrphan(c, w, s) }

  /** Only a write of the world itself can leave a held orphan of it, and only when the entry it clears
      has a handle somebody holds. */
  lemma StepKeepsNoHeldOrphan(c: Cache, st: Step, w: string)
    requires Inv(c) && Enabled(c, st) && NoHeldOrphan(c, w)
    requires st.WriteClear? && st.w == w ==> ClearIsHarmless(c, w)
    ensures NoHeldOrphan(Apply(c, st), w)
  {
    forall s ensures !HeldOrphan(Apply(c, st), w, s) {
      if s in c.orphans {
        assert !HeldOrphan(c, w, s) && SlotOk(c, s);
        SlotWorldStays(c, st, s);
        if c.slots[s].world == w { SpentStays(c, st, s); }
        hide Apply;
      } else {
        NewOrphan(c, st, w, s);
      }
    }
  }

  lemma SlotWorldStays(c: Cache, st: Step, s: nat)
    requires Enabled(c, st) && ActorOk(c, st) && s in c.slots
    ensures s in Apply(c, st).slots && Apply(c, st).slots[s].world == c.slots[s].world
  {
    hide Unguarded, NotOpening, LockFree;
  }

  lemma NewOrphan(c: Cache, st: Step, w: string, s: nat)
    requires Inv(c) && Enabled(c, st) && s !in c.orphans
    requires st.WriteClear? && st.w == w ==> ClearIsHarmless(c, w)
    ensures !HeldOrphan(Apply(c, st), w, s)
  {
    var d := Apply(c, st);
    if st.WriteClear? {
      assert d.slots == c.slots && d.threads == c.threads;
      if st.w in c.table { assert TableOk(c, st.w); }
      assert Held(d, s) <==> Held(c, s);
    } else {
      OrphansSame(c, st);
    }
  }

  lemma OrphansSame(c: Cache, st: Step)
    requires Enabled(c, st) && !st.WriteClear?
    ensures Apply(c, st).orphans == c.orphans
  {
    hide Unguarded, NotOpening, LockFree;
  }

  /** Every write of `w` in the run cleared an absent, drained or unheld entry. */
  predicate HarmlessRun(c: Cache, steps: seq<Step>, w: string)
    requires Runs(c, steps)
    decreases |steps|
  {
    steps == [] || ((steps[0] == WriteClear(w) ==> ClearIsHarmless(c, w)) && HarmlessRun(Apply(c, steps[0]), steps[1..], w))
  }

  lemma {:induction false} HarmlessRunKeepsNoHeldOrphan(c: Cache, steps: seq<Step>, w: string)
    requires Inv(c) && Runs(c, steps) && HarmlessRun(c, steps, w) && NoHeldOrphan(c, w)
    ensures NoHeldOrphan(After(c, steps), w)
    decreases |steps|
  {
    if steps != [] {
      StepKeepsInv(c, steps[0]);
      StepKeepsNoHeldOrphan(c, steps[0], w);
      HarmlessRunKeepsNoHeldOrphan(Apply(c, steps[0]), steps[1..], w);
    }
  }

  /** When every write of the world finds its entry absent, drained or unheld, no removal window of the
      world ever overlaps a handle. */
  lemma HarmlessRunIsFdSafe(c: Cache, steps: seq<Step>, t: nat, w: string, tomb: nat, s: nat)
    requires Initial(c) && Runs(c, steps) && HarmlessRun(c, steps, w)
    requires t in After(c, steps).threads && After(c, steps).threads[t] == Window(w, tomb)
    ensures !FdOn(After(c, steps), w, s)
  {
    HarmlessRunKeepsNoHeldOrphan(c, steps, w);
    WindowHandlesAreHeldOrphans(c, steps, t, w, tomb, s);
    assert !HeldOrphan(After(c, steps), w, s);
  }

  // ---- One write, exactly -------------------------------------------------------------------

  predicate WritesNo(steps: seq<Step>, w: string) { forall i :: 0 <= i < |steps| ==> steps[i] != WriteClear(w) }

  /** A delete window of `w` that overlaps a handle on it. */
  ghost predicate Overlaps(c: Cache, w: string) {
    exists t, s :: t in c.threads && c.threads[t].Window? && c.threads[t].world == w && FdOn(c, w, s)
  }

  /** After a write of `w` now, some continuation without another write of `w` ends in such an overlap. */
  ghost predicate CanOverlap(c: Cache, w: string)
    requires Enabled(c, WriteClear(w))
  {
    exists rest :: WritesNo(rest, w) && Runs(Apply(c, WriteClear(w)), rest) && Overlaps(After(Apply(c, WriteClear(w)), rest), w)
  }

  lemma {:induction false} QuietRunIsHarmless(c: Cache, steps: seq<Step>, w: string)
    requires Runs(c, steps) && WritesNo(steps, w)
    ensures HarmlessRun(c, steps, w)
    decreases |steps|
  {
    if steps != [] {
      assert WritesNo(steps[1..], w);
      QuietRunIsHarmless(Apply(c, steps[0]), steps[1..], w);
    }
  }

  lemma {:induction false} RunsConcat(c: Cache, a: seq<Step>, b: seq<Step>)
    requires Runs(c, a) && Runs(After(c, a), b)
    ensures Runs(c, a + b) && After(c, a + b) == After(After(c, a), b)
    decreases |a|
  {
    hide Apply, Enabled;
    if a == [] {
      Slices.Empty(b);
    } else {
      Slices.TailOfConcat(a, b);
      RunsConcat(Apply(c, a[0]), a[1..], b);
    }
  }

  lemma {:induction false} FreshId(ids: set<nat>) returns (id: nat)
    ensures forall i :: i in ids ==> i < id
  {
    if ids == {} {
      id := 0;
    } else {
      var i :| i in ids;
      id := FreshId(ids - {i});
      assert forall j :: j in ids ==> j == i || j in ids - {i};
      if id <= i { id := i + 1; }
    }
  }

  /** A held handle, a write, a delete: the shortest overlap. */
  lemma HeldEntryOverlaps(c: Cache, w: string, idle: nat)
    requires Inv(c) && Enabled(c, WriteClear(w)) && idle in c.threads && c.threads[idle].Idle?
    requires !ClearIsHarmless(c, w)
    ensures CanOverlap(c, w)
  {
    var s := c.table[w];
    var id := FreshId(c.slots.Keys);
    var d := Apply(c, WriteClear(w));
    assert TableOk(c, w) && d.threads == c.threads && d.slots == c.slots && w !in d.table;
    assert LockFree(d, w) && id !in d.slots;
    var step := Install(idle, w, id);
    var e := Apply(d, step);
    var t :| t in c.threads && Refers(c.threads[t], s);
    assert t != idle && e.threads[t] == c.threads[t] && e.slots[s] == c.slots[s];
    assert Refers(e.threads[t], s);
    assert FdOn(e, w, s) && e.threads[idle] == Window(w, id);
    assert [step][1..] == [] && Runs(e, []) && Runs(d, [step]) && After(d, [step]) == e;
    assert WritesNo([step], w) && Overlaps(After(d, [step]), w);
  }

  /** Reachable, with an idle thread and no held orphan left by an earlier write: writing `w` now makes an
      overlap possible exactly when its entry has a handle that some thread holds. */
  lemma WriteCanOverlapIff(c: Cache, steps: seq<Step>, w: string, idle: nat)
    requires Initial(c) && Runs(c, steps)
    requires var d := After(c, steps);
      Enabled(d, WriteClear(w)) && idle in d.threads && d.threads[idle].Idle? && NoHeldOrphan(d, w)
    ensures CanOverlap(After(c, steps), w) <==> !ClearIsHarmless(After(c, steps), w)
  {
    var d := After(c, steps);
    RunKeepsInv(c, steps);
    if !ClearIsHarmless(d, w) {
      HeldEntryOverlaps(d, w, idle);
    } else {
      forall rest | WritesNo(rest, w) && Runs(Apply(d, WriteClear(w)), rest)
        ensures !Overlaps(After(Apply(d, WriteClear(w)), rest), w)
      {
        HarmlessWriteNeverOverlaps(c, steps, w, rest);
      }
    }
  }

  lemma HarmlessWriteNeverOverlaps(c: Cache, steps: seq<Step>, w: string, rest: seq<Step>)
    requires Initial(c) && Runs(c, steps)
    requires var d := After(c, steps);
      Enabled(d, WriteClear(w)) && NoHeldOrphan(d, w) && ClearIsHarmless(d, w) && Runs(Apply(d, WriteClear(w)), rest)
    requires WritesNo(rest, w)
    ensures !Overlaps(After(Apply(After(c, steps), WriteClear(w)), rest), w)
  {
    var d := After(c, steps);
    var e := Apply(d, WriteClear(w));
    RunKeepsInv(c, steps);
    StepKeepsInv(d, WriteClear(w));
    StepKeepsNoHeldOrphan(d, WriteClear(w), w);
    QuietRunIsHarmless(e, rest, w);
    HarmlessRunKeepsNoHeldOrphan(e, rest, w);
    var all := [WriteClear(w)] + rest;
    assert all[1..] == rest && Runs(d, all) && After(d, all) == After(e, rest);
    RunsConcat(c, steps, all);
    var f := After(e, rest);
    hide Apply, Enabled, Runs, After, Inv, NoHeldOrphan;
    forall t, s | t in f.threads && f.threads[t].Window? && f.threads[t].world == w ensures !FdOn(f, w, s) {
      assert f.threads[t] == Window(w, f.threads[t].tomb);
      WindowHandlesAreHeldOrphans(c, steps + all, t, w, f.threads[t].tomb, s);
      NotHeld(f, w, s);
    }
  }

  lemma NotHeld(c: Cache, w: string, s: nat)
    requires NoHeldOrphan(c, w)
    ensures !HeldOrphan(c, w, s)
  {
  }

  lemma Prepend(c: Cache, st: Step, d: Cache, rest: seq<Step>)
    requires Enabled(c, st) && Apply(c, st) == d && Runs(d, rest)
    ensures Runs(c, [st] + rest) && After(c, [st] + rest) == After(d, rest)
    ensures forall w :: HarmlessRun(c, [st] + rest, w) ==> HarmlessRun(d, rest, w)
    ensures forall w :: HarmlessRun(c, [st] + rest, w) && st == WriteClear(w) ==> ClearIsHarmless(c, w)
  {
    assert ([st] + rest)[1..] == rest;
  }

  const TWO_THREADS := Cache(map[], map[], map[0 := Idle, 1 := Idle], map[], {})

  function Opened(w: string): Cache {
    Cache(map[7 := Slot(w, Opening(0), false)], map[w := 7], map[0 := Opener(7, false), 1 := Idle], map[], {})
  }

  function Promoted(w: string): Cache {
    Cache(map[7 := Slot(w, Ready, false)], map[w := 7], map[0 := Holding(7, false), 1 := Idle], map[], {})
  }

  function Probed(w: string): Cache { Promoted(w).(threads := map[0 := Reading(7, false), 1 := Idle]) }

  function Cleared(w: string): Cache { Probed(w).(table := map[], orphans := {7}) }

  function Installed(w: string): Cache {
    Cache(map[7 := Slot(w, Ready, false), 8 := Slot(w, Tombstone, true)], map[w := 8],
          map[0 := Reading(7, false), 1 := Window(w, 8)], map[], {7})
  }

  lemma OpenStep(w: string)
    ensures Enabled(TWO_THREADS, Open(0, w, 7, false)) && Apply(TWO_THREADS, Open(0, w, 7, false)) == Opened(w)
  {
  }

  lemma PromoteStep(w: string)
    ensures Enabled(Opened(w), Promote(0)) && Apply(Opened(w), Promote(0)) == Promoted(w)
  {
  }

  lemma ProbeStep(w: string)
    ensures Enabled(Promoted(w), Probe(0)) && Apply(Promoted(w), Probe(0)) == Probed(w)
  {
  }

  lemma WriteClearStep(w: string)
    ensures Enabled(Probed(w), WriteClear(w)) && Apply(Probed(w), WriteClear(w)) == Cleared(w) && !ClearIsHarmless(Probed(w), w)
  {
    assert Refers(Probed(w).threads[0], 7);
  }

  lemma InstallStep(w: string)
    ensures Enabled(Cleared(w), Install(1, w, 8)) && Apply(Cleared(w), Install(1, w, 8)) == Installed(w)
    ensures FdOn(Installed(w), w, 7)
  {
    assert Refers(Installed(w).threads[0], 7);
  }

  function Overlap(w: string): seq<Step> {
    [Open(0, w, 7, false)] + ([Promote(0)] + ([Probe(0)] + ([WriteClear(w)] + ([Install(1, w, 8)] + []))))
  }

  /** A read in flight, a write, then a delete: the reader still reads through its handle while the
      removal window is open. */
  lemma WriteThenDeleteOverlapsRead(w: string)
    ensures Initial(TWO_THREADS) && Runs(TWO_THREADS, Overlap(w)) && !HarmlessRun(TWO_THREADS, Overlap(w), w)
    ensures var d := After(TWO_THREADS, Overlap(w));
            && d.threads == map[0 := Reading(7, false), 1 := Window(w, 8)]
            && FdOn(d, w, 7)
  {
    OpenStep(w);
    PromoteStep(w);
    ProbeStep(w);
    WriteClearStep(w);
    InstallStep(w);
    hide Enabled, Apply, HarmlessRun, ClearIsHarmless, FdOn;
    var rest: seq<Step> := [];
    Prepend(Cleared(w), Install(1, w, 8), Installed(w), rest);
    rest := [Install(1, w, 8)] + rest;
    Prepend(Probed(w), WriteClear(w), Cleared(w), rest);
    rest := [WriteClear(w)] + rest;
    Prepend(Promoted(w), Probe(0), Probed(w), rest);
    rest := [Probe(0)] + rest;
    Prepend(Opened(w), Promote(0), Promoted(w), rest);
    rest := [Promote(0)] + rest;
    Prepend(TWO_THREADS, Open(0, w, 7, false), Opened(w), rest);
  }
}
