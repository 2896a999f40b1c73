/** What the read cache's steps achieve when nothing comes between them: a miss opens and reads, a hit reads, an
    eviction, a transient read, a failed open and a delete each give the table back. */
module ReadCacheProgress {
  import opened ReadCacheProtocol

  /** The steps run from `c` and end in `d`. */
  predicate Leads(c: Cache, steps: seq<Step>, d: Cache) { Runs(c, steps) && After(c, steps) == d }

  lemma NoSteps(c: Cache)
    ensures Leads(c, [], c)
  {
  }

  lemma OneStep(c: Cache, st: Step, rest: seq<Step>, d: Cache)
    requires Enabled(c, st) && Leads(Apply(c, st), rest, d)
    ensures Leads(c, [st] + rest, d)
  {
    hide Apply, Enabled;
    assert ([st] + rest)[1..] == rest;
  }

  lemma ThreeSteps(c: Cache, a: Step, b: Step, e: Step)
    requires Enabled(c, a) && Enabled(Apply(c, a), b) && Enabled(Apply(Apply(c, a), b), e)
    ensures Leads(c, [a, b, e], Apply(Apply(Apply(c, a), b), e))
  {
    hide Apply, Enabled;
    var c1 := Apply(c, a);
    var c2 := Apply(c1, b);
    assert [b] + [e] == [b, e] && [a] + [b, e] == [a, b, e] && [e] + [] == [e];
    NoSteps(Apply(c2, e));
    OneStep(c2, e, [], Apply(c2, e));
    OneStep(c1, b, [e], Apply(c2, e));
    OneStep(c, a, [b, e], Apply(c2, e));
  }

  lemma TwoSteps(c: Cache, a: Step, b: Step)
    requires Enabled(c, a) && Enabled(Apply(c, a), b)
    ensures Leads(c, [a, b], Apply(Apply(c, a), b))
  {
    hide Apply, Enabled;
    var c1 := Apply(c, a);
    assert [a] + [b] == [a, b] && [b] + [] == [b];
    NoSteps(Apply(c1, b));
    OneStep(c1, b, [], Apply(c1, b));
    OneStep(c, a, [b], Apply(c1, b));
  }

  // ---- Reads ----

  lemma NobodyHasFresh(c: Cache, t: nat, id: nat)
    requires Inv(c) && t in c.threads && id !in c.slots && (c.threads[t].Reading? || c.threads[t].Opener?)
    ensures c.threads[t].slot != id
  {
    assert ThreadOk(c, t);
  }

  /** A miss opens the world's database, puts the slot into the table and reads through it. */
  lemma MissIsRead(c: Cache, t: nat, w: string, id: nat, own: bool)
    requires Inv(c) && t in c.threads && c.threads[t].Idle? && w !in c.table && id !in c.slots
    ensures Leads(c, [Open(t, w, id, own), Promote(t), Probe(t)],
                  c.(slots := c.slots[id := Slot(w, Ready, false)], table := c.table[w := id], threads := c.threads[t := Reading(id, own)]))
  {
    var a, b, e := Open(t, w, id, own), Promote(t), Probe(t);
    var c1 := Apply(c, a);
    assert c1 == c.(slots := c.slots[id := Slot(w, Opening(t), false)], table := c.table[w := id], threads := c.threads[t := Opener(id, own)]);
    var c2 := Apply(c1, b);
    assert c2 == c.(slots := c.slots[id := Slot(w, Ready, false)], table := c.table[w := id], threads := c.threads[t := Holding(id, own)]) by {
      assert c1.slots[id := Slot(w, Ready, false)] == c.slots[id := Slot(w, Ready, false)];
      assert c1.threads[t := Holding(id, own)] == c.threads[t := Holding(id, own)];
    }
    forall u | u in c2.threads ensures !(c2.threads[u].Opener? && c2.threads[u].slot == id) {
      if u != t && c2.threads[u].Opener? { NobodyHasFresh(c, u, id); }
    }
    assert NotOpening(c2, id);
    ThreeSteps(c, a, b, e);
    assert c2.threads[t := Reading(id, own)] == c.threads[t := Reading(id, own)];
  }

  lemma NobodyOpens(c: Cache, s: nat)
    requires Inv(c) && s in c.slots && !c.slots[s].state.Opening?
    ensures NotOpening(c, s)
  {
    forall t | t in c.threads ensures !(c.threads[t].Opener? && c.threads[t].slot == s) { assert ThreadOk(c, t); }
  }

  /** A hit reads through the entry that is there; a tombstone turns the reader away; either way nothing else
      changes. */
  lemma HitIsReadUnlessTombstone(c: Cache, t: nat, w: string)
    requires Inv(c) && t in c.threads && c.threads[t].Idle? && w in c.table
    requires c.table[w] in c.slots ==> c.slots[c.table[w]].state == Ready || c.slots[c.table[w]].state == Tombstone
    ensures c.table[w] in c.slots && c.slots[c.table[w]].world == w
    ensures Leads(c, [Get(t, w), Probe(t)],
                  if c.slots[c.table[w]].state == Ready then c.(threads := c.threads[t := Reading(c.table[w], false)]) else c)
  {
    var s := c.table[w];
    assert TableOk(c, w);
    NobodyOpens(c, s);
    var c1 := Apply(c, Get(t, w));
    assert c1 == c.(threads := c.threads[t := Holding(s, false)]);
    assert NotOpening(c1, s);
    TwoSteps(c, Get(t, w), Probe(t));
    var c2 := Apply(c1, Probe(t));
    if c.slots[s].state == Ready {
      assert c2.threads == c.threads[t := Reading(s, false)];
    } else {
      assert c2.threads == c.threads;
    }
  }

  // ---- Giving the table back ----

  /** The world's entry is out of the table, its slot drained; nothing else changed. */
  predicate GivenBack(c: Cache, d: Cache, w: string, s: nat, t: nat, state: SlotState) {
    && d.table == c.table - {w} && s in c.slots && d.slots == c.slots[s := c.slots[s].(state := state)]
    && t in c.threads && d.threads == c.threads[t := Idle] && d.orphans == c.orphans
  }

  /** The evictor's second half: it takes out the very slot it drained. */
  lemma RemoverGivesBack(c: Cache, t: nat, s: nat)
    requires t in c.threads && c.threads[t] == Remover(s) && s in c.slots && InTable(c, s)
    ensures Enabled(c, RemoveSame(t))
    ensures Apply(c, RemoveSame(t)) == c.(table := c.table - {c.slots[s].world}, threads := c.threads[t := Idle])
  {
  }

  /** A chosen slot that is ready and unguarded is drained and taken out; one that is read, opened, or no longer
      ready is left alone. */
  lemma EvictionGivesBack(c: Cache, t: nat, s: nat)
    requires Inv(c) && t in c.threads && c.threads[t] == Drainer(s, false) && s in c.slots && InTable(c, s)
    ensures Enabled(c, TryEvict(t))
    ensures Unguarded(c, s) && c.slots[s].state == Ready ==>
      exists d :: Leads(c, [TryEvict(t), RemoveSame(t)], d) && GivenBack(c, d, c.slots[s].world, s, t, Evicted)
    ensures !(Unguarded(c, s) && c.slots[s].state == Ready) ==> Apply(c, TryEvict(t)) == c.(threads := c.threads[t := Idle])
  {
    hide Unguarded;
    if Unguarded(c, s) && c.slots[s].state == Ready {
      var c1 := Apply(c, TryEvict(t));
      assert c1 == c.(slots := c.slots[s := c.slots[s].(state := Evicted)], threads := c.threads[t := Remover(s)]);
      RemoverGivesBack(c1, t, s);
      TwoSteps(c, TryEvict(t), RemoveSame(t));
      var d := Apply(c1, RemoveSame(t));
      assert c1.threads[t := Idle] == c.threads[t := Idle];
      assert GivenBack(c, d, c.slots[s].world, s, t, Evicted);
    }
  }

  /** A transient read that nobody shares leaves nothing in the table. */
  lemma TransientReadGivesBack(c: Cache, t: nat, s: nat)
    requires Inv(c) && t in c.threads && c.threads[t] == Reading(s, true) && InTableOf(c, s)
    requires forall u :: u in c.threads && u != t ==> !((c.threads[u].Reading? || c.threads[u].Opener?) && c.threads[u].slot == s)
    ensures exists d :: Leads(c, [EndRead(t), DrainOwn(t), RemoveSame(t)], d) && GivenBack(c, d, c.slots[s].world, s, t, Evicted)
  {
    var c1 := Apply(c, EndRead(t));
    assert c1 == c.(threads := c.threads[t := Drainer(s, true)]);
    assert Unguarded(c1, s);
    hide Unguarded;
    var c2 := Apply(c1, DrainOwn(t));
    assert c1.threads[t := Remover(s)] == c.threads[t := Remover(s)];
    assert c2 == c.(slots := c.slots[s := c.slots[s].(state := Evicted)], threads := c.threads[t := Remover(s)]);
    RemoverGivesBack(c2, t, s);
    ThreeSteps(c, EndRead(t), DrainOwn(t), RemoveSame(t));
    var d := Apply(c2, RemoveSame(t));
    assert c2.threads[t := Idle] == c.threads[t := Idle];
    assert GivenBack(c, d, c.slots[s].world, s, t, Evicted);
  }

  predicate InTableOf(c: Cache, s: nat) { s in c.slots && InTable(c, s) }

  /** An open that fails leaves the table as it found it. */
  lemma FailedOpenGivesBack(c: Cache, t: nat, w: string, id: nat, own: bool)
    requires t in c.threads && c.threads[t].Idle? && w !in c.table && id !in c.slots
    ensures Leads(c, [Open(t, w, id, own), FailOpen(t), RemoveSame(t)], c.(slots := c.slots[id := Slot(w, Evicted, false)]))
  {
    var c1 := Apply(c, Open(t, w, id, own));
    var c2 := Apply(c1, FailOpen(t));
    assert c1.slots[id := Slot(w, Evicted, false)] == c.slots[id := Slot(w, Evicted, false)];
    assert c1.threads[t := Remover(id)] == c.threads[t := Remover(id)];
    assert c2 == c.(slots := c.slots[id := Slot(w, Evicted, false)], table := c.table[w := id], threads := c.threads[t := Remover(id)]);
    RemoverGivesBack(c2, t, id);
    ThreeSteps(c, Open(t, w, id, own), FailOpen(t), RemoveSame(t));
    assert c.table[w := id] - {w} == c.table && c2.threads[t := Idle] == c.threads;
  }

  lemma InstallEffect(c: Cache, t: nat, w: string, id: nat)
    requires t in c.threads && c.threads[t].Idle? && id !in c.slots && LockFree(c, w) && w in c.table && Unguarded(c, c.table[w])
    ensures Enabled(c, Install(t, w, id))
    ensures var c1 := Apply(c, Install(t, w, id));
      && c1.slots == c.slots[id := Slot(w, Tombstone, true)] && c1.table == c.table[w := id] && c1.orphans == c.orphans
      && c1.threads == c.threads[t := Displacer(w, c.table[w], id)] && Unguarded(c1, c.table[w])
  {
    hide LockFree;
  }

  lemma DisplaceThenClear(c: Cache, t: nat, w: string, s: nat, id: nat)
    requires t in c.threads && c.threads[t] == Displacer(w, s, id) && s in c.slots && Unguarded(c, s)
    ensures Enabled(c, Displace(t)) && Enabled(Apply(c, Displace(t)), Clear(t))
    ensures var d := Apply(Apply(c, Displace(t)), Clear(t));
      && d.slots == c.slots[s := c.slots[s].(state := Tombstone)] && d.table == c.table - {w} && d.orphans == c.orphans
      && d.threads == c.threads[t := Idle]
  {
    hide Unguarded;
  }

  /** A delete of a world nobody reads or opens: the old slot ends drained, the tombstone is gone again, and the
      world can be opened afresh. */
  lemma DeleteGivesBack(c: Cache, t: nat, w: string, id: nat) returns (d: Cache)
    requires Inv(c) && t in c.threads && c.threads[t].Idle? && id !in c.slots && LockFree(c, w)
    requires w in c.table && Unguarded(c, c.table[w])
    ensures Leads(c, [Install(t, w, id), Displace(t), Clear(t)], d)
    ensures GivenBack(c.(slots := c.slots[id := Slot(w, Tombstone, true)]), d, w, c.table[w], t, Tombstone)
    ensures !HasFd(d.slots[c.table[w]])
  {
    assert TableOk(c, w);
    InstallEffect(c, t, w, id);
    var c1 := Apply(c, Install(t, w, id));
    DisplaceThenClear(c1, t, w, c.table[w], id);
    d := Apply(Apply(c1, Displace(t)), Clear(t));
    hide Apply, Enabled, Inv, LockFree, Unguarded;
    ThreeSteps(c, Install(t, w, id), Displace(t), Clear(t));
    hide Leads;
    assert c.table[w := id] - {w} == c.table - {w};
    assert c1.threads[t := Idle] == c.threads[t := Idle];
  }
}
