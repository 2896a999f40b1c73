/** Transient worlds: a map of entries charged against one byte budget. */
module MemoryStore {
  import opened Framing
  import opened MapSum

  const USIZE_MAX: nat := 0xFFFF_FFFF_FFFF_FFFF
  const ENTRY_OVERHEAD: nat := 128
  const HASH_BYTES: nat := 64

  datatype MemEntry = MemEntry(body: string, bodyHash: string, contentType: string, headers: seq<(string, string)>)

  function CheckedAdd(a: nat, b: nat): Option<nat> { if a + b <= USIZE_MAX then Some(a + b) else None }
  function CheckedSub(a: nat, b: nat): Option<nat> { if b <= a then Some(a - b) else None }

  function HeaderBytes(headers: seq<(string, string)>): nat {
    if headers == [] then 0 else |headers[0].0| + |headers[0].1| + HeaderBytes(headers[1..])
  }

  /** What an entry is charged, in unbounded arithmetic. */
  function Size(world: string, bodyLen: nat, contentType: string, headers: seq<(string, string)>): nat {
    ENTRY_OVERHEAD + |world| + bodyLen + HASH_BYTES + |contentType| + HeaderBytes(headers)
  }

  function SizeOf(world: string, e: MemEntry): nat { Size(world, |e.body|, e.contentType, e.headers) }

  lemma {:induction false} HeaderBytesSnoc(headers: seq<(string, string)>, k: nat)
    requires k < |headers|
    ensures HeaderBytes(headers[..k + 1]) == HeaderBytes(headers[..k]) + |headers[k].0| + |headers[k].1|
    ensures HeaderBytes(headers[..k + 1]) <= HeaderBytes(headers)
  {
    HeaderBytesConcat(headers[..k], [headers[k]]);
    assert headers[..k + 1] == headers[..k] + [headers[k]];
    HeaderBytesConcat(headers[..k + 1], headers[k + 1..]);
    assert headers == headers[..k + 1] + headers[k + 1..];
  }

  lemma {:induction false} HeaderBytesConcat(a: seq<(string, string)>, b: seq<(string, string)>)
    ensures HeaderBytes(a + b) == HeaderBytes(a) + HeaderBytes(b)
  {
    if a == [] {
      assert a + b == b;
    } else {
      HeaderBytesConcat(a[1..], b);
      assert (a + b)[1..] == a[1..] + b;
    }
  }

  /** `accounted_entry_parts_bytes` with its checked additions: the charge, or nothing exactly when the
      charge does not fit a `usize`. */
  method EntryBytes(world: string, bodyLen: nat, contentType: string, headers: seq<(string, string)>) returns (r: Option<nat>)
    ensures r == if Size(world, bodyLen, contentType, headers) <= USIZE_MAX
                 then Some(Size(world, bodyLen, contentType, headers)) else None
  {
    r := CheckedAdd(ENTRY_OVERHEAD, |world|);
    if r.None? { return; }
    r := CheckedAdd(r.value, bodyLen);
    if r.None? { return; }
    r := CheckedAdd(r.value, HASH_BYTES);
    if r.None? { return; }
    if |contentType| > USIZE_MAX { return None; }
    var meta := |contentType|;
    assert headers[..0] == [];
    for i := 0 to |headers|
      invariant meta == |contentType| + HeaderBytes(headers[..i]) <= USIZE_MAX
    {
      HeaderBytesSnoc(headers, i);
      var name := CheckedAdd(meta, |headers[i].0|);
      if name.None? { return None; }
      var both := CheckedAdd(name.value, |headers[i].1|);
      if both.None? { return None; }
      meta := both.value;
    }
    assert headers[..|headers|] == headers;
    r := CheckedAdd(r.value, meta);
  }

  function Sizes(entries: map<string, MemEntry>): map<string, nat> { map w | w in entries :: SizeOf(w, entries[w]) }

  lemma SizesUpdate(entries: map<string, MemEntry>, w: string, e: MemEntry)
    ensures Sizes(entries[w := e]) == Sizes(entries)[w := SizeOf(w, e)]
    ensures Sizes(entries - {w}) == Sizes(entries) - {w}
  {
  }

  function Charged(entries: map<string, MemEntry>, w: string): nat { if w in entries then SizeOf(w, entries[w]) else 0 }

  datatype Outcome = Stored(existed: bool) | NotFound | QuotaExceeded(used: nat, quota: nat, projected: nat)

  class MemoryStore {
    const sha256: string -> string
    var entries: map<string, MemEntry>
    var accounted: nat

    ghost predicate Valid()
      reads this
    {
      && accounted == Sum(Sizes(entries)) <= USIZE_MAX
      && forall w :: w in entries ==> entries[w].bodyHash == sha256(entries[w].body)
    }

    constructor (sha256: string -> string)
      ensures Valid() && entries == map[] && accounted == 0 && this.sha256 == sha256
    {
      this.sha256, entries, accounted := sha256, map[], 0;
      new;
      assert Sizes(map[]) == map[];
    }

    ghost function Fresh(body: string, contentType: string, headers: seq<(string, string)>): MemEntry {
      MemEntry(body, sha256(body), contentType, headers)
    }

    /** Storing `e` at `w` is accepted exactly when the whole store, with the old entry replaced, fits. */
    twostate predicate StoredOrRefused(w: string, e: MemEntry, quota: nat, r: Outcome)
      reads this
    {
      var total := old(accounted) - Charged(old(entries), w) + SizeOf(w, e);
      if total <= quota then
        r == Stored(w in old(entries)) && entries == old(entries)[w := e] && accounted == total
      else
        && entries == old(entries) && accounted == old(accounted)
        && r == QuotaExceeded(accounted, quota, if total <= USIZE_MAX then total else USIZE_MAX)
    }

    lemma StoreFits(w: string, e: MemEntry)
      requires Valid()
      ensures Charged(entries, w) <= accounted <= USIZE_MAX
      ensures Sum(Sizes(entries[w := e])) == accounted - Charged(entries, w) + SizeOf(w, e)
    {
      SizesUpdate(entries, w, e);
      SumOfUpdate(Sizes(entries), w, SizeOf(w, e));
    }

    /** `write_with_quota`. The first assertion is that the subtraction cannot underflow. */
    method WriteWithQuota(w: string, body: string, contentType: string, headers: seq<(string, string)>, quota: nat)
      returns (r: Outcome)
      requires Valid() && quota <= USIZE_MAX
      modifies `entries, `accounted
      ensures Valid() && StoredOrRefused(w, Fresh(body, contentType, headers), quota, r)
    {
      hide Size, HeaderBytes, Sum, Sizes;
      var replacement := MemEntry(body, sha256(body), contentType, headers);
      StoreFits(w, replacement);
      var next := EntryBytes(w, |body|, contentType, headers);
      if next.None? { return QuotaExceeded(accounted, quota, USIZE_MAX); }
      var previous := 0;
      var existed := w in entries;
      if existed {
        var charged := EntryBytes(w, |entries[w].body|, entries[w].contentType, entries[w].headers);
        assert charged.Some?;
        previous := charged.value;
      }
      var without := CheckedSub(accounted, previous);
      assert without.Some?;
      var projected := CheckedAdd(without.value, next.value);
      if projected.None? { return QuotaExceeded(accounted, quota, USIZE_MAX); }
      if projected.value > quota { return QuotaExceeded(accounted, quota, projected.value); }
      entries := entries[w := replacement];
      accounted := projected.value;
      return Stored(existed);
    }

    /** `append_with_quota`: the same as writing the concatenation with the metadata the world has. */
    method AppendWithQuota(w: string, body: string, quota: nat) returns (r: Outcome)
      requires Valid() && quota <= USIZE_MAX
      modifies `entries, `accounted
      ensures Valid()
      ensures w in old(entries) ==> StoredOrRefused(w,
        Fresh(old(entries)[w].body + body, old(entries)[w].contentType, old(entries)[w].headers), quota, r)
      ensures w !in old(entries) ==> r == NotFound && entries == old(entries) && accounted == old(accounted)
    {
      hide Size, HeaderBytes, Sum, Sizes;
      if w !in entries { return NotFound; }
      var e := entries[w];
      var nextBody := e.body + body;
      var replacement := MemEntry(nextBody, sha256(nextBody), e.contentType, e.headers);
      StoreFits(w, replacement);
      var previous := EntryBytes(w, |e.body|, e.contentType, e.headers);
      assert previous.Some?;
      var next := EntryBytes(w, |nextBody|, e.contentType, e.headers);
      if next.None? { return QuotaExceeded(accounted, quota, USIZE_MAX); }
      var without := CheckedSub(accounted, previous.value);
      assert without.Some?;
      var projected := CheckedAdd(without.value, next.value);
      if projected.None? { return QuotaExceeded(accounted, quota, USIZE_MAX); }
      if projected.value > quota { return QuotaExceeded(accounted, quota, projected.value); }
      entries := entries[w := replacement];
      accounted := projected.value;
      return Stored(true);
    }

    /** `delete`: succeeds exactly when the world exists; neither failure branch after that can be taken. */
    method Delete(w: string) returns (deleted: bool)
      requires Valid()
      modifies `entries, `accounted
      ensures Valid()
      ensures deleted <==> w in old(entries)
      ensures entries == old(entries) - {w} && accounted == old(accounted) - Charged(old(entries), w)
    {
      SizesUpdate(entries, w, MemEntry("", "", "", []));
      SumOfRemove(Sizes(entries), w);
      if w !in entries {
        assert entries - {w} == entries;
        return false;
      }
      var e := entries[w];
      var removed := EntryBytes(w, |e.body|, e.contentType, e.headers);
      assert removed.Some?;
      var projected := CheckedSub(accounted, removed.value);
      assert projected.Some?;
      entries := entries - {w};
      accounted := projected.value;
      return true;
    }
  }
}
