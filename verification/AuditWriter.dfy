/** Canonical headers and the append path, against the verifiers of `AuditChain`. */
module AuditWriter {
  import Slices
  import opened Framing
  import opened WorldPath
  import opened EventId
  import opened AuditChain

  // ---- Header order -------------------------------------------------------------------------

  predicate LexLeq(a: string, b: string) {
    a == "" || (b != "" && (a[0] < b[0] || (a[0] == b[0] && LexLeq(a[1..], b[1..]))))
  }

  lemma {:induction false} LexTotal(a: string, b: string)
    ensures LexLeq(a, b) || LexLeq(b, a)
  {
    if a != "" && b != "" { LexTotal(a[1..], b[1..]); }
  }

  lemma {:induction false} LexAntisymmetric(a: string, b: string)
    requires LexLeq(a, b) && LexLeq(b, a)
    ensures a == b
  {
    if a != "" && b != "" {
      LexAntisymmetric(a[1..], b[1..]);
      assert a == [a[0]] + a[1..] && b == [b[0]] + b[1..];
    }
  }

  lemma {:induction false} LexTransitive(a: string, b: string, c: string)
    requires LexLeq(a, b) && LexLeq(b, c)
    ensures LexLeq(a, c)
  {
    if a != "" && a[0] == b[0] == c[0] { LexTransitive(a[1..], b[1..], c[1..]); }
  }

  predicate HeaderLeq(g: Header, h: Header) {
    if g.0 == h.0 then LexLeq(g.1, h.1) else LexLeq(g.0, h.0)
  }

  lemma HeaderLeqTotal(g: Header, h: Header)
    ensures HeaderLeq(g, h) || HeaderLeq(h, g)
  {
    LexTotal(g.0, h.0);
    LexTotal(g.1, h.1);
  }

  lemma HeaderLeqAntisymmetric(g: Header, h: Header)
    requires HeaderLeq(g, h) && HeaderLeq(h, g)
    ensures g == h
  {
    if g.0 == h.0 { LexAntisymmetric(g.1, h.1); } else { LexAntisymmetric(g.0, h.0); }
  }

  lemma HeaderLeqTransitive(f: Header, g: Header, h: Header)
    requires HeaderLeq(f, g) && HeaderLeq(g, h)
    ensures HeaderLeq(f, h)
  {
    if f.0 == g.0 == h.0 { LexTransitive(f.1, g.1, h.1); }
    else if f.0 != g.0 && g.0 != h.0 {
      LexTransitive(f.0, g.0, h.0);
      if f.0 == h.0 { LexAntisymmetric(f.0, g.0); }
    }
  }

  predicate Sorted(hs: seq<Header>) { forall i, j :: 0 <= i < j < |hs| ==> HeaderLeq(hs[i], hs[j]) }

  function Insert(h: Header, hs: seq<Header>): seq<Header> {
    if hs == [] then [h] else if HeaderLeq(h, hs[0]) then [h] + hs else [hs[0]] + Insert(h, hs[1..])
  }

  function Sort(hs: seq<Header>): seq<Header> {
    if hs == [] then [] else Insert(hs[0], Sort(hs[1..]))
  }

  lemma {:induction false} InsertAdds(h: Header, hs: seq<Header>)
    ensures multiset(Insert(h, hs)) == multiset(hs) + multiset{h}
    ensures forall g :: g in Insert(h, hs) ==> g == h || g in hs
  {
    hide HeaderLeq;
    if hs != [] {
      assert hs == [hs[0]] + hs[1..];
      if !HeaderLeq(h, hs[0]) { InsertAdds(h, hs[1..]); }
    }
  }

  lemma SortedCons(h: Header, hs: seq<Header>)
    requires Sorted(hs) && forall i :: 0 <= i < |hs| ==> HeaderLeq(h, hs[i])
    ensures Sorted([h] + hs)
  {
    hide HeaderLeq;
  }

  lemma SortedTail(hs: seq<Header>)
    requires Sorted(hs) && hs != []
    ensures Sorted(hs[1..])
  {
    hide HeaderLeq;
  }

  lemma {:induction false} InsertSorted(h: Header, hs: seq<Header>)
    requires Sorted(hs)
    ensures Sorted(Insert(h, hs)) && multiset(Insert(h, hs)) == multiset(hs) + multiset{h}
  {
    hide HeaderLeq;
    InsertAdds(h, hs);
    if hs == [] {
    } else if HeaderLeq(h, hs[0]) {
      forall i | 0 <= i < |hs| ensures HeaderLeq(h, hs[i]) {
        if i > 0 { HeaderLeqTransitive(h, hs[0], hs[i]); }
      }
      SortedCons(h, hs);
    } else {
      HeaderLeqTotal(h, hs[0]);
      var rest := Insert(h, hs[1..]);
      SortedTail(hs);
      InsertSorted(h, hs[1..]);
      InsertAdds(h, hs[1..]);
      forall i | 0 <= i < |rest| ensures HeaderLeq(hs[0], rest[i]) {
        assert rest[i] in rest;
      }
      SortedCons(hs[0], rest);
    }
  }

  lemma {:induction false} SortSorts(hs: seq<Header>)
    ensures Sorted(Sort(hs)) && multiset(Sort(hs)) == multiset(hs)
  {
    if hs != [] {
      SortSorts(hs[1..]);
      InsertSorted(hs[0], Sort(hs[1..]));
      assert hs == [hs[0]] + hs[1..];
    }
  }

  lemma SortedHead(gs: seq<Header>, hs: seq<Header>)
    requires Sorted(gs) && Sorted(hs) && multiset(gs) == multiset(hs) && gs != [] && hs != []
    ensures gs[0] == hs[0]
  {
    hide HeaderLeq;
    assert gs[0] in multiset(hs) && hs[0] in multiset(gs);
    if gs[0] != hs[0] {
      var i :| 0 <= i < |hs| && hs[i] == gs[0];
      var j :| 0 <= j < |gs| && gs[j] == hs[0];
      HeaderLeqAntisymmetric(gs[0], hs[0]);
    }
  }

  lemma {:induction false} SortedUnique(gs: seq<Header>, hs: seq<Header>)
    requires Sorted(gs) && Sorted(hs) && multiset(gs) == multiset(hs)
    ensures gs == hs
  {
    hide HeaderLeq;
    assert |gs| == |multiset(gs)| == |multiset(hs)| == |hs|;
    if gs != [] {
      SortedHead(gs, hs);
      assert gs == [gs[0]] + gs[1..] && hs == [hs[0]] + hs[1..];
      assert multiset(gs[1..]) == multiset(gs) - multiset{gs[0]};
      assert multiset(hs[1..]) == multiset(hs) - multiset{hs[0]};
      SortedUnique(gs[1..], hs[1..]);
    }
  }

  function LowerNames(hs: seq<Header>): (r: seq<Header>)
    ensures |r| == |hs|
  {
    seq(|hs|, i requires 0 <= i < |hs| => (Lower(hs[i].0), hs[i].1))
  }

  /** `canonical_headers`: lower-case the names, then sort the pairs. */
  function CanonicalHeaders(hs: seq<Header>): seq<Header> { Sort(LowerNames(hs)) }

  /** Metadata does not depend on header order or on the case of header names. */
  lemma CanonicalHeadersInvariant(gs: seq<Header>, hs: seq<Header>)
    requires multiset(LowerNames(gs)) == multiset(LowerNames(hs))
    ensures CanonicalHeaders(gs) == CanonicalHeaders(hs)
  {
    SortSorts(LowerNames(gs));
    SortSorts(LowerNames(hs));
    SortedUnique(CanonicalHeaders(gs), CanonicalHeaders(hs));
  }

  // ---- What canonical headers are, letter by letter ----

  /** The same letter of the ASCII alphabet in the two cases. */
  predicate OtherCase(x: char, y: char) {
    ('A' <= x <= 'Z' && y as int == x as int + 32) || ('A' <= y <= 'Z' && x as int == y as int + 32)
  }

  predicate SameButCase(a: string, b: string) {
    |a| == |b| && forall i :: 0 <= i < |a| ==> a[i] == b[i] || OtherCase(a[i], b[i])
  }

  lemma LowerCharIff(x: char, y: char)
    ensures LowerChar(x) == LowerChar(y) <==> x == y || OtherCase(x, y)
    ensures !('A' <= LowerChar(x) <= 'Z') && (LowerChar(x) == x || OtherCase(x, LowerChar(x)))
  {
  }

  /** Lower-casing identifies exactly the names that differ in letter case alone, leaves no capital and
      changes nothing else. */
  lemma LowerIff(a: string, b: string)
    ensures Lower(a) == Lower(b) <==> SameButCase(a, b)
    ensures SameButCase(a, Lower(a)) && forall i :: 0 <= i < |Lower(a)| ==> !('A' <= Lower(a)[i] <= 'Z')
  {
    forall i | 0 <= i < |a| ensures !('A' <= LowerChar(a[i]) <= 'Z') && (a[i] == LowerChar(a[i]) || OtherCase(a[i], LowerChar(a[i]))) {
      LowerCharIff(a[i], a[i]);
    }
    forall i | 0 <= i < |a| && i < |b| ensures LowerChar(a[i]) == LowerChar(b[i]) <==> a[i] == b[i] || OtherCase(a[i], b[i]) {
      LowerCharIff(a[i], b[i]);
    }
    hide LowerChar, OtherCase;
    if Lower(a) == Lower(b) {
      forall i | 0 <= i < |a| ensures LowerChar(a[i]) == LowerChar(b[i]) { assert Lower(a)[i] == Lower(b)[i]; }
    }
  }

  /** `a` comes before `b` by the first byte they differ in, or because it is the shorter. */
  predicate Before(a: string, b: string) {
    a <= b || exists i :: 0 <= i < |a| && i < |b| && a[..i] == b[..i] && a[i] < b[i]
  }

  lemma {:induction false} LexLeqIsBefore(a: string, b: string)
    ensures LexLeq(a, b) <==> Before(a, b)
  {
    if a != "" && b != "" && a[0] == b[0] {
      LexLeqIsBefore(a[1..], b[1..]);
      BeforeTail(a, b);
    } else if a != "" && b != "" {
      FirstByteDecides(a, b);
    }
  }

  lemma FirstByteDecides(a: string, b: string)
    requires a != "" && b != "" && a[0] != b[0]
    ensures Before(a, b) <==> a[0] < b[0]
  {
    if a[0] < b[0] { assert a[..0] == b[..0]; }
    forall i | 0 < i < |a| && i < |b| ensures a[..i] != b[..i] { SamePrefixSameHead(a, b, i); }
  }

  lemma SamePrefixSameHead(a: string, b: string, i: nat)
    requires 0 < i <= |a| && i <= |b|
    ensures a[..i] == b[..i] ==> a[0] == b[0]
  {
    if a[..i] == b[..i] { assert a[..i][0] == b[..i][0]; }
  }

  lemma BeforeTail(a: string, b: string)
    requires a != "" && b != "" && a[0] == b[0]
    ensures Before(a, b) <==> Before(a[1..], b[1..])
  {
    Slices.HeadAndTail(a);
    Slices.HeadAndTail(b);
    assert a <= b <==> a[1..] <= b[1..] by {
      if a <= b { assert forall i :: 0 <= i < |a[1..]| ==> a[1..][i] == b[1..][i]; }
    }
    if i :| 0 <= i < |a| && i < |b| && a[..i] == b[..i] && a[i] < b[i] {
      assert a[1..][..i - 1] == a[..i][1..] && b[1..][..i - 1] == b[..i][1..];
      assert a[1..][i - 1] < b[1..][i - 1];
    }
    if i :| 0 <= i < |a[1..]| && i < |b[1..]| && a[1..][..i] == b[1..][..i] && a[1..][i] < b[1..][i] {
      assert a[..i + 1] == [a[0]] + a[1..][..i] && b[..i + 1] == [b[0]] + b[1..][..i];
      assert a[i + 1] < b[i + 1];
    }
  }

  /** Canonical headers are the given ones, names in lower case, ascending by name and then by value. */
  lemma CanonicalHeadersMean(hs: seq<Header>)
    ensures var low, c := LowerNames(hs), CanonicalHeaders(hs);
      && |low| == |hs| && multiset(c) == multiset(low)
      && (forall i :: 0 <= i < |hs| ==> SameButCase(hs[i].0, low[i].0) && low[i].1 == hs[i].1)
      && (forall h :: h in c ==> forall k :: 0 <= k < |h.0| ==> !('A' <= h.0[k] <= 'Z'))
      && (forall i, j :: 0 <= i < j < |c| ==> Before(c[i].0, c[j].0) && (c[i].0 == c[j].0 ==> Before(c[i].1, c[j].1)))
  {
    var low, c := LowerNames(hs), CanonicalHeaders(hs);
    SortSorts(low);
    forall i | 0 <= i < |hs| ensures SameButCase(hs[i].0, low[i].0) { LowerIff(hs[i].0, ""); }
    forall h | h in c ensures forall k :: 0 <= k < |h.0| ==> !('A' <= h.0[k] <= 'Z') {
      assert h in multiset(c) && h in low;
      var i :| 0 <= i < |low| && low[i] == h;
      LowerIff(hs[i].0, "");
    }
    forall i, j | 0 <= i < j < |c| ensures Before(c[i].0, c[j].0) && (c[i].0 == c[j].0 ==> Before(c[i].1, c[j].1)) {
      HeadersInOrder(c, i, j);
    }
    hide *;
  }

  lemma HeadersInOrder(c: seq<Header>, i: nat, j: nat)
    requires Sorted(c) && i < j < |c|
    ensures Before(c[i].0, c[j].0) && (c[i].0 == c[j].0 ==> Before(c[i].1, c[j].1))
  {
    LexLeqIsBefore(c[i].0, c[j].0);
    LexLeqIsBefore(c[i].1, c[j].1);
    assert HeaderLeq(c[i], c[j]);
  }

  lemma {:induction false} PermutedLowers(gs: seq<Header>, hs: seq<Header>)
    requires multiset(gs) == multiset(hs)
    ensures multiset(LowerNames(gs)) == multiset(LowerNames(hs))
    decreases |gs|
  {
    if gs == [] {
      assert |multiset(hs)| == |hs| == 0;
    } else {
      assert gs[0] in multiset(hs);
      var k :| 0 <= k < |hs| && hs[k] == gs[0];
      var rest := hs[..k] + hs[k + 1..];
      Slices.WithoutOne(hs, k);
      Slices.TailWithoutHead(gs);
      hide Lower;
      PermutedLowers(gs[1..], rest);
      LowersSplit(hs, k);
      LowersTail(gs);
    }
  }

  lemma LowersTail(gs: seq<Header>)
    requires gs != []
    ensures multiset(LowerNames(gs)) == multiset(LowerNames(gs[1..])) + multiset{(Lower(gs[0].0), gs[0].1)}
  {
    assert LowerNames(gs)[1..] == LowerNames(gs[1..]);
    Slices.TailWithoutHead(LowerNames(gs));
  }

  lemma LowersSplit(hs: seq<Header>, k: nat)
    requires k < |hs|
    ensures multiset(LowerNames(hs)) == multiset(LowerNames(hs[..k] + hs[k + 1..])) + multiset{(Lower(hs[k].0), hs[k].1)}
  {
    var a, x, b := LowerNames(hs[..k]), (Lower(hs[k].0), hs[k].1), LowerNames(hs[k + 1..]);
    assert LowerNames(hs) == a + [x] + b;
    assert LowerNames(hs[..k] + hs[k + 1..]) == a + b;
  }

  /** Metadata is the same for headers in another order and with names in another letter case. */
  lemma CanonicalIgnoresOrderAndCase(gs: seq<Header>, permuted: seq<Header>, hs: seq<Header>)
    requires multiset(gs) == multiset(permuted) && |permuted| == |hs|
    requires forall i :: 0 <= i < |hs| ==> SameButCase(permuted[i].0, hs[i].0) && permuted[i].1 == hs[i].1
    ensures CanonicalHeaders(gs) == CanonicalHeaders(hs)
  {
    PermutedLowers(gs, permuted);
    forall i | 0 <= i < |hs| ensures Lower(permuted[i].0) == Lower(hs[i].0) { LowerIff(permuted[i].0, hs[i].0); }
    hide Lower;
    assert LowerNames(permuted) == LowerNames(hs);
    CanonicalHeadersInvariant(gs, hs);
  }

  /** The stored pairs come back from the ordered query as they were hashed. */
  lemma QueryReturnsCanonical(hs: seq<Header>, stored: seq<Header>)
    requires multiset(stored) == multiset(CanonicalHeaders(hs))
    ensures Sort(stored) == CanonicalHeaders(hs)
  {
    SortSorts(LowerNames(hs));
    SortSorts(stored);
    SortedUnique(Sort(stored), CanonicalHeaders(hs));
  }

  // ---- Appending ----------------------------------------------------------------------------

  datatype Fields = Fields(
    timestamp: string, eventType: string, target: string, bodySha256: string, size: int,
    contentType: string, headers: seq<Header>)

  /** The row `insert_event` stores after a chain `es`, as the ordered query returns it. */
  function NewEvent(ctx: Ctx, es: seq<Event>, id: int, f: Fields): Event {
    var headers := CanonicalHeaders(f.headers);
    var meta := MetaSha(ctx.crypto, f.contentType, headers);
    var prev := PrevOf(es, |es|);
    var unsigned := EventRow(id, f.timestamp, f.eventType, f.target, f.bodySha256, f.size, f.contentType, meta, "", prev);
    Event(unsigned.(hmac := EventMac(ctx, prev, unsigned)), headers)
  }

  /** A row carries what its writer was given: every field, and the headers with their names in lower case. */
  predicate Carries(e: Event, f: Fields) {
    && e.row.timestamp == f.timestamp && e.row.eventType == f.eventType && e.row.target == f.target
    && e.row.bodySha256 == f.bodySha256 && e.row.size == f.size && e.row.contentType == f.contentType
    && multiset(e.headers) == multiset(LowerNames(f.headers))
  }

  /** The appended row carries the given fields and id, and is linked to the head. */
  lemma NewEventCarries(ctx: Ctx, es: seq<Event>, id: int, f: Fields)
    ensures var e := NewEvent(ctx, es, id, f);
      Carries(e, f) && e.row.id == id && e.row.prevHmac == (if es == [] then "" else es[|es| - 1].row.hmac)
  {
    SortSorts(LowerNames(f.headers));
    hide EventMac, MetaSha, Sort, Sorted;
  }

  /** What an append must respect for its row to be one the verifiers know. */
  predicate WellFormed(d: Dialect, ctx: Ctx, f: Fields) {
    var headers := CanonicalHeaders(f.headers);
    var row := EventRow(0, f.timestamp, f.eventType, f.target, f.bodySha256, f.size, f.contentType, "", "", "");
    && KnownType(f.eventType) && TimestampOk(d, f.timestamp)
    && (IsBody(f.eventType) || f.eventType == "format" ==> f.target == ctx.world)
    && (f.eventType == "format" ==> FORMAT_HEADER in headers)
    && (IsDelete(f.eventType) ==> (if d.Engine? then EngineDelete(row, headers) else MirrorDelete(row, headers)).None?)
  }

  lemma SubjectIgnoresDigests(row: EventRow, a: EventRow, headers: seq<Header>)
    requires row.target == a.target && row.bodySha256 == a.bodySha256
    ensures EngineDelete(row, headers) == EngineDelete(a, headers)
    ensures MirrorDelete(row, headers) == MirrorDelete(a, headers)
  {
    hide CanonicalWorld, IsLowerHex, IsHmacLabel, HasReserved, IsMemoryWorld, Values, AllDigits, DecValue;
  }

  lemma MacIgnoresDigestFields(ctx: Ctx, prev: string, row: EventRow, hmac: string)
    ensures EventMac(ctx, prev, row.(hmac := hmac)) == EventMac(ctx, prev, row)
  {
    assert HmacFields(ctx, prev, row.(hmac := hmac)) == HmacFields(ctx, prev, row);
  }

  lemma NewEventVerifies(d: Dialect, ctx: Ctx, es: seq<Event>, id: int, f: Fields)
    requires WellFormed(d, ctx, f)
    ensures VerifyEvent(d, ctx, NewEvent(ctx, es, id, f), PrevOf(es, |es|)).None?
  {
    var e := NewEvent(ctx, es, id, f);
    var bare := EventRow(0, f.timestamp, f.eventType, f.target, f.bodySha256, f.size, f.contentType, "", "", "");
    SubjectIgnoresDigests(e.row, bare, e.headers);
    MacIgnoresDigestFields(ctx, PrevOf(es, |es|), e.row, "");
    hide EngineDelete, MirrorDelete, EventMac, MetaSha, TimestampOk, FORMAT_HEADER, CanonicalHeaders;
    assert e.row.(hmac := "").(hmac := e.row.hmac) == e.row;
  }

  /** A chain built by appends alone, ids chosen by the store. */
  function Written(ctx: Ctx, fs: seq<Fields>, ids: seq<int>): seq<Event>
    requires |fs| == |ids|
  {
    if fs == [] then []
    else
      var n := |fs| - 1;
      var before := Written(ctx, fs[..n], ids[..n]);
      before + [NewEvent(ctx, before, ids[n], fs[n])]
  }

  /** Writer and verifier agree: any sequence of well-formed appends is a chain of that many rows which
      the verifier accepts, and growing it later changes none of the rows already there. */
  lemma {:induction false} WrittenAccepted(d: Dialect, ctx: Ctx, fs: seq<Fields>, ids: seq<int>)
    requires |fs| == |ids| && forall i :: 0 <= i < |fs| ==> WellFormed(d, ctx, fs[i])
    ensures |Written(ctx, fs, ids)| == |fs| && Accepted(d, ctx, Written(ctx, fs, ids))
  {
    if fs != [] {
      var n := |fs| - 1;
      var before := Written(ctx, fs[..n], ids[..n]);
      assert forall i :: 0 <= i < n ==> fs[..n][i] == fs[i];
      WrittenAccepted(d, ctx, fs[..n], ids[..n]);
      NewEventVerifies(d, ctx, before, ids[n], fs[n]);
      AcceptedSnoc(d, ctx, before, NewEvent(ctx, before, ids[n], fs[n]));
    }
  }

  /** Row `i` of an appended chain carries what the `i`-th append was given, under the id the store chose. */
  lemma {:induction false} WrittenCarries(ctx: Ctx, fs: seq<Fields>, ids: seq<int>, i: nat)
    requires |fs| == |ids| && i < |fs|
    ensures |Written(ctx, fs, ids)| == |fs|
    ensures Carries(Written(ctx, fs, ids)[i], fs[i]) && Written(ctx, fs, ids)[i].row.id == ids[i]
    decreases |fs|
  {
    var n := |fs| - 1;
    var before := Written(ctx, fs[..n], ids[..n]);
    assert Written(ctx, fs, ids) == before + [NewEvent(ctx, before, ids[n], fs[n])];
    hide Carries, NewEvent, Written;
    WrittenLength(ctx, fs[..n], ids[..n]);
    NewEventCarries(ctx, before, ids[n], fs[n]);
    if i < n { WrittenCarries(ctx, fs[..n], ids[..n], i); }
  }

  lemma SliceOfSlice<T>(s: seq<T>, n: nat, k: nat)
    requires k <= n <= |s|
    ensures s[..n][..k] == s[..k]
  {
  }

  lemma {:induction false} WrittenGrows(ctx: Ctx, fs: seq<Fields>, ids: seq<int>, k: nat)
    requires |fs| == |ids| && k <= |fs|
    ensures |Written(ctx, fs, ids)| == |fs| && Written(ctx, fs, ids)[..k] == Written(ctx, fs[..k], ids[..k])
  {
    if k == |fs| {
      assert fs[..k] == fs && ids[..k] == ids;
      WrittenLength(ctx, fs, ids);
    } else {
      var n := |fs| - 1;
      WrittenGrows(ctx, fs[..n], ids[..n], k);
      SliceOfSlice(fs, n, k);
      SliceOfSlice(ids, n, k);
      var before := Written(ctx, fs[..n], ids[..n]);
      assert Written(ctx, fs, ids) == before + [NewEvent(ctx, before, ids[n], fs[n])];
      hide NewEvent, Written;
      assert (before + [NewEvent(ctx, before, ids[n], fs[n])])[..k] == before[..k];
    }
  }

  lemma {:induction false} WrittenLength(ctx: Ctx, fs: seq<Fields>, ids: seq<int>)
    requires |fs| == |ids|
    ensures |Written(ctx, fs, ids)| == |fs|
  {
    if fs != [] { WrittenLength(ctx, fs[..|fs| - 1], ids[..|fs| - 1]); }
  }

  // ---- Delete rows --------------------------------------------------------------------------

  /** The verified head of the world being deleted. */
  datatype Subject = Subject(world: string, generation: string, position: nat, bodySha256: string, hmac: string)

  function SubjectHeaders(s: Subject): seq<Header> {
    [(SUBJECT_WORLD, s.world), (SUBJECT_GENERATION, s.generation), (SUBJECT_SEQ, Dec(s.position)),
     (SUBJECT_BODY, s.bodySha256), (SUBJECT_HMAC, s.hmac)]
  }

  predicate ValidSubject(s: Subject) {
    CanonicalWorld(s.world) && IsLowerHex(s.generation, 32) && 0 < s.position <= I64_MAX
    && IsLowerHex(s.bodySha256, 64) && IsHmacLabel(s.hmac)
  }

  lemma {:induction false} ValuesConcat(a: seq<Header>, b: seq<Header>, name: string)
    ensures Values(a + b, name) == Values(a, name) + Values(b, name)
  {
    if a == [] {
      assert a + b == b;
    } else {
      var head := if a[0].0 == name then [a[0].1] else [];
      ValuesConcat(a[1..], b, name);
      Slices.TailOfConcat(a, b);
      Slices.Assoc(head, Values(a[1..], name), Values(b, name));
    }
  }

  lemma {:induction false} ValuesOfInsert(h: Header, hs: seq<Header>, name: string)
    ensures multiset(Values(Insert(h, hs), name)) == multiset(Values([h] + hs, name))
  {
    if hs != [] && !HeaderLeq(h, hs[0]) {
      ValuesOfInsert(h, hs[1..], name);
      hide HeaderLeq, Values;
      ValuesCons(h, hs, name);
      ValuesCons(h, hs[1..], name);
      ValuesCons(hs[0], Insert(h, hs[1..]), name);
      ValuesCons(hs[0], hs[1..], name);
      Slices.HeadAndTail(hs);
    }
  }

  lemma ValuesCons(h: Header, hs: seq<Header>, name: string)
    ensures multiset(Values([h] + hs, name)) == (if h.0 == name then multiset{h.1} else multiset{}) + multiset(Values(hs, name))
  {
    assert ([h] + hs)[1..] == hs;
  }

  lemma {:induction false} ValuesOfSort(hs: seq<Header>, name: string)
    ensures multiset(Values(Sort(hs), name)) == multiset(Values(hs, name))
  {
    if hs != [] {
      ValuesOfSort(hs[1..], name);
      ValuesOfInsert(hs[0], Sort(hs[1..]), name);
      assert ([hs[0]] + Sort(hs[1..]))[1..] == Sort(hs[1..]);
    }
  }

  lemma {:induction false} UnreservedHasNoValues(hs: seq<Header>, name: string)
    requires !HasReserved(hs) && SUBJECT_PREFIX <= name
    ensures Values(LowerNames(hs), name) == []
  {
    if hs != [] {
      assert LowerNames(hs)[0].0 == Lower(hs[0].0) && LowerNames(hs)[1..] == LowerNames(hs[1..]);
      assert !HasReserved(hs[1..]) by {
        forall i | 0 <= i < |hs[1..]| ensures !(SUBJECT_PREFIX <= Lower(hs[1..][i].0)) {
          assert hs[1..][i] == hs[i + 1];
        }
      }
      UnreservedHasNoValues(hs[1..], name);
    }
  }

  lemma OneValueOfMultiset(vs: seq<string>, v: string)
    requires multiset(vs) == multiset{v}
    ensures vs == [v]
  {
    assert |multiset(vs)| == |vs|;
    assert vs[0] in multiset(vs);
  }

  predicate NoUpper(s: string) { forall i :: 0 <= i < |s| ==> !('A' <= s[i] <= 'Z') }

  lemma LowerFixes(a: string, b: string)
    requires NoUpper(a) && NoUpper(b)
    ensures Lower(a + b) == a + b
  {
  }

  lemma SubjectNamesLower()
    ensures Lower(SUBJECT_WORLD) == SUBJECT_WORLD && Lower(SUBJECT_GENERATION) == SUBJECT_GENERATION
    ensures Lower(SUBJECT_SEQ) == SUBJECT_SEQ && Lower(SUBJECT_BODY) == SUBJECT_BODY
    ensures Lower(SUBJECT_HMAC) == SUBJECT_HMAC
  {
    LowerFixes(SUBJECT_PREFIX, "world");
    LowerFixes(SUBJECT_PREFIX, "generation");
    LowerFixes(SUBJECT_PREFIX, "seq");
    LowerFixes(SUBJECT_PREFIX, "body-sha256");
    LowerFixes(SUBJECT_PREFIX, "hmac");
  }

  predicate DistinctNames(hs: seq<Header>) { forall i, j :: 0 <= i < j < |hs| ==> hs[i].0 != hs[j].0 }

  lemma SubjectHeadersShape(s: Subject)
    ensures DistinctNames(SubjectHeaders(s)) && LowerNames(SubjectHeaders(s)) == SubjectHeaders(s)
    ensures forall k :: 0 <= k < 5 ==> SUBJECT_PREFIX <= SubjectHeaders(s)[k].0
  {
    SubjectNamesLower();
    assert |SUBJECT_WORLD| == 29 && |SUBJECT_GENERATION| == 34 && |SUBJECT_SEQ| == 27 && |SUBJECT_BODY| == 35
        && |SUBJECT_HMAC| == 28;
  }

  lemma {:induction false} DistinctNameHasOneValue(own: seq<Header>, k: nat)
    requires DistinctNames(own) && k < |own|
    ensures Values(own, own[k].0) == [own[k].1]
  {
    if k == 0 {
      NoOtherValues(own[1..], own[0].0);
    } else {
      DistinctNameHasOneValue(own[1..], k - 1);
    }
  }

  lemma OwnHeaderIsSingle(user: seq<Header>, own: seq<Header>, k: nat)
    requires !HasReserved(user) && DistinctNames(own) && LowerNames(own) == own
    requires k < |own| && SUBJECT_PREFIX <= own[k].0
    ensures Values(CanonicalHeaders(user + own), own[k].0) == [own[k].1]
  {
    var name, lowered := own[k].0, LowerNames(user + own);
    UnreservedHasNoValues(user, name);
    assert lowered == LowerNames(user) + own;
    hide *;
    ValuesConcat(LowerNames(user), own, name);
    DistinctNameHasOneValue(own, k);
    ValuesOfSort(lowered, name);
    assert [] + [own[k].1] == [own[k].1];
    OneValueOfMultiset(Values(Sort(lowered), name), own[k].1);
  }

  lemma SubjectValues(user: seq<Header>, s: Subject)
    requires !HasReserved(user)
    ensures var headers := CanonicalHeaders(user + SubjectHeaders(s));
      && Values(headers, SUBJECT_WORLD) == [s.world] && Values(headers, SUBJECT_GENERATION) == [s.generation]
      && Values(headers, SUBJECT_SEQ) == [Dec(s.position)] && Values(headers, SUBJECT_BODY) == [s.bodySha256]
      && Values(headers, SUBJECT_HMAC) == [s.hmac]
  {
    SubjectHeadersShape(s);
    hide HasReserved, CanonicalHeaders, Values, Dec;
    OwnHeaderIsSingle(user, SubjectHeaders(s), 0);
    OwnHeaderIsSingle(user, SubjectHeaders(s), 1);
    OwnHeaderIsSingle(user, SubjectHeaders(s), 2);
    OwnHeaderIsSingle(user, SubjectHeaders(s), 3);
    OwnHeaderIsSingle(user, SubjectHeaders(s), 4);
  }

  lemma DeleteTypes(t: string)
    requires IsDelete(t)
    ensures KnownType(t) && !IsBody(t) && t != "format"
  {
  }

  /** The Python subject checks on one value per header: the row number may be any positive decimal. */
  lemma SingleValuesPassMirror(row: EventRow, headers: seq<Header>, s: Subject)
    requires CanonicalWorld(row.target) && row.target == s.world && row.bodySha256 == s.bodySha256
    requires ValidSubject(s.(position := 1)) && s.position > 0
    requires Values(headers, SUBJECT_WORLD) == [s.world] && Values(headers, SUBJECT_GENERATION) == [s.generation]
    requires Values(headers, SUBJECT_SEQ) == [Dec(s.position)] && Values(headers, SUBJECT_BODY) == [s.bodySha256]
    requires Values(headers, SUBJECT_HMAC) == [s.hmac]
    ensures MirrorDelete(row, headers).None?
  {
    DecSpells(s.position);
    hide CanonicalWorld, IsLowerHex, IsHmacLabel, HasReserved, IsMemoryWorld, AllDigits, DecValue, Values, Dec;
  }

  /** The engine's subject checks on them: the row number must fit an i64. */
  lemma SingleValuesPassEngine(row: EventRow, headers: seq<Header>, s: Subject)
    requires CanonicalWorld(row.target) && row.target == s.world && row.bodySha256 == s.bodySha256
    requires ValidSubject(s)
    requires Values(headers, SUBJECT_WORLD) == [s.world] && Values(headers, SUBJECT_GENERATION) == [s.generation]
    requires Values(headers, SUBJECT_SEQ) == [Dec(s.position)] && Values(headers, SUBJECT_BODY) == [s.bodySha256]
    requires Values(headers, SUBJECT_HMAC) == [s.hmac]
    ensures EngineDelete(row, headers).None?
  {
    DecSpells(s.position);
    hide CanonicalWorld, IsLowerHex, IsHmacLabel, HasReserved, IsMemoryWorld, AllDigits, DecValue, Values, Dec;
  }

  /** Every delete row the engine appends verifies: user headers that pass the reserved-name test
      cannot forge, shadow or duplicate the subject proof, whatever their case and order. */
  lemma DeleteRowsVerify(d: Dialect, ctx: Ctx, f: Fields, user: seq<Header>, s: Subject)
    requires IsDelete(f.eventType) && CanonicalTimestamp(f.timestamp)
    requires ValidSubject(s) && f.target == s.world && f.bodySha256 == s.bodySha256
    requires !HasReserved(user) && f.headers == user + SubjectHeaders(s)
    ensures WellFormed(d, ctx, f)
  {
    var headers := CanonicalHeaders(f.headers);
    var bare := EventRow(0, f.timestamp, f.eventType, f.target, f.bodySha256, f.size, f.contentType, "", "", "");
    DeleteTypes(f.eventType);
    SubjectValues(user, s);
    if d.Mirror? { TimestampsCompared(d.isDigit, f.timestamp); }
    hide IsDelete, IsBody, KnownType, SUBJECT_WORLD, SUBJECT_GENERATION, SUBJECT_SEQ, SUBJECT_BODY, SUBJECT_HMAC;
    SingleValuesPassMirror(bare, headers, s);
    SingleValuesPassEngine(bare, headers, s);
    hide MirrorDelete, EngineDelete, CanonicalWorld, IsLowerHex, IsHmacLabel, HasReserved, CanonicalHeaders,
         CanonicalTimestamp, MirrorTimestamp, Ascii, Values, SUBJECT_PREFIX, FORMAT_HEADER, SubjectHeaders;
  }

  lemma {:induction false} NoOtherValues(hs: seq<Header>, name: string)
    requires forall i :: 0 <= i < |hs| ==> hs[i].0 != name
    ensures Values(hs, name) == []
  {
    if hs != [] { NoOtherValues(hs[1..], name); }
  }

  // ---- Rows only the mirror accepts, one family at a time -----------------------------------

  lemma TmpSplit()
    ensures Split("tmp/a") == ["tmp", "a"]
  {
    var w := "tmp/a";
    assert w[1..] == "mp/a" && w[1..][1..] == "p/a" && w[1..][1..][1..] == "/a" && w[1..][1..][1..][1..] == "a";
    assert [""][1..] == [] && ["", "a"][1..] == ["a"] && ["p", "a"][1..] == ["a"] && ["mp", "a"][1..] == ["a"];
    assert ['a'] + "" == "a" && ['p'] + "" == "p" && ['m'] + "p" == "mp" && ['t'] + "mp" == "tmp";
    assert "a"[1..] == "" && Split("") == [""] && Split("a") == ["a"];
    assert "/a"[1..] == "a" && Split("/a") == ["", "a"];
    assert "p/a"[1..] == "/a" && Split("p/a") == ["p", "a"];
    assert "mp/a"[1..] == "p/a" && Split("mp/a") == ["mp", "a"];
  }

  lemma TmpSegmentsGood()
    ensures GoodSegment("tmp") && GoodSegment("a")
  {
    assert PercentDecode("a")[0] == 'a' && PercentDecode("tmp")[0] == 't';
  }

  lemma {:induction false} AsciiIsUtf8(s: string)
    requires forall i :: 0 <= i < |s| ==> s[i] as int < 0x80
    ensures ValidUtf8(s) && IsBytes(s)
    ensures |DiskName(s)| <= 3 * |s|
  {
    if s != "" { AsciiIsUtf8(s[1..]); }
  }

  lemma TmpNotReserved()
    ensures !IsReserved("tmp/a")
  {
    assert "tmp/a"[0] == 't' && "proc/"[0] == 'p' && "proc"[0] == 'p' && "var/log"[0] == 'v';
    assert |"tmp/a"| == 5 && forall i :: 0 <= i < 9 ==> |NAMESPACES[i]| < 5;
  }

  lemma TmpNoControl()
    ensures !HasControl("tmp/a") && '\\' !in "tmp/a"
  {
    forall i | 0 <= i < 5 ensures !ControlAt("tmp/a", i) {
    }
  }

  lemma TmpIsCanonical()
    ensures CanonicalWorld("tmp/a") && IsMemoryWorld("tmp/a")
  {
    TmpSplit();
    TmpSegmentsGood();
    TmpNotReserved();
    TmpNoControl();
    AsciiIsUtf8("tmp/a");
    assert NAMESPACES[1] == "tmp";
    assert "tmp/" <= "tmp/a";
    hide Split, ValidUtf8, GoodSegment, DiskName, IsReserved, HasControl, NAMESPACES, IsBytes;
  }

  const ODD_DELETE := Fields("2026-01-02T03:04:05.678Z", "delete_intent", "tmp/a", "", 0, "", [])

  lemma OddTimestamp()
    ensures CanonicalTimestamp("2026-01-02T03:04:05.678Z")
  {
  }

  lemma NoHeaders()
    ensures CanonicalHeaders([]) == [] && !HasReserved([])
  {
    assert LowerNames([]) == [];
  }

  /** Any row that is well formed for the mirror and of a laxer family, appended to a chain the engine
      accepts, gives a chain only the mirror accepts. */
  lemma LaxerRowSplitsVerifiers(isDigit: string -> bool, ctx: Ctx, es: seq<Event>, id: int, f: Fields)
    requires Accepted(Engine, ctx, es) && WellFormed(Mirror(isDigit), ctx, f) && MirrorLaxer(NewEvent(ctx, es, id, f))
    ensures var grown := es + [NewEvent(ctx, es, id, f)];
            Accepted(Mirror(isDigit), ctx, grown) && !Accepted(Engine, ctx, grown)
  {
    var e := NewEvent(ctx, es, id, f);
    NewEventVerifies(Mirror(isDigit), ctx, es, id, f);
    hide VerifyEvent, NewEvent, MirrorLaxer, WellFormed, Accepted;
    VerifiersAgree(isDigit, ctx, es);
    AcceptedSnoc(Mirror(isDigit), ctx, es, e);
    VerifiersAgree(isDigit, ctx, es + [e]);
    assert (es + [e])[|es|] == e;
  }

  /** First family: a delete of a memory world without subject headers and with a malformed body hash. */
  lemma MalformedHashOnlyMirror(isDigit: string -> bool, ctx: Ctx)
    ensures WellFormed(Mirror(isDigit), ctx, ODD_DELETE) && MirrorLaxer(NewEvent(ctx, [], 1, ODD_DELETE))
    ensures Accepted(Mirror(isDigit), ctx, [NewEvent(ctx, [], 1, ODD_DELETE)])
    ensures !Accepted(Engine, ctx, [NewEvent(ctx, [], 1, ODD_DELETE)])
  {
    TmpIsCanonical();
    OddTimestamp();
    TimestampsCompared(isDigit, ODD_DELETE.timestamp);
    NoHeaders();
    hide CanonicalWorld, IsMemoryWorld, CanonicalHeaders, CanonicalTimestamp, MirrorTimestamp, EventMac, MetaSha, HasReserved, FORMAT_HEADER, Ascii;
    assert WellFormed(Mirror(isDigit), ctx, ODD_DELETE) && MirrorLaxer(NewEvent(ctx, [], 1, ODD_DELETE));
    LaxerRowSplitsVerifiers(isDigit, ctx, [], 1, ODD_DELETE);
    assert [] + [NewEvent(ctx, [], 1, ODD_DELETE)] == [NewEvent(ctx, [], 1, ODD_DELETE)];
  }

  /** Second family: every delete whose subject proof is right but for a row number past i64. */
  lemma HugeSubjectRowOnlyMirror(isDigit: string -> bool, ctx: Ctx, f: Fields, user: seq<Header>, s: Subject)
    requires IsDelete(f.eventType) && CanonicalTimestamp(f.timestamp)
    requires ValidSubject(s.(position := 1)) && s.position > I64_MAX && f.target == s.world && f.bodySha256 == s.bodySha256
    requires !HasReserved(user) && f.headers == user + SubjectHeaders(s)
    ensures WellFormed(Mirror(isDigit), ctx, f) && MirrorLaxer(NewEvent(ctx, [], 1, f))
    ensures Accepted(Mirror(isDigit), ctx, [NewEvent(ctx, [], 1, f)]) && !Accepted(Engine, ctx, [NewEvent(ctx, [], 1, f)])
  {
    HugeSubjectShape(isDigit, ctx, f, user, s);
    hide WellFormed, MirrorLaxer, NewEvent;
    LaxerRowSplitsVerifiers(isDigit, ctx, [], 1, f);
    assert [] + [NewEvent(ctx, [], 1, f)] == [NewEvent(ctx, [], 1, f)];
  }

  lemma HugeSubjectShape(isDigit: string -> bool, ctx: Ctx, f: Fields, user: seq<Header>, s: Subject)
    requires IsDelete(f.eventType) && CanonicalTimestamp(f.timestamp)
    requires ValidSubject(s.(position := 1)) && s.position > I64_MAX && f.target == s.world && f.bodySha256 == s.bodySha256
    requires !HasReserved(user) && f.headers == user + SubjectHeaders(s)
    ensures WellFormed(Mirror(isDigit), ctx, f) && MirrorLaxer(NewEvent(ctx, [], 1, f))
  {
    var headers := CanonicalHeaders(f.headers);
    var bare := EventRow(0, f.timestamp, f.eventType, f.target, f.bodySha256, f.size, f.contentType, "", "", "");
    DeleteTypes(f.eventType);
    SubjectValues(user, s);
    DecSpells(s.position);
    TimestampsCompared(isDigit, f.timestamp);
    ReservedStays(user, s);
    hide IsDelete, IsBody, KnownType, SUBJECT_WORLD, SUBJECT_GENERATION, SUBJECT_SEQ, SUBJECT_BODY, SUBJECT_HMAC;
    SingleValuesPassMirror(bare, headers, s);
    hide MirrorDelete, EngineDelete, CanonicalWorld, IsLowerHex, IsHmacLabel, HasReserved, IsMemoryWorld, CanonicalHeaders, AllDigits, DecValue,
         CanonicalTimestamp, MirrorTimestamp, Ascii, Values, SUBJECT_PREFIX, FORMAT_HEADER, SubjectHeaders, EventMac, MetaSha, Dec;
  }

  lemma {:induction false} ValueHasHeader(hs: seq<Header>, name: string)
    requires Values(hs, name) != []
    ensures exists i :: 0 <= i < |hs| && hs[i].0 == name
  {
    if hs[0].0 != name {
      ValueHasHeader(hs[1..], name);
      var i :| 0 <= i < |hs[1..]| && hs[1..][i].0 == name;
      assert hs[i + 1].0 == name;
    }
  }

  lemma ReservedStays(user: seq<Header>, s: Subject)
    requires !HasReserved(user)
    ensures HasReserved(CanonicalHeaders(user + SubjectHeaders(s)))
  {
    var headers := CanonicalHeaders(user + SubjectHeaders(s));
    SubjectValues(user, s);
    SubjectNamesLower();
    hide CanonicalHeaders, Lower;
    ValueHasHeader(headers, SUBJECT_WORLD);
    var i :| 0 <= i < |headers| && headers[i].0 == SUBJECT_WORLD;
    assert SUBJECT_PREFIX <= Lower(headers[i].0);
  }

  /** Third family: every put or append whose timestamp has a digit beyond ASCII. */
  lemma OddDigitOnlyMirror(isDigit: string -> bool, ctx: Ctx, f: Fields)
    requires IsBody(f.eventType) && f.target == ctx.world && MirrorTimestamp(isDigit, f.timestamp) && !Ascii(f.timestamp)
    ensures Accepted(Mirror(isDigit), ctx, [NewEvent(ctx, [], 1, f)]) && !Accepted(Engine, ctx, [NewEvent(ctx, [], 1, f)])
  {
    hide CanonicalHeaders, MirrorTimestamp, Ascii, FORMAT_HEADER, EventMac, MetaSha, MirrorDelete;
    LaxerRowSplitsVerifiers(isDigit, ctx, [], 1, f);
    assert [] + [NewEvent(ctx, [], 1, f)] == [NewEvent(ctx, [], 1, f)];
  }

  /** SUPERSCRIPT TWO, a digit to `str.isdigit`. */
  const SUPERSCRIPT_TWO: string := [0xC2 as char, 0xB2 as char]
  const ODD_TIMESTAMP: string := ODD_FRONT + (SUPERSCRIPT_TWO + "Z")

  lemma {:induction false} CodePointsConcat(a: string, b: string)
    requires Ascii(a)
    ensures ValidUtf8(b) ==> ValidUtf8(a + b)
    ensures CodePoints(a + b) == CodePoints(a) + CodePoints(b)
  {
    if a == "" {
      assert a + b == b;
    } else {
      CodePointsConcat(a[1..], b);
      assert (a + b)[1..] == a[1..] + b && (a + b)[..1] == a[..1];
    }
  }

  lemma OddTimestampTail()
    ensures ValidUtf8(SUPERSCRIPT_TWO + "Z") && CodePoints(SUPERSCRIPT_TWO + "Z") == [SUPERSCRIPT_TWO, "Z"]
  {
    var t := SUPERSCRIPT_TWO + "Z";
    assert t[2..] == "Z" && t[..2] == SUPERSCRIPT_TWO && Utf8Lead(t) == 2;
    assert "Z"[1..] == "" && "Z"[..1] == "Z" && Utf8Lead("Z") == 1;
    assert CodePoints("Z") == ["Z"];
  }

  const ODD_FRONT := "2026-01-02T03:04:05.67"

  lemma OddFront()
    ensures |ODD_FRONT| == 22 && Ascii(ODD_FRONT)
    ensures ODD_FRONT[4] == '-' && ODD_FRONT[7] == '-' && ODD_FRONT[10] == 'T' && ODD_FRONT[13] == ':'
    ensures ODD_FRONT[16] == ':' && ODD_FRONT[19] == '.'
    ensures forall i :: 0 <= i < 22 && !IsTimestampPunctuation(i) ==> IsDigit(ODD_FRONT[i])
  {
  }

  lemma OddPoints(p: seq<string>)
    requires p == CodePoints(ODD_TIMESTAMP)
    ensures |p| == 24 && ValidUtf8(ODD_TIMESTAMP) && p[22] == SUPERSCRIPT_TWO && p[23] == "Z"
    ensures |ODD_FRONT| == 22 && forall i :: 0 <= i < 22 ==> p[i] == [ODD_FRONT[i]]
  {
    OddFront();
    OddTimestampTail();
    AsciiCodePoints(ODD_FRONT);
    CodePointsConcat(ODD_FRONT, SUPERSCRIPT_TWO + "Z");
    hide CodePoints, ValidUtf8, Utf8Lead, ODD_FRONT, SUPERSCRIPT_TWO, Ascii;
  }

  /** The third family is inhabited on any Python that takes a superscript two for a digit. */
  lemma OddTimestampPasses(isDigit: string -> bool)
    requires isDigit(SUPERSCRIPT_TWO)
    ensures MirrorTimestamp(isDigit, ODD_TIMESTAMP) && !Ascii(ODD_TIMESTAMP)
  {
    var p := CodePoints(ODD_TIMESTAMP);
    OddFront();
    OddPoints(p);
    assert !Ascii(SUPERSCRIPT_TWO) by { assert SUPERSCRIPT_TWO[0] as int >= 0x80; }
    assert !Ascii(ODD_TIMESTAMP) by { assert ODD_TIMESTAMP[22] as int >= 0x80; }
    hide CodePoints, ValidUtf8, Utf8Lead, ODD_FRONT, ODD_TIMESTAMP, SUPERSCRIPT_TWO;
    forall i | 0 <= i < 24 && !IsTimestampPunctuation(i) ensures PythonDigit(isDigit, p[i]) {
      if i < 22 { assert Ascii([ODD_FRONT[i]]); }
    }
  }
}
