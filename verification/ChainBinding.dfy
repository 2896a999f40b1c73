/** What a chain head commits to, by explicit reduction to a digest collision; ETags over heads. */
module ChainBinding {
  import opened Framing
  import opened AuditChain

  /** Either the claim holds, or here are two different byte strings with one digest. */
  datatype Outcome = Holds | HmacCollision(x: string, y: string) | ShaCollision(x: string, y: string)

  predicate Justified(c: Crypto, key: string, o: Outcome) {
    match o
    case Holds => true
    case HmacCollision(x, y) => x != y && c.hmac(key, x) == c.hmac(key, y)
    case ShaCollision(x, y) => x != y && c.sha256(x) == c.sha256(y)
  }

  /** A hex digest is never the empty string, which is what the first row's `prev` holds. */
  ghost predicate NonEmptyMacs(c: Crypto) { forall k, m :: c.hmac(k, m) != "" }

  /** Equal in everything but the storage row id. */
  predicate SameEvent(a: Event, b: Event) {
    a.row.(id := 0) == b.row.(id := 0) && a.headers == b.headers
  }

  predicate SameHistory(ctx1: Ctx, es1: seq<Event>, ctx2: Ctx, es2: seq<Event>) {
    ctx1.world == ctx2.world && ctx1.generation == ctx2.generation && |es1| == |es2|
    && forall i :: 0 <= i < |es1| ==> SameEvent(es1[i], es2[i])
  }

  lemma MessagesInjective(ctx1: Ctx, prev1: string, row1: EventRow, ctx2: Ctx, prev2: string, row2: EventRow)
    requires EventMessage(ctx1, prev1, row1) == EventMessage(ctx2, prev2, row2)
    ensures prev1 == prev2 && ctx1.world == ctx2.world && ctx1.generation == ctx2.generation
    ensures row1.timestamp == row2.timestamp && row1.eventType == row2.eventType && row1.target == row2.target
    ensures row1.bodySha256 == row2.bodySha256 && row1.size == row2.size
    ensures row1.contentType == row2.contentType && row1.metaSha256 == row2.metaSha256
  {
    var f1, f2 := HmacFields(ctx1, prev1, row1), HmacFields(ctx2, prev2, row2);
    FramesInjective(HMAC_TAGS, f1, f2);
    assert f1[0] == f2[0] && f1[1] == f2[1] && f1[2] == f2[2] && f1[3] == f2[3] && f1[4] == f2[4]
        && f1[5] == f2[5] && f1[6] == f2[6] && f1[7] == f2[7] && f1[8] == f2[8] && f1[9] == f2[9];
    DecIntInjective(row1.size, row2.size);
  }

  lemma PassedRow(d: Dialect, ctx: Ctx, e: Event, prev: string)
    requires VerifyEvent(d, ctx, e, prev).None?
    ensures e.row.prevHmac == prev && e.row.hmac == EventMac(ctx, prev, e.row)
    ensures e.row.metaSha256 == MetaSha(ctx.crypto, e.row.contentType, e.headers)
    ensures TimestampOk(d, e.row.timestamp) && KnownType(e.row.eventType)
  {
    hide MirrorDelete, EngineDelete, EventMac, MetaSha, FORMAT_HEADER, TimestampOk;
  }

  /** Two accepted rows with one HMAC are the same event under the same identity, or collide. */
  lemma BindRow(d1: Dialect, ctx1: Ctx, e1: Event, prev1: string, d2: Dialect, ctx2: Ctx, e2: Event, prev2: string)
    returns (o: Outcome)
    requires ctx1.crypto == ctx2.crypto && ctx1.key == ctx2.key
    requires VerifyEvent(d1, ctx1, e1, prev1).None? && VerifyEvent(d2, ctx2, e2, prev2).None?
    requires e1.row.hmac == e2.row.hmac
    ensures Justified(ctx1.crypto, ctx1.key, o)
    ensures o == Holds ==> prev1 == prev2 && ctx1.world == ctx2.world && ctx1.generation == ctx2.generation
    ensures o == Holds ==> SameEvent(e1, e2)
  {
    PassedRow(d1, ctx1, e1, prev1);
    PassedRow(d2, ctx2, e2, prev2);
    hide VerifyEvent, Frames, HeaderFrames;
    var m1, m2 := EventMessage(ctx1, prev1, e1.row), EventMessage(ctx2, prev2, e2.row);
    if m1 != m2 { return HmacCollision(m1, m2); }
    MessagesInjective(ctx1, prev1, e1.row, ctx2, prev2, e2.row);
    var t1 := MetaMessage(e1.row.contentType, e1.headers);
    var t2 := MetaMessage(e2.row.contentType, e2.headers);
    if t1 != t2 { return ShaCollision(t1, t2); }
    MetaMessageInjective(e1.row.contentType, e1.headers, e2.row.contentType, e2.headers);
    return Holds;
  }

  /** The link field of a row is empty exactly when the row is the first. */
  lemma LinkEmptyIffFirst(d: Dialect, ctx: Ctx, es: seq<Event>, i: nat)
    requires i < |es| && Accepted(d, ctx, es) && NonEmptyMacs(ctx.crypto)
    ensures PrevOf(es, i) == "" <==> i == 0
  {
    if i > 0 {
      assert OkAt(d, ctx, es, i - 1);
      PassedRow(d, ctx, es[i - 1], PrevOf(es, i - 1));
    }
  }

  /** Chain binding: one head HMAC fixes world, generation, length, and every event and header, unless
      the walk back exposes a collision. The two chains may have been accepted by different verifiers. */
  lemma {:induction false} HeadBindsHistory(
    d1: Dialect, ctx1: Ctx, es1: seq<Event>, d2: Dialect, ctx2: Ctx, es2: seq<Event>) returns (o: Outcome)
    requires ctx1.crypto == ctx2.crypto && ctx1.key == ctx2.key && NonEmptyMacs(ctx1.crypto)
    requires Accepted(d1, ctx1, es1) && Accepted(d2, ctx2, es2) && es1 != [] && es2 != []
    requires es1[|es1| - 1].row.hmac == es2[|es2| - 1].row.hmac
    ensures Justified(ctx1.crypto, ctx1.key, o)
    ensures o == Holds ==> SameHistory(ctx1, es1, ctx2, es2)
    decreases |es1|
  {
    hide VerifyEvent;
    var n1, n2 := |es1| - 1, |es2| - 1;
    assert OkAt(d1, ctx1, es1, n1) && OkAt(d2, ctx2, es2, n2);
    o := BindRow(d1, ctx1, es1[n1], PrevOf(es1, n1), d2, ctx2, es2[n2], PrevOf(es2, n2));
    LinkEmptyIffFirst(d1, ctx1, es1, n1);
    LinkEmptyIffFirst(d2, ctx2, es2, n2);
    if o == Holds && n1 > 0 {
      PrefixAccepted(d1, ctx1, es1, n1);
      PrefixAccepted(d2, ctx2, es2, n2);
      o := HeadBindsHistory(d1, ctx1, es1[..n1], d2, ctx2, es2[..n2]);
      if o == Holds {
        forall i | 0 <= i < |es1| ensures SameEvent(es1[i], es2[i]) {
          if i < n1 { assert SameEvent(es1[..n1][i], es2[..n2][i]); }
        }
      }
    }
  }

  /** All HMACs of an accepted chain are pairwise distinct, unless two messages collide. */
  lemma HmacsDistinct(d: Dialect, ctx: Ctx, es: seq<Event>, i: nat, j: nat) returns (o: Outcome)
    requires Accepted(d, ctx, es) && NonEmptyMacs(ctx.crypto) && i < j < |es|
    ensures Justified(ctx.crypto, ctx.key, o)
    ensures o == Holds ==> es[i].row.hmac != es[j].row.hmac
  {
    o := Holds;
    if es[i].row.hmac == es[j].row.hmac {
      PrefixAccepted(d, ctx, es, i + 1);
      PrefixAccepted(d, ctx, es, j + 1);
      o := HeadBindsHistory(d, ctx, es[..i + 1], d, ctx, es[..j + 1]);
    }
  }

  // ---- ETags and preconditions (section 13.1 of RFC 9110) -----------------------------------

  datatype Matcher = Any | Strong(tag: string) | Weak(tag: string) | Malformed

  predicate StrongMatches(m: Matcher, current: string) { m == Any || m == Strong(current) }
  predicate WeakMatches(m: Matcher, current: string) { m == Any || m == Strong(current) || m == Weak(current) }

  datatype PreconditionError = NeedsExistingWorld | IfMatchFailed | IfNoneMatchFailed

  function CheckPreconditions(ifMatch: seq<Matcher>, ifNoneMatch: seq<Matcher>, current: Option<string>):
    Option<PreconditionError>
  {
    if ifMatch != [] && current.None? then Some(NeedsExistingWorld)
    else if ifMatch != [] && forall m :: m in ifMatch ==> !StrongMatches(m, current.value) then Some(IfMatchFailed)
    else if current.Some? && exists m :: m in ifNoneMatch && WeakMatches(m, current.value) then Some(IfNoneMatchFailed)
    else None
  }

  /** The outcome for any two lists. If-Match needs a world, and a star or the very tag in the list, weak tags
      never counting; If-None-Match is failed by an existing world whose tag is listed, weak or strong, or
      by a star. */
  lemma PreconditionsMean(ifMatch: seq<Matcher>, ifNoneMatch: seq<Matcher>, current: Option<string>)
    ensures var r := CheckPreconditions(ifMatch, ifNoneMatch, current);
      var matched := current.Some? && (Any in ifMatch || Strong(current.value) in ifMatch);
      var excluded := current.Some? && (Any in ifNoneMatch || Strong(current.value) in ifNoneMatch || Weak(current.value) in ifNoneMatch);
      && (r == Some(NeedsExistingWorld) <==> ifMatch != [] && current.None?)
      && (r == Some(IfMatchFailed) <==> ifMatch != [] && current.Some? && !matched)
      && (r == Some(IfNoneMatchFailed) <==> (ifMatch == [] || matched) && excluded)
      && (r == None <==> (ifMatch == [] || matched) && !excluded)
  {
    if current.Some? {
      assert StrongMatches(Any, current.value) && StrongMatches(Strong(current.value), current.value);
      assert WeakMatches(Any, current.value) && WeakMatches(Strong(current.value), current.value) && WeakMatches(Weak(current.value), current.value);
    }
  }

  function HmacEtag(hmac: string): string { "hmac-" + hmac }

  function HeadTag(es: seq<Event>): Option<string> {
    if es == [] then None else Some(HmacEtag(es[|es| - 1].row.hmac))
  }

  lemma EtagsInjective(a: string, b: string)
    ensures HmacEtag(a) == HmacEtag(b) <==> a == b
  {
    assert HmacEtag(a)[5..] == a && HmacEtag(b)[5..] == b;
  }

  /** A single strong If-Match tag read at one head passes against another chain exactly when that
      chain is the same history: same world, same incarnation, no row more and none less. */
  lemma IfMatchNamesOneHistory(
    d1: Dialect, ctx1: Ctx, es1: seq<Event>, d2: Dialect, ctx2: Ctx, es2: seq<Event>) returns (o: Outcome)
    requires ctx1.crypto == ctx2.crypto && ctx1.key == ctx2.key && NonEmptyMacs(ctx1.crypto)
    requires Accepted(d1, ctx1, es1) && Accepted(d2, ctx2, es2) && es1 != []
    ensures Justified(ctx1.crypto, ctx1.key, o)
    ensures o == Holds ==>
              (CheckPreconditions([Strong(HeadTag(es1).value)], [], HeadTag(es2)).None?
               <==> SameHistory(ctx1, es1, ctx2, es2))
  {
    o := Holds;
    var tag := HeadTag(es1).value;
    assert Strong(tag) in [Strong(tag)];
    if es2 != [] {
      EtagsInjective(es1[|es1| - 1].row.hmac, es2[|es2| - 1].row.hmac);
      if es1[|es1| - 1].row.hmac == es2[|es2| - 1].row.hmac {
        o := HeadBindsHistory(d1, ctx1, es1, d2, ctx2, es2);
      } else if |es1| == |es2| {
        assert SameHistory(ctx1, es1, ctx2, es2) ==> SameEvent(es1[|es1| - 1], es2[|es2| - 1]);
      }
    }
  }

  /** The same tag, later, on the chain it was read from: it passes exactly when nothing was appended. */
  lemma IfMatchSeesAppends(d: Dialect, ctx: Ctx, es: seq<Event>, n: nat) returns (o: Outcome)
    requires Accepted(d, ctx, es) && NonEmptyMacs(ctx.crypto) && 0 < n <= |es|
    ensures Justified(ctx.crypto, ctx.key, o)
    ensures o == Holds ==>
              (CheckPreconditions([Strong(HeadTag(es[..n]).value)], [], HeadTag(es)).None? <==> n == |es|)
  {
    PrefixAccepted(d, ctx, es, n);
    o := IfMatchNamesOneHistory(d, ctx, es[..n], d, ctx, es);
    if n == |es| { assert es[..n] == es; }
  }
}
