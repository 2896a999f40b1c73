/** The per-world HMAC audit chain: rows, the two event verifiers, and what they accept.

    HMAC (section 2 of RFC 2104) and SHA-256 are uninterpreted: a `Crypto` value carries one function
    for each, and nothing is known of them but what a lemma asks for. */
module AuditChain {
  import opened Framing
  import opened WorldPath
  import opened EventId

  datatype Crypto = Crypto(hmac: (string, string) -> string, sha256: string -> string)

  datatype EventRow = EventRow(
    id: int, timestamp: string, eventType: string, target: string, bodySha256: string, size: int,
    contentType: string, metaSha256: string, hmac: string, prevHmac: string)

  /** One chain event: its row and the header pairs the ordered query returns with it. */
  datatype Event = Event(row: EventRow, headers: seq<Header>)

  /** The key and identity every row of one chain is bound to. */
  datatype Ctx = Ctx(crypto: Crypto, key: string, world: string, generation: string)

  // ---- What a row's HMAC covers -------------------------------------------------------------

  const HMAC_TAGS: seq<string> :=
    ["prev", "world", "timestamp", "type", "target", "gen", "body-sha256", "size", "content-type", "meta-sha256"]

  function HmacFields(ctx: Ctx, prev: string, row: EventRow): (fields: seq<string>)
    ensures |fields| == 10
  {
    [prev, ctx.world, row.timestamp, row.eventType, row.target, ctx.generation, row.bodySha256,
     DecInt(row.size), row.contentType, row.metaSha256]
  }

  function EventMessage(ctx: Ctx, prev: string, row: EventRow): string {
    Frames(HMAC_TAGS, HmacFields(ctx, prev, row))
  }

  function EventMac(ctx: Ctx, prev: string, row: EventRow): string {
    ctx.crypto.hmac(ctx.key, EventMessage(ctx, prev, row))
  }

  function MetaSha(c: Crypto, contentType: string, headers: seq<Header>): string {
    c.sha256(MetaMessage(contentType, headers))
  }

  // ---- Row checks ---------------------------------------------------------------------------

  const FORMAT_HEADER := ("auditedb-world-format-version", "2")
  const SUBJECT_PREFIX := "auditedb-delete-subject-"
  const SUBJECT_WORLD := SUBJECT_PREFIX + "world"
  const SUBJECT_GENERATION := SUBJECT_PREFIX + "generation"
  const SUBJECT_SEQ := SUBJECT_PREFIX + "seq"
  const SUBJECT_BODY := SUBJECT_PREFIX + "body-sha256"
  const SUBJECT_HMAC := SUBJECT_PREFIX + "hmac"

  predicate IsDelete(t: string) { t == "delete_intent" || t == "delete_commit" || t == "delete_commit_failed" }
  predicate IsBody(t: string) { t == "put" || t == "append" }
  predicate KnownType(t: string) { IsBody(t) || IsDelete(t) || t == "format" }

  function LowerChar(c: char): char { if 'A' <= c <= 'Z' then c - 'A' + 'a' else c }
  function Lower(s: string): string { seq(|s|, i requires 0 <= i < |s| => LowerChar(s[i])) }

  predicate HasReserved(headers: seq<Header>) {
    exists i :: 0 <= i < |headers| && SUBJECT_PREFIX <= Lower(headers[i].0)
  }

  /** Values of every header called exactly `name`, in order. */
  function Values(headers: seq<Header>, name: string): seq<string> {
    if headers == [] then []
    else (if headers[0].0 == name then [headers[0].1] else []) + Values(headers[1..], name)
  }

  predicate IsTimestampPunctuation(i: nat) { i == 4 || i == 7 || i == 10 || i == 13 || i == 16 || i == 19 || i == 23 }

  predicate CanonicalTimestamp(s: string) {
    && |s| == 24
    && s[4] == '-' && s[7] == '-' && s[10] == 'T' && s[13] == ':' && s[16] == ':' && s[19] == '.' && s[23] == 'Z'
    && (forall i :: 0 <= i < 24 && !IsTimestampPunctuation(i) ==> IsDigit(s[i]))
  }

  /** The text as its code points, each still in bytes. */
  function CodePoints(s: string): seq<string>
    decreases |s|
  {
    if Utf8Lead(s) == 0 then [] else [s[..Utf8Lead(s)]] + CodePoints(s[Utf8Lead(s)..])
  }

  predicate Ascii(s: string) { forall i :: 0 <= i < |s| ==> s[i] as int < 0x80 }

  /** Python's `str.isdigit` on one code point; `isDigit` names the digits beyond ASCII. */
  predicate PythonDigit(isDigit: string -> bool, point: string) {
    if Ascii(point) then |point| == 1 && IsDigit(point[0]) else isDigit(point)
  }

  /** `require_timestamp` of the mirror: 24 code points, any Unicode digit. */
  predicate MirrorTimestamp(isDigit: string -> bool, s: string) {
    var p := CodePoints(s);
    && ValidUtf8(s) && |p| == 24
    && p[4] == "-" && p[7] == "-" && p[10] == "T" && p[13] == ":" && p[16] == ":" && p[19] == "." && p[23] == "Z"
    && (forall i :: 0 <= i < 24 && !IsTimestampPunctuation(i) ==> PythonDigit(isDigit, p[i]))
  }

  predicate TimestampOk(d: Dialect, s: string) {
    if d.Engine? then CanonicalTimestamp(s) else MirrorTimestamp(d.isDigit, s)
  }

  predicate IsHmacLabel(s: string) { "hmac-" <= s && IsLowerHex(s[5..], 64) }

  /** A positive decimal without leading zeros: what survives a parse-and-render comparison. */
  predicate CanonicalPositive(s: string) { s != "" && AllDigits(s) && s[0] != '0' }

  datatype Reason =
    | UnknownType | TargetMismatch | FormatUnmarked | DeleteTarget | DeleteBody
    | Missing(name: string) | Duplicated(name: string) | Invalid(name: string)
    | SubjectWorldMismatch | SubjectBodyMismatch
    | PrevMismatch | MetaMismatch | BadTimestamp | HmacMismatch | NoEvents

  datatype Break = Break(at: nat, reason: Reason)

  /** The engine's verifier, or the independent mirror shipped as a tool, which runs on a Python with
      its own notion of a digit. */
  datatype Dialect = Engine | Mirror(isDigit: string -> bool)

  function ExactlyOne(headers: seq<Header>, name: string): Option<Reason> {
    var vs := Values(headers, name);
    if |vs| == 0 then Some(Missing(name)) else if |vs| > 1 then Some(Duplicated(name)) else None
  }

  /** The mirror requires all five subject headers to occur exactly once before it looks at a value. */
  function MirrorCounts(headers: seq<Header>): Option<Reason> {
    if ExactlyOne(headers, SUBJECT_WORLD).Some? then ExactlyOne(headers, SUBJECT_WORLD)
    else if ExactlyOne(headers, SUBJECT_GENERATION).Some? then ExactlyOne(headers, SUBJECT_GENERATION)
    else if ExactlyOne(headers, SUBJECT_SEQ).Some? then ExactlyOne(headers, SUBJECT_SEQ)
    else if ExactlyOne(headers, SUBJECT_BODY).Some? then ExactlyOne(headers, SUBJECT_BODY)
    else ExactlyOne(headers, SUBJECT_HMAC)
  }

  /** `verify_delete_subject_proof` of the mirror. */
  function MirrorSubject(row: EventRow, headers: seq<Header>): Option<Reason> {
    if !HasReserved(headers) && IsMemoryWorld(row.target) then None
    else if !IsLowerHex(row.bodySha256, 64) then Some(DeleteBody)
    else if MirrorCounts(headers).Some? then MirrorCounts(headers)
    else MirrorSubjectValues(row,
      Last(Values(headers, SUBJECT_WORLD)), Last(Values(headers, SUBJECT_GENERATION)),
      Last(Values(headers, SUBJECT_SEQ)), Last(Values(headers, SUBJECT_BODY)), Last(Values(headers, SUBJECT_HMAC)))
  }

  function Last(vs: seq<string>): string { if vs == [] then "" else vs[|vs| - 1] }

  function MirrorSubjectValues(
    row: EventRow, world: string, generation: string, position: string, body: string, hmac: string): Option<Reason>
  {
    if !CanonicalWorld(world) then Some(Invalid(SUBJECT_WORLD))
    else if world != row.target then Some(SubjectWorldMismatch)
    else if !IsLowerHex(generation, 32) then Some(Invalid(SUBJECT_GENERATION))
    else if !CanonicalPositive(position) then Some(Invalid(SUBJECT_SEQ))
    else if !IsLowerHex(body, 64) then Some(Invalid(SUBJECT_BODY))
    else if body != row.bodySha256 then Some(SubjectBodyMismatch)
    else if !IsHmacLabel(hmac) then Some(Invalid(SUBJECT_HMAC))
    else None
  }

  /** `delete_subject_proof_from_headers` of the engine: one header at a time, i64 rows. */
  function EngineSubject(row: EventRow, headers: seq<Header>): Option<Reason> {
    if !HasReserved(headers) && IsMemoryWorld(row.target) then None else
    var world := Values(headers, SUBJECT_WORLD);
    if |world| != 1 then ExactlyOne(headers, SUBJECT_WORLD)
    else if !CanonicalWorld(world[0]) then Some(Invalid(SUBJECT_WORLD))
    else if world[0] != row.target then Some(SubjectWorldMismatch) else
    var generation := Values(headers, SUBJECT_GENERATION);
    if |generation| != 1 then ExactlyOne(headers, SUBJECT_GENERATION)
    else if !IsLowerHex(generation[0], 32) then Some(Invalid(SUBJECT_GENERATION)) else
    var position := Values(headers, SUBJECT_SEQ);
    if |position| != 1 then ExactlyOne(headers, SUBJECT_SEQ)
    else if !(CanonicalPositive(position[0]) && DecValue(position[0]) <= I64_MAX) then Some(Invalid(SUBJECT_SEQ)) else
    var body := Values(headers, SUBJECT_BODY);
    if |body| != 1 then ExactlyOne(headers, SUBJECT_BODY)
    else if !IsLowerHex(body[0], 64) then Some(Invalid(SUBJECT_BODY)) else
    var hmac := Values(headers, SUBJECT_HMAC);
    if |hmac| != 1 then ExactlyOne(headers, SUBJECT_HMAC)
    else if !IsHmacLabel(hmac[0]) then Some(Invalid(SUBJECT_HMAC))
    else if body[0] != row.bodySha256 then Some(SubjectBodyMismatch)
    else None
  }

  function MirrorDelete(row: EventRow, headers: seq<Header>): Option<Reason> {
    if !CanonicalWorld(row.target) then Some(DeleteTarget) else MirrorSubject(row, headers)
  }

  function EngineDelete(row: EventRow, headers: seq<Header>): Option<Reason> {
    if !CanonicalWorld(row.target) then Some(DeleteTarget)
    else if !IsLowerHex(row.bodySha256, 64) then Some(DeleteBody)
    else EngineSubject(row, headers)
  }

  /** The checks both verifiers end with, in the same order. */
  function VerifyDigests(d: Dialect, ctx: Ctx, row: EventRow, headers: seq<Header>, prev: string): Option<Reason> {
    if MetaSha(ctx.crypto, row.contentType, headers) != row.metaSha256 then Some(MetaMismatch)
    else if !TimestampOk(d, row.timestamp) then Some(BadTimestamp)
    else if EventMac(ctx, prev, row) != row.hmac then Some(HmacMismatch)
    else None
  }

  /** `verify_event`, each dialect with its own order of tests. */
  function VerifyEvent(d: Dialect, ctx: Ctx, e: Event, prev: string): Option<Reason> {
    var row := e.row;
    if !KnownType(row.eventType) then Some(UnknownType)
    else if (IsBody(row.eventType) || row.eventType == "format") && row.target != ctx.world then Some(TargetMismatch)
    else match d
      case Mirror(_) =>
        if row.eventType == "format" && FORMAT_HEADER !in e.headers then Some(FormatUnmarked)
        else if IsDelete(row.eventType) && MirrorDelete(row, e.headers).Some? then MirrorDelete(row, e.headers)
        else if row.prevHmac != prev then Some(PrevMismatch)
        else VerifyDigests(d, ctx, row, e.headers, prev)
      case Engine =>
        if row.prevHmac != prev then Some(PrevMismatch)
        else if row.eventType == "format" && FORMAT_HEADER !in e.headers then Some(FormatUnmarked)
        else if IsDelete(row.eventType) && EngineDelete(row, e.headers).Some? then EngineDelete(row, e.headers)
        else VerifyDigests(d, ctx, row, e.headers, prev)
  }

  // ---- Chains -------------------------------------------------------------------------------

  function PrevOf(es: seq<Event>, i: nat): string
    requires i <= |es|
  {
    if i == 0 then "" else es[i - 1].row.hmac
  }

  /** Row `i` passes when checked against the stored HMAC of the row before it. */
  predicate OkAt(d: Dialect, ctx: Ctx, es: seq<Event>, i: nat)
    requires i < |es|
  {
    VerifyEvent(d, ctx, es[i], PrevOf(es, i)).None?
  }

  /** The meaning of an intact chain: every row passes against its predecessor. */
  predicate Accepted(d: Dialect, ctx: Ctx, es: seq<Event>) {
    forall i :: 0 <= i < |es| ==> OkAt(d, ctx, es, i)
  }

  lemma OkAtPrefix(d: Dialect, ctx: Ctx, es: seq<Event>, n: nat, i: nat)
    requires i < n <= |es|
    ensures OkAt(d, ctx, es[..n], i) == OkAt(d, ctx, es, i)
  {
    assert es[..n][i] == es[i] && PrevOf(es[..n], i) == PrevOf(es, i);
  }

  /** Every prefix of an intact chain is intact, which is why truncation needs an outside anchor. */
  lemma PrefixAccepted(d: Dialect, ctx: Ctx, es: seq<Event>, n: nat)
    requires n <= |es| && Accepted(d, ctx, es)
    ensures Accepted(d, ctx, es[..n])
  {
    forall i | 0 <= i < n ensures OkAt(d, ctx, es[..n], i) {
      OkAtPrefix(d, ctx, es, n, i);
    }
  }

  lemma AcceptedSnoc(d: Dialect, ctx: Ctx, es: seq<Event>, e: Event)
    ensures Accepted(d, ctx, es + [e]) <==>
            Accepted(d, ctx, es) && VerifyEvent(d, ctx, e, PrevOf(es, |es|)).None?
  {
    var grown := es + [e];
    assert PrevOf(grown, |es|) == PrevOf(es, |es|) && grown[..|es|] == es;
    if Accepted(d, ctx, grown) {
      PrefixAccepted(d, ctx, grown, |es|);
      assert OkAt(d, ctx, grown, |es|);
    }
    if Accepted(d, ctx, es) && VerifyEvent(d, ctx, e, PrevOf(es, |es|)).None? {
      forall i | 0 <= i < |grown| ensures OkAt(d, ctx, grown, i) {
        if i < |es| { OkAtPrefix(d, ctx, grown, |es|, i); }
      }
    }
  }

  // ---- The two verifiers compared -----------------------------------------------------------

  lemma {:induction false} AsciiCodePoints(s: string)
    requires Ascii(s)
    ensures ValidUtf8(s) && |CodePoints(s)| == |s| && forall i :: 0 <= i < |s| ==> CodePoints(s)[i] == [s[i]]
  {
    if s != "" {
      AsciiCodePoints(s[1..]);
      assert s[..1] == [s[0]];
    }
  }

  /** The mirror's timestamp test is the engine's on ASCII text, and accepts more only beyond it. */
  lemma TimestampsCompared(isDigit: string -> bool, s: string)
    ensures CanonicalTimestamp(s) <==> MirrorTimestamp(isDigit, s) && Ascii(s)
  {
    hide ValidUtf8, CodePoints, Utf8Lead;
    assert CanonicalTimestamp(s) ==> Ascii(s) by {
      assert forall i :: 0 <= i < 24 && IsTimestampPunctuation(i) ==> i in {4, 7, 10, 13, 16, 19, 23};
    }
    if Ascii(s) {
      AsciiCodePoints(s);
      if |s| == 24 {
        PunctuationCompared(s);
        forall i | 0 <= i < 24 ensures PythonDigit(isDigit, [s[i]]) <==> IsDigit(s[i]) { assert Ascii([s[i]]); }
      }
    }
  }

  lemma PunctuationCompared(s: string)
    requires |s| == 24
    ensures (s[4] == '-' && s[7] == '-' && s[10] == 'T' && s[13] == ':' && s[16] == ':' && s[19] == '.' && s[23] == 'Z')
       <==> ([s[4]] == "-" && [s[7]] == "-" && [s[10]] == "T" && [s[13]] == ":" && [s[16]] == ":" && [s[19]] == "." && [s[23]] == "Z")
  {
  }

  /** A delete row the mirror is laxer on: of a memory world, without subject headers and with a
      malformed body hash; or with a subject row number past i64. */
  predicate LaxerDelete(row: EventRow, headers: seq<Header>) {
    if !HasReserved(headers) && IsMemoryWorld(row.target) then !IsLowerHex(row.bodySha256, 64)
    else
      var position := Last(Values(headers, SUBJECT_SEQ));
      CanonicalPositive(position) && DecValue(position) > I64_MAX
  }

  /** The only rows on which the mirror is laxer than the engine: those two families of deletes, and
      rows of any type whose timestamp leaves ASCII. */
  predicate MirrorLaxer(e: Event) {
    !Ascii(e.row.timestamp) || (IsDelete(e.row.eventType) && LaxerDelete(e.row, e.headers))
  }

  lemma SubjectsCompared(row: EventRow, headers: seq<Header>)
    ensures EngineDelete(row, headers).None? <==> MirrorDelete(row, headers).None? && !LaxerDelete(row, headers)
  {
    hide CanonicalWorld, IsLowerHex, IsHmacLabel, HasReserved, IsMemoryWorld, Values, AllDigits, DecValue;
  }

  /** The engine accepts a chain exactly when the mirror does and no row is in a laxer family, whatever
      the mirror's Python takes for a digit: the engine is never the laxer of the two. */
  lemma VerifiersAgree(isDigit: string -> bool, ctx: Ctx, es: seq<Event>)
    ensures Accepted(Engine, ctx, es) <==>
            Accepted(Mirror(isDigit), ctx, es) && forall i :: 0 <= i < |es| ==> !MirrorLaxer(es[i])
  {
    forall i | 0 <= i < |es|
      ensures OkAt(Engine, ctx, es, i) <==> OkAt(Mirror(isDigit), ctx, es, i) && !MirrorLaxer(es[i])
    {
      RowsCompared(isDigit, ctx, es[i], PrevOf(es, i));
    }
    hide OkAt, MirrorLaxer;
  }

  lemma RowsCompared(isDigit: string -> bool, ctx: Ctx, e: Event, prev: string)
    ensures VerifyEvent(Engine, ctx, e, prev).None? <==>
            VerifyEvent(Mirror(isDigit), ctx, e, prev).None? && !MirrorLaxer(e)
  {
    SubjectsCompared(e.row, e.headers);
    TimestampsCompared(isDigit, e.row.timestamp);
    hide EngineDelete, MirrorDelete, LaxerDelete, FORMAT_HEADER, CanonicalTimestamp, MirrorTimestamp, Ascii, MetaSha, EventMac;
  }
}
