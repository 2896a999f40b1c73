/** What an accepted chain is, said of its rows and without the verifiers' order of tests. */
module ChainMeaning {
  import Slices
  import opened Framing
  import opened WorldPath
  import opened EventId
  import opened AuditChain

  /** The header occurs with this value and its name occurs nowhere else. */
  predicate Once(headers: seq<Header>, name: string, value: string) {
    exists i :: 0 <= i < |headers| && headers[i] == (name, value)
                && forall j :: 0 <= j < |headers| && j != i ==> headers[j].0 != name
  }

  predicate Absent(headers: seq<Header>, name: string) { forall i :: 0 <= i < |headers| ==> headers[i].0 != name }

  lemma {:induction false} NoValues(headers: seq<Header>, name: string)
    ensures Values(headers, name) == [] <==> Absent(headers, name)
  {
    if headers != [] {
      NoValues(headers[1..], name);
      if Absent(headers[1..], name) && headers[0].0 != name {
        forall i | 0 <= i < |headers| ensures headers[i].0 != name { if i > 0 { assert headers[1..][i - 1] == headers[i]; } }
      }
      if Absent(headers, name) {
        forall i | 0 <= i < |headers[1..]| ensures headers[1..][i].0 != name { assert headers[1..][i] == headers[i + 1]; }
      }
    }
  }

  lemma OnceHere(headers: seq<Header>, name: string, value: string)
    requires headers != [] && headers[0].0 == name
    ensures Once(headers, name, value) <==> headers[0].1 == value && Absent(headers[1..], name)
  {
    if Once(headers, name, value) {
      var i :| 0 <= i < |headers| && headers[i] == (name, value) && forall j :: 0 <= j < |headers| && j != i ==> headers[j].0 != name;
      assert i == 0;
      forall j | 0 <= j < |headers[1..]| ensures headers[1..][j].0 != name { assert headers[1..][j] == headers[j + 1]; }
    }
    if headers[0].1 == value && Absent(headers[1..], name) {
      forall j | 0 < j < |headers| ensures headers[j].0 != name { assert headers[1..][j - 1] == headers[j]; }
      assert headers[0] == (name, value);
    }
  }

  lemma OnceLater(headers: seq<Header>, name: string, value: string)
    requires headers != [] && headers[0].0 != name
    ensures Once(headers, name, value) <==> Once(headers[1..], name, value)
  {
    var rest := headers[1..];
    if Once(headers, name, value) {
      var i :| 0 <= i < |headers| && headers[i] == (name, value) && forall j :: 0 <= j < |headers| && j != i ==> headers[j].0 != name;
      forall j | 0 <= j < |rest| && j != i - 1 ensures rest[j].0 != name { assert rest[j] == headers[j + 1]; }
      assert rest[i - 1] == (name, value);
    }
    if Once(rest, name, value) {
      var i :| 0 <= i < |rest| && rest[i] == (name, value) && forall j :: 0 <= j < |rest| && j != i ==> rest[j].0 != name;
      forall j | 0 <= j < |headers| && j != i + 1 ensures headers[j].0 != name { if j > 0 { assert headers[j] == rest[j - 1]; } }
      assert headers[i + 1] == (name, value);
    }
  }

  lemma {:induction false} OneValueIsOnce(headers: seq<Header>, name: string, value: string)
    ensures Values(headers, name) == [value] <==> Once(headers, name, value)
  {
    if headers != [] {
      var rest := Values(headers[1..], name);
      if headers[0].0 == name {
        OnceHere(headers, name, value);
        NoValues(headers[1..], name);
        var all := [headers[0].1] + rest;
        assert |all| == |rest| + 1 && all[0] == headers[0].1;
        if rest == [] { assert all == [headers[0].1]; }
      } else {
        OnceLater(headers, name, value);
        OneValueIsOnce(headers[1..], name, value);
        Slices.Empty(rest);
      }
    }
  }

  /** A positive decimal is one the renderer writes. */
  lemma PositiveIsRendered(s: string)
    ensures CanonicalPositive(s) <==> exists n: nat :: n > 0 && s == Dec(n)
    ensures CanonicalPositive(s) ==> DecValue(s) > 0 && s == Dec(DecValue(s))
  {
    if CanonicalPositive(s) {
      DecCanonical(s);
      DecSpells(DecValue(s));
      assert Dec(0) == "0";
    }
    if n: nat :| n > 0 && s == Dec(n) { DecSpells(n); }
  }

  /** The proof of what was deleted, as the headers of a delete row carry it. */
  datatype Proof = Proof(world: string, generation: string, row: nat, bodySha256: string, hmac: string)

  predicate CarriesProof(headers: seq<Header>, s: Proof) {
    && Once(headers, "auditedb-delete-subject-world", s.world)
    && Once(headers, "auditedb-delete-subject-generation", s.generation)
    && Once(headers, "auditedb-delete-subject-seq", Dec(s.row))
    && Once(headers, "auditedb-delete-subject-body-sha256", s.bodySha256)
    && Once(headers, "auditedb-delete-subject-hmac", s.hmac)
  }

  /** A proof fits a row when it names the row's target and body hash and its parts are well formed. Only the
      engine bounds the row number. */
  predicate ProofFits(d: Dialect, row: EventRow, s: Proof) {
    && CanonicalWorld(s.world) && s.world == row.target && s.bodySha256 == row.bodySha256
    && IsLowerHex(s.generation, 32) && 0 < s.row && (d.Engine? ==> s.row <= I64_MAX)
    && IsHmacLabel(s.hmac)
  }

  /** A delete row proves what it deletes, except that a memory world has nothing to prove. */
  ghost predicate DeleteProved(d: Dialect, row: EventRow, headers: seq<Header>) {
    && CanonicalWorld(row.target)
    && (if IsMemoryWorld(row.target) && !HasReserved(headers) then d.Engine? ==> IsLowerHex(row.bodySha256, 64)
        else IsLowerHex(row.bodySha256, 64) && exists s :: ProofFits(d, row, s) && CarriesProof(headers, s))
  }

  /** One row of an intact chain. */
  ghost predicate RowIntact(d: Dialect, ctx: Ctx, e: Event, prev: string) {
    var row := e.row;
    && row.eventType in {"put", "append", "format", "delete_intent", "delete_commit", "delete_commit_failed"}
    && (row.eventType in {"put", "append", "format"} ==> row.target == ctx.world)
    && (row.eventType == "format" ==> ("auditedb-world-format-version", "2") in e.headers)
    && (row.eventType in {"delete_intent", "delete_commit", "delete_commit_failed"} ==> DeleteProved(d, row, e.headers))
    && row.prevHmac == prev
    && row.metaSha256 == ctx.crypto.sha256(MetaMessage(row.contentType, e.headers))
    && TimestampOk(d, row.timestamp)
    && row.hmac == ctx.crypto.hmac(ctx.key, EventMessage(ctx, prev, row))
  }

  lemma SubjectNames()
    ensures SUBJECT_WORLD == "auditedb-delete-subject-world" && SUBJECT_GENERATION == "auditedb-delete-subject-generation"
    ensures SUBJECT_SEQ == "auditedb-delete-subject-seq" && SUBJECT_BODY == "auditedb-delete-subject-body-sha256"
    ensures SUBJECT_HMAC == "auditedb-delete-subject-hmac"
  {
  }

  /** The five values of a row that has each subject header once. */
  predicate HasValues(headers: seq<Header>, s: Proof) {
    && Values(headers, SUBJECT_WORLD) == [s.world] && Values(headers, SUBJECT_GENERATION) == [s.generation]
    && Values(headers, SUBJECT_SEQ) == [Dec(s.row)] && Values(headers, SUBJECT_BODY) == [s.bodySha256]
    && Values(headers, SUBJECT_HMAC) == [s.hmac]
  }

  lemma CarriesIsValues(headers: seq<Header>, s: Proof)
    ensures CarriesProof(headers, s) <==> HasValues(headers, s)
  {
    SubjectNames();
    hide Once, Values, SUBJECT_WORLD, SUBJECT_GENERATION, SUBJECT_SEQ, SUBJECT_BODY, SUBJECT_HMAC;
    OneValueIsOnce(headers, SUBJECT_WORLD, s.world);
    OneValueIsOnce(headers, SUBJECT_GENERATION, s.generation);
    OneValueIsOnce(headers, SUBJECT_SEQ, Dec(s.row));
    OneValueIsOnce(headers, SUBJECT_BODY, s.bodySha256);
    OneValueIsOnce(headers, SUBJECT_HMAC, s.hmac);
  }

  /** The one proof the five values can spell. */
  function SpelledProof(headers: seq<Header>): Proof {
    var position := Last(Values(headers, SUBJECT_SEQ));
    Proof(Last(Values(headers, SUBJECT_WORLD)), Last(Values(headers, SUBJECT_GENERATION)),
          if CanonicalPositive(position) then DecValue(position) else 0,
          Last(Values(headers, SUBJECT_BODY)), Last(Values(headers, SUBJECT_HMAC)))
  }

  lemma ValuesSpell(headers: seq<Header>, s: Proof)
    requires HasValues(headers, s) && s.row > 0
    ensures SpelledProof(headers) == s
  {
    hide Values;
    DecSpells(s.row);
    PositiveIsRendered(Dec(s.row));
  }

  lemma MirrorProofIff(isDigit: string -> bool, row: EventRow, headers: seq<Header>)
    requires HasReserved(headers) || !IsMemoryWorld(row.target)
    ensures MirrorSubject(row, headers).None? <==>
      IsLowerHex(row.bodySha256, 64) && HasValues(headers, SpelledProof(headers)) && ProofFits(Mirror(isDigit), row, SpelledProof(headers))
  {
    PositiveIsRendered(Last(Values(headers, SUBJECT_SEQ)));
    hide CanonicalWorld, IsLowerHex, IsHmacLabel, HasReserved, IsMemoryWorld, Values, AllDigits, DecValue, Dec,
         SUBJECT_WORLD, SUBJECT_GENERATION, SUBJECT_SEQ, SUBJECT_BODY, SUBJECT_HMAC;
  }

  lemma EngineProofIff(row: EventRow, headers: seq<Header>)
    requires HasReserved(headers) || !IsMemoryWorld(row.target)
    requires IsLowerHex(row.bodySha256, 64)
    ensures EngineSubject(row, headers).None? <==>
      HasValues(headers, SpelledProof(headers)) && ProofFits(Engine, row, SpelledProof(headers))
  {
    PositiveIsRendered(Last(Values(headers, SUBJECT_SEQ)));
    hide CanonicalWorld, IsLowerHex, IsHmacLabel, HasReserved, IsMemoryWorld, Values, AllDigits, DecValue, Dec,
         SUBJECT_WORLD, SUBJECT_GENERATION, SUBJECT_SEQ, SUBJECT_BODY, SUBJECT_HMAC;
  }

  lemma SomeProofIff(d: Dialect, row: EventRow, headers: seq<Header>)
    ensures (exists s :: ProofFits(d, row, s) && CarriesProof(headers, s)) <==>
      HasValues(headers, SpelledProof(headers)) && ProofFits(d, row, SpelledProof(headers))
  {
    hide Values, CanonicalWorld, IsLowerHex, IsHmacLabel, HasValues, CarriesProof, SpelledProof;
    CarriesIsValues(headers, SpelledProof(headers));
    if s :| ProofFits(d, row, s) && CarriesProof(headers, s) {
      CarriesIsValues(headers, s);
      ValuesSpell(headers, s);
    }
  }

  lemma DeleteCheckIff(d: Dialect, row: EventRow, headers: seq<Header>)
    ensures (if d.Engine? then EngineDelete(row, headers) else MirrorDelete(row, headers)).None? <==> DeleteProved(d, row, headers)
  {
    SomeProofIff(d, row, headers);
    hide CanonicalWorld, IsLowerHex, HasReserved, IsMemoryWorld, HasValues, CarriesProof, SpelledProof, ProofFits;
    if HasReserved(headers) || !IsMemoryWorld(row.target) {
      if d.Engine? {
        if IsLowerHex(row.bodySha256, 64) { EngineProofIff(row, headers); }
        hide EngineSubject;
      } else {
        MirrorProofIff(d.isDigit, row, headers);
        hide MirrorSubject;
      }
    }
  }

  /** A row passes exactly when it is intact, in either dialect and whatever its type. */
  lemma RowPassesIff(d: Dialect, ctx: Ctx, e: Event, prev: string)
    ensures VerifyEvent(d, ctx, e, prev).None? <==> RowIntact(d, ctx, e, prev)
  {
    DeleteCheckIff(d, e.row, e.headers);
    hide EngineDelete, MirrorDelete, DeleteProved, TimestampOk, EventMessage, MetaMessage;
  }

  /** A chain is accepted exactly when each row is intact after the one before it. */
  lemma AcceptedMeans(d: Dialect, ctx: Ctx, es: seq<Event>)
    ensures Accepted(d, ctx, es) <==> forall i :: 0 <= i < |es| ==> RowIntact(d, ctx, es[i], PrevOf(es, i))
  {
    forall i | 0 <= i < |es| ensures OkAt(d, ctx, es, i) <==> RowIntact(d, ctx, es[i], PrevOf(es, i)) {
      RowPassesIff(d, ctx, es[i], PrevOf(es, i));
    }
    hide OkAt, RowIntact;
  }

  /** A put or append row that differs from what an intact chain needs in any one respect is rejected: its
      target, its link, its metadata digest, its timestamp, or its signature. */
  lemma BodyRowAcceptedIff(d: Dialect, ctx: Ctx, es: seq<Event>, e: Event)
    requires e.row.eventType == "put" || e.row.eventType == "append"
    ensures Accepted(d, ctx, es + [e]) <==> (
      && Accepted(d, ctx, es) && e.row.target == ctx.world && e.row.prevHmac == PrevOf(es, |es|)
      && e.row.metaSha256 == ctx.crypto.sha256(MetaMessage(e.row.contentType, e.headers))
      && TimestampOk(d, e.row.timestamp)
      && e.row.hmac == ctx.crypto.hmac(ctx.key, EventMessage(ctx, PrevOf(es, |es|), e.row)))
  {
    AcceptedSnoc(d, ctx, es, e);
    RowPassesIff(d, ctx, e, PrevOf(es, |es|));
    hide Accepted, VerifyEvent, TimestampOk, EventMessage, MetaMessage, DeleteProved;
  }

  // ---- Reasons ----

  predicate SubjectHeader(name: string) {
    name in {"auditedb-delete-subject-world", "auditedb-delete-subject-generation", "auditedb-delete-subject-seq",
             "auditedb-delete-subject-body-sha256", "auditedb-delete-subject-hmac"}
  }

  /** The value is one the dialect takes under that subject header. */
  predicate WellFormed(d: Dialect, name: string, value: string) {
    && (name == "auditedb-delete-subject-world" ==> CanonicalWorld(value))
    && (name == "auditedb-delete-subject-generation" ==> IsLowerHex(value, 32))
    && (name == "auditedb-delete-subject-seq" ==> CanonicalPositive(value) && (d.Engine? ==> DecValue(value) <= I64_MAX))
    && (name == "auditedb-delete-subject-body-sha256" ==> IsLowerHex(value, 64))
    && (name == "auditedb-delete-subject-hmac" ==> IsHmacLabel(value))
  }

  /** What a reason says is wrong with the subject headers of a delete row. */
  ghost predicate SubjectFault(d: Dialect, row: EventRow, headers: seq<Header>, r: Reason) {
    match r
    case DeleteTarget => !CanonicalWorld(row.target)
    case DeleteBody => !IsLowerHex(row.bodySha256, 64)
    case Missing(name) => SubjectHeader(name) && Absent(headers, name)
    case Duplicated(name) => SubjectHeader(name) && !Absent(headers, name) && forall v :: !Once(headers, name, v)
    case Invalid(name) => SubjectHeader(name) && exists v :: Once(headers, name, v) && !WellFormed(d, name, v)
    case SubjectWorldMismatch => exists v :: Once(headers, "auditedb-delete-subject-world", v) && v != row.target
    case SubjectBodyMismatch => exists v :: Once(headers, "auditedb-delete-subject-body-sha256", v) && v != row.bodySha256
    case _ => false
  }

  /** What a reason says is wrong with a row. */
  ghost predicate RowFault(d: Dialect, ctx: Ctx, e: Event, prev: string, r: Reason) {
    var row := e.row;
    match r
    case UnknownType => row.eventType !in {"put", "append", "format", "delete_intent", "delete_commit", "delete_commit_failed"}
    case TargetMismatch => row.eventType in {"put", "append", "format"} && row.target != ctx.world
    case FormatUnmarked => row.eventType == "format" && ("auditedb-world-format-version", "2") !in e.headers
    case PrevMismatch => row.prevHmac != prev
    case MetaMismatch => row.metaSha256 != ctx.crypto.sha256(MetaMessage(row.contentType, e.headers))
    case BadTimestamp => !TimestampOk(d, row.timestamp)
    case HmacMismatch => row.hmac != ctx.crypto.hmac(ctx.key, EventMessage(ctx, prev, row))
    case NoEvents => false
    case _ => row.eventType in {"delete_intent", "delete_commit", "delete_commit_failed"} && SubjectFault(d, row, e.headers, r)
  }

  /** A header's values, counted. */
  lemma ValuesMean(headers: seq<Header>, name: string)
    ensures |Values(headers, name)| == 0 <==> Absent(headers, name)
    ensures |Values(headers, name)| == 1 ==> Once(headers, name, Values(headers, name)[0]) && Last(Values(headers, name)) == Values(headers, name)[0]
    ensures |Values(headers, name)| > 1 ==> forall v :: !Once(headers, name, v)
  {
    NoValues(headers, name);
    var vs := Values(headers, name);
    if |vs| == 1 {
      assert vs == [vs[0]];
      OneValueIsOnce(headers, name, vs[0]);
    }
    if |vs| > 1 {
      forall v ensures !Once(headers, name, v) { OneValueIsOnce(headers, name, v); }
    }
  }

  lemma SubjectValuesMean(headers: seq<Header>)
    ensures forall name :: SubjectHeader(name) ==> (
      && (|Values(headers, name)| == 0 <==> Absent(headers, name))
      && (|Values(headers, name)| == 1 ==> Once(headers, name, Values(headers, name)[0]) && Last(Values(headers, name)) == Values(headers, name)[0])
      && (|Values(headers, name)| > 1 ==> forall v :: !Once(headers, name, v)))
  {
    forall name | SubjectHeader(name)
      ensures |Values(headers, name)| == 0 <==> Absent(headers, name)
      ensures |Values(headers, name)| == 1 ==> Once(headers, name, Values(headers, name)[0]) && Last(Values(headers, name)) == Values(headers, name)[0]
      ensures |Values(headers, name)| > 1 ==> forall v :: !Once(headers, name, v)
    {
      ValuesMean(headers, name);
    }
  }

  lemma EngineDeleteFault(row: EventRow, headers: seq<Header>)
    ensures EngineDelete(row, headers).Some? ==> SubjectFault(Engine, row, headers, EngineDelete(row, headers).value)
  {
    SubjectNames();
    SubjectValuesMean(headers);
    hide CanonicalWorld, IsLowerHex, IsHmacLabel, HasReserved, IsMemoryWorld, Values, AllDigits, DecValue, Once, Absent,
         SUBJECT_WORLD, SUBJECT_GENERATION, SUBJECT_SEQ, SUBJECT_BODY, SUBJECT_HMAC, CanonicalPositive;
  }

  lemma MirrorDeleteFault(isDigit: string -> bool, row: EventRow, headers: seq<Header>)
    ensures MirrorDelete(row, headers).Some? ==> SubjectFault(Mirror(isDigit), row, headers, MirrorDelete(row, headers).value)
  {
    SubjectNames();
    SubjectValuesMean(headers);
    hide CanonicalWorld, IsLowerHex, IsHmacLabel, HasReserved, IsMemoryWorld, Values, AllDigits, DecValue, Once, Absent,
         SUBJECT_WORLD, SUBJECT_GENERATION, SUBJECT_SEQ, SUBJECT_BODY, SUBJECT_HMAC, CanonicalPositive;
  }

  lemma DeleteFaultIsRowFault(d: Dialect, ctx: Ctx, e: Event, prev: string)
    requires IsDelete(e.row.eventType)
    ensures var r := if d.Engine? then EngineDelete(e.row, e.headers) else MirrorDelete(e.row, e.headers);
      r.Some? ==> RowFault(d, ctx, e, prev, r.value)
  {
    if d.Engine? { EngineDeleteFault(e.row, e.headers); } else { MirrorDeleteFault(d.isDigit, e.row, e.headers); }
    hide EngineDelete, MirrorDelete, TimestampOk, EventMessage, MetaMessage, CanonicalWorld, IsLowerHex, WellFormed, Once, Absent, SubjectHeader;
  }

  lemma DigestFaultIsRowFault(d: Dialect, ctx: Ctx, e: Event, prev: string)
    ensures var r := VerifyDigests(d, ctx, e.row, e.headers, prev); r.Some? ==> RowFault(d, ctx, e, prev, r.value)
  {
    hide TimestampOk, EventMessage, MetaMessage, SubjectFault;
  }

  /** The reason reported for a rejected row is true of it, in either dialect. */
  lemma ReasonIsTrue(d: Dialect, ctx: Ctx, e: Event, prev: string)
    ensures VerifyEvent(d, ctx, e, prev).Some? ==> RowFault(d, ctx, e, prev, VerifyEvent(d, ctx, e, prev).value)
  {
    if IsDelete(e.row.eventType) { DeleteFaultIsRowFault(d, ctx, e, prev); }
    DigestFaultIsRowFault(d, ctx, e, prev);
    hide EngineDelete, MirrorDelete, VerifyDigests, TimestampOk, EventMessage, MetaMessage, SubjectFault;
  }
}
