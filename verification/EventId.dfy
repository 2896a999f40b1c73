/** Durable subscription event ids: `<percent-encoded-world>@<generation>=<seq>`. */
module EventId {
  import Slices
  import opened Framing
  import opened WorldPath

  const I64_MAX: int := 0x7FFF_FFFF_FFFF_FFFF

  datatype Id = Id(world: string, generation: string, row: int)

  predicate IsLowerHex(s: string, length: nat) {
    |s| == length && forall i :: 0 <= i < |s| ==> '0' <= s[i] <= '9' || 'a' <= s[i] <= 'f'
  }

  /** The ids the engine can hold: canonical durable world, 128-bit generation, positive i64 row. */
  predicate ValidId(id: Id) {
    CanonicalWorld(id.world) && !IsMemoryWorld(id.world)
    && IsLowerHex(id.generation, 32) && 0 < id.row <= I64_MAX
  }

  predicate EventIdKept(c: char) {
    'a' <= c <= 'z' || 'A' <= c <= 'Z' || '0' <= c <= '9' || c in {'/', '_', '.', '~', '-'}
  }

  function EventIdKeep(): char -> bool { c => EventIdKept(c) }

  function Join(world: string, generation: string, row: string): string {
    world + "@" + generation + "=" + row
  }

  function Render(id: Id): string
    requires IsBytes(id.world)
  {
    Join(PercentEncode(EventIdKeep(), id.world), id.generation, DecInt(id.row))
  }

  /** Position just after the last `c`, or 0 when `c` does not occur. */
  function AfterLast(s: string, c: char): (k: nat)
    ensures k <= |s| && (k > 0 ==> s[k - 1] == c) && (k == 0 <==> c !in s)
    ensures forall j :: k <= j < |s| ==> s[j] != c
  {
    if s == "" then 0
    else if s[|s| - 1] == c then |s|
    else
      assert s == s[..|s| - 1] + [s[|s| - 1]];
      var k := AfterLast(s[..|s| - 1], c);
      assert k > 0 ==> s[k - 1] == s[..|s| - 1][k - 1];
      k
  }

  lemma {:induction false} AfterLastOfJoin(left: string, c: char, right: string)
    requires c !in right
    ensures AfterLast(left + [c] + right, c) == |left| + 1
  {
    if right != "" {
      var s := left + [c] + right;
      AfterLastOfJoin(left, c, right[..|right| - 1]);
      assert s[..|s| - 1] == left + [c] + right[..|right| - 1];
    }
  }

  datatype Parts = NoRow | NoGeneration | Parts(world: string, generation: string, row: string)

  /** Cut at the last `=`, then cut the left part at its last `@`. */
  function SplitId(raw: string): Parts {
    var eq := AfterLast(raw, '=');
    if eq == 0 then NoRow else
    var left := raw[..eq - 1];
    var at := AfterLast(left, '@');
    if at == 0 then NoGeneration else Parts(left[..at - 1], left[at..], raw[eq..])
  }

  lemma SplitAtCuts(raw: string, left: string, world: string, generation: string, row: string)
    requires AfterLast(raw, '=') == |left| + 1 && |left| < |raw| && raw[..|left|] == left && raw[|left| + 1..] == row
    requires AfterLast(left, '@') == |world| + 1 && |world| < |left| && left[..|world|] == world && left[|world| + 1..] == generation
    ensures SplitId(raw) == Parts(world, generation, row)
  {
    hide AfterLast;
  }

  lemma JoinIsLeftAndRow(world: string, generation: string, row: string)
    ensures Join(world, generation, row) == (world + ['@'] + generation) + ['='] + row
  {
    assert "@" == ['@'] && "=" == ['='];
  }

  /** Whatever the world part contains, the cuts find the delimiters the renderer wrote. */
  lemma SplitUndoesJoin(world: string, generation: string, row: string)
    requires '@' !in generation && '=' !in row
    ensures SplitId(Join(world, generation, row)) == Parts(world, generation, row)
  {
    hide *;
    var left := world + ['@'] + generation;
    JoinIsLeftAndRow(world, generation, row);
    AfterLastOfJoin(left, '=', row);
    AfterLastOfJoin(world, '@', generation);
    Slices.AroundDelimiter(left, '=', row);
    Slices.AroundDelimiter(world, '@', generation);
    SplitAtCuts(Join(world, generation, row), left, world, generation, row);
  }

  datatype ParseError =
    | MissingSeqDelimiter | MissingGenerationDelimiter | InvalidWorldUtf8 | BadWorldPath | MemoryWorld
    | GenerationWrongLength | GenerationNotLowerHex | SeqNotInteger | SeqOutOfRange | SeqNonPositive
    | NonCanonical

  datatype Parsed = Ok(id: Id) | Err(error: ParseError)

  predicate IsSignedInteger(s: string) {
    s != "" && (AllDigits(s) || (s[0] == '-' && |s| > 1 && AllDigits(s[1..])))
  }

  function SignedValue(s: string): int
    requires IsSignedInteger(s)
  {
    if AllDigits(s) then DecValue(s) as int else 0 - DecValue(s[1..]) as int
  }

  /** `SubscriptionEventId::from_sse_id`, rejection by rejection. */
  function FromSseId(raw: string): Parsed {
    var parts := SplitId(raw);
    if parts.NoRow? then Err(MissingSeqDelimiter)
    else if parts.NoGeneration? then Err(MissingGenerationDelimiter)
    else FromParts(raw, parts)
  }

  function FromParts(raw: string, parts: Parts): Parsed
    requires parts.Parts?
  {
    var world, generation, rowText := PercentDecode(parts.world), parts.generation, parts.row;
    if !ValidUtf8(world) then Err(InvalidWorldUtf8)
    else if !CanonicalWorld(world) then Err(BadWorldPath)
    else if IsMemoryWorld(world) then Err(MemoryWorld)
    else if |generation| != 32 then Err(GenerationWrongLength)
    else if !IsLowerHex(generation, 32) then Err(GenerationNotLowerHex)
    else if !IsSignedInteger(rowText) then Err(SeqNotInteger)
    else if !(-I64_MAX - 1 <= SignedValue(rowText) <= I64_MAX) then Err(SeqOutOfRange)
    else if SignedValue(rowText) <= 0 then Err(SeqNonPositive)
    else
      var id := Id(world, generation, SignedValue(rowText));
      if raw != Render(id) then Err(NonCanonical) else Ok(id)
  }

  lemma ParsedIsRendered(raw: string, id: Id)
    requires FromSseId(raw) == Ok(id)
    ensures ValidId(id) && raw == Render(id)
  {
    hide CanonicalWorld, ValidUtf8, PercentDecode, PercentEncode, AfterLast;
  }

  lemma NoDelimiters(id: Id)
    requires ValidId(id)
    ensures '@' !in id.generation && '=' !in DecInt(id.row)
    ensures IsSignedInteger(DecInt(id.row)) && SignedValue(DecInt(id.row)) == id.row
  {
    hide CanonicalWorld;
    DecSpells(id.row);
  }

  lemma RenderedParses(id: Id)
    requires ValidId(id)
    ensures FromSseId(Render(id)) == Ok(id)
  {
    assert IsBytes(id.world) && ValidUtf8(id.world);
    hide CanonicalWorld, ValidUtf8, PercentDecode, PercentEncode, SplitId;
    var encoded, row := PercentEncode(EventIdKeep(), id.world), DecInt(id.row);
    NoDelimiters(id);
    DecodeUndoesEncode(EventIdKeep(), id.world);
    hide Join, DecInt, IsSignedInteger, SignedValue;
    SplitUndoesJoin(encoded, id.generation, row);
  }

  /** Ids round-trip both ways: a string parses to an id exactly when the id is one the engine can
      hold and the string is its rendering. */
  lemma EventIdRoundTrip(raw: string, id: Id)
    ensures FromSseId(raw) == Ok(id) <==> ValidId(id) && raw == Render(id)
  {
    if FromSseId(raw) == Ok(id) { ParsedIsRendered(raw, id); }
    if ValidId(id) && raw == Render(id) { RenderedParses(id); }
  }

  /** The order the live fence uses within one chain. */
  predicate SameChainAtOrBefore(a: Id, fence: Id) {
    a.world == fence.world && a.generation == fence.generation && a.row <= fence.row
  }

  /** Distinct rows never share an id string, so a rendered cursor names one row of one incarnation. */
  lemma RenderedCursorsDistinct(a: Id, b: Id)
    requires ValidId(a) && ValidId(b) && Render(a) == Render(b)
    ensures a == b
  {
    EventIdRoundTrip(Render(a), a);
    EventIdRoundTrip(Render(a), b);
  }
}
