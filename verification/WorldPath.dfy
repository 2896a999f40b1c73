/** World names: percent coding, canonical-path validation and the disk directory codec. */
module WorldPath {
  import opened Framing

  // ---- Percent coding (section 2.1 of RFC 3986) ---------------------------------------------

  predicate IsBytes(s: string) { forall i :: 0 <= i < |s| ==> s[i] as int < 256 }

  function UpperHex(d: nat): char
    requires d < 16
  {
    if d < 10 then '0' + d as char else 'A' + (d - 10) as char
  }

  predicate IsHexDigit(c: char) { '0' <= c <= '9' || 'A' <= c <= 'F' || 'a' <= c <= 'f' }

  function HexValue(c: char): (d: nat)
    requires IsHexDigit(c)
    ensures d < 16
  {
    if c <= '9' then c as int - '0' as int
    else if c <= 'F' then c as int - 'A' as int + 10
    else c as int - 'a' as int + 10
  }

  function EncodeByte(keep: char -> bool, c: char): string
    requires c as int < 256
  {
    if keep(c) then [c] else ['%', UpperHex(c as int / 16), UpperHex(c as int % 16)]
  }

  function PercentEncode(keep: char -> bool, s: string): string
    requires IsBytes(s)
  {
    if s == "" then "" else EncodeByte(keep, s[0]) + PercentEncode(keep, s[1..])
  }

  /** A `%` that two hex digits do not follow stands for itself. */
  predicate StartsEscape(s: string) {
    |s| >= 3 && s[0] == '%' && IsHexDigit(s[1]) && IsHexDigit(s[2])
  }

  function PercentDecode(s: string): string {
    if s == "" then ""
    else if StartsEscape(s) then [(16 * HexValue(s[1]) + HexValue(s[2])) as char] + PercentDecode(s[3..])
    else [s[0]] + PercentDecode(s[1..])
  }

  lemma {:induction false} DecodeUndoesEncode(keep: char -> bool, s: string)
    requires IsBytes(s) && !keep('%')
    ensures PercentDecode(PercentEncode(keep, s)) == s
  {
    if s != "" {
      DecodeUndoesEncode(keep, s[1..]);
      var head, rest := EncodeByte(keep, s[0]), PercentEncode(keep, s[1..]);
      assert PercentEncode(keep, s) == head + rest;
      if keep(s[0]) {
        assert (head + rest)[1..] == rest;
      } else {
        assert StartsEscape(head + rest) && (head + rest)[3..] == rest;
      }
      assert s == [s[0]] + s[1..];
    }
  }

  lemma {:induction false} EncodeSnoc(keep: char -> bool, s: string, c: char)
    requires IsBytes(s) && c as int < 256
    ensures IsBytes(s + [c])
    ensures PercentEncode(keep, s + [c]) == PercentEncode(keep, s) + EncodeByte(keep, c)
  {
    if s == "" {
      assert [c][1..] == "";
    } else {
      EncodeSnoc(keep, s[1..], c);
      assert (s + [c])[1..] == s[1..] + [c];
      var a, b, z := EncodeByte(keep, s[0]), PercentEncode(keep, s[1..]), EncodeByte(keep, c);
      assert a + (b + z) == (a + b) + z;
    }
  }

  /** Everything in an encoded name is a kept byte, a `%` or an upper-case hex digit. */
  lemma {:induction false} EncodedAlphabet(keep: char -> bool, s: string, c: char)
    requires IsBytes(s) && c in PercentEncode(keep, s)
    ensures keep(c) || c == '%' || '0' <= c <= '9' || 'A' <= c <= 'F'
  {
    if c !in EncodeByte(keep, s[0]) {
      EncodedAlphabet(keep, s[1..], c);
    }
  }

  /** The encoders of the source: a byte loop over a growing output. */
  method EncodeLoop(keep: char -> bool, s: string) returns (out: string)
    requires IsBytes(s)
    ensures out == PercentEncode(keep, s)
  {
    out := "";
    for i := 0 to |s|
      invariant out == PercentEncode(keep, s[..i])
    {
      EncodeSnoc(keep, s[..i], s[i]);
      assert s[..i + 1] == s[..i] + [s[i]];
      if keep(s[i]) {
        out := out + [s[i]];
      } else {
        out := out + ['%', UpperHex(s[i] as int / 16), UpperHex(s[i] as int % 16)];
      }
    }
    assert s[..|s|] == s;
  }

  // ---- UTF-8 well-formedness (section 4 of RFC 3629) ----------------------------------------

  predicate Tail(c: char) { 0x80 <= c as int <= 0xBF }

  /** Length of the well-formed sequence at the front of `s`, or 0 when there is none. */
  function Utf8Lead(s: string): (n: nat)
    ensures n <= |s|
  {
    if s == "" then 0
    else
      var b := s[0] as int;
      if b < 0x80 then 1
      else if |s| >= 2 && 0xC2 <= b <= 0xDF && Tail(s[1]) then 2
      else if |s| >= 3 && 0xE0 <= b <= 0xEF && Tail(s[1]) && Tail(s[2])
        && (b == 0xE0 ==> s[1] as int >= 0xA0) && (b == 0xED ==> s[1] as int <= 0x9F) then 3
      else if |s| >= 4 && 0xF0 <= b <= 0xF4 && Tail(s[1]) && Tail(s[2]) && Tail(s[3])
        && (b == 0xF0 ==> s[1] as int >= 0x90) && (b == 0xF4 ==> s[1] as int <= 0x8F) then 4
      else 0
  }

  predicate ValidUtf8(s: string) {
    s == "" || (Utf8Lead(s) > 0 && ValidUtf8(s[Utf8Lead(s)..]))
  }

  lemma {:induction false} Utf8IsBytes(s: string)
    requires ValidUtf8(s)
    ensures IsBytes(s)
  {
    if s != "" {
      var n := Utf8Lead(s);
      Utf8IsBytes(s[n..]);
      forall i | 0 <= i < |s| ensures s[i] as int < 256 {
        assert i >= n ==> s[i] == s[n..][i - n];
      }
    }
  }

  // ---- Segments -----------------------------------------------------------------------------

  function Split(s: string): (parts: seq<string>)
    ensures |parts| > 0
  {
    if s == "" then [""]
    else if s[0] == '/' then [""] + Split(s[1..])
    else var rest := Split(s[1..]); [[s[0]] + rest[0]] + rest[1..]
  }

  function StripDotToken(segment: string): Option<string> {
    if |segment| >= 1 && segment[0] == '.' then Some(segment[1..])
    else if |segment| >= 3 && segment[0] == '%' && segment[1] == '2' && (segment[2] == 'e' || segment[2] == 'E')
      then Some(segment[3..])
    else None
  }

  predicate IsDotSegment(segment: string) {
    var rest := StripDotToken(segment);
    rest.Some? && (rest.value == "" || StripDotToken(rest.value) == Some(""))
  }

  /** One decoding step peels a dot exactly when the source's token stripper does. */
  lemma DotToken(segment: string)
    ensures StripDotToken(segment).Some? <==>
            segment != "" && PercentDecode(segment)[0] == '.'
    ensures StripDotToken(segment).Some? ==>
            PercentDecode(segment) == "." + PercentDecode(StripDotToken(segment).value)
    ensures PercentDecode(segment) == "" <==> segment == ""
  {
  }

  /** The dot test is exact: it rejects the segments that decode to `.` or `..` and no others. */
  lemma DotSegmentIff(segment: string)
    ensures IsDotSegment(segment) <==> PercentDecode(segment) in {".", ".."}
  {
    DotToken(segment);
    var rest := StripDotToken(segment);
    if rest.Some? {
      var d := PercentDecode(rest.value);
      DotToken(rest.value);
      DotPrefixed(d);
      var last := StripDotToken(rest.value);
      if last.Some? {
        DotToken(last.value);
        DotPrefixed(PercentDecode(last.value));
      }
    }
  }

  lemma DotPrefixed(d: string)
    ensures "." + d == "." <==> d == ""
    ensures "." + d == ".." <==> d == "."
  {
    assert ("." + d)[1..] == d && ".."[1..] == "." && "."[1..] == "";
  }

  // ---- Canonical worlds ---------------------------------------------------------------------

  const NAMESPACES: seq<string> := ["home", "tmp", "dev", "sys", "etc", "lib", "boot", "usr", "var"]
  const MAX_DISK_NAME: nat := 200

  predicate DiskEncoded(c: char) {
    c as int <= 0x1F || c as int >= 0x7F
    || c in {'%', '.', '/', '\\', ':', '*', '?', '"', '<', '>', '|', ' '}
  }

  function DiskKeep(): char -> bool { c => !DiskEncoded(c) }

  function DiskName(world: string): string
    requires IsBytes(world)
  {
    PercentEncode(DiskKeep(), world)
  }

  predicate ControlAt(s: string, i: nat)
    requires i < |s|
  {
    s[i] as int <= 0x1F || s[i] as int == 0x7F
    || (s[i] as int == 0xC2 && i + 1 < |s| && 0x80 <= s[i + 1] as int <= 0x9F)
  }

  predicate HasControl(s: string) { exists i :: 0 <= i < |s| && ControlAt(s, i) }

  predicate IsReserved(world: string) {
    world in NAMESPACES || world in {"proc", "var/log"} || "proc/" <= world
  }

  predicate GoodSegment(segment: string) {
    segment != "" && PercentDecode(segment) !in {".", ".."}
  }

  /** What a canonical world name is, without reference to any validator's order of tests. */
  predicate CanonicalWorld(world: string) {
    && ValidUtf8(world) && IsBytes(world)
    && world != "" && !IsReserved(world)
    && |DiskName(world)| <= MAX_DISK_NAME
    && '\\' !in world && !HasControl(world)
    && (forall i :: 0 <= i < |Split(world)| ==> GoodSegment(Split(world)[i]))
    && Split(world)[0] in NAMESPACES
  }

  predicate IsMemoryWorld(world: string) { "tmp/" <= world || "dev/" <= world || "sys/" <= world }

  lemma {:induction false} EncodeLengthSnoc(s: string, c: char)
    requires IsBytes(s) && c as int < 256
    ensures IsBytes(s + [c])
    ensures |DiskName(s + [c])| == |DiskName(s)| + (if DiskEncoded(c) then 3 else 1)
  {
    EncodeSnoc(DiskKeep(), s, c);
  }

  /** The length estimator counts bytes without building the name. */
  method DiskWorldNameLen(world: string) returns (size: nat)
    requires IsBytes(world)
    ensures size == |DiskName(world)|
  {
    size := 0;
    for i := 0 to |world|
      invariant size == |DiskName(world[..i])|
    {
      EncodeLengthSnoc(world[..i], world[i]);
      assert world[..i + 1] == world[..i] + [world[i]];
      size := size + if DiskEncoded(world[i]) then 3 else 1;
    }
    assert world[..|world|] == world;
  }

  datatype PathError =
    | Empty | TooLong | Reserved | Backslash | Control | EmptySegment | DotSegment | NoNamespace

  /** `validate_world_name` followed by the namespace test, in the engine's order. The engine holds
      the name as text, so it is well-formed UTF-8 on entry. */
  method ValidateWorld(world: string) returns (r: Option<PathError>)
    requires ValidUtf8(world)
    ensures r.None? <==> CanonicalWorld(world)
    ensures r == Some(DotSegment) ==>
            exists i :: 0 <= i < |Split(world)| && PercentDecode(Split(world)[i]) in {".", ".."}
  {
    Utf8IsBytes(world);
    if world == "" { return Some(Empty); }
    var size := DiskWorldNameLen(world);
    if size > MAX_DISK_NAME { return Some(TooLong); }
    if IsReserved(world) { return Some(Reserved); }
    if '\\' in world { return Some(Backslash); }
    for i := 0 to |world|
      invariant forall j :: 0 <= j < i ==> !ControlAt(world, j)
    {
      if ControlAt(world, i) { return Some(Control); }
    }
    var segments := Split(world);
    for i := 0 to |segments|
      invariant forall j :: 0 <= j < i ==> GoodSegment(segments[j])
    {
      DotSegmentIff(segments[i]);
      if segments[i] == "" {
        assert !GoodSegment(segments[i]);
        return Some(EmptySegment);
      }
      if IsDotSegment(segments[i]) {
        assert !GoodSegment(segments[i]);
        return Some(DotSegment);
      }
    }
    if segments[0] !in NAMESPACES { return Some(NoNamespace); }
    return None;
  }

  /** The mirror tool's predicate, with its own order of tests and its own segment scan. */
  method IsCanonicalWorld(world: string) returns (ok: bool)
    requires ValidUtf8(world)
    ensures ok <==> CanonicalWorld(world)
  {
    Utf8IsBytes(world);
    if world == "" || IsReserved(world) { return false; }
    var size := DiskWorldNameLen(world);
    if size > MAX_DISK_NAME { return false; }
    if '\\' in world || exists i :: 0 <= i < |world| && ControlAt(world, i) { return false; }
    var segments := Split(world);
    for i := 0 to |segments|
      invariant forall j :: 0 <= j < i ==> GoodSegment(segments[j])
    {
      DotSegmentIff(segments[i]);
      if segments[i] == "" || IsDotSegment(segments[i]) {
        assert !GoodSegment(segments[i]);
        return false;
      }
    }
    return segments[0] in NAMESPACES;
  }

  // ---- Directory names ----------------------------------------------------------------------

  datatype DiskResult = World(world: string) | BadUtf8 | NotCanonical | NonCanonicalSpelling

  /** `world_from_disk_name` and the engine's `decode_disk_world_name`. */
  function WorldFromDiskName(name: string): DiskResult {
    var world := PercentDecode(name);
    if !ValidUtf8(world) then BadUtf8
    else if !CanonicalWorld(world) then NotCanonical
    else if DiskName(world) != name then NonCanonicalSpelling
    else World(world)
  }

  /** Both directions of the codec: a directory name is accepted for a world exactly when it is the
      world's own encoding. */
  lemma DiskNameRoundTrip(world: string, name: string)
    ensures WorldFromDiskName(name) == World(world) <==> CanonicalWorld(world) && DiskName(world) == name
  {
    if CanonicalWorld(world) {
      DecodeUndoesEncode(DiskKeep(), world);
    }
  }

  lemma DiskNamesDistinct(a: string, b: string)
    requires IsBytes(a) && IsBytes(b) && DiskName(a) == DiskName(b)
    ensures a == b
  {
    DecodeUndoesEncode(DiskKeep(), a);
    DecodeUndoesEncode(DiskKeep(), b);
  }

  /** A directory name is one path component: no separator, no dot, no drive or wildcard byte. */
  lemma DiskNameIsOneComponent(world: string, c: char)
    requires IsBytes(world) && c in DiskName(world)
    ensures c == '%' || !DiskEncoded(c)
    ensures c !in {'.', '/', '\\', ':', '*', '?', '"', '<', '>', '|', ' '}
  {
    EncodedAlphabet(DiskKeep(), world, c);
  }
}
