/** Byte strings, decimal rendering and the `label\0len\0value\0` audit frame.

    Text is modelled as its UTF-8 bytes, one Dafny `char` per byte, so `|s|` is a
    byte length and equality is byte equality. */
module Framing {
  import Slices

  datatype Option<+T> = None | Some(value: T)

  function Digit(d: nat): (c: char)
    requires d < 10
    ensures '0' <= c <= '9'
  {
    '0' + d as char
  }

  /** Canonical decimal rendering of a natural number. */
  function Dec(n: nat): string {
    if n < 10 then [Digit(n)] else Dec(n / 10) + [Digit(n % 10)]
  }

  /** Canonical decimal rendering of a signed integer. */
  function DecInt(n: int): string {
    if n < 0 then "-" + Dec(-n) else Dec(n)
  }

  predicate IsDigit(c: char) { '0' <= c <= '9' }

  predicate AllDigits(s: string) { forall i :: 0 <= i < |s| ==> IsDigit(s[i]) }

  /** The number a digit string spells, leading zeros allowed. */
  function DecValue(s: string): nat
    requires AllDigits(s)
  {
    if s == "" then 0
    else 10 * DecValue(s[..|s| - 1]) + (s[|s| - 1] as int - '0' as int)
  }

  lemma {:induction false} DecSpells(n: nat)
    ensures Dec(n) != "" && AllDigits(Dec(n)) && DecValue(Dec(n)) == n
    ensures n > 0 ==> Dec(n)[0] != '0'
  {
    if n >= 10 {
      DecSpells(n / 10);
      var s := Dec(n);
      assert s[..|s| - 1] == Dec(n / 10);
      assert s[|s| - 1] == Digit(n % 10);
    } else {
      assert Dec(n)[..0] == "";
    }
  }

  /** Every digit string without a leading zero is the rendering of the number it spells. */
  lemma {:induction false} DecCanonical(s: string)
    requires s != "" && AllDigits(s) && (s[0] == '0' ==> |s| == 1)
    ensures Dec(DecValue(s)) == s
  {
    var init := s[..|s| - 1];
    if init == "" {
      assert s == [s[0]];
      assert DecValue(init) == 0;
    } else {
      var v, c := DecValue(init), s[|s| - 1];
      DecCanonical(init);
      DecSpells(v);
      Slices.InitAndLast(s);
      assert Dec(0)[0] == '0' && Dec(v)[0] != '0';
      assert v > 0;
      var n := 10 * v + (c as int - '0' as int);
      assert n / 10 == v && Digit(n % 10) == c;
    }
  }

  lemma DecIntInjective(a: int, b: int)
    requires DecInt(a) == DecInt(b)
    ensures a == b
  {
    DecSpells(if a < 0 then -a else a);
    DecSpells(if b < 0 then -b else b);
    assert a < 0 ==> DecInt(a)[0] == '-' && DecInt(a)[1..] == Dec(-a);
    assert b < 0 ==> DecInt(b)[0] == '-' && DecInt(b)[1..] == Dec(-b);
    assert a >= 0 ==> IsDigit(DecInt(a)[0]);
    assert b >= 0 ==> IsDigit(DecInt(b)[0]);
  }

  // ---- Length frames ------------------------------------------------------------------------

  /** One framed field: `label\0len\0value\0`. */
  function Frame(tag: string, value: string): string {
    tag + "\0" + Dec(|value|) + "\0" + value + "\0"
  }

  /** Position of the first NUL byte, or the length when there is none. */
  function FirstNul(s: string): nat {
    if s == "" || s[0] == '\0' then 0 else 1 + FirstNul(s[1..])
  }

  lemma {:induction false} FirstNulEndsPrefix(a: string, x: string)
    requires '\0' !in a
    ensures FirstNul(a + "\0" + x) == |a|
  {
    if a != "" {
      FirstNulEndsPrefix(a[1..], x);
      assert (a + "\0" + x)[1..] == a[1..] + "\0" + x;
    }
  }

  /** Two byte strings that agree up to a terminator neither prefix contains have the same prefix. */
  lemma TerminatedPrefix(a: string, b: string, x: string, y: string)
    requires '\0' !in a && '\0' !in b
    requires a + "\0" + x == b + "\0" + y
    ensures a == b && x == y
  {
    var l, r := a + "\0" + x, b + "\0" + y;
    FirstNulEndsPrefix(a, x);
    FirstNulEndsPrefix(b, y);
    assert a == l[..|a|] && b == r[..|b|];
    assert x == l[|a| + 1..] && y == r[|b| + 1..];
  }

  lemma EqualLengthPrefix(a: string, b: string, x: string, y: string)
    requires |a| == |b| && a + x == b + y
    ensures a == b && x == y
  {
    assert a == (a + x)[..|a|] && b == (b + y)[..|b|];
    assert x == (a + x)[|a|..] && y == (b + y)[|b|..];
  }

  /** A frame is a prefix code: whatever follows it, the value can be recovered. */
  lemma FrameIsPrefixCode(tag: string, v: string, w: string, x: string, y: string)
    requires Frame(tag, v) + x == Frame(tag, w) + y
    ensures v == w && x == y
  {
    var head := tag + "\0";
    var dv, dw := Dec(|v|), Dec(|w|);
    var tv, tw := v + "\0" + x, w + "\0" + y;
    assert Frame(tag, v) + x == head + (dv + "\0" + tv);
    assert Frame(tag, w) + y == head + (dw + "\0" + tw);
    EqualLengthPrefix(head, head, dv + "\0" + tv, dw + "\0" + tw);
    DecSpells(|v|);
    DecSpells(|w|);
    TerminatedPrefix(dv, dw, tv, tw);
    assert tv == v + ("\0" + x) && tw == w + ("\0" + y);
    EqualLengthPrefix(v, w, "\0" + x, "\0" + y);
    assert x == ("\0" + x)[1..] && y == ("\0" + y)[1..];
  }

  /** Concatenation of one frame per label. */
  function Frames(tags: seq<string>, values: seq<string>): string
    requires |tags| == |values|
  {
    if tags == [] then "" else Frame(tags[0], values[0]) + Frames(tags[1..], values[1..])
  }

  lemma {:induction false} FramesInjective(tags: seq<string>, vs: seq<string>, ws: seq<string>)
    requires |tags| == |vs| == |ws|
    requires Frames(tags, vs) == Frames(tags, ws)
    ensures vs == ws
  {
    if tags != [] {
      FrameIsPrefixCode(tags[0], vs[0], ws[0], Frames(tags[1..], vs[1..]), Frames(tags[1..], ws[1..]));
      FramesInjective(tags[1..], vs[1..], ws[1..]);
      assert vs == [vs[0]] + vs[1..] && ws == [ws[0]] + ws[1..];
    }
  }

  type Header = (string, string)

  function HeaderFrame(h: Header): string {
    Frame("header-name", h.0) + Frame("header-value", h.1)
  }

  lemma HeaderFrameIsPrefixCode(g: Header, h: Header, x: string, y: string)
    requires HeaderFrame(g) + x == HeaderFrame(h) + y
    ensures g == h && x == y
  {
    var vg, vh := Frame("header-value", g.1), Frame("header-value", h.1);
    assert HeaderFrame(g) + x == Frame("header-name", g.0) + (vg + x);
    assert HeaderFrame(h) + y == Frame("header-name", h.0) + (vh + y);
    FrameIsPrefixCode("header-name", g.0, h.0, vg + x, vh + y);
    FrameIsPrefixCode("header-value", g.1, h.1, x, y);
  }

  /** The variable-length header list, two frames per header. */
  function HeaderFrames(headers: seq<Header>): string {
    if headers == [] then "" else HeaderFrame(headers[0]) + HeaderFrames(headers[1..])
  }

  lemma {:induction false} HeaderFramesSnoc(headers: seq<Header>, h: Header)
    ensures HeaderFrames(headers + [h]) == HeaderFrames(headers) + HeaderFrame(h)
  {
    hide HeaderFrame;
    if headers == [] {
      assert [h][1..] == [] && headers + [h] == [h];
    } else {
      HeaderFramesSnoc(headers[1..], h);
      assert (headers + [h])[1..] == headers[1..] + [h];
      var first, rest, last := HeaderFrame(headers[0]), HeaderFrames(headers[1..]), HeaderFrame(h);
      assert first + (rest + last) == (first + rest) + last;
    }
  }

  lemma {:induction false} HeaderFramesInjective(gs: seq<Header>, hs: seq<Header>)
    requires HeaderFrames(gs) == HeaderFrames(hs)
    ensures gs == hs
  {
    if gs != [] && hs != [] {
      HeaderFrameIsPrefixCode(gs[0], hs[0], HeaderFrames(gs[1..]), HeaderFrames(hs[1..]));
      HeaderFramesInjective(gs[1..], hs[1..]);
      assert gs == [gs[0]] + gs[1..] && hs == [hs[0]] + hs[1..];
    }
  }

  /** Preimage of `meta_sha256`. */
  function MetaMessage(contentType: string, headers: seq<Header>): string {
    Frame("content-type", contentType) + HeaderFrames(headers)
  }

  lemma MetaMessageInjective(ct1: string, hs1: seq<Header>, ct2: string, hs2: seq<Header>)
    requires MetaMessage(ct1, hs1) == MetaMessage(ct2, hs2)
    ensures ct1 == ct2 && hs1 == hs2
  {
    FrameIsPrefixCode("content-type", ct1, ct2, HeaderFrames(hs1), HeaderFrames(hs2));
    HeaderFramesInjective(hs1, hs2);
  }

  /** The engine feeds the digest field by field; the bytes fed are exactly `MetaMessage`. */
  method FeedMeta(contentType: string, headers: seq<Header>) returns (fed: string)
    ensures fed == MetaMessage(contentType, headers)
  {
    fed := Frame("content-type", contentType);
    var i := 0;
    while i < |headers|
      invariant 0 <= i <= |headers|
      invariant fed == MetaMessage(contentType, headers[..i])
    {
      HeaderFramesSnoc(headers[..i], headers[i]);
      assert headers[..i + 1] == headers[..i] + [headers[i]];
      var ct, done, next := Frame("content-type", contentType), HeaderFrames(headers[..i]), HeaderFrame(headers[i]);
      assert (ct + done) + next == ct + (done + next);
      fed := fed + next;
      i := i + 1;
    }
    assert headers[..i] == headers;
  }
}
