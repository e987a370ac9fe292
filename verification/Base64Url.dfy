/** URL-safe base64 without padding (section 5 of RFC 4648), as the signed tokens use it. */
module Base64Url {
  import opened Wrappers

  type byte = x: int | 0 <= x < 256
  type sextet = x: int | 0 <= x < 64

  function Symbol(v: sextet): char {
    if v < 26 then ('A' as int + v) as char
    else if v < 52 then ('a' as int + v - 26) as char
    else if v < 62 then ('0' as int + v - 52) as char
    else if v == 62 then '-' else '_'
  }

  function Value(c: char): Option<sextet> {
    if 'A' <= c <= 'Z' then Some(c as int - 'A' as int)
    else if 'a' <= c <= 'z' then Some(c as int - 'a' as int + 26)
    else if '0' <= c <= '9' then Some(c as int - '0' as int + 52)
    else if c == '-' then Some(62)
    else if c == '_' then Some(63)
    else None
  }

  /** The URL-safe alphabet (table 2 of RFC 4648): capitals, small letters, digits, minus, underscore, in ASCII. */
  lemma Alphabet(v: sextet)
    ensures Symbol(v) as int == if v < 26 then 65 + v else if v < 52 then 97 + (v - 26)
                                else if v < 62 then 48 + (v - 52) else if v == 62 then 45 else 95
  {
  }

  /** Three bytes as four sextets, and back. */
  function Quad(p: byte, q: byte, r: byte): (sextet, sextet, sextet, sextet) {
    (p / 4, p % 4 * 16 + q / 16, q % 16 * 4 + r / 64, r % 64)
  }

  function Group(v: sextet, w: sextet, x: sextet, y: sextet): seq<byte> {
    [v * 4 + w / 16, w % 16 * 16 + x / 4, x % 4 * 64 + y]
  }

  /** Bytes and sextets are the same 24 bits, most significant first. */
  lemma SameBits(p: byte, q: byte, r: byte)
    ensures var (v, w, x, y) := Quad(p, q, r);
            ((v * 64 + w) * 64 + x) * 64 + y == (p * 256 + q) * 256 + r
  {
  }

  lemma GroupOfQuad(p: byte, q: byte, r: byte)
    ensures var t := Quad(p, q, r); Group(t.0, t.1, t.2, t.3) == [p, q, r]
    ensures q == 0 && r == 0 ==> Quad(p, q, r).2 == 0
    ensures r == 0 ==> Quad(p, q, r).3 == 0
  {
    Halves(p % 4, q / 16, 16);
    Halves(q % 16, r / 64, 4);
    assert p == p / 4 * 4 + p % 4 && q == q / 16 * 16 + q % 16 && r == r / 64 * 64 + r % 64;
  }

  /** A high part scaled up and a low part below the scale come apart again. */
  lemma Halves(high: int, low: int, scale: int)
    requires scale == 16 || scale == 4
    requires 0 <= low < scale
    ensures (high * scale + low) / scale == high && (high * scale + low) % scale == low
  {
  }

  function Spell(p: byte, q: byte, r: byte): string {
    var t := Quad(p, q, r);
    [Symbol(t.0), Symbol(t.1), Symbol(t.2), Symbol(t.3)]
  }

  /** Three bytes become four symbols; a last group of one or two bytes is filled with zero bits and padded. */
  function EncodePadded(b: seq<byte>): string {
    if |b| == 0 then ""
    else if |b| == 1 then Spell(b[0], 0, 0)[..2] + "=="
    else if |b| == 2 then Spell(b[0], b[1], 0)[..3] + "="
    else Spell(b[0], b[1], b[2]) + EncodePadded(b[3..])
  }

  /** None for text that no encoder produces. */
  function DecodePadded(s: string): Option<seq<byte>> {
    if |s| == 0 then Some([])
    else if |s| < 4 || Value(s[0]).None? || Value(s[1]).None? then None
    else
      var v, w := Value(s[0]).value, Value(s[1]).value;
      if s[2..] == "==" then Some(Group(v, w, 0, 0)[..1])
      else if Value(s[2]).None? then None
      else if s[3..] == "=" then Some(Group(v, w, Value(s[2]).value, 0)[..2])
      else if Value(s[3]).None? then None
      else match DecodePadded(s[4..])
        case None => None
        case Some(rest) => Some(Group(v, w, Value(s[2]).value, Value(s[3]).value) + rest)
  }

  /** Removes every trailing '='. */
  function RStrip(s: string): string {
    if |s| > 0 && s[|s| - 1] == '=' then RStrip(s[..|s| - 1]) else s
  }

  function Padding(n: nat): string {
    seq((-(n as int)) % 4, _ => '=')
  }

  function Encode(b: seq<byte>): string {
    RStrip(EncodePadded(b))
  }

  function Decode(s: string): Option<seq<byte>> {
    DecodePadded(s + Padding(|s|))
  }

  /** The symbols without padding, written directly. */
  function Symbols(b: seq<byte>): string {
    if |b| == 0 then ""
    else if |b| == 1 then Spell(b[0], 0, 0)[..2]
    else if |b| == 2 then Spell(b[0], b[1], 0)[..3]
    else Spell(b[0], b[1], b[2]) + Symbols(b[3..])
  }

  lemma SpellPlain(p: byte, q: byte, r: byte)
    ensures |Spell(p, q, r)| == 4 && forall i :: 0 <= i < 4 ==>
      Spell(p, q, r)[i] != '=' && Spell(p, q, r)[i] != '.' && Spell(p, q, r)[i] as int < 128
  {
  }

  /** Encoded text has no padding sign and no dot, and is ASCII. */
  lemma {:induction false} SymbolsPlain(b: seq<byte>)
    ensures forall c :: c in Symbols(b) ==> c != '=' && c != '.' && c as int < 128
  {
    hide Spell;
    if |b| > 0 {
      SpellPlain(b[0], if |b| > 1 then b[1] else 0, if |b| > 2 then b[2] else 0);
      if |b| > 2 {
        SymbolsPlain(b[3..]);
      }
    }
  }

  /**
   Padding is all that the padded text adds, and its length is what the unpadded length lacks to a
   multiple of four.
   */
  lemma {:induction false} PaddedIsSymbolsAndPadding(b: seq<byte>)
    ensures EncodePadded(b) == Symbols(b) + Padding(|Symbols(b)|)
  {
    hide Spell;
    if |b| > 0 {
      SpellPlain(b[0], if |b| > 1 then b[1] else 0, if |b| > 2 then b[2] else 0);
    }
    if |b| >= 3 {
      PaddedIsSymbolsAndPadding(b[3..]);
      assert |Symbols(b)| == 4 + |Symbols(b[3..])|;
      assert Padding(|Symbols(b)|) == Padding(|Symbols(b[3..])|);
    } else {
      assert Padding(0) == "" && Padding(2) == "==" && Padding(3) == "=";
    }
  }

  lemma {:induction false} StripPadding(s: string, p: string)
    requires (forall c :: c in s ==> c != '=') && forall i :: 0 <= i < |p| ==> p[i] == '='
    ensures RStrip(s + p) == s
  {
    if |p| == 0 {
      assert s + p == s && (s != "" ==> s[|s| - 1] in s);
    } else {
      assert (s + p)[|s + p| - 1] == '=' && (s + p)[..|s + p| - 1] == s + p[..|p| - 1];
      StripPadding(s, p[..|p| - 1]);
    }
  }

  /** Stripping loses nothing: -len % 4 restores exactly the padding that was stripped. */
  lemma PaddingRestored(b: seq<byte>)
    ensures Encode(b) == Symbols(b)
    ensures Encode(b) + Padding(|Encode(b)|) == EncodePadded(b)
  {
    SymbolsPlain(b);
    PaddedIsSymbolsAndPadding(b);
    StripPadding(Symbols(b), Padding(|Symbols(b)|));
  }

  /** Four symbols spell their group in front of decodable text. */
  lemma DecodeQuad(p: byte, q: byte, r: byte, rest: string)
    requires DecodePadded(rest).Some?
    ensures DecodePadded(Spell(p, q, r) + rest) == Some([p, q, r] + DecodePadded(rest).value)
  {
    GroupOfQuad(p, q, r);
    SpellValues(p, q, r);
    hide Quad, Group, Value, Spell;
    var s := Spell(p, q, r) + rest;
    assert s[4..] == rest && s[2..][0] == s[2] && s[3..][0] == s[3];
  }

  lemma DecodeLastByte(p: byte)
    ensures DecodePadded(Spell(p, 0, 0)[..2] + "==") == Some([p])
  {
    GroupOfQuad(p, 0, 0);
    SpellValues(p, 0, 0);
    hide Quad, Group, Value, Spell;
    var zero: byte := 0;
    assert [p, zero, zero][..1] == [p];
    assert (Spell(p, 0, 0)[..2] + "==")[2..] == "==";
  }

  lemma DecodeLastBytes(p: byte, q: byte)
    ensures DecodePadded(Spell(p, q, 0)[..3] + "=") == Some([p, q])
  {
    GroupOfQuad(p, q, 0);
    SpellValues(p, q, 0);
    hide Quad, Group, Value, Spell;
    var zero: byte := 0;
    assert [p, q, zero][..2] == [p, q];
    var t := Spell(p, q, 0)[..3] + "=";
    assert t[3..] == "=" && t[2..][0] == t[2];
  }

  lemma SpellValues(p: byte, q: byte, r: byte)
    ensures var t, s := Quad(p, q, r), Spell(p, q, r);
            |s| == 4 && s[2] != '=' && s[3] != '='
            && Value(s[0]) == Some(t.0) && Value(s[1]) == Some(t.1) && Value(s[2]) == Some(t.2)
              && Value(s[3]) == Some(t.3)
  {
  }

  lemma {:induction false} PaddedRoundTrip(b: seq<byte>)
    ensures DecodePadded(EncodePadded(b)) == Some(b)
  {
    hide Spell, DecodePadded;
    if |b| == 0 {
      EmptyDecodes();
    } else if |b| == 1 {
      DecodeLastByte(b[0]);
      assert b == [b[0]];
    } else if |b| == 2 {
      DecodeLastBytes(b[0], b[1]);
      assert b == [b[0], b[1]];
    } else {
      PaddedRoundTrip(b[3..]);
      DecodeQuad(b[0], b[1], b[2], EncodePadded(b[3..]));
      assert b == [b[0], b[1], b[2]] + b[3..];
    }
  }

  lemma EmptyDecodes()
    ensures DecodePadded("") == Some([])
  {
  }

  /** Decoding what was encoded gives every byte string back. */
  lemma RoundTrip(b: seq<byte>)
    ensures Decode(Encode(b)) == Some(b)
  {
    PaddingRestored(b);
    PaddedRoundTrip(b);
  }
}
