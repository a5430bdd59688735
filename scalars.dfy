/**
 * The text of each scalar kind, independent of the formatting style:
 * booleans, integers, floats and escaped strings (src/ser.rs, the
 * `visit_bool` .. `visit_str` methods of the serializer).
 */
module Scalars {
  import opened Wrappers
  import opened Text

  const QUOTE: byte := 0x22
  const BACKSLASH: byte := 0x5C
  const DOT: byte := 0x2E

  /** `True` or `False`, capitalised. */
  function BoolText(b: bool): seq<byte> {
    if b then Ascii("True") else Ascii("False")
  }

  /** A signed or unsigned integer in decimal, as the `{}` format writes it. */
  function IntegerText(i: int): (r: seq<byte>)
    ensures |r| >= 1 && (r[0] == '-' as int <==> i < 0)
  {
    Ascii(SignedDecimal(i))
  }

  /**
   * A 64-bit float, seen through the only thing the encoder asks of it: the
   * text of the platform's default formatting (`format!("{}", v)`), which is
   * computed outside this model and carried by `Finite`. Not-a-number and the
   * infinities print as `NaN`, `inf` and `-inf`.
   */
  datatype Float = Finite(text: seq<byte>) | NaN | Infinite(negative: bool)

  /** The float's text: a finite one gets `.0` appended when it has no `.`. */
  function FloatText(f: Float): (r: seq<byte>)
    ensures f.Finite? ==> f.text <= r && DOT in r
    ensures !f.Finite? ==> DOT !in r
  {
    match f
    case Finite(t) =>
      if DOT in t then t
      else
        var r := t + [DOT, '0' as int];
        assert r[|t|] == DOT;
        r
    case NaN => Ascii("NaN")
    case Infinite(negative) => if negative then Ascii("-inf") else Ascii("inf")
  }

  /** A finite float's text is kept as it is exactly when it has a `.`; otherwise `.0` follows it. */
  lemma FloatTextProperties(f: Float)
    requires f.Finite?
    ensures FloatText(f) == f.text <==> DOT in f.text
    ensures DOT !in f.text ==> FloatText(f) == f.text + [DOT, '0' as int]
  {
  }

  /** One hexadecimal digit, in upper case as `{:X}` writes it. */
  function HexDigit(x: nat): (r: byte)
    requires x < 16
  {
    if x < 10 then 0x30 + x else 0x41 + (x - 10)
  }

  predicate IsHexDigit(c: byte) {
    0x30 <= c <= 0x39 || 0x41 <= c <= 0x46
  }

  function HexValue(c: byte): (r: nat)
    requires IsHexDigit(c)
    ensures r < 16
  {
    if c <= 0x39 then c - 0x30 else c - 0x41 + 10
  }

  lemma HexDigitRoundTrip(x: nat)
    requires x < 16
    ensures IsHexDigit(HexDigit(x)) && HexValue(HexDigit(x)) == x
  {
  }

  /**
   * The escape of one byte of a string, as the encoder writes it once the
   * guard for single-digit codes covers 0x0F (see `EscapeByteAsWritten`):
   * the five named escapes, then `\` and two upper-case hexadecimal digits
   * for the other control bytes below 0x20, and every other byte verbatim.
   */
  function EscapeByte(b: byte): (r: seq<byte>)
    ensures 1 <= |r| <= 3
    ensures r[0] == BACKSLASH <==> b < 0x20 || b == QUOTE || b == BACKSLASH
    ensures r[0] != BACKSLASH ==> r == [b]
    ensures forall i | 0 <= i < |r| :: r[i] >= 0x20
  {
    if b == 0x09 then [BACKSLASH, 't' as int]
    else if b == 0x0A then [BACKSLASH, 'n' as int]
    else if b == 0x0D then [BACKSLASH, 'r' as int]
    else if b == QUOTE then [BACKSLASH, QUOTE]
    else if b == BACKSLASH then [BACKSLASH, BACKSLASH]
    else if b < 0x10 then [BACKSLASH, '0' as int, HexDigit(b)]
    else if b < 0x20 then [BACKSLASH, HexDigit(b / 16), HexDigit(b % 16)]
    else [b]
  }

  /** `{:X}` of a byte: upper-case hexadecimal without leading zeros. */
  function UpperHex(b: byte): (r: seq<byte>)
    ensures 1 <= |r| <= 2
  {
    if b < 16 then [HexDigit(b)] else [HexDigit(b / 16), HexDigit(b % 16)]
  }

  /**
   * The escape of one byte exactly as the match in `visit_str` writes it: the
   * guard of the zero-padded arm is `ch < 0xF`, so 0x0F falls to the next arm
   * and gets a single digit.
   */
  function EscapeByteAsWritten(b: byte): (r: seq<byte>)
    ensures 1 <= |r| <= 3
    ensures r[0] == BACKSLASH <==> b < 0x20 || b == QUOTE || b == BACKSLASH
    ensures r[0] != BACKSLASH ==> r == [b]
    ensures forall i | 0 <= i < |r| :: r[i] >= 0x20
  {
    if b == 0x09 then [BACKSLASH, 't' as int]
    else if b == 0x0A then [BACKSLASH, 'n' as int]
    else if b == 0x0D then [BACKSLASH, 'r' as int]
    else if b == QUOTE then [BACKSLASH, QUOTE]
    else if b == BACKSLASH then [BACKSLASH, BACKSLASH]
    else if b < 0x0F then [BACKSLASH, '0' as int] + UpperHex(b)
    else if b < 0x20 then [BACKSLASH] + UpperHex(b)
    else [b]
  }

  /** The correction changes the escape of 0x0F and of no other byte. */
  lemma EscapeCorrectionIsLocal(b: byte)
    ensures EscapeByte(b) == EscapeByteAsWritten(b) <==> b != 0x0F
    ensures EscapeByteAsWritten(0x0F) == [BACKSLASH, 'F' as int]
    ensures EscapeByte(0x0F) == [BACKSLASH, '0' as int, 'F' as int]
  {
  }

  /** The escaped body of a string, byte by byte. */
  function EscapeString(s: seq<byte>): (r: seq<byte>)
    ensures |r| >= |s|
    ensures forall i | 0 <= i < |r| :: r[i] >= 0x20
    decreases |s|
  {
    if s == [] then [] else EscapeByte(s[0]) + EscapeString(s[1..])
  }

  /** The escaped body of a string with the escape as written. */
  function EscapeStringAsWritten(s: seq<byte>): (r: seq<byte>)
    ensures |r| >= |s|
    ensures forall i | 0 <= i < |r| :: r[i] >= 0x20
    decreases |s|
  {
    if s == [] then [] else EscapeByteAsWritten(s[0]) + EscapeStringAsWritten(s[1..])
  }

  /** A string is written as its escaped bytes between double quotes. */
  function StringText(s: seq<byte>): (r: seq<byte>)
    ensures |r| >= 2 && r[0] == QUOTE && r[|r| - 1] == QUOTE
    ensures r[1..|r| - 1] == EscapeString(s)
  {
    var r := [QUOTE] + EscapeString(s) + [QUOTE];
    assert r[1..|r| - 1] == EscapeString(s);
    r
  }

  /** Appending a byte to a string appends its escape to the escaped body. */
  lemma {:induction false} EscapeStringSnoc(s: seq<byte>, b: byte)
    ensures EscapeString(s + [b]) == EscapeString(s) + EscapeByte(b)
    decreases |s|
  {
    if s == [] {
      assert [b][1..] == [];
    } else {
      assert (s + [b])[1..] == s[1..] + [b];
      EscapeStringSnoc(s[1..], b);
    }
  }

  /** A byte is written as itself exactly when it is not a control byte, a quote or a backslash. */
  lemma EscapeByteVerbatim(b: byte)
    ensures EscapeByte(b) == [b] <==> b >= 0x20 && b != QUOTE && b != BACKSLASH
  {
  }

  /** A string without control bytes, quotes or backslashes is its own escaped body. */
  lemma {:induction false} EscapePlain(s: seq<byte>)
    requires forall i | 0 <= i < |s| :: s[i] >= 0x20 && s[i] != QUOTE && s[i] != BACKSLASH
    ensures EscapeString(s) == s
    decreases |s|
  {
    if s != [] {
      EscapePlain(s[1..]);
      assert [s[0]] + s[1..] == s;
    }
  }

  // ---------------------------------------------------------------------
  // A reference decoder for the escaped body of a string, used to state
  // what the escaping must achieve: that every string can be read back.

  /** The byte a named escape `\c` stands for. */
  function NamedEscape(c: byte): Option<byte> {
    if c == 't' as int then Some(0x09)
    else if c == 'n' as int then Some(0x0A)
    else if c == 'r' as int then Some(0x0D)
    else if c == QUOTE then Some(QUOTE)
    else if c == BACKSLASH then Some(BACKSLASH)
    else None
  }

  function Prepend(b: byte, rest: Option<seq<byte>>): Option<seq<byte>> {
    match rest
    case None => None
    case Some(t) => Some([b] + t)
  }

  /**
   * Decodes an escaped body: `\` with a named letter, `\` with two
   * hexadecimal digits, or a plain byte other than `"` and `\`.
   */
  function Unescape(t: seq<byte>): Option<seq<byte>>
    decreases |t|
  {
    if t == [] then Some([])
    else if t[0] == BACKSLASH then
      if |t| >= 2 && NamedEscape(t[1]).Some? then
        Prepend(NamedEscape(t[1]).value, Unescape(t[2..]))
      else if |t| >= 3 && IsHexDigit(t[1]) && IsHexDigit(t[2]) then
        Prepend(HexValue(t[1]) * 16 + HexValue(t[2]), Unescape(t[3..]))
      else None
    else if t[0] == QUOTE then None
    else Prepend(t[0], Unescape(t[1..]))
  }

  lemma UnescapeByte(b: byte, rest: seq<byte>)
    ensures Unescape(EscapeByte(b) + rest) == Prepend(b, Unescape(rest))
  {
    var t := EscapeByte(b) + rest;
    if b == 0x09 || b == 0x0A || b == 0x0D || b == QUOTE || b == BACKSLASH {
      assert t[2..] == rest;
    } else if b < 0x10 {
      HexDigitRoundTrip(b);
      assert t[3..] == rest;
    } else if b < 0x20 {
      HexDigitRoundTrip(b / 16);
      HexDigitRoundTrip(b % 16);
      assert t[3..] == rest;
    } else {
      assert t[1..] == rest;
    }
  }

  /** Every string survives escaping: the decoder gives back its bytes. */
  lemma {:induction false} EscapeRoundTrip(s: seq<byte>)
    ensures Unescape(EscapeString(s)) == Some(s)
    decreases |s|
  {
    if s != [] {
      UnescapeByte(s[0], EscapeString(s[1..]));
      EscapeRoundTrip(s[1..]);
      assert [s[0]] + s[1..] == s;
    }
  }

  /**
   * With the guard as written, the two-byte string 0x0F `A` is escaped as
   * `\FA`, which reads back as the single byte 0xFA.
   */
  lemma AsWrittenEscapeMisreads()
    ensures EscapeStringAsWritten([0x0F, 0x41]) == [BACKSLASH, 0x46, 0x41]
    ensures Unescape(EscapeStringAsWritten([0x0F, 0x41])) == Some([0xFA])
    ensures Unescape(EscapeString([0x0F, 0x41])) == Some([0x0F, 0x41])
  {
    EscapeRoundTrip([0x0F, 0x41]);
    assert EscapeStringAsWritten([0x0F, 0x41]) == [BACKSLASH, 0x46, 0x41];
    var t: seq<byte> := [BACKSLASH, 0x46, 0x41];
    assert NamedEscape(t[1]).None? && IsHexDigit(t[1]) && IsHexDigit(t[2]);
    assert HexValue(t[1]) * 16 + HexValue(t[2]) == 0xFA;
    assert t[3..] == [];
    var empty: seq<byte> := [];
    assert Unescape(empty) == Some(empty);
    assert [0xFA] + empty == [0xFA];
    assert Unescape(t) == Prepend(0xFA, Unescape(empty));
  }
}
