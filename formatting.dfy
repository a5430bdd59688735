/**
 * The two formatters of the encoder (src/ser.rs, `CompactFormatter` and
 * `PrettyFormatter`): they decide only the punctuation around and between
 * the items of a sequence or a map.
 */
module Formatting {
  import opened Text

  const SPACE: byte := 0x20
  const NEWLINE: byte := 0x0A
  const COMMA: byte := 0x2C
  const COLON: byte := 0x3A

  datatype Style = Compact | Pretty

  /** The indentation for depth `n`: two spaces per level. */
  function Spaces(n: nat): (r: seq<byte>)
    ensures |r| == 2 * n
    ensures forall i | 0 <= i < |r| :: r[i] == SPACE
  {
    if n == 0 then [] else Spaces(n - 1) + [SPACE, SPACE]
  }

  /** The depth inside a container entered at depth `d`: only the pretty style counts it. */
  function Inner(style: Style, d: nat): nat {
    if style.Pretty? then d + 1 else d
  }

  /** What opening a container at depth `d` writes. */
  function Open(style: Style, d: nat, ch: byte): (r: seq<byte>)
    ensures |r| >= 1 && r[0] == ch
    ensures style.Compact? ==> r == [ch]
    ensures style.Pretty? ==> r == [ch, NEWLINE] + Spaces(d + 1)
  {
    if style.Compact? then [ch] else [ch, NEWLINE] + Spaces(d + 1)
  }

  /** What closing a container whose outside is at depth `d` writes. */
  function Close(style: Style, d: nat, ch: byte): (r: seq<byte>)
    ensures |r| >= 1 && r[|r| - 1] == ch
    ensures style.Compact? ==> r == [ch]
    ensures style.Pretty? ==> r == [NEWLINE] + Spaces(d) + [ch]
  {
    if style.Compact? then [ch] else [NEWLINE] + Spaces(d) + [ch]
  }

  /** Between a map key and its value. */
  function KeySep(style: Style): (r: seq<byte>)
    ensures |r| >= 1 && r[0] == COLON
    ensures style.Compact? ==> r == [COLON]
    ensures style.Pretty? ==> r == [COLON, SPACE]
  {
    if style.Compact? then [COLON] else [COLON, SPACE]
  }

  /** Before an item at depth `d`: nothing before the first item, then `,` or a new indented line. */
  function ItemSep(style: Style, d: nat, first: bool): (r: seq<byte>)
    ensures first ==> r == []
    ensures !first && style.Compact? ==> r == [COMMA]
    ensures !first && style.Pretty? ==> r == [NEWLINE] + Spaces(d)
  {
    if first then [] else if style.Compact? then [COMMA] else [NEWLINE] + Spaces(d)
  }

  /** Writes the indentation for depth `n`, two spaces at a time. */
  method WriteIndent(w: seq<byte>, n: nat) returns (w': seq<byte>)
    ensures w' == w + Spaces(n)
  {
    w' := w;
    for i := 0 to n
      invariant w' == w + Spaces(i)
    {
      w' := w' + [SPACE, SPACE];
    }
  }

  /**
   * A formatter of either style. The indentation depth is the pretty
   * formatter's state; the compact formatter never changes it.
   */
  class Formatter {
    const style: Style
    var indent: nat

    constructor (style: Style)
      ensures this.style == style && indent == 0
    {
      this.style := style;
      indent := 0;
    }

    method StartCompound(w: seq<byte>, ch: byte) returns (w': seq<byte>)
      modifies this
      ensures indent == Inner(style, old(indent))
      ensures w' == w + Open(style, old(indent), ch)
    {
      if style.Compact? {
        w' := w + [ch];
      } else {
        indent := indent + 1;
        w' := w + [ch, NEWLINE];
        w' := WriteIndent(w', indent);
      }
    }

    method EndCompound(w: seq<byte>, ch: byte) returns (w': seq<byte>)
      requires style.Pretty? ==> indent >= 1
      modifies this
      ensures old(indent) == Inner(style, indent)
      ensures w' == w + Close(style, indent, ch)
    {
      if style.Compact? {
        w' := w + [ch];
      } else {
        indent := indent - 1;
        w' := w + [NEWLINE];
        w' := WriteIndent(w', indent);
        w' := w' + [ch];
      }
    }

    method KeySeparator(w: seq<byte>) returns (w': seq<byte>)
      ensures w' == w + KeySep(style)
    {
      if style.Compact? {
        w' := w + [COLON];
      } else {
        w' := w + [COLON, SPACE];
      }
    }

    method ItemSeparator(w: seq<byte>, first: bool) returns (w': seq<byte>)
      ensures w' == w + ItemSep(style, indent, first)
    {
      if first {
        w' := w;
      } else if style.Compact? {
        w' := w + [COMMA];
      } else {
        w' := w + [NEWLINE];
        w' := WriteIndent(w', indent);
      }
    }
  }

  /** Opening then closing a container leaves the pretty depth where it was. */
  method StartEndRestoresDepth(f: Formatter, w: seq<byte>, ch: byte, ch': byte) returns (w': seq<byte>)
    modifies f
    ensures f.indent == old(f.indent)
    ensures w' == w + Open(f.style, old(f.indent), ch) + Close(f.style, old(f.indent), ch')
  {
    w' := f.StartCompound(w, ch);
    w' := f.EndCompound(w', ch');
  }
}
