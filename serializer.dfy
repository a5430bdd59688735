/**
 * The serializer of src/ser.rs as objects: `Serializer` owns the output, a
 * formatter and the `first` flag, and its visit methods write into the
 * output step by step. Each method is proved to write exactly what
 * `Encoding.Render` says and to return the status `Render` reports; the
 * format's properties are proved about `Render` in module Encoding.
 *
 * The output sink is the byte sequence `out`; writing to it cannot fail.
 */
module Ser {
  import Wrappers
  import opened Text
  import opened Errors
  import opened Scalars
  import opened Formatting
  import opened Encoding

  class Serializer {
    /** Everything written so far. */
    var out: seq<byte>
    const format: Formatter
    /** Whether the next item of the innermost open container is its first. */
    var first: bool

    constructor WithFormatter(writer: seq<byte>, format: Formatter)
      ensures out == writer && this.format == format && !first
    {
      out := writer;
      this.format := format;
      first := false;
    }

    /** A serializer with the compact formatter. */
    constructor New(writer: seq<byte>)
      ensures out == writer && !first
      ensures fresh(format) && format.style == Compact && format.indent == 0
    {
      out := writer;
      format := new Formatter(Compact);
      first := false;
    }

    /** A serializer with a pretty formatter at depth 0. */
    constructor Pretty(writer: seq<byte>)
      ensures out == writer && !first
      ensures fresh(format) && format.style == Formatting.Pretty && format.indent == 0
    {
      out := writer;
      format := new Formatter(Formatting.Pretty);
      first := false;
    }

    method VisitBool(b: bool) returns (r: Result<()>)
      modifies this`out
      ensures out == old(out) + Render(format.style, format.indent, Bool(b)).bytes
      ensures r == AsResult(Render(format.style, format.indent, Bool(b)).status)
    {
      if b {
        out := out + Ascii("True");
      } else {
        out := out + Ascii("False");
      }
      r := Ok(());
    }

    method VisitI64(i: i64) returns (r: Result<()>)
      modifies this`out
      ensures out == old(out) + Render(format.style, format.indent, I64(i)).bytes
      ensures r == AsResult(Render(format.style, format.indent, I64(i)).status)
    {
      out := out + Ascii(SignedDecimal(i));
      r := Ok(());
    }

    method VisitU64(u: u64) returns (r: Result<()>)
      modifies this`out
      ensures out == old(out) + Render(format.style, format.indent, U64(u)).bytes
      ensures r == AsResult(Render(format.style, format.indent, U64(u)).status)
    {
      out := out + Ascii(DecimalDigits(u));
      r := Ok(());
    }

    /** A finite float gets `.0` after its text unless the text has a `.`. */
    method VisitF64(f: Float) returns (r: Result<()>)
      modifies this`out
      ensures out == old(out) + Render(format.style, format.indent, F64(f)).bytes
      ensures r == AsResult(Render(format.style, format.indent, F64(f)).status)
    {
      r := Ok(());
      match f
      case NaN =>
        out := out + Ascii("NaN");
      case Infinite(negative) =>
        out := out + if negative then Ascii("-inf") else Ascii("inf");
      case Finite(text) =>
        out := out + text;
        if DOT !in text {
          out := out + [DOT, '0' as int];
        }
    }

    /** The string between double quotes, each byte escaped on its own. */
    method VisitStr(s: seq<byte>) returns (r: Result<()>)
      modifies this`out
      ensures out == old(out) + Render(format.style, format.indent, Str(s)).bytes
      ensures r == AsResult(Render(format.style, format.indent, Str(s)).status)
    {
      out := out + [QUOTE];
      ghost var start := out;
      for i := 0 to |s|
        invariant out == start + EscapeString(s[..i])
      {
        WriteEscaped(s[i]);
        AppendAssoc(start, EscapeString(s[..i]), EscapeByte(s[i]));
        EscapeStringSnoc(s[..i], s[i]);
        assert s[..i + 1] == s[..i] + [s[i]];
      }
      assert s[..|s|] == s;
      out := out + [QUOTE];
      AppendAssoc(old(out), [QUOTE], EscapeString(s));
      AppendAssoc(old(out), [QUOTE] + EscapeString(s), [QUOTE]);
      r := Ok(());
    }

    /**
     * One byte of a string: a named escape, `\` and upper-case hexadecimal
     * for the other control bytes (zero-padded to two digits), or the byte
     * itself.
     */
    method WriteEscaped(ch: byte)
      modifies this`out
      ensures out == old(out) + EscapeByte(ch)
    {
      if ch == 0x09 {
        out := out + [BACKSLASH, 't' as int];
      } else if ch == 0x0A {
        out := out + [BACKSLASH, 'n' as int];
      } else if ch == 0x0D {
        out := out + [BACKSLASH, 'r' as int];
      } else if ch == QUOTE {
        out := out + [BACKSLASH, QUOTE];
      } else if ch == BACKSLASH {
        out := out + [BACKSLASH, BACKSLASH];
      } else if ch < 0x10 {
        out := out + [BACKSLASH, '0' as int] + UpperHex(ch);
      } else if ch < 0x20 {
        out := out + [BACKSLASH] + UpperHex(ch);
      } else {
        out := out + [ch];
      }
    }

    /** Neither the unit value nor an absent option has a representation. */
    method VisitUnit() returns (r: Result<()>)
      ensures r == AsResult(Render(format.style, format.indent, Unit).status)
      ensures Render(format.style, format.indent, Unit).bytes == []
    {
      r := Err(SyntaxError(UnrepresentableValue, 0, 0, 0));
    }

    method VisitNone() returns (r: Result<()>)
      ensures r == AsResult(Render(format.style, format.indent, None).status)
      ensures Render(format.style, format.indent, None).bytes == []
    {
      r := VisitUnit();
    }

    /** A present option is written as its content. */
    method VisitSome(x: Value) returns (r: Result<()>)
      modifies this, format
      ensures out == old(out) + Render(format.style, old(format.indent), Some(x)).bytes
      ensures r == AsResult(Render(format.style, old(format.indent), Some(x)).status)
      ensures r.Ok? ==> format.indent == old(format.indent) && first == FirstAfter(Some(x), old(first))
      decreases x, 3
    {
      r := Serialize(x);
    }

    /**
     * A sequence: `[]` when its visitor reports length 0; otherwise the
     * formatter opens it, each item is visited in turn, and the formatter
     * closes it. The first failing item stops the sequence unclosed.
     */
    method VisitSeq(v: Value) returns (r: Result<()>)
      requires v.Seq?
      modifies this, format
      ensures out == old(out) + Render(format.style, old(format.indent), v).bytes
      ensures r == AsResult(Render(format.style, old(format.indent), v).status)
      ensures r.Ok? ==> format.indent == old(format.indent) && first == FirstAfter(v, old(first))
      decreases v, 1
    {
      if v.reportedLen == Wrappers.Some(0) {
        out := out + Ascii("[]");
        return Ok(());
      }
      ghost var d := format.indent;
      ghost var d' := Inner(format.style, d);
      SeqOutput(format.style, d, v);
      out := format.StartCompound(out, '[' as int);
      first := true;
      r := VisitItems(v);
      ghost var body := RenderItems(format.style, d', v, |v.items|).bytes;
      AppendAssoc(old(out), Open(format.style, d, '[' as int), body);
      if r.Err? {
        return;
      }
      out := format.EndCompound(out, ']' as int);
      AppendAssoc(old(out), Open(format.style, d, '[' as int) + body, Close(format.style, d, ']' as int));
      r := Ok(());
    }

    /**
     * The sequence visitor's loop: it hands each of the items in turn to
     * `VisitSeqElt` and stops at the first one that fails.
     */
    method VisitItems(v: Value) returns (r: Result<()>)
      requires v.Seq? && first
      modifies this, format
      ensures out == old(out) + RenderItems(format.style, old(format.indent), v, |v.items|).bytes
      ensures r == AsResult(RenderItems(format.style, old(format.indent), v, |v.items|).status)
      ensures r.Ok? ==> format.indent == old(format.indent) && first == (|v.items| == 0)
      decreases v, 0
    {
      ghost var d := format.indent;
      var i := 0;
      while i < |v.items|
        invariant 0 <= i <= |v.items|
        invariant format.indent == d
        invariant out == old(out) + RenderItems(format.style, d, v, i).bytes
        invariant RenderItems(format.style, d, v, i).status.Done?
        invariant first == (i == 0)
      {
        r := VisitSeqElt(v.items[i]);
        ItemsExtend(format.style, d, v, i, old(out));
        if r.Err? {
          return;
        }
        i := i + 1;
      }
      r := Ok(());
    }

    /** One item: its separator, then the item; after it the next item is not the first. */
    method VisitSeqElt(x: Value) returns (r: Result<()>)
      modifies this, format
      ensures out == old(out) + RenderItem(format.style, old(format.indent), old(first), x).bytes
      ensures r == AsResult(RenderItem(format.style, old(format.indent), old(first), x).status)
      ensures r.Ok? ==> format.indent == old(format.indent) && !first
      decreases x, 3
    {
      ghost var sep := ItemSep(format.style, format.indent, first);
      out := format.ItemSeparator(out, first);
      r := Serialize(x);
      AppendAssoc(old(out), sep, Render(format.style, old(format.indent), x).bytes);
      if r.Err? {
        return;
      }
      first := false;
    }

    /**
     * A map: `{}` when its visitor reports length 0; otherwise opened, its
     * entries visited in turn, and closed, as for a sequence.
     */
    method VisitMap(v: Value) returns (r: Result<()>)
      requires v.Map?
      modifies this, format
      ensures out == old(out) + Render(format.style, old(format.indent), v).bytes
      ensures r == AsResult(Render(format.style, old(format.indent), v).status)
      ensures r.Ok? ==> format.indent == old(format.indent) && first == FirstAfter(v, old(first))
      decreases v, 1
    {
      if v.reportedLen == Wrappers.Some(0) {
        out := out + Ascii("{}");
        return Ok(());
      }
      ghost var d := format.indent;
      ghost var d' := Inner(format.style, d);
      MapOutput(format.style, d, v);
      out := format.StartCompound(out, '{' as int);
      first := true;
      r := VisitEntries(v);
      ghost var body := RenderEntries(format.style, d', v, |v.entries|).bytes;
      AppendAssoc(old(out), Open(format.style, d, '{' as int), body);
      if r.Err? {
        return;
      }
      out := format.EndCompound(out, '}' as int);
      AppendAssoc(old(out), Open(format.style, d, '{' as int) + body, Close(format.style, d, '}' as int));
      r := Ok(());
    }

    /**
     * The map visitor's loop: it hands each of the entries in turn to
     * `VisitMapElt` and stops at the first one that fails.
     */
    method VisitEntries(v: Value) returns (r: Result<()>)
      requires v.Map? && first
      modifies this, format
      ensures out == old(out) + RenderEntries(format.style, old(format.indent), v, |v.entries|).bytes
      ensures r == AsResult(RenderEntries(format.style, old(format.indent), v, |v.entries|).status)
      ensures r.Ok? ==> format.indent == old(format.indent) && first == (|v.entries| == 0)
      decreases v, 0
    {
      ghost var d := format.indent;
      var i := 0;
      while i < |v.entries|
        invariant 0 <= i <= |v.entries|
        invariant format.indent == d
        invariant out == old(out) + RenderEntries(format.style, d, v, i).bytes
        invariant RenderEntries(format.style, d, v, i).status.Done?
        invariant first == (i == 0)
      {
        r := VisitMapElt(v.entries[i]);
        EntriesExtend(format.style, d, v, i, old(out));
        if r.Err? {
          return;
        }
        i := i + 1;
      }
      r := Ok(());
    }

    /**
     * One entry: its separator, the key through a `KeySerializer`, the key
     * separator and the value.
     */
    method VisitMapElt(e: Entry) returns (r: Result<()>)
      modifies this, format
      ensures out == old(out) + RenderEntry(format.style, old(format.indent), old(first), e).bytes
      ensures r == AsResult(RenderEntry(format.style, old(format.indent), old(first), e).status)
      ensures r.Ok? ==> format.indent == old(format.indent) && !first
      decreases e, 3
    {
      ghost var sep := ItemSep(format.style, format.indent, first);
      out := format.ItemSeparator(out, first);
      var keys := new KeySerializer(this);
      r := keys.Serialize(e.key);
      AppendAssoc(old(out), sep, RenderKey(e.key).bytes);
      if r.Err? {
        return;
      }
      ghost var head := sep + RenderKey(e.key).bytes;
      out := format.KeySeparator(out);
      AppendAssoc(old(out), head, KeySep(format.style));
      r := Serialize(e.value);
      AppendAssoc(old(out), head + KeySep(format.style), Render(format.style, old(format.indent), e.value).bytes);
      if r.Err? {
        return;
      }
      first := false;
    }

    /** `Serialize::serialize` of a value: the visit for its kind. */
    method Serialize(v: Value) returns (r: Result<()>)
      modifies this, format
      ensures out == old(out) + Render(format.style, old(format.indent), v).bytes
      ensures r == AsResult(Render(format.style, old(format.indent), v).status)
      ensures r.Ok? ==> format.indent == old(format.indent) && first == FirstAfter(v, old(first))
      decreases v, 2
    {
      match v
      case Bool(b) => r := VisitBool(b);
      case I64(i) => r := VisitI64(i);
      case U64(u) => r := VisitU64(u);
      case F64(f) => r := VisitF64(f);
      case Str(s) => r := VisitStr(s);
      case Unit => r := VisitUnit();
      case None => r := VisitNone();
      case Some(x) => r := VisitSome(x);
      case Seq(_, _) => r := VisitSeq(v);
      case Map(_, _) => r := VisitMap(v);
    }
  }

  /**
   * Writes map keys for a serializer: a string key is written bare, any
   * other kind of key is refused with `InvalidKey`.
   */
  class KeySerializer {
    const serializer: Serializer

    constructor (serializer: Serializer)
      ensures this.serializer == serializer
    {
      this.serializer := serializer;
    }

    method VisitStr(s: seq<byte>) returns (r: Result<()>)
      modifies serializer`out
      ensures serializer.out == old(serializer.out) + s
      ensures r == Ok(())
    {
      serializer.out := serializer.out + s;
      r := Ok(());
    }

    /** A key of any kind: the visit for a string, a refusal for every other kind. */
    method Serialize(k: Value) returns (r: Result<()>)
      modifies serializer`out
      ensures serializer.out == old(serializer.out) + RenderKey(k).bytes
      ensures r == AsResult(RenderKey(k).status)
      ensures r.Err? <==> !k.Str?
    {
      if k.Str? {
        r := VisitStr(k.s);
      } else {
        r := Err(SyntaxError(InvalidKey, 0, 0, 0));
      }
    }
  }

  /** Encodes `v` compactly after what the writer already holds. */
  method ToWriter(writer: seq<byte>, v: Value) returns (writer': seq<byte>, r: Result<()>)
    ensures writer' == writer + Render(Compact, 0, v).bytes
    ensures r == AsResult(Render(Compact, 0, v).status)
  {
    var s := new Serializer.New(writer);
    r := s.Serialize(v);
    writer' := s.out;
  }

  /** Encodes `v` in the pretty style after what the writer already holds. */
  method ToWriterPretty(writer: seq<byte>, v: Value) returns (writer': seq<byte>, r: Result<()>)
    ensures writer' == writer + Render(Formatting.Pretty, 0, v).bytes
    ensures r == AsResult(Render(Formatting.Pretty, 0, v).status)
  {
    var s := new Serializer.Pretty(writer);
    r := s.Serialize(v);
    writer' := s.out;
  }

  /** The compact encoding of `v` in a new buffer, or the error that stopped it. */
  method ToVec(v: Value) returns (r: Result<seq<byte>>)
    ensures r == Encode(Compact, v)
    ensures r.Ok? <==> Representable(v)
  {
    var w, res := ToWriter([], v);
    assert w == Render(Compact, 0, v).bytes;
    RenderStatus(Compact, 0, v);
    if res.Err? {
      return Err(res.error);
    }
    r := Ok(w);
  }

  /** The pretty encoding of `v` in a new buffer, or the error that stopped it. */
  method ToVecPretty(v: Value) returns (r: Result<seq<byte>>)
    ensures r == Encode(Formatting.Pretty, v)
    ensures r.Ok? <==> Representable(v)
  {
    var w, res := ToWriterPretty([], v);
    assert w == Render(Formatting.Pretty, 0, v).bytes;
    RenderStatus(Formatting.Pretty, 0, v);
    if res.Err? {
      return Err(res.error);
    }
    r := Ok(w);
  }
}
