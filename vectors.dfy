/**
 * The expected outputs listed beside the encoder in src/ser.rs, stated as
 * facts about `Encode` for both styles.
 *
 * A test value is a parameter `v` pinned by its `requires` (`v == ...` or a
 * predicate such as `IsDictTwo`) rather than a literal in the `ensures`. The
 * parameter is only there to keep the verifier's work down: the literal
 * value then appears once, instead of being unfolded at every use.
 */
module TestVectors {
  import Wrappers
  import opened Text
  import opened Errors
  import opened Scalars
  import opened Formatting
  import opened Encoding

  /** Five ASCII texts in a row. */
  lemma Ascii5(a: string, b: string, c: string, d: string, e: string)
    ensures Ascii(a + b + c + d + e) == Ascii(a) + Ascii(b) + Ascii(c) + Ascii(d) + Ascii(e)
  {
    AsciiAppend(a, b);
    AsciiAppend(a + b, c);
    AsciiAppend(a + b + c, d);
    AsciiAppend(a + b + c + d, e);
  }

  /** Each scalar test below holds in the pretty style too: a flat value ignores the layout. */
  lemma BothStyles(v: Value, expected: seq<byte>)
    requires Flat(v) && Encode(Compact, v) == Ok(expected)
    ensures Encode(Formatting.Pretty, v) == Ok(expected)
  {
    FlatIgnoresLayout(Formatting.Pretty, 0, Compact, 0, v);
  }

  lemma Booleans()
    ensures Encode(Compact, Bool(true)) == Ok(Ascii("True"))
    ensures Encode(Formatting.Pretty, Bool(true)) == Ok(Ascii("True"))
    ensures Encode(Compact, Bool(false)) == Ok(Ascii("False"))
    ensures Encode(Formatting.Pretty, Bool(false)) == Ok(Ascii("False"))
  {
  }

  lemma ListEmpty()
    ensures Encode(Compact, Seq(Wrappers.Some(0), [])) == Ok(Ascii("[]"))
    ensures Encode(Formatting.Pretty, Seq(Wrappers.Some(0), [])) == Ok(Ascii("[]"))
  {
  }

  lemma DictEmpty()
    ensures Encode(Compact, Map(Wrappers.Some(0), [])) == Ok(Ascii("{}"))
    ensures Encode(Formatting.Pretty, Map(Wrappers.Some(0), [])) == Ok(Ascii("{}"))
  {
  }

  /** A text cut into five pieces. */
  lemma Pieces(whole: string, a: string, b: string, c: string, d: string, e: string)
    requires whole == a + b + c + d + e
    ensures Ascii(whole) == Ascii(a) + Ascii(b) + Ascii(c) + Ascii(d) + Ascii(e)
  {
    Ascii5(a, b, c, d, e);
  }

  /** The compact punctuation, as text. */
  lemma CompactPunctuation()
    ensures Open(Compact, 0, '[' as int) == Ascii("[") && Close(Compact, 0, ']' as int) == Ascii("]")
    ensures Open(Compact, 0, '{' as int) == Ascii("{") && Close(Compact, 0, '}' as int) == Ascii("}")
    ensures ItemSep(Compact, 0, false) == Ascii(",") && KeySep(Compact) == Ascii(":")
  {
  }

  /** The pretty punctuation at depth 0, as text. */
  lemma PrettyPunctuation()
    ensures Open(Formatting.Pretty, 0, '[' as int) == Ascii("[\n  ")
    ensures Close(Formatting.Pretty, 0, ']' as int) == Ascii("\n]")
    ensures Open(Formatting.Pretty, 0, '{' as int) == Ascii("{\n  ")
    ensures Close(Formatting.Pretty, 0, '}' as int) == Ascii("\n}")
    ensures ItemSep(Formatting.Pretty, 1, false) == Ascii("\n  ")
    ensures KeySep(Formatting.Pretty) == Ascii(": ")
  {
    assert Spaces(1) == [SPACE, SPACE];
  }

  lemma ListTwoTexts()
    ensures Ascii("[True,False]") == Ascii("[") + Ascii("True") + Ascii(",") + Ascii("False") + Ascii("]")
    ensures Ascii("[\n  True\n  False\n]")
      == Ascii("[\n  ") + Ascii("True") + Ascii("\n  ") + Ascii("False") + Ascii("\n]")
  {
    Pieces("[True,False]", "[", "True", ",", "False", "]");
    Pieces("[\n  True\n  False\n]", "[\n  ", "True", "\n  ", "False", "\n]");
  }

  lemma DictOneTexts()
    ensures Ascii("{item:True}") == Ascii("{") + Ascii("item") + Ascii(":") + Ascii("True") + Ascii("}")
    ensures Ascii("{\n  item: True\n}")
      == Ascii("{\n  ") + Ascii("item") + Ascii(": ") + Ascii("True") + Ascii("\n}")
  {
    Pieces("{item:True}", "{", "item", ":", "True", "}");
    Pieces("{\n  item: True\n}", "{\n  ", "item", ": ", "True", "\n}");
  }

  /** A two-item sequence: the items, the second after its separator. */
  lemma TwoItems(style: Style, d: nat, v: Value)
    requires v.Seq? && |v.items| == 2
    requires Render(style, d, v.items[0]).status.Done? && Render(style, d, v.items[1]).status.Done?
    ensures RenderItems(style, d, v, 2) == Output(
      Render(style, d, v.items[0]).bytes + ItemSep(style, d, false) + Render(style, d, v.items[1]).bytes, Done)
  {
    assert RenderItems(style, d, v, 1) == Output(Render(style, d, v.items[0]).bytes, Done);
    AppendAssoc(Render(style, d, v.items[0]).bytes, ItemSep(style, d, false), Render(style, d, v.items[1]).bytes);
  }

  lemma ListOneTexts()
    ensures Ascii("[True]") == Ascii("[") + Ascii("True") + Ascii("]")
    ensures Ascii("[\n  True\n]") == Ascii("[\n  ") + Ascii("True") + Ascii("\n]")
  {
    AsciiAppend("[", "True");
    AsciiAppend("[" + "True", "]");
    assert "[" + "True" + "]" == "[True]";
    AsciiAppend("[\n  ", "True");
    AsciiAppend("[\n  " + "True", "\n]");
    assert "[\n  " + "True" + "\n]" == "[\n  True\n]";
  }

  lemma ListOneCompact(v: Value)
    requires v == Seq(Wrappers.Some(1), [Bool(true)])
    ensures Encode(Compact, v) == Ok(Ascii("[True]"))
  {
    CompactPunctuation();
    ListOneTexts();
    assert RenderItems(Compact, 0, v, 1) == Output(Ascii("True"), Done);
  }

  lemma ListOnePretty(v: Value)
    requires v == Seq(Wrappers.Some(1), [Bool(true)])
    ensures Encode(Formatting.Pretty, v) == Ok(Ascii("[\n  True\n]"))
  {
    PrettyPunctuation();
    ListOneTexts();
    assert RenderItems(Formatting.Pretty, 1, v, 1) == Output(Ascii("True"), Done);
  }

  lemma ListTwoCompact(v: Value)
    requires v == Seq(Wrappers.Some(2), [Bool(true), Bool(false)])
    ensures Encode(Compact, v) == Ok(Ascii("[True,False]"))
  {
    var t, f := Ascii("True"), Ascii("False");
    CompactPunctuation();
    ListTwoTexts();
    TwoItems(Compact, 0, v);
    AppendAssoc(Ascii("["), t + Ascii(","), f);
    AppendAssoc(Ascii("["), t, Ascii(","));
  }

  lemma ListTwoPretty(v: Value)
    requires v == Seq(Wrappers.Some(2), [Bool(true), Bool(false)])
    ensures Encode(Formatting.Pretty, v) == Ok(Ascii("[\n  True\n  False\n]"))
  {
    var t, f := Ascii("True"), Ascii("False");
    PrettyPunctuation();
    ListTwoTexts();
    TwoItems(Formatting.Pretty, 1, v);
    AppendAssoc(Ascii("[\n  "), t + Ascii("\n  "), f);
    AppendAssoc(Ascii("[\n  "), t, Ascii("\n  "));
  }

  /** A one-entry map with a string key: the key, the key separator, the value. */
  lemma OneEntry(style: Style, d: nat, v: Value)
    requires v.Map? && |v.entries| == 1 && v.entries[0].key.Str?
    requires Render(style, d, v.entries[0].value).status.Done?
    ensures RenderEntries(style, d, v, 1) == Output(
      v.entries[0].key.s + KeySep(style) + Render(style, d, v.entries[0].value).bytes, Done)
  {
  }

  lemma DictOneCompact(v: Value)
    requires v == Map(Wrappers.Some(1), [Entry(Str(Ascii("item")), Bool(true))])
    ensures Encode(Compact, v) == Ok(Ascii("{item:True}"))
  {
    var k, t := Ascii("item"), Ascii("True");
    CompactPunctuation();
    DictOneTexts();
    OneEntry(Compact, 0, v);
    AppendAssoc(Ascii("{"), k + Ascii(":"), t);
    AppendAssoc(Ascii("{"), k, Ascii(":"));
  }

  lemma DictOnePretty(v: Value)
    requires v == Map(Wrappers.Some(1), [Entry(Str(Ascii("item")), Bool(true))])
    ensures Encode(Formatting.Pretty, v) == Ok(Ascii("{\n  item: True\n}"))
  {
    var k, t := Ascii("item"), Ascii("True");
    PrettyPunctuation();
    DictOneTexts();
    OneEntry(Formatting.Pretty, 1, v);
    AppendAssoc(Ascii("{\n  "), k + Ascii(": "), t);
    AppendAssoc(Ascii("{\n  "), k, Ascii(": "));
  }

  /** A body of two parts and a separator, between an opening and a closing. */
  lemma Enclosed2(o: seq<byte>, x: seq<byte>, sep: seq<byte>, y: seq<byte>, c: seq<byte>)
    ensures o + (x + sep + y) + c == o + x + sep + y + c
  {
    AppendAssoc(o, x + sep, y);
    AppendAssoc(o, x, sep);
  }

  /** A two-entry map whose keys are strings and whose values succeed: the two entries around a separator. */
  lemma TwoEntries(style: Style, d: nat, v: Value)
    requires v.Map? && |v.entries| == 2 && v.entries[0].key.Str? && v.entries[1].key.Str?
    requires Render(style, d, v.entries[0].value).status.Done? && Render(style, d, v.entries[1].value).status.Done?
    ensures RenderEntries(style, d, v, 2) == Output(
      EntryText(style, d, v.entries[0]) + ItemSep(style, d, false) + EntryText(style, d, v.entries[1]), Done)
  {
    var t0, t1 := EntryText(style, d, v.entries[0]), EntryText(style, d, v.entries[1]);
    OneEntryDone(style, d, v);
    EntryWithStringKey(style, d, false, v.entries[1]);
    EntriesSnoc(style, d, v, 2);
    AppendAssoc(t0, ItemSep(style, d, false), t1);
  }

  /** The first entry of a map, with a string key and a value that succeeds, is its text alone. */
  lemma OneEntryDone(style: Style, d: nat, v: Value)
    requires v.Map? && |v.entries| >= 1 && v.entries[0].key.Str?
    requires Render(style, d, v.entries[0].value).status.Done?
    ensures RenderEntries(style, d, v, 1) == Output(EntryText(style, d, v.entries[0]), Done)
  {
    EntryWithStringKey(style, d, true, v.entries[0]);
    EntriesSnoc(style, d, v, 1);
    assert ItemSep(style, d, true) == [];
  }

  /** A whole document that is a two-entry map, from the texts of its entries and punctuation. */
  lemma TwoEntryMap(style: Style, v: Value, x: seq<byte>, y: seq<byte>, whole: seq<byte>)
    requires v.Map? && v.reportedLen != Wrappers.Some(0) && |v.entries| == 2
    requires v.entries[0].key.Str? && v.entries[1].key.Str?
    requires Render(style, Inner(style, 0), v.entries[0].value).status.Done?
    requires Render(style, Inner(style, 0), v.entries[1].value).status.Done?
    requires EntryText(style, Inner(style, 0), v.entries[0]) == x
    requires EntryText(style, Inner(style, 0), v.entries[1]) == y
    requires whole == Open(style, 0, '{' as int) + x + ItemSep(style, Inner(style, 0), false) + y
      + Close(style, 0, '}' as int)
    ensures Encode(style, v) == Ok(whole)
  {
    TwoEntries(style, Inner(style, 0), v);
    MapOutput(style, 0, v);
    Enclosed2(Open(style, 0, '{' as int), x, ItemSep(style, Inner(style, 0), false), y, Close(style, 0, '}' as int));
  }

  /** A whole document that is a one-entry map. */
  lemma OneEntryMap(style: Style, v: Value, x: seq<byte>, whole: seq<byte>)
    requires v.Map? && v.reportedLen != Wrappers.Some(0) && |v.entries| == 1 && v.entries[0].key.Str?
    requires Render(style, Inner(style, 0), v.entries[0].value).status.Done?
    requires EntryText(style, Inner(style, 0), v.entries[0]) == x
    requires whole == Open(style, 0, '{' as int) + x + Close(style, 0, '}' as int)
    ensures Encode(style, v) == Ok(whole)
  {
    OneEntryDone(style, Inner(style, 0), v);
    MapOutput(style, 0, v);
  }

  /** The text of an entry with a string key `k` and a value written as `t`. */
  lemma EntryTextOf(style: Style, d: nat, k: string, x: Value, t: string, whole: string)
    requires Render(style, d, x) == Output(Ascii(t), Done)
    requires whole == k + (if style.Compact? then ":" else ": ") + t
    ensures EntryText(style, d, Entry(Str(Ascii(k)), x)) == Ascii(whole)
  {
    var sep := if style.Compact? then ":" else ": ";
    assert KeySep(style) == Ascii(sep);
    AsciiAppend(k, sep);
    AsciiAppend(k + sep, t);
  }

  /** A text cut into three pieces. */
  lemma Pieces3(whole: string, a: string, b: string, c: string)
    requires whole == a + b + c
    ensures Ascii(whole) == Ascii(a) + Ascii(b) + Ascii(c)
  {
    AsciiAppend(a, b);
    AsciiAppend(a + b, c);
  }

  lemma DictTwoCompactText()
    ensures Ascii("{~f:False,~t:True}") == Ascii("{") + Ascii("~f:False") + Ascii(",") + Ascii("~t:True") + Ascii("}")
  {
    Pieces("{~f:False,~t:True}", "{", "~f:False", ",", "~t:True", "}");
  }

  lemma DictTwoPrettyText()
    ensures Ascii("{\n  ~f: False\n  ~t: True\n}")
      == Ascii("{\n  ") + Ascii("~f: False") + Ascii("\n  ") + Ascii("~t: True") + Ascii("\n}")
  {
    Pieces("{\n  ~f: False\n  ~t: True\n}", "{\n  ", "~f: False", "\n  ", "~t: True", "\n}");
  }

  /** The map of the `dict_two` test: `~f` to false, then `~t` to true. */
  predicate IsDictTwo(v: Value) {
    v == Map(Wrappers.Some(2), [Entry(Str(Ascii("~f")), Bool(false)), Entry(Str(Ascii("~t")), Bool(true))])
  }

  lemma DictTwoEntries(v: Value)
    requires IsDictTwo(v)
    ensures EntryText(Compact, 0, v.entries[0]) == Ascii("~f:False")
    ensures EntryText(Compact, 0, v.entries[1]) == Ascii("~t:True")
    ensures EntryText(Formatting.Pretty, 1, v.entries[0]) == Ascii("~f: False")
    ensures EntryText(Formatting.Pretty, 1, v.entries[1]) == Ascii("~t: True")
  {
    EntryTextOf(Compact, 0, "~f", Bool(false), "False", "~f:False");
    EntryTextOf(Compact, 0, "~t", Bool(true), "True", "~t:True");
    EntryTextOf(Formatting.Pretty, 1, "~f", Bool(false), "False", "~f: False");
    EntryTextOf(Formatting.Pretty, 1, "~t", Bool(true), "True", "~t: True");
  }

  lemma DictTwoCompact(v: Value)
    requires IsDictTwo(v)
    ensures Encode(Compact, v) == Ok(Ascii("{~f:False,~t:True}"))
  {
    CompactPunctuation();
    DictTwoEntries(v);
    DictTwoCompactText();
    TwoEntryMap(Compact, v, Ascii("~f:False"), Ascii("~t:True"), Ascii("{~f:False,~t:True}"));
  }

  lemma DictTwoPretty(v: Value)
    requires IsDictTwo(v)
    ensures Encode(Formatting.Pretty, v) == Ok(Ascii("{\n  ~f: False\n  ~t: True\n}"))
  {
    PrettyPunctuation();
    DictTwoEntries(v);
    DictTwoPrettyText();
    TwoEntryMap(Formatting.Pretty, v, Ascii("~f: False"), Ascii("~t: True"), Ascii("{\n  ~f: False\n  ~t: True\n}"));
  }

  /**
   * The map of the `two_item_object` test: two floats whose texts have a
   * `.`, under keys in the order a `BTreeMap` yields them.
   */
  predicate IsTwoItemObject(v: Value) {
    v == Map(Wrappers.Some(2), [
      Entry(Str(Ascii("phi")), F64(Finite(Ascii("1.67")))),
      Entry(Str(Ascii("pi")), F64(Finite(Ascii("3.14"))))])
  }

  lemma TwoItemObjectEntries(v: Value)
    requires IsTwoItemObject(v)
    ensures EntryText(Compact, 0, v.entries[0]) == Ascii("phi:1.67")
    ensures EntryText(Compact, 0, v.entries[1]) == Ascii("pi:3.14")
  {
    assert Ascii("1.67")[1] == DOT && Ascii("3.14")[1] == DOT;
    EntryTextOf(Compact, 0, "phi", F64(Finite(Ascii("1.67"))), "1.67", "phi:1.67");
    EntryTextOf(Compact, 0, "pi", F64(Finite(Ascii("3.14"))), "3.14", "pi:3.14");
  }

  lemma TwoItemObjectText()
    ensures Ascii("{phi:1.67,pi:3.14}") == Ascii("{") + Ascii("phi:1.67") + Ascii(",") + Ascii("pi:3.14") + Ascii("}")
  {
    Pieces("{phi:1.67,pi:3.14}", "{", "phi:1.67", ",", "pi:3.14", "}");
  }

  lemma TwoItemObject(v: Value)
    requires IsTwoItemObject(v)
    ensures Encode(Compact, v) == Ok(Ascii("{phi:1.67,pi:3.14}"))
  {
    CompactPunctuation();
    TwoItemObjectEntries(v);
    TwoItemObjectText();
    TwoEntryMap(Compact, v, Ascii("phi:1.67"), Ascii("pi:3.14"), Ascii("{phi:1.67,pi:3.14}"));
  }

  /** The map of the `one_item_object` test: a string value keeps its quotes. */
  predicate IsOneItemObject(v: Value) {
    v == Map(Wrappers.Some(1), [Entry(Str(Ascii("k")), Str(Ascii("v")))])
  }

  lemma OneItemObjectEntry(v: Value)
    requires IsOneItemObject(v)
    ensures EntryText(Compact, 0, v.entries[0]) == Ascii("k:\"v\"")
  {
    EscapePlain(Ascii("v"));
    assert Ascii("\"v\"") == [QUOTE] + Ascii("v") + [QUOTE];
    EntryTextOf(Compact, 0, "k", Str(Ascii("v")), "\"v\"", "k:\"v\"");
  }

  lemma OneItemObject(v: Value)
    requires IsOneItemObject(v)
    ensures Encode(Compact, v) == Ok(Ascii("{k:\"v\"}"))
  {
    CompactPunctuation();
    OneItemObjectEntry(v);
    Pieces3("{k:\"v\"}", "{", "k:\"v\"", "}");
    OneEntryMap(Compact, v, Ascii("k:\"v\""), Ascii("{k:\"v\"}"));
  }

  /** The named escapes, each a backslash and one letter. */
  lemma NamedEscapes(s: seq<byte>)
    requires s == [0x0A, 0x0D, 0x09, BACKSLASH, QUOTE]
    ensures EscapeString(s) == Ascii("\\n\\r\\t\\\\\\\"")
  {
    NamedEscapesBytes(s);
    assert Ascii("\\n\\r\\t\\\\\\\"") == [BACKSLASH, 'n' as int, BACKSLASH, 'r' as int, BACKSLASH, 't' as int, BACKSLASH, BACKSLASH, BACKSLASH, QUOTE];
  }

  lemma NamedEscapesBytes(s: seq<byte>)
    requires s == [0x0A, 0x0D, 0x09, BACKSLASH, QUOTE]
    ensures EscapeString(s)
      == [BACKSLASH, 'n' as int, BACKSLASH, 'r' as int, BACKSLASH, 't' as int, BACKSLASH, BACKSLASH, BACKSLASH, QUOTE]
  {
    var n, r, t := 'n' as int, 'r' as int, 't' as int;
    assert EscapeString([QUOTE]) == [BACKSLASH, QUOTE];
    assert EscapeString([BACKSLASH, QUOTE]) == [BACKSLASH, BACKSLASH] + EscapeString([QUOTE]);
    assert EscapeString([0x09, BACKSLASH, QUOTE]) == [BACKSLASH, t] + EscapeString([BACKSLASH, QUOTE]);
    assert EscapeString([0x0D, 0x09, BACKSLASH, QUOTE]) == [BACKSLASH, r] + EscapeString([0x09, BACKSLASH, QUOTE]);
    assert EscapeString(s) == [BACKSLASH, n] + EscapeString([0x0D, 0x09, BACKSLASH, QUOTE]);
  }

  lemma StringEscapes(s: seq<byte>)
    requires s == [0x0A, 0x0D, 0x09, BACKSLASH, QUOTE]
    ensures Encode(Compact, Str(s)) == Ok(Ascii("\"\\n\\r\\t\\\\\\\"\""))
    ensures Encode(Formatting.Pretty, Str(s)) == Ok(Ascii("\"\\n\\r\\t\\\\\\\"\""))
  {
    NamedEscapes(s);
    var body := "\\n\\r\\t\\\\\\\"";
    assert "\"\\n\\r\\t\\\\\\\"\"" == "\"" + body + "\"";
    AsciiAppend("\"", body);
    AsciiAppend("\"" + body, "\"");
    assert Ascii("\"") == [QUOTE];
    BothStyles(Str(s), Ascii("\"\\n\\r\\t\\\\\\\"\""));
  }

  lemma StringEmpty()
    ensures Encode(Compact, Str([])) == Ok(Ascii("\"\""))
    ensures Encode(Formatting.Pretty, Str([])) == Ok(Ascii("\"\""))
  {
    assert StringText([]) == [QUOTE, QUOTE];
    assert Ascii("\"\"") == [QUOTE, QUOTE];
  }

  lemma FooBarText()
    ensures Ascii("\"foo bar\"") == [QUOTE] + Ascii("foo bar") + [QUOTE]
  {
    AsciiAppend("\"", "foo bar");
    AsciiAppend("\"" + "foo bar", "\"");
    assert "\"" + "foo bar" + "\"" == "\"foo bar\"";
    assert Ascii("\"") == [QUOTE];
  }

  /** Printable bytes other than the quote and the backslash are written as they are. */
  lemma StringNonEmpty(s: seq<byte>)
    requires s == Ascii("foo bar")
    ensures Encode(Compact, Str(s)) == Ok(Ascii("\"foo bar\""))
    ensures Encode(Formatting.Pretty, Str(s)) == Ok(Ascii("\"foo bar\""))
  {
    FooBarPlain(s);
    FooBarText();
    BothStyles(Str(s), Ascii("\"foo bar\""));
  }

  lemma FooBarPlain(s: seq<byte>)
    requires s == Ascii("foo bar")
    ensures EscapeString(s) == s
  {
    assert s == [0x66, 0x6F, 0x6F, 0x20, 0x62, 0x61, 0x72];
    EscapePlain(s);
  }

  /** The UTF-8 bytes of U+263A, all 0x80 or above, are written as they are. */
  lemma StringUnicode(s: seq<byte>)
    requires s == [0xE2, 0x98, 0xBA]
    ensures Encode(Compact, Str(s)) == Ok([QUOTE] + s + [QUOTE])
    ensures Encode(Formatting.Pretty, Str(s)) == Ok([QUOTE] + s + [QUOTE])
  {
    EscapePlain(s);
    BothStyles(Str(s), [QUOTE] + s + [QUOTE]);
  }

  /** The zero byte is written as `\00`. */
  lemma StringHexCode()
    ensures Encode(Compact, Str([0])) == Ok(Ascii("\"\\00\""))
    ensures Encode(Formatting.Pretty, Str([0])) == Ok(Ascii("\"\\00\""))
  {
    assert EscapeString([0]) == EscapeByte(0) + EscapeString([]);
    assert StringText([0]) == [QUOTE, BACKSLASH, 0x30, 0x30, QUOTE];
    assert Ascii("\"\\00\"") == [QUOTE, BACKSLASH, 0x30, 0x30, QUOTE];
  }

  lemma Integers()
    ensures Encode(Compact, I64(0)) == Ok(Ascii("0"))
    ensures Encode(Compact, I64(-34)) == Ok(Ascii("-34"))
    ensures Encode(Formatting.Pretty, I64(0)) == Ok(Ascii("0"))
    ensures Encode(Formatting.Pretty, I64(-34)) == Ok(Ascii("-34"))
  {
    assert DecimalDigits(0) == "0";
    assert DecimalDigits(3) == "3";
    assert DecimalDigits(34) == "34";
    assert SignedDecimal(-34) == "-34";
  }

  /** A float whose text has no `.` gets `.0`; one with a `.` is written as it is. */
  lemma Floats()
    ensures Encode(Compact, F64(Finite(Ascii("1")))) == Ok(Ascii("1.0"))
    ensures Encode(Compact, F64(Finite(Ascii("-3.2")))) == Ok(Ascii("-3.2"))
    ensures Encode(Compact, F64(NaN)) == Ok(Ascii("NaN"))
    ensures Encode(Compact, F64(Infinite(false))) == Ok(Ascii("inf"))
    ensures Encode(Formatting.Pretty, F64(Finite(Ascii("1")))) == Ok(Ascii("1.0"))
    ensures Encode(Formatting.Pretty, F64(Finite(Ascii("-3.2")))) == Ok(Ascii("-3.2"))
    ensures Encode(Formatting.Pretty, F64(NaN)) == Ok(Ascii("NaN"))
    ensures Encode(Formatting.Pretty, F64(Infinite(false))) == Ok(Ascii("inf"))
  {
    assert Ascii("1.0") == Ascii("1") + [DOT, '0' as int];
    assert Ascii("-3.2")[2] == DOT;
  }

  lemma FloatsWithFraction()
    ensures Encode(Compact, F64(Finite(Ascii("0")))) == Ok(Ascii("0.0"))
    ensures Encode(Compact, F64(Finite(Ascii("4.5")))) == Ok(Ascii("4.5"))
    ensures Encode(Formatting.Pretty, F64(Finite(Ascii("0")))) == Ok(Ascii("0.0"))
    ensures Encode(Formatting.Pretty, F64(Finite(Ascii("4.5")))) == Ok(Ascii("4.5"))
  {
    assert Ascii("0.0") == Ascii("0") + [DOT, '0' as int];
    assert Ascii("4.5")[1] == DOT;
  }
}
