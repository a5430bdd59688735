# serde-hipack encoder, modelled in Dafny

This project models the encoder of serde-hipack, a Rust library that writes
values in HiPack, a relaxed JSON-like text format. The encoder works in one
of two styles:

- the compact style writes `[True,False]` and `{item:True}`;
- the pretty style puts each item on its own line, indented two spaces per
  level of nesting.

The model has five parts:

- **The value tree.** `Encoding.Value` stands for what serde's visitors hand
  to the serializer. A sequence or a map carries the length its visitor
  reports (`len()`, possibly unknown), and its items or entries in the order
  the visitor yields them.
- **The specification.** `Encoding.Render` is a pure function giving the
  bytes written for a value and how encoding ends. It covers the partial
  output that is left when an error stops the encoding. `Encoding.Encode` is
  the whole document as `to_vec` returns it.
- **The serializer, as objects.**
  - `Formatting.Formatter` is both formatters in one class. The pretty
    formatter's `indent` is a mutable field.
  - `Ser.Serializer` holds the output buffer `out`, a formatter and the
    shared `first` flag.
  - `Ser.KeySerializer` writes map keys.
  - Each visit method is proved to append exactly what `Render` gives and to
    return the status `Render` reports. On success it is also proved to
    leave the indentation depth and the `first` flag as the next visit
    needs them.
- **Properties of the format.** These are proved about `Render`:
  - which values can be encoded at all;
  - the errors encoding can return;
  - the shape of sequences and maps;
  - the fast path for containers that report length 0;
  - that escaped strings can be read back;
  - the expected outputs listed beside the encoder's source.
- **The error type** and its `Display`, `description`, `cause` and
  `From<io::Error>`.

The output sink is an append-only byte sequence that cannot fail, so the
model never produces `IoError`. The I/O failure itself is a parameter: an
`Errors.IoFailure` carries the two texts that the platform's error type
supplies.

The escape of byte 0x0F follows the evident intent rather than the code; see
"## Findings". The intent can be read off the match in `visit_str`:

- The arm at `src/ser.rs:189` writes `\0` and one digit. It exists to pad
  one-digit codes with a leading zero.
- The next arm (:190) gives the bytes 0x10 to 0x1F their two digits.
- The test at :421 expects the zero byte as `\00`.

So every control byte without a named escape (all except 0x09, 0x0A and
0x0D) gets two hexadecimal digits, as 0x00–0x08, 0x0B, 0x0C and 0x0E do.
That is also how the reference decoder `Scalars.Unescape` reads `\XX`.
The guard at :189 is `< 0xF`, so 0x0F gets a single digit. The code as written is modelled by
`Scalars.EscapeByteAsWritten`. The rest of the model uses the corrected
`Scalars.EscapeByte`.

Files:
- `wrappers.dfy`: `Option`.
- `text.dfy`: bytes, ASCII text, and the decimal text of integers.
- `errors.dfy`: src/error.rs.
- `scalars.dfy`: the text of booleans, integers, floats and strings, and the
  escape finding.
- `formatting.dfy`: the two formatters.
- `encoding.dfy`: the value tree, `Render` and the properties of the format.
- `serializer.dfy`: the `Serializer` and `KeySerializer` classes, and the
  `to_writer` / `to_vec` entry points.
- `vectors.dfy`: the expected outputs from the tests in src/ser.rs.

## Model

| member | source | states |
|---|---|---|
| Errors.Message | src/error.rs:24-25 | Definition: `Invalid key` and `Value cannot be represented`. `Errors.DebugCode` and `Errors.DebugCodeInjective` state what is shown. |
| Errors.Display | src/error.rs:55-64 | A syntax error displays as the `Debug` text of its code followed by more text (the location). An I/O error displays as the inner error's own text. |
| Errors.DebugCode | src/error.rs:20-28 | The `Debug` text of a code is its message between double quotes. |
| Errors.DebugCodeInjective | src/error.rs:20-28 | Two codes have the same `Debug` text exactly when they are the same code. |
| Errors.Description | src/error.rs:38-44 | `description` is "syntax error" for every syntax error, and the inner error's description for an I/O error. |
| Errors.Cause | src/error.rs:46-51 | `cause` is present exactly for an I/O error, and is then the inner error. |
| Errors.FromIo | src/error.rs:67-71 | Converting an I/O error gives `IoError` holding that same error. |
| Errors.FromIoKeepsInner | src/error.rs:38-71 | After conversion, `cause`, `Display` and `description` all give back the inner error or its texts. |
| Errors.LocationInjective | src/error.rs:58-60 | The text ` at line L column C` determines both L and C. |
| Errors.DisplaySyntaxError | src/error.rs:55-64 | Two syntax errors display alike exactly when their code, line and column agree; the offset is never shown. |
| Text.DecimalDigits | src/ser.rs:163-165 | The `{}` text of an unsigned integer is one or more ASCII digits, with no leading zero except for 0 itself. |
| Text.DecimalRoundTrip | src/ser.rs:163-165 | Reading the decimal digits back gives the number. |
| Text.SignedDecimal | src/ser.rs:160-162 | The `{}` text of a signed integer starts with `-` exactly when the integer is negative. |
| Text.SignedDecimalRoundTrip | src/ser.rs:160-162 | Reading the signed text back gives the integer. |
| Text.DecimalInjective | src/ser.rs:160-165 | Different numbers have different decimal texts. |
| Scalars.IntegerText | src/ser.rs:160-165 | An integer's text is never empty, and starts with `-` exactly for a negative integer. |
| Scalars.BoolText | src/ser.rs:155-157 | Definition: `True` or `False`, capitalised. `TestVectors.Booleans` states the texts for both styles. |
| Scalars.FloatText | src/ser.rs:168-179 | A finite float's text starts with the platform's text and contains a `.`. The texts of NaN and the infinities contain no `.`. |
| Scalars.FloatTextProperties | src/ser.rs:168-179 | A finite float's text is the platform's text unchanged exactly when that text has a `.`. Otherwise it is that text followed by `.0`. |
| Scalars.HexDigitRoundTrip | src/ser.rs:189-190 | An upper-case hexadecimal digit reads back as its value. |
| Scalars.EscapeByte | src/ser.rs:183-191 | The corrected escape of one byte is 1 to 3 bytes, none below 0x20. It starts with `\` exactly for a control byte, `"` or `\`; any other byte is written as itself. |
| Scalars.EscapeByteAsWritten | src/ser.rs:183-191 | The escape exactly as the match writes it, with the guard `< 0xF`. It keeps the same promises as the corrected one: 1 to 3 bytes, none below 0x20, and a leading `\` exactly for a control byte, `"` or `\`. |
| Scalars.EscapeStringAsWritten | src/ser.rs:182-193 | As written, the escaped body is at least as long as the string and contains no byte below 0x20. |
| Scalars.EscapeCorrectionIsLocal | src/ser.rs:189-190 | The corrected escape differs from the code as written for byte 0x0F only: `\F` as written, `\0F` corrected. |
| Scalars.EscapeString | src/ser.rs:182-193 | The escaped body is at least as long as the string, and contains no byte below 0x20. |
| Scalars.StringText | src/ser.rs:180-195 | A string is written as `"`, its escaped body, then `"`. |
| Scalars.EscapeStringSnoc | src/ser.rs:182-193 | Escaping works byte by byte: one more byte appends its own escape. |
| Scalars.EscapeByteVerbatim | src/ser.rs:183-191 | A byte is written as itself exactly when it is at least 0x20 and is neither `"` nor `\`. |
| Scalars.EscapePlain | src/ser.rs:182-193 | A string with no control byte, quote or backslash is its own escaped body. |
| Scalars.UnescapeByte | src/ser.rs:183-192 | The reference decoder reads each byte's escape back as that byte. |
| Scalars.EscapeRoundTrip | src/ser.rs:180-195 | Every byte string survives escaping: decoding the escaped body gives the string back. |
| Scalars.AsWrittenEscapeMisreads | src/ser.rs:189 | As written, the string 0x0F `A` is escaped as `\FA`, which decodes as the single byte 0xFA. The corrected escape decodes to the original. |
| Formatting.Spaces | src/ser.rs:68-76 | The indentation for depth n is exactly 2·n spaces. |
| Formatting.Open | src/ser.rs:80-86 | Opening writes the bracket. In the pretty style it then writes a new line and the spaces for the depth one deeper. In the compact style (ser.rs:27-31) it writes the bracket alone. |
| Formatting.Close | src/ser.rs:88-95 | Closing ends with the bracket. In the pretty style a new line and the spaces for the outer depth come first. The compact style (ser.rs:33-37) writes the bracket alone. |
| Formatting.KeySep | src/ser.rs:97-102 | The key separator is `: ` in the pretty style and `:` in the compact style (ser.rs:39-43). |
| Formatting.ItemSep | src/ser.rs:104-113 | The first item gets no separator. Later items get a new line and 2·depth spaces in the pretty style, and `,` in the compact style (ser.rs:45-53). |
| Formatting.WriteIndent | src/ser.rs:68-76 | The loop appends exactly the spaces for depth n. |
| Formatting.Formatter.constructor | src/ser.rs:57-65 | A new formatter starts at depth 0. |
| Formatting.Formatter.StartCompound | src/ser.rs:80-86 | Raises the pretty depth by one (compact: unchanged) and appends `Open` for the old depth. |
| Formatting.Formatter.EndCompound | src/ser.rs:88-95 | Lowers the pretty depth by one and appends `Close` for the new depth. |
| Formatting.Formatter.KeySeparator | src/ser.rs:97-102 | Appends the key separator of the formatter's style. |
| Formatting.Formatter.ItemSeparator | src/ser.rs:104-113 | Appends the item separator for the current depth. |
| Formatting.StartEndRestoresDepth | src/ser.rs:80-95 | A matched start and end leave the depth where it was, and write `Open` then `Close` for that depth. |
| Encoding.Render | src/ser.rs:152-243 | The specification of the serializer, by definition: for each kind of value, the bytes written and whether encoding completed or which error stopped it. Its properties are the `Encoding` lemmas below; each visit method of `Ser.Serializer` is proved to write what it gives. |
| Encoding.RenderItem | src/ser.rs:216-221 | Definition: one item is its separator (none before the first) followed by the item. `Encoding.ItemsSnoc` and `Encoding.ItemsJoined` state what it adds. |
| Encoding.RenderEntry | src/ser.rs:233-242 | Definition: the separator, the bare key, the key separator and the value. A refused key stops the entry after its separator. `Encoding.EntryWithStringKey` and `Encoding.FirstBadKey` state both cases. |
| Encoding.RenderItems | src/ser.rs:211 | Definition of the visitor loop: the first n items, stopping at the first failure. `Encoding.ItemsStep`, `Encoding.ItemsStopAtError` and `Encoding.ItemsJoined` state its properties. |
| Encoding.RenderEntries | src/ser.rs:228 | The same loop for the entries of a map. `Encoding.EntriesStep`, `Encoding.EntriesStopAtError` and `Encoding.EntriesJoined` state its properties. |
| Encoding.Encode | src/ser.rs:319-335 | The whole document is produced exactly when the value is representable. A failure is `InvalidKey` or `UnrepresentableValue`. |
| Encoding.Representable | src/ser.rs:196-242 | A reference description read off the value alone: no unit or `None`, and only string keys, except inside a container that reports length 0. `Encoding.RenderStatus` proves that `Render` succeeds exactly for these values. |
| Encoding.FirstAfter | src/ser.rs:205-242 | Definition: the `first` flag after a container. It is unchanged after the fast path, and otherwise stays true only when the container had no items. It is used by the contract of `Ser.Serializer.VisitSeq`. |
| Encoding.FlatIgnoresLayout | src/ser.rs:155-204 | Only containers use the formatter. A value with no sequence or map inside is written the same way in both styles and at every depth. The tests at src/ser.rs:412-436 expect one text for both styles. |
| Encoding.EntryWithStringKey | src/ser.rs:233-242 | An entry with a string key is its separator, then its key, key separator and value; its status is the value's. |
| Encoding.AsResult | src/ser.rs:152-243 | The serializer's result is `Ok` exactly when encoding completed, and otherwise carries the error that stopped it. |
| Encoding.RenderKey | src/ser.rs:251-295 | A key succeeds exactly when it is a string and is then written as its bare bytes. Any other key writes nothing and fails with `SyntaxError(InvalidKey, 0, 0, 0)`. |
| Encoding.RenderStatus | src/ser.rs:196-242 | Encoding succeeds exactly for representable values: no unit, no `None`, and only string keys among the visited contents. When it fails, the error is `InvalidKey` or `UnrepresentableValue` at offset, line and column 0. |
| Encoding.ItemsStatus | src/ser.rs:205-221 | The first n items succeed exactly when each of them is representable. |
| Encoding.EntriesStatus | src/ser.rs:222-242 | The first n entries succeed exactly when each has a string key and a representable value. |
| Encoding.ItemsStep | src/ser.rs:211-221 | After n items, the status is the first failure so far, or else the last item's status. |
| Encoding.EntriesStep | src/ser.rs:228-242 | After n entries, the status is the first failure so far, or else a refused key, or else the last value's status. |
| Encoding.SeqOutput | src/ser.rs:205-215 | A sequence not reporting length 0 is its items between the formatter's brackets, left open after a failure. |
| Encoding.MapOutput | src/ser.rs:222-232 | A map not reporting length 0 is its entries between the formatter's braces, left open after a failure. |
| Encoding.ItemsSnoc | src/ser.rs:216-221 | After successful items, one more item appends its separator and text and decides the status. |
| Encoding.EntriesSnoc | src/ser.rs:233-242 | After successful entries, one more entry appends its output and decides the status. |
| Encoding.ItemsExtend | src/ser.rs:211 | The visitor loop's step: writing item i extends the output of the items before it. If item i fails, that is already the output of the whole sequence. |
| Encoding.EntriesExtend | src/ser.rs:228 | The same step for the entries of a map. |
| Encoding.ItemsStopAtError | src/ser.rs:211 | Once an item fails, the later items add nothing. |
| Encoding.EntriesStopAtError | src/ser.rs:228 | Once an entry fails, the later entries add nothing. |
| Encoding.FirstBadKey | src/ser.rs:233-242 | If entry j is the first with a non-string key, the map fails with `InvalidKey`. The output then ends with that entry's separator: no key, no key separator, no value and no closing brace. |
| Encoding.BadKeyStops | src/ser.rs:233-242 | After successful entries, a non-string key ends the map with `InvalidKey`, right after that entry's separator. |
| Encoding.JoinSnoc | src/ser.rs:216-221 | Joining one more part adds the separator and then the part, except before the first part. |
| Encoding.RenderedItemsAt | src/ser.rs:216-221 | Part i of the items' texts, which `Encoding.SeqShape` joins, is what item i writes. |
| Encoding.RenderedEntriesAt | src/ser.rs:233-242 | Part i of the entries' texts, which `Encoding.MapShape` joins, is entry i's key, key separator and value. |
| Encoding.ItemsJoined | src/ser.rs:205-221 | The items written so far, when none failed, are their texts joined by the item separator. |
| Encoding.EntriesJoined | src/ser.rs:222-242 | The entries written so far, when none failed, are their `key`, key separator and value texts, joined by the item separator. |
| Encoding.SeqShape | src/ser.rs:205-221 | A representable sequence not reporting length 0 is the opening, its items' texts joined by `,` (compact) or by a new line and the inner indentation (pretty), then the closing. |
| Encoding.MapShape | src/ser.rs:222-242 | A representable map not reporting length 0 has only string keys. It is the opening, its entries joined by the item separator, then the closing. |
| Encoding.EmptyFastPath | src/ser.rs:206-224 | A sequence or map reporting length 0 is `[]` or `{}` in both styles, whatever it holds; its items are never visited. |
| Encoding.EmptyUnknownLength | src/ser.rs:205-215 | An empty container of unknown length goes through the formatter. The pretty style gives `[`, a new line, the inner indentation, a new line, the outer indentation and `]`. |
| Ser.Serializer.WithFormatter | src/ser.rs:140-149 | A new serializer writes after what the writer holds, uses the given formatter, and starts with `first` false. |
| Ser.Serializer.New | src/ser.rs:124-129 | A serializer with a fresh compact formatter. |
| Ser.Serializer.Pretty | src/ser.rs:132-137 | A serializer with a fresh pretty formatter at depth 0. |
| Ser.Serializer.VisitBool | src/ser.rs:155-157 | Appends `True` or `False`, which is `Render`'s output, and succeeds. |
| Ser.Serializer.VisitI64 | src/ser.rs:160-162 | Appends the signed decimal text, which is `Render`'s output, and succeeds. |
| Ser.Serializer.VisitU64 | src/ser.rs:163-165 | Appends the decimal text, which is `Render`'s output, and succeeds. |
| Ser.Serializer.VisitF64 | src/ser.rs:168-179 | Appends the float's text, adding `.0` when a finite float's text has no `.`. This is `Render`'s output. |
| Ser.Serializer.VisitStr | src/ser.rs:180-195 | The byte loop appends `"`, the escaped body and `"`, which is `Render`'s output. |
| Ser.Serializer.WriteEscaped | src/ser.rs:183-192 | Appends the escape of one byte (the corrected guard; see Findings). |
| Ser.Serializer.VisitUnit | src/ser.rs:196-198 | Fails with `UnrepresentableValue` and writes nothing. |
| Ser.Serializer.VisitNone | src/ser.rs:199-201 | Fails as the unit value does. |
| Ser.Serializer.VisitSome | src/ser.rs:202-204 | A present option is written exactly as its content. |
| Ser.Serializer.VisitSeq | src/ser.rs:205-215 | Appends `Render`'s output for the sequence and returns its status. It takes the fast path or the formatter path. On success the depth is restored and `first` is as `FirstAfter` says. |
| Ser.Serializer.VisitItems | src/ser.rs:211 | The visitor loop appends the output of all the items, stops at the first failure, and returns that status. On success `first` is false unless there were no items. |
| Ser.Serializer.VisitSeqElt | src/ser.rs:216-221 | Appends the separator chosen by `first`, then the item. On success the depth is unchanged and `first` is false, even after a nested container. |
| Ser.Serializer.VisitMap | src/ser.rs:222-232 | Appends `Render`'s output for the map and returns its status. On success the depth is restored. |
| Ser.Serializer.VisitEntries | src/ser.rs:228 | The visitor loop appends the output of all the entries and stops at the first failure. |
| Ser.Serializer.VisitMapElt | src/ser.rs:233-242 | Appends the separator, the key through a key serializer, the key separator and the value. A refused key stops the entry after its separator. On success `first` is false. |
| Ser.Serializer.Serialize | src/ser.rs:152-243 | Any value: appends exactly `Render`'s output for the current depth and returns its status. |
| Ser.KeySerializer.constructor | src/ser.rs:246-248 | A key serializer borrows the serializer it writes for. |
| Ser.KeySerializer.VisitStr | src/ser.rs:255-259 | Appends the key's bytes bare (no quotes, no escapes) and succeeds. |
| Ser.KeySerializer.Serialize | src/ser.rs:251-295 | A string key is written bare. Every other kind fails with `InvalidKey` and writes nothing. |
| Ser.ToWriter | src/ser.rs:303-309 | After what the writer held, the compact encoding (partial on error); the result is its status. |
| Ser.ToWriterPretty | src/ser.rs:311-317 | The same, in the pretty style. |
| Ser.ToVec | src/ser.rs:319-326 | Returns the compact encoding, or the error that stopped it. It succeeds exactly for representable values. |
| Ser.ToVecPretty | src/ser.rs:328-335 | The same, in the pretty style. |
| TestVectors.Booleans | src/ser.rs:387-388 | `True` and `False`, in both styles. |
| TestVectors.ListEmpty | src/ser.rs:390 | An empty vector, which reports length 0, is `[]` in both styles. |
| TestVectors.ListOneCompact | src/ser.rs:391 | `[True]`. |
| TestVectors.ListOnePretty | src/ser.rs:391 | `[`, new line, `  True`, new line, `]`. |
| TestVectors.ListTwoCompact | src/ser.rs:392-393 | `[True,False]`. |
| TestVectors.ListTwoPretty | src/ser.rs:392-393 | `[`, new line, `  True`, new line, `  False`, new line, `]`. |
| TestVectors.DictEmpty | src/ser.rs:397 | An empty map, which reports length 0, is `{}` in both styles. |
| TestVectors.DictOneCompact | src/ser.rs:398-402 | `{item:True}`. |
| TestVectors.DictOnePretty | src/ser.rs:398-402 | `{`, new line, `  item: True`, new line, `}`. |
| TestVectors.DictTwoCompact | src/ser.rs:403-408 | With entries in `BTreeMap` order (`~f` before `~t`): `{~f:False,~t:True}`. |
| TestVectors.DictTwoPretty | src/ser.rs:403-408 | `{`, new line, `  ~f: False`, new line, `  ~t: True`, new line, `}`. |
| TestVectors.OneItemObject | src/ser.rs:352-357 | A one-entry map whose value is a string: `{k:"v"}`, the value keeping its quotes. |
| TestVectors.TwoItemObject | src/ser.rs:359-366 | With entries in `BTreeMap` order (`phi` before `pi`): `{phi:1.67,pi:3.14}`. |
| TestVectors.BothStyles | src/ser.rs:369-384 | A test of a flat value that holds in the compact style holds in the pretty style too, as the test macro expects one text for both. |
| TestVectors.NamedEscapes | src/ser.rs:420 | New line, carriage return, tab, backslash and quote escape as `\n\r\t\\\"`. |
| TestVectors.StringEmpty | src/ser.rs:417 | The empty string is `""`, in both styles. |
| TestVectors.StringNonEmpty | src/ser.rs:418 | `foo bar` is written between quotes, unchanged, in both styles. |
| TestVectors.StringUnicode | src/ser.rs:419 | The UTF-8 bytes of `☺` are written between quotes, unchanged, in both styles. |
| TestVectors.StringEscapes | src/ser.rs:420 | The whole string of named escapes, with its quotes, in both styles. |
| TestVectors.StringHexCode | src/ser.rs:421 | The zero byte is written `"\00"`, in both styles. |
| TestVectors.Integers | src/ser.rs:429-430 | `0` and `-34`, in both styles. |
| TestVectors.Floats | src/ser.rs:432-436 | `1` becomes `1.0`, `-3.2` stays, then `NaN` and `inf`, in both styles. |
| TestVectors.FloatsWithFraction | src/ser.rs:431-433 | `0` becomes `0.0`; `4.5` stays as it is, in both styles. |

## Left out

- Float-to-text conversion (`format!("{}", v)`, src/ser.rs:169-172) is floating point. A finite float is carried by the text that conversion gives; NaN and the infinities are written `NaN`, `inf` and `-inf`. Only the `.0` rule is modelled.
- The `io::Write` sink and its failures. The buffer is an infallible byte sequence, so no visit returns `IoError`. The partial writes of `writer.write` at src/ser.rs:92 and :110 are therefore not modelled either.
- The serde traits (`Serialize`, `SeqVisitor`, `MapVisitor`) are replaced by the value tree.
- The iteration order of `HashMap` and `BTreeMap` is not modelled: a map's entries are written in the order the tree holds them. The map tests (src/ser.rs:352-366, :403-408) are stated with their entries in the order `BTreeMap` yields them.
- Strings are arbitrary byte sequences rather than UTF-8 text. A byte is written as itself exactly when it is at least 0x20 and is neither `"` nor `\` (`Scalars.EscapeByteVerbatim`), so the bytes of a non-ASCII character are copied unchanged.
- `KeySerializer::format()` returning `"hipack"` (src/ser.rs:297-299) is library glue.
- `KeySerializer::visit_seq_elt` and `visit_map_elt` (src/ser.rs:285-295) are only reachable through that serializer's own `visit_seq` and `visit_map`, which fail first. The value tree has no such path, so `Ser.KeySerializer.Serialize` refuses the whole container.
- Ser.Serializer.VisitSome: after an error, neither the formatter's depth nor the `first` flag is specified. The source leaves them where the failure happened, and nothing uses them afterwards.
- Ser.Serializer.VisitSeq: after an error, neither the formatter's depth nor the `first` flag is specified, for the same reason.
- Ser.Serializer.VisitItems: after an error, neither the formatter's depth nor the `first` flag is specified, for the same reason.
- Ser.Serializer.VisitSeqElt: after an error, neither the formatter's depth nor the `first` flag is specified, for the same reason.
- Ser.Serializer.VisitMap: after an error, neither the formatter's depth nor the `first` flag is specified, for the same reason.
- Ser.Serializer.VisitEntries: after an error, neither the formatter's depth nor the `first` flag is specified, for the same reason.
- Ser.Serializer.VisitMapElt: after an error, neither the formatter's depth nor the `first` flag is specified, for the same reason.
- Ser.Serializer.Serialize: after an error, neither the formatter's depth nor the `first` flag is specified, for the same reason.
- Formatting.Formatter.EndCompound requires a depth of at least 1 in the pretty style. The source's `usize` subtraction would underflow without it, and every call in the source follows a matching `start_compound`.
- `std::error::Error` trait plumbing is left out. `ErrorCode`'s derived equality is the structural equality of `Errors.ErrorCode`.
- The text of an `io::Error` comes from the platform. `Errors.IoFailure` carries its `description()` and `Display` texts as given.

## Findings

| source | as written | input that shows it | evidently intended | confidence | as-written member | corrected member |
|---|---|---|---|---|---|---|
| src/ser.rs:189 | The zero-padded arm's guard is `ch < 0xF`, so byte 0x0F falls to the next arm and is written `\F` with a single hexadecimal digit. | The two bytes 0x0F, `A` are written `\FA`, which reads back as the single byte 0xFA. | `ch < 0x10`: every control byte without a named escape (all except 0x09, 0x0A and 0x0D) gets two hexadecimal digits (`\0F`), as 0x00–0x08, 0x0B, 0x0C and 0x0E do. | not executed; follows from the guard's constant | Scalars.AsWrittenEscapeMisreads | Scalars.EscapeRoundTrip |
