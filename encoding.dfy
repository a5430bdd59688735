/**
 * What the encoder writes for a whole value, as functions: the specification
 * that the serializer (module Ser) is proved to follow, and the properties of
 * the format proved about it.
 *
 * The value tree stands for what serde's visitors hand to the serializer: a
 * sequence or a map carries the length its visitor reports (`len()`), which
 * may be unknown, and its items or entries in the order the visitor yields them.
 */
module Encoding {
  import Wrappers
  import opened Text
  import opened Errors
  import opened Scalars
  import opened Formatting

  type i64 = x: int | -0x8000_0000_0000_0000 <= x < 0x8000_0000_0000_0000
  type u64 = x: int | 0 <= x < 0x1_0000_0000_0000_0000

  datatype Value =
    | Bool(b: bool)
    | I64(i: i64)
    | U64(u: u64)
    | F64(f: Float)
    | Str(s: seq<byte>)
    | Unit
    | None
    | Some(inner: Value)
    | Seq(reportedLen: Wrappers.Option<nat>, items: seq<Value>)
    | Map(reportedLen: Wrappers.Option<nat>, entries: seq<Entry>)

  datatype Entry = Entry(key: Value, value: Value)

  /** Whether an encoding completed, or which error stopped it. */
  datatype Status = Done | Failed(error: Error)

  /** The bytes written, and how the encoding ended. */
  datatype Output = Output(bytes: seq<byte>, status: Status)

  /** The status as the serializer's methods return it. */
  function AsResult(s: Status): (r: Result<()>)
    ensures r.Ok? <==> s.Done?
    ensures r.Err? ==> r.error == s.error
  {
    if s.Done? then Ok(()) else Err(s.error)
  }

  const UNREPRESENTABLE: Error := SyntaxError(UnrepresentableValue, 0, 0, 0)
  const BAD_KEY: Error := SyntaxError(InvalidKey, 0, 0, 0)

  /** A map key: a string is written bare, every other kind is refused. */
  function RenderKey(k: Value): (r: Output)
    ensures r.status.Done? <==> k.Str?
    ensures k.Str? ==> r.bytes == k.s
    ensures !k.Str? ==> r == Output([], Failed(BAD_KEY))
  {
    if k.Str? then Output(k.s, Done) else Output([], Failed(BAD_KEY))
  }

  /** A container's punctuation around its body; after an error nothing closes it. */
  function Enclose(style: Style, d: nat, open: byte, body: Output, close: byte): Output {
    if body.status.Failed? then Output(Open(style, d, open) + body.bytes, body.status)
    else Output(Open(style, d, open) + body.bytes + Close(style, d, close), Done)
  }

  /** The output of encoding `v` when the pretty depth is `d`. */
  function Render(style: Style, d: nat, v: Value): (r: Output)
    decreases v, 1, 0
  {
    match v
    case Bool(b) => Output(BoolText(b), Done)
    case I64(i) => Output(IntegerText(i), Done)
    case U64(u) => Output(IntegerText(u), Done)
    case F64(f) => Output(FloatText(f), Done)
    case Str(s) => Output(StringText(s), Done)
    case Unit => Output([], Failed(UNREPRESENTABLE))
    case None => Output([], Failed(UNREPRESENTABLE))
    case Some(x) => Render(style, d, x)
    case Seq(len, items) =>
      if len == Wrappers.Some(0) then Output(Ascii("[]"), Done)
      else Enclose(style, d, '[' as int, RenderItems(style, Inner(style, d), v, |items|), ']' as int)
    case Map(len, entries) =>
      if len == Wrappers.Some(0) then Output(Ascii("{}"), Done)
      else Enclose(style, d, '{' as int, RenderEntries(style, Inner(style, d), v, |entries|), '}' as int)
  }

  /** One item of a sequence at depth `d`: its separator, then the item. */
  function RenderItem(style: Style, d: nat, first: bool, x: Value): (r: Output)
    decreases x, 2, 0
  {
    var item := Render(style, d, x);
    Output(ItemSep(style, d, first) + item.bytes, item.status)
  }

  /**
   * One entry of a map at depth `d`: its separator, the bare key, the key
   * separator and the value. A refused key stops the entry after its separator.
   */
  function RenderEntry(style: Style, d: nat, first: bool, e: Entry): (r: Output)
    decreases e.value, 2, 0
  {
    var sep := ItemSep(style, d, first);
    var key := RenderKey(e.key);
    if key.status.Failed? then Output(sep, key.status)
    else
      var value := Render(style, d, e.value);
      Output(sep + key.bytes + KeySep(style) + value.bytes, value.status)
  }

  /** The first `n` items of a sequence at depth `d`. */
  function RenderItems(style: Style, d: nat, v: Value, n: nat): (r: Output)
    requires v.Seq? && n <= |v.items|
    decreases v, 0, n
  {
    if n == 0 then Output([], Done)
    else
      var prev := RenderItems(style, d, v, n - 1);
      if prev.status.Failed? then prev
      else
        var item := RenderItem(style, d, n == 1, v.items[n - 1]);
        Output(prev.bytes + item.bytes, item.status)
  }

  /** The first `n` entries of a map at depth `d`. */
  function RenderEntries(style: Style, d: nat, v: Value, n: nat): (r: Output)
    requires v.Map? && n <= |v.entries|
    decreases v, 0, n
  {
    if n == 0 then Output([], Done)
    else
      var prev := RenderEntries(style, d, v, n - 1);
      if prev.status.Failed? then prev
      else
        var entry := RenderEntry(style, d, n == 1, v.entries[n - 1]);
        Output(prev.bytes + entry.bytes, entry.status)
  }

  /** The whole document in one style, as the `to_vec` entry points return it. */
  function Encode(style: Style, v: Value): (r: Result<seq<byte>>)
    ensures r.Ok? <==> Representable(v)
    ensures r.Err? ==> r.error in {BAD_KEY, UNREPRESENTABLE}
  {
    RenderStatus(style, 0, v);
    var o := Render(style, 0, v);
    if o.status.Done? then Ok(o.bytes) else Err(o.status.error)
  }

  /** A value with no sequence or map inside it: a scalar, unit, none, or `Some` of a flat value. */
  predicate Flat(v: Value) {
    match v
    case Seq(_, _) => false
    case Map(_, _) => false
    case Some(x) => Flat(x)
    case _ => true
  }

  /**
   * Only containers use the layout: a flat value is written the same way in
   * both styles and at every depth.
   */
  lemma {:induction false} FlatIgnoresLayout(style: Style, d: nat, style': Style, d': nat, v: Value)
    requires Flat(v)
    ensures Render(style, d, v) == Render(style', d', v)
  {
    if v.Some? {
      FlatIgnoresLayout(style, d, style', d', v.inner);
    }
  }

  // ---------------------------------------------------------------------
  // Which values can be encoded

  /**
   * A reference description of the values the format can express, read off
   * the value alone: no unit or none is ever visited, and every visited map
   * key is a string. The items of a container that reports length 0 are
   * never visited.
   */
  predicate Representable(v: Value)
    decreases v
  {
    match v
    case Unit => false
    case None => false
    case Some(x) => Representable(x)
    case Seq(len, items) =>
      len == Wrappers.Some(0) || forall i | 0 <= i < |items| :: Representable(items[i])
    case Map(len, entries) =>
      len == Wrappers.Some(0) ||
      forall i | 0 <= i < |entries| :: entries[i].key.Str? && Representable(entries[i].value)
    case _ => true
  }

  /**
   * Encoding succeeds exactly for the representable values, in either style
   * and at any depth; when it fails, the error is a syntax error with code
   * `InvalidKey` or `UnrepresentableValue` at offset, line and column 0.
   */
  lemma {:induction false} RenderStatus(style: Style, d: nat, v: Value)
    ensures Render(style, d, v).status.Done? <==> Representable(v)
    ensures Render(style, d, v).status.Failed? ==>
      Render(style, d, v).status.error in {BAD_KEY, UNREPRESENTABLE}
    decreases v, 1, 0
  {
    match v
    case Some(x) => RenderStatus(style, d, x);
    case Seq(_, _) => SeqRenderStatus(style, d, v);
    case Map(_, _) => MapRenderStatus(style, d, v);
    case _ =>
  }

  /** `RenderStatus` for a sequence. */
  lemma SeqRenderStatus(style: Style, d: nat, v: Value)
    requires v.Seq?
    ensures Render(style, d, v).status.Done? <==> Representable(v)
    ensures Render(style, d, v).status.Failed? ==>
      Render(style, d, v).status.error in {BAD_KEY, UNREPRESENTABLE}
    decreases v, 0, |v.items| + 1
  {
    if v.reportedLen != Wrappers.Some(0) {
      SeqStatus(style, d, v);
      ItemsStatus(style, Inner(style, d), v, |v.items|);
    }
  }

  /** `RenderStatus` for a map. */
  lemma MapRenderStatus(style: Style, d: nat, v: Value)
    requires v.Map?
    ensures Render(style, d, v).status.Done? <==> Representable(v)
    ensures Render(style, d, v).status.Failed? ==>
      Render(style, d, v).status.error in {BAD_KEY, UNREPRESENTABLE}
    decreases v, 0, |v.entries| + 1
  {
    if v.reportedLen != Wrappers.Some(0) {
      MapStatus(style, d, v);
      EntriesStatus(style, Inner(style, d), v, |v.entries|);
    }
  }

  /** A sequence that does not report length 0 ends with the status of its items. */
  lemma SeqStatus(style: Style, d: nat, v: Value)
    requires v.Seq? && v.reportedLen != Wrappers.Some(0)
    ensures Render(style, d, v).status == RenderItems(style, Inner(style, d), v, |v.items|).status
  {
  }

  /** A map that does not report length 0 ends with the status of its entries. */
  lemma MapStatus(style: Style, d: nat, v: Value)
    requires v.Map? && v.reportedLen != Wrappers.Some(0)
    ensures Render(style, d, v).status == RenderEntries(style, Inner(style, d), v, |v.entries|).status
  {
  }

  lemma {:induction false} ItemsStatus(style: Style, d: nat, v: Value, n: nat)
    requires v.Seq? && n <= |v.items|
    ensures RenderItems(style, d, v, n).status.Done? <==>
      forall i | 0 <= i < n :: Representable(v.items[i])
    ensures RenderItems(style, d, v, n).status.Failed? ==>
      RenderItems(style, d, v, n).status.error in {BAD_KEY, UNREPRESENTABLE}
    decreases v, 0, n
  {
    if n > 0 {
      ItemsStatus(style, d, v, n - 1);
      RenderStatus(style, d, v.items[n - 1]);
      ItemsStep(style, d, v, n);
      StatusStep(RenderItems(style, d, v, n - 1).status, Render(style, d, v.items[n - 1]).status,
        RenderItems(style, d, v, n).status);
      ItemsPrefixSplit(v.items, n);
    }
  }

  /** The first `n` items are all representable exactly when the first `n - 1` and the last of them are. */
  lemma ItemsPrefixSplit(items: seq<Value>, n: nat)
    requires 0 < n <= |items|
    ensures (forall i | 0 <= i < n :: Representable(items[i])) <==>
      (forall i | 0 <= i < n - 1 :: Representable(items[i])) && Representable(items[n - 1])
  {
  }

  /** A status that keeps the first failure: it is done exactly when both parts are, and fails only as one of them does. */
  lemma StatusStep(prev: Status, next: Status, cur: Status)
    requires cur == if prev.Failed? then prev else next
    ensures cur.Done? <==> prev.Done? && next.Done?
    ensures cur.Failed? ==> cur == prev || cur == next
  {
  }

  /** The status after `n` items: the first failure so far, or the last item's status. */
  lemma ItemsStep(style: Style, d: nat, v: Value, n: nat)
    requires v.Seq? && 0 < n <= |v.items|
    ensures RenderItems(style, d, v, n).status ==
      if RenderItems(style, d, v, n - 1).status.Failed? then RenderItems(style, d, v, n - 1).status
      else Render(style, d, v.items[n - 1]).status
  {
  }

  lemma {:induction false} EntriesStatus(style: Style, d: nat, v: Value, n: nat)
    requires v.Map? && n <= |v.entries|
    ensures RenderEntries(style, d, v, n).status.Done? <==>
      forall i | 0 <= i < n :: v.entries[i].key.Str? && Representable(v.entries[i].value)
    ensures RenderEntries(style, d, v, n).status.Failed? ==>
      RenderEntries(style, d, v, n).status.error in {BAD_KEY, UNREPRESENTABLE}
    decreases v, 0, n
  {
    if n > 0 {
      EntriesStatus(style, d, v, n - 1);
      RenderStatus(style, d, v.entries[n - 1].value);
      EntriesStep(style, d, v, n);
      StatusStep(RenderEntries(style, d, v, n - 1).status,
        if v.entries[n - 1].key.Str? then Render(style, d, v.entries[n - 1].value).status else Failed(BAD_KEY),
        RenderEntries(style, d, v, n).status);
      EntriesPrefixSplit(v.entries, n);
    }
  }

  /** The same split for the entries of a map: string keys and representable values. */
  lemma EntriesPrefixSplit(entries: seq<Entry>, n: nat)
    requires 0 < n <= |entries|
    ensures (forall i | 0 <= i < n :: entries[i].key.Str? && Representable(entries[i].value)) <==>
      (forall i | 0 <= i < n - 1 :: entries[i].key.Str? && Representable(entries[i].value)) &&
      entries[n - 1].key.Str? && Representable(entries[n - 1].value)
  {
  }

  /** The status after `n` entries: the first failure so far, else a refused key, else the last value's status. */
  lemma EntriesStep(style: Style, d: nat, v: Value, n: nat)
    requires v.Map? && 0 < n <= |v.entries|
    ensures RenderEntries(style, d, v, n).status ==
      if RenderEntries(style, d, v, n - 1).status.Failed? then RenderEntries(style, d, v, n - 1).status
      else if !v.entries[n - 1].key.Str? then Failed(BAD_KEY)
      else Render(style, d, v.entries[n - 1].value).status
  {
  }

  /** A sequence that does not report length 0 is its items between its punctuation. */
  lemma SeqOutput(style: Style, d: nat, v: Value)
    requires v.Seq? && v.reportedLen != Wrappers.Some(0)
    ensures Render(style, d, v) ==
      Enclose(style, d, '[' as int, RenderItems(style, Inner(style, d), v, |v.items|), ']' as int)
  {
  }

  /** A map that does not report length 0 is its entries between its punctuation. */
  lemma MapOutput(style: Style, d: nat, v: Value)
    requires v.Map? && v.reportedLen != Wrappers.Some(0)
    ensures Render(style, d, v) ==
      Enclose(style, d, '{' as int, RenderEntries(style, Inner(style, d), v, |v.entries|), '}' as int)
  {
  }

  /** After items that all succeeded, one more item appends its output and decides the status. */
  lemma ItemsSnoc(style: Style, d: nat, v: Value, n: nat)
    requires v.Seq? && 0 < n <= |v.items|
    requires RenderItems(style, d, v, n - 1).status.Done?
    ensures RenderItems(style, d, v, n) == Output(
      RenderItems(style, d, v, n - 1).bytes + RenderItem(style, d, n == 1, v.items[n - 1]).bytes,
      RenderItem(style, d, n == 1, v.items[n - 1]).status)
  {
  }

  /** After entries that all succeeded, one more entry appends its output and decides the status. */
  lemma EntriesSnoc(style: Style, d: nat, v: Value, n: nat)
    requires v.Map? && 0 < n <= |v.entries|
    requires RenderEntries(style, d, v, n - 1).status.Done?
    ensures RenderEntries(style, d, v, n) == Output(
      RenderEntries(style, d, v, n - 1).bytes + RenderEntry(style, d, n == 1, v.entries[n - 1]).bytes,
      RenderEntry(style, d, n == 1, v.entries[n - 1]).status)
  {
  }

  /**
   * Writing item `i` after the output of the items before it, none of which
   * failed, gives the output of the first `i + 1` items; if item `i` fails,
   * that is already the output of all of them.
   */
  lemma ItemsExtend(style: Style, d: nat, v: Value, i: nat, start: seq<byte>)
    requires v.Seq? && i < |v.items|
    requires RenderItems(style, d, v, i).status.Done?
    ensures start + RenderItems(style, d, v, i).bytes + RenderItem(style, d, i == 0, v.items[i]).bytes
      == start + RenderItems(style, d, v, i + 1).bytes
    ensures RenderItems(style, d, v, i + 1).status == RenderItem(style, d, i == 0, v.items[i]).status
    ensures RenderItems(style, d, v, i + 1).status.Failed? ==>
      RenderItems(style, d, v, |v.items|) == RenderItems(style, d, v, i + 1)
  {
    ItemsSnoc(style, d, v, i + 1);
    AppendAssoc(start, RenderItems(style, d, v, i).bytes, RenderItem(style, d, i == 0, v.items[i]).bytes);
    if RenderItems(style, d, v, i + 1).status.Failed? {
      ItemsStopAtError(style, d, v, i + 1, |v.items|);
    }
  }

  /** Writing entry `i` after the entries before it, as `ItemsExtend` for items. */
  lemma EntriesExtend(style: Style, d: nat, v: Value, i: nat, start: seq<byte>)
    requires v.Map? && i < |v.entries|
    requires RenderEntries(style, d, v, i).status.Done?
    ensures start + RenderEntries(style, d, v, i).bytes + RenderEntry(style, d, i == 0, v.entries[i]).bytes
      == start + RenderEntries(style, d, v, i + 1).bytes
    ensures RenderEntries(style, d, v, i + 1).status == RenderEntry(style, d, i == 0, v.entries[i]).status
    ensures RenderEntries(style, d, v, i + 1).status.Failed? ==>
      RenderEntries(style, d, v, |v.entries|) == RenderEntries(style, d, v, i + 1)
  {
    EntriesSnoc(style, d, v, i + 1);
    AppendAssoc(start, RenderEntries(style, d, v, i).bytes, RenderEntry(style, d, i == 0, v.entries[i]).bytes);
    if RenderEntries(style, d, v, i + 1).status.Failed? {
      EntriesStopAtError(style, d, v, i + 1, |v.entries|);
    }
  }

  /** Once an item fails, the later items add nothing. */
  lemma {:induction false} ItemsStopAtError(style: Style, d: nat, v: Value, m: nat, n: nat)
    requires v.Seq? && m <= n <= |v.items|
    requires RenderItems(style, d, v, m).status.Failed?
    ensures RenderItems(style, d, v, n) == RenderItems(style, d, v, m)
    decreases n
  {
    if n > m {
      ItemsStopAtError(style, d, v, m, n - 1);
    }
  }

  /** Once an entry fails, the later entries add nothing. */
  lemma {:induction false} EntriesStopAtError(style: Style, d: nat, v: Value, m: nat, n: nat)
    requires v.Map? && m <= n <= |v.entries|
    requires RenderEntries(style, d, v, m).status.Failed?
    ensures RenderEntries(style, d, v, n) == RenderEntries(style, d, v, m)
    decreases n
  {
    if n > m {
      EntriesStopAtError(style, d, v, m, n - 1);
    }
  }

  /**
   * A map whose entry `j` is the first with a non-string key fails with
   * `InvalidKey`; the output ends with that entry's separator, so none of
   * its key or value is written.
   */
  lemma FirstBadKey(style: Style, d: nat, v: Value, j: nat)
    requires v.Map? && v.reportedLen != Wrappers.Some(0) && j < |v.entries|
    requires forall i | 0 <= i < j :: v.entries[i].key.Str? && Representable(v.entries[i].value)
    requires !v.entries[j].key.Str?
    ensures Render(style, d, v) == Output(
      Open(style, d, '{' as int) + RenderEntries(style, Inner(style, d), v, j).bytes
        + ItemSep(style, Inner(style, d), j == 0),
      Failed(BAD_KEY))
  {
    EntriesStatus(style, Inner(style, d), v, j);
    BadKeyStops(style, d, v, j);
  }

  /** After entries that all succeeded, a non-string key stops the map right after its separator. */
  lemma BadKeyStops(style: Style, d: nat, v: Value, j: nat)
    requires v.Map? && v.reportedLen != Wrappers.Some(0) && j < |v.entries|
    requires RenderEntries(style, Inner(style, d), v, j).status.Done?
    requires !v.entries[j].key.Str?
    ensures Render(style, d, v) == Output(
      Open(style, d, '{' as int) + RenderEntries(style, Inner(style, d), v, j).bytes
        + ItemSep(style, Inner(style, d), j == 0),
      Failed(BAD_KEY))
  {
    var d' := Inner(style, d);
    BadKeyEntries(style, d', v, j);
    MapOutput(style, d, v);
    AppendAssoc(Open(style, d, '{' as int), RenderEntries(style, d', v, j).bytes, ItemSep(style, d', j == 0));
  }

  /** The entries of such a map end with the refused entry's separator and `InvalidKey`. */
  lemma BadKeyEntries(style: Style, d: nat, v: Value, j: nat)
    requires v.Map? && j < |v.entries|
    requires RenderEntries(style, d, v, j).status.Done?
    requires !v.entries[j].key.Str?
    ensures RenderEntries(style, d, v, |v.entries|)
      == Output(RenderEntries(style, d, v, j).bytes + ItemSep(style, d, j == 0), Failed(BAD_KEY))
  {
    var prev := RenderEntries(style, d, v, j);
    var entry := RenderEntry(style, d, j == 0, v.entries[j]);
    assert entry == Output(ItemSep(style, d, j == 0), Failed(BAD_KEY));
    EntriesSnoc(style, d, v, j + 1);
    assert RenderEntries(style, d, v, j + 1) == Output(prev.bytes + entry.bytes, Failed(BAD_KEY));
    EntriesStopAtError(style, d, v, j + 1, |v.entries|);
  }

  // ---------------------------------------------------------------------
  // The shape of a container's output

  /** The parts joined by `sep`, in order. */
  function Join(sep: seq<byte>, parts: seq<seq<byte>>): seq<byte>
    decreases |parts|
  {
    if |parts| == 0 then []
    else if |parts| == 1 then parts[0]
    else Join(sep, parts[..|parts| - 1]) + sep + parts[|parts| - 1]
  }

  lemma JoinSnoc(sep: seq<byte>, parts: seq<seq<byte>>, p: seq<byte>)
    ensures Join(sep, parts + [p]) == if parts == [] then p else Join(sep, parts) + sep + p
  {
    assert (parts + [p])[..|parts|] == parts;
  }

  /** The texts of the items, in order. */
  function RenderedItems(style: Style, d: nat, items: seq<Value>): (r: seq<seq<byte>>)
    ensures |r| == |items|
    decreases |items|
  {
    if items == [] then []
    else RenderedItems(style, d, items[..|items| - 1]) + [Render(style, d, items[|items| - 1]).bytes]
  }

  /** Part `i` of the items' texts is the text of item `i`. */
  lemma {:induction false} RenderedItemsAt(style: Style, d: nat, items: seq<Value>, i: nat)
    requires i < |items|
    ensures RenderedItems(style, d, items)[i] == Render(style, d, items[i]).bytes
    decreases |items|
  {
    if i < |items| - 1 {
      RenderedItemsAt(style, d, items[..|items| - 1], i);
    }
  }

  /** One map entry's text: the bare key, the key separator, the value. */
  function EntryText(style: Style, d: nat, e: Entry): seq<byte> {
    RenderKey(e.key).bytes + KeySep(style) + Render(style, d, e.value).bytes
  }

  /** The texts of the entries, in order. */
  function RenderedEntries(style: Style, d: nat, entries: seq<Entry>): (r: seq<seq<byte>>)
    ensures |r| == |entries|
    decreases |entries|
  {
    if entries == [] then []
    else RenderedEntries(style, d, entries[..|entries| - 1]) + [EntryText(style, d, entries[|entries| - 1])]
  }

  /** Part `i` of the entries' texts is the text of entry `i`. */
  lemma {:induction false} RenderedEntriesAt(style: Style, d: nat, entries: seq<Entry>, i: nat)
    requires i < |entries|
    ensures RenderedEntries(style, d, entries)[i] == EntryText(style, d, entries[i])
    decreases |entries|
  {
    if i < |entries| - 1 {
      RenderedEntriesAt(style, d, entries[..|entries| - 1], i);
    }
  }

  lemma RenderedItemsSnoc(style: Style, d: nat, items: seq<Value>, n: nat)
    requires 1 <= n <= |items|
    ensures RenderedItems(style, d, items[..n])
      == RenderedItems(style, d, items[..n - 1]) + [Render(style, d, items[n - 1]).bytes]
  {
    assert items[..n][..n - 1] == items[..n - 1];
  }

  /** The items written so far, when none failed, are the items' texts joined by the separator. */
  lemma {:induction false} ItemsJoined(style: Style, d: nat, v: Value, n: nat)
    requires v.Seq? && n <= |v.items|
    requires RenderItems(style, d, v, n).status.Done?
    ensures RenderItems(style, d, v, n).bytes
      == Join(ItemSep(style, d, false), RenderedItems(style, d, v.items[..n]))
    decreases n
  {
    if n > 0 {
      ItemAppended(style, d, v, n);
      ItemsJoined(style, d, v, n - 1);
      RenderedItemsSnoc(style, d, v.items, n);
      JoinStep(ItemSep(style, d, false), RenderedItems(style, d, v.items[..n - 1]),
        RenderItems(style, d, v, n - 1).bytes, n == 1, ItemSep(style, d, n == 1),
        Render(style, d, v.items[n - 1]).bytes);
    }
  }

  /** When the first `n` items succeed, the last of them adds its separator and its text. */
  lemma ItemAppended(style: Style, d: nat, v: Value, n: nat)
    requires v.Seq? && 0 < n <= |v.items|
    requires RenderItems(style, d, v, n).status.Done?
    ensures RenderItems(style, d, v, n - 1).status.Done?
    ensures RenderItems(style, d, v, n).bytes ==
      RenderItems(style, d, v, n - 1).bytes + (ItemSep(style, d, n == 1) + Render(style, d, v.items[n - 1]).bytes)
  {
    ItemsStep(style, d, v, n);
    ItemsSnoc(style, d, v, n);
  }

  lemma RenderedEntriesSnoc(style: Style, d: nat, entries: seq<Entry>, n: nat)
    requires 1 <= n <= |entries|
    ensures RenderedEntries(style, d, entries[..n])
      == RenderedEntries(style, d, entries[..n - 1]) + [EntryText(style, d, entries[n - 1])]
  {
    assert entries[..n][..n - 1] == entries[..n - 1];
  }

  /** An entry whose key is a string is its separator followed by its text. */
  lemma EntryWithStringKey(style: Style, d: nat, first: bool, e: Entry)
    requires e.key.Str?
    ensures RenderEntry(style, d, first, e)
      == Output(ItemSep(style, d, first) + EntryText(style, d, e), Render(style, d, e.value).status)
  {
    AppendAssoc3(ItemSep(style, d, first), e.key.s, KeySep(style), Render(style, d, e.value).bytes);
  }

  /** Appending one more part after its separator (none before the first part) extends the join. */
  lemma JoinStep(sep: seq<byte>, before: seq<seq<byte>>, joined: seq<byte>, first: bool, sepNow: seq<byte>, t: seq<byte>)
    requires joined == Join(sep, before)
    requires first <==> before == []
    requires sepNow == if first then [] else sep
    ensures joined + (sepNow + t) == Join(sep, before + [t])
  {
    JoinSnoc(sep, before, t);
  }

  /** The entries written so far, when none failed, are their texts joined by the separator. */
  lemma EntriesJoined(style: Style, d: nat, v: Value, n: nat)
    requires v.Map? && n <= |v.entries|
    requires RenderEntries(style, d, v, n).status.Done?
    ensures RenderEntries(style, d, v, n).bytes
      == Join(ItemSep(style, d, false), RenderedEntries(style, d, v.entries[..n]))
  {
    NoEntriesJoined(style, d, v);
    var k := 0;
    while k < n
      invariant k <= n
      invariant JoinedUpTo(style, d, v, k)
    {
      JoinedStep(style, d, v, n, k);
      k := k + 1;
    }
  }

  /** One step of the loop in `EntriesJoined`. */
  lemma JoinedStep(style: Style, d: nat, v: Value, n: nat, k: nat)
    requires v.Map? && k < n <= |v.entries|
    requires RenderEntries(style, d, v, n).status.Done?
    requires JoinedUpTo(style, d, v, k)
    ensures JoinedUpTo(style, d, v, k + 1)
  {
    EntriesDoneBefore(style, d, v, n, k + 1);
    EntryJoinedAt(style, d, v, k + 1);
  }

  /** The first `n` entries wrote their texts joined by the separator. */
  ghost predicate JoinedUpTo(style: Style, d: nat, v: Value, n: nat)
    requires v.Map? && n <= |v.entries|
  {
    RenderEntries(style, d, v, n).bytes
      == Join(ItemSep(style, d, false), RenderedEntries(style, d, v.entries[..n]))
  }

  /** When the first `n` entries succeed, so do the first `k` of them. */
  lemma EntriesDoneBefore(style: Style, d: nat, v: Value, n: nat, k: nat)
    requires v.Map? && k <= n <= |v.entries|
    requires RenderEntries(style, d, v, n).status.Done?
    ensures RenderEntries(style, d, v, k).status.Done?
  {
    EntriesStatus(style, d, v, n);
    EntriesStatus(style, d, v, k);
  }

  /** No entries write nothing, which is the join of no texts. */
  lemma NoEntriesJoined(style: Style, d: nat, v: Value)
    requires v.Map?
    ensures JoinedUpTo(style, d, v, 0)
  {
    assert RenderedEntries(style, d, v.entries[..0]) == [];
  }

  /** The step of `EntriesJoined`: from the first `n - 1` entries to the first `n`. */
  lemma EntryJoinedAt(style: Style, d: nat, v: Value, n: nat)
    requires v.Map? && 0 < n <= |v.entries|
    requires RenderEntries(style, d, v, n).status.Done?
    requires JoinedUpTo(style, d, v, n - 1)
    ensures JoinedUpTo(style, d, v, n)
  {
    EntryAppended(style, d, v, n);
    EntryJoined(style, d, v.entries, n, RenderEntries(style, d, v, n - 1).bytes);
  }

  /** Joining one more entry's text onto the join of the entries before it. */
  lemma EntryJoined(style: Style, d: nat, entries: seq<Entry>, n: nat, joined: seq<byte>)
    requires 0 < n <= |entries|
    requires joined == Join(ItemSep(style, d, false), RenderedEntries(style, d, entries[..n - 1]))
    ensures joined + (ItemSep(style, d, n == 1) + EntryText(style, d, entries[n - 1]))
      == Join(ItemSep(style, d, false), RenderedEntries(style, d, entries[..n]))
  {
    RenderedEntriesSnoc(style, d, entries, n);
    JoinStep(ItemSep(style, d, false), RenderedEntries(style, d, entries[..n - 1]),
      joined, n == 1, ItemSep(style, d, n == 1), EntryText(style, d, entries[n - 1]));
  }

  /** When the first `n` entries succeed, the last of them adds its separator and its text. */
  lemma EntryAppended(style: Style, d: nat, v: Value, n: nat)
    requires v.Map? && 0 < n <= |v.entries|
    requires RenderEntries(style, d, v, n).status.Done?
    ensures RenderEntries(style, d, v, n - 1).status.Done?
    ensures RenderEntries(style, d, v, n).bytes ==
      RenderEntries(style, d, v, n - 1).bytes + (ItemSep(style, d, n == 1) + EntryText(style, d, v.entries[n - 1]))
  {
    EntriesStep(style, d, v, n);
    EntriesSnoc(style, d, v, n);
    EntryWithStringKey(style, d, n == 1, v.entries[n - 1]);
  }

  /**
   * A representable sequence that does not report length 0 is its opening,
   * its items' texts joined by the item separator (`,` in the compact style,
   * a new line at the inner depth in the pretty one), and its closing.
   */
  lemma SeqShape(style: Style, d: nat, v: Value)
    requires v.Seq? && v.reportedLen != Wrappers.Some(0) && Representable(v)
    ensures Render(style, d, v) == Output(
      Open(style, d, '[' as int)
        + Join(ItemSep(style, Inner(style, d), false), RenderedItems(style, Inner(style, d), v.items))
        + Close(style, d, ']' as int),
      Done)
  {
    ItemsStatus(style, Inner(style, d), v, |v.items|);
    ItemsJoined(style, Inner(style, d), v, |v.items|);
    assert v.items[..|v.items|] == v.items;
  }

  /** The same for a map: its entries `key:value` joined, in the order they are given. */
  lemma MapShape(style: Style, d: nat, v: Value)
    requires v.Map? && v.reportedLen != Wrappers.Some(0) && Representable(v)
    ensures forall i | 0 <= i < |v.entries| :: v.entries[i].key.Str?
    ensures Render(style, d, v) == Output(
      Open(style, d, '{' as int)
        + Join(ItemSep(style, Inner(style, d), false), RenderedEntries(style, Inner(style, d), v.entries))
        + Close(style, d, '}' as int),
      Done)
  {
    EntriesStatus(style, Inner(style, d), v, |v.entries|);
    EntriesJoined(style, Inner(style, d), v, |v.entries|);
    assert v.entries[..|v.entries|] == v.entries;
  }

  /**
   * A container reporting length 0 is written `[]` or `{}` in both styles,
   * whatever it holds: its items are never visited.
   */
  lemma EmptyFastPath(style: Style, d: nat, items: seq<Value>, entries: seq<Entry>)
    ensures Render(style, d, Seq(Wrappers.Some(0), items)) == Output(Ascii("[]"), Done)
    ensures Render(style, d, Map(Wrappers.Some(0), entries)) == Output(Ascii("{}"), Done)
  {
  }

  /**
   * A container with no items whose length is not reported goes through the
   * formatter: pretty writes `[`, a new line, the inner indentation, a new
   * line, the outer indentation and `]`.
   */
  lemma EmptyUnknownLength(style: Style, d: nat)
    ensures Render(style, d, Seq(Wrappers.None, [])) ==
      Output(Open(style, d, '[' as int) + Close(style, d, ']' as int), Done)
    ensures Render(style, d, Map(Wrappers.None, [])) ==
      Output(Open(style, d, '{' as int) + Close(style, d, '}' as int), Done)
    ensures style.Pretty? ==>
      Open(style, d, '[' as int) + Close(style, d, ']' as int)
        == ['[' as int, NEWLINE] + Spaces(d + 1) + [NEWLINE] + Spaces(d) + [']' as int]
  {
    var s := Seq(Wrappers.None, []);
    assert RenderItems(style, Inner(style, d), s, 0) == Output([], Done);
    var m := Map(Wrappers.None, []);
    assert RenderEntries(style, Inner(style, d), m, 0) == Output([], Done);
  }

  /**
   * The serializer's `first` flag after `v` was encoded without error: a
   * container that went through the formatter leaves it set exactly when it
   * had no items; every other value leaves it as it was.
   */
  function FirstAfter(v: Value, first: bool): bool {
    match v
    case Some(x) => FirstAfter(x, first)
    case Seq(len, items) => if len == Wrappers.Some(0) then first else |items| == 0
    case Map(len, entries) => if len == Wrappers.Some(0) then first else |entries| == 0
    case _ => first
  }
}
