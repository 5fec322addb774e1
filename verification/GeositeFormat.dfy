/**
 The geosite file: a version byte, a table of (code, content offset, item count) entries in sorted code
 order, then the items of all codes back to back. The reader loads the table once and seeks per code.
 */
module GeositeFormat {
  import opened Wrappers

  type byte = x: int | 0 <= x < 256
  type Text = seq<byte>

  datatype Item = Item(kind: byte, value: Text)

  datatype Error = Eof | Overflow | UnknownVersion | NoSuchCode | BadSeek | MakePanic

  type Reading<T> = Result<T, Error>

  /** A decoded value and the position behind it. */
  datatype Decoded<T> = Decoded(value: T, next: nat)

  const TWO_63: int := 0x8000_0000_0000_0000
  const TWO_64: int := 0x1_0000_0000_0000_0000

  /** Go's conversion to int64. */
  function ToInt64(x: int): (r: int)
    ensures -TWO_63 <= r < TWO_63
    ensures -TWO_63 <= x < TWO_63 ==> r == x
  {
    if -TWO_63 <= x < TWO_63 then x else (x + TWO_63) % TWO_64 - TWO_63
  }

  // ---------- Byte formats ----------

  function PutUvarint(n: nat): (bytes: seq<byte>)
    ensures |bytes| >= 1
  {
    if n < 128 then [n] else [n % 128 + 128] + PutUvarint(n / 128)
  }

  /** `binary.ReadUvarint` after `i` continuation bytes: at most ten bytes and 64 bits. */
  function GetUvarint(data: seq<byte>, pos: nat, i: nat): (r: Reading<Decoded<nat>>)
    requires i <= 10
    ensures r.Ok? ==> pos < r.value.next <= |data|
    decreases |data| - pos
  {
    if i == 10 then Err(Overflow)
    else if pos >= |data| then Err(Eof)
    else if data[pos] < 128 then
      if i == 9 && data[pos] > 1 then Err(Overflow) else Ok(Decoded(data[pos], pos + 1))
    else
      var rest :- GetUvarint(data, pos + 1, i + 1);
      Ok(Decoded(data[pos] - 128 + 128 * rest.value, rest.next))
  }

  function PutText(t: Text): seq<byte> {
    PutUvarint(|t|) + t
  }

  function GetText(data: seq<byte>, pos: nat): Reading<Decoded<Text>> {
    var length :- GetUvarint(data, pos, 0);
    if length.value >= TWO_63 then Err(MakePanic)
    else if length.next + length.value > |data| then Err(Eof)
    else Ok(Decoded(data[length.next..length.next + length.value], length.next + length.value))
  }

  function PutItem(item: Item): seq<byte> {
    [item.kind] + PutText(item.value)
  }

  function GetItem(data: seq<byte>, pos: nat): Reading<Decoded<Item>> {
    if pos >= |data| then Err(Eof)
    else
      var value :- GetText(data, pos + 1);
      Ok(Decoded(Item(data[pos], value.value), value.next))
  }

  function PutItems(items: seq<Item>): seq<byte> {
    if items == [] then [] else PutItems(items[..|items| - 1]) + PutItem(items[|items| - 1])
  }

  function NextItem(data: seq<byte>, before: Decoded<seq<Item>>): Reading<Decoded<seq<Item>>> {
    var item :- GetItem(data, before.next);
    Ok(Decoded(before.value + [item.value], item.next))
  }

  function GetItemsFrom(data: seq<byte>, before: Decoded<seq<Item>>, n: nat): Reading<Decoded<seq<Item>>>
    decreases n
  {
    if n == 0 then Ok(before)
    else
      var next :- NextItem(data, before);
      GetItemsFrom(data, next, n - 1)
  }

  function GetItems(data: seq<byte>, pos: nat, n: nat): Reading<Decoded<seq<Item>>> {
    GetItemsFrom(data, Decoded([], pos), n)
  }

  /** One code with its items; a file is written from the sections in sorted code order. */
  datatype Section = Section(code: Text, items: seq<Item>)

  function Content(sections: seq<Section>): seq<byte> {
    if sections == [] then [] else Content(sections[..|sections| - 1]) + PutItems(sections[|sections| - 1].items)
  }

  function PutEntry(code: Text, index: nat, length: nat): seq<byte> {
    PutText(code) + PutUvarint(index) + PutUvarint(length)
  }

  function Entries(sections: seq<Section>): seq<byte> {
    if sections == [] then []
    else
      var init, last := sections[..|sections| - 1], sections[|sections| - 1];
      Entries(init) + PutEntry(last.code, |Content(init)|, |last.items|)
  }

  function Header(sections: seq<Section>): seq<byte> {
    [0] + PutUvarint(|sections|) + Entries(sections)
  }

  function File(sections: seq<Section>): seq<byte> {
    Header(sections) + Content(sections)
  }

  /** The two maps the reader keeps, and the position where the content starts. */
  datatype Metadata = Metadata(index: map<Text, int>, length: map<Text, int>, start: nat)

  /** One entry of the table, read at `before.start`. */
  function NextEntry(data: seq<byte>, before: Metadata): Reading<Metadata> {
    var code :- GetText(data, before.start);
    var index :- GetUvarint(data, code.next, 0);
    var length :- GetUvarint(data, index.next, 0);
    Ok(Metadata(before.index[code.value := ToInt64(index.value)],
                before.length[code.value := ToInt64(length.value)],
                length.next))
  }

  function GetEntriesFrom(data: seq<byte>, before: Metadata, n: nat): Reading<Metadata>
    decreases n
  {
    if n == 0 then Ok(before)
    else
      var next :- NextEntry(data, before);
      GetEntriesFrom(data, next, n - 1)
  }

  function GetEntries(data: seq<byte>, pos: nat, n: nat): Reading<Metadata> {
    GetEntriesFrom(data, Metadata(map[], map[], pos), n)
  }

  /** What `readMetadata` makes of a file. */
  function GetMetadata(data: seq<byte>): Reading<Metadata> {
    if data == [] then Err(Eof)
    else if data[0] != 0 then Err(UnknownVersion)
    else
      var count :- GetUvarint(data, 1, 0);
      if count.value >= TWO_63 then Err(MakePanic) else GetEntries(data, count.next, count.value)
  }

  /** What `Read` returns for a code: it depends on the file and the metadata only. */
  function Lookup(data: seq<byte>, metadata: Metadata, code: Text): Reading<seq<Item>> {
    if code !in metadata.index then Err(NoSuchCode)
    else
      var offset := ToInt64(metadata.start + metadata.index[code]);
      var n := if code in metadata.length then metadata.length[code] else 0;
      if offset < 0 then Err(BadSeek)
      else if n < 0 then Err(MakePanic)
      else
        var items :- GetItems(data, offset, n);
        Ok(items.value)
  }

  // ---------- Reading back what was put ----------

  /** The bytes stand in the data at this position. */
  ghost predicate At(data: seq<byte>, pos: nat, bytes: seq<byte>)
    decreases |bytes|
  {
    if bytes == [] then pos <= |data|
    else pos < |data| && data[pos] == bytes[0] && At(data, pos + 1, bytes[1..])
  }

  lemma {:induction false} AtIsSlice(data: seq<byte>, pos: nat, bytes: seq<byte>)
    requires At(data, pos, bytes)
    ensures pos + |bytes| <= |data| && data[pos..pos + |bytes|] == bytes
    decreases |bytes|
  {
    if bytes != [] {
      AtIsSlice(data, pos + 1, bytes[1..]);
      assert bytes == [bytes[0]] + bytes[1..];
    }
  }

  lemma AtFits(data: seq<byte>, pos: nat, bytes: seq<byte>)
    requires At(data, pos, bytes)
    ensures pos + |bytes| <= |data|
  {
    AtIsSlice(data, pos, bytes);
  }

  lemma {:induction false} AtSplit(data: seq<byte>, pos: nat, a: seq<byte>, b: seq<byte>)
    requires At(data, pos, a + b)
    ensures At(data, pos, a) && At(data, pos + |a|, b)
    decreases |a|
  {
    if a == [] {
      assert a + b == b;
      AtIsSlice(data, pos, b);
    } else {
      assert (a + b)[0] == a[0] && (a + b)[1..] == a[1..] + b;
      AtSplit(data, pos + 1, a[1..], b);
    }
  }

  lemma {:induction false} AtBetween(before: seq<byte>, bytes: seq<byte>, after: seq<byte>)
    ensures At(before + bytes + after, |before|, bytes)
    decreases |bytes|
  {
    if bytes != [] {
      var data := before + bytes + after;
      AtBetween(before + [bytes[0]], bytes[1..], after);
      assert bytes == [bytes[0]] + bytes[1..];
      assert before + [bytes[0]] + bytes[1..] + after == data;
    }
  }

  lemma {:induction false} AtExtend(before: seq<byte>, data: seq<byte>, after: seq<byte>, pos: nat, bytes: seq<byte>)
    requires At(data, pos, bytes)
    ensures At(before + data + after, |before| + pos, bytes)
    decreases |bytes|
  {
    if bytes != [] {
      AtExtend(before, data, after, pos + 1, bytes[1..]);
      assert (before + data + after)[|before| + pos] == data[pos];
    }
  }

  lemma AtLonger(data: seq<byte>, after: seq<byte>, pos: nat, bytes: seq<byte>)
    requires At(data, pos, bytes)
    ensures At(data + after, pos, bytes)
  {
    AtExtend([], data, after, pos, bytes);
    assert [] + data + after == data + after;
  }

  lemma AtStart(bytes: seq<byte>, after: seq<byte>)
    ensures At(bytes + after, 0, bytes)
  {
    AtBetween([], bytes, after);
    assert [] + bytes + after == bytes + after;
  }

  lemma AtEnd(before: seq<byte>, bytes: seq<byte>)
    ensures At(before + bytes, |before|, bytes)
  {
    AtBetween(before, bytes, []);
    assert before + bytes + [] == before + bytes;
  }

  /** Values that still fit after `i` continuation bytes: `Bound(0)` is 2 to the 64th. */
  ghost function Bound(i: nat): nat
    decreases 9 - i
  {
    if i >= 9 then 2 else 128 * Bound(i + 1)
  }

  lemma BoundIs64Bits()
    ensures Bound(0) == TWO_64
  {
    assert Bound(9) == 2;
    assert Bound(8) == 256;
    assert Bound(7) == 128 * 256;
    assert Bound(6) == 128 * 128 * 256;
    assert Bound(5) == 128 * Bound(6);
    assert Bound(4) == 128 * Bound(5);
    assert Bound(3) == 128 * Bound(4);
    assert Bound(2) == 128 * Bound(3);
    assert Bound(1) == 128 * Bound(2);
  }

  lemma {:induction false} UvarintFrom(data: seq<byte>, pos: nat, n: nat, i: nat)
    requires i <= 9 && n < Bound(i) && At(data, pos, PutUvarint(n))
    ensures GetUvarint(data, pos, i) == Ok(Decoded(n, pos + |PutUvarint(n)|))
    decreases n
  {
    if n < 128 {
      assert PutUvarint(n)[0] == n;
    } else {
      assert PutUvarint(n)[1..] == PutUvarint(n / 128);
      UvarintFrom(data, pos + 1, n / 128, i + 1);
    }
  }

  lemma {:induction false} UvarintLength(n: nat, i: nat)
    requires i <= 9 && n < Bound(i)
    ensures |PutUvarint(n)| <= 10 - i
    decreases n
  {
    if n >= 128 { UvarintLength(n / 128, i + 1); }
  }

  lemma UvarintRoundTrip(data: seq<byte>, pos: nat, n: nat)
    requires n < TWO_64 && At(data, pos, PutUvarint(n))
    ensures GetUvarint(data, pos, 0) == Ok(Decoded(n, pos + |PutUvarint(n)|)) && |PutUvarint(n)| <= 10
  {
    BoundIs64Bits();
    UvarintFrom(data, pos, n, 0);
    UvarintLength(n, 0);
  }

  // ---------- What the bytes mean ----------

  /** The number in base 128, least significant digit first, whatever the high bits. */
  ghost function Base128(bytes: seq<byte>): nat {
    if bytes == [] then 0 else bytes[0] % 128 + 128 * Base128(bytes[1..])
  }

  /** The first `k` bytes announce another one. */
  ghost predicate Continues(data: seq<byte>, pos: nat, k: nat) {
    pos + k <= |data| && forall j :: pos <= j < pos + k ==> data[j] >= 128
  }

  /** A number is written in base 128, low digits first, every byte but the last with the high bit set. */
  lemma {:induction false} PutUvarintMeaning(n: nat)
    ensures var bytes := PutUvarint(n);
            Base128(bytes) == n && Continues(bytes, 0, |bytes| - 1) && bytes[|bytes| - 1] < 128
  {
    if n >= 128 {
      PutUvarintMeaning(n / 128);
      assert PutUvarint(n)[1..] == PutUvarint(n / 128);
    } else {
      assert [n][1..] == [];
    }
  }

  /** The bytes up to the first one without the high bit are read; ten bytes are too many, and 64 bits the limit. */
  lemma {:induction false} GetUvarintMeaning(data: seq<byte>, pos: nat, i: nat, k: nat)
    requires i + k <= 10 && Continues(data, pos, k)
    requires i + k < 10 && pos + k < |data| ==> data[pos + k] < 128
    ensures GetUvarint(data, pos, i) ==
            if i + k == 10 then Err(Overflow)
            else if pos + k == |data| then Err(Eof)
            else if i + k == 9 && data[pos + k] > 1 then Err(Overflow)
            else Ok(Decoded(Base128(data[pos..pos + k + 1]), pos + k + 1))
    decreases k
  {
    if k > 0 {
      GetUvarintMeaning(data, pos + 1, i + 1, k - 1);
      if i + k < 10 && pos + k < |data| { assert data[pos..pos + k + 1][1..] == data[pos + 1..pos + k + 1]; }
    } else if i < 10 && pos < |data| {
      assert data[pos..pos + 1][1..] == [];
    }
  }

  lemma SmallItem(kind: byte, b: byte)
    ensures PutItems([Item(kind, [b])]) == [kind, 1, b]
  {
    ItemsLast([], Item(kind, [b]));
    assert [] + [Item(kind, [b])] == [Item(kind, [b])];
  }

  lemma SmallEntry(code: byte, index: nat, length: nat)
    requires index < 128 && length < 128
    ensures PutEntry([code], index, length) == [1, code, index, length]
  {
  }

  lemma SmallSections(first: Section, second: Section, items: seq<byte>, index: seq<byte>, more: seq<byte>)
    requires PutItems(first.items) == items && second.items == []
    requires PutEntry(first.code, 0, |first.items|) == index && PutEntry(second.code, |items|, 0) == more
    ensures Content([first] + [second]) == items && Entries([first] + [second]) == index + more
  {
    EntriesLast([], first);
    assert [] + [first] == [first];
    EntriesLast([first], second);
  }

  /** The layout of a file: version, count, entries of code, offset and item count, then the items. */
  lemma FileLayout(a: byte, b: byte, c: byte, kind: byte)
    ensures File([Section([a], [Item(kind, [b])])] + [Section([c], [])]) ==
            [0, 2] + [1, a, 0, 1] + [1, c, 3, 0] + [kind, 1, b]
  {
    SmallItem(kind, b);
    SmallEntry(a, 0, 1);
    SmallEntry(c, 3, 0);
    SmallSections(Section([a], [Item(kind, [b])]), Section([c], []), [kind, 1, b], [1, a, 0, 1], [1, c, 3, 0]);
  }

  // ---------- Reading back whole files ----------

  lemma TextFrom(data: seq<byte>, pos: nat, start: nat, t: Text)
    requires |t| < TWO_63 && GetUvarint(data, pos, 0) == Ok(Decoded(|t|, start))
    requires start + |t| <= |data| && data[start..start + |t|] == t
    ensures GetText(data, pos) == Ok(Decoded(t, start + |t|))
  {
  }

  lemma TextRoundTrip(data: seq<byte>, pos: nat, t: Text)
    requires |t| < TWO_63 && At(data, pos, PutText(t))
    ensures GetText(data, pos) == Ok(Decoded(t, pos + |PutText(t)|))
  {
    AtSplit(data, pos, PutUvarint(|t|), t);
    UvarintRoundTrip(data, pos, |t|);
    var start := pos + |PutUvarint(|t|)|;
    AtIsSlice(data, start, t);
    TextFrom(data, pos, start, t);
  }

  lemma ItemRoundTrip(data: seq<byte>, pos: nat, item: Item)
    requires |item.value| < TWO_63 && At(data, pos, PutItem(item))
    ensures GetItem(data, pos) == Ok(Decoded(item, pos + |PutItem(item)|))
  {
    assert PutItem(item)[1..] == PutText(item.value);
    TextRoundTrip(data, pos + 1, item.value);
  }

  lemma NextItemFrom(data: seq<byte>, pos: nat, items: seq<Item>, item: Item, next: nat)
    requires GetItem(data, pos) == Ok(Decoded(item, next))
    ensures NextItem(data, Decoded(items, pos)) == Ok(Decoded(items + [item], next))
  {
  }

  lemma ItemFits(data: seq<byte>, pos: nat, item: Item)
    requires |data| < TWO_63 && At(data, pos, PutItem(item))
    ensures |item.value| < TWO_63
  {
    AtFits(data, pos, PutItem(item));
  }

  lemma NextItemAt(data: seq<byte>, pos: nat, items: seq<Item>, item: Item)
    requires |data| < TWO_63 && At(data, pos, PutItem(item))
    ensures NextItem(data, Decoded(items, pos)) == Ok(Decoded(items + [item], pos + |PutItem(item)|))
  {
    ItemFits(data, pos, item);
    ItemRoundTrip(data, pos, item);
    NextItemFrom(data, pos, items, item, pos + |PutItem(item)|);
  }

  /** The last item can be split off as well as the first. */
  lemma {:induction false} OneMoreItem(
    data: seq<byte>, before: Decoded<seq<Item>>, n: nat, after: Decoded<seq<Item>>)
    requires GetItemsFrom(data, before, n) == Ok(after)
    ensures GetItemsFrom(data, before, n + 1) == NextItem(data, after)
    decreases n
  {
    if n > 0 { OneMoreItem(data, NextItem(data, before).value, n - 1, after); }
  }

  lemma ItemsLast(init: seq<Item>, item: Item)
    ensures PutItems(init + [item]) == PutItems(init) + PutItem(item)
  {
    assert (init + [item])[..|init|] == init;
  }

  lemma AtPrefix(data: seq<byte>, pos: nat, a: seq<byte>, b: seq<byte>)
    requires At(data, pos, a + b)
    ensures At(data, pos, a)
  {
    AtSplit(data, pos, a, b);
  }

  lemma OneMoreItemAt(data: seq<byte>, pos: nat, items: seq<Item>, next: nat, item: Item)
    requires |data| < TWO_63 && GetItems(data, pos, |items|) == Ok(Decoded(items, next))
    requires At(data, next, PutItem(item))
    ensures GetItems(data, pos, |items| + 1) == Ok(Decoded(items + [item], next + |PutItem(item)|))
  {
    NextItemAt(data, next, items, item);
    OneMoreItem(data, Decoded([], pos), |items|, Decoded(items, next));
  }

  lemma {:induction false} ItemsRoundTrip(data: seq<byte>, pos: nat, items: seq<Item>)
    requires |data| < TWO_63 && At(data, pos, PutItems(items))
    ensures GetItems(data, pos, |items|) == Ok(Decoded(items, pos + |PutItems(items)|))
  {
    if items != [] {
      var init, item := items[..|items| - 1], items[|items| - 1];
      assert items == init + [item];
      ItemsLast(init, item);
      AtSplit(data, pos, PutItems(init), PutItem(item));
      ItemsRoundTrip(data, pos, init);
      OneMoreItemAt(data, pos, init, pos + |PutItems(init)|, item);
    }
  }

  lemma {:induction false} ItemCount(items: seq<Item>)
    ensures |items| <= |PutItems(items)|
  {
    if items != [] { ItemCount(items[..|items| - 1]); }
  }

  lemma {:induction false} SectionCount(sections: seq<Section>)
    ensures |sections| <= |Entries(sections)|
  {
    if sections != [] { SectionCount(sections[..|sections| - 1]); }
  }

  ghost predicate DistinctCodes(sections: seq<Section>) {
    forall i, j :: 0 <= i < j < |sections| ==> sections[i].code != sections[j].code
  }

  function Codes(sections: seq<Section>): set<Text> {
    set section | section in sections :: section.code
  }

  /** The reader's maps list the sections' codes, each with its content offset and its item count. */
  ghost predicate Indexes(m: Metadata, sections: seq<Section>) {
    && m.index.Keys == m.length.Keys == Codes(sections)
    && forall i :: 0 <= i < |sections| ==> IndexesAt(m, sections, i)
  }

  ghost predicate IndexesAt(m: Metadata, sections: seq<Section>, i: nat)
    requires i < |sections|
  {
    var code := sections[i].code;
    && code in m.index && m.index[code] == |Content(sections[..i])|
    && code in m.length && m.length[code] == |sections[i].items|
  }

  lemma IndexesExtend(m: Metadata, m': Metadata, sections: seq<Section>, last: Section)
    requires Indexes(m, sections) && DistinctCodes(sections + [last])
    requires m'.index == m.index[last.code := |Content(sections)|]
    requires m'.length == m.length[last.code := |last.items|]
    ensures Indexes(m', sections + [last])
  {
    var all := sections + [last];
    assert Codes(all) == Codes(sections) + {last.code};
    forall i | 0 <= i < |all| ensures IndexesAt(m', all, i) {
      assert all[..i] == sections[..i];
      if i == |sections| {
        assert sections[..i] == sections;
      } else {
        assert IndexesAt(m, sections, i) && all[i].code != all[|sections|].code;
      }
    }
  }

  lemma NextEntryFrom(
    data: seq<byte>, before: Metadata, pos: nat, code: Text, afterCode: nat, index: nat, afterIndex: nat, length: nat,
    afterLength: nat)
    requires pos == before.start && index < TWO_63 && length < TWO_63
    requires GetText(data, pos) == Ok(Decoded(code, afterCode))
    requires GetUvarint(data, afterCode, 0) == Ok(Decoded(index, afterIndex))
    requires GetUvarint(data, afterIndex, 0) == Ok(Decoded(length, afterLength))
    ensures NextEntry(data, before) ==
            Ok(Metadata(before.index[code := index], before.length[code := length], afterLength))
  {
  }

  lemma GetOneMore(data: seq<byte>, before: Metadata, pos: nat, code: Text, index: nat, length: nat)
    requires |data| < TWO_63 && index < TWO_63 && length < TWO_63 && pos == before.start
    requires At(data, pos, PutEntry(code, index, length))
    ensures NextEntry(data, before) ==
            Ok(Metadata(before.index[code := index], before.length[code := length],
                        pos + |PutEntry(code, index, length)|))
  {
    EntryRoundTrip(data, pos, code, index, length);
    var afterCode := pos + |PutText(code)|;
    var afterIndex := afterCode + |PutUvarint(index)|;
    NextEntryFrom(data, before, pos, code, afterCode, index, afterIndex, length, pos + |PutEntry(code, index, length)|);
  }

  /** The last entry can be split off as well as the first. */
  lemma {:induction false} OneMoreEntry(data: seq<byte>, before: Metadata, n: nat, after: Metadata)
    requires GetEntriesFrom(data, before, n) == Ok(after)
    ensures GetEntriesFrom(data, before, n + 1) == NextEntry(data, after)
    decreases n
  {
    if n > 0 { OneMoreEntry(data, NextEntry(data, before).value, n - 1, after); }
  }

  lemma EntriesLast(init: seq<Section>, last: Section)
    ensures Entries(init + [last]) == Entries(init) + PutEntry(last.code, |Content(init)|, |last.items|)
    ensures Content(init + [last]) == Content(init) + PutItems(last.items)
  {
    assert (init + [last])[..|init|] == init;
  }

  /** The bytes of the last entry stand behind those of the others. */
  lemma EntryBehind(data: seq<byte>, pos: nat, init: seq<Section>, last: Section)
    requires |data| < TWO_63 && At(data, pos, Entries(init + [last])) && |Content(init + [last])| < TWO_63
    ensures |Content(init)| < TWO_63 && |last.items| < TWO_63
    ensures At(data, pos + |Entries(init)|, PutEntry(last.code, |Content(init)|, |last.items|))
    ensures |Entries(init + [last])| == |Entries(init)| + |PutEntry(last.code, |Content(init)|, |last.items|)|
  {
    EntriesLast(init, last);
    ItemCount(last.items);
    AtSplit(data, pos, Entries(init), PutEntry(last.code, |Content(init)|, |last.items|));
  }

  lemma EntryIndexed(data: seq<byte>, init: seq<Section>, last: Section, before: Metadata)
    requires |data| < TWO_63 && |Content(init)| < TWO_63 && |last.items| < TWO_63
    requires Indexes(before, init) && DistinctCodes(init + [last])
    requires At(data, before.start, PutEntry(last.code, |Content(init)|, |last.items|))
    ensures NextEntry(data, before).Ok? && Indexes(NextEntry(data, before).value, init + [last])
    ensures NextEntry(data, before).value.start == before.start + |PutEntry(last.code, |Content(init)|, |last.items|)|
  {
    GetOneMore(data, before, before.start, last.code, |Content(init)|, |last.items|);
    IndexesExtend(before, NextEntry(data, before).value, init, last);
  }

  /** The table of the sections has been read, up to the position behind it. */
  ghost predicate TableRead(data: seq<byte>, pos: nat, sections: seq<Section>) {
    var m := GetEntries(data, pos, |sections|);
    m.Ok? && Indexes(m.value, sections) && m.value.start == pos + |Entries(sections)|
  }

  lemma TableReadFrom(data: seq<byte>, pos: nat, sections: seq<Section>, m: Metadata)
    requires GetEntries(data, pos, |sections|) == Ok(m) && Indexes(m, sections) && m.start == pos + |Entries(sections)|
    ensures TableRead(data, pos, sections)
  {
  }

  lemma TableReadStep(data: seq<byte>, pos: nat, init: seq<Section>, last: Section)
    requires |data| < TWO_63 && DistinctCodes(init + [last]) && TableRead(data, pos, init)
    requires At(data, pos, Entries(init + [last])) && |Content(init + [last])| < TWO_63
    ensures TableRead(data, pos, init + [last])
  {
    var before := GetEntries(data, pos, |init|).value;
    EntryBehind(data, pos, init, last);
    EntryIndexed(data, init, last, before);
    OneMoreEntry(data, Metadata(map[], map[], pos), |init|, before);
    TableReadFrom(data, pos, init + [last], NextEntry(data, before).value);
  }

  lemma {:induction false} EntriesRoundTrip(data: seq<byte>, pos: nat, sections: seq<Section>)
    requires |data| < TWO_63 && DistinctCodes(sections)
    requires At(data, pos, Entries(sections)) && |Content(sections)| < TWO_63
    ensures TableRead(data, pos, sections)
  {
    if sections != [] {
      var init, last := sections[..|sections| - 1], sections[|sections| - 1];
      assert sections == init + [last];
      EntriesLast(init, last);
      AtPrefix(data, pos, Entries(init), PutEntry(last.code, |Content(init)|, |last.items|));
      EntriesRoundTrip(data, pos, init);
      TableReadStep(data, pos, init, last);
    }
  }

  lemma EntryRoundTrip(data: seq<byte>, pos: nat, code: Text, index: nat, length: nat)
    requires |data| < TWO_63 && index < TWO_63 && length < TWO_63 && At(data, pos, PutEntry(code, index, length))
    ensures var afterCode := pos + |PutText(code)|;
            var afterIndex := afterCode + |PutUvarint(index)|;
            && GetText(data, pos) == Ok(Decoded(code, afterCode))
            && GetUvarint(data, afterCode, 0) == Ok(Decoded(index, afterIndex))
            && GetUvarint(data, afterIndex, 0) == Ok(Decoded(length, pos + |PutEntry(code, index, length)|))
  {
    AtSplit(data, pos, PutText(code) + PutUvarint(index), PutUvarint(length));
    AtSplit(data, pos, PutText(code), PutUvarint(index));
    TextRoundTrip(data, pos, code);
    UvarintRoundTrip(data, pos + |PutText(code)|, index);
    UvarintRoundTrip(data, pos + |PutText(code)| + |PutUvarint(index)|, length);
  }

  /** Every section's items lie in the content at the offset recorded for it. */
  lemma {:induction false} ContentAtOffset(sections: seq<Section>, i: nat)
    requires i < |sections|
    ensures At(Content(sections), |Content(sections[..i])|, PutItems(sections[i].items))
  {
    var init, last := sections[..|sections| - 1], sections[|sections| - 1];
    assert sections == init + [last];
    EntriesLast(init, last);
    if i == |init| {
      AtEnd(Content(init), PutItems(last.items));
    } else {
      ContentAtOffset(init, i);
      assert init[..i] == sections[..i];
      AtLonger(Content(init), PutItems(last.items), |Content(init[..i])|, PutItems(init[i].items));
    }
  }

  lemma HeaderParts(data: seq<byte>, count: seq<byte>, entries: seq<byte>)
    requires At(data, 0, [0] + count + entries)
    ensures data != [] && data[0] == 0 && At(data, 1, count) && At(data, 1 + |count|, entries)
  {
    AtSplit(data, 0, [0] + count, entries);
    assert ([0] + count)[1..] == count;
  }

  lemma MetadataFrom(data: seq<byte>, n: nat, pos: nat)
    requires data != [] && data[0] == 0 && n < TWO_63 && GetUvarint(data, 1, 0) == Ok(Decoded(n, pos))
    ensures GetMetadata(data) == GetEntries(data, pos, n)
  {
  }

  lemma MetadataRoundTrip(sections: seq<Section>)
    requires DistinctCodes(sections) && |File(sections)| < TWO_63
    ensures GetMetadata(File(sections)).Ok?
    ensures Indexes(GetMetadata(File(sections)).value, sections)
    ensures GetMetadata(File(sections)).value.start == |Header(sections)|
  {
    var file, count := File(sections), PutUvarint(|sections|);
    AtStart(Header(sections), Content(sections));
    HeaderParts(file, count, Entries(sections));
    SectionCount(sections);
    UvarintRoundTrip(file, 1, |sections|);
    MetadataFrom(file, |sections|, 1 + |count|);
    EntriesRoundTrip(file, 1 + |count|, sections);
  }

  predicate ReadError(e: Error) {
    e == Eof || e == Overflow || e == MakePanic
  }

  lemma {:induction false} UvarintErrors(data: seq<byte>, pos: nat, i: nat)
    requires i <= 10
    ensures GetUvarint(data, pos, i).Err? ==> ReadError(GetUvarint(data, pos, i).error)
    decreases |data| - pos
  {
    if i < 10 && pos < |data| && data[pos] >= 128 { UvarintErrors(data, pos + 1, i + 1); }
  }

  lemma TextErrors(data: seq<byte>, pos: nat)
    ensures GetText(data, pos).Err? ==> ReadError(GetText(data, pos).error)
    ensures GetText(data, pos).Ok? ==>
              var length := GetUvarint(data, pos, 0);
              && length.Ok? && GetText(data, pos).value.next == length.value.next + length.value.value <= |data|
              && GetText(data, pos).value.value == data[length.value.next..GetText(data, pos).value.next]
  {
    UvarintErrors(data, pos, 0);
  }

  lemma {:induction false} EntriesErrors(data: seq<byte>, before: Metadata, n: nat)
    ensures GetEntriesFrom(data, before, n).Err? ==> ReadError(GetEntriesFrom(data, before, n).error)
    decreases n
  {
    if n > 0 {
      var code := GetText(data, before.start);
      TextErrors(data, before.start);
      if code.Ok? {
        var index := GetUvarint(data, code.value.next, 0);
        UvarintErrors(data, code.value.next, 0);
        if index.Ok? { UvarintErrors(data, index.value.next, 0); }
      }
      if NextEntry(data, before).Ok? { EntriesErrors(data, NextEntry(data, before).value, n - 1); }
    }
  }

  /** A file is refused for its version exactly if its first byte is not 0. */
  lemma VersionRefusedIff(data: seq<byte>)
    ensures GetMetadata(data) == Err(UnknownVersion) <==> data != [] && data[0] != 0
    ensures data == [] ==> GetMetadata(data) == Err(Eof)
  {
    if data != [] && data[0] == 0 {
      UvarintErrors(data, 1, 0);
      var count := GetUvarint(data, 1, 0);
      if count.Ok? { EntriesErrors(data, Metadata(map[], map[], count.value.next), count.value.value); }
    }
  }

  /** The metadata sends the lookup of the code to this position and this number of items. */
  ghost predicate Sends(m: Metadata, code: Text, pos: nat, n: nat) {
    code in m.index && code in m.length && m.index[code] == pos - m.start && m.length[code] == n && m.start <= pos
  }

  lemma LookupFrom(data: seq<byte>, m: Metadata, code: Text, pos: nat, n: nat)
    requires Sends(m, code, pos, n) && pos < TWO_63 && GetItems(data, pos, n).Ok?
    ensures Lookup(data, m, code) == Ok(GetItems(data, pos, n).value.value)
  {
  }

  lemma ItemsReadBack(data: seq<byte>, pos: nat, items: seq<Item>)
    requires |data| < TWO_63 && At(data, pos, PutItems(items))
    ensures pos < TWO_63 && GetItems(data, pos, |items|).Ok? && GetItems(data, pos, |items|).value.value == items
  {
    AtFits(data, pos, PutItems(items));
    ItemsRoundTrip(data, pos, items);
  }

  lemma LookupAt(data: seq<byte>, m: Metadata, code: Text, pos: nat, items: seq<Item>)
    requires |data| < TWO_63 && Sends(m, code, pos, |items|) && At(data, pos, PutItems(items))
    ensures Lookup(data, m, code) == Ok(items)
  {
    ItemsReadBack(data, pos, items);
    LookupFrom(data, m, code, pos, |items|);
  }

  lemma SectionAt(sections: seq<Section>, i: nat)
    requires i < |sections|
    ensures At(File(sections), |Header(sections)| + |Content(sections[..i])|, PutItems(sections[i].items))
  {
    ContentAtOffset(sections, i);
    AtExtend(Header(sections), Content(sections), [], |Content(sections[..i])|, PutItems(sections[i].items));
    assert Header(sections) + Content(sections) + [] == File(sections);
  }

  lemma SectionFound(sections: seq<Section>, i: nat, m: Metadata)
    requires |File(sections)| < TWO_63 && i < |sections| && Indexes(m, sections) && m.start == |Header(sections)|
    ensures Lookup(File(sections), m, sections[i].code) == Ok(sections[i].items)
  {
    assert IndexesAt(m, sections, i);
    SectionAt(sections, i);
    LookupAt(File(sections), m, sections[i].code, |Header(sections)| + |Content(sections[..i])|, sections[i].items);
  }

  type Domains = map<Text, seq<Item>>

  /** The sections list each code of the map once, with its items. */
  ghost predicate Lists(sections: seq<Section>, domains: Domains) {
    && DistinctCodes(sections)
    && (forall section :: section in sections ==> section.code in domains && domains[section.code] == section.items)
    && (forall code :: code in domains ==> Section(code, domains[code]) in sections)
  }

  /**
   The reader recovers the written map: its codes are exactly the map's keys, every code reads back as its
   own items, and nothing else reads at all. The only condition is that the file's size is an int64.
   */
  lemma FileRoundTrip(domains: Domains, sections: seq<Section>)
    requires Lists(sections, domains) && |File(sections)| < TWO_63
    ensures GetMetadata(File(sections)).Ok?
    ensures GetMetadata(File(sections)).value.index.Keys == domains.Keys
    ensures forall code :: Lookup(File(sections), GetMetadata(File(sections)).value, code) ==
              if code in domains then Ok(domains[code]) else Err(NoSuchCode)
  {
    MetadataRoundTrip(sections);
    var file, metadata := File(sections), GetMetadata(File(sections)).value;
    assert metadata.index.Keys == domains.Keys;
    forall code
      ensures Lookup(file, metadata, code) == if code in domains then Ok(domains[code]) else Err(NoSuchCode)
    {
      if code in domains {
        var i :| 0 <= i < |sections| && sections[i] == Section(code, domains[code]);
        SectionFound(sections, i, metadata);
      }
    }
  }

  // ---------- Files cut short ----------

  lemma {:induction false} AtTruncated(full: seq<byte>, pos: nat, bytes: seq<byte>, n: nat)
    requires At(full, pos, bytes) && pos + |bytes| <= n <= |full|
    ensures At(full[..n], pos, bytes)
    decreases |bytes|
  {
    if bytes != [] { AtTruncated(full, pos + 1, bytes[1..], n); }
  }

  lemma UvarintCut(full: seq<byte>, pos: nat, v: nat, n: nat)
    requires v < TWO_64 && At(full, pos, PutUvarint(v)) && pos <= n < pos + |PutUvarint(v)| && n <= |full|
    ensures GetUvarint(full[..n], pos, 0) == Err(Eof)
  {
    var bytes, data := PutUvarint(v), full[..n];
    UvarintRoundTrip(full, pos, v);
    PutUvarintMeaning(v);
    AtIsSlice(full, pos, bytes);
    forall j | pos <= j < n ensures data[j] >= 128 {
      assert data[j] == full[pos..pos + |bytes|][j - pos] == bytes[j - pos];
    }
    GetUvarintMeaning(data, pos, 0, n - pos);
  }

  lemma TextCut(full: seq<byte>, pos: nat, t: Text, n: nat)
    requires |t| < TWO_63 && At(full, pos, PutText(t)) && pos <= n < pos + |PutText(t)| && n <= |full|
    ensures GetText(full[..n], pos) == Err(Eof)
  {
    var size := PutUvarint(|t|);
    AtSplit(full, pos, size, t);
    if n < pos + |size| {
      UvarintCut(full, pos, |t|, n);
    } else {
      AtTruncated(full, pos, size, n);
      UvarintRoundTrip(full[..n], pos, |t|);
    }
  }

  lemma NextEntryStops(data: seq<byte>, before: Metadata, code: Text, afterCode: nat, index: nat, afterIndex: nat)
    requires
      || GetText(data, before.start) == Err(Eof)
      || (&& GetText(data, before.start) == Ok(Decoded(code, afterCode))
          && (|| GetUvarint(data, afterCode, 0) == Err(Eof)
              || (&& GetUvarint(data, afterCode, 0) == Ok(Decoded(index, afterIndex))
                  && GetUvarint(data, afterIndex, 0) == Err(Eof))))
    ensures NextEntry(data, before) == Err(Eof)
  {
  }

  lemma EntryParts(full: seq<byte>, pos: nat, code: Text, index: nat, length: nat)
    requires At(full, pos, PutEntry(code, index, length))
    ensures At(full, pos, PutText(code)) && At(full, pos + |PutText(code)|, PutUvarint(index))
    ensures At(full, pos + |PutText(code)| + |PutUvarint(index)|, PutUvarint(length))
    ensures |PutEntry(code, index, length)| == |PutText(code)| + |PutUvarint(index)| + |PutUvarint(length)|
  {
    AtSplit(full, pos, PutText(code) + PutUvarint(index), PutUvarint(length));
    AtSplit(full, pos, PutText(code), PutUvarint(index));
  }

  lemma TextKept(full: seq<byte>, pos: nat, t: Text, n: nat)
    requires |t| < TWO_63 && At(full, pos, PutText(t)) && pos + |PutText(t)| <= n <= |full|
    ensures GetText(full[..n], pos) == Ok(Decoded(t, pos + |PutText(t)|))
  {
    AtTruncated(full, pos, PutText(t), n);
    TextRoundTrip(full[..n], pos, t);
  }

  lemma NumbersStop(
    full: seq<byte>, data: seq<byte>, before: Metadata, code: Text, pos: nat, index: nat, next: nat, length: nat,
    n: nat)
    requires index < TWO_63 && length < TWO_63 && n <= |full| && data == full[..n]
    requires GetText(data, before.start) == Ok(Decoded(code, pos)) && next == pos + |PutUvarint(index)|
    requires At(full, pos, PutUvarint(index)) && At(full, next, PutUvarint(length))
    requires pos <= n < next + |PutUvarint(length)|
    ensures NextEntry(data, before) == Err(Eof)
  {
    NumbersCut(full, pos, index, length, n);
    NextEntryStops(data, before, code, pos, index, next);
  }

  lemma CodeStop(full: seq<byte>, before: Metadata, code: Text, n: nat)
    requires |code| < TWO_63 && At(full, before.start, PutText(code)) && n <= |full|
    requires before.start <= n < before.start + |PutText(code)|
    ensures NextEntry(full[..n], before) == Err(Eof)
  {
    TextCut(full, before.start, code, n);
  }

  lemma EntryCut(full: seq<byte>, before: Metadata, code: Text, index: nat, length: nat, n: nat)
    requires |code| < TWO_63 && index < TWO_63 && length < TWO_63
    requires At(full, before.start, PutEntry(code, index, length))
    requires before.start <= n < before.start + |PutEntry(code, index, length)| && n <= |full|
    ensures NextEntry(full[..n], before) == Err(Eof)
  {
    EntryParts(full, before.start, code, index, length);
    var pos := before.start + |PutText(code)|;
    if n < pos {
      CodeStop(full, before, code, n);
    } else {
      TextKept(full, before.start, code, n);
      NumbersStop(full, full[..n], before, code, pos, index, pos + |PutUvarint(index)|, length, n);
    }
  }

  lemma NumbersCut(full: seq<byte>, pos: nat, index: nat, length: nat, n: nat)
    requires index < TWO_63 && length < TWO_63 && At(full, pos, PutUvarint(index))
    requires At(full, pos + |PutUvarint(index)|, PutUvarint(length))
    requires pos <= n < pos + |PutUvarint(index)| + |PutUvarint(length)| && n <= |full|
    ensures var next := pos + |PutUvarint(index)|;
            || GetUvarint(full[..n], pos, 0) == Err(Eof)
            || (&& GetUvarint(full[..n], pos, 0) == Ok(Decoded(index, next))
                && GetUvarint(full[..n], next, 0) == Err(Eof))
  {
    var next := pos + |PutUvarint(index)|;
    if n < next {
      UvarintCut(full, pos, index, n);
    } else {
      AtTruncated(full, pos, PutUvarint(index), n);
      UvarintRoundTrip(full[..n], pos, index);
      UvarintCut(full, next, length, n);
    }
  }

  lemma {:induction false} ErrorStays(data: seq<byte>, before: Metadata, k: nat, n: nat)
    requires k <= n && GetEntriesFrom(data, before, k).Err?
    ensures GetEntriesFrom(data, before, n) == GetEntriesFrom(data, before, k)
    decreases k
  {
    if k > 0 && NextEntry(data, before).Ok? { ErrorStays(data, NextEntry(data, before).value, k - 1, n - 1); }
  }

  lemma CodeFits(full: seq<byte>, pos: nat, code: Text, index: nat, length: nat)
    requires |full| < TWO_63 && At(full, pos, PutEntry(code, index, length))
    ensures |code| < TWO_63
  {
    AtFits(full, pos, PutEntry(code, index, length));
  }

  lemma NextEntryCut(
    full: seq<byte>, start: Metadata, k: nat, before: Metadata, code: Text, index: nat, length: nat, n: nat)
    requires |full| < TWO_63 && index < TWO_63 && length < TWO_63 && n <= |full|
    requires At(full, before.start, PutEntry(code, index, length))
    requires before.start <= n < before.start + |PutEntry(code, index, length)|
    requires GetEntriesFrom(full[..n], start, k) == Ok(before)
    ensures GetEntriesFrom(full[..n], start, k + 1) == Err(Eof)
  {
    CodeFits(full, before.start, code, index, length);
    EntryCut(full, before, code, index, length, n);
    OneMoreEntry(full[..n], start, k, before);
  }

  lemma LastEntryCut(full: seq<byte>, pos: nat, init: seq<Section>, last: Section, before: Metadata, n: nat)
    requires |full| < TWO_63 && |Content(init + [last])| < TWO_63
    requires At(full, pos, Entries(init + [last])) && n <= |full| && before.start == pos + |Entries(init)|
    requires before.start <= n < before.start + |PutEntry(last.code, |Content(init)|, |last.items|)|
    requires GetEntries(full[..n], pos, |init|) == Ok(before)
    ensures GetEntries(full[..n], pos, |init| + 1) == Err(Eof)
  {
    var index, length := |Content(init)|, |last.items|;
    EntryBehind(full, pos, init, last);
    NextEntryCut(full, Metadata(map[], map[], pos), |init|, before, last.code, index, length, n);
  }

  lemma {:induction false} EntriesCut(full: seq<byte>, pos: nat, sections: seq<Section>, n: nat)
    requires |full| < TWO_63 && DistinctCodes(sections) && |Content(sections)| < TWO_63
    requires At(full, pos, Entries(sections)) && pos <= n < pos + |Entries(sections)| && n <= |full|
    ensures GetEntries(full[..n], pos, |sections|) == Err(Eof)
  {
    var init, last := sections[..|sections| - 1], sections[|sections| - 1];
    assert sections == init + [last];
    EntriesLast(init, last);
    AtPrefix(full, pos, Entries(init), PutEntry(last.code, |Content(init)|, |last.items|));
    if n < pos + |Entries(init)| {
      EntriesCut(full, pos, init, n);
      ErrorStays(full[..n], Metadata(map[], map[], pos), |init|, |sections|);
    } else {
      AtTruncated(full, pos, Entries(init), n);
      EntriesRoundTrip(full[..n], pos, init);
      LastEntryCut(full, pos, init, last, GetEntries(full[..n], pos, |init|).value, n);
    }
  }

  /** Wherever a written file is cut inside its table, opening it fails for want of data; it never reads amiss. */
  lemma HeaderCutIsEof(sections: seq<Section>, n: nat)
    requires DistinctCodes(sections) && |File(sections)| < TWO_63 && n < |Header(sections)|
    ensures GetMetadata(File(sections)[..n]) == Err(Eof)
  {
    var file, count := File(sections), PutUvarint(|sections|);
    var data := file[..n];
    if n > 0 {
      AtStart(Header(sections), Content(sections));
      HeaderParts(file, count, Entries(sections));
      SectionCount(sections);
      assert data[0] == 0;
      if n < 1 + |count| {
        UvarintCut(file, 1, |sections|, n);
      } else {
        AtTruncated(file, 1, count, n);
        UvarintRoundTrip(data, 1, |sections|);
        MetadataFrom(data, |sections|, 1 + |count|);
        EntriesCut(file, 1 + |count|, sections, n);
      }
    }
  }
}
