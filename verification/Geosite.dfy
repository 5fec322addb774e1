/** The writer and the seeking, buffered reader of the geosite file. */
module Geosite {
  import opened Wrappers
  import opened GeositeFormat

  // ---------- Sorted codes ----------

  /** Go's string order: byte by byte. */
  predicate Less(a: Text, b: Text) {
    b != [] && (a == [] || a[0] < b[0] || (a[0] == b[0] && Less(a[1..], b[1..])))
  }

  lemma {:induction false} LessIsTotal(a: Text, b: Text)
    ensures a == b || Less(a, b) || Less(b, a)
    ensures Less(a, b) ==> a != b && !Less(b, a)
  {
    if a != [] && b != [] {
      LessIsTotal(a[1..], b[1..]);
      if a[0] == b[0] && a[1..] == b[1..] { assert a == [a[0]] + a[1..] && b == [b[0]] + b[1..]; }
    }
  }

  lemma {:induction false} LessIsTransitive(a: Text, b: Text, c: Text)
    requires Less(a, b) && Less(b, c)
    ensures Less(a, c)
  {
    if a != [] && a[0] == b[0] == c[0] { LessIsTransitive(a[1..], b[1..], c[1..]); }
  }

  ghost predicate Sorted(keys: seq<Text>) {
    forall i, j :: 0 <= i < j < |keys| ==> Less(keys[i], keys[j])
  }

  /** Between what is smaller and what is larger. */
  lemma InsertedSorted(before: seq<Text>, code: Text, after: seq<Text>)
    requires Sorted(before + after)
    requires forall k :: 0 <= k < |before| ==> Less(before[k], code)
    requires forall k :: 0 <= k < |after| ==> Less(code, after[k])
    ensures Sorted(before + [code] + after)
  {
    var all, keys := before + [code] + after, before + after;
    forall i, j | 0 <= i < j < |all| ensures Less(all[i], all[j]) {
      if i != |before| && j != |before| {
        var i', j' := if i < |before| then i else i - 1, if j < |before| then j else j - 1;
        assert all[i] == keys[i'] && all[j] == keys[j'];
      }
    }
  }

  lemma RestIsLarger(keys: seq<Text>, code: Text, i: nat)
    requires Sorted(keys) && code !in keys && i < |keys| && !Less(keys[i], code)
    ensures forall k :: i <= k < |keys| ==> Less(code, keys[k])
  {
    LessIsTotal(keys[i], code);
    assert keys[i] in keys;
    forall k | i < k < |keys| ensures Less(code, keys[k]) { LessIsTransitive(code, keys[i], keys[k]); }
  }

  method Insert(keys: seq<Text>, code: Text) returns (sorted: seq<Text>)
    requires Sorted(keys) && code !in keys
    ensures Sorted(sorted) && forall k :: k in sorted <==> k == code || k in keys
  {
    var i := 0;
    while i < |keys| && Less(keys[i], code)
      invariant i <= |keys| && forall k :: 0 <= k < i ==> Less(keys[k], code)
    {
      i := i + 1;
    }
    if i < |keys| { RestIsLarger(keys, code, i); }
    assert keys == keys[..i] + keys[i..];
    InsertedSorted(keys[..i], code, keys[i..]);
    sorted := keys[..i] + [code] + keys[i..];
  }

  /** The keys of the map, collected in any order and sorted. */
  method SortedKeys(domains: Domains) returns (keys: seq<Text>)
    ensures Sorted(keys) && forall code :: code in keys <==> code in domains
  {
    keys := [];
    var rest := domains.Keys;
    while rest != {}
      invariant Sorted(keys) && rest <= domains.Keys
      invariant forall code :: code in keys <==> code in domains && code !in rest
      decreases rest
    {
      var code :| code in rest;
      keys := Insert(keys, code);
      rest := rest - {code};
    }
  }

  function Sections(domains: Domains, keys: seq<Text>): (sections: seq<Section>)
    requires forall code :: code in keys ==> code in domains
    ensures |sections| == |keys|
  {
    seq(|keys|, i requires 0 <= i < |keys| => assert keys[i] in keys; Section(keys[i], domains[keys[i]]))
  }

  lemma SortedSectionsList(domains: Domains, keys: seq<Text>)
    requires Sorted(keys) && forall code :: code in keys <==> code in domains
    ensures Lists(Sections(domains, keys), domains)
  {
    var sections := Sections(domains, keys);
    forall i, j | 0 <= i < j < |sections| ensures sections[i].code != sections[j].code {
      LessIsTotal(keys[i], keys[j]);
    }
    forall code | code in domains ensures Section(code, domains[code]) in sections {
      var i :| 0 <= i < |keys| && keys[i] == code;
      assert sections[i] == Section(code, domains[code]);
    }
  }

  /** The output depends on the map alone: there is one sorted list of its keys. */
  lemma {:induction false} SortedIsUnique(a: seq<Text>, b: seq<Text>)
    requires Sorted(a) && Sorted(b) && forall code :: code in a <==> code in b
    ensures a == b
  {
    assert b != [] ==> b[0] in b;
    if a != [] {
      assert a[0] in a && a[0] in b && b[0] in a;
      SameFirst(a, b);
      forall code ensures code in a[1..] <==> code in b[1..] { TailMembers(a, code); TailMembers(b, code); }
      SortedIsUnique(a[1..], b[1..]);
      assert a == [a[0]] + a[1..] && b == [b[0]] + b[1..];
    }
  }

  lemma SameFirst(a: seq<Text>, b: seq<Text>)
    requires Sorted(a) && Sorted(b) && a != [] && b != [] && a[0] in b && b[0] in a
    ensures a[0] == b[0]
  {
    var i :| 0 <= i < |b| && b[i] == a[0];
    var j :| 0 <= j < |a| && a[j] == b[0];
    LessIsTotal(a[0], b[0]);
  }

  lemma TailMembers(a: seq<Text>, code: Text)
    requires Sorted(a) && a != []
    ensures code in a[1..] <==> code in a && code != a[0]
  {
    LessIsTotal(a[0], code);
    if code in a[1..] {
      var i :| 0 <= i < |a[1..]| && a[1..][i] == code;
      assert Less(a[0], a[i + 1]);
    }
  }

  // ---------- Writing ----------

  method WriteItems(content: seq<byte>, items: seq<Item>) returns (out: seq<byte>)
    ensures out == content + PutItems(items)
  {
    out := content;
    for i := 0 to |items|
      invariant out == content + PutItems(items[..i])
    {
      assert items[..i + 1][..i] == items[..i];
      out := out + [items[i].kind];
      out := out + PutText(items[i].value);
    }
    assert items[..|items|] == items;
  }

  method WriteContent(sections: seq<Section>) returns (content: seq<byte>, index: map<Text, nat>)
    requires DistinctCodes(sections)
    ensures content == Content(sections)
    ensures forall k :: 0 <= k < |sections| ==>
              sections[k].code in index && index[sections[k].code] == |Content(sections[..k])|
  {
    content, index := [], map[];
    for i := 0 to |sections|
      invariant content == Content(sections[..i])
      invariant forall k :: 0 <= k < i ==>
                  sections[k].code in index && index[sections[k].code] == |Content(sections[..k])|
    {
      assert sections[..i + 1][..i] == sections[..i];
      index := index[sections[i].code := |content|];
      content := WriteItems(content, sections[i].items);
    }
    assert sections[..|sections|] == sections;
  }

  method WriteEntry(start: seq<byte>, code: Text, index: nat, length: nat) returns (out: seq<byte>)
    ensures out == start + PutEntry(code, index, length)
  {
    out := start + PutText(code);
    out := out + PutUvarint(index);
    out := out + PutUvarint(length);
  }

  lemma EntriesGrow(start: seq<byte>, sections: seq<Section>, i: nat)
    requires i < |sections|
    ensures start + Entries(sections[..i + 1]) ==
            start + Entries(sections[..i]) + PutEntry(sections[i].code, |Content(sections[..i])|, |sections[i].items|)
  {
    EntriesLast(sections[..i], sections[i]);
    assert sections[..i + 1] == sections[..i] + [sections[i]];
  }

  method WriteEntries(start: seq<byte>, sections: seq<Section>, index: map<Text, nat>) returns (out: seq<byte>)
    requires forall k :: 0 <= k < |sections| ==>
               sections[k].code in index && index[sections[k].code] == |Content(sections[..k])|
    ensures out == start + Entries(sections)
  {
    out := start;
    for i := 0 to |sections|
      invariant out == start + Entries(sections[..i])
    {
      EntriesGrow(start, sections, i);
      out := WriteEntry(out, sections[i].code, index[sections[i].code], |sections[i].items|);
    }
    assert sections[..|sections|] == sections;
  }

  /** `Write`: the sections in sorted code order, header first. */
  method Write(domains: Domains) returns (file: seq<byte>, keys: seq<Text>)
    ensures Sorted(keys) && (forall code :: code in keys <==> code in domains)
    ensures file == File(Sections(domains, keys))
  {
    keys := SortedKeys(domains);
    var sections := Sections(domains, keys);
    SortedSectionsList(domains, keys);
    var content, index := WriteContent(sections);
    file := [0];
    file := file + PutUvarint(|sections|);
    file := WriteEntries(file, sections, index);
    file := file + content;
  }

  // ---------- Reading ----------

  /**
   A file behind a buffered reader: `fetched` is the file offset reached by the underlying reads, `consumed`
   the position handed to the decoder; the bytes between them are buffered.
   */
  class Reader {
    const data: seq<byte>
    var fetched: nat
    var consumed: nat
    var metadata: Metadata

    ghost predicate Valid()
      reads this
    {
      consumed <= fetched && (fetched <= |data| || consumed == fetched)
    }

    constructor (data: seq<byte>)
      ensures Valid() && this.data == data && consumed == 0
    {
      this.data := data;
      fetched, consumed, metadata := 0, 0, Metadata(map[], map[], 0);
    }

    method ReadByte() returns (r: Reading<byte>)
      requires Valid()
      modifies this
      ensures Valid() && metadata == old(metadata)
      ensures r.Ok? <==> old(consumed) < |data|
      ensures r.Ok? ==> r.value == data[old(consumed)] && consumed == old(consumed) + 1
      ensures r.Err? ==> r.error == Eof && consumed == old(consumed)
    {
      if consumed == fetched {
        if fetched >= |data| { return Err(Eof); }
        var n :| 1 <= n <= |data| - fetched; // the size of a read is up to the file
        fetched := fetched + n;
      }
      r := Ok(data[consumed]);
      consumed := consumed + 1;
    }

    method ReadUvarint() returns (r: Reading<nat>)
      requires Valid()
      modifies this
      ensures Valid() && metadata == old(metadata)
      ensures match GetUvarint(data, old(consumed), 0)
              case Ok(d) => r == Ok(d.value) && consumed == d.next
              case Err(e) => r == Err(e)
    {
      var x: nat, scale: nat := 0, 1;
      var i := 0;
      while i < 10
        invariant 0 <= i <= 10 && Valid() && metadata == old(metadata)
        invariant GetUvarint(data, old(consumed), 0) == Lift(GetUvarint(data, consumed, i), x, scale)
      {
        ghost var pos := consumed;
        var b := ReadByte();
        if b.Err? { return Err(b.error); }
        if b.value < 128 {
          if i == 9 && b.value > 1 { return Err(Overflow); }
          return Ok(x + scale * b.value);
        }
        LiftStep(data, pos, i, x, scale);
        x, scale := x + scale * (b.value - 128), scale * 128;
        i := i + 1;
      }
      return Err(Overflow);
    }

    method ReadText() returns (r: Reading<Text>)
      requires Valid()
      modifies this
      ensures Valid() && metadata == old(metadata)
      ensures match GetText(data, old(consumed))
              case Ok(d) => r == Ok(d.value) && consumed == d.next
              case Err(e) => r == Err(e)
    {
      var length := ReadUvarint();
      if length.Err? { return Err(length.error); }
      if length.value >= TWO_63 { return Err(MakePanic); }
      var text: Text := [];
      var start := consumed;
      while |text| < length.value
        invariant Valid() && metadata == old(metadata) && |text| <= length.value
        invariant consumed == start + |text| <= |data| && text == data[start..consumed]
      {
        var b := ReadByte();
        if b.Err? { return Err(b.error); }
        text := text + [b.value];
      }
      r := Ok(text);
    }

    /** `before` is what the table looks like so far. */
    method ReadEntry(ghost before: Metadata) returns (r: Reading<(Text, int, int)>)
      requires Valid() && before.start == consumed
      modifies this
      ensures Valid() && metadata == old(metadata)
      ensures NextEntry(data, before) ==
              if r.Err? then Err(r.error)
              else Ok(Metadata(before.index[r.value.0 := r.value.1], before.length[r.value.0 := r.value.2], consumed))
    {
      var code := ReadText();
      if code.Err? { return Err(code.error); }
      var codeIndex := ReadUvarint();
      if codeIndex.Err? { return Err(codeIndex.error); }
      var codeLength := ReadUvarint();
      if codeLength.Err? { return Err(codeLength.error); }
      r := Ok((code.value, ToInt64(codeIndex.value), ToInt64(codeLength.value)));
    }

    method ReadItem() returns (r: Reading<Item>)
      requires Valid()
      modifies this
      ensures Valid() && metadata == old(metadata)
      ensures match GetItem(data, old(consumed))
              case Ok(d) => r == Ok(d.value) && consumed == d.next
              case Err(e) => r == Err(e)
    {
      var kind := ReadByte();
      if kind.Err? { return Err(kind.error); }
      var value := ReadText();
      if value.Err? { return Err(value.error); }
      r := Ok(Item(kind.value, value.value));
    }

    method ReadEntries(count: nat) returns (r: Reading<Metadata>)
      requires Valid()
      modifies this
      ensures Valid() && metadata == old(metadata)
      ensures r == GetEntries(data, old(consumed), count)
    {
      ghost var start := consumed;
      var index: map<Text, int>, length: map<Text, int> := map[], map[];
      var i := 0;
      while i < count
        invariant Valid() && metadata == old(metadata) && i <= count
        invariant GetEntries(data, start, count) == GetEntriesFrom(data, Metadata(index, length, consumed), count - i)
      {
        ghost var before := Metadata(index, length, consumed);
        var entry := ReadEntry(before);
        if entry.Err? { return Err(entry.error); }
        var (code, codeIndex, codeLength) := entry.value;
        index, length := index[code := codeIndex], length[code := codeLength];
        assert NextEntry(data, before) == Ok(Metadata(index, length, consumed));
        i := i + 1;
      }
      // the content starts at the bytes fetched minus the bytes still buffered
      r := Ok(Metadata(index, length, fetched - (fetched - consumed)));
    }

    method ReadMetadata() returns (error: Reading<()>)
      requires Valid() && consumed == 0
      modifies this
      ensures Valid()
      ensures match GetMetadata(data)
              case Ok(m) => error.Ok? && metadata == m
              case Err(e) => error == Err(e) && metadata == old(metadata)
    {
      var version := ReadByte();
      if version.Err? { return Err(version.error); }
      if version.value != 0 { return Err(UnknownVersion); }
      var count := ReadUvarint();
      if count.Err? { return Err(count.error); }
      if count.value >= TWO_63 { return Err(MakePanic); }
      MetadataFrom(data, count.value, consumed);
      var entries := ReadEntries(count.value);
      if entries.Err? { return Err(entries.error); }
      metadata := entries.value;
      error := Ok(());
    }

    method ReadItems(n: nat) returns (r: Reading<seq<Item>>)
      requires Valid()
      modifies this
      ensures Valid() && metadata == old(metadata)
      ensures match GetItems(data, old(consumed), n)
              case Ok(d) => r == Ok(d.value)
              case Err(e) => r == Err(e)
    {
      ghost var start := consumed;
      var items: seq<Item> := [];
      while |items| < n
        invariant Valid() && metadata == old(metadata) && |items| <= n
        invariant GetItems(data, start, n) == GetItemsFrom(data, Decoded(items, consumed), n - |items|)
      {
        ghost var before := Decoded(items, consumed);
        var item := ReadItem();
        if item.Err? { return Err(item.error); }
        items := items + [item.value];
        assert NextItem(data, before) == Ok(Decoded(items, consumed));
      }
      r := Ok(items);
    }

    /** `Read`: whatever was read before, the answer is the lookup in the file. */
    method Read(code: Text) returns (r: Reading<seq<Item>>)
      requires Valid()
      modifies this
      ensures Valid() && metadata == old(metadata)
      ensures r == Lookup(data, metadata, code)
    {
      if code !in metadata.index { return Err(NoSuchCode); }
      var offset := ToInt64(metadata.start + metadata.index[code]);
      if offset < 0 { return Err(BadSeek); }
      fetched, consumed := offset, offset; // seek, and drop the buffer
      var n := if code in metadata.length then metadata.length[code] else 0;
      if n < 0 { return Err(MakePanic); }
      r := ReadItems(n);
    }
  }

  ghost function Lift(r: Reading<Decoded<nat>>, x: nat, scale: nat): Reading<Decoded<nat>> {
    match r
    case Ok(d) => Ok(Decoded(x + scale * d.value, d.next))
    case Err(e) => Err(e)
  }

  lemma LiftStep(data: seq<byte>, pos: nat, i: nat, x: nat, scale: nat)
    requires i < 10 && pos < |data| && data[pos] >= 128
    ensures Lift(GetUvarint(data, pos, i), x, scale) ==
            Lift(GetUvarint(data, pos + 1, i + 1), x + scale * (data[pos] - 128), scale * 128)
  {
    var r := GetUvarint(data, pos + 1, i + 1);
    if r.Ok? {
      var b, v := data[pos] - 128, r.value.value;
      assert scale * (b + 128 * v) == scale * b + (scale * 128) * v;
    }
  }

  method ReadAll(reader: Reader, queries: seq<Text>) returns (answers: seq<Reading<seq<Item>>>)
    requires reader.Valid()
    modifies reader
    ensures |answers| == |queries|
    ensures forall i :: 0 <= i < |queries| ==> answers[i] == Lookup(reader.data, old(reader.metadata), queries[i])
  {
    answers := [];
    for i := 0 to |queries|
      invariant reader.Valid() && reader.metadata == old(reader.metadata)
      invariant |answers| == i
      invariant forall k :: 0 <= k < i ==> answers[k] == Lookup(reader.data, reader.metadata, queries[k])
    {
      var answer := reader.Read(queries[i]);
      answers := answers + [answer];
    }
  }

  /** Write a map, open the result, and read any codes in any order, any number of times. */
  method WriteThenRead(domains: Domains, queries: seq<Text>)
    returns (file: seq<byte>, codes: set<Text>, answers: seq<Reading<seq<Item>>>)
    ensures |file| < TWO_63 ==> codes == domains.Keys && |answers| == |queries|
    ensures |file| < TWO_63 ==> forall i :: 0 <= i < |queries| ==>
              answers[i] == if queries[i] in domains then Ok(domains[queries[i]]) else Err(NoSuchCode)
  {
    var keys;
    file, keys := Write(domains);
    codes, answers := {}, [];
    if |file| < TWO_63 {
      SortedSectionsList(domains, keys);
      FileRoundTrip(domains, Sections(domains, keys));
      var reader := new Reader(file);
      var error := reader.ReadMetadata();
      codes := reader.metadata.index.Keys;
      answers := ReadAll(reader, queries);
    }
  }
}
