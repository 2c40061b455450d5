/** The parser and the printer as loops over a moving position and a growing text. */
module BencodeParser {
  import opened Common
  import opened Decimals
  import opened Bencode
  import opened BencodeRoundTrip
  import opened BencodeTheorems

  // ---------------------------------------------------------------- fields

  lemma {:induction false} DigitsOfAppend(s: string, c: char)
    ensures DigitsOf(s + [c]) == DigitsOf(s) + if IsDigit(c) then [c] else []
  {
    if s == [] {
      assert [c][1..] == [];
    } else {
      assert (s + [c])[1..] == s[1..] + [c];
      DigitsOfAppend(s[1..], c);
    }
  }

  lemma {:induction false} NumberTextAppend(raw: string, c: char)
    ensures NumberText(raw + [c]) == NumberText(raw) + if 'i' in raw && IsDigit(c) then [c] else []
  {
    if raw == [] {
      assert [c][1..] == [];
    } else {
      assert (raw + [c])[1..] == raw[1..] + [c];
      if raw[0] == 'i' {
        DigitsOfAppend(raw[1..], c);
      } else {
        NumberTextAppend(raw[1..], c);
      }
    }
  }

  /** What the inner loop of getField has at the stop character: its position, the text before it, the number
      collected, and whether it is one. */
  datatype Scanned = Scanned(stop: nat, lengthS: string, numberS: string, isNumber: bool)

  ghost predicate ScannedTo(file: string, pos: nat, s: Scanned) {
    && Scan(file, pos) == Some(s.stop)
    && s.lengthS == file[pos..s.stop]
    && s.numberS == NumberText(s.lengthS)
    && (s.isNumber <==> 'i' in s.lengthS || (file[s.stop] == 'e' && s.lengthS != []))
  }

  /** The inner loop of getField: up to the next stop character, collecting a length and a number. */
  method ScanText(file: string, pos: nat) returns (r: Option<Scanned>)
    ensures r.None? <==> Scan(file, pos).None?
    ensures r.Some? ==> ScannedTo(file, pos, r.value)
  {
    if pos >= |file| {
      return None;
    }
    var p := pos;
    var ch := file[p];
    var lengthS, numberS := "", "";
    var isNumber, isEnd := false, ch == 'e';
    NumberTextAppend([], ch);
    assert file[pos..pos] == [] && file[pos..pos + 1] == [] + [ch];
    while ch != 'd' && ch != 'l' && ch != ':' && !isEnd
      invariant pos <= p < |file| && ch == file[p]
      invariant lengthS == file[pos..p]
      invariant forall k :: pos <= k < p ==> !IsStop(file[k])
      invariant isEnd <==> ch == 'e'
      invariant isNumber <==> 'i' in lengthS || (isEnd && p > pos)
      invariant numberS == NumberText(lengthS + [ch])
      decreases |file| - p
    {
      if ch == 'i' {
        isNumber := true;
      }
      lengthS := lengthS + [ch];
      p := p + 1;
      if p >= |file| {
        assert Scan(file, pos).None?;
        return None;
      }
      ch := file[p];
      NumberTextAppend(lengthS, ch);
      if ch == 'e' {
        isEnd := true;
        isNumber := true;
      }
      if isNumber {
        if IsDigit(ch) {
          numberS := numberS + [ch];
        }
      }
    }
    ScanOver(file, pos, p);
    NumberTextAppend(lengthS, ch);
    assert NumberText(lengthS) + [] == NumberText(lengthS);
    return Some(Scanned(p, lengthS, numberS, isNumber));
  }

  /** One round of getField: the text up to the stop character, and what follows from it. */
  method ReadOne(file: string, pos: nat) returns (r: Option<Chunk>)
    ensures r == ReadChunk(file, pos)
  {
    hide NumberText, Atoi, Scan;
    var scanned := ScanText(file, pos);
    if scanned.None? {
      return None;
    }
    var Scanned(stop, lengthS, numberS, isNumber) := scanned.value;
    var ch, p := file[stop], stop;
    var mark := if ch == 'd' || ch == 'l' || ch == 'e' then Some(ch) else None;
    if ch == ':' {
      var reading := Atoi(lengthS);
      if reading.OutOfRange? {
        return None;
      }
      var length := if reading.Number? then reading.value else 0;
      p := p + 1;
      if length < 0 || p + length > |file| {
        return None;
      }
      assert length == 0 ==> file[p..p + length] == [];
      return Some(Chunk(Some(file[p..p + length]), p + length, mark));
    } else if isNumber {
      return Some(Chunk(Some(numberS), p + 1, mark));
    }
    return Some(Chunk(None, p, mark));
  }

  method ReadField(file: string, pos: nat) returns (r: Option<Field>)
    ensures r == GetField(file, pos)
  {
    var data: seq<string> := [];
    var p := pos;
    var field: Option<char> := None;
    var counter := 0;
    while counter < 2
      invariant 0 <= counter <= 2
      invariant counter == 0 ==> data == [] && p == pos && field == None
      invariant counter == 1 ==>
                  ReadChunk(file, pos).Some?
                  && var first := ReadChunk(file, pos).value;
                  data == Datum(first) && p == first.pos && field == first.mark
      invariant counter == 2 ==> GetField(file, pos) == Some(Field(data, p, field))
    {
      var chunk := ReadOne(file, p);
      if chunk.None? {
        return None;
      }
      if chunk.value.mark.Some? {
        field := chunk.value.mark;
      }
      data := data + Datum(chunk.value);
      p := chunk.value.pos;
      counter := counter + 1;
    }
    return Some(Field(data, p, field));
  }

  // ---------------------------------------------------------------- containers

  lemma JoinedTwice(a: seq<Entry>, b: seq<Entry>, rest: Option<Children>)
    ensures Joined(a, Joined(b, rest)) == Joined(a + b, rest)
    ensures Joined([], rest) == rest
  {
    if rest.Some? {
      assert a + (b + rest.value.entries) == (a + b) + rest.value.entries;
      assert [] + rest.value.entries == rest.value.entries;
    }
  }

  /** Parse: one loop for a dictionary, one for a list, each calling Parse for a child container. */
  method Parse(file: string, pos: nat) returns (r: Option<Parsed>)
    ensures r == ParseAt(file, pos)
    decreases |file| - pos, 1
  {
    if pos >= |file| {
      return None;
    }
    ParseUnfold(file, pos);
    if file[pos] == 'd' {
      r := ParseDictionary(file, pos + 1);
      return;
    } else if file[pos] == 'l' {
      var c := ParseList(file, pos + 1);
      return Wrapped(false, c);
    }
    return None;
  }

  /** One round of the dictionary loop. */
  method ReadEntry(file: string, position: nat) returns (r: Option<Entry>)
    requires position <= |file|
    ensures r == ParseEntry(file, position)
    decreases |file| - position, 2
  {
    hide GetField, ParseAt;
    var f := ReadField(file, position);
    if f.None? || f.value.data == [] {
      return None;
    }
    var field := f.value;
    if field.mark.None? || field.mark.value == 'e' {
      if |field.data| < 2 {
        return None;
      }
      return Some(Entry(field.data[0], position, field.pos, field.pos, Str(field.data[1])));
    }
    if !OpensContainer(file, field) {
      return None;
    }
    var inner := Parse(file, field.pos);
    if inner.None? {
      return None;
    }
    return Some(Entry(field.data[0], position, field.pos, inner.value.pos + 1, inner.value.node));
  }

  type Slot = (string, Kind)

  function SlotOf(e: Entry): Slot {
    (e.key, KindOf(e.node))
  }

  /** The maps hold what was stored last in each slot. */
  ghost predicate MapsHold(maps: map<Slot, Node>, entries: seq<Entry>) {
    forall k :: 0 <= k < |entries| ==>
      SlotOf(entries[k]) in maps && maps[SlotOf(entries[k])] == Stored(entries, entries[k])
  }

  lemma StoreOne(maps: map<Slot, Node>, entries: seq<Entry>, e: Entry)
    requires MapsHold(maps, entries)
    ensures MapsHold(maps[SlotOf(e) := e.node], entries + [e])
  {
    assert (entries + [e])[..|entries|] == entries;
  }

  /** The list of entries in order, and the maps that hold the children by kind and key. */
  method ParseDictionary(file: string, pos: nat) returns (r: Option<Parsed>)
    requires pos <= |file|
    ensures r == Wrapped(true, ParseEntries(file, pos))
    decreases |file| - pos, 3
  {
    hide ParseEntry, Stored, Merge;
    var entries: seq<Entry> := [];
    var maps: map<Slot, Node> := map[];
    var position := pos;
    var endOfList := false;
    JoinedTwice([], [], ParseEntries(file, pos));
    while !endOfList
      invariant pos <= position <= |file|
      invariant MapsHold(maps, entries)
      invariant if endOfList then ParseEntries(file, pos) == Some(Children(entries, position))
                else ParseEntries(file, pos) == Joined(entries, ParseEntries(file, position))
      decreases !endOfList, |file| - position
    {
      var read := ReadEntry(file, position);
      if read.None? || read.value.end >= |file| {
        return None;
      }
      var entry := read.value;
      EntriesUnfold(file, position, entry);
      JoinedTwice(entries, [entry], ParseEntries(file, entry.end));
      StoreOne(maps, entries, entry);
      entries := entries + [entry];
      maps := maps[SlotOf(entry) := entry.node];
      position := entry.end;
      endOfList := file[position] == 'e';
    }
    var found := seq(|entries|, k requires 0 <= k < |entries| && SlotOf(entries[k]) in maps =>
                                  entries[k].(node := maps[SlotOf(entries[k])]));
    FoundIsMerged(maps, entries, found);
    return Some(Parsed(Dict(found), position));
  }

  lemma FoundIsMerged(maps: map<Slot, Node>, entries: seq<Entry>, found: seq<Entry>)
    requires MapsHold(maps, entries) && |found| == |entries|
    requires forall k :: 0 <= k < |entries| ==> found[k] == entries[k].(node := maps[SlotOf(entries[k])])
    ensures found == Merge(entries)
  {}

  /** One round of the list loop. */
  method ReadItem(file: string, position: nat, nLists: nat, nDicts: nat) returns (r: Option<Item>)
    requires position <= |file|
    ensures r == ParseItem(file, position, nLists, nDicts)
    decreases |file| - position, 2
  {
    hide GetField, ParseAt;
    var f := ReadField(file, position);
    if f.None? {
      return None;
    }
    var field := f.value;
    if field.mark.None? {
      return Some(Item([], field.pos));
    } else if field.mark.value == 'e' {
      if field.data == [] {
        return None;
      }
      return Some(Item([Entry([], position, field.pos, field.pos, Str(field.data[0]))], field.pos));
    }
    if !OpensContainer(file, field) {
      return None;
    }
    var inner := Parse(file, field.pos);
    if inner.None? {
      return None;
    }
    var key := Itoa(if field.mark.value == 'l' then nLists else nDicts);
    return Some(Item([Entry(key, position, field.pos, inner.value.pos + 1, inner.value.node)], inner.value.pos + 1));
  }

  method ParseList(file: string, pos: nat) returns (r: Option<Children>)
    requires pos <= |file|
    ensures r == ParseItems(file, pos, 0, 0)
    decreases |file| - pos, 3
  {
    hide ParseItem;
    var items: seq<Entry> := [];
    var nLists: nat, nDicts: nat := 0, 0;
    var position := pos;
    var endOfList := false;
    JoinedTwice([], [], ParseItems(file, pos, 0, 0));
    while !endOfList
      invariant pos <= position <= |file|
      invariant if endOfList then ParseItems(file, pos, 0, 0) == Some(Children(items, position))
                else ParseItems(file, pos, 0, 0) == Joined(items, ParseItems(file, position, nLists, nDicts))
      decreases !endOfList, |file| - position
    {
      var read := ReadItem(file, position, nLists, nDicts);
      if read.None? || read.value.end >= |file| {
        return None;
      }
      var item := read.value;
      ItemsUnfold(file, position, nLists, nDicts, item);
      nLists, nDicts := nLists + CountLists(item.found), nDicts + CountDicts(item.found);
      JoinedTwice(items, item.found, ParseItems(file, item.end, nLists, nDicts));
      items := items + item.found;
      position := item.end;
      endOfList := file[position] == 'e';
    }
    return Some(Children(items, position));
  }

  /** The root: a text that opens with anything but 'd' gives an empty dictionary, a list at the root being
      read and dropped. */
  method UnmarshallFromArray(file: string) returns (r: Option<Node>)
    ensures file == [] ==> r.None?
    ensures file != [] && file[0] == 'd' ==>
              r == (match ParseAt(file, 0) case None => None case Some(p) => Some(p.node))
    ensures file != [] && file[0] == 'l' ==> r == if ParseAt(file, 0).None? then None else Some(Dict([]))
    ensures file != [] && file[0] != 'd' && file[0] != 'l' ==> r == Some(Dict([]))
  {
    if file == [] {
      return None;
    }
    var result := Parse(file, 0);
    if file[0] == 'd' || file[0] == 'l' {
      if result.None? {
        return None;
      }
      return Some(if file[0] == 'd' then result.value.node else Dict([]));
    }
    return Some(Dict([]));
  }

  // ---------------------------------------------------------------- printing

  lemma {:induction false} PrintEntriesAppend(entries: seq<Entry>, e: Entry)
    ensures PrintEntries(entries + [e]) == PrintEntries(entries) + PrintString(e.key) + PrintChild(e)
  {
    hide PrintString, PrintChild;
    if entries == [] {
      assert [e][1..] == [] && entries + [e] == [e];
    } else {
      assert (entries + [e])[1..] == entries[1..] + [e];
      PrintEntriesAppend(entries[1..], e);
    }
  }

  lemma {:induction false} PrintItemsAppend(items: seq<Entry>, e: Entry)
    ensures PrintItems(items + [e]) == PrintItems(items) + PrintItem(e)
  {
    hide PrintItem;
    if items == [] {
      assert [e][1..] == [] && items + [e] == [e];
    } else {
      assert (items + [e])[1..] == items[1..] + [e];
      PrintItemsAppend(items[1..], e);
    }
  }

  /** The children of one kind, as a parsed list keeps them. */
  function OfKind(items: seq<Entry>, kind: Kind): (r: seq<Entry>)
    ensures |r| <= |items|
  {
    if items == [] then []
    else (if KindOf(items[0].node) == kind then [items[0]] else []) + OfKind(items[1..], kind)
  }

  /** A child looked up among its kind is one of the children; at its own index if all are of that kind. */
  lemma {:induction false} OfKindIsChild(items: seq<Entry>, kind: Kind, k: nat) returns (j: nat)
    requires k < |OfKind(items, kind)|
    ensures j < |items| && OfKind(items, kind)[k] == items[j] && KindOf(items[j].node) == kind
    ensures (forall m :: 0 <= m < |items| ==> KindOf(items[m].node) == kind) ==> j == k
  {
    if KindOf(items[0].node) != kind {
      j := OfKindIsChild(items[1..], kind, k);
      j := j + 1;
    } else if k == 0 {
      j := 0;
    } else {
      assert OfKind(items, kind)[k] == OfKind(items[1..], kind)[k - 1];
      j := OfKindIsChild(items[1..], kind, k - 1);
      j := j + 1;
    }
  }

  lemma {:induction false} OfKindAll(items: seq<Entry>, kind: Kind)
    requires forall m :: 0 <= m < |items| ==> KindOf(items[m].node) == kind
    ensures |OfKind(items, kind)| == |items|
  {
    if items != [] {
      OfKindAll(items[1..], kind);
    }
  }

  lemma {:induction false} OfKindFewer(items: seq<Entry>, kind: Kind, m: nat)
    requires m < |items| && KindOf(items[m].node) != kind
    ensures |OfKind(items, kind)| < |items|
  {
    if m > 0 {
      OfKindFewer(items[1..], kind, m - 1);
    }
  }

  /** Every child of a list is found among its kind if all are of one kind; otherwise the last one is not. */
  lemma LookUp(items: seq<Entry>, k: nat)
    requires k < |items|
    ensures var own := OfKind(items, KindOf(items[k].node));
            && (OneKind(items) ==> |own| == |items| && own[k] == items[k])
            && (!OneKind(items) ==> |own| < |items|)
  {
    var kind := KindOf(items[k].node);
    if OneKind(items) {
      OfKindAll(items, kind);
      var j := OfKindIsChild(items, kind, k);
    } else {
      var m: nat :| m < |items| && KindOf(items[m].node) != kind;
      OfKindFewer(items, kind, m);
    }
  }

  /** ToBencode: the text grows child by child. A scalar is no container and prints as nothing. */
  method ToBencode(node: Node) returns (text: Option<string>)
    ensures text == Text(node)
    decreases node, 0
  {
    match node
    case Str(_) => text := Some("");
    case Dict(entries) => text := DictToBencode(entries);
    case List(items) => text := ListToBencode(items);
  }

  method DictToBencode(entries: seq<Entry>) returns (text: Option<string>)
    ensures text == Text(Dict(entries))
    decreases entries, 2
  {
    hide PrintString, PrintScalar;
    var containerS := "d";
    for k := 0 to |entries|
      invariant containerS == "d" + PrintEntries(entries[..k])
      invariant forall m :: 0 <= m < k ==> PrintsEntry(entries[m])
    {
      var info := entries[k];
      ghost var before := PrintEntries(entries[..k]);
      PrintEntriesAppend(entries[..k], info);
      assert entries[..k + 1] == entries[..k] + [info];
      containerS := containerS + PrintString(info.key);
      assert containerS == "d" + (before + PrintString(info.key));
      if info.node.Str? {
        containerS := containerS + PrintScalar(info.node.content);
      } else {
        var result := ToBencode(info.node);
        if result.None? {
          assert !PrintsEntry(entries[k]);
          return None;
        }
        containerS := containerS + result.value;
      }
      assert containerS == "d" + (before + PrintString(info.key) + PrintChild(info));
    }
    assert entries[..|entries|] == entries;
    return Some(containerS + "e");
  }

  /** Each child is looked up among the children of its kind, by its position among all. */
  method ListToBencode(items: seq<Entry>) returns (text: Option<string>)
    ensures text == Text(List(items))
    decreases items, 2
  {
    hide PrintString, OfKind, OneKind;
    var containerS := "l";
    for k := 0 to |items|
      invariant OneKind(items) ==>
                  containerS == "l" + PrintItems(items[..k]) && forall m :: 0 <= m < k ==> PrintsEntry(items[m])
      invariant k == |items| > 0 ==> OneKind(items)
    {
      var own := OfKind(items, KindOf(items[k].node));
      LookUp(items, k);
      if k >= |own| {
        return None;
      }
      ghost var j := OfKindIsChild(items, KindOf(items[k].node), k);
      var node := own[k].node;
      PrintItemsAppend(items[..k], items[k]);
      assert items[..k + 1] == items[..k] + [items[k]];
      ghost var before := PrintItems(items[..k]);
      if node.Str? {
        containerS := containerS + PrintString(node.content);
      } else {
        var result := ToBencode(node);
        if result.None? {
          assert OneKind(items) ==> !PrintsEntry(items[k]);
          return None;
        }
        containerS := containerS + result.value;
      }
      assert OneKind(items) ==> containerS == "l" + (before + PrintItem(items[k]));
    }
    assert items[..|items|] == items;
    if items == [] {
      NothingIsOneKind();
    }
    return Some(containerS + "e");
  }

  lemma NothingIsOneKind()
    ensures OneKind([])
  {}

  // ---------------------------------------------------------------- the info dictionary

  predicate IsInfo(e: Entry) {
    e.key == "info" && e.node.Dict?
  }

  /** The bytes that GetInfoHash hashes: the reprinted text between the recorded positions of "info". None is
      the panic of a missing entry, of the printer, or of positions beyond the text. */
  method InfoBytes(dict: Node) returns (r: Option<string>)
    requires dict.Dict?
    ensures (forall k :: 0 <= k < |dict.entries| ==> !(dict.entries[k].key == "info" && dict.entries[k].node.Dict?))
            ==> r.None?
    ensures forall k :: 0 <= k < |dict.entries| && dict.entries[k].key == "info" && dict.entries[k].node.Dict?
                        && (forall m :: k < m < |dict.entries| ==> !IsInfo(dict.entries[m]))
                        ==> r == InfoSlice(dict, k)
  {
    var k := |dict.entries| - 1;
    while k >= 0 && !IsInfo(dict.entries[k])
      invariant -1 <= k < |dict.entries|
      invariant forall m :: k < m < |dict.entries| ==> !IsInfo(dict.entries[m])
    {
      k := k - 1;
    }
    if k < 0 {
      return None;
    }
    var text := ToBencode(dict);
    var info := dict.entries[k];
    if text.None? || info.end > |text.value| || info.innerStart > info.end {
      return None;
    }
    return Some(text.value[info.innerStart..info.end]);
  }

  function InfoSlice(dict: Node, k: nat): Option<string>
    requires dict.Dict? && k < |dict.entries|
  {
    var text, info := Text(dict), dict.entries[k];
    if text.Some? && info.innerStart <= info.end <= |text.value| then Some(text.value[info.innerStart..info.end])
    else None
  }

  /** For the printed form of a supported container, what is hashed is exactly its info dictionary. */
  lemma InfoBytesAreInfo(node: Node, i: nat)
    requires node.Dict? && Short(node) && Holdable(node) && Prints(node) && Supported(node)
    requires i < |node.entries| && IsInfo(node.entries[i])
    ensures ParseAt(Print(node), 0).Some?
    ensures var dict := ParseAt(Print(node), 0).value.node;
            && dict.Dict? && i < |dict.entries| && IsInfo(dict.entries[i])
            && InfoSlice(dict, i) == Some(Print(node.entries[i].node))
  {
    var text := Print(node);
    assert text[0..|text|] == text;
    PrintableIff(node);
    ReprintIsText(node);
    ParseUndoesPrintIff(node);
    PositionsCutOutChild(text, 0, node, i);
    var dict := ParseAt(text, 0).value.node;
    DictContent(dict.entries, node.entries);
    assert SameContent(dict.entries[i].node, node.entries[i].node);
  }
}
