/** Bencoded text in characters: decimal numbers, single fields, and what the parser makes of any text, whether the
    printer wrote it or not. */
module BencodeTexts {
  import opened Common
  import opened Decimals
  import opened Bencode
  import opened BencodeRoundTrip
  import opened BencodeTheorems
  import opened BencodeParser

  // ---------------------------------------------------------------- numbers

  lemma {:induction false} ItoaLeads(n: nat)
    ensures n == 0 ==> Itoa(n) == "0"
    ensures n > 0 ==> Itoa(n)[0] != '0'
  {
    if n >= 10 {
      ItoaLeads(n / 10);
    }
  }

  lemma {:induction false} ValueIsPositive(s: string)
    requires s != [] && AllDigits(s) && s[0] != '0'
    ensures Value(s) > 0
  {
    if |s| > 1 {
      ValueIsPositive(s[..|s| - 1]);
    }
  }

  lemma LongerNumber(s: string)
    requires |s| > 1 && AllDigits(s) && Value(s[..|s| - 1]) > 0
    ensures Itoa(Value(s)) == Itoa(Value(s[..|s| - 1])) + [s[|s| - 1]]
  {
    var v, c := Value(s[..|s| - 1]), s[|s| - 1];
    assert Value(s) / 10 == v && Value(s) % 10 == (c - '0') as nat;
    assert Digit((c - '0') as nat) == c;
  }

  /** Printing undoes reading exactly for the numerals without a leading zero. */
  lemma {:induction false} ItoaOfValue(s: string)
    requires s != [] && forall k :: 0 <= k < |s| ==> '0' <= s[k] <= '9'
    ensures Itoa(Value(s)) == s <==> |s| == 1 || s[0] != '0'
  {
    var rest := s[..|s| - 1];
    assert s == rest + [s[|s| - 1]];
    if |s| == 1 {
      assert rest == "";
    } else if s[0] == '0' {
      ItoaLeads(Value(s));
      hide Itoa, Value;
    } else {
      ItoaOfValue(rest);
      ValueIsPositive(rest);
      LongerNumber(s);
      hide Itoa, Value;
    }
  }

  /** The last digit counts its place among the ten digits. */
  lemma ValueNext(s: string, k: nat)
    requires AllDigits(s) && k < 10
    ensures Value(s + ["0123456789"[k]]) == 10 * Value(s) + k
  {
    var c := "0123456789"[k];
    assert k in {0, 1, 2, 3, 4, 5, 6, 7, 8, 9};
    assert (s + [c])[..|s|] == s;
  }

  /** Atoi in full: an optional sign, then digits only, within 64 bits. */
  lemma AtoiCases(s: string)
    ensures var body := if s != [] && (s[0] == '+' || s[0] == '-') then s[1..] else s;
            if body == [] || exists k :: 0 <= k < |body| && !('0' <= body[k] <= '9') then Atoi(s) == BadSyntax
            else
              var n: int := Value(body);
              var v := if s[0] == '-' then -n else n;
              Atoi(s) == if -9223372036854775808 <= v <= 9223372036854775807 then Number(v) else OutOfRange
  {
    var body := Body(s);
    assert AllDigits(body) <==> forall k :: 0 <= k < |body| ==> '0' <= body[k] <= '9';
  }

  // ---------------------------------------------------------------- single fields

  /** The digits that follow the first 'i', whatever stands between them. */
  lemma {:induction false} NumberTextFrom(raw: string, k: nat)
    requires k < |raw| && raw[k] == 'i' && forall j :: 0 <= j < k ==> raw[j] != 'i'
    ensures NumberText(raw) == DigitsOf(raw[k + 1..])
  {
    if k > 0 {
      NumberTextFrom(raw[1..], k - 1);
      assert raw[1..][k..] == raw[k + 1..];
    }
  }

  lemma {:induction false} NoNumberText(raw: string)
    requires 'i' !in raw
    ensures NumberText(raw) == ""
  {
    if raw != [] {
      NoNumberText(raw[1..]);
    }
  }

  lemma {:induction false} DigitsOfAll(s: string, c: char)
    ensures DigitsOf("") == ""
    ensures DigitsOf(s + [c]) == DigitsOf(s) + if '0' <= c <= '9' then [c] else []
  {
    DigitsOfAppend(s, c);
  }

  /** One round of getField on any text, from the first stop character on: a length that is no number counts as 0,
      a negative one or one beyond the text panics; text that ends in 'e' or holds an 'i' is a number, and its mark
      may be a container's; otherwise nothing is read. */
  lemma ChunkCases(file: string, pos: nat, stop: nat)
    requires pos <= stop < |file|
    requires file[stop] == 'd' || file[stop] == 'l' || file[stop] == 'e' || file[stop] == ':'
    requires forall k :: pos <= k < stop ==> file[k] != 'd' && file[k] != 'l' && file[k] != 'e' && file[k] != ':'
    ensures var raw := file[pos..stop];
            var r := ReadChunk(file, pos);
            && (file[stop] == ':' ==>
                  && (Atoi(raw).OutOfRange? ==> r == None)
                  && (Atoi(raw).BadSyntax? ==> r == Some(Chunk(Some(""), stop + 1, None)))
                  && (Atoi(raw).Number? ==>
                        var n := Atoi(raw).value;
                        if n < 0 || stop + 1 + n > |file| then r == None
                        else r == Some(Chunk(Some(file[stop + 1..stop + 1 + n]), stop + 1 + n, None))))
            && (file[stop] != ':' && ('i' in raw || (file[stop] == 'e' && pos < stop)) ==>
                  r == Some(Chunk(Some(NumberText(raw)), stop + 1, Some(file[stop]))))
            && (file[stop] != ':' && 'i' !in raw && (file[stop] != 'e' || pos == stop) ==>
                  r == Some(Chunk(None, stop, Some(file[stop]))))
  {
    ScanOver(file, pos, stop);
    hide Scan, NumberText, Atoi;
  }

  /** Running off the text is a panic. */
  lemma NoStopPanics(file: string, pos: nat)
    requires forall k :: pos <= k < |file| ==> file[k] != 'd' && file[k] != 'l' && file[k] != 'e' && file[k] != ':'
    ensures ReadChunk(file, pos) == None
  {
    assert forall k :: pos <= k < |file| ==> !IsStop(file[k]);
  }

  /** Two numbers in a row in a list: the first is kept as a string and the second is lost. */
  lemma SecondNumberIsLost(file: string, pos: nat, s: string, t: string, nLists: nat, nDicts: nat)
    requires IsNumber(s) && IsNumber(t) && At(file, pos, ("i" + s + "e") + ("i" + t + "e"))
    ensures var end := pos + |s| + |t| + 4;
            ParseItem(file, pos, nLists, nDicts) == Some(Item([Entry("", pos, end, end, Str(Unsigned(s)))], end))
  {
    hide ReadChunk, At, Atoi, GetField;
    AtSplit(file, pos, "i" + s + "e", "i" + t + "e");
    ReadNumber(file, pos, s);
    var next := pos + |s| + 2;
    ReadNumber(file, next, t);
    TwoChunks(file, pos, Chunk(Some(Body(s)), next, Some('e')), Chunk(Some(Body(t)), next + |t| + 2, Some('e')),
              [Body(s), Body(t)]);
  }

  /** A number in a list that stands right before a container is lost. */
  lemma NumberBeforeContainerIsLost(file: string, pos: nat, s: string, nLists: nat, nDicts: nat)
    requires IsNumber(s) && At(file, pos, "i" + s + "e")
    requires var next := pos + |s| + 2; next < |file| && (file[next] == 'd' || file[next] == 'l')
    ensures var next := pos + |s| + 2;
            ParseItem(file, pos, nLists, nDicts)
            == match ParseAt(file, next)
               case None => None
               case Some(p) =>
                 Some(Item([Entry(Itoa(if file[next] == 'l' then nLists else nDicts), pos, next, p.pos + 1, p.node)],
                           p.pos + 1))
  {
    hide ReadChunk, At, Atoi, GetField, ParseAt;
    ReadNumber(file, pos, s);
    var next := pos + |s| + 2;
    ReadMark(file, next);
    TwoChunks(file, pos, Chunk(Some(Body(s)), next, Some('e')), Chunk(None, next, Some(file[next])), [Body(s)]);
  }

  // ---------------------------------------------------------------- children of any container

  lemma {:induction false} ClosesWithE(file: string, pos: nat)
    requires ParseAt(file, pos).Some?
    ensures var p := ParseAt(file, pos).value;
            && pos < |file| && (file[pos] == 'd' || file[pos] == 'l') && file[p.pos] == 'e'
            && (p.node.Dict? <==> file[pos] == 'd') && (p.node.List? <==> file[pos] == 'l')
  {
    ParseUnfold(file, pos);
    if file[pos] == 'd' {
      EntriesTile(file, pos + 1);
    } else {
      ItemsTile(file, pos + 1, 0, 0);
    }
  }

  /** Where a child of any dictionary lies: a scalar is taken in at once; a container opens at innerStart with the
      mark of its kind, closes right before end, and is what the parser reads there. */
  lemma EntryStands(file: string, pos: nat, e: Entry)
    requires ParseEntry(file, pos) == Some(e)
    ensures e.start == pos && pos < e.end <= |file| && e.start <= e.innerStart <= e.end
    ensures e.node.Str? ==> e.innerStart == e.end
    ensures !e.node.Str? ==>
              && ParseAt(file, e.innerStart) == Some(Parsed(e.node, e.end - 1))
              && file[e.innerStart] == (if e.node.Dict? then 'd' else 'l') && file[e.end - 1] == 'e'
  {
    hide ParseAt, GetField;
    var f := GetField(file, pos).value;
    if f.mark.Some? && f.mark.value != 'e' {
      ClosesWithE(file, f.pos);
    }
  }

  ghost predicate EntriesInOrder(file: string, pos: nat, c: Children) {
    && c.entries != [] && c.entries[0].start == pos && c.entries[|c.entries| - 1].end == c.pos
    && c.pos < |file| && file[c.pos] == 'e'
    && (forall k :: 0 <= k < |c.entries| - 1 ==> c.entries[k + 1].start == c.entries[k].end)
    && forall k :: 0 <= k < |c.entries| ==> ParseEntry(file, c.entries[k].start) == Some(c.entries[k])
  }

  /** The children of any dictionary lie end to end, from the opening mark to the closing one, and each is what the
      reader finds at its recorded start. */
  lemma {:induction false} EntriesTile(file: string, pos: nat)
    requires ParseEntries(file, pos).Some?
    ensures EntriesInOrder(file, pos, ParseEntries(file, pos).value)
    decreases |file| - pos
  {
    hide ParseEntries, ParseEntry;
    var e := EntriesBegin(file, pos);
    EntriesUnfold(file, pos, e);
    StartIsPosition(file, pos, e);
    if file[e.end] != 'e' {
      EntriesTile(file, e.end);
    }
  }

  lemma StartIsPosition(file: string, pos: nat, e: Entry)
    requires ParseEntry(file, pos) == Some(e)
    ensures e.start == pos
  {}

  function KeyInList(node: Node, nLists: nat, nDicts: nat): string {
    match node
    case Str(_) => ""
    case List(_) => Itoa(nLists)
    case Dict(_) => Itoa(nDicts)
  }

  /** Strings are kept without a key, the k-th list or dictionary under its own number. */
  ghost predicate NumberedItems(items: seq<Entry>, nLists: nat, nDicts: nat) {
    forall k :: 0 <= k < |items| ==>
      items[k].key == KeyInList(items[k].node, nLists + |OfKind(items[..k], ListKind)|,
                                nDicts + |OfKind(items[..k], DictKind)|)
  }

  lemma OfKindNext(found: seq<Entry>, rest: seq<Entry>, k: nat, kind: Kind)
    requires |found| == 1 && k <= |rest|
    ensures |OfKind((found + rest)[..k + 1], kind)|
            == One(KindOf(found[0].node) == kind) + |OfKind(rest[..k], kind)|
  {
    var all := (found + rest)[..k + 1];
    assert all[0] == found[0] && all[1..] == rest[..k];
  }

  lemma NumberedAppend(found: seq<Entry>, rest: seq<Entry>, nLists: nat, nDicts: nat)
    requires |found| <= 1 && NumberedItems(found, nLists, nDicts)
    requires NumberedItems(rest, nLists + CountLists(found), nDicts + CountDicts(found))
    ensures NumberedItems(found + rest, nLists, nDicts)
  {
    hide OfKind, KeyInList;
    var all := found + rest;
    if found == [] {
      assert all == rest;
    } else {
      forall k: nat | k < |all|
        ensures all[k].key == KeyInList(all[k].node, nLists + |OfKind(all[..k], ListKind)|,
                                        nDicts + |OfKind(all[..k], DictKind)|)
      {
        if k == 0 {
          assert all[..0] == found[..0] && all[0] == found[0];
        } else {
          OfKindNext(found, rest, k - 1, ListKind);
          OfKindNext(found, rest, k - 1, DictKind);
          assert all[k] == rest[k - 1];
        }
      }
    }
  }

  lemma {:induction false} ItemsTile(file: string, pos: nat, nLists: nat, nDicts: nat)
    requires ParseItems(file, pos, nLists, nDicts).Some?
    ensures var c := ParseItems(file, pos, nLists, nDicts).value;
            && c.pos < |file| && file[c.pos] == 'e' && NumberedItems(c.entries, nLists, nDicts)
    decreases |file| - pos
  {
    hide ParseItems, ParseItem, NumberedItems;
    var item := ItemsBegin(file, pos, nLists, nDicts);
    ItemsUnfold(file, pos, nLists, nDicts, item);
    ItemIsNumbered(file, pos, nLists, nDicts, item);
    if file[item.end] != 'e' {
      var nl, nd := nLists + CountLists(item.found), nDicts + CountDicts(item.found);
      ItemsTile(file, item.end, nl, nd);
      NumberedAppend(item.found, ParseItems(file, item.end, nl, nd).value.entries, nLists, nDicts);
    }
  }

  lemma ItemIsNumbered(file: string, pos: nat, nLists: nat, nDicts: nat, item: Item)
    requires ParseItem(file, pos, nLists, nDicts) == Some(item)
    ensures |item.found| <= 1 && NumberedItems(item.found, nLists, nDicts)
  {
    hide GetField, ParseAt, Itoa;
    assert item.found[..0] == [];
    var f := GetField(file, pos).value;
    if f.mark.Some? && f.mark.value != 'e' {
      KindByMark(file, f.pos);
    }
  }

  lemma KindByMark(file: string, pos: nat)
    requires ParseAt(file, pos).Some?
    ensures pos < |file| && (file[pos] == 'd' || file[pos] == 'l')
    ensures ParseAt(file, pos).value.node.Dict? <==> file[pos] == 'd'
    ensures ParseAt(file, pos).value.node.List? <==> file[pos] == 'l'
  {
    ParseUnfold(file, pos);
  }

  /** Of a dictionary's entries with one key and one kind, the last one's child is found under all of them. */
  lemma LastOneWins(entries: seq<Entry>, k: nat, last: nat)
    requires k <= last < |entries| && SameKeyAndKind(entries[k], entries[last])
    requires forall m :: last < m < |entries| ==> !SameKeyAndKind(entries[m], entries[last])
    ensures Merge(entries)[k] == entries[k].(node := entries[last].node)
  {
    StoredLast(entries, entries[k], last);
  }

  predicate SameKeyAndKind(a: Entry, b: Entry) {
    a.key == b.key && (a.node.Str? <==> b.node.Str?) && (a.node.Dict? <==> b.node.Dict?)
  }

  lemma {:induction false} StoredLast(entries: seq<Entry>, e: Entry, last: nat)
    requires last < |entries| && SameKeyAndKind(e, entries[last])
    requires forall m :: last < m < |entries| ==> !SameKeyAndKind(entries[m], entries[last])
    ensures Stored(entries, e) == entries[last].node
    decreases |entries|
  {
    if last < |entries| - 1 {
      StoredLast(entries[..|entries| - 1], e, last);
    }
  }

  /** A dictionary anywhere in any text: its entries lie end to end between its marks, each with the key and the
      positions that the reader finds at its start, and with the child of the last entry of its key and kind. */
  lemma AnyDictionary(file: string, pos: nat, k: nat, last: nat)
    requires ParseAt(file, pos).Some? && ParseAt(file, pos).value.node.Dict?
    requires var es := ParseAt(file, pos).value.node.entries;
             && k <= last < |es| && SameKeyAndKind(es[k], es[last])
             && forall m :: last < m < |es| ==> !SameKeyAndKind(es[m], es[last])
    ensures var p := ParseAt(file, pos).value;
            var es := p.node.entries;
            && file[pos] == 'd' && es[0].start == pos + 1 && es[|es| - 1].end == p.pos && file[p.pos] == 'e'
            && (forall m :: 0 <= m < |es| - 1 ==> es[m + 1].start == es[m].end)
            && ParseEntry(file, es[k].start).Some? && ParseEntry(file, es[last].start).Some?
            && es[k] == ParseEntry(file, es[k].start).value.(node := ParseEntry(file, es[last].start).value.node)
  {
    hide ParseEntries, ParseEntry;
    KindByMark(file, pos);
    ParseUnfold(file, pos);
    EntriesTile(file, pos + 1);
    var read := ParseEntries(file, pos + 1).value.entries;
    forall m | 0 <= m < |read|
      ensures KindOf(Merge(read)[m].node) == KindOf(read[m].node)
    {}
    LastOneWins(read, k, last);
    hide Merge, Stored;
    assert ParseEntry(file, read[k].start) == Some(read[k]) && ParseEntry(file, read[last].start) == Some(read[last]);
  }

  /** A list anywhere in any text: each of its lists and dictionaries has its number among its kind for a key. */
  lemma AnyList(file: string, pos: nat)
    requires ParseAt(file, pos).Some? && ParseAt(file, pos).value.node.List?
    ensures file[pos] == 'l' && file[ParseAt(file, pos).value.pos] == 'e'
    ensures NumberedItems(ParseAt(file, pos).value.node.items, 0, 0)
  {
    KindByMark(file, pos);
    ParseUnfold(file, pos);
    ItemsTile(file, pos + 1, 0, 0);
  }

  // ---------------------------------------------------------------- a whole text

  function Child(key: string, node: Node): Entry {
    Entry(key, 0, 0, 0, node)
  }

  const INFO: Node := Dict([Child("n", Str("7"))])
  const URLS: Node := List([Child("", Str("x"))])
  const TORRENT: Node := Dict([Child("info", INFO), Child("u", URLS)])

  lemma PrintTwo(a: Entry, b: Entry)
    ensures PrintEntries([a, b]) == PrintString(a.key) + PrintChild(a) + (PrintString(b.key) + PrintChild(b))
  {
    hide PrintString, PrintChild;
    assert [a, b][1..] == [b] && [b][1..] == [];
    assert PrintEntries([b]) == PrintString(b.key) + PrintChild(b) + "";
    assert PrintEntries([a, b]) == PrintString(a.key) + PrintChild(a) + PrintEntries([b]);
  }

  lemma PrintShort(s: string)
    requires |s| < 10
    ensures PrintString(s) == ["0123456789"[|s|]] + ":" + s
  {
    ItoaOfDigit(|s|);
  }

  lemma ItoaOfDigit(d: nat)
    requires d < 10
    ensures Itoa(d) == ["0123456789"[d]]
  {
    assert d in {0, 1, 2, 3, 4, 5, 6, 7, 8, 9};
  }

  lemma SevenIsNumber()
    ensures IsNumber("7") && Unsigned("7") == "7"
  {
    assert "7"[..0] == "";
  }

  lemma Words()
    ensures PrintString("n") == "1:n" && PrintString("u") == "1:u" && PrintString("x") == "1:x"
    ensures PrintString("info") == "4:info"
  {
    hide PrintString;
    PrintShort("n");
    PrintShort("u");
    PrintShort("x");
    PrintShort("info");
  }

  lemma InfoText()
    ensures Print(INFO) == "d1:ni7ee"
  {
    hide PrintString, IsNumber;
    SevenIsNumber();
    Words();
    assert INFO.entries[1..] == [];
  }

  lemma UrlText()
    ensures PrintChild(Child("u", URLS)) == "l1:xe"
  {
    hide PrintString;
    Words();
    assert [Child("", Str("x"))][1..] == [];
  }

  lemma TorrentParts()
    ensures Print(TORRENT)
            == "d" + (PrintString("info") + Print(INFO) + (PrintString("u") + PrintChild(Child("u", URLS)))) + "e"
  {
    hide PrintEntries, PrintString;
    PrintTwo(Child("info", INFO), Child("u", URLS));
  }

  /** A small torrent file, as the printer writes it. */
  lemma TorrentText()
    ensures Print(TORRENT) == "d4:infod1:ni7ee1:ul1:xee"
  {
    hide *;
    TorrentParts();
    InfoText();
    UrlText();
    Words();
    assert "1:u" + "l1:xe" == "1:ul1:xe";
    assert "4:info" + "d1:ni7ee" == "4:infod1:ni7ee";
  }

  lemma TorrentFits()
    ensures Short(TORRENT) && Holdable(TORRENT) && Prints(TORRENT) && Supported(TORRENT)
  {
    hide IsNumber, Unsigned;
    SevenIsNumber();
    assert SupportedEntry(INFO.entries[0]);
    assert SupportedEntry(TORRENT.entries[0]) && SupportedEntry(TORRENT.entries[1]);
  }

  /** What is hashed of that file when it is read back. */
  lemma TorrentInfo()
    ensures ParseAt("d4:infod1:ni7ee1:ul1:xee", 0).Some?
    ensures var dict := ParseAt("d4:infod1:ni7ee1:ul1:xee", 0).value.node;
            dict.Dict? && |dict.entries| > 0 && InfoSlice(dict, 0) == Some("d1:ni7ee")
  {
    assert IsInfo(TORRENT.entries[0]) && TORRENT.entries[0].node == INFO;
    hide *;
    TorrentText();
    InfoText();
    TorrentFits();
    InfoBytesAreInfo(TORRENT, 0);
  }
}
