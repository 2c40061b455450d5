/** Reading back what the printer wrote. */
module BencodeRoundTrip {
  import opened Common
  import opened Decimals
  import opened Bencode

  // ---------------------------------------------------------------- text at a position

  predicate At(file: string, pos: nat, text: string) {
    pos + |text| <= |file| && file[pos..pos + |text|] == text
  }

  lemma AtSplit(file: string, pos: nat, a: string, b: string)
    requires At(file, pos, a + b)
    ensures At(file, pos, a) && At(file, pos + |a|, b)
  {
    assert file[pos..pos + |a + b|][..|a|] == file[pos..pos + |a|];
    assert file[pos..pos + |a + b|][|a|..] == file[pos + |a|..pos + |a| + |b|];
  }

  lemma AtChar(file: string, pos: nat, text: string, k: nat)
    requires At(file, pos, text) && k < |text|
    ensures file[pos + k] == text[k]
  {
    assert file[pos..pos + |text|][k] == file[pos + k];
  }

  // ---------------------------------------------------------------- one chunk

  /** Scanning text without a stop character ends at the stop that follows it. */
  lemma {:induction false} ScanOver(file: string, pos: nat, stop: nat)
    requires pos <= stop < |file| && IsStop(file[stop])
    requires forall k :: pos <= k < stop ==> !IsStop(file[k])
    ensures Scan(file, pos) == Some(stop)
  {}

  lemma LengthPrefix(n: nat)
    ensures Atoi(Itoa(n)) == if n < LIMIT then Number(n) else OutOfRange
  {
    var len := Itoa(n);
    assert IsDigit(len[0]);
    assert Body(len) == len;
    ValueOfItoa(n);
  }

  lemma ColonAfterDigits(file: string, pos: nat, len: string)
    requires AllDigits(len) && At(file, pos, len) && pos + |len| < |file| && file[pos + |len|] == ':'
    ensures Scan(file, pos) == Some(pos + |len|)
  {
    forall k | pos <= k < pos + |len|
      ensures !IsStop(file[k])
    {
      AtChar(file, pos, len, k - pos);
      assert IsDigit(len[k - pos]);
    }
    ScanOver(file, pos, pos + |len|);
  }

  lemma ReadString(file: string, pos: nat, s: string)
    requires At(file, pos, PrintString(s))
    ensures ReadChunk(file, pos) == if |s| < LIMIT then Some(Chunk(Some(s), pos + |PrintString(s)|, None)) else None
  {
    hide Itoa, Scan, Atoi;
    var len := Itoa(|s|);
    var stop := pos + |len|;
    assert PrintString(s) == len + (":" + s);
    AtSplit(file, pos, len, ":" + s);
    AtSplit(file, stop, ":", s);
    AtChar(file, stop, ":", 0);
    ColonAfterDigits(file, pos, len);
    LengthPrefix(|s|);
    assert file[pos..stop] == len;
  }

  /** The text of a number is scanned up to its 'e'. */
  lemma NumberScanned(file: string, pos: nat, s: string)
    requires IsNumber(s) && At(file, pos, "i" + s + "e")
    ensures var stop := pos + |s| + 1;
            stop < |file| && Scan(file, pos) == Some(stop) && file[stop] == 'e' && file[pos..stop] == "i" + s
  {
    hide Atoi, Scan;
    assert "i" + s + "e" == ("i" + s) + "e";
    AtSplit(file, pos, "i" + s, "e");
    var stop := pos + |s| + 1;
    AtChar(file, stop, "e", 0);
    forall k | pos <= k < stop
      ensures !IsStop(file[k])
    {
      AtChar(file, pos, "i" + s, k - pos);
      if k > pos {
        assert ("i" + s)[k - pos] == s[k - pos - 1];
        NumberChars(s, k - pos - 1);
      }
    }
    ScanOver(file, pos, stop);
  }

  lemma ReadNumber(file: string, pos: nat, s: string)
    requires IsNumber(s) && At(file, pos, "i" + s + "e")
    ensures ReadChunk(file, pos) == Some(Chunk(Some(Body(s)), pos + |s| + 2, Some('e')))
  {
    hide At, Atoi, Scan;
    NumberScanned(file, pos, s);
    var raw := "i" + s;
    assert raw[0] == 'i' && raw[1..] == s;
    DigitsOfNumber(s);
  }

  lemma NumberChars(s: string, k: nat)
    requires IsNumber(s) && k < |s|
    ensures IsDigit(s[k]) || IsSign(s[k])
  {
    if k > 0 || !IsSign(s[0]) {
      assert s[k] == Body(s)[if IsSign(s[0]) then k - 1 else k];
    }
  }

  /** In front of a container or an end mark nothing is read. */
  lemma ReadMark(file: string, pos: nat)
    requires pos < |file| && IsStop(file[pos]) && file[pos] != ':'
    ensures ReadChunk(file, pos) == Some(Chunk(None, pos, Some(file[pos])))
  {
    ScanOver(file, pos, pos);
    assert file[pos..pos] == [];
  }

  // ---------------------------------------------------------------- what a printed container reads as

  /** The sign of a number is lost. */
  function Unsigned(s: string): string {
    if IsNumber(s) then Body(s) else s
  }

  /** What the printer gets through, with strings of a length that fits 64 bits, as the maps can hold it. */
  ghost predicate Printable(node: Node)
    decreases node, 0
  {
    match node
    case Str(s) => |s| < LIMIT
    case Dict(entries) =>
      && Keyed(entries)
      && forall k :: 0 <= k < |entries| ==> |entries[k].key| < LIMIT && PrintableEntry(entries[k])
    case List(items) =>
      OneKind(items) && forall k :: 0 <= k < |items| ==> PrintableEntry(items[k])
  }

  ghost predicate PrintableEntry(e: Entry)
    decreases e, 1
  {
    Printable(e.node)
  }

  /** Strings and keys of a length that a machine word can hold. */
  predicate Short(node: Node)
    decreases node, 0
  {
    match node
    case Str(s) => |s| < LIMIT
    case Dict(entries) => forall k :: 0 <= k < |entries| ==> |entries[k].key| < LIMIT && ShortEntry(entries[k])
    case List(items) => forall k :: 0 <= k < |items| ==> ShortEntry(items[k])
  }

  predicate ShortEntry(e: Entry)
    decreases e, 1
  {
    Short(e.node)
  }

  /** In every dictionary, entries of one kind and key have the same child: what maps can hold. */
  ghost predicate Holdable(node: Node)
    decreases node, 0
  {
    match node
    case Str(_) => true
    case Dict(entries) => Keyed(entries) && forall k :: 0 <= k < |entries| ==> HoldableEntry(entries[k])
    case List(items) => forall k :: 0 <= k < |items| ==> HoldableEntry(items[k])
  }

  ghost predicate HoldableEntry(e: Entry)
    decreases e, 1
  {
    Holdable(e.node)
  }

  lemma {:induction false} PrintableIff(node: Node)
    ensures Printable(node) <==> Prints(node) && Short(node) && Holdable(node)
    decreases node
  {
    match node
    case Str(_) =>
    case Dict(entries) =>
      forall k | 0 <= k < |entries|
        ensures PrintableEntry(entries[k])
                <==> PrintsEntry(entries[k]) && ShortEntry(entries[k]) && HoldableEntry(entries[k])
      {
        PrintableIff(entries[k].node);
      }
    case List(items) =>
      forall k | 0 <= k < |items|
        ensures PrintableEntry(items[k]) <==> PrintsEntry(items[k]) && ShortEntry(items[k]) && HoldableEntry(items[k])
      {
        PrintableIff(items[k].node);
      }
  }

  function Reread(node: Node, pos: nat): (r: Option<Node>)
    requires !node.Str?
    ensures r.Some? ==> (r.value.Dict? <==> node.Dict?) && (r.value.List? <==> node.List?)
    decreases node, 0
  {
    match node
    case Dict(entries) =>
      if entries == [] then None
      else
        (match RereadEntries(entries, pos + 1)
         case None => None
         case Some(es) => Some(Dict(Merge(es))))
    case List(items) =>
      if items == [] then None
      else if AllStrings(items) then Some(List(RereadStrings(items, pos + 1)))
      else
        (match RereadContainers(items, pos + 1, 0)
         case None => None
         case Some(es) => Some(List(es)))
  }

  function RereadChild(e: Entry, key: string, start: nat, at: nat): (r: Option<Entry>)
    ensures r.Some? ==> r.value.end == at + |PrintChild(e)|
    ensures r.Some? ==> (r.value.node.Dict? <==> e.node.Dict?) && (r.value.node.List? <==> e.node.List?)
    decreases e, 1
  {
    if e.node.Str? then
      var end := at + |PrintScalar(e.node.content)|;
      Some(Entry(key, start, end, end, Str(Unsigned(e.node.content))))
    else
      match Reread(e.node, at)
      case None => None
      case Some(n) => Some(Entry(key, start, at, at + |Print(e.node)|, n))
  }

  function RereadEntries(entries: seq<Entry>, pos: nat): Option<seq<Entry>>
    decreases entries, 2
  {
    if entries == [] then Some([])
    else
      match RereadChild(entries[0], entries[0].key, pos, pos + |PrintString(entries[0].key)|)
      case None => None
      case Some(e) =>
        match RereadEntries(entries[1..], e.end)
        case None => None
        case Some(rest) => Some([e] + rest)
  }

  /** Strings are read in pairs and dropped; only an odd last one is kept. */
  function RereadStrings(items: seq<Entry>, pos: nat): seq<Entry>
    requires AllStrings(items)
  {
    if |items| == 0 then []
    else
      var next := pos + |PrintItem(items[0])|;
      if |items| == 1 then [Entry([], pos, next, next, items[0].node)]
      else RereadStrings(items[2..], next + |PrintItem(items[1])|)
  }

  /** Dictionaries or lists, numbered from k on. */
  function RereadContainers(items: seq<Entry>, pos: nat, k: nat): Option<seq<Entry>>
    decreases items, 2
  {
    if items == [] then Some([])
    else if items[0].node.Str? then None
    else
      match RereadChild(items[0], Itoa(k), pos, pos)
      case None => None
      case Some(e) =>
        match RereadContainers(items[1..], e.end, k + 1)
        case None => None
        case Some(rest) => Some([e] + rest)
  }

  // ---------------------------------------------------------------- the printer undone

  lemma PrintOpens(node: Node)
    requires !node.Str?
    ensures |Print(node)| >= 2 && Print(node)[0] == if node.Dict? then 'd' else 'l'
  {}

  lemma TwoChunks(file: string, pos: nat, first: Chunk, second: Chunk, data: seq<string>)
    requires ReadChunk(file, pos) == Some(first) && ReadChunk(file, first.pos) == Some(second)
    requires data == Datum(first) + Datum(second)
    ensures GetField(file, pos)
            == Some(Field(data, second.pos, if second.mark.Some? then second.mark else first.mark))
  {}

  function ScalarMark(s: string): Option<char> {
    if IsNumber(s) then Some('e') else None
  }

  lemma ReadScalar(file: string, pos: nat, s: string)
    requires At(file, pos, PrintScalar(s)) && |s| < LIMIT
    ensures ReadChunk(file, pos) == Some(Chunk(Some(Unsigned(s)), pos + |PrintScalar(s)|, ScalarMark(s)))
  {
    hide ReadChunk, Atoi, At, Itoa;
    if IsNumber(s) {
      ReadNumber(file, pos, s);
    } else {
      ReadString(file, pos, s);
    }
  }

  lemma FieldOfScalar(file: string, pos: nat, key: string, s: string)
    requires At(file, pos, PrintString(key) + PrintScalar(s)) && |key| < LIMIT && |s| < LIMIT
    ensures GetField(file, pos)
            == Some(Field([key, Unsigned(s)], pos + |PrintString(key)| + |PrintScalar(s)|, ScalarMark(s)))
  {
    hide ReadChunk, PrintString, PrintScalar, Unsigned, Scan;
    var next := pos + |PrintString(key)|;
    AtSplit(file, pos, PrintString(key), PrintScalar(s));
    ReadString(file, pos, key);
    ReadScalar(file, next, s);
    TwoChunks(file, pos, Chunk(Some(key), next, None),
              Chunk(Some(Unsigned(s)), next + |PrintScalar(s)|, ScalarMark(s)), [key, Unsigned(s)]);
  }

  lemma FieldOfContainer(file: string, pos: nat, key: string, node: Node)
    requires At(file, pos, PrintString(key) + Print(node)) && |key| < LIMIT && !node.Str?
    ensures GetField(file, pos)
            == Some(Field([key], pos + |PrintString(key)|, Some(if node.Dict? then 'd' else 'l')))
    ensures OpensContainer(file, GetField(file, pos).value)
    ensures At(file, pos + |PrintString(key)|, Print(node))
  {
    var next := pos + |PrintString(key)|;
    AtSplit(file, pos, PrintString(key), Print(node));
    ReadString(file, pos, key);
    PrintOpens(node);
    AtChar(file, next, Print(node), 0);
    ReadMark(file, next);
    TwoChunks(file, pos, Chunk(Some(key), next, None), Chunk(None, next, Some(file[next])), [key]);
  }

  lemma FieldOfItem(file: string, pos: nat, node: Node)
    requires At(file, pos, Print(node)) && !node.Str?
    ensures GetField(file, pos) == Some(Field([], pos, Some(if node.Dict? then 'd' else 'l')))
    ensures OpensContainer(file, GetField(file, pos).value)
  {
    PrintOpens(node);
    AtChar(file, pos, Print(node), 0);
    ReadMark(file, pos);
  }

  /** The opening mark, the children and the end mark of a printed container. */
  lemma AtContainer(file: string, pos: nat, open: string, body: string)
    requires |open| == 1 && At(file, pos, open + body + "e")
    ensures file[pos] == open[0] && At(file, pos + 1, body)
    ensures pos + 1 + |body| < |file| && file[pos + 1 + |body|] == 'e'
  {
    AtSplit(file, pos, open + body, "e");
    AtSplit(file, pos, open, body);
    AtChar(file, pos, open, 0);
    AtChar(file, pos + 1 + |body|, "e", 0);
  }

  // One unfolding of each reader, told apart by what its parts return.

  function Joined(first: seq<Entry>, rest: Option<Children>): Option<Children> {
    match rest
    case None => None
    case Some(c) => Some(Children(first + c.entries, c.pos))
  }

  lemma EntriesUnfold(file: string, pos: nat, e: Entry)
    requires ParseEntry(file, pos) == Some(e) && e.end < |file|
    ensures ParseEntries(file, pos)
            == if file[e.end] == 'e' then Some(Children([e], e.end)) else Joined([e], ParseEntries(file, e.end))
  {}

  lemma ItemsUnfold(file: string, pos: nat, nLists: nat, nDicts: nat, item: Item)
    requires ParseItem(file, pos, nLists, nDicts) == Some(item) && item.end < |file|
    ensures ParseItems(file, pos, nLists, nDicts)
            == if file[item.end] == 'e' then Some(Children(item.found, item.end))
               else Joined(item.found, ParseItems(file, item.end, nLists + CountLists(item.found),
                                                  nDicts + CountDicts(item.found)))
  {}

  lemma NoChildren(file: string, pos: nat)
    requires pos < |file| && file[pos] == 'e'
    ensures ParseEntries(file, pos).None? && ParseItems(file, pos, 0, 0).None?
  {
    ReadMark(file, pos);
    TwoChunks(file, pos, Chunk(None, pos, Some('e')), Chunk(None, pos, Some('e')), []);
  }

  function Wrapped(dict: bool, c: Option<Children>): Option<Parsed> {
    match c
    case None => None
    case Some(c) => Some(Parsed(if dict then Dict(Merge(c.entries)) else List(c.entries), c.pos))
  }

  lemma ParseUnfold(file: string, pos: nat)
    requires pos < |file|
    ensures file[pos] == 'd' ==> ParseAt(file, pos) == Wrapped(true, ParseEntries(file, pos + 1))
    ensures file[pos] == 'l' ==> ParseAt(file, pos) == Wrapped(false, ParseItems(file, pos + 1, 0, 0))
  {}

  /** What the children of a printed container are read as. */
  function Closed(es: Option<seq<Entry>>, pos: nat): Option<Children> {
    match es
    case None => None
    case Some(entries) => Some(Children(entries, pos))
  }

  lemma {:induction false} ParsePrinted(file: string, pos: nat, node: Node)
    requires !node.Str? && Printable(node) && At(file, pos, Print(node))
    ensures ParseAt(file, pos)
            == match Reread(node, pos)
               case None => None
               case Some(n) => Some(Parsed(n, pos + |Print(node)| - 1))
    decreases node, 1
  {
    if node.Dict? {
      ParsePrintedDict(file, pos, node);
    } else {
      ParsePrintedList(file, pos, node);
    }
  }

  lemma {:induction false} ParsePrintedDict(file: string, pos: nat, node: Node)
    requires node.Dict? && Printable(node) && At(file, pos, Print(node))
    ensures ParseAt(file, pos)
            == match Reread(node, pos)
               case None => None
               case Some(n) => Some(Parsed(n, pos + |Print(node)| - 1))
    decreases node, 0
  {
    hide ParseAt, ParseEntries, ParseItems, RereadEntries;
    AtContainer(file, pos, "d", PrintEntries(node.entries));
    ParseUnfold(file, pos);
    if node.entries == [] {
      NoChildren(file, pos + 1);
    } else {
      ParsePrintedEntries(file, pos + 1, node.entries);
    }
  }

  lemma {:induction false} ParsePrintedList(file: string, pos: nat, node: Node)
    requires node.List? && Printable(node) && At(file, pos, Print(node))
    ensures ParseAt(file, pos)
            == match Reread(node, pos)
               case None => None
               case Some(n) => Some(Parsed(n, pos + |Print(node)| - 1))
    decreases node, 0
  {
    hide ParseAt, ParseEntries, ParseItems, RereadContainers, RereadStrings;
    var items := node.items;
    AtContainer(file, pos, "l", PrintItems(items));
    ParseUnfold(file, pos);
    if items == [] {
      NoChildren(file, pos + 1);
    } else if AllStrings(items) {
      StringsFit(items);
      ParsePrintedStrings(file, pos + 1, items, 0, 0);
    } else {
      ParsePrintedContainers(file, pos + 1, items, 0, 0);
    }
  }

  lemma StringsFit(items: seq<Entry>)
    requires Printable(List(items)) && AllStrings(items)
    ensures forall k :: 0 <= k < |items| ==> |items[k].node.content| < LIMIT
  {
    forall k | 0 <= k < |items|
      ensures |items[k].node.content| < LIMIT
    {
      assert PrintableEntry(items[k]) && Printable(items[k].node);
    }
  }

  lemma {:induction false} ParsePrintedChild(file: string, pos: nat, e: Entry)
    requires |e.key| < LIMIT && PrintableEntry(e) && At(file, pos, PrintString(e.key) + PrintChild(e))
    ensures ParseEntry(file, pos) == RereadChild(e, e.key, pos, pos + |PrintString(e.key)|)
    decreases e, 1
  {
    hide GetField, ReadChunk, PrintString, PrintScalar, Unsigned, ParseAt, Reread;
    if e.node.Str? {
      FieldOfScalar(file, pos, e.key, e.node.content);
    } else {
      FieldOfContainer(file, pos, e.key, e.node);
      ParsePrinted(file, pos + |PrintString(e.key)|, e.node);
    }
  }

  /** The first child and the rest, read one after the other. */
  lemma EntriesJoin(file: string, pos: nat, entries: seq<Entry>, first: Option<Entry>, next: nat, end: nat)
    requires entries != [] && next < |file| && ParseEntry(file, pos) == first
    requires first == RereadChild(entries[0], entries[0].key, pos, pos + |PrintString(entries[0].key)|)
    requires first.Some? ==> first.value.end == next
    requires if entries[1..] == [] then next == end && file[next] == 'e'
             else file[next] != 'e' && ParseEntries(file, next) == Closed(RereadEntries(entries[1..], next), end)
    ensures ParseEntries(file, pos) == Closed(RereadEntries(entries, pos), end)
  {
    hide ParseEntry, RereadChild, PrintString;
    if first.Some? {
      EntriesUnfold(file, pos, first.value);
      if entries[1..] == [] {
        assert RereadEntries(entries[1..], next) == Some([]) && [first.value] + [] == [first.value];
      }
    }
  }

  lemma {:induction false} ParsePrintedEntries(file: string, pos: nat, entries: seq<Entry>)
    requires entries != [] && Printable(Dict(entries)) && At(file, pos, PrintEntries(entries))
    requires pos + |PrintEntries(entries)| < |file| && file[pos + |PrintEntries(entries)|] == 'e'
    ensures ParseEntries(file, pos) == Closed(RereadEntries(entries, pos), pos + |PrintEntries(entries)|)
    decreases entries, 2
  {
    hide ParseEntries, ParseEntry, RereadChild, RereadEntries, PrintString, PrintChild;
    var e, rest := entries[0], entries[1..];
    var own := PrintString(e.key) + PrintChild(e);
    assert PrintEntries(entries) == own + PrintEntries(rest);
    AtSplit(file, pos, own, PrintEntries(rest));
    ParsePrintedChild(file, pos, e);
    if rest == [] {
      assert PrintEntries(rest) == "";
    } else {
      KeyIsNotEnd(file, pos + |own|, rest);
      ParsePrintedEntries(file, pos + |own|, rest);
    }
    EntriesJoin(file, pos, entries, ParseEntry(file, pos), pos + |own|, pos + |PrintEntries(entries)|);
  }

  /** What follows a child is not taken for the end of its container. */
  lemma KeyIsNotEnd(file: string, pos: nat, entries: seq<Entry>)
    requires entries != [] && At(file, pos, PrintEntries(entries))
    ensures pos < |file| && file[pos] != 'e'
  {
    var text := PrintEntries(entries);
    assert text[0] == Itoa(|entries[0].key|)[0];
    AtChar(file, pos, text, 0);
  }

  lemma ItemIsNotEnd(file: string, pos: nat, items: seq<Entry>)
    requires items != [] && At(file, pos, PrintItems(items))
    ensures pos < |file| && file[pos] != 'e'
  {
    var own, text := PrintItem(items[0]), PrintItems(items);
    assert text == own + PrintItems(items[1..]);
    if !items[0].node.Str? {
      PrintOpens(items[0].node);
    }
    assert own[0] == text[0] && own[0] != 'e' by {
      assert IsDigit(Itoa(|items[0].key|)[0]);
    }
    AtChar(file, pos, text, 0);
  }

  lemma PairOfStrings(file: string, pos: nat, a: string, b: string, nLists: nat, nDicts: nat)
    requires At(file, pos, PrintString(a) + PrintString(b)) && |a| < LIMIT && |b| < LIMIT
    ensures ParseItem(file, pos, nLists, nDicts) == Some(Item([], pos + |PrintString(a)| + |PrintString(b)|))
  {
    hide ReadChunk, GetField, PrintString;
    AtSplit(file, pos, PrintString(a), PrintString(b));
    ReadString(file, pos, a);
    var next := pos + |PrintString(a)|;
    ReadString(file, next, b);
    TwoChunks(file, pos, Chunk(Some(a), next, None), Chunk(Some(b), next + |PrintString(b)|, None), [a, b]);
  }

  lemma LastString(file: string, pos: nat, a: string, nLists: nat, nDicts: nat)
    requires At(file, pos, PrintString(a)) && |a| < LIMIT
    requires pos + |PrintString(a)| < |file| && file[pos + |PrintString(a)|] == 'e'
    ensures var next := pos + |PrintString(a)|;
            ParseItem(file, pos, nLists, nDicts) == Some(Item([Entry([], pos, next, next, Str(a))], next))
  {
    hide ReadChunk, GetField, PrintString;
    ReadString(file, pos, a);
    var next := pos + |PrintString(a)|;
    ReadMark(file, next);
    TwoChunks(file, pos, Chunk(Some(a), next, None), Chunk(None, next, Some('e')), [a]);
  }

  lemma PrintOfOneString(items: seq<Entry>)
    requires |items| == 1 && AllStrings(items)
    ensures PrintItems(items) == PrintItem(items[0]) == PrintString(items[0].node.content)
  {
    hide PrintString;
    assert items[1..] == [];
  }

  lemma PrintOfTwoStrings(items: seq<Entry>)
    requires |items| >= 2 && AllStrings(items)
    ensures PrintItem(items[0]) == PrintString(items[0].node.content)
    ensures PrintItem(items[1]) == PrintString(items[1].node.content)
    ensures PrintItems(items)
            == PrintString(items[0].node.content) + PrintString(items[1].node.content) + PrintItems(items[2..])
  {
    hide PrintString;
    assert items[1..][0] == items[1] && items[1..][1..] == items[2..];
    assert PrintItems(items[1..]) == PrintItem(items[1]) + PrintItems(items[2..]);
  }

  lemma {:induction false} ParsePrintedStrings(file: string, pos: nat, items: seq<Entry>, nLists: nat, nDicts: nat)
    requires items != [] && AllStrings(items) && At(file, pos, PrintItems(items))
    requires forall k :: 0 <= k < |items| ==> |items[k].node.content| < LIMIT
    requires pos + |PrintItems(items)| < |file| && file[pos + |PrintItems(items)|] == 'e'
    ensures ParseItems(file, pos, nLists, nDicts)
            == Some(Children(RereadStrings(items, pos), pos + |PrintItems(items)|))
    decreases |items|
  {
    hide ParseItem, ParseItems, PrintString;
    var a := items[0].node;
    if |items| == 1 {
      PrintOfOneString(items);
      LastString(file, pos, a.content, nLists, nDicts);
      var next := pos + |PrintString(a.content)|;
      ItemsUnfold(file, pos, nLists, nDicts, Item([Entry([], pos, next, next, a)], next));
    } else {
      var b, rest := items[1].node, items[2..];
      var own := PrintString(a.content) + PrintString(b.content);
      PrintOfTwoStrings(items);
      AtSplit(file, pos, own, PrintItems(rest));
      PairOfStrings(file, pos, a.content, b.content, nLists, nDicts);
      ItemsUnfold(file, pos, nLists, nDicts, Item([], pos + |own|));
      if rest == [] {
        assert PrintItems(rest) == "";
      } else {
        ItemIsNotEnd(file, pos + |own|, rest);
        ParsePrintedStrings(file, pos + |own|, rest, nLists, nDicts);
        assert [] + RereadStrings(rest, pos + |own|) == RereadStrings(rest, pos + |own|);
      }
    }
  }

  lemma SameKind(items: seq<Entry>)
    requires |items| > 1 && (AllDicts(items) || AllLists(items))
    ensures AllDicts(items) <==> items[0].node.Dict?
    ensures AllDicts(items) <==> AllDicts(items[1..])
    ensures AllLists(items) ==> AllLists(items[1..])
  {
    assert items[1] == items[1..][0];
  }

  lemma {:induction false} ParsePrintedItem(file: string, pos: nat, e: Entry, nLists: nat, nDicts: nat)
    requires PrintableEntry(e) && !e.node.Str? && At(file, pos, Print(e.node))
    ensures ParseItem(file, pos, nLists, nDicts)
            == match RereadChild(e, Itoa(if e.node.List? then nLists else nDicts), pos, pos)
               case None => None
               case Some(x) => Some(Item([x], x.end))
    decreases e, 1
  {
    hide GetField, ParseAt, Reread;
    FieldOfItem(file, pos, e.node);
    ParsePrinted(file, pos, e.node);
  }

  lemma ContainersJoin(file: string, pos: nat, items: seq<Entry>, nLists: nat, nDicts: nat, n: nat,
                       first: Option<Entry>, next: nat, end: nat)
    requires items != [] && !items[0].node.Str? && next < |file|
    requires n == if items[0].node.Dict? then nDicts else nLists
    requires first == RereadChild(items[0], Itoa(n), pos, pos)
    requires first.Some? ==> first.value.end == next
    requires ParseItem(file, pos, nLists, nDicts)
             == (match first case None => None case Some(x) => Some(Item([x], x.end)))
    requires if items[1..] == [] then next == end && file[next] == 'e'
             else file[next] != 'e'
                  && ParseItems(file, next, nLists + One(items[0].node.List?), nDicts + One(items[0].node.Dict?))
                     == Closed(RereadContainers(items[1..], next, n + 1), end)
    ensures ParseItems(file, pos, nLists, nDicts) == Closed(RereadContainers(items, pos, n), end)
  {
    hide ParseItem, Reread;
    if first.Some? {
      ItemsUnfold(file, pos, nLists, nDicts, Item([first.value], next));
      assert first.value.node.Dict? <==> items[0].node.Dict?;
      if items[1..] == [] {
        assert RereadContainers(items[1..], next, n + 1) == Some([]) && [first.value] + [] == [first.value];
      }
    }
  }

  lemma {:induction false} ParsePrintedContainers(file: string, pos: nat, items: seq<Entry>, nLists: nat, nDicts: nat)
    requires items != [] && (AllDicts(items) || AllLists(items)) && At(file, pos, PrintItems(items))
    requires forall k :: 0 <= k < |items| ==> PrintableEntry(items[k])
    requires pos + |PrintItems(items)| < |file| && file[pos + |PrintItems(items)|] == 'e'
    ensures ParseItems(file, pos, nLists, nDicts)
            == Closed(RereadContainers(items, pos, if AllDicts(items) then nDicts else nLists),
                      pos + |PrintItems(items)|)
    decreases items, 2
  {
    hide ParseItems, ParseItem, RereadChild, RereadContainers, PrintableEntry, Print;
    var e, rest := items[0], items[1..];
    var next := pos + |Print(e.node)|;
    var n := if AllDicts(items) then nDicts else nLists;
    assert PrintItems(items) == Print(e.node) + PrintItems(rest);
    AtSplit(file, pos, Print(e.node), PrintItems(rest));
    ParsePrintedItem(file, pos, e, nLists, nDicts);
    if rest == [] {
      assert PrintItems(rest) == "";
    } else {
      ItemIsNotEnd(file, next, rest);
      SameKind(items);
      ParsePrintedContainers(file, next, rest, nLists + One(e.node.List?), nDicts + One(e.node.Dict?));
    }
    ContainersJoin(file, pos, items, nLists, nDicts, n, RereadChild(e, Itoa(n), pos, pos), next,
                   pos + |PrintItems(items)|);
  }
}
