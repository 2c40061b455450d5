/** Bencoded containers: what the parser reads and what the printer writes (BEP 3, section "bencoding"). */
module Bencode {
  import opened Common
  import opened Decimals

  /** A container keeps its children in order, each with its key and its positions in the text: where the
      key began, where the field reader stopped before the child was taken in, and where the child ended. */
  datatype Node = Str(content: string) | Dict(entries: seq<Entry>) | List(items: seq<Entry>)

  datatype Entry = Entry(key: string, start: nat, innerStart: nat, end: nat, node: Node)

  // ---------------------------------------------------------------- what a dictionary's maps hold

  datatype Kind = StringKind | DictKind | ListKind

  function KindOf(node: Node): Kind {
    match node
    case Str(_) => StringKind
    case Dict(_) => DictKind
    case List(_) => ListKind
  }

  /** A dictionary keeps its children in one map for each kind: entries of one kind and key share a slot. */
  predicate SameSlot(a: Entry, b: Entry) {
    a.key == b.key && KindOf(a.node) == KindOf(b.node)
  }

  /** What the slot of e holds after the entries were stored one by one: the last one's child. */
  function Stored(entries: seq<Entry>, e: Entry): (r: Node)
    ensures KindOf(r) == KindOf(e.node)
  {
    if entries == [] then e.node
    else
      var last := entries[|entries| - 1];
      if SameSlot(last, e) then last.node else Stored(entries[..|entries| - 1], e)
  }

  /** The entries as they are found again through the maps. */
  function Merge(entries: seq<Entry>): (r: seq<Entry>)
    ensures |r| == |entries|
    ensures forall k :: 0 <= k < |r| ==> r[k] == entries[k].(node := Stored(entries, entries[k]))
  {
    seq(|entries|, k requires 0 <= k < |entries| => entries[k].(node := Stored(entries, entries[k])))
  }

  /** Entries that share a slot have the same child. */
  ghost predicate Keyed(entries: seq<Entry>) {
    forall i, j :: 0 <= i < |entries| && 0 <= j < |entries| && SameSlot(entries[i], entries[j]) ==>
      entries[i].node == entries[j].node
  }

  // ---------------------------------------------------------------- reading fields

  predicate IsStop(c: char) {
    c == 'd' || c == 'l' || c == ':' || c == 'e'
  }

  /** The first stop character at or after pos; None is the panic of running off the text. */
  function Scan(file: string, pos: nat): (r: Option<nat>)
    ensures r.Some? ==> pos <= r.value < |file| && IsStop(file[r.value])
    ensures r.Some? ==> forall k :: pos <= k < r.value ==> !IsStop(file[k])
    ensures r.None? ==> forall k :: pos <= k < |file| ==> !IsStop(file[k])
    decreases |file| - pos
  {
    if pos >= |file| then None else if IsStop(file[pos]) then Some(pos) else Scan(file, pos + 1)
  }

  /** The digits after the first 'i'. */
  function NumberText(raw: string): string {
    if raw == [] then [] else if raw[0] == 'i' then DigitsOf(raw[1..]) else NumberText(raw[1..])
  }

  datatype Chunk = Chunk(datum: Option<string>, pos: nat, mark: Option<char>)

  /** One round of getField: a string with its length prefix, a number up to its 'e', or nothing before a
      container mark. None is a panic. */
  function ReadChunk(file: string, pos: nat): (r: Option<Chunk>)
    ensures r.Some? ==> pos <= r.value.pos <= |file| && (r.value.datum.Some? ==> pos < r.value.pos)
    ensures r.Some? && r.value.mark.None? ==> r.value.datum.Some?
  {
    var found := Scan(file, pos);
    if found.None? then None
    else
      var stop := found.value;
      var raw, c := file[pos..stop], file[stop];
      if c == ':' then
        match Atoi(raw)
        case OutOfRange => None
        case BadSyntax => Some(Chunk(Some([]), stop + 1, None))
        case Number(n) =>
          if n < 0 || stop + 1 + n > |file| then None
          else Some(Chunk(Some(file[stop + 1..stop + 1 + n]), stop + 1 + n, None))
      else if 'i' in raw || (c == 'e' && raw != []) then Some(Chunk(Some(NumberText(raw)), stop + 1, Some(c)))
      else Some(Chunk(None, stop, Some(c)))
  }

  datatype Field = Field(data: seq<string>, pos: nat, mark: Option<char>)

  function Datum(chunk: Chunk): seq<string> {
    match chunk.datum
    case None => []
    case Some(s) => [s]
  }

  /** getField: two rounds. */
  function GetField(file: string, pos: nat): (r: Option<Field>)
    ensures r.Some? ==> pos <= r.value.pos <= |file| && (r.value.data != [] ==> pos < r.value.pos)
    ensures r.Some? && r.value.mark.None? ==> |r.value.data| == 2
  {
    match ReadChunk(file, pos)
    case None => None
    case Some(first) =>
      match ReadChunk(file, first.pos)
      case None => None
      case Some(second) =>
        Some(Field(Datum(first) + Datum(second), second.pos, if second.mark.Some? then second.mark else first.mark))
  }

  // ---------------------------------------------------------------- reading containers

  datatype Parsed = Parsed(node: Node, pos: nat)

  datatype Children = Children(entries: seq<Entry>, pos: nat)

  predicate OpensContainer(file: string, f: Field) {
    f.mark.Some? && f.mark.value != 'e' && f.pos < |file| && file[f.pos] == f.mark.value
  }

  /** Parse: the container that opens at pos, and the position of its closing 'e'. None is a panic, or a
      container mark that getField reported from elsewhere. The children of a dictionary are those its maps hold
      in the end. */
  function ParseAt(file: string, pos: nat): (r: Option<Parsed>)
    ensures r.Some? ==> pos < r.value.pos < |file|
    decreases |file| - pos, 0
  {
    if pos >= |file| then None
    else if file[pos] == 'd' then
      match ParseEntries(file, pos + 1)
      case None => None
      case Some(c) => Some(Parsed(Dict(Merge(c.entries)), c.pos))
    else if file[pos] == 'l' then
      match ParseItems(file, pos + 1, 0, 0)
      case None => None
      case Some(c) => Some(Parsed(List(c.entries), c.pos))
    else None
  }

  /** One child of a dictionary: a key, and a scalar or a container. */
  function ParseEntry(file: string, pos: nat): (r: Option<Entry>)
    ensures r.Some? ==> pos < r.value.end <= |file|
    decreases |file| - pos, 1
  {
    match GetField(file, pos)
    case None => None
    case Some(f) =>
      if f.data == [] then None
      else if f.mark.None? || f.mark.value == 'e' then
        if |f.data| < 2 then None else Some(Entry(f.data[0], pos, f.pos, f.pos, Str(f.data[1])))
      else if !OpensContainer(file, f) then None
      else
        match ParseAt(file, f.pos)
        case None => None
        case Some(inner) => Some(Entry(f.data[0], pos, f.pos, inner.pos + 1, inner.node))
  }

  function ParseEntries(file: string, pos: nat): (r: Option<Children>)
    ensures r.Some? ==> pos < r.value.pos < |file|
    decreases |file| - pos, 2
  {
    match ParseEntry(file, pos)
    case None => None
    case Some(entry) =>
      if entry.end >= |file| then None
      else if file[entry.end] == 'e' then Some(Children([entry], entry.end))
      else
        match ParseEntries(file, entry.end)
        case None => None
        case Some(rest) => Some(Children([entry] + rest.entries, rest.pos))
  }

  datatype Item = Item(found: seq<Entry>, end: nat)

  /** One round of the list loop. Two strings in a row add nothing; a container's key is its number among
      the lists or the dictionaries so far. */
  function ParseItem(file: string, pos: nat, nLists: nat, nDicts: nat): (r: Option<Item>)
    ensures r.Some? ==> pos < r.value.end <= |file|
    decreases |file| - pos, 1
  {
    match GetField(file, pos)
    case None => None
    case Some(f) =>
      if f.mark.None? then Some(Item([], f.pos))
      else if f.mark.value == 'e' then
        if f.data == [] then None else Some(Item([Entry([], pos, f.pos, f.pos, Str(f.data[0]))], f.pos))
      else if !OpensContainer(file, f) then None
      else
        match ParseAt(file, f.pos)
        case None => None
        case Some(inner) =>
          var key := Itoa(if f.mark.value == 'l' then nLists else nDicts);
          Some(Item([Entry(key, pos, f.pos, inner.pos + 1, inner.node)], inner.pos + 1))
  }

  function ParseItems(file: string, pos: nat, nLists: nat, nDicts: nat): (r: Option<Children>)
    ensures r.Some? ==> pos < r.value.pos < |file|
    decreases |file| - pos, 2
  {
    match ParseItem(file, pos, nLists, nDicts)
    case None => None
    case Some(item) =>
      if item.end >= |file| then None
      else if file[item.end] == 'e' then Some(Children(item.found, item.end))
      else
        match ParseItems(file, item.end, nLists + CountLists(item.found), nDicts + CountDicts(item.found))
        case None => None
        case Some(rest) => Some(Children(item.found + rest.entries, rest.pos))
  }

  function CountLists(found: seq<Entry>): nat {
    if found != [] && found[0].node.List? then 1 else 0
  }

  function CountDicts(found: seq<Entry>): nat {
    if found != [] && found[0].node.Dict? then 1 else 0
  }

  // ---------------------------------------------------------------- printing

  function PrintString(s: string): string {
    Itoa(|s|) + ":" + s
  }

  /** A dictionary's scalar: whatever Atoi accepts is printed as a number. */
  function PrintScalar(s: string): string {
    if IsNumber(s) then "i" + s + "e" else PrintString(s)
  }

  function Print(node: Node): string
    decreases node, 0
  {
    match node
    case Str(_) => ""
    case Dict(entries) => "d" + PrintEntries(entries) + "e"
    case List(items) => "l" + PrintItems(items) + "e"
  }

  function PrintChild(e: Entry): string
    decreases e, 1
  {
    if e.node.Str? then PrintScalar(e.node.content) else Print(e.node)
  }

  function PrintEntries(entries: seq<Entry>): string
    decreases entries, 2
  {
    if entries == [] then ""
    else PrintString(entries[0].key) + PrintChild(entries[0]) + PrintEntries(entries[1..])
  }

  function PrintItem(e: Entry): string
    decreases e, 1
  {
    if e.node.Str? then PrintString(e.node.content) else Print(e.node)
  }

  function PrintItems(items: seq<Entry>): string
    decreases items, 2
  {
    if items == [] then "" else PrintItem(items[0]) + PrintItems(items[1..])
  }

  // ---------------------------------------------------------------- what the printer gets through

  predicate AllStrings(items: seq<Entry>) {
    forall k :: 0 <= k < |items| ==> items[k].node.Str?
  }

  predicate AllDicts(items: seq<Entry>) {
    forall k :: 0 <= k < |items| ==> items[k].node.Dict?
  }

  predicate AllLists(items: seq<Entry>) {
    forall k :: 0 <= k < |items| ==> items[k].node.List?
  }

  predicate OneKind(items: seq<Entry>) {
    AllStrings(items) || AllDicts(items) || AllLists(items)
  }

  /** The printer looks up child k of a list at index k among the children of its kind; on a list of several
      kinds it runs past the end of one of them. */
  predicate Prints(node: Node)
    decreases node, 0
  {
    match node
    case Str(_) => true
    case Dict(entries) => forall k :: 0 <= k < |entries| ==> PrintsEntry(entries[k])
    case List(items) => OneKind(items) && forall k :: 0 <= k < |items| ==> PrintsEntry(items[k])
  }

  predicate PrintsEntry(e: Entry)
    decreases e, 1
  {
    Prints(e.node)
  }

  /** ToBencode as a whole; None is a panic. */
  function Text(node: Node): Option<string> {
    if Prints(node) then Some(Print(node)) else None
  }
}
