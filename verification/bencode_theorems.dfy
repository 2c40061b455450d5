/** When parsing undoes printing, and where a parsed child lies in the text. */
module BencodeTheorems {
  import opened Common
  import opened Decimals
  import opened Bencode
  import opened BencodeRoundTrip

  // ---------------------------------------------------------------- content without positions

  /** A container without the positions, and without the numbers that serve as keys in a list. */
  function Content(node: Node): Node
    decreases node, 0
  {
    match node
    case Str(_) => node
    case Dict(entries) =>
      Dict(seq(|entries|, k requires 0 <= k < |entries| => EntryContent(entries[k], entries[k].key)))
    case List(items) => List(seq(|items|, k requires 0 <= k < |items| => EntryContent(items[k], "")))
  }

  function EntryContent(e: Entry, key: string): Entry
    decreases e, 1
  {
    Entry(key, 0, 0, 0, Content(e.node))
  }

  predicate SameContent(a: Node, b: Node) {
    Content(a) == Content(b)
  }

  /** The containers that survive a round trip: no signed number, no empty container, and no list of several
      strings. */
  predicate Supported(node: Node)
    decreases node, 0
  {
    match node
    case Str(s) => Unsigned(s) == s
    case Dict(entries) => entries != [] && forall k :: 0 <= k < |entries| ==> SupportedEntry(entries[k])
    case List(items) =>
      items != []
      && if AllStrings(items) then |items| == 1 else forall k :: 0 <= k < |items| ==> SupportedEntry(items[k])
  }

  predicate SupportedEntry(e: Entry)
    decreases e, 1
  {
    Supported(e.node)
  }

  /** The condition on scalars, said of the text: a sign in front of what Atoi accepts is not allowed. */
  lemma UnsignedIff(s: string)
    ensures Unsigned(s) == s <==> !(IsNumber(s) && IsSign(s[0]))
  {
    if IsNumber(s) && IsSign(s[0]) {
      assert |Body(s)| < |s|;
    }
  }

  // ---------------------------------------------------------------- rereading keeps exactly the supported

  ghost predicate Kept(node: Node, read: Option<Node>) {
    read.Some? && SameContent(read.value, node)
  }

  ghost predicate ChildKept(e: Entry, read: Option<Entry>) {
    read.Some? && SameContent(read.value.node, e.node)
  }

  lemma {:induction false} RereadKeepsIff(node: Node, pos: nat)
    requires !node.Str? && Printable(node)
    ensures Kept(node, Reread(node, pos)) <==> Supported(node)
    decreases node, 0
  {
    match node
    case Dict(entries) =>
      if entries != [] {
        RereadDictKeepsIff(entries, pos + 1);
      }
    case List(items) =>
      if items != [] {
        if AllStrings(items) {
          RereadStringsLength(items, pos + 1);
          if |items| != 1 && Reread(node, pos).Some? {
            assert |Content(Reread(node, pos).value).items| < |Content(node).items|;
          }
        } else {
          RereadContainersKeepsIff(items, pos + 1, 0);
        }
      }
  }

  lemma {:induction false} RereadDictKeepsIff(entries: seq<Entry>, pos: nat)
    requires Keyed(entries) && forall k :: 0 <= k < |entries| ==> PrintableEntry(entries[k])
    ensures var read := RereadEntries(entries, pos);
            read.Some? && Content(Dict(Merge(read.value))) == Content(Dict(entries))
            <==> forall k :: 0 <= k < |entries| ==> SupportedEntry(entries[k])
    decreases entries, 4
  {
    RereadEntriesKeepsIff(entries, pos);
    NoChildrenKept(entries, true);
    var read := RereadEntries(entries, pos);
    if read.Some? {
      RereadEach(entries, pos);
      MergeKeepsIff(entries, read.value);
      DictContent(Merge(read.value), entries);
    }
  }

  /** Each child on its own: kept if and only if it is supported, under its key and of its kind. */
  ghost predicate EachKept(entries: seq<Entry>, read: seq<Entry>) {
    |read| == |entries|
    && forall k :: 0 <= k < |entries| ==>
         SameSlot(read[k], entries[k]) && (SameContent(read[k].node, entries[k].node) <==> SupportedEntry(entries[k]))
  }

  lemma {:induction false} RereadEach(entries: seq<Entry>, pos: nat)
    requires forall k :: 0 <= k < |entries| ==> PrintableEntry(entries[k])
    requires RereadEntries(entries, pos).Some?
    ensures EachKept(entries, RereadEntries(entries, pos).value)
    decreases entries, 2
  {
    if entries != [] {
      var e, at := entries[0], pos + |PrintString(entries[0].key)|;
      RereadChildKeepsIff(e, e.key, pos, at);
      RereadKeepsKey(e, e.key, pos, at);
      var first := RereadChild(e, e.key, pos, at).value;
      RereadEach(entries[1..], first.end);
      var rest := RereadEntries(entries[1..], first.end).value;
      EachJoin(entries, first, rest);
    }
  }

  lemma EachJoin(entries: seq<Entry>, first: Entry, rest: seq<Entry>)
    requires entries != [] && SameSlot(first, entries[0])
    requires SameContent(first.node, entries[0].node) <==> SupportedEntry(entries[0])
    requires EachKept(entries[1..], rest)
    ensures EachKept(entries, [first] + rest)
  {
    var all := [first] + rest;
    forall k | 0 <= k < |entries|
      ensures SameSlot(all[k], entries[k])
      ensures SameContent(all[k].node, entries[k].node) <==> SupportedEntry(entries[k])
    {
      if k > 0 {
        assert all[k] == rest[k - 1] && entries[k] == entries[1..][k - 1];
      }
    }
  }

  /** A slot holds the child of some entry of that slot, in both lists at the same place. */
  lemma {:induction false} StoredAlike(a: seq<Entry>, b: seq<Entry>, k: nat, n: nat) returns (j: nat)
    requires |a| == |b| && k < n <= |a| && forall m :: 0 <= m < |a| ==> SameSlot(a[m], b[m])
    ensures j < n && SameSlot(b[j], b[k]) && Stored(a[..n], a[k]) == a[j].node && Stored(b[..n], b[k]) == b[j].node
    decreases n
  {
    assert a[..n][..n - 1] == a[..n - 1] && b[..n][..n - 1] == b[..n - 1];
    if SameSlot(a[n - 1], a[k]) {
      j := n - 1;
    } else {
      j := StoredAlike(a, b, k, n - 1);
    }
  }

  lemma MergeKeepsIff(entries: seq<Entry>, read: seq<Entry>)
    requires Keyed(entries) && EachKept(entries, read)
    ensures AllKept(entries, Some(Merge(read)), true)
            <==> forall k :: 0 <= k < |entries| ==> SupportedEntry(entries[k])
  {
    assert read[..|read|] == read && entries[..|entries|] == entries;
    forall k: nat | k < |entries|
      ensures SameContent(Merge(read)[k].node, entries[k].node) <==> SupportedEntry(entries[k])
    {
      var j := StoredAlike(read, entries, k, |entries|);
      assert entries[j].node == entries[k].node;
    }
  }

  lemma {:induction false} RereadChildKeepsIff(e: Entry, key: string, start: nat, at: nat)
    requires PrintableEntry(e)
    ensures ChildKept(e, RereadChild(e, key, start, at)) <==> SupportedEntry(e)
    decreases e, 1
  {
    if !e.node.Str? {
      RereadKeepsIff(e.node, at);
    }
  }

  /** Children read one by one, with their keys in place. */
  ghost predicate AllKept(entries: seq<Entry>, read: Option<seq<Entry>>, keys: bool) {
    read.Some? && |read.value| == |entries|
    && forall k :: 0 <= k < |entries| ==>
         SameContent(read.value[k].node, entries[k].node) && (keys ==> read.value[k].key == entries[k].key)
  }

  lemma {:induction false} RereadEntriesKeepsIff(entries: seq<Entry>, pos: nat)
    requires forall k :: 0 <= k < |entries| ==> PrintableEntry(entries[k])
    ensures AllKept(entries, RereadEntries(entries, pos), true)
            <==> forall k :: 0 <= k < |entries| ==> SupportedEntry(entries[k])
    ensures var read := RereadEntries(entries, pos);
            read.Some? ==> (Content(Dict(read.value)) == Content(Dict(entries)) <==> AllKept(entries, read, true))
    decreases entries, 2
  {
    hide RereadChild, AllKept, Content, SupportedEntry, PrintableEntry, PrintString, SameContent;
    NoChildrenKept(entries, true);
    if entries != [] {
      var at := pos + |PrintString(entries[0].key)|;
      var first := RereadChild(entries[0], entries[0].key, pos, at);
      RereadChildKeepsIff(entries[0], entries[0].key, pos, at);
      if first.Some? {
        RereadKeepsKey(entries[0], entries[0].key, pos, at);
        RereadEntriesKeepsIff(entries[1..], first.value.end);
        HeadAndTail(entries, first.value, RereadEntries(entries[1..], first.value.end), true);
      }
      assert forall k :: 0 <= k < |entries| ==> entries[k] == if k == 0 then entries[0] else entries[1..][k - 1];
    }
    var read := RereadEntries(entries, pos);
    if read.Some? {
      DictContent(read.value, entries);
    }
  }

  lemma RereadKeepsKey(e: Entry, key: string, start: nat, at: nat)
    requires RereadChild(e, key, start, at).Some?
    ensures RereadChild(e, key, start, at).value.key == key
    ensures KindOf(RereadChild(e, key, start, at).value.node) == KindOf(e.node)
  {}

  lemma NoChildrenKept(entries: seq<Entry>, keys: bool)
    ensures !AllKept(entries, None, keys) && AllKept([], Some([]), keys)
  {}

  lemma HeadAndTail(entries: seq<Entry>, first: Entry, rest: Option<seq<Entry>>, keys: bool)
    requires entries != [] && (keys ==> first.key == entries[0].key)
    ensures AllKept(entries, if rest.None? then None else Some([first] + rest.value), keys)
            <==> SameContent(first.node, entries[0].node) && AllKept(entries[1..], rest, keys)
  {
    if rest.Some? {
      var all := [first] + rest.value;
      assert all[0] == first && all[1..] == rest.value;
      if AllKept(entries, Some(all), keys) {
        assert forall k :: 0 <= k < |entries[1..]| ==> rest.value[k] == all[k + 1] && entries[1..][k] == entries[k + 1];
      }
      if SameContent(first.node, entries[0].node) && AllKept(entries[1..], rest, keys) {
        assert forall k :: 1 <= k < |entries| ==> all[k] == rest.value[k - 1] && entries[k] == entries[1..][k - 1];
      }
    }
  }

  lemma DictContent(a: seq<Entry>, b: seq<Entry>)
    ensures Content(Dict(a)) == Content(Dict(b)) <==> AllKept(b, Some(a), true)
  {
    var x, y := Content(Dict(a)).entries, Content(Dict(b)).entries;
    if x == y {
      forall k | 0 <= k < |b|
        ensures SameContent(a[k].node, b[k].node) && a[k].key == b[k].key
      {
        assert x[k] == EntryContent(a[k], a[k].key) && y[k] == EntryContent(b[k], b[k].key);
      }
    }
  }

  lemma ListContent(a: seq<Entry>, b: seq<Entry>)
    ensures Content(List(a)) == Content(List(b)) <==> AllKept(b, Some(a), false)
  {
    var x, y := Content(List(a)).items, Content(List(b)).items;
    if x == y {
      forall k | 0 <= k < |b|
        ensures SameContent(a[k].node, b[k].node)
      {
        assert x[k] == EntryContent(a[k], "") && y[k] == EntryContent(b[k], "");
      }
    }
  }

  lemma {:induction false} RereadContainersKeepsIff(items: seq<Entry>, pos: nat, n: nat)
    requires AllDicts(items) || AllLists(items)
    requires forall k :: 0 <= k < |items| ==> PrintableEntry(items[k])
    ensures AllKept(items, RereadContainers(items, pos, n), false)
            <==> forall k :: 0 <= k < |items| ==> SupportedEntry(items[k])
    ensures var read := RereadContainers(items, pos, n);
            read.Some? ==> (Content(List(read.value)) == Content(List(items)) <==> AllKept(items, read, false))
    decreases items, 2
  {
    if items != [] {
      var first := RereadChild(items[0], Itoa(n), pos, pos);
      RereadChildKeepsIff(items[0], Itoa(n), pos, pos);
      if first.Some? {
        RereadContainersKeepsIff(items[1..], first.value.end, n + 1);
        HeadAndTail(items, first.value, RereadContainers(items[1..], first.value.end, n + 1), false);
      }
      assert forall k :: 0 <= k < |items| ==> items[k] == if k == 0 then items[0] else items[1..][k - 1];
    }
    var read := RereadContainers(items, pos, n);
    if read.Some? {
      ListContent(read.value, items);
    }
  }

  lemma {:induction false} RereadStringsLength(items: seq<Entry>, pos: nat)
    requires AllStrings(items)
    ensures |RereadStrings(items, pos)| == |items| % 2
    ensures |items| == 1 ==> RereadStrings(items, pos)[0].node == items[0].node
    decreases |items|
  {
    if |items| >= 2 {
      RereadStringsLength(items[2..], pos + |PrintItem(items[0])| + |PrintItem(items[1])|);
    }
  }

  // ---------------------------------------------------------------- the main results

  lemma ParsePrintedKeepsIff(node: Node)
    requires !node.Str? && Printable(node)
    ensures Supported(node)
            <==> ParseAt(Print(node), 0).Some?
                 && SameContent(ParseAt(Print(node), 0).value.node, node)
                 && ParseAt(Print(node), 0).value.pos == |Print(node)| - 1
  {
    var text := Print(node);
    assert text[0..|text|] == text;
    ParsePrinted(text, 0, node);
    RereadKeepsIff(node, 0);
  }

  /** Printing gets through, parsing the printed text gives the same container back, and takes in all of the
      text, if and only if the container is supported and has no list of several kinds. */
  lemma ParseUndoesPrintIff(node: Node)
    requires !node.Str? && Short(node) && Holdable(node)
    ensures Prints(node) && Supported(node)
            <==> Text(node).Some?
                 && ParseAt(Text(node).value, 0).Some?
                 && SameContent(ParseAt(Text(node).value, 0).value.node, node)
                 && ParseAt(Text(node).value, 0).value.pos == |Text(node).value| - 1
  {
    PrintableIff(node);
    if Prints(node) {
      ParsePrintedKeepsIff(node);
    }
  }

  /** Printing depends on the content only. */
  lemma {:induction false} PrintOfContent(a: Node, b: Node)
    requires SameContent(a, b)
    ensures Print(a) == Print(b)
    decreases a, 0
  {
    match a
    case Str(_) =>
    case Dict(entries) =>
      DictContent(entries, b.entries);
      PrintOfEntries(entries, b.entries);
    case List(items) =>
      ListContent(items, b.items);
      PrintOfItems(items, b.items);
  }

  lemma {:induction false} PrintOfEntries(a: seq<Entry>, b: seq<Entry>)
    requires AllKept(b, Some(a), true)
    ensures PrintEntries(a) == PrintEntries(b)
    decreases a, 2
  {
    if a != [] {
      assert SameContent(a[0].node, b[0].node);
      if !a[0].node.Str? {
        PrintOfContent(a[0].node, b[0].node);
      }
      HeadAndTail(b, a[0], Some(a[1..]), true);
      assert [a[0]] + a[1..] == a;
      PrintOfEntries(a[1..], b[1..]);
    }
  }

  lemma {:induction false} PrintOfItems(a: seq<Entry>, b: seq<Entry>)
    requires AllKept(b, Some(a), false)
    ensures PrintItems(a) == PrintItems(b)
    decreases a, 2
  {
    if a != [] {
      assert SameContent(a[0].node, b[0].node);
      if !a[0].node.Str? {
        PrintOfContent(a[0].node, b[0].node);
      }
      HeadAndTail(b, a[0], Some(a[1..]), false);
      assert [a[0]] + a[1..] == a;
      PrintOfItems(a[1..], b[1..]);
    }
  }

  lemma KindsOfContent(a: seq<Entry>, b: seq<Entry>)
    requires AllKept(b, Some(a), false)
    ensures OneKind(a) <==> OneKind(b)
  {
    forall k | 0 <= k < |a|
      ensures (a[k].node.Str? <==> b[k].node.Str?) && (a[k].node.Dict? <==> b[k].node.Dict?)
    {
      assert SameContent(a[k].node, b[k].node);
    }
  }

  lemma {:induction false} PrintsOfContent(a: Node, b: Node)
    requires SameContent(a, b)
    ensures Prints(a) <==> Prints(b)
    decreases a
  {
    match a
    case Str(_) =>
    case Dict(entries) =>
      DictContent(entries, b.entries);
      forall k | 0 <= k < |entries|
        ensures PrintsEntry(entries[k]) <==> PrintsEntry(b.entries[k])
      {
        assert SameContent(entries[k].node, b.entries[k].node);
        PrintsOfContent(entries[k].node, b.entries[k].node);
      }
    case List(items) =>
      ListContent(items, b.items);
      KindsOfContent(items, b.items);
      forall k | 0 <= k < |items|
        ensures PrintsEntry(items[k]) <==> PrintsEntry(b.items[k])
      {
        assert SameContent(items[k].node, b.items[k].node);
        PrintsOfContent(items[k].node, b.items[k].node);
      }
  }

  /** Printing what was parsed from printed text gives that text again. */
  lemma ReprintIsText(node: Node)
    requires !node.Str? && Short(node) && Holdable(node) && Prints(node) && Supported(node)
    ensures ParseAt(Print(node), 0).Some? && Text(ParseAt(Print(node), 0).value.node) == Text(node)
  {
    ParseUndoesPrintIff(node);
    PrintOfContent(ParseAt(Print(node), 0).value.node, node);
    PrintsOfContent(ParseAt(Print(node), 0).value.node, node);
  }

  lemma {:induction false} EntrySpans(file: string, pos: nat, entries: seq<Entry>, i: nat)
    requires At(file, pos, PrintEntries(entries)) && RereadEntries(entries, pos).Some? && i < |entries|
    requires !entries[i].node.Str?
    ensures var read := RereadEntries(entries, pos).value;
            && |read| == |entries| && read[i].key == entries[i].key
            && At(file, read[i].innerStart, Print(entries[i].node))
            && read[i].end == read[i].innerStart + |Print(entries[i].node)|
    decreases |entries|
  {
    hide RereadChild, PrintString, Reread, Print;
    var e, rest := entries[0], entries[1..];
    var own := PrintString(e.key) + PrintChild(e);
    var at := pos + |PrintString(e.key)|;
    var first := RereadChild(e, e.key, pos, at).value;
    assert PrintEntries(entries) == own + PrintEntries(rest);
    AtSplit(file, pos, own, PrintEntries(rest));
    EntriesLength(rest, first.end);
    if i > 0 {
      EntrySpans(file, first.end, rest, i - 1);
    } else {
      AtSplit(file, pos, PrintString(e.key), PrintChild(e));
      ContainerChildSpan(e, pos, at);
    }
  }

  lemma ContainerChildSpan(e: Entry, pos: nat, at: nat)
    requires !e.node.Str? && RereadChild(e, e.key, pos, at).Some?
    ensures var read := RereadChild(e, e.key, pos, at).value;
            read.key == e.key && read.innerStart == at && read.end == at + |Print(e.node)|
  {}

  lemma {:induction false} EntriesLength(entries: seq<Entry>, pos: nat)
    ensures RereadEntries(entries, pos).Some? ==> |RereadEntries(entries, pos).value| == |entries|
    decreases |entries|
  {
    if entries != [] {
      var first := RereadChild(entries[0], entries[0].key, pos, pos + |PrintString(entries[0].key)|);
      if first.Some? {
        EntriesLength(entries[1..], first.value.end);
      }
    }
  }

  /** In printed text, the recorded positions of a container directly inside a dictionary, at any depth, cut out
      exactly that container's own printed form. */
  lemma PositionsCutOutChild(file: string, pos: nat, node: Node, i: nat)
    requires node.Dict? && Printable(node) && At(file, pos, Print(node)) && i < |node.entries|
    requires !node.entries[i].node.Str? && ParseAt(file, pos).Some?
    ensures var read := ParseAt(file, pos).value.node;
            && read.Dict? && |read.entries| == |node.entries| && read.entries[i].key == node.entries[i].key
            && read.entries[i].innerStart <= read.entries[i].end <= |file|
            && file[read.entries[i].innerStart..read.entries[i].end] == Print(node.entries[i].node)
  {
    ParsePrinted(file, pos, node);
    AtContainer(file, pos, "d", PrintEntries(node.entries));
    EntrySpans(file, pos + 1, node.entries, i);
  }

  // ---------------------------------------------------------------- what the parser can return

  /** A number that runs into a container mark instead of its 'e'. */
  predicate OpenNumber(chunk: Chunk) {
    chunk.datum.Some? && chunk.mark.Some? && chunk.mark.value != 'e'
  }

  /** A container mark that the field reader reports stands where the reader stopped, unless a number lacks its
      end. */
  lemma MarkStandsInPlace(file: string, pos: nat, f: Field)
    requires GetField(file, pos) == Some(f) && f.mark.Some? && f.mark.value != 'e' && !OpensContainer(file, f)
    ensures ReadChunk(file, pos).Some?
    ensures OpenNumber(ReadChunk(file, pos).value)
            || (ReadChunk(file, ReadChunk(file, pos).value.pos).Some?
                && OpenNumber(ReadChunk(file, ReadChunk(file, pos).value.pos).value))
  {
    var first := ReadChunk(file, pos).value;
    if first.mark.Some? && first.datum.None? {
      ReadMark(file, first.pos);
    }
  }

  lemma {:induction false} StoredIsOne(entries: seq<Entry>, k: nat, n: nat) returns (j: nat)
    requires k < n <= |entries|
    ensures j < n && SameSlot(entries[j], entries[k]) && Stored(entries[..n], entries[k]) == entries[j].node
    decreases n
  {
    assert entries[..n][..n - 1] == entries[..n - 1];
    if SameSlot(entries[n - 1], entries[k]) {
      j := n - 1;
    } else {
      j := StoredIsOne(entries, k, n - 1);
    }
  }

  /** Slot-mates find the same child. */
  lemma {:induction false} StoredAgrees(entries: seq<Entry>, a: Entry, b: Entry)
    requires SameSlot(a, b) && exists k :: 0 <= k < |entries| && SameSlot(entries[k], a)
    ensures Stored(entries, a) == Stored(entries, b)
  {
    var n := |entries| - 1;
    if !SameSlot(entries[n], a) {
      var k: nat :| k < |entries| && SameSlot(entries[k], a);
      assert entries[..n][k] == entries[k];
      StoredAgrees(entries[..n], a, b);
    }
  }

  lemma MergeIsKeyed(entries: seq<Entry>)
    ensures Keyed(Merge(entries))
  {
    var found := Merge(entries);
    forall i, j | 0 <= i < |found| && 0 <= j < |found| && SameSlot(found[i], found[j])
      ensures found[i].node == found[j].node
    {
      StoredAgrees(entries, entries[i], entries[j]);
    }
  }

  ghost predicate AllHoldable(entries: seq<Entry>) {
    forall k :: 0 <= k < |entries| ==> HoldableEntry(entries[k])
  }

  lemma MergeIsHoldable(entries: seq<Entry>)
    requires AllHoldable(entries)
    ensures Holdable(Dict(Merge(entries)))
  {
    MergeIsKeyed(entries);
    assert entries[..|entries|] == entries;
    forall k: nat | k < |entries|
      ensures HoldableEntry(Merge(entries)[k])
    {
      var j := StoredIsOne(entries, k, |entries|);
      assert HoldableEntry(entries[j]);
    }
  }

  /** Whatever the text, keys repeated or not, what the parser returns is a container that maps can hold. */
  lemma {:induction false} ParsedIsHoldable(file: string, pos: nat)
    requires ParseAt(file, pos).Some?
    ensures Holdable(ParseAt(file, pos).value.node)
    decreases |file| - pos, 0
  {
    ParseUnfold(file, pos);
    if file[pos] == 'd' {
      EntriesHoldable(file, pos + 1);
      MergeIsHoldable(ParseEntries(file, pos + 1).value.entries);
    } else {
      ItemsHoldable(file, pos + 1, 0, 0);
    }
  }

  lemma HoldableJoin(a: seq<Entry>, b: seq<Entry>)
    requires AllHoldable(a) && AllHoldable(b)
    ensures AllHoldable(a + b)
  {}

  lemma HoldableAlone(e: Entry)
    requires HoldableEntry(e)
    ensures AllHoldable([e])
  {}

  lemma EntriesBegin(file: string, pos: nat) returns (e: Entry)
    requires ParseEntries(file, pos).Some?
    ensures ParseEntry(file, pos) == Some(e) && pos < e.end < |file|
  {
    hide ParseEntry;
    e := ParseEntry(file, pos).value;
  }

  lemma {:induction false} EntriesHoldable(file: string, pos: nat)
    requires ParseEntries(file, pos).Some?
    ensures AllHoldable(ParseEntries(file, pos).value.entries)
    decreases |file| - pos, 2
  {
    hide ParseEntries, ParseEntry, AllHoldable;
    var e := EntriesBegin(file, pos);
    EntriesUnfold(file, pos, e);
    EntryHoldable(file, pos);
    HoldableAlone(e);
    if file[e.end] != 'e' {
      EntriesHoldable(file, e.end);
      HoldableJoin([e], ParseEntries(file, e.end).value.entries);
    }
  }

  lemma {:induction false} EntryHoldable(file: string, pos: nat)
    requires ParseEntry(file, pos).Some?
    ensures HoldableEntry(ParseEntry(file, pos).value)
    decreases |file| - pos, 1
  {
    var f := GetField(file, pos).value;
    if !(f.mark.None? || f.mark.value == 'e') {
      ParsedIsHoldable(file, f.pos);
    }
  }

  lemma ItemsBegin(file: string, pos: nat, nLists: nat, nDicts: nat) returns (item: Item)
    requires ParseItems(file, pos, nLists, nDicts).Some?
    ensures ParseItem(file, pos, nLists, nDicts) == Some(item) && pos < item.end < |file|
  {
    hide ParseItem;
    item := ParseItem(file, pos, nLists, nDicts).value;
  }

  lemma {:induction false} ItemsHoldable(file: string, pos: nat, nLists: nat, nDicts: nat)
    requires ParseItems(file, pos, nLists, nDicts).Some?
    ensures AllHoldable(ParseItems(file, pos, nLists, nDicts).value.entries)
    decreases |file| - pos, 2
  {
    hide ParseItems, ParseItem, AllHoldable;
    var item := ItemsBegin(file, pos, nLists, nDicts);
    ItemsUnfold(file, pos, nLists, nDicts, item);
    ItemHoldable(file, pos, nLists, nDicts);
    if file[item.end] != 'e' {
      var nl, nd := nLists + CountLists(item.found), nDicts + CountDicts(item.found);
      ItemsHoldable(file, item.end, nl, nd);
      HoldableJoin(item.found, ParseItems(file, item.end, nl, nd).value.entries);
    }
  }

  lemma {:induction false} ItemHoldable(file: string, pos: nat, nLists: nat, nDicts: nat)
    requires ParseItem(file, pos, nLists, nDicts).Some?
    ensures AllHoldable(ParseItem(file, pos, nLists, nDicts).value.found)
    decreases |file| - pos, 1
  {
    var f := GetField(file, pos).value;
    if f.mark.Some? && f.mark.value != 'e' {
      ParsedIsHoldable(file, f.pos);
    }
  }

  // ---------------------------------------------------------------- containers that do not survive

  /** A signed number comes back without its sign, and an empty dictionary stops the parser. */
  lemma SignAndEmptinessAreLost()
    ensures var n := Dict([Entry("a", 0, 0, 0, Str("-5"))]);
            ParseAt(Print(n), 0).Some? && !SameContent(ParseAt(Print(n), 0).value.node, n)
    ensures ParseAt(Print(Dict([])), 0).None?
  {
    var n := Dict([Entry("a", 0, 0, 0, Str("-5"))]);
    assert Body("-5") == "5" && AllDigits("5");
    assert Value("5") == 5 by {
      assert "5"[..0] == [];
    }
    assert IsNumber("-5");
    assert PrintableEntry(n.entries[0]) && !SupportedEntry(n.entries[0]);
    ParsePrinted(Print(n), 0, n);
    assert RereadEntries(n.entries[1..], RereadChild(n.entries[0], "a", 1, 1 + |PrintString("a")|).value.end).Some?;
    ParsePrintedKeepsIff(n);
    ParsePrintedKeepsIff(Dict([]));
    ParsePrinted(Print(Dict([])), 0, Dict([]));
  }
}
