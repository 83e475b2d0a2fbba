/** Document trees, the text they are printed as, and the round trip through the reader. */
module YamlPrinter {
  import opened Outcomes
  import opened Text
  import opened YamlLite
  import opened YamlWriting

  // ---------------------------------------------------------------- documents

  /** A value as it is written: `Nothing` is a key with nothing after it, `Folded` a block scalar. */
  datatype Node =
    | Leaf(w: Written)
    | Nothing
    | Folded(mark: string, chunks: seq<string>)
    | Items(items: seq<Node>)
    | Entries(entries: seq<Pair>)

  datatype Pair = Pair(key: string, node: Node)

  /** The value a tree stands for: block scalars join their lines with spaces, and of several entries
      with one key the first gives the place and the last the value. */
  function Meaning(node: Node): Yaml
    decreases node
  {
    match node
    case Leaf(w) => ScalarOf(w)
    case Nothing => Null
    case Folded(_, chunks) => Str(JoinWords(chunks))
    case Items(items) => List(Meanings(items))
    case Entries(entries) => Map(Update([], Fields(entries)))
  }

  function Meanings(items: seq<Node>): (values: seq<Yaml>)
    decreases items
  {
    if items == [] then [] else [Meaning(items[0])] + Meanings(items[1..])
  }

  function Fields(entries: seq<Pair>): (fields: seq<Entry>)
    decreases entries
  {
    if entries == [] then [] else [Entry(entries[0].key, Meaning(entries[0].node))] + Fields(entries[1..])
  }

  predicate IsBlock(node: Node) {
    node.Items? || node.Entries?
  }

  // ---------------------------------------------------------------- the printer

  /** What stands after the colon, on the same line. */
  function Tail(node: Node): string {
    match node
    case Leaf(w) => TextOf(w)
    case Folded(mark, _) => mark
    case _ => ""
  }

  function EntryText(key: string, node: Node): string {
    key + ":" + if Tail(node) == "" then "" else " " + Tail(node)
  }

  /** What follows the dash.  A map item puts its first entry there. */
  function ItemText(node: Node): string {
    if node.Entries? && node.entries != [] then EntryText(node.entries[0].key, node.entries[0].node) else Tail(node)
  }

  function FoldLines(chunks: seq<string>, n: nat): (lines: seq<string>)
    ensures |lines| == |chunks|
  {
    if chunks == [] then [] else [Spaces(n) + chunks[0]] + FoldLines(chunks[1..], n)
  }

  /** The lines below the first one of an entry, at indent n. */
  function Below(node: Node, n: nat): seq<string>
    decreases node, 0
  {
    match node
    case Folded(_, chunks) => FoldLines(chunks, n)
    case Items(items) => PrintItems(items, n)
    case Entries(entries) => PrintEntries(entries, n)
    case _ => []
  }

  function PrintEntries(entries: seq<Pair>, n: nat): seq<string>
    decreases entries
  {
    if entries == [] then [] else PrintEntry(entries[0].key, entries[0].node, n) + PrintEntries(entries[1..], n)
  }

  function PrintEntry(key: string, node: Node, n: nat): seq<string>
    decreases node, 1
  {
    [Spaces(n) + EntryText(key, node)] + Below(node, n + 2)
  }

  function PrintItems(items: seq<Node>, n: nat): seq<string>
    decreases items
  {
    if items == [] then [] else PrintItem(items[0], n) + PrintItems(items[1..], n)
  }

  /** The other entries of a map item stand two spaces deeper than the dash. */
  function PrintItem(node: Node, n: nat): seq<string>
    decreases node, 1
  {
    [Spaces(n) + ("- " + ItemText(node))] +
    (match node
     case Entries(entries) => if entries == [] then [] else PrintEntries(entries[1..], n + 2)
     case Folded(_, chunks) => FoldLines(chunks, n + 2)
     case _ => [])
  }

  // ---------------------------------------------------------------- what can be printed

  predicate ChunkOk(chunk: string) {
    Tight(chunk) && chunk[0] != '#' && NoBreaks(chunk)
  }

  /** Maps with colon-free keys, lists of scalars, block scalars and of maps whose first value is a scalar
      or missing, nested at will. */
  predicate NodeOk(node: Node)
    decreases node
  {
    match node
    case Leaf(w) => WrittenOk(w)
    case Nothing => true
    case Folded(mark, chunks) => mark in {"|", ">"} && forall k :: 0 <= k < |chunks| ==> ChunkOk(chunks[k])
    case Items(items) => items != [] && ItemsOk(items)
    case Entries(entries) => entries != [] && EntriesOk(entries)
  }

  predicate EntriesOk(entries: seq<Pair>)
    decreases entries
  {
    forall k :: 0 <= k < |entries| ==> KeyOk(entries[k].key) && NodeOk(entries[k].node)
  }

  predicate ItemsOk(items: seq<Node>)
    decreases items
  {
    forall k :: 0 <= k < |items| ==> NodeOk(items[k]) && ItemOk(items[k])
  }

  /** A colon would turn a list scalar into a map, unless a brace comes first. */
  predicate ItemOk(node: Node) {
    match node
    case Leaf(w) => ':' !in TextOf(w) || StartsWith(TextOf(w), "{")
    case Folded(_, _) => true
    case Entries(entries) =>
      entries != [] && (entries[0].node.Leaf? || entries[0].node.Nothing?) && !StartsWith(entries[0].key, "{")
    case _ => false
  }

  // ---------------------------------------------------------------- single lines

  lemma TailIsPlain(node: Node)
    requires NodeOk(node) && Tail(node) != ""
    ensures Tight(Tail(node)) && NoBreaks(Tail(node)) && Strip(" " + Tail(node)) == Tail(node) && Strip(Tail(node)) == Tail(node)
    ensures IsFold(Tail(node)) <==> node.Folded?
  {
    if node.Leaf? { TextIsPlain(node.w); }
    StripAfterSpace(Tail(node));
    StripTight(Tail(node));
  }

  lemma TailIsEmptyIff(node: Node)
    requires NodeOk(node)
    ensures Tail(node) == "" <==> node.Nothing? || IsBlock(node)
  {
    if node.Leaf? { TextIsPlain(node.w); }
  }

  lemma EntryTextIsPlain(key: string, node: Node)
    requires KeyOk(key) && NodeOk(node)
    ensures var t := EntryText(key, node); Tight(t) && NoBreaks(t) && t[0] == key[0]
    ensures FindColon(EntryText(key, node)) == Some(|key|) && Strip(EntryText(key, node)[..|key|]) == key
    ensures Strip(EntryText(key, node)[|key|+1..]) == Tail(node) && !IsItem(EntryText(key, node))
  {
    hide Tail, IsFold, Strip, IsItem, IsSpace, KeyOk, FindColon, NodeOk, Tight, NoBreaks;
    var tail := Tail(node);
    var rest := if tail == "" then "" else " " + tail;
    assert EntryText(key, node) == key + ":" + rest;
    KeyLine(key, rest);
    EntryTextIsTight(key, node);
    StripEmpty();
    if tail != "" {
      TailIsPlain(node);
    }
  }

  lemma EntryTextIsTight(key: string, node: Node)
    requires KeyOk(key) && NodeOk(node)
    ensures var t := EntryText(key, node); Tight(t) && NoBreaks(t)
  {
    hide Tail, IsFold, Strip, IsItem, IsSpace, KeyOk, NodeOk, Tight, NoBreaks;
    var tail := Tail(node);
    if tail != "" {
      KeyBegins(key);
      TailIsPlain(node);
      JoinTight(key + ": ", tail);
      assert EntryText(key, node) == key + ": " + tail;
    } else {
      ColonEnds(key);
      assert EntryText(key, node) == key + ":";
    }
  }

  lemma KeyBegins(key: string)
    requires KeyOk(key)
    ensures key != "" && !IsSpace(key[0]) && NoBreaks(key + ": ")
  {
    assert forall k :: 0 <= k < |key| ==> (key + ": ")[k] == key[k];
  }

  lemma ColonEnds(key: string)
    requires KeyOk(key)
    ensures Tight(key + ":") && NoBreaks(key + ":")
  {
    assert forall k :: 0 <= k < |key| ==> (key + ":")[k] == key[k];
  }

  lemma JoinTight(a: string, b: string)
    requires a != "" && !IsSpace(a[0]) && NoBreaks(a) && Tight(b) && NoBreaks(b)
    ensures Tight(a + b) && NoBreaks(a + b) && (a + b)[0] == a[0]
  {
    var t := a + b;
    assert t[|t|-1] == b[|b|-1];
    assert forall k :: 0 <= k < |t| ==> t[k] == if k < |a| then a[k] else b[k-|a|];
  }

  lemma StripEmpty()
    ensures Strip("") == ""
  {
  }

  lemma ItemTextIsPlain(node: Node)
    requires NodeOk(node) && ItemOk(node)
    ensures Tight(ItemText(node)) && NoBreaks(ItemText(node))
  {
    hide Tail, IsFold, Strip, IsItem, IsSpace, EntryText;
    if node.Entries? {
      EntryTextIsPlain(node.entries[0].key, node.entries[0].node);
    } else {
      TailIsEmptyIff(node);
      TailIsPlain(node);
    }
  }

  lemma EntryLine(key: string, node: Node, n: nat)
    requires KeyOk(key) && NodeOk(node)
    ensures var line := PrintEntry(key, node, n)[0]; LineOk(line) && Indent(line) == n && Dedent(line) == EntryText(key, node)
  {
    hide NodeOk, EntryText, LineOk, Strip, FindColon;
    EntryTextIsPlain(key, node);
    KeyIsNoComment(key);
    IndentedLineOk(n, EntryText(key, node));
  }

  lemma KeyIsNoComment(key: string)
    requires KeyOk(key)
    ensures key[0] != '#'
  {
  }

  lemma ItemLine(node: Node, n: nat)
    requires NodeOk(node) && ItemOk(node)
    ensures var line := PrintItem(node, n)[0];
            LineOk(line) && Indent(line) == n && IsItem(Dedent(line)) && Strip(Dedent(line)[2..]) == ItemText(node)
  {
    hide NodeOk, ItemOk, ItemText, LineOk, Strip;
    ItemTextIsPlain(node);
    DashLine(ItemText(node), n);
  }

  lemma DashLine(rest: string, n: nat)
    requires Tight(rest) && NoBreaks(rest)
    ensures var line := Spaces(n) + ("- " + rest);
            LineOk(line) && Indent(line) == n && IsItem(Dedent(line)) && Strip(Dedent(line)[2..]) == rest
  {
    hide LineOk, Strip;
    StripTight(rest);
    var t := "- " + rest;
    assert t[|t|-1] == rest[|rest|-1];
    assert t[0] == '-' && t[2..] == rest && t[..2] == "- ";
    assert forall k :: 2 <= k < |t| ==> t[k] == rest[k-2];
    IndentedLineOk(n, t);
  }

  // ---------------------------------------------------------------- the round trip, in any surroundings

  /** The printed lines stand at index i. */
  predicate At(lines: seq<string>, i: nat, printed: seq<string>) {
    i + |printed| <= |lines| && lines[i..i + |printed|] == printed
  }

  lemma AtSplit(lines: seq<string>, i: nat, a: seq<string>, b: seq<string>)
    requires At(lines, i, a + b)
    ensures At(lines, i, a) && At(lines, i + |a|, b)
    ensures a != [] ==> lines[i] == a[0]
    ensures b != [] ==> lines[i + |a|] == b[0]
  {
    var part := lines[i..i + |a + b|];
    assert part[..|a|] == a && part[|a|..] == b;
    assert lines[i..i + |a|] == part[..|a|];
    assert lines[i + |a|..i + |a| + |b|] == part[|a|..];
    assert a != [] ==> part[0] == a[0];
    assert b != [] ==> part[|a|] == b[0];
  }

  /** A line that ends every block printed deeper than n. */
  predicate EndsDeeper(lines: seq<string>, i: nat, n: int) {
    i < |lines| ==> Indent(lines[i]) <= n
  }

  lemma FirstLine(node: Node, n: nat)
    requires IsBlock(node) && NodeOk(node)
    ensures Below(node, n) != []
    ensures Indent(Below(node, n)[0]) == n && (IsItem(Dedent(Below(node, n)[0])) <==> node.Items?)
  {
    hide EntryText, Indent, Dedent, LineOk, IsItem;
    if node.Entries? {
      var e := node.entries[0];
      EntryLine(e.key, e.node, n);
      EntryTextIsPlain(e.key, e.node);
    } else {
      ItemLine(node.items[0], n);
    }
  }

  /** One step of the map loop over a printed entry. */
  lemma MapStep(lines: seq<string>, i: nat, n: nat, acc: seq<Entry>, key: string, node: Node)
    requires KeyOk(key) && NodeOk(node)
    requires i < |lines| && lines[i] == PrintEntry(key, node, n)[0]
    ensures var m := MapValue(lines, i + 1, n, Tail(node));
            m.Success? ==> MapFrom(lines, i, n, acc) == MapFrom(lines, m.value.1, n, Put(acc, key, m.value.0))
  {
    hide NodeOk, EntryText, Indent, Dedent, LineOk, MapValue, Strip, KeyOk, IsItem, Tail;
    EntryLine(key, node, n);
    EntryTextIsPlain(key, node);
    KeyBegins(key);
  }

  /** Whether the last entry is a bare key, which must not be followed by anything deeper. */
  predicate EndsBare(entries: seq<Pair>) {
    entries != [] && entries[|entries|-1].node.Nothing?
  }

  lemma {:induction false} EntriesRoundTrip(lines: seq<string>, i: nat, n: nat, acc: seq<Entry>, entries: seq<Pair>)
    requires At(lines, i, PrintEntries(entries, n))
    requires EndsDeeper(lines, i + |PrintEntries(entries, n)|, n - 1)
    requires EntriesOk(entries)
    ensures MapFrom(lines, i, n, acc) == Success((Update(acc, Fields(entries)), i + |PrintEntries(entries, n)|))
    decreases entries, 1
  {
    hide MapFrom, PrintEntries, EntriesOk, Indent, Dedent, Fields;
    EntriesStep(lines, i, n, acc, entries);
    MapStops(lines, i + |PrintEntries(entries, n)|, n, Update(acc, Fields(entries)));
  }

  /** The map loop over printed entries, whatever came before and whatever follows them: it writes them to
      the dictionary one after the other. */
  lemma {:induction false} EntriesStep(lines: seq<string>, i: nat, n: nat, acc: seq<Entry>, entries: seq<Pair>)
    requires At(lines, i, PrintEntries(entries, n))
    requires EndsDeeper(lines, i + |PrintEntries(entries, n)|, if EndsBare(entries) then n else n + 1)
    requires EntriesOk(entries)
    ensures MapFrom(lines, i, n, acc) == MapFrom(lines, i + |PrintEntries(entries, n)|, n, Update(acc, Fields(entries)))
    decreases entries, 0
  {
    hide NodeOk, MapFrom, MapValue, PrintEntry, Put, Indent, Dedent, KeyOk, Tail;
    if entries != [] {
      Unrolled(entries, n);
      var e, rest := entries[0], entries[1..];
      var first, others := PrintEntry(e.key, e.node, n), PrintEntries(rest, n);
      EntryLine(e.key, e.node, n);
      AtSplit(lines, i, first, others);
      NextEntry(lines, i + |first|, n, rest);
      assert EndsDeeper(lines, i + |first|, if e.node.Nothing? then n else n + 1);
      assert EndsBare(rest) ==> EndsBare(entries);
      hide At, EndsDeeper, LineOk, EntryText, EntriesOk, PrintEntries, EndsBare;
      EntryRoundTrip(lines, i, n, e.key, e.node);
      MapStep(lines, i, n, acc, e.key, e.node);
      FieldsUnrolled(entries);
      EntriesStep(lines, i + |first|, n, Put(acc, e.key, Meaning(e.node)), rest);
    }
  }

  lemma FieldsUnrolled(entries: seq<Pair>)
    requires entries != []
    ensures Fields(entries) == [Entry(entries[0].key, Meaning(entries[0].node))] + Fields(entries[1..])
    ensures Fields(entries)[1..] == Fields(entries[1..]) && Fields([]) == []
  {
  }

  lemma MapStops(lines: seq<string>, i: nat, n: nat, acc: seq<Entry>)
    requires i <= |lines| && EndsDeeper(lines, i, n - 1)
    ensures MapFrom(lines, i, n, acc) == Success((acc, i))
  {
    hide Indent, Dedent;
  }

  lemma Unrolled(entries: seq<Pair>, n: nat)
    requires entries != [] && EntriesOk(entries)
    ensures PrintEntries(entries, n) == PrintEntry(entries[0].key, entries[0].node, n) + PrintEntries(entries[1..], n)
    ensures PrintEntry(entries[0].key, entries[0].node, n) != []
    ensures KeyOk(entries[0].key) && NodeOk(entries[0].node) && EntriesOk(entries[1..])
  {
    hide KeyOk, NodeOk;
  }

  /** After an entry comes the next one, or the end of the block. */
  lemma NextEntry(lines: seq<string>, i: nat, n: nat, entries: seq<Pair>)
    requires At(lines, i, PrintEntries(entries, n)) && EntriesOk(entries)
    ensures entries != [] ==> EndsDeeper(lines, i, n)
    ensures entries == [] ==> PrintEntries(entries, n) == []
  {
    hide NodeOk, KeyOk, Indent, Dedent, EntryText;
    if entries != [] {
      var e := entries[0];
      EntryLine(e.key, e.node, n);
      AtSplit(lines, i, PrintEntry(e.key, e.node, n), PrintEntries(entries[1..], n));
    }
  }

  lemma {:induction false} EntryRoundTrip(lines: seq<string>, i: nat, n: nat, key: string, node: Node)
    requires NodeOk(node)
    requires At(lines, i, PrintEntry(key, node, n))
    requires EndsDeeper(lines, i + |PrintEntry(key, node, n)|, if node.Nothing? then n else n + 1)
    ensures i + 1 <= |lines|
    ensures MapValue(lines, i + 1, n, Tail(node)) == Success((Meaning(node), i + |PrintEntry(key, node, n)|))
    decreases node, 1
  {
    hide WrittenOk, EntryText, Indent, Dedent, TextOf, JoinWords, MapValue;
    AtSplit(lines, i, [Spaces(n) + EntryText(key, node)], Below(node, n + 2));
    match node
    case Leaf(w) =>
      LeafValue(lines, i + 1, n, w);
    case Nothing =>
      NothingValue(lines, i + 1, n);
    case Folded(mark, chunks) =>
      FoldValue(lines, i + 1, n, mark, chunks);
    case _ =>
      hide NodeOk;
      FirstLine(node, n + 2);
      BlockRoundTrip(lines, i + 1, n + 2, node);
      BlockValue(lines, i + 1, n);
  }

  lemma LeafValue(lines: seq<string>, i: nat, n: nat, w: Written)
    requires WrittenOk(w) && i <= |lines|
    ensures MapValue(lines, i, n, TextOf(w)) == Success((ScalarOf(w), i))
  {
    hide Block, Multiline, ParseScalar, WrittenOk, TextOf, Indent;
    TextIsPlain(w);
    ScalarRoundTrip(w);
  }

  lemma NothingValue(lines: seq<string>, i: nat, n: nat)
    requires i <= |lines| && EndsDeeper(lines, i, n)
    ensures MapValue(lines, i, n, "") == Success((Null, i))
  {
    hide Block, Multiline, ParseScalar, Indent;
  }

  lemma FoldValue(lines: seq<string>, i: nat, n: nat, mark: string, chunks: seq<string>)
    requires NodeOk(Folded(mark, chunks)) && At(lines, i, FoldLines(chunks, n + 2)) && EndsDeeper(lines, i + |chunks|, n + 1)
    ensures MapValue(lines, i, n, mark) == Success((Str(JoinWords(chunks)), i + |chunks|))
  {
    hide Block, ParseScalar, Indent, Multiline, JoinWords;
    FoldRoundTrip(lines, i, n + 2, [], chunks);
    assert [] + chunks == chunks;
  }

  lemma BlockValue(lines: seq<string>, i: nat, n: nat)
    requires i < |lines| && Indent(lines[i]) > n
    ensures MapValue(lines, i, n, "") == Block(lines, i, Indent(lines[i]))
  {
    hide Block, Multiline, ParseScalar, Indent;
  }

  lemma {:induction false} FoldRoundTrip(lines: seq<string>, i: nat, n: nat, acc: seq<string>, chunks: seq<string>)
    requires At(lines, i, FoldLines(chunks, n)) && EndsDeeper(lines, i + |chunks|, n - 1)
    requires forall k :: 0 <= k < |chunks| ==> ChunkOk(chunks[k])
    ensures Multiline(lines, i, n, acc) == (acc + chunks, i + |chunks|)
    decreases |chunks|
  {
    hide Indent, Dedent;
    if chunks == [] {
      assert acc + chunks == acc;
    } else {
      AtSplit(lines, i, [Spaces(n) + chunks[0]], FoldLines(chunks[1..], n));
      IndentedLineOk(n, chunks[0]);
      FoldRoundTrip(lines, i + 1, n, acc + [chunks[0]], chunks[1..]);
      assert acc + [chunks[0]] + chunks[1..] == acc + chunks;
    }
  }

  lemma {:induction false} BlockRoundTrip(lines: seq<string>, i: nat, n: nat, node: Node)
    requires IsBlock(node) && NodeOk(node)
    requires At(lines, i, Below(node, n)) && EndsDeeper(lines, i + |Below(node, n)|, n - 1)
    ensures Block(lines, i, n) == Success((Meaning(node), i + |Below(node, n)|))
    decreases node, 0
  {
    hide MapFrom, ListFrom, PrintEntries, PrintItems, Indent, Dedent, KeyOk, ItemOk, Fields, Meanings;
    FirstLine(node, n);
    assert lines[i] == lines[i..i + |Below(node, n)|][0];
    match node
    case Entries(entries) =>
      EntriesRoundTrip(lines, i, n, [], entries);
    case Items(items) =>
      assert [] + Meanings(items) == Meanings(items);
      ItemsRoundTrip(lines, i, n, [], items);
  }

  lemma {:induction false} ItemsRoundTrip(lines: seq<string>, i: nat, n: nat, acc: seq<Yaml>, items: seq<Node>)
    requires At(lines, i, PrintItems(items, n)) && EndsDeeper(lines, i + |PrintItems(items, n)|, n - 1)
    requires ItemsOk(items)
    ensures ListFrom(lines, i, n, acc) == Success((acc + Meanings(items), i + |PrintItems(items, n)|))
    decreases items
  {
    hide NodeOk, ItemOk, ItemValue, PrintItem, Indent, Dedent, ItemText, Strip, LineOk, Meaning, ListFrom;
    if items == [] {
      assert acc + Meanings(items) == acc;
      ListStops(lines, i, n, acc);
    } else {
      hide At, PrintItems, Meanings, EndsDeeper;
      var v := items[0];
      var first, others := PrintItem(v, n), PrintItems(items[1..], n);
      FirstOfItems(lines, i, n, items);
      NextItem(lines, i + |first|, n, items[1..]);
      ItemRoundTrip(lines, i, n, v);
      ListStep(lines, i, n, acc, v);
      assert acc + [Meaning(v)] + Meanings(items[1..]) == acc + ([Meaning(v)] + Meanings(items[1..]));
      ItemsRoundTrip(lines, i + |first|, n, acc + [Meaning(v)], items[1..]);
    }
  }

  lemma FirstOfItems(lines: seq<string>, i: nat, n: nat, items: seq<Node>)
    requires items != [] && At(lines, i, PrintItems(items, n)) && ItemsOk(items)
    ensures var first, others := PrintItem(items[0], n), PrintItems(items[1..], n);
            && first != [] && PrintItems(items, n) == first + others && NodeOk(items[0]) && ItemOk(items[0]) && ItemsOk(items[1..])
            && At(lines, i, first) && At(lines, i + |first|, others) && i < |lines| && lines[i] == first[0]
    ensures Meanings(items) == [Meaning(items[0])] + Meanings(items[1..])
  {
    hide NodeOk, ItemOk, PrintItem, Meaning;
    PrintItemNotEmpty(items[0], n);
    AtSplit(lines, i, PrintItem(items[0], n), PrintItems(items[1..], n));
  }

  lemma ListStops(lines: seq<string>, i: nat, n: nat, acc: seq<Yaml>)
    requires i <= |lines| && EndsDeeper(lines, i, n - 1)
    ensures ListFrom(lines, i, n, acc) == Success((acc, i))
  {
    hide Indent, Dedent;
  }

  /** One step of the list loop over a printed item. */
  lemma ListStep(lines: seq<string>, i: nat, n: nat, acc: seq<Yaml>, node: Node)
    requires NodeOk(node) && ItemOk(node) && i < |lines| && lines[i] == PrintItem(node, n)[0]
    ensures var m := ItemValue(lines, i + 1, n, ItemText(node));
            m.Success? ==> ListFrom(lines, i, n, acc) == ListFrom(lines, m.value.1, n, acc + [m.value.0])
  {
    hide NodeOk, ItemOk, ItemText, Indent, Dedent, LineOk, ItemValue, Strip, IsItem;
    ItemLine(node, n);
  }

  lemma PrintItemNotEmpty(node: Node, n: nat)
    ensures PrintItem(node, n) != []
  {
  }

  lemma NextItem(lines: seq<string>, i: nat, n: nat, items: seq<Node>)
    requires At(lines, i, PrintItems(items, n)) && EndsDeeper(lines, i + |PrintItems(items, n)|, n - 1)
    requires ItemsOk(items)
    ensures EndsDeeper(lines, i, n)
  {
    hide NodeOk, ItemOk, Indent, Dedent, ItemText;
    if items != [] {
      ItemLine(items[0], n);
      AtSplit(lines, i, PrintItem(items[0], n), PrintItems(items[1..], n));
    }
  }

  /** One step of the list loop over a printed map item. */
  lemma ItemStep(lines: seq<string>, index: nat, n: nat, e: Pair)
    requires KeyOk(e.key) && !StartsWith(e.key, "{") && NodeOk(e.node) && (e.node.Leaf? || e.node.Nothing?) && index <= |lines|
    ensures var deeper := index < |lines| && Indent(lines[index]) > n;
            var m := if deeper then MapFrom(lines, index, Indent(lines[index]), []) else Success(([], index));
            m.Success? ==> ItemValue(lines, index, n, EntryText(e.key, e.node)) ==
                           Success((Map(Update([Entry(e.key, Meaning(e.node))], m.value.0)), m.value.1))
  {
    hide MapFrom, Indent, KeyOk, Strip, Block, Multiline, EntryText, IsFold, ParseScalar, WrittenOk, TextOf, FindColon;
    FirstEntry(e);
    TailIsEmptyIff(e.node);
    if e.node.Leaf? { ScalarRoundTrip(e.node.w); }
  }

  /** How the text of a first entry is taken apart. */
  lemma FirstEntry(e: Pair)
    requires KeyOk(e.key) && !StartsWith(e.key, "{") && NodeOk(e.node)
    ensures var text := EntryText(e.key, e.node);
            !IsFold(text) && text != "" && ':' in text && !StartsWith(text, "{") && FindColon(text) == Some(|e.key|) &&
            Strip(text[..|e.key|]) == e.key && Strip(text[|e.key|+1..]) == Tail(e.node)
  {
    hide Strip, IsItem, Tail, NodeOk;
    EntryTextIsPlain(e.key, e.node);
    var text := EntryText(e.key, e.node);
    assert |e.key| >= 1 && e.key[..1] == [e.key[0]];
    assert text[|e.key|] == ':' && |text| > 1;
    assert text[..1] == [text[0]];
  }

  lemma LeafItemStep(lines: seq<string>, index: nat, n: nat, w: Written)
    requires WrittenOk(w) && ItemOk(Leaf(w)) && index <= |lines|
    ensures ItemValue(lines, index, n, TextOf(w)) == Success((ScalarOf(w), index))
  {
    hide MapFrom, Block, Multiline, ParseScalar, TextOf, WrittenOk, Strip;
    TextIsPlain(w);
    ScalarRoundTrip(w);
  }

  lemma {:induction false} ItemRoundTrip(lines: seq<string>, i: nat, n: nat, node: Node)
    requires NodeOk(node) && ItemOk(node)
    requires At(lines, i, PrintItem(node, n)) && EndsDeeper(lines, i + |PrintItem(node, n)|, n)
    ensures i + 1 <= |lines|
    ensures ItemValue(lines, i + 1, n, ItemText(node)) == Success((Meaning(node), i + |PrintItem(node, n)|))
    decreases node, 1
  {
    hide ItemValue, Indent, TextOf, EntryText, PrintEntries, FoldLines, JoinWords;
    match node
    case Leaf(w) =>
      LeafItemRoundTrip(lines, i, n, w);
    case Folded(mark, chunks) =>
      FoldItemRoundTrip(lines, i, n, mark, chunks);
    case Entries(entries) =>
      hide ItemValue, PrintItem, Indent, Fields, Update, ItemText;
      MapItemRoundTrip(lines, i, n, entries);
  }

  lemma LeafItemRoundTrip(lines: seq<string>, i: nat, n: nat, w: Written)
    requires WrittenOk(w) && ItemOk(Leaf(w)) && At(lines, i, PrintItem(Leaf(w), n))
    ensures i + 1 <= |lines|
    ensures ItemValue(lines, i + 1, n, ItemText(Leaf(w))) == Success((ScalarOf(w), i + |PrintItem(Leaf(w), n)|))
  {
    hide ItemValue, WrittenOk, TextOf;
    LeafItemStep(lines, i + 1, n, w);
  }

  lemma FoldItemRoundTrip(lines: seq<string>, i: nat, n: nat, mark: string, chunks: seq<string>)
    requires NodeOk(Folded(mark, chunks)) && At(lines, i, PrintItem(Folded(mark, chunks), n))
    requires EndsDeeper(lines, i + 1 + |chunks|, n)
    ensures i + 1 <= |lines| && |PrintItem(Folded(mark, chunks), n)| == 1 + |chunks|
    ensures ItemValue(lines, i + 1, n, ItemText(Folded(mark, chunks))) == Success((Str(JoinWords(chunks)), i + 1 + |chunks|))
  {
    hide ItemValue, FoldLines, JoinWords;
    AtSplit(lines, i, [Spaces(n) + ("- " + mark)], FoldLines(chunks, n + 2));
    FoldItemStep(lines, i + 1, n, mark, chunks);
  }

  lemma {:induction false} MapItemRoundTrip(lines: seq<string>, i: nat, n: nat, entries: seq<Pair>)
    requires NodeOk(Entries(entries)) && ItemOk(Entries(entries))
    requires At(lines, i, PrintItem(Entries(entries), n)) && EndsDeeper(lines, i + |PrintItem(Entries(entries), n)|, n)
    ensures i + 1 <= |lines|
    ensures ItemValue(lines, i + 1, n, ItemText(Entries(entries))) ==
            Success((Map(Update([], Fields(entries))), i + |PrintItem(Entries(entries), n)|))
    decreases entries, 1
  {
    hide ItemValue, MapFrom, PrintEntries, Indent, KeyOk, NodeOk, EntryText, Fields, Update, At, PrintItem, ItemText, EntriesOk;
    MapItemLines(lines, i, n, Entries(entries));
    MapItemParts(Entries(entries));
    ItemStep(lines, i + 1, n, entries[0]);
    OtherEntriesRoundTrip(lines, i + 1, n, entries);
    ItemDictionary(entries);
  }

  lemma FoldItemStep(lines: seq<string>, index: nat, n: nat, mark: string, chunks: seq<string>)
    requires NodeOk(Folded(mark, chunks)) && index <= |lines|
    requires At(lines, index, FoldLines(chunks, n + 2)) && EndsDeeper(lines, index + |chunks|, n)
    ensures ItemValue(lines, index, n, mark) == Success((Str(JoinWords(chunks)), index + |chunks|))
  {
    hide MapFrom, Block, Multiline, JoinWords, Indent, Dedent;
    FoldRoundTrip(lines, index, n + 2, [], chunks);
    assert [] + chunks == chunks;
  }

  lemma MapItemLines(lines: seq<string>, i: nat, n: nat, node: Node)
    requires node.Entries? && node.entries != [] && At(lines, i, PrintItem(node, n))
    ensures var e, others := node.entries[0], PrintEntries(node.entries[1..], n + 2);
            i + 1 <= |lines| && At(lines, i + 1, others) && |PrintItem(node, n)| == 1 + |others| && ItemText(node) == EntryText(e.key, e.node)
  {
    hide PrintEntries, EntryText;
    AtSplit(lines, i, [Spaces(n) + ("- " + ItemText(node))], PrintEntries(node.entries[1..], n + 2));
  }

  lemma MapItemParts(node: Node)
    requires node.Entries? && NodeOk(node)
    ensures node.entries != [] && KeyOk(node.entries[0].key) && NodeOk(node.entries[0].node) && EntriesOk(node.entries[1..])
  {
    hide KeyOk;
  }

  /** The entries of an item below its dash: read as a map of their own, or absent. */
  lemma {:induction false} OtherEntriesRoundTrip(lines: seq<string>, i: nat, n: nat, entries: seq<Pair>)
    requires entries != [] && EntriesOk(entries[1..])
    requires var others := PrintEntries(entries[1..], n + 2); At(lines, i, others) && EndsDeeper(lines, i + |others|, n)
    ensures i <= |lines|
    ensures var others := PrintEntries(entries[1..], n + 2);
            var deeper := i < |lines| && Indent(lines[i]) > n;
            var m := if deeper then MapFrom(lines, i, Indent(lines[i]), []) else Success(([], i));
            m == Success((Update([], Fields(entries[1..])), i + |others|))
    decreases entries, 0
  {
    hide MapFrom, KeyOk, Indent, Dedent, NodeOk;
    var rest := entries[1..];
    if rest == [] {
      assert PrintEntries(rest, n + 2) == [] && Fields(rest) == [];
    } else {
      hide PrintEntries, Fields;
      OthersFirstLine(rest, n + 2);
      assert lines[i] == lines[i..i + |PrintEntries(rest, n + 2)|][0];
      EntriesRoundTrip(lines, i, n + 2, [], rest);
    }
  }

  lemma OthersFirstLine(entries: seq<Pair>, n: nat)
    requires entries != [] && EntriesOk(entries)
    ensures PrintEntries(entries, n) != [] && Indent(PrintEntries(entries, n)[0]) == n
  {
    hide KeyOk, Indent;
    FirstLine(Entries(entries), n);
  }

  /** The first entry, updated with the dictionary of the others, is the dictionary of all. */
  lemma ItemDictionary(entries: seq<Pair>)
    requires entries != []
    ensures var e := Entry(entries[0].key, Meaning(entries[0].node));
            Update([e], Update([], Fields(entries[1..]))) == Update([], Fields(entries))
  {
    hide Meaning;
    var e := Entry(entries[0].key, Meaning(entries[0].node));
    var rest := Fields(entries[1..]);
    UpdateInTurn([e], [], rest);
    assert Fields(entries)[1..] == rest;
    assert Update([e], []) == [e];
    assert Put([], e.key, e.value) == [e];
  }

  // ---------------------------------------------------------------- whole documents

  lemma {:induction false} BelowLinesOk(node: Node, n: nat)
    requires NodeOk(node)
    ensures LinesOk(Below(node, n))
    decreases node, 0
  {
    hide LineOk, KeyOk, ItemOk, ChunkOk, WrittenOk;
    match node
    case Entries(entries) => EntryLinesOk(entries, n);
    case Items(items) => ItemLinesOk(items, n);
    case Folded(_, chunks) => FoldLinesOk(chunks, n);
    case _ =>
  }

  lemma {:induction false} FoldLinesOk(chunks: seq<string>, n: nat)
    requires forall k :: 0 <= k < |chunks| ==> ChunkOk(chunks[k])
    ensures LinesOk(FoldLines(chunks, n))
  {
    hide LineOk;
    if chunks != [] {
      IndentedLineOk(n, chunks[0]);
      FoldLinesOk(chunks[1..], n);
    }
  }

  lemma {:induction false} EntryLinesOk(entries: seq<Pair>, n: nat)
    requires EntriesOk(entries)
    ensures LinesOk(PrintEntries(entries, n))
    decreases entries
  {
    hide LineOk, KeyOk, NodeOk, EntryText, Below;
    if entries != [] {
      var e := entries[0];
      EntryLine(e.key, e.node, n);
      BelowLinesOk(e.node, n + 2);
      EntryLinesOk(entries[1..], n);
    }
  }

  lemma {:induction false} ItemLinesOk(items: seq<Node>, n: nat)
    requires ItemsOk(items)
    ensures LinesOk(PrintItems(items, n))
    decreases items
  {
    hide LineOk, KeyOk, NodeOk, ItemText, PrintEntries;
    if items != [] {
      ItemLine(items[0], n);
      OneItemLinesOk(items[0], n);
      ItemLinesOk(items[1..], n);
    }
  }

  lemma {:induction false} OneItemLinesOk(node: Node, n: nat)
    requires NodeOk(node) && ItemOk(node)
    ensures LinesOk(PrintItem(node, n))
    decreases node, 1
  {
    hide LineOk, KeyOk, ItemText, PrintEntries, FoldLines, ChunkOk, WrittenOk;
    ItemLine(node, n);
    match node
    case Entries(entries) =>
      MapItemParts(node);
      EntryLinesOk(entries[1..], n + 2);
    case Folded(_, chunks) => FoldLinesOk(chunks, n + 2);
    case _ =>
  }

  /** Lines as they may stand in a file: the printed ones, with white space after them, and any blank
      lines and comments in between. */
  predicate Noisy(raw: seq<string>, lines: seq<string>)
    decreases |raw|
  {
    if raw == [] then lines == []
    else
      || (Ignorable(raw[0]) && Noisy(raw[1..], lines))
      || (lines != [] && Rstrip(raw[0]) == lines[0] && Noisy(raw[1..], lines[1..]))
  }

  /** Nothing but white space, or a number sign after it. */
  predicate Ignorable(line: string) {
    Lstrip(line) == "" || Lstrip(line)[0] == '#'
  }

  lemma {:induction false} NoiseIsDropped(raw: seq<string>, lines: seq<string>)
    requires Noisy(raw, lines) && LinesOk(lines)
    ensures KeptLines(raw) == lines
    decreases |raw|
  {
    hide LineOk, Ignorable;
    if raw != [] {
      if Ignorable(raw[0]) && Noisy(raw[1..], lines) {
        IgnorableIsDropped(raw[0]);
        NoiseIsDropped(raw[1..], lines);
      } else {
        LineIsKept(lines[0]);
        assert LinesOk(lines[1..]);
        NoiseIsDropped(raw[1..], lines[1..]);
      }
    }
  }

  lemma IgnorableIsDropped(line: string)
    requires Ignorable(line)
    ensures !Kept(Rstrip(line))
  {
    StripOrder(line);
    var left := Lstrip(Rstrip(line));
    if Lstrip(line) != "" {
      RstripKeepsFirst(Lstrip(line));
      assert left[..1] == "#";
    }
  }

  /** Stripping both ends in either order. */
  lemma {:induction false} StripOrder(line: string)
    ensures Lstrip(Rstrip(line)) == Rstrip(Lstrip(line))
    decreases |line|
  {
    if line != "" && IsSpace(line[0]) {
      StripOrder(line[1..]);
      RstripTail(line);
    } else if line != "" {
      RstripKeepsFirst(line);
    }
  }

  lemma {:induction false} RstripKeepsFirst(line: string)
    requires line != "" && !IsSpace(line[0])
    ensures Rstrip(line) != "" && Rstrip(line)[0] == line[0]
    decreases |line|
  {
    if IsSpace(line[|line|-1]) {
      RstripKeepsFirst(line[..|line|-1]);
    }
  }

  lemma {:induction false} RstripTail(line: string)
    requires line != "" && IsSpace(line[0])
    ensures Lstrip(Rstrip(line)) == Lstrip(Rstrip(line[1..]))
    decreases |line|
  {
    var n := |line| - 1;
    if IsSpace(line[n]) {
      if n > 0 {
        assert line[..n][1..] == line[1..][..n-1];
        RstripTail(line[..n]);
      }
    } else {
      assert Rstrip(line) == line;
      assert line[1..][|line[1..]|-1] == line[n];
    }
  }

  /** Reading a document gives its meaning exactly when the text passes the reader's first gate: for every
      tree, and with blank lines, comments and trailing white space anywhere. */
  lemma DocumentRoundTrip(node: Node, raw: seq<string>)
    requires IsBlock(node) && NodeOk(node) && Noisy(raw, Below(node, 0))
    requires forall k :: 0 <= k < |raw| ==> NoBreaks(raw[k])
    ensures var text := Join(raw); Document(text) == Success(Meaning(node)) <==> TextAllowed(text)
  {
    hide NodeOk, Below, Block, LineOk, Contains, HasAlias, SplitLines, Join, KeptLines, Noisy, Meaning;
    var lines := Below(node, 0);
    FirstLine(node, 0);
    BelowLinesOk(node, 0);
    KeptOfJoin(raw);
    NoiseIsDropped(raw, lines);
    BlockRoundTrip(lines, 0, 0, node);
  }

  /** Joining and splitting lose at most empty lines at the end. */
  lemma {:induction false} KeptOfJoin(raw: seq<string>)
    requires forall k :: 0 <= k < |raw| ==> NoBreaks(raw[k])
    ensures KeptLines(SplitLines(Join(raw))) == KeptLines(raw)
    decreases |raw|
  {
    assert IsBreak('\n');
    hide IsBreak, Kept, IsSpace, Rstrip;
    if |raw| == 1 {
      assert Join(raw) == raw[0];
      if raw[0] == "" {
        EmptyIsDropped();
      } else {
        assert LineLength(raw[0]) == |raw[0]|;
      }
    } else if |raw| > 1 {
      SplitAtBreak(raw[0], "\n", Join(raw[1..]));
      KeptOfJoin(raw[1..]);
      var tail := SplitLines(Join(raw[1..]));
      assert ([raw[0]] + tail)[1..] == tail;
    }
  }

  lemma EmptyIsDropped()
    ensures KeptLines([""]) == [] && KeptLines([]) == []
  {
    assert Rstrip("") == "" && Strip("") == "";
  }
}
