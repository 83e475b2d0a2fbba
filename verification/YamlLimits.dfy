/** What the reader does with text outside the printer's trees: which map items read back, what the gate
    and the grammar refuse, and how a value is written. */
module YamlLimits {
  import opened Outcomes
  import opened Text
  import opened YamlLite
  import opened YamlWriting
  import opened YamlPrinter

  // ---------------------------------------------------------------- map items

  predicate DistinctKeys(entries: seq<Pair>) {
    forall i, j :: 0 <= i < j < |entries| ==> entries[i].key != entries[j].key
  }

  /** A map item with its first key on the line of the dash, that key's block at indent d, and the other
      entries two spaces deeper than the dash. */
  function PrintMapItem(entries: seq<Pair>, n: nat, d: nat): seq<string>
    requires entries != []
  {
    [Spaces(n) + ("- " + EntryText(entries[0].key, entries[0].node))] +
    (FirstBlock(entries[0].node, d) + PrintEntries(entries[1..], n + 2))
  }

  function FirstBlock(node: Node, d: nat): seq<string> {
    if IsBlock(node) then Below(node, d) else []
  }

  lemma {:induction false} PutFrom(entries: seq<Entry>, key: string, value: Yaml)
    ensures forall x :: x in Put(entries, key, value) ==> x in entries || x == Entry(key, value)
    ensures entries != [] ==> Put(entries, key, value)[0].key == entries[0].key
  {
    if entries != [] && entries[0].key != key {
      PutFrom(entries[1..], key, value);
    }
  }

  lemma {:induction false} UpdateFrom(entries: seq<Entry>, extra: seq<Entry>)
    ensures forall x :: x in Update(entries, extra) ==> x in entries || x in extra
    ensures entries != [] ==> Update(entries, extra) != [] && Update(entries, extra)[0].key == entries[0].key
    decreases |extra|
  {
    if extra != [] {
      PutFrom(entries, extra[0].key, extra[0].value);
      UpdateFrom(Put(entries, extra[0].key, extra[0].value), extra[1..]);
      assert extra == [extra[0]] + extra[1..];
    }
  }

  /** Whatever was merged from the nested dictionary and the other entries, the item does not begin with
      its own first entry. */
  lemma MergedIsNotMeant(meant: seq<Entry>, merged: seq<Entry>)
    requires meant != [] && meant[0].value.Map? && Distinct(meant)
    requires forall x :: x in merged ==> x in meant[0].value.entries || x in meant[1..]
    ensures Update([Entry(meant[0].key, Null)], merged) != meant
  {
    var e := meant[0];
    var result := Update([Entry(e.key, Null)], merged);
    UpdateFrom([Entry(e.key, Null)], merged);
    assert result[0] in result;
    assert forall k :: 0 <= k < |e.value.entries| ==> e.value.entries[k].value != e.value;
    assert forall x :: x in meant[1..] ==> x.key != e.key;
  }

  lemma {:induction false} FieldsKeys(entries: seq<Pair>)
    ensures |Fields(entries)| == |entries|
    ensures forall k :: 0 <= k < |entries| ==> Fields(entries)[k] == Entry(entries[k].key, Meaning(entries[k].node))
  {
    if entries != [] {
      FieldsKeys(entries[1..]);
    }
  }

  /** With distinct keys the dictionary is the entries as written. */
  lemma DistinctFields(entries: seq<Pair>)
    requires DistinctKeys(entries)
    ensures Distinct(Fields(entries)) && Meaning(Entries(entries)) == Map(Fields(entries))
  {
    FieldsKeys(entries);
    assert [] + Fields(entries) == Fields(entries);
    UpdateNew([], Fields(entries));
  }

  /** The lines of the item: the nested block, then the other entries, then whatever may follow an item.
      A nested block one space deeper must not end in a bare key. */
  ghost predicate ItemLines(lines: seq<string>, i: nat, n: nat, d: nat, entries: seq<Pair>)
    requires entries != []
  {
    && At(lines, i, PrintMapItem(entries, n, d)) && EndsDeeper(lines, i + |PrintMapItem(entries, n, d)|, n)
    && n < d && EntriesOk(entries) && DistinctKeys(entries)
    && !entries[0].node.Folded? && !StartsWith(entries[0].key, "{")
    && (d == n + 1 && entries[0].node.Entries? ==> !EndsBare(entries[0].node.entries))
  }

  lemma ItemParts(lines: seq<string>, i: nat, n: nat, d: nat, entries: seq<Pair>)
    requires entries != [] && ItemLines(lines, i, n, d, entries)
    ensures var others := PrintEntries(entries[1..], n + 2);
            var j := i + 1 + |FirstBlock(entries[0].node, d)|;
            && At(lines, i + 1, FirstBlock(entries[0].node, d)) && At(lines, j, others)
            && EndsDeeper(lines, j + |others|, n)
            && (entries[1..] == [] ==> others == [])
            && (entries[1..] != [] ==> j < |lines| && Indent(lines[j]) == n + 2)
    ensures EntriesOk(entries[1..]) && KeyOk(entries[0].key) && NodeOk(entries[0].node)
  {
    hide KeyOk, Indent, PrintEntries, FirstBlock, EndsDeeper, NodeOk, EntryText;
    var others := PrintEntries(entries[1..], n + 2);
    var block := FirstBlock(entries[0].node, d);
    AtSplit(lines, i, [Spaces(n) + ("- " + EntryText(entries[0].key, entries[0].node))], block + others);
    AtSplit(lines, i + 1, block, others);
    if entries[1..] != [] {
      OthersFirstLine(entries[1..], n + 2);
    } else {
      NoLines(n + 2);
    }
    assert |PrintMapItem(entries, n, d)| == 1 + |block| + |others|;
  }

  lemma NoLines(n: nat)
    ensures PrintEntries([], n) == []
  {
  }

  /** With the first key left open, the item is read from the map loop at the nested indent. */
  lemma OpenItem(lines: seq<string>, i: nat, n: nat, d: nat, entries: seq<Pair>)
    requires entries != [] && ItemLines(lines, i, n, d, entries) && IsBlock(entries[0].node)
    ensures i + 1 < |lines| && Indent(lines[i + 1]) == d && (IsItem(Dedent(lines[i + 1])) <==> entries[0].node.Items?)
    ensures var m := MapFrom(lines, i + 1, d, []);
            ItemValue(lines, i + 1, n, EntryText(entries[0].key, entries[0].node)) ==
            if m.Failure? then Failure(m.error)
            else Success((Map(Update([Entry(entries[0].key, Null)], m.value.0)), m.value.1))
  {
    hide MapFrom, KeyOk, Indent, Dedent, Update, IsItem, NodeOk, PrintEntries, Strip, EntryText, Below;
    ItemParts(lines, i, n, d, entries);
    FirstLine(entries[0].node, d);
    assert lines[i + 1] == lines[i + 1..i + 1 + |FirstBlock(entries[0].node, d)|][0];
    FirstEntry(entries[0]);
  }

  /** A nested list under the first key is refused. */
  lemma NestedFirstListIsRefused(lines: seq<string>, i: nat, n: nat, d: nat, entries: seq<Pair>)
    requires entries != [] && ItemLines(lines, i, n, d, entries) && entries[0].node.Items?
    ensures ItemValue(lines, i + 1, n, EntryText(entries[0].key, entries[0].node)) == Failure(ListItemInMapping)
  {
    hide ItemLines, ItemValue, Indent, Dedent, IsItem, EntryText;
    OpenItem(lines, i, n, d, entries);
  }

  /** A nested map under the first key is merged into the item. */
  lemma NestedFirstKeyIsMerged(lines: seq<string>, i: nat, n: nat, d: nat, entries: seq<Pair>)
    requires entries != [] && ItemLines(lines, i, n, d, entries) && entries[0].node.Entries? && entries[1..] == []
    ensures var nested := Fields(entries[0].node.entries);
            ItemValue(lines, i + 1, n, EntryText(entries[0].key, entries[0].node)) ==
            Success((Map(Update([Entry(entries[0].key, Null)], nested)), i + |PrintMapItem(entries, n, d)|))
  {
    hide ItemValue, MapFrom, EntryText, Indent, Dedent, IsItem, KeyOk, NodeOk, PrintEntries, Update, Fields;
    OpenItem(lines, i, n, d, entries);
    ItemParts(lines, i, n, d, entries);
    NestedIsOk(entries[0].node);
    EntriesRoundTrip(lines, i + 1, d, [], entries[0].node.entries);
    UpdateInTurn([Entry(entries[0].key, Null)], [], Fields(entries[0].node.entries));
    assert Update([Entry(entries[0].key, Null)], []) == [Entry(entries[0].key, Null)] by { NoUpdate([Entry(entries[0].key, Null)]); }
  }

  lemma NoUpdate(entries: seq<Entry>)
    ensures Update(entries, []) == entries
  {
  }

  lemma NestedIsOk(node: Node)
    requires node.Entries? && NodeOk(node)
    ensures EntriesOk(node.entries)
  {
    hide KeyOk;
  }

  /** At any deeper indent and with any further entries, it is not read as the map that was meant. */
  lemma NestedFirstMapIsLost(lines: seq<string>, i: nat, n: nat, d: nat, entries: seq<Pair>)
    requires entries != [] && ItemLines(lines, i, n, d, entries) && entries[0].node.Entries?
    ensures var r := ItemValue(lines, i + 1, n, EntryText(entries[0].key, entries[0].node));
            r.Success? ==> r.value.0 != Meaning(Entries(entries))
  {
    hide ItemValue, MapFrom, EntryText, Indent, Dedent, IsItem, KeyOk, NodeOk, PrintEntries, Update;
    OpenItem(lines, i, n, d, entries);
    ItemParts(lines, i, n, d, entries);
    DistinctFields(entries);
    FieldsUnrolled(entries);
    var m := MapFrom(lines, i + 1, d, []);
    NestedThenOthers(lines, i + 1, n, d, entries);
    if m.Success? {
      MergedIsNotMeant(Fields(entries), m.value.0);
    }
  }

  lemma NestedThenOthers(lines: seq<string>, i: nat, n: nat, d: nat, entries: seq<Pair>)
    requires entries != [] && entries[0].node.Entries? && n < d
    requires NodeOk(entries[0].node) && EntriesOk(entries[1..])
    requires d == n + 1 ==> !EndsBare(entries[0].node.entries)
    requires var others := PrintEntries(entries[1..], n + 2);
             var j := i + |FirstBlock(entries[0].node, d)|;
             && At(lines, i, FirstBlock(entries[0].node, d)) && At(lines, j, others) && EndsDeeper(lines, j + |others|, n)
             && (entries[1..] == [] ==> others == [])
             && (entries[1..] != [] ==> j < |lines| && Indent(lines[j]) == n + 2)
    ensures var m := MapFrom(lines, i, d, []);
            m.Success? ==> forall x :: x in m.value.0 ==>
              x in Update([], Fields(entries[0].node.entries)) || x in Fields(entries[1..])
  {
    hide MapFrom, Indent, Dedent, KeyOk, PrintEntries, EntriesOk, Update, Fields;
    var nested, rest := entries[0].node.entries, entries[1..];
    var j := i + |FirstBlock(entries[0].node, d)|;
    NestedIsOk(entries[0].node);
    EntriesStep(lines, i, d, [], nested);
    var acc := Update([], Fields(nested));
    if rest == [] || n + 2 < d {
      MapStops(lines, j, d, acc);
    } else if n + 2 == d {
      EntriesStep(lines, j, d, acc, rest);
      MapStops(lines, j + |PrintEntries(rest, d)|, d, Update(acc, Fields(rest)));
      UpdateFrom(acc, Fields(rest));
    } else {
      TooDeep(lines, j, d, acc);
    }
  }

  lemma TooDeep(lines: seq<string>, i: nat, n: nat, acc: seq<Entry>)
    requires i < |lines| && Indent(lines[i]) > n
    ensures MapFrom(lines, i, n, acc) == Failure(InvalidIndentation)
  {
    hide Indent, Dedent;
  }

  /** The exact condition: a printed map item reads back if and only if its first value is no block. */
  lemma MapItemReadsBackIff(lines: seq<string>, i: nat, n: nat, d: nat, entries: seq<Pair>)
    requires entries != [] && ItemLines(lines, i, n, d, entries)
    ensures ItemValue(lines, i + 1, n, EntryText(entries[0].key, entries[0].node)) ==
            Success((Meaning(Entries(entries)), i + |PrintMapItem(entries, n, d)|))
            <==> !IsBlock(entries[0].node)
  {
    hide ItemValue, Indent, Dedent, KeyOk, PrintEntries, EntryText;
    if entries[0].node.Items? {
      NestedFirstListIsRefused(lines, i, n, d, entries);
    } else if entries[0].node.Entries? {
      NestedFirstMapIsLost(lines, i, n, d, entries);
    } else {
      assert FirstBlock(entries[0].node, d) + PrintEntries(entries[1..], n + 2) == PrintEntries(entries[1..], n + 2);
      assert PrintMapItem(entries, n, d) == PrintItem(Entries(entries), n);
      MapItemRoundTrip(lines, i, n, entries);
    }
  }

  // ---------------------------------------------------------------- every value can be written

  /** Scalars other than floats with odd digits, strings on one line, maps with distinct usable keys, and
      lists whose items the reader can hold. */
  predicate Writable(v: Yaml)
    decreases v
  {
    match v
    case Null => true
    case Bool(_) => true
    case Int(_) => true
    case Float(text) => FloatText(text)
    case Str(s) => NoBreaks(s)
    case List(items) =>
      items != [] && forall k :: 0 <= k < |items| ==> Writable(items[k]) && ItemOk(NodeOf(items[k]))
    case Map(entries) =>
      && entries != [] && Distinct(entries)
      && forall k :: 0 <= k < |entries| ==> KeyOk(entries[k].key) && Writable(entries[k].value)
  }

  /** The canonical way to write a value: every string in double quotes. */
  function NodeOf(v: Yaml): Node
    decreases v
  {
    match v
    case Null => Leaf(NullWord("null"))
    case Bool(b) => Leaf(if b then TrueWord("true") else FalseWord("false"))
    case Int(i) => Leaf(Whole(i))
    case Float(text) => Leaf(Fraction(text))
    case Str(s) => Leaf(DoubleQuoted(s))
    case List(items) => Items(NodesOf(items))
    case Map(entries) => Entries(PairsOf(entries))
  }

  function NodesOf(items: seq<Yaml>): (nodes: seq<Node>)
    decreases items
  {
    if items == [] then [] else [NodeOf(items[0])] + NodesOf(items[1..])
  }

  function PairsOf(entries: seq<Entry>): (pairs: seq<Pair>)
    decreases entries
  {
    if entries == [] then [] else [Pair(entries[0].key, NodeOf(entries[0].value))] + PairsOf(entries[1..])
  }

  lemma {:induction false} EveryValueCanBeWritten(v: Yaml)
    requires Writable(v)
    ensures NodeOk(NodeOf(v)) && Meaning(NodeOf(v)) == v
    decreases v, 0
  {
    hide KeyOk;
    match v
    case List(items) => ItemsCanBeWritten(items);
    case Map(entries) =>
      EntriesCanBeWritten(entries);
      assert [] + entries == entries;
      UpdateNew([], entries);
    case _ =>
  }

  lemma {:induction false} ItemsCanBeWritten(items: seq<Yaml>)
    requires forall k :: 0 <= k < |items| ==> Writable(items[k]) && ItemOk(NodeOf(items[k]))
    ensures |NodesOf(items)| == |items| && ItemsOk(NodesOf(items)) && Meanings(NodesOf(items)) == items
    decreases items, 0
  {
    hide ItemOk, NodeOk, Writable, NodeOf, Meaning;
    if items != [] {
      EveryValueCanBeWritten(items[0]);
      ItemsCanBeWritten(items[1..]);
      var nodes := NodesOf(items);
      assert nodes[0] == NodeOf(items[0]) && nodes[1..] == NodesOf(items[1..]);
    }
  }

  lemma {:induction false} EntriesCanBeWritten(entries: seq<Entry>)
    requires forall k :: 0 <= k < |entries| ==> KeyOk(entries[k].key) && Writable(entries[k].value)
    ensures |PairsOf(entries)| == |entries| && EntriesOk(PairsOf(entries)) && Fields(PairsOf(entries)) == entries
    decreases entries, 0
  {
    hide KeyOk, NodeOk, Writable, NodeOf, Meaning;
    if entries != [] {
      EveryValueCanBeWritten(entries[0].value);
      EntriesCanBeWritten(entries[1..]);
      var pairs := PairsOf(entries);
      assert pairs[0] == Pair(entries[0].key, NodeOf(entries[0].value)) && pairs[1..] == PairsOf(entries[1..]);
    }
  }

  // ---------------------------------------------------------------- the gate

  /** Text with a NUL, a tab, a tag mark, or an alias mark at its start or after white space is refused,
      each with its own error; nothing else is. */
  lemma GateRefuses(before: string, after: string, space: char, mark: char)
    requires IsSpace(space) && mark in {'&', '*'}
    ensures Document(before + "\0" + after) == Failure(NulByte)
    ensures '\0' !in before + after ==> Document(before + "\t" + after) == Failure(Tab)
    ensures '\0' !in before + after && '\t' !in before + after ==>
              Document(before + "!!" + after) == Failure(TagOrAlias) && Document([mark] + after) == Failure(TagOrAlias)
    ensures '\0' !in before + after && '\t' !in before + after && space !in {'\0', '\t'} ==>
              Document(before + [space, mark] + after) == Failure(TagOrAlias)
  {
    hide Block, KeptLines, SplitLines;
    var t1, t2, t3, t4, t5 := before + "\0" + after, before + "\t" + after, before + "!!" + after, [mark] + after, before + [space, mark] + after;
    assert t1[|before|] == '\0' && t2[|before|] == '\t';
    assert t3[|before|..][..2] == "!!" && StartsWith(t3[|before|..], "!!");
    assert t4[0] == mark;
    assert t5[|before| + 1] == mark && t5[|before|] == space;
    assert forall c :: c in t2 ==> c in before + after || c == '\t';
    assert forall c :: c in t3 ==> c in before + after || c == '!';
    assert forall c :: c in t4 ==> c in before + after || c == mark;
    assert forall c :: c in t5 ==> c in before + after || c in {space, mark};
  }

  lemma GatePasses(text: string)
    requires '\0' !in text && '\t' !in text && '!' !in text
    requires forall k :: 0 <= k < |text| && text[k] in {'&', '*'} ==> k > 0 && !IsSpace(text[k-1])
    ensures TextAllowed(text)
  {
    forall k | 0 <= k <= |text|
      ensures !StartsWith(text[k..], "!!")
    {
      if |text[k..]| >= 2 { assert text[k..][..2][0] == text[k]; }
    }
  }

  // ---------------------------------------------------------------- the grammar's errors

  /** One line that begins with something other than a space, a sharp or a dash and a space. */
  predicate Opens(t: string) {
    Tight(t) && t[0] != '#' && NoBreaks(t) && !(|t| >= 2 && t[..2] == "- ")
  }

  /** What is wrong with a map that goes wrong at its first or second line. */
  lemma MapErrors(t: string, key: string, w: Written, n: nat)
    requires KeyOk(key) && WrittenOk(w) && 0 < n
    ensures Opens(t) && ':' !in t ==> Block([t], 0, 0) == Failure(NoColon)
    ensures Opens(":" + t) ==> Block([":" + t], 0, 0) == Failure(EmptyKey)
    ensures Tight(t) ==> Block([Spaces(n) + t], 0, 0) == Failure(InvalidIndentation)
    ensures Block([EntryText(key, Leaf(w)), "- " + TextOf(w)], 0, 0) == Failure(ListItemInMapping)
    ensures Block([], 0, 0) == Failure(EndOfDocument)
  {
    hide TextOf, WrittenOk, KeyOk, Strip, MapValue, FindColon;
    NoColonFails(t);
    EmptyKeyFails(t);
    if Tight(t) { IndentOfSpaces(n, t); }
    ItemInMapFails(key, w);
  }

  lemma NoColonFails(t: string)
    ensures Opens(t) && ':' !in t ==> Block([t], 0, 0) == Failure(NoColon)
  {
    hide FindColon, Strip;
    if Opens(t) {
      IndentOfSpaces(0, t);
      assert Spaces(0) + t == t;
    }
  }

  lemma EmptyKeyFails(t: string)
    ensures Opens(":" + t) ==> Block([":" + t], 0, 0) == Failure(EmptyKey)
  {
    hide MapValue;
    var line := ":" + t;
    if Opens(line) {
      IndentOfSpaces(0, line);
      assert Spaces(0) + line == line;
      ColonAfterKey("", t);
      assert "" + ":" + t == line;
      StripEmpty();
    }
  }

  lemma ItemInMapFails(key: string, w: Written)
    requires KeyOk(key) && WrittenOk(w)
    ensures Block([EntryText(key, Leaf(w)), "- " + TextOf(w)], 0, 0) == Failure(ListItemInMapping)
  {
    hide TextOf, WrittenOk, KeyOk, MapValue, EntryText, Indent, Dedent, IsItem, Strip, MapFrom, LineOk;
    var lines := [EntryText(key, Leaf(w)), "- " + TextOf(w)];
    TextIsPlain(w);
    EntryLine(key, Leaf(w), 0);
    EntryTextIsPlain(key, Leaf(w));
    assert Spaces(0) + EntryText(key, Leaf(w)) == lines[0];
    DashLine(TextOf(w), 0);
    assert Spaces(0) + ("- " + TextOf(w)) == lines[1];
    ItemAfterKey(key, w, lines);
  }

  lemma ItemAfterKey(key: string, w: Written, lines: seq<string>)
    requires KeyOk(key) && WrittenOk(w) && |lines| == 2
    requires lines[0] == PrintEntry(key, Leaf(w), 0)[0] && Indent(lines[1]) == 0 && IsItem(Dedent(lines[1]))
    ensures MapFrom(lines, 0, 0, []) == Failure(ListItemInMapping)
  {
    hide TextOf, WrittenOk, KeyOk, MapValue, PrintEntry, Indent, Dedent, IsItem, MapFrom, Put;
    MapStep(lines, 0, 0, [], key, Leaf(w));
    LeafValue(lines, 1, 0, w);
    ItemStopsMap(lines, 1, 0, Put([], key, ScalarOf(w)));
  }

  lemma ItemStopsMap(lines: seq<string>, i: nat, n: nat, acc: seq<Entry>)
    requires i < |lines| && Indent(lines[i]) == n && IsItem(Dedent(lines[i]))
    ensures MapFrom(lines, i, n, acc) == Failure(ListItemInMapping)
  {
    hide Indent, Dedent, IsItem;
  }

  /** A document is empty when every line can be ignored. */
  lemma EmptyDocument(raw: seq<string>)
    requires forall k :: 0 <= k < |raw| ==> NoBreaks(raw[k])
    requires Noisy(raw, []) && TextAllowed(Join(raw))
    ensures Document(Join(raw)) == Failure(EmptyManifest)
  {
    hide Block, SplitLines, Join, Contains, HasAlias, Noisy;
    KeptOfJoin(raw);
    NoiseIsDropped(raw, []);
  }

  /** Lines left after the document's block are an error: a key after a list, say. */
  lemma TrailingContentFails(w: Written, key: string, raw: seq<string>)
    requires WrittenOk(w) && ItemOk(Leaf(w)) && KeyOk(key)
    requires raw == ["- " + TextOf(w), EntryText(key, Leaf(w))] && TextAllowed(Join(raw))
    ensures Document(Join(raw)) == Failure(TrailingContent)
  {
    hide TextOf, WrittenOk, KeyOk, EntryText, LineOk, SplitLines, Join, Contains, HasAlias, ItemOk, KeptLines, Block, IsSpace;
    KeyAfterList(w, key, raw);
    LineIsKept(raw[0]);
    LineIsKept(raw[1]);
    assert LinesOk(raw);
    KeptLinesKeepsAll(raw);
    KeptOfJoin(raw);
  }

  /** A list ends at a key of its own indent. */
  lemma KeyAfterList(w: Written, key: string, lines: seq<string>)
    requires WrittenOk(w) && ItemOk(Leaf(w)) && KeyOk(key)
    requires lines == ["- " + TextOf(w), EntryText(key, Leaf(w))]
    ensures Block(lines, 0, 0) == Success((List([ScalarOf(w)]), 1))
    ensures LineOk(lines[0]) && LineOk(lines[1])
  {
    hide TextOf, WrittenOk, KeyOk, EntryText, Indent, Dedent, IsItem, Strip, LineOk, ListFrom, ItemOk, MapFrom;
    TextIsPlain(w);
    EntryLine(key, Leaf(w), 0);
    EntryTextIsPlain(key, Leaf(w));
    assert Spaces(0) + EntryText(key, Leaf(w)) == lines[1];
    ItemLine(Leaf(w), 0);
    assert Spaces(0) + ("- " + TextOf(w)) == lines[0];
    assert lines[0] == PrintItem(Leaf(w), 0)[0];
    ListOfOne(w, lines);
  }

  lemma ListOfOne(w: Written, lines: seq<string>)
    requires WrittenOk(w) && ItemOk(Leaf(w)) && |lines| == 2
    requires lines[0] == PrintItem(Leaf(w), 0)[0] && Indent(lines[1]) == 0 && !IsItem(Dedent(lines[1]))
    ensures ListFrom(lines, 0, 0, []) == Success(([ScalarOf(w)], 1))
  {
    hide PrintItem, Indent, Dedent, IsItem, ListFrom, ItemOk, WrittenOk;
    LeafItemStep(lines, 1, 0, w);
    ListStep(lines, 0, 0, [], Leaf(w));
    ListStopsAtKey(lines, 1, 0, [ScalarOf(w)]);
    assert [] + [ScalarOf(w)] == [ScalarOf(w)];
  }

  lemma ListStopsAtKey(lines: seq<string>, i: nat, n: nat, acc: seq<Yaml>)
    requires i < |lines| && Indent(lines[i]) == n && !IsItem(Dedent(lines[i]))
    ensures ListFrom(lines, i, n, acc) == Success((acc, i))
  {
    hide Indent, Dedent, IsItem;
  }

  /** The lines of a block scalar are joined by single spaces. */
  lemma {:induction false} WordsJoin(chunks: seq<string>, chunk: string)
    requires chunks != []
    ensures JoinWords([]) == "" && JoinWords([chunk]) == chunk
    ensures JoinWords(chunks + [chunk]) == JoinWords(chunks) + " " + chunk
  {
    var all := chunks + [chunk];
    assert all[1..] == chunks[1..] + [chunk];
    if |chunks| == 1 {
      assert all[1..] == [chunk];
    } else {
      WordsJoin(chunks[1..], chunk);
      assert chunks[0] + " " + (JoinWords(chunks[1..]) + " " + chunk) == chunks[0] + " " + JoinWords(chunks[1..]) + " " + chunk;
    }
  }
}
