/** The restricted YAML reader for strategy manifests. */
module YamlLite {
  import opened Outcomes
  import opened Text

  /** Parsed values.  A float keeps the digits it was written with; map entries keep insertion order. */
  datatype Yaml =
    | Null
    | Bool(b: bool)
    | Int(i: int)
    | Float(text: string)
    | Str(s: string)
    | List(items: seq<Yaml>)
    | Map(entries: seq<Entry>)

  datatype Entry = Entry(key: string, value: Yaml)

  datatype Error =
    | NulByte | Tab | TagOrAlias | EmptyManifest | TrailingContent
    | EndOfDocument | InvalidIndentation | ListItemInMapping | NoColon | EmptyKey | IndexError

  datatype Result<+T> = Failure(error: Error) | Success(value: T) {
    predicate IsFailure() {
      Failure?
    }

    function PropagateFailure<U>(): Result<U>
      requires Failure?
    {
      Failure(error)
    }

    function Extract(): T
      requires Success?
    {
      value
    }
  }

  // ---------------------------------------------------------------- scalars

  predicate Digits(s: string) {
    s != "" && forall k :: 0 <= k < |s| ==> IsDigit(s[k])
  }

  function Unsigned(s: string): string {
    if s != "" && s[0] == '-' then s[1..] else s
  }

  predicate IntText(s: string) {
    Digits(Unsigned(s))
  }

  predicate FloatText(s: string) {
    var u := Unsigned(s);
    exists k :: 0 <= k < |u| && u[k] == '.' && Digits(u[..k]) && Digits(u[k+1..])
  }

  function DigitValue(c: char): int {
    c as int - '0' as int
  }

  function DigitsValue(s: string): int {
    if s == "" then 0 else 10 * DigitsValue(s[..|s|-1]) + DigitValue(s[|s|-1])
  }

  function IntValue(s: string): int {
    if s != "" && s[0] == '-' then -DigitsValue(s[1..]) else DigitsValue(s)
  }

  predicate Quoted(s: string, quote: char) {
    s != "" && s[0] == quote && s[|s|-1] == quote
  }

  /** A lone quote character is both ends of itself and reads as the empty string. */
  function ParseScalar(raw: string): Yaml {
    if raw in {"null", "~", "Null"} then Null
    else if raw in {"true", "True"} then Bool(true)
    else if raw in {"false", "False"} then Bool(false)
    else if Quoted(raw, '"') || Quoted(raw, '\'') then Str(if |raw| == 1 then "" else raw[1..|raw|-1])
    else if IntText(raw) then Int(IntValue(raw))
    else if FloatText(raw) then Float(raw)
    else Str(raw)
  }

  // ---------------------------------------------------------------- dictionaries

  /** `d[key] = value`: an existing key keeps its place. */
  function Put(entries: seq<Entry>, key: string, value: Yaml): (after: seq<Entry>)
    ensures |entries| <= |after| <= |entries| + 1
  {
    if entries == [] then [Entry(key, value)]
    else if entries[0].key == key then [Entry(key, value)] + entries[1..]
    else [entries[0]] + Put(entries[1..], key, value)
  }

  function Update(entries: seq<Entry>, extra: seq<Entry>): seq<Entry>
    decreases |extra|
  {
    if extra == [] then entries else Update(Put(entries, extra[0].key, extra[0].value), extra[1..])
  }

  // ---------------------------------------------------------------- the grammar

  /** No line ends in white space. */
  predicate Trimmed(lines: seq<string>) {
    forall k :: 0 <= k < |lines| ==> Rstrip(lines[k]) == lines[k]
  }

  predicate GrammarError(e: Error) {
    e.InvalidIndentation? || e.ListItemInMapping? || e.NoColon? || e.EmptyKey?
  }

  lemma ItemIsNotEmpty(line: string)
    requires IsItem(Dedent(line))
    ensures Rstrip(line) == line ==> Strip(Dedent(line)[2..]) != ""
  {
    var rest := Dedent(line)[2..];
    if Rstrip(line) == line {
      RstripKeepsLast(line);
      var d := Dedent(line);
      assert d[1] == d[..2][1] == ' ';
      IndentAtMostLength(line);
      assert d[|d|-1] == line[|line|-1];
      StripKeepsNonSpace(rest);
    }
  }

  predicate IsItem(stripped: string) {
    StartsWith(stripped, "- ")
  }

  predicate IsFold(rest: string) {
    rest == "|" || rest == ">"
  }

  /** The lines of a block scalar, and where they end. */
  function Multiline(lines: seq<string>, index: nat, indent: nat, chunks: seq<string>): (r: (seq<string>, nat))
    requires index <= |lines|
    ensures index <= r.1 <= |lines|
    ensures r.1 < |lines| ==> Indent(lines[r.1]) < indent
    decreases |lines| - index
  {
    if index < |lines| && Indent(lines[index]) >= indent
    then Multiline(lines, index + 1, indent, chunks + [Dedent(lines[index])])
    else (chunks, index)
  }

  function JoinWords(chunks: seq<string>): string {
    if chunks == [] then "" else if |chunks| == 1 then chunks[0] else chunks[0] + " " + JoinWords(chunks[1..])
  }

  /** One value starting at `index`; every successful call consumes at least one line. */
  function Block(lines: seq<string>, index: nat, indent: nat): (r: Result<(Yaml, nat)>)
    ensures r.Success? ==> index < r.value.1 <= |lines|
    ensures Trimmed(lines) && index < |lines| && r.Failure? ==> GrammarError(r.error)
    decreases |lines| - index, 2
  {
    if index >= |lines| then Failure(EndOfDocument)
    else if Indent(lines[index]) != indent then Failure(InvalidIndentation)
    else if IsItem(Dedent(lines[index])) then
      var (items, next) :- ListFrom(lines, index, indent, []);
      Success((List(items), next))
    else
      var (entries, next) :- MapFrom(lines, index, indent, []);
      Success((Map(entries), next))
  }

  /** The rest of a map: it stops only at the end of input or at a smaller indent. */
  function MapFrom(lines: seq<string>, index: nat, indent: nat, acc: seq<Entry>): (r: Result<(seq<Entry>, nat)>)
    requires index <= |lines|
    ensures r.Success? ==> index <= r.value.1 <= |lines|
    ensures r.Success? && index < |lines| && indent <= Indent(lines[index]) ==> index < r.value.1
    ensures r.Success? && r.value.1 < |lines| ==> Indent(lines[r.value.1]) < indent
    ensures Trimmed(lines) && r.Failure? ==> GrammarError(r.error)
    decreases |lines| - index, 1
  {
    if index == |lines| || Indent(lines[index]) < indent then Success((acc, index))
    else if Indent(lines[index]) > indent then Failure(InvalidIndentation)
    else
      var stripped := Dedent(lines[index]);
      if IsItem(stripped) then Failure(ListItemInMapping)
      else if ':' !in stripped then Failure(NoColon)
      else
        var colon := FindColon(stripped).value;
        var key := Strip(stripped[..colon]);
        var rest := Strip(stripped[colon + 1..]);
        if key == "" then Failure(EmptyKey)
        else
          var (value, next) :- MapValue(lines, index + 1, indent, rest);
          MapFrom(lines, next, indent, Put(acc, key, value))
  }

  /** What follows the colon, possibly on the following lines. */
  function MapValue(lines: seq<string>, index: nat, indent: nat, rest: string): (r: Result<(Yaml, nat)>)
    requires index <= |lines|
    ensures r.Success? ==> index <= r.value.1 <= |lines|
    ensures Trimmed(lines) && r.Failure? ==> GrammarError(r.error)
    decreases |lines| - index, 3
  {
    if IsFold(rest) then
      var (chunks, next) := Multiline(lines, index, indent + 2, []);
      Success((Str(JoinWords(chunks)), next))
    else if rest != "" then Success((ParseScalar(rest), index))
    else if index >= |lines| || Indent(lines[index]) <= indent then Success((Null, index))
    else Block(lines, index, Indent(lines[index]))
  }

  /** The rest of a list: it also stops at a line of its own indent that is not an item. */
  function ListFrom(lines: seq<string>, index: nat, indent: nat, acc: seq<Yaml>): (r: Result<(seq<Yaml>, nat)>)
    requires index <= |lines|
    ensures r.Success? ==> index <= r.value.1 <= |lines|
    ensures r.Success? && index < |lines| && Indent(lines[index]) == indent && IsItem(Dedent(lines[index])) ==> index < r.value.1
    ensures r.Success? && r.value.1 < |lines| ==>
              Indent(lines[r.value.1]) < indent ||
              (Indent(lines[r.value.1]) == indent && !IsItem(Dedent(lines[r.value.1])))
    ensures Trimmed(lines) && r.Failure? ==> GrammarError(r.error)
    decreases |lines| - index, 1
  {
    if index == |lines| || Indent(lines[index]) < indent then Success((acc, index))
    else if Indent(lines[index]) != indent then Failure(InvalidIndentation)
    else
      var stripped := Dedent(lines[index]);
      if !IsItem(stripped) then Success((acc, index))
      else
        ItemIsNotEmpty(lines[index]);
        var (value, next) :- ItemValue(lines, index + 1, indent, Strip(stripped[2..]));
        ListFrom(lines, next, indent, acc + [value])
  }

  /** One item.  A first key with nothing after it does not open a nested value: deeper lines are
      merged into the item itself. */
  function ItemValue(lines: seq<string>, index: nat, indent: nat, rest: string): (r: Result<(Yaml, nat)>)
    requires index <= |lines|
    ensures r.Success? ==> index <= r.value.1 <= |lines|
    ensures Trimmed(lines) && rest != "" && r.Failure? ==> GrammarError(r.error)
    decreases |lines| - index, 3
  {
    if IsFold(rest) then
      var (chunks, next) := Multiline(lines, index, indent + 2, []);
      Success((Str(JoinWords(chunks)), next))
    else if rest != "" && !(':' in rest && !StartsWith(rest, "{")) then Success((ParseScalar(rest), index))
    else if rest != "" then
      var colon := FindColon(rest).value;
      var key := Strip(rest[..colon]);
      var after := Strip(rest[colon + 1..]);
      var first := Entry(key, if after != "" then ParseScalar(after) else Null);
      if index < |lines| && Indent(lines[index]) > indent then
        var (extra, next) :- MapFrom(lines, index, Indent(lines[index]), []);
        Success((Map(Update([first], extra)), next))
      else Success((Map([first]), index))
    else if index >= |lines| then Failure(IndexError)
    else Block(lines, index, Indent(lines[index]))
  }

  // ---------------------------------------------------------------- documents

  predicate Contains(s: string, sub: string) {
    exists k :: 0 <= k <= |s| && StartsWith(s[k..], sub)
  }

  predicate HasAlias(text: string) {
    exists k :: 0 <= k < |text| && (text[k] == '&' || text[k] == '*') && (k == 0 || IsSpace(text[k-1]))
  }

  predicate Kept(line: string) {
    Strip(line) != "" && !StartsWith(Lstrip(line), "#")
  }

  /** Blank lines and comments are dropped; the others lose their trailing white space. */
  function KeptLines(raw: seq<string>): (lines: seq<string>)
    ensures Trimmed(lines)
  {
    if raw == [] then []
    else
      var line := Rstrip(raw[0]);
      RstripTwice(raw[0]);
      (if Kept(line) then [line] else []) + KeptLines(raw[1..])
  }

  /** What the reader refuses before looking at lines. */
  predicate TextAllowed(text: string) {
    '\0' !in text && '\t' !in text && !Contains(text, "!!") && !HasAlias(text)
  }

  /** The whole reader: it only ever fails with one of its own errors, never by running off the lines. */
  function Document(text: string): (r: Result<Yaml>)
    ensures r.Failure? ==> r.error !in {EndOfDocument, IndexError}
  {
    if '\0' in text then Failure(NulByte)
    else if '\t' in text then Failure(Tab)
    else if Contains(text, "!!") || HasAlias(text) then Failure(TagOrAlias)
    else
      var lines := KeptLines(SplitLines(text));
      if lines == [] then Failure(EmptyManifest)
      else
        var (value, next) :- Block(lines, 0, 0);
        if next != |lines| then Failure(TrailingContent) else Success(value)
  }

  // ---------------------------------------------------------------- the loops

  method ParseMultiline(lines: seq<string>, start: nat, indent: nat) returns (folded: string, index: nat)
    requires start <= |lines|
    ensures var (chunks, next) := Multiline(lines, start, indent, []); folded == JoinWords(chunks) && index == next
  {
    var chunks := [];
    index := start;
    while index < |lines| && Indent(lines[index]) >= indent
      invariant index <= |lines|
      invariant Multiline(lines, start, indent, []) == Multiline(lines, index, indent, chunks)
    {
      chunks := chunks + [Dedent(lines[index])];
      index := index + 1;
    }
    folded := JoinWords(chunks);
  }

  method ParseBlock(lines: seq<string>, index: nat, indent: nat) returns (r: Result<(Yaml, nat)>)
    ensures r == Block(lines, index, indent)
    decreases |lines| - index, 2
  {
    if index >= |lines| {
      return Failure(EndOfDocument);
    }
    if Indent(lines[index]) != indent {
      return Failure(InvalidIndentation);
    }
    if IsItem(Dedent(lines[index])) {
      var found :- ParseList(lines, index, indent);
      return Success((List(found.0), found.1));
    }
    var found :- ParseMap(lines, index, indent);
    return Success((Map(found.0), found.1));
  }

  method ParseMap(lines: seq<string>, start: nat, indent: nat) returns (r: Result<(seq<Entry>, nat)>)
    requires start <= |lines|
    ensures r == MapFrom(lines, start, indent, [])
    decreases |lines| - start, 1
  {
    hide Block, ListFrom, Multiline, ParseScalar, Strip, Indent, Dedent, FindColon, Put, Update;
    var result, index := [], start;
    while index < |lines|
      invariant start <= index <= |lines|
      invariant MapFrom(lines, start, indent, []) == MapFrom(lines, index, indent, result)
    {
      var current := Indent(lines[index]);
      if current < indent {
        break;
      }
      if current > indent {
        return Failure(InvalidIndentation);
      }
      var stripped := Dedent(lines[index]);
      if IsItem(stripped) {
        return Failure(ListItemInMapping);
      }
      var colon := FindColon(stripped);
      if colon.None? {
        return Failure(NoColon);
      }
      var key := Strip(stripped[..colon.value]);
      if key == "" {
        return Failure(EmptyKey);
      }
      var rest := Strip(stripped[colon.value + 1..]);
      var value: Yaml;
      var next := index + 1;
      if IsFold(rest) {
        var folded;
        folded, next := ParseMultiline(lines, next, indent + 2);
        value := Str(folded);
      } else if rest != "" {
        value := ParseScalar(rest);
      } else if next >= |lines| || Indent(lines[next]) <= indent {
        value := Null;
      } else {
        var child :- ParseBlock(lines, next, Indent(lines[next]));
        value, next := child.0, child.1;
      }
      result, index := Put(result, key, value), next;
    }
    return Success((result, index));
  }

  method ParseMapContinue(lines: seq<string>, index: nat, indent: nat, item: seq<Entry>) returns (r: Result<(seq<Entry>, nat)>)
    requires index <= |lines|
    ensures var m := MapFrom(lines, index, indent, []);
            r == if m.Failure? then m else Success((Update(item, m.value.0), m.value.1))
    decreases |lines| - index, 2
  {
    var extra :- ParseMap(lines, index, indent);
    return Success((Update(item, extra.0), extra.1));
  }

  method ParseList(lines: seq<string>, start: nat, indent: nat) returns (r: Result<(seq<Yaml>, nat)>)
    requires start <= |lines|
    ensures r == ListFrom(lines, start, indent, [])
    decreases |lines| - start, 1
  {
    hide Block, MapFrom, Multiline, ParseScalar, Strip, Indent, Dedent, FindColon, Put, Update;
    var result, index := [], start;
    while index < |lines|
      invariant start <= index <= |lines|
      invariant ListFrom(lines, start, indent, []) == ListFrom(lines, index, indent, result)
    {
      var current := Indent(lines[index]);
      if current < indent {
        break;
      }
      if current != indent {
        return Failure(InvalidIndentation);
      }
      var stripped := Dedent(lines[index]);
      if !IsItem(stripped) {
        break;
      }
      var rest := Strip(stripped[2..]);
      var value: Yaml;
      var next := index + 1;
      if IsFold(rest) {
        var folded;
        folded, next := ParseMultiline(lines, next, indent + 2);
        value := Str(folded);
      } else if rest != "" && !(':' in rest && !StartsWith(rest, "{")) {
        value := ParseScalar(rest);
      } else if rest != "" {
        var colon := FindColon(rest).value;
        var after := Strip(rest[colon + 1..]);
        var item := [Entry(Strip(rest[..colon]), if after != "" then ParseScalar(after) else Null)];
        if next < |lines| && Indent(lines[next]) > indent {
          var nested :- ParseMapContinue(lines, next, Indent(lines[next]), item);
          item, next := nested.0, nested.1;
        }
        value := Map(item);
      } else {
        if next >= |lines| {
          return Failure(IndexError);
        }
        var child :- ParseBlock(lines, next, Indent(lines[next]));
        value, next := child.0, child.1;
      }
      result, index := result + [value], next;
    }
    return Success((result, index));
  }

  method ParseYamlLite(text: string) returns (r: Result<Yaml>)
    ensures r == Document(text)
  {
    if '\0' in text {
      return Failure(NulByte);
    }
    if '\t' in text {
      return Failure(Tab);
    }
    if Contains(text, "!!") || HasAlias(text) {
      return Failure(TagOrAlias);
    }
    var lines := KeptLines(SplitLines(text));
    if lines == [] {
      return Failure(EmptyManifest);
    }
    var found :- ParseBlock(lines, 0, 0);
    if found.1 != |lines| {
      return Failure(TrailingContent);
    }
    return Success(found.0);
  }
}
