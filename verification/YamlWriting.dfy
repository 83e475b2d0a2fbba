/** How scalars, keys and dictionaries are written, and that they read back. */
module YamlWriting {
  import opened Outcomes
  import opened Text
  import opened YamlLite

  // ---------------------------------------------------------------- scalars

  /** The ways to write a scalar. */
  datatype Written =
    | NullWord(word: string)
    | TrueWord(word: string)
    | FalseWord(word: string)
    | Whole(i: int)
    | Fraction(text: string)
    | DoubleQuoted(s: string)
    | SingleQuoted(s: string)
    | Bare(text: string)

  function DigitChar(d: nat): char
    requires d < 10
  {
    ('0' as int + d) as char
  }

  function DigitsText(n: nat): string {
    if n < 10 then [DigitChar(n)] else DigitsText(n / 10) + [DigitChar(n % 10)]
  }

  function WholeText(i: int): string {
    if i < 0 then "-" + DigitsText(-i) else DigitsText(i)
  }

  function TextOf(w: Written): string {
    match w
    case NullWord(word) => word
    case TrueWord(word) => word
    case FalseWord(word) => word
    case Whole(i) => WholeText(i)
    case Fraction(text) => text
    case DoubleQuoted(s) => "\"" + s + "\""
    case SingleQuoted(s) => "'" + s + "'"
    case Bare(text) => text
  }

  /** What each is meant to say. */
  function ScalarOf(w: Written): Yaml {
    match w
    case NullWord(_) => Null
    case TrueWord(_) => Bool(true)
    case FalseWord(_) => Bool(false)
    case Whole(i) => Int(i)
    case Fraction(text) => Float(text)
    case DoubleQuoted(s) => Str(s)
    case SingleQuoted(s) => Str(s)
    case Bare(text) => Str(text)
  }

  /** A decimal numeral: digits, or digits, a point and digits, after an optional minus. */
  predicate NumberLike(t: string) {
    var u := if t != "" && t[0] == '-' then t[1..] else t;
    AllDigits(u) || Pointed(u)
  }

  predicate AllDigits(u: string) {
    u != "" && forall k :: 0 <= k < |u| ==> '0' <= u[k] <= '9'
  }

  predicate Pointed(u: string) {
    exists k :: 0 < k < |u| - 1 && u[k] == '.' && forall j :: 0 <= j < |u| && j != k ==> '0' <= u[j] <= '9'
  }

  /** Text that stands for itself: none of the seven words, not in quotes, not a numeral. */
  predicate StandsForItself(t: string) {
    && t !in {"null", "~", "Null", "true", "True", "false", "False"}
    && t != "" && !(t[0] == '"' && t[|t|-1] == '"') && !(t[0] == '\'' && t[|t|-1] == '\'')
    && !NumberLike(t)
  }

  predicate WrittenOk(w: Written) {
    match w
    case NullWord(word) => word in {"null", "~", "Null"}
    case TrueWord(word) => word in {"true", "True"}
    case FalseWord(word) => word in {"false", "False"}
    case Whole(_) => true
    case Fraction(text) => FloatText(text)
    case DoubleQuoted(s) => NoBreaks(s)
    case SingleQuoted(s) => NoBreaks(s)
    case Bare(text) => StandsForItself(text) && Plain(text)
  }

  lemma {:induction false} DigitsRoundTrip(n: nat)
    ensures Digits(DigitsText(n)) && DigitsValue(DigitsText(n)) == n
    decreases n
  {
    var t := DigitsText(n);
    if n >= 10 {
      DigitsRoundTrip(n / 10);
      assert t[..|t|-1] == DigitsText(n / 10);
      assert t[|t|-1] == DigitChar(n % 10);
    } else {
      assert t[..0] == "";
      assert DigitsValue(t) == 10 * DigitsValue(t[..0]) + DigitValue(t[0]);
    }
  }

  /** Text that begins with a digit or a sign is not one of the words, and is not quoted. */
  predicate Numeral(t: string) {
    t != "" && (IsDigit(t[0]) || t[0] == '-') && IsDigit(t[|t|-1])
  }

  lemma FloatTextIsNumeral(t: string)
    requires FloatText(t)
    ensures Numeral(t) && !IntText(t)
    ensures forall k :: 0 <= k < |t| ==> IsDigit(t[k]) || t[k] == '.' || t[k] == '-'
  {
    var u := Unsigned(t);
    var k :| 0 <= k < |u| && u[k] == '.' && Digits(u[..k]) && Digits(u[k+1..]);
    assert u[0] == u[..k][0];
    assert u[|u|-1] == u[k+1..][|u|-k-2];
    assert !IsDigit(u[k]);
    forall j | 0 <= j < |u|
      ensures IsDigit(u[j]) || u[j] == '.'
    {
      if j < k {
        assert u[j] == u[..k][j];
      } else if j > k {
        assert u[j] == u[k+1..][j-k-1];
      }
    }
  }

  lemma WholeIsNumeral(i: int)
    ensures Numeral(WholeText(i)) && IntText(WholeText(i)) && IntValue(WholeText(i)) == i
    ensures forall k :: 0 <= k < |WholeText(i)| ==> IsDigit(WholeText(i)[k]) || WholeText(i)[k] == '-'
  {
    DigitsRoundTrip(if i < 0 then -i else i);
    var t := WholeText(i);
    if i < 0 {
      assert t[1..] == DigitsText(-i);
    } else {
      assert IsDigit(t[0]);
    }
  }

  lemma NumberLikeIff(t: string)
    ensures NumberLike(t) <==> IntText(t) || FloatText(t)
  {
    var u := Unsigned(t);
    assert AllDigits(u) <==> Digits(u);
    if FloatText(t) { PointedIfFloat(u); }
    if Pointed(u) { FloatIfPointed(u); }
  }

  lemma PointedIfFloat(u: string)
    requires exists k :: 0 <= k < |u| && u[k] == '.' && Digits(u[..k]) && Digits(u[k+1..])
    ensures Pointed(u)
  {
    var k :| 0 <= k < |u| && u[k] == '.' && Digits(u[..k]) && Digits(u[k+1..]);
    assert forall j :: 0 <= j < k ==> u[j] == u[..k][j];
    assert forall j :: k < j < |u| ==> u[j] == u[k+1..][j-k-1];
  }

  lemma FloatIfPointed(u: string)
    requires Pointed(u)
    ensures exists k :: 0 <= k < |u| && u[k] == '.' && Digits(u[..k]) && Digits(u[k+1..])
  {
    var k :| 0 < k < |u| - 1 && u[k] == '.' && forall j :: 0 <= j < |u| && j != k ==> '0' <= u[j] <= '9';
    assert Digits(u[..k]) && Digits(u[k+1..]);
  }

  /** Every scalar reads back as what it is meant to say. */
  lemma ScalarRoundTrip(w: Written)
    requires WrittenOk(w)
    ensures ParseScalar(TextOf(w)) == ScalarOf(w)
  {
    var t := TextOf(w);
    match w
    case Whole(i) => WholeIsNumeral(i); NumeralIsNoWord(t);
    case Fraction(text) => FloatTextIsNumeral(text); NumeralIsNoWord(text);
    case DoubleQuoted(s) => QuotedReads(s, '"');
    case SingleQuoted(s) => QuotedReads(s, '\'');
    case Bare(text) => NumberLikeIff(text);
    case _ =>
  }

  lemma NumeralIsNoWord(t: string)
    requires Numeral(t)
    ensures ParseScalar(t) == if IntText(t) then Int(IntValue(t)) else if FloatText(t) then Float(t) else Str(t)
  {
    hide IntText, FloatText, IntValue;
  }

  lemma QuotedReads(s: string, quote: char)
    requires quote in {'"', '\''}
    ensures ParseScalar([quote] + s + [quote]) == Str(s)
  {
    hide IntText, FloatText, IntValue;
    var t := [quote] + s + [quote];
    assert t[1..|t|-1] == s;
    assert Quoted(t, quote);
  }

  /** Leading zeros do not count, and each further digit counts ten times the digits before it. */
  lemma {:induction false} DigitsCount(s: string, c: char)
    ensures DigitsValue("0" + s) == DigitsValue(s)
    ensures DigitsValue(s + [c]) == 10 * DigitsValue(s) + (c as int - '0' as int)
    decreases |s|
  {
    assert (s + [c])[..|s|] == s;
    if s == "" {
      assert "0"[..0] == "" && "0" + s == "0";
    } else {
      DigitsCount(s[..|s|-1], c);
      assert ("0" + s)[..|s|] == "0" + s[..|s|-1];
    }
  }

  /** Fit to stand after a colon or a dash: no white space around it, on one line, no block mark. */
  predicate Plain(t: string) {
    Tight(t) && t !in {"|", ">"} && NoBreaks(t)
  }

  lemma NumeralIsPlain(t: string)
    requires Numeral(t) && forall k :: 0 <= k < |t| ==> IsDigit(t[k]) || t[k] == '.' || t[k] == '-'
    ensures Plain(t)
  {
  }

  lemma QuotedIsPlain(s: string, quote: char)
    requires NoBreaks(s) && quote in {'"', '\''}
    ensures Plain([quote] + s + [quote])
  {
    var t := [quote] + s + [quote];
    assert t[0] == quote && t[|t|-1] == quote;
    assert forall k :: 0 < k < |t| - 1 ==> t[k] == s[k-1];
  }

  lemma TextIsPlain(w: Written)
    requires WrittenOk(w)
    ensures Plain(TextOf(w))
  {
    match w
    case Whole(i) => WholeIsNumeral(i); NumeralIsPlain(WholeText(i));
    case Fraction(text) => FloatTextIsNumeral(text); NumeralIsPlain(text);
    case DoubleQuoted(s) => QuotedIsPlain(s, '"');
    case SingleQuoted(s) => QuotedIsPlain(s, '\'');
    case _ =>
  }

  // ---------------------------------------------------------------- lines

  /** What every printed line looks like. */
  predicate LineOk(line: string) {
    Tight(Dedent(line)) && Dedent(line)[0] != '#' && NoBreaks(line)
  }

  lemma {:induction false} StripIndented(line: string)
    requires Tight(Dedent(line))
    ensures line != "" && Lstrip(line) == Dedent(line) && !IsSpace(line[|line|-1])
  {
    IndentAtMostLength(line);
    if line[0] == ' ' {
      assert Dedent(line[1..]) == Dedent(line);
      StripIndented(line[1..]);
    } else {
      assert Dedent(line) == line;
    }
  }

  lemma LineIsKept(line: string)
    requires LineOk(line)
    ensures Rstrip(line) == line && Kept(line) && line != "" && NoBreaks(line)
  {
    hide IsSpace, IsBreak, Dedent, Indent;
    StripIndented(line);
    StripTight(Dedent(line));
  }

  lemma {:induction false} SpacesAreNoBreaks(n: nat)
    ensures NoBreaks(Spaces(n))
  {
    if n > 0 {
      SpacesAreNoBreaks(n - 1);
    }
  }

  lemma IndentedLineOk(n: nat, t: string)
    requires Tight(t) && t[0] != '#' && NoBreaks(t)
    ensures LineOk(Spaces(n) + t) && Indent(Spaces(n) + t) == n && Dedent(Spaces(n) + t) == t
  {
    IndentOfSpaces(n, t);
    SpacesAreNoBreaks(n);
  }

  predicate LinesOk(lines: seq<string>) {
    forall k :: 0 <= k < |lines| ==> LineOk(lines[k])
  }

  lemma {:induction false} KeptLinesKeepsAll(lines: seq<string>)
    requires LinesOk(lines)
    ensures KeptLines(lines) == lines
  {
    if lines != [] {
      LineIsKept(lines[0]);
      assert LinesOk(lines[1..]);
      KeptLinesKeepsAll(lines[1..]);
    }
  }

  predicate KeyOk(key: string) {
    Tight(key) && ':' !in key && key[0] != '#' && !(|key| >= 2 && key[..2] == "- ") && NoBreaks(key)
  }

  /** The text of a line that opens with a key. */
  lemma KeyLine(key: string, rest: string)
    requires KeyOk(key)
    ensures var t := key + ":" + rest;
            !IsItem(t) && t[0] == key[0] && FindColon(t) == Some(|key|) && t[..|key|] == key && t[|key|+1..] == rest && Strip(key) == key
  {
    ColonAfterKey(key, rest);
    StripTight(key);
    var t := key + ":" + rest;
    assert t[0] == key[0];
    assert t[1] == if |key| == 1 then ':' else key[1];
    assert t[..2] == [t[0], t[1]];
    assert |key| >= 2 ==> key[..2] == [key[0], key[1]];
  }

  // ---------------------------------------------------------------- dictionaries

  predicate Distinct(entries: seq<Entry>) {
    forall i, j :: 0 <= i < j < |entries| ==> entries[i].key != entries[j].key
  }

  /** `d[key] = value` for a known key: it keeps its place and changes its value. */
  lemma {:induction false} PutKnown(entries: seq<Entry>, key: string, value: Yaml, i: nat)
    requires i < |entries| && entries[i].key == key && forall k :: 0 <= k < i ==> entries[k].key != key
    ensures Put(entries, key, value) == entries[i := Entry(key, value)]
  {
    assert entries == [entries[0]] + entries[1..];
    if i > 0 {
      PutKnown(entries[1..], key, value, i - 1);
      assert entries[i := Entry(key, value)] == [entries[0]] + entries[1..][i - 1 := Entry(key, value)];
    }
  }

  predicate Has(entries: seq<Entry>, key: string) {
    entries != [] && (entries[0].key == key || Has(entries[1..], key))
  }

  lemma {:induction false} HasIff(entries: seq<Entry>, key: string) returns (i: nat)
    ensures i <= |entries| && (Has(entries, key) <==> i < |entries|)
    ensures i < |entries| ==> entries[i].key == key
    ensures forall k :: 0 <= k < i ==> entries[k].key != key
  {
    if entries == [] || entries[0].key == key {
      i := 0;
    } else {
      i := HasIff(entries[1..], key);
      i := i + 1;
      assert forall k :: 1 <= k < i ==> entries[k] == entries[1..][k - 1];
    }
  }

  lemma PutKeepsDistinct(entries: seq<Entry>, key: string, value: Yaml)
    requires Distinct(entries)
    ensures Distinct(Put(entries, key, value))
  {
    var i := HasIff(entries, key);
    if i < |entries| {
      PutKnown(entries, key, value, i);
    } else {
      PutNew(entries, key, value);
    }
  }

  lemma {:induction false} PutTwice(entries: seq<Entry>, key: string, first: Yaml, second: Yaml)
    ensures Put(Put(entries, key, first), key, second) == Put(entries, key, second)
    ensures Has(Put(entries, key, first), key)
  {
    if entries != [] && entries[0].key != key {
      PutTwice(entries[1..], key, first, second);
      assert Put(entries, key, first)[1..] == Put(entries[1..], key, first);
    }
  }

  lemma {:induction false} PutCommutes(entries: seq<Entry>, key: string, value: Yaml, other: string, x: Yaml)
    requires Has(entries, key) && other != key
    ensures Put(Put(entries, other, x), key, value) == Put(Put(entries, key, value), other, x)
    ensures Has(Put(entries, other, x), key)
  {
    var rest := entries[1..];
    if entries[0].key == key {
      assert Put(entries, other, x)[1..] == Put(rest, other, x);
    } else if entries[0].key != other {
      PutCommutes(rest, key, value, other, x);
      assert Put(entries, other, x)[1..] == Put(rest, other, x);
      assert Put(entries, key, value)[1..] == Put(rest, key, value);
    } else {
      assert Put(entries, other, x)[1..] == rest;
      assert Put(entries, key, value)[1..] == Put(rest, key, value);
    }
  }

  lemma {:induction false} OverwriteLast(entries: seq<Entry>, extra: seq<Entry>, key: string, value: Yaml)
    requires Has(entries, key) && !Has(extra, key)
    ensures Put(Update(entries, extra), key, value) == Update(Put(entries, key, value), extra)
    decreases |extra|
  {
    if extra != [] {
      PutCommutes(entries, key, value, extra[0].key, extra[0].value);
      OverwriteLast(Put(entries, extra[0].key, extra[0].value), extra[1..], key, value);
    }
  }

  lemma {:induction false} UpdateAppends(entries: seq<Entry>, extra: seq<Entry>, e: Entry)
    ensures Update(entries, extra + [e]) == Put(Update(entries, extra), e.key, e.value)
    decreases |extra|
  {
    var all := extra + [e];
    if extra == [] {
      assert all[1..] == [];
    } else {
      assert all[1..] == extra[1..] + [e];
      UpdateAppends(Put(entries, extra[0].key, extra[0].value), extra[1..], e);
    }
  }

  /** Writing a dictionary that was itself written to is writing both in turn. */
  lemma {:induction false} UpdateByPut(entries: seq<Entry>, extra: seq<Entry>, key: string, value: Yaml)
    requires Distinct(extra)
    ensures Update(entries, Put(extra, key, value)) == Put(Update(entries, extra), key, value)
    decreases |extra|
  {
    var i := HasIff(extra, key);
    if i == |extra| {
      PutNew(extra, key, value);
      UpdateAppends(entries, extra, Entry(key, value));
    } else if i == 0 {
      var rest := extra[1..];
      var j := HasIff(rest, key);
      assert forall k :: 0 <= k < |rest| ==> rest[k] == extra[k + 1];
      PutTwice(entries, key, extra[0].value, value);
      OverwriteLast(Put(entries, key, extra[0].value), rest, key, value);
      assert Put(extra, key, value)[1..] == rest;
    } else {
      UpdateByPut(Put(entries, extra[0].key, extra[0].value), extra[1..], key, value);
      assert Put(extra, key, value)[1..] == Put(extra[1..], key, value);
    }
  }

  lemma {:induction false} UpdateInTurn(entries: seq<Entry>, extra: seq<Entry>, more: seq<Entry>)
    requires Distinct(extra)
    ensures Update(entries, Update(extra, more)) == Update(Update(entries, extra), more)
    decreases |more|
  {
    if more != [] {
      PutKeepsDistinct(extra, more[0].key, more[0].value);
      UpdateInTurn(entries, Put(extra, more[0].key, more[0].value), more[1..]);
      UpdateByPut(entries, extra, more[0].key, more[0].value);
    }
  }

  lemma {:induction false} PutNew(entries: seq<Entry>, key: string, value: Yaml)
    requires forall k :: 0 <= k < |entries| ==> entries[k].key != key
    ensures Put(entries, key, value) == entries + [Entry(key, value)]
  {
    if entries != [] {
      PutNew(entries[1..], key, value);
      assert entries == [entries[0]] + entries[1..];
    }
  }

  lemma {:induction false} UpdateNew(entries: seq<Entry>, extra: seq<Entry>)
    requires Distinct(entries + extra)
    ensures Update(entries, extra) == entries + extra
    decreases |extra|
  {
    if extra == [] {
      assert entries + extra == entries;
    } else {
      PutFirst(entries, extra);
      UpdateNew(entries + [extra[0]], extra[1..]);
    }
  }

  lemma PutFirst(entries: seq<Entry>, extra: seq<Entry>)
    requires extra != [] && Distinct(entries + extra)
    ensures Put(entries, extra[0].key, extra[0].value) == entries + [extra[0]]
    ensures entries + [extra[0]] + extra[1..] == entries + extra
  {
    var all := entries + extra;
    forall k | 0 <= k < |entries|
      ensures entries[k].key != extra[0].key
    {
      assert all[k] == entries[k] && all[|entries|] == extra[0];
    }
    PutNew(entries, extra[0].key, extra[0].value);
    assert [extra[0]] + extra[1..] == extra;
  }

}
