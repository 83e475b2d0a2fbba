/** The string operations the YAML subset is read with. */
module Text {
  import opened Outcomes

  /** Characters for which Python's `str.isspace` holds. */
  predicate IsSpace(c: char) {
    c == ' ' || ('\t' <= c <= '\r') || ('\U{001c}' <= c <= '\U{001f}') || c == '\U{0085}' || c == '\U{00a0}' || c == '\U{1680}'
    || ('\U{2000}' <= c <= '\U{200a}') || c == '\U{2028}' || c == '\U{2029}' || c == '\U{202f}' || c == '\U{205f}' || c == '\U{3000}'
  }

  /** Characters at which `str.splitlines` ends a line. */
  predicate IsBreak(c: char) {
    ('\n' <= c <= '\r') || ('\U{001c}' <= c <= '\U{001e}') || c == '\U{0085}' || c == '\U{2028}' || c == '\U{2029}'
  }

  predicate IsDigit(c: char) {
    '0' <= c <= '9'
  }

  function Lstrip(s: string): string {
    if s != "" && IsSpace(s[0]) then Lstrip(s[1..]) else s
  }

  function Rstrip(s: string): string {
    if s != "" && IsSpace(s[|s|-1]) then Rstrip(s[..|s|-1]) else s
  }

  function Strip(s: string): string {
    Rstrip(Lstrip(s))
  }

  /** Number of leading spaces (spaces only). */
  function Indent(line: string): nat {
    if line != "" && line[0] == ' ' then 1 + Indent(line[1..]) else 0
  }

  lemma IndentAtMostLength(line: string)
    ensures Indent(line) <= |line|
  {
  }

  /** `line.lstrip(" ")`. */
  function Dedent(line: string): string {
    IndentAtMostLength(line);
    line[Indent(line)..]
  }

  predicate StartsWith(s: string, prefix: string) {
    |prefix| <= |s| && s[..|prefix|] == prefix
  }

  /** Position of the first colon. */
  function FindColon(s: string): (i: Option<nat>)
    ensures i.None? <==> ':' !in s
    ensures i.Some? ==> i.value < |s| && s[i.value] == ':' && forall k :: 0 <= k < i.value ==> s[k] != ':'
  {
    if s == "" then None
    else if s[0] == ':' then Some(0)
    else
      var rest := FindColon(s[1..]);
      assert s == [s[0]] + s[1..];
      if rest.None? then None
      else Some(rest.value + 1)
  }

  function SplitLines(text: string): seq<string> {
    if text == "" then []
    else
      var n := LineLength(text);
      if n == |text| then [text]
      else [text[..n]] + SplitLines(text[n + BreakLength(text, n)..])
  }

  function LineLength(text: string): (n: nat)
    ensures n <= |text|
    ensures forall k :: 0 <= k < n ==> !IsBreak(text[k])
    ensures n < |text| ==> IsBreak(text[n])
  {
    if text == "" || IsBreak(text[0]) then 0 else 1 + LineLength(text[1..])
  }

  /** A carriage return and the line feed after it are one break. */
  function BreakLength(text: string, n: nat): (k: nat)
    requires n < |text|
    ensures 1 <= k && n + k <= |text|
  {
    if text[n] == '\r' && n + 1 < |text| && text[n+1] == '\n' then 2 else 1
  }

  function Join(lines: seq<string>): string {
    if lines == [] then "" else if |lines| == 1 then lines[0] else lines[0] + "\n" + Join(lines[1..])
  }

  function Spaces(n: nat): (s: string)
    ensures |s| == n
  {
    if n == 0 then "" else " " + Spaces(n - 1)
  }

  // ---------------------------------------------------------------- facts

  /** Begins and ends with something other than white space. */
  predicate Tight(s: string) {
    s != "" && !IsSpace(s[0]) && !IsSpace(s[|s|-1])
  }

  lemma {:induction false} RstripTwice(s: string)
    ensures Rstrip(Rstrip(s)) == Rstrip(s)
  {
    if s != "" && IsSpace(s[|s|-1]) {
      RstripTwice(s[..|s|-1]);
    }
  }

  lemma RstripKeepsLast(s: string)
    requires Rstrip(s) == s && s != ""
    ensures !IsSpace(s[|s|-1])
  {
    if IsSpace(s[|s|-1]) {
      RstripAtMostLength(s[..|s|-1]);
    }
  }

  lemma {:induction false} RstripAtMostLength(s: string)
    ensures |Rstrip(s)| <= |s|
  {
    if s != "" && IsSpace(s[|s|-1]) {
      RstripAtMostLength(s[..|s|-1]);
    }
  }

  lemma {:induction false} StripKeepsNonSpace(s: string)
    requires s != "" && !IsSpace(s[|s|-1])
    ensures Strip(s) != ""
  {
    if IsSpace(s[0]) {
      StripKeepsNonSpace(s[1..]);
    }
  }

  lemma StripTight(s: string)
    requires Tight(s)
    ensures Strip(s) == s && Rstrip(s) == s && Lstrip(s) == s
  {
  }

  lemma StripAfterSpace(s: string)
    requires Tight(s)
    ensures Strip(" " + s) == s
  {
    assert (" " + s)[1..] == s;
    assert Lstrip(" " + s) == Lstrip(s);
    StripTight(s);
  }

  lemma {:induction false} IndentOfSpaces(n: nat, s: string)
    requires s != "" && s[0] != ' '
    ensures Indent(Spaces(n) + s) == n && Dedent(Spaces(n) + s) == s
  {
    if n == 0 {
      assert Spaces(n) + s == s;
    } else {
      IndentOfSpaces(n - 1, s);
      assert (Spaces(n) + s)[1..] == Spaces(n - 1) + s;
    }
  }

  lemma ColonAfterKey(key: string, rest: string)
    requires ':' !in key
    ensures FindColon(key + ":" + rest) == Some(|key|)
    ensures (key + ":" + rest)[..|key|] == key && (key + ":" + rest)[|key| + 1..] == rest
  {
    var s := key + ":" + rest;
    assert s[|key|] == ':';
    assert ':' in s;
    assert forall k :: 0 <= k < |key| ==> s[k] == key[k] && key[k] in key;
  }

  predicate NoBreaks(s: string) {
    forall k :: 0 <= k < |s| ==> !IsBreak(s[k])
  }

  lemma {:induction false} LineLengthBeforeBreak(line: string, rest: string)
    requires NoBreaks(line) && rest != "" && IsBreak(rest[0])
    ensures LineLength(line + rest) == |line|
  {
    if line == "" {
      assert line + rest == rest;
    } else {
      assert (line + rest)[1..] == line[1..] + rest;
      assert !IsBreak(line[0]);
      LineLengthBeforeBreak(line[1..], rest);
    }
  }

  /** Each of the line breaks ends exactly one line, and a carriage return with its line feed is one of them. */
  lemma SplitAtBreak(line: string, mark: string, rest: string)
    requires NoBreaks(line) && (mark == "\r\n" || (|mark| == 1 && IsBreak(mark[0])))
    requires !(mark == "\r" && rest != "" && rest[0] == '\n')
    ensures SplitLines(line + mark + rest) == [line] + SplitLines(rest)
  {
    assert IsBreak('\r');
    hide IsBreak;
    var text := line + (mark + rest);
    assert line + mark + rest == text;
    LineLengthBeforeBreak(line, mark + rest);
    var n := |line|;
    assert text[n] == mark[0] && (n + 1 < |text| ==> text[n + 1] == (mark + rest)[1]);
    assert text[n + |mark|..] == rest;
    assert text[..n] == line;
    assert BreakLength(text, n) == |mark|;
  }

  /** Lines without breaks inside, and with a nonempty last one, survive joining and splitting. */
  lemma {:induction false} SplitOfJoin(lines: seq<string>)
    requires forall k :: 0 <= k < |lines| ==> NoBreaks(lines[k]) && lines[k] != ""
    ensures SplitLines(Join(lines)) == lines
  {
    assert IsBreak('\n');
    hide IsBreak;
    if |lines| == 1 {
      assert LineLength(lines[0]) == |lines[0]|;
    } else if |lines| > 1 {
      SplitOfJoin(lines[1..]);
      SplitAtBreak(lines[0], "\n", Join(lines[1..]));
    }
  }
}
