/** A block is exactly its own lines: cut out of the document, they read as the same value. */
module YamlLocality {
  import opened Outcomes
  import opened Text
  import opened YamlLite

  /** Lines i to j of `doc` stand in `part`, s lines earlier. */
  ghost predicate Agree(doc: seq<string>, part: seq<string>, s: nat, i: nat, j: nat) {
    && s <= i <= j <= |doc| && j - s <= |part|
    && forall k: nat :: i <= k < j ==> doc[k] == part[k - s]
  }

  /** At line k both go on alike, or `part` ends there or leaves every block at indent n. */
  predicate Edge(doc: seq<string>, part: seq<string>, s: nat, k: nat, n: nat)
    requires s <= k && k - s <= |part|
  {
    (k < |doc| && k - s < |part| && doc[k] == part[k - s]) || k - s == |part| || Indent(part[k - s]) < n
  }

  lemma AgreeSplit(doc: seq<string>, part: seq<string>, s: nat, i: nat, m: nat, j: nat, n: nat)
    requires Agree(doc, part, s, i, j) && i <= m <= j && Edge(doc, part, s, j, n)
    ensures Agree(doc, part, s, i, m) && Agree(doc, part, s, m, j) && Edge(doc, part, s, m, n)
    ensures i < j ==> i < |doc| && i - s < |part| && doc[i] == part[i - s]
  {
  }

  lemma {:induction false} MultilineIsLocal(doc: seq<string>, part: seq<string>, s: nat, i: nat, n: nat, chunks: seq<string>)
    requires i <= |doc|
    requires var j := Multiline(doc, i, n, chunks).1; Agree(doc, part, s, i, j) && Edge(doc, part, s, j, n)
    ensures var (folded, j) := Multiline(doc, i, n, chunks); Multiline(part, i - s, n, chunks) == (folded, j - s)
    decreases |doc| - i
  {
    hide Indent, Dedent;
    var j := Multiline(doc, i, n, chunks).1;
    if i < |doc| && Indent(doc[i]) >= n {
      AgreeSplit(doc, part, s, i, i + 1, j, n);
      MultilineIsLocal(doc, part, s, i + 1, n, chunks + [Dedent(doc[i])]);
    }
  }

  lemma {:induction false} BlockIsLocal(doc: seq<string>, part: seq<string>, s: nat, i: nat, n: nat)
    requires Trimmed(doc) && Block(doc, i, n).Success?
    requires var j := Block(doc, i, n).value.1; Agree(doc, part, s, i, j) && Edge(doc, part, s, j, n)
    ensures var (v, j) := Block(doc, i, n).value; Block(part, i - s, n) == Success((v, j - s))
    decreases |doc| - i, 2
  {
    hide Indent, Dedent, IsItem, MapFrom, ListFrom;
    AgreeSplit(doc, part, s, i, i, Block(doc, i, n).value.1, n);
    if IsItem(Dedent(doc[i])) {
      ListIsLocal(doc, part, s, i, n, []);
    } else {
      MapIsLocal(doc, part, s, i, n, []);
    }
  }

  lemma {:induction false} MapIsLocal(doc: seq<string>, part: seq<string>, s: nat, i: nat, n: nat, acc: seq<Entry>)
    requires Trimmed(doc) && i <= |doc| && MapFrom(doc, i, n, acc).Success?
    requires var j := MapFrom(doc, i, n, acc).value.1; Agree(doc, part, s, i, j) && Edge(doc, part, s, j, n)
    ensures var (entries, j) := MapFrom(doc, i, n, acc).value; MapFrom(part, i - s, n, acc) == Success((entries, j - s))
    decreases |doc| - i, 1
  {
    hide Indent, Dedent, IsItem, MapValue, Strip, FindColon, Put, IsFold, Trimmed;
    var j := MapFrom(doc, i, n, acc).value.1;
    if i < |doc| && Indent(doc[i]) == n {
      var stripped := Dedent(doc[i]);
      var colon := FindColon(stripped).value;
      var key, rest := Strip(stripped[..colon]), Strip(stripped[colon + 1..]);
      var (value, next) := MapValue(doc, i + 1, n, rest).value;
      AgreeSplit(doc, part, s, i, i + 1, j, n);
      AgreeSplit(doc, part, s, i + 1, next, j, n);
      MapValueIsLocal(doc, part, s, i + 1, n, rest);
      MapIsLocal(doc, part, s, next, n, Put(acc, key, value));
    }
  }

  lemma {:induction false} MapValueIsLocal(doc: seq<string>, part: seq<string>, s: nat, i: nat, n: nat, rest: string)
    requires Trimmed(doc) && i <= |doc| && MapValue(doc, i, n, rest).Success?
    requires var j := MapValue(doc, i, n, rest).value.1; Agree(doc, part, s, i, j) && Edge(doc, part, s, j, n)
    ensures var (v, j) := MapValue(doc, i, n, rest).value; MapValue(part, i - s, n, rest) == Success((v, j - s))
    decreases |doc| - i, 3
  {
    hide Indent, ParseScalar, JoinWords, Block, Multiline;
    var j := MapValue(doc, i, n, rest).value.1;
    if IsFold(rest) {
      MultilineIsLocal(doc, part, s, i, n + 2, []);
    } else if rest == "" && i < |doc| && Indent(doc[i]) > n {
      AgreeSplit(doc, part, s, i, i, j, n);
      BlockIsLocal(doc, part, s, i, Indent(doc[i]));
    }
  }

  lemma {:induction false} ListIsLocal(doc: seq<string>, part: seq<string>, s: nat, i: nat, n: nat, acc: seq<Yaml>)
    requires Trimmed(doc) && i <= |doc| && ListFrom(doc, i, n, acc).Success?
    requires var j := ListFrom(doc, i, n, acc).value.1; Agree(doc, part, s, i, j) && Edge(doc, part, s, j, n)
    ensures var (items, j) := ListFrom(doc, i, n, acc).value; ListFrom(part, i - s, n, acc) == Success((items, j - s))
    decreases |doc| - i, 1
  {
    hide Indent, Dedent, ItemValue, Strip, Rstrip;
    var j := ListFrom(doc, i, n, acc).value.1;
    if i < |doc| && Indent(doc[i]) == n && IsItem(Dedent(doc[i])) {
      var rest := Strip(Dedent(doc[i])[2..]);
      ItemIsNotEmpty(doc[i]);
      var (value, next) := ItemValue(doc, i + 1, n, rest).value;
      AgreeSplit(doc, part, s, i, i + 1, j, n);
      AgreeSplit(doc, part, s, i + 1, next, j, n);
      ItemValueIsLocal(doc, part, s, i + 1, n, rest);
      ListIsLocal(doc, part, s, next, n, acc + [value]);
    }
  }

  lemma {:induction false} ItemValueIsLocal(doc: seq<string>, part: seq<string>, s: nat, i: nat, n: nat, rest: string)
    requires Trimmed(doc) && i <= |doc| && rest != "" && ItemValue(doc, i, n, rest).Success?
    requires var j := ItemValue(doc, i, n, rest).value.1; Agree(doc, part, s, i, j) && Edge(doc, part, s, j, n)
    ensures var (v, j) := ItemValue(doc, i, n, rest).value; ItemValue(part, i - s, n, rest) == Success((v, j - s))
    decreases |doc| - i, 3
  {
    hide Indent, ParseScalar, JoinWords, Block, Multiline, MapFrom, Strip, FindColon, Update;
    var j := ItemValue(doc, i, n, rest).value.1;
    if IsFold(rest) {
      MultilineIsLocal(doc, part, s, i, n + 2, []);
    } else if ':' in rest && !StartsWith(rest, "{") && i < |doc| && Indent(doc[i]) > n {
      AgreeSplit(doc, part, s, i, i, j, n);
      MapIsLocal(doc, part, s, i, Indent(doc[i]), []);
    }
  }

  /** A block consumes exactly the lines its value comes from: alone, they are the whole block.
      Every document is read from trimmed lines. */
  lemma BlockIsItsLines(doc: seq<string>, i: nat, n: nat)
    requires Trimmed(doc) && Block(doc, i, n).Success?
    ensures var (v, j) := Block(doc, i, n).value; Block(doc[i..j], 0, n) == Success((v, j - i))
  {
    hide Block;
    var j := Block(doc, i, n).value.1;
    BlockIsLocal(doc, doc[i..j], i, i, n);
  }
}
