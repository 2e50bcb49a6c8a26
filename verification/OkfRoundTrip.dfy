/** A printer for the frontmatter subset, which the repository does not have, and the proof that
    the parser inverts it, on trees of written text and on trees of values. */
module OkfRoundTrip {
  import opened PyText
  import opened OkfFrontmatter

  // ----- trees and how they are written -----

  /** A written value: scalar text on the key's own line, a block of list items, or a block of
      entries. */
  datatype Node = Leaf(text: string) | Items(items: seq<string>) | Nested(entries: seq<Entry>)
  datatype Entry = Entry(key: string, node: Node)

  predicate OneLine(s: string) { '\n' !in s && '\t' !in s }

  /** Text that reaches `_parse_scalar` unchanged. */
  predicate PlainItem(s: string) { s != [] && Trim(s) && OneLine(s) }

  predicate PlainText(s: string) { PlainItem(s) && '{' !in s && '[' !in s }

  predicate GoodKey(k: string) {
    PlainText(k) && ':' !in k && k[0] != '#' && !StartsWith(k, "- ")
  }

  predicate GoodNode(n: Node)
    decreases n
  {
    match n
    case Leaf(text) => PlainText(text)
    case Items(items) => items != [] && forall i :: 0 <= i < |items| ==> PlainItem(items[i])
    case Nested(entries) => entries != [] && GoodEntries(entries)
  }

  predicate GoodEntries(entries: seq<Entry>)
    decreases entries
  {
    entries == [] || (GoodKey(entries[0].key) && GoodNode(entries[0].node) && GoodEntries(entries[1..]))
  }

  function ValueOf(n: Node): Yaml
    decreases n
  {
    match n
    case Leaf(text) => ParseScalar(text)
    case Items(items) => YList(ItemValues(items))
    case Nested(entries) => YMap(MapOf(entries, map[]))
  }

  function ItemValues(items: seq<string>): seq<Yaml> {
    if items == [] then [] else [ParseScalar(items[0])] + ItemValues(items[1..])
  }

  /** The dict of the entries added to `acc` in order; a repeated key keeps its last value. */
  function MapOf(entries: seq<Entry>, acc: map<string, Yaml>): map<string, Yaml>
    decreases entries
  {
    if entries == [] then acc
    else MapOf(entries[1..], acc[entries[0].key := ValueOf(entries[0].node)])
  }

  /** Blocks are indented `step` deeper than their key; `step` is at least one. */
  function NodeTokens(key: string, n: Node, indent: nat, step: nat): seq<Token>
    decreases n
  {
    match n
    case Leaf(text) => [Token(indent, key + ": " + text)]
    case Items(items) => [Token(indent, key + ":")] + ItemTokens(items, indent + step)
    case Nested(entries) => [Token(indent, key + ":")] + EntryTokens(entries, indent + step, step)
  }

  function ItemTokens(items: seq<string>, indent: nat): seq<Token> {
    if items == [] then [] else [Token(indent, "- " + items[0])] + ItemTokens(items[1..], indent)
  }

  function EntryTokens(entries: seq<Entry>, indent: nat, step: nat): seq<Token>
    decreases entries
  {
    if entries == [] then []
    else NodeTokens(entries[0].key, entries[0].node, indent, step) + EntryTokens(entries[1..], indent, step)
  }

  function LineOf(t: Token): string { Blanks(t.indent) + t.content }

  function Lines(ts: seq<Token>): (r: seq<string>)
    ensures |r| == |ts| && forall i :: 0 <= i < |ts| ==> r[i] == LineOf(ts[i])
  {
    seq(|ts|, i requires 0 <= i < |ts| => LineOf(ts[i]))
  }

  /** The declaration file: fenced lines, then any Markdown body. */
  function Print(entries: seq<Entry>, indent: nat, step: nat, body: string): string {
    JoinOn(["---"] + Lines(EntryTokens(entries, indent, step)) + ["---"], '\n') + body
  }

  // ----- lines to tokens -----

  /** Content that a line keeps: not blank, no comment, nothing to strip. */
  predicate Keeps(content: string) {
    content != [] && Trim(content) && OneLine(content) && content[0] != '#'
  }

  lemma DashPrefix(s: string)
    ensures StartsWith(s, "- ") <==> |s| >= 2 && s[0] == '-' && s[1] == ' '
  {}

  lemma LineToken(t: Token)
    requires Keeps(t.content)
    ensures LineTokens(LineOf(t)) == [t] && OneLine(LineOf(t))
    ensures ':' in t.content || StartsWith(t.content, "- ") ==> !IsFence(LineOf(t))
  {
    BlanksStripped(t.indent, t.content);
    StripTrim(t.content);
    assert IsSpace(' ');
    DashPrefix(t.content);
  }

  lemma {:induction false} LinesTokenize(ts: seq<Token>)
    requires forall i :: 0 <= i < |ts| ==> Keeps(ts[i].content)
    ensures TokenizeLines(Lines(ts)) == Ok(ts)
  {
    if ts != [] {
      LineToken(ts[0]);
      LinesTokenize(ts[1..]);
      assert Lines(ts)[1..] == Lines(ts[1..]);
      assert ts == [ts[0]] + ts[1..];
    }
  }

  lemma {:induction false} EntryTokensKept(entries: seq<Entry>, indent: nat, step: nat)
    requires GoodEntries(entries)
    ensures forall i :: 0 <= i < |EntryTokens(entries, indent, step)| ==>
      var c := EntryTokens(entries, indent, step)[i].content;
      Keeps(c) && (':' in c || StartsWith(c, "- "))
    decreases entries
  {
    if entries != [] {
      NodeTokensKept(entries[0].key, entries[0].node, indent, step);
      EntryTokensKept(entries[1..], indent, step);
    }
  }

  lemma {:induction false} NodeTokensKept(key: string, n: Node, indent: nat, step: nat)
    requires GoodKey(key) && GoodNode(n)
    ensures forall i :: 0 <= i < |NodeTokens(key, n, indent, step)| ==>
      var c := NodeTokens(key, n, indent, step)[i].content;
      Keeps(c) && (':' in c || StartsWith(c, "- "))
    decreases n
  {
    KeyLineKept(key);
    match n
    case Leaf(text) => LeafLineKept(key, text);
    case Items(items) => ItemTokensKept(items, indent + step);
    case Nested(entries) => EntryTokensKept(entries, indent + step, step);
  }

  lemma KeyLineKept(key: string)
    requires GoodKey(key)
    ensures Keeps(key + ":") && ':' in key + ":"
  {
    var c := key + ":";
    assert c[|c| - 1] == ':' && c[0] == key[0];
  }

  lemma LeafLineKept(key: string, text: string)
    requires GoodKey(key) && PlainText(text)
    ensures Keeps(key + ": " + text) && ':' in key + ": " + text
  {
    var c := key + ": " + text;
    assert c[|c| - 1] == text[|text| - 1] && c[0] == key[0] && c[|key|] == ':';
  }

  lemma {:induction false} ItemTokensKept(items: seq<string>, indent: nat)
    requires forall i :: 0 <= i < |items| ==> PlainItem(items[i])
    ensures forall i :: 0 <= i < |ItemTokens(items, indent)| ==>
      var t := ItemTokens(items, indent)[i];
      Keeps(t.content) && StartsWith(t.content, "- ") && t.indent == indent
    ensures |ItemTokens(items, indent)| == |items|
  {
    if items != [] {
      ItemTokensKept(items[1..], indent);
      var c := "- " + items[0];
      assert c[|c| - 1] == items[0][|items[0]| - 1] && c[0] == '-' && c[1] == ' ';
    }
  }

  // ----- tokens to values -----

  /** What may follow a block at `indent`: nothing, or a token no deeper than it. */
  predicate Follows(post: seq<Token>, indent: nat) { post == [] || post[0].indent <= indent }

  lemma {:induction false} ParsePrintedItems(items: seq<string>, indent: nat, acc: seq<Yaml>, post: seq<Token>)
    requires forall i :: 0 <= i < |items| ==> PlainItem(items[i])
    requires post == [] || post[0].indent < indent
    ensures ParseList(ItemTokens(items, indent) + post, indent, acc) == Ok((acc + ItemValues(items), post))
  {
    hide ParseScalar, PlainItem;
    if items == [] {
      assert ItemTokens(items, indent) + post == post && acc + [] == acc;
    } else {
      var ts := ItemTokens(items, indent) + post;
      var t := Token(indent, "- " + items[0]);
      var more := ItemTokens(items[1..], indent) + post;
      assert ts == [t] + more;
      assert ("- " + items[0])[2..] == items[0] && StartsWith("- " + items[0], "- ");
      ListStep(t, more, acc);
      ParsePrintedItems(items[1..], indent, acc + [ParseScalar(items[0])], post);
      assert acc + [ParseScalar(items[0])] + ItemValues(items[1..]) == acc + ItemValues(items);
    }
  }

  lemma ListStep(t: Token, more: seq<Token>, acc: seq<Yaml>)
    requires StartsWith(t.content, "- ")
    ensures ParseList([t] + more, t.indent, acc)
         == ParseList(more, t.indent, acc + [ParseScalar(t.content[2..])])
  {
    assert ([t] + more)[1..] == more;
  }

  lemma MappingStep(t: Token, more: seq<Token>, acc: map<string, Yaml>)
    requires EntryError(t.content).None?
    ensures RestOf(t.content) != "" ==>
      ParseMapping([t] + more, t.indent, acc)
      == ParseMapping(more, t.indent, acc[KeyOf(t.content) := ParseScalar(RestOf(t.content))])
    ensures RestOf(t.content) == "" && ParseBlock(more, t.indent).Ok? ==>
      var (value, left) := ParseBlock(more, t.indent).value;
      ParseMapping([t] + more, t.indent, acc)
      == ParseMapping(left, t.indent, acc[KeyOf(t.content) := value])
  {
    hide EntryError, KeyOf, RestOf, ParseScalar, ParseBlock, Suffix;
    assert ([t] + more)[1..] == more;
  }

  lemma KeyLine(key: string)
    requires GoodKey(key)
    ensures EntryError(key + ":").None? && KeyOf(key + ":") == key && RestOf(key + ":") == ""
  {
    SplitAtFirst(key, "", ':');
    assert key + [':'] + "" == key + ":";
    StripTrim(key);
    assert (key + ":")[|key| + 1..] == "";
    NotDashed(key, ":");
  }

  lemma LeafLine(key: string, text: string)
    requires GoodKey(key) && PlainText(text)
    ensures var c := key + ": " + text;
      EntryError(c).None? && KeyOf(c) == key && RestOf(c) == text && text != ""
  {
    hide SplitOn;
    LeafText(key, text);
    SplitAtFirst(key, " " + text, ':');
    StripTrim(key);
    StripTrim(text);
    NotDashed(key, ": " + text);
  }

  lemma LeafText(key: string, text: string)
    ensures var c := key + ": " + text;
      c == key + [':'] + (" " + text) == key + (": " + text) && c[|key| + 1..] == " " + text
    ensures (" " + text)[1..] == text
  {}

  lemma NotDashed(key: string, rest: string)
    requires GoodKey(key) && rest != [] && rest[0] == ':'
    ensures !StartsWith(key + rest, "- ")
  {
    DashPrefix(key);
    DashPrefix(key + rest);
    assert |key| == 1 ==> (key + rest)[1] == ':';
  }

  /** Parsing printed entries adds exactly their dict, whatever tokens follow the block. */
  lemma {:induction false} ParsePrintedEntries(entries: seq<Entry>, indent: nat, step: nat,
                                               acc: map<string, Yaml>, post: seq<Token>)
    requires GoodEntries(entries) && step >= 1 && Follows(post, indent)
    ensures ParseMapping(EntryTokens(entries, indent, step) + post, indent, acc)
         == ParseMapping(post, indent, MapOf(entries, acc))
    decreases entries
  {
    if entries == [] {
      assert EntryTokens(entries, indent, step) + post == post;
    } else {
      hide ParseMapping, GoodKey, GoodNode, ValueOf;
      var e := entries[0];
      var more := EntryTokens(entries[1..], indent, step) + post;
      FirstIndent(entries[1..], indent, step);
      assert Follows(more, indent);
      assert EntryTokens(entries, indent, step) + post == NodeTokens(e.key, e.node, indent, step) + more;
      ParsePrintedNode(e.key, e.node, indent, step, acc, more);
      ParsePrintedEntries(entries[1..], indent, step, acc[e.key := ValueOf(e.node)], post);
    }
  }

  lemma FirstIndent(entries: seq<Entry>, indent: nat, step: nat)
    ensures entries != [] ==>
      EntryTokens(entries, indent, step) != [] && EntryTokens(entries, indent, step)[0].indent == indent
  {}

  lemma {:induction false} ParsePrintedNode(key: string, n: Node, indent: nat, step: nat,
                                            acc: map<string, Yaml>, post: seq<Token>)
    requires GoodKey(key) && GoodNode(n) && step >= 1 && Follows(post, indent)
    ensures ParseMapping(NodeTokens(key, n, indent, step) + post, indent, acc)
         == ParseMapping(post, indent, acc[key := ValueOf(n)])
    decreases n
  {
    hide EntryError, KeyOf, RestOf, ParseScalar, Suffix, ParseMapping, ParseList, ParseBlock, GoodKey, PlainItem, PlainText;
    match n
    case Leaf(text) =>
      LeafLine(key, text);
      MappingStep(Token(indent, key + ": " + text), post, acc);
    case Items(items) =>
      var block := ItemTokens(items, indent + step);
      KeyLine(key);
      ParsePrintedItemsBlock(items, indent, indent + step, post);
      MappingStep(Token(indent, key + ":"), block + post, acc);
      assert [Token(indent, key + ":")] + block + post == [Token(indent, key + ":")] + (block + post);
    case Nested(entries) =>
      var block := EntryTokens(entries, indent + step, step);
      KeyLine(key);
      ParsePrintedEntries(entries, indent + step, step, map[], post);
      FirstIndent(entries, indent + step, step);
      FirstNotDashed(entries, indent + step, step);
      BlockOfEntries(block + post, indent, indent + step, MapOf(entries, map[]), post);
      MappingStep(Token(indent, key + ":"), block + post, acc);
      assert [Token(indent, key + ":")] + block + post == [Token(indent, key + ":")] + (block + post);
  }

  lemma ParsePrintedItemsBlock(items: seq<string>, outer: nat, indent: nat, post: seq<Token>)
    requires items != [] && forall i :: 0 <= i < |items| ==> PlainItem(items[i])
    requires outer < indent && Follows(post, outer)
    ensures ParseBlock(ItemTokens(items, indent) + post, outer) == Ok((YList(ItemValues(items)), post))
  {
    hide ParseScalar, PlainItem, Suffix, ParseList, ParseMapping;
    var ts := ItemTokens(items, indent) + post;
    assert ts[0] == Token(indent, "- " + items[0]) && StartsWith("- " + items[0], "- ");
    ParsePrintedItems(items, indent, [], post);
    assert [] + ItemValues(items) == ItemValues(items);
  }

  lemma BlockOfEntries(ts: seq<Token>, outer: nat, indent: nat, m: map<string, Yaml>, post: seq<Token>)
    requires ts != [] && ts[0].indent == indent > outer && !StartsWith(ts[0].content, "- ")
    requires Follows(post, outer)
    requires ParseMapping(ts, indent, map[]) == ParseMapping(post, indent, m)
    ensures ParseBlock(ts, outer) == Ok((YMap(m), post))
  {
    hide EntryError, KeyOf, RestOf, ParseScalar, ParseList;
  }

  lemma FirstNotDashed(entries: seq<Entry>, indent: nat, step: nat)
    requires GoodEntries(entries) && entries != []
    ensures EntryTokens(entries, indent, step) != []
    ensures !StartsWith(EntryTokens(entries, indent, step)[0].content, "- ")
  {
    var k := entries[0].key;
    if entries[0].node.Leaf? {
      var text := entries[0].node.text;
      NotDashed(k, ": " + text);
      assert k + ": " + text == k + (": " + text);
    } else {
      NotDashed(k, ":");
    }
  }

  // ----- the round trip -----

  /** Parsing a printed declaration gives back its tree, at any indentation, whatever body
      follows the closing fence. */
  lemma PrintedParses(entries: seq<Entry>, indent: nat, step: nat, body: string)
    requires GoodEntries(entries) && step >= 1
    requires body == "" || body[0] == '\n'
    ensures ParseFrontmatter(Print(entries, indent, step, body)) == Ok(MapOf(entries, map[]))
  {
    var ts := EntryTokens(entries, indent, step);
    EntryTokensKept(entries, indent, step);
    forall i | 0 <= i < |ts| ensures OneLine(Lines(ts)[i]) && !IsFence(Lines(ts)[i]) {
      LineToken(ts[i]);
    }
    LinesTokenize(ts);
    FencedParses(Lines(ts), body);
    ParsePrintedEntries(entries, indent, step, map[], []);
    assert ts + [] == ts;
    FirstIndent(entries, indent, step);
  }

  /** What is parsed between two fences is the tokens of the lines in between. */
  lemma FencedParses(lines: seq<string>, body: string)
    requires forall i :: 0 <= i < |lines| ==> '\n' !in lines[i] && !IsFence(lines[i])
    requires body == "" || body[0] == '\n'
    ensures ParseFrontmatter(JoinOn(["---"] + lines + ["---"], '\n') + body)
      == match TokenizeLines(lines) case Ok(ts) => ParseTokens(ts) case Err(e) => Err(e)
  {
    hide *;
    SplitFenced(lines, body);
    DashesFence();
    var text := JoinOn(["---"] + lines + ["---"], '\n') + body;
    var split := SplitOn(text, '\n')[1..];
    assert forall i :: 0 <= i < |lines| ==> split[i] == split[..|lines|][i];
    FenceIndexIs(split, |lines|);
    FrontmatterAt(text, |lines|);
    Rejoined(lines);
  }

  lemma SplitFenced(lines: seq<string>, body: string)
    requires forall i :: 0 <= i < |lines| ==> '\n' !in lines[i]
    requires body == "" || body[0] == '\n'
    ensures var split := SplitOn(JoinOn(["---"] + lines + ["---"], '\n') + body, '\n');
      && |split| >= |lines| + 2 && split[0] == "---"
      && split[1..][..|lines|] == lines && split[1..][|lines|] == "---"
  {
    hide *;
    var all := ["---"] + lines + ["---"];
    assert forall x :: x in all ==> x == "---" || x in lines;
    SplitOfJoin(all, '\n', body);
  }

  lemma DashesFence()
    ensures IsFence("---")
  {
    StripTrim("---");
  }

  /** When the text opens with a fence and `n` lines separate it from the next one. */
  lemma FrontmatterAt(text: string, n: nat)
    requires var lines := SplitOn(text, '\n');
      IsFence(lines[0]) && n < |lines| - 1 && FenceIndex(lines[1..]) == n
    ensures ParseFrontmatter(text)
      == match TokenizeLines(SplitOn(JoinOn(SplitOn(text, '\n')[1..][..n], '\n'), '\n'))
         case Ok(ts) => ParseTokens(ts)
         case Err(e) => Err(e)
  {
    hide JoinOn, SplitOn, TokenizeLines, ParseTokens, FenceIndex, IsFence;
    var lines := SplitOn(text, '\n');
    assert lines[1..][..n] == lines[1..n + 1];
  }

  lemma {:induction false} FenceIndexIs(lines: seq<string>, n: nat)
    requires n < |lines| && IsFence(lines[n]) && forall i :: 0 <= i < n ==> !IsFence(lines[i])
    ensures FenceIndex(lines) == n
  {
    if n > 0 { FenceIndexIs(lines[1..], n - 1); }
  }

  /** Joining the frontmatter lines and splitting them again changes no token. */
  lemma Rejoined(lines: seq<string>)
    requires forall i :: 0 <= i < |lines| ==> '\n' !in lines[i]
    ensures TokenizeLines(SplitOn(JoinOn(lines, '\n'), '\n')) == TokenizeLines(lines)
  {
    if lines == [] {
      assert SplitOn("", '\n') == [""];
      assert TokenizeLines([""]) == Ok([]);
    } else {
      SplitOfJoin(lines, '\n', "");
      assert JoinOn(lines, '\n') + "" == JoinOn(lines, '\n') && lines + [] == lines;
    }
  }

  // ----- spelling values -----

  /** A spelling for null, a Boolean, an integer, a decimal fraction or a one-line text. */
  function Spell(v: Yaml): string {
    match v
    case YBool(b) => if b then "true" else "false"
    case YInt(n) => IntText(n)
    case YFloat(literal) => literal
    case YStr(s) => "\"" + s + "\""
    case _ => "null"
  }

  predicate Spellable(v: Yaml) {
    match v
    case YFloat(literal) => IsFloatText(literal)
    case YStr(s) => OneLine(s)
    case YList(_) => false
    case YMap(_) => false
    case _ => true
  }

  /** On a key's own line a text cannot hold the brackets that open a flow collection. */
  predicate NoFlow(v: Yaml) { v.YStr? ==> '{' !in v.s && '[' !in v.s }

  lemma SpelledParses(v: Yaml)
    requires Spellable(v)
    ensures PlainItem(Spell(v)) && ParseScalar(Spell(v)) == v
    ensures NoFlow(v) ==> PlainText(Spell(v))
  {
    var t := Spell(v);
    match v
    case YInt(n) => SpelledInt(n);
    case YFloat(literal) => SpelledFloat(literal);
    case YStr(s) =>
      assert t[0] == '\"' && t[|t| - 1] == '\"' && t[1..|t| - 1] == s;
      StripTrim(t);
    case _ => StripTrim(t);
  }

  lemma SpelledFloat(t: string)
    requires IsFloatText(t)
    ensures PlainText(t) && ParseScalar(t) == YFloat(t)
  {
    FloatShape(t);
    hide IsFloatText, AllDigits;
    assert '.' in Unsigned(t) ==> !IsIntText(t) by { NoPointInDigits(Unsigned(t)); }
    StripTrim(t);
    assert t != "true" && t != "false" && t != "null" && t != "~" by { assert t[|t| - 1] !in "truefalsnl~"; }
  }

  lemma NoPointInDigits(u: string)
    ensures '.' in u ==> !AllDigits(u)
  {
    if '.' in u {
      var i :| 0 <= i < |u| && u[i] == '.';
      assert !IsDigit(u[i]);
    }
  }

  lemma FloatShape(t: string)
    requires IsFloatText(t)
    ensures t != [] && (t[0] == '-' || IsDigit(t[0])) && IsDigit(t[|t| - 1]) && '.' in Unsigned(t)
    ensures forall c :: c in t ==> c == '-' || c == '.' || IsDigit(c)
  {
    var u := Unsigned(t);
    var parts := SplitOn(u, '.');
    JoinOfSplit(u, '.');
    assert parts == [parts[0], parts[1]] && parts[1..] == [parts[1]];
    hide SplitOn;
    assert u == parts[0] + ['.'] + parts[1];
    hide JoinOn;
    assert u[|parts[0]|] == '.' && u[0] == parts[0][0] && u[|u| - 1] == parts[1][|parts[1]| - 1];
    FloatLetters(u, parts[0], parts[1]);
    hide AllDigits;
    if t != u { assert t == ['-'] + u; }
  }

  lemma FloatLetters(u: string, a: string, b: string)
    requires u == a + ['.'] + b && AllDigits(a) && AllDigits(b)
    ensures forall c :: c in u ==> c == '.' || IsDigit(c)
  {
    forall c | c in u ensures c == '.' || IsDigit(c) {
      assert c in a || c == '.' || c in b;
    }
  }

  lemma SpelledInt(n: int)
    ensures PlainText(IntText(n)) && ParseScalar(IntText(n)) == YInt(n)
  {
    var t := IntText(n);
    IntShape(n);
    hide IntText, AllDigits, IsFloatText;
    StripTrim(t);
    assert t != "true" && t != "false" && t != "null" && t != "~" by { assert t[|t| - 1] !in "truefalsnl~"; }
  }

  lemma IntShape(n: int)
    ensures var t := IntText(n);
      && t != [] && (t[0] == '-' || IsDigit(t[0])) && IsDigit(t[|t| - 1])
      && (forall c :: c in t ==> c == '-' || IsDigit(c))
      && IsIntText(t) && IntValue(t) == n
  {
    var t := IntText(n);
    var m: nat := if n < 0 then -n else n;
    var d := Decimal(m);
    DecimalValue(m);
    hide Decimal;
    assert IsDigit(d[0]) && IsDigit(d[|d| - 1]);
    assert t[|t| - 1] == d[|d| - 1];
    assert Unsigned(t) == d by { if n < 0 { assert t[1..] == d; } }
  }

  // ----- writing values -----

  /** `n` writes the value `v`: a scalar by its spelling, a list item by item, and a dict entry by
      entry, each of its keys once, in any order. */
  predicate Writes(n: Node, v: Yaml)
    decreases n
  {
    match n
    case Leaf(text) => Spellable(v) && NoFlow(v) && text == Spell(v)
    case Items(items) =>
      && v.YList? && items != [] && |items| == |v.items|
      && forall i :: 0 <= i < |items| ==> Spellable(v.items[i]) && items[i] == Spell(v.items[i])
    case Nested(entries) => v.YMap? && entries != [] && Listing(entries, v.m)
  }

  predicate Listing(entries: seq<Entry>, m: map<string, Yaml>)
    decreases entries
  {
    if entries == [] then m == map[]
    else
      var k := entries[0].key;
      k in m && GoodKey(k) && Writes(entries[0].node, m[k]) && Listing(entries[1..], m - {k})
  }

  lemma {:induction false} WrittenNode(n: Node, v: Yaml)
    requires Writes(n, v)
    ensures GoodNode(n) && ValueOf(n) == v
    decreases n
  {
    hide Spellable, Spell, ParseScalar, NoFlow, PlainItem, PlainText;
    match n
    case Leaf(text) => SpelledParses(v);
    case Items(items) => WrittenItems(items, v.items);
    case Nested(entries) => WrittenEntries(entries, v.m, map[]);
  }

  lemma {:induction false} WrittenItems(items: seq<string>, vs: seq<Yaml>)
    requires |items| == |vs|
    requires forall i :: 0 <= i < |items| ==> Spellable(vs[i]) && items[i] == Spell(vs[i])
    ensures (forall i :: 0 <= i < |items| ==> PlainItem(items[i])) && ItemValues(items) == vs
  {
    hide Spellable, Spell, ParseScalar, PlainItem;
    if items != [] {
      SpelledParses(vs[0]);
      WrittenItems(items[1..], vs[1..]);
      assert vs == [vs[0]] + vs[1..];
      assert forall i :: 0 < i < |items| ==> items[i] == items[1..][i - 1];
    }
  }

  lemma {:induction false} WrittenEntries(entries: seq<Entry>, m: map<string, Yaml>, acc: map<string, Yaml>)
    requires Listing(entries, m)
    ensures GoodEntries(entries) && MapOf(entries, acc) == acc + m
    decreases entries
  {
    hide GoodKey, Writes, GoodNode, ValueOf;
    if entries != [] {
      var k := entries[0].key;
      WrittenNode(entries[0].node, m[k]);
      WrittenEntries(entries[1..], m - {k}, acc[k := m[k]]);
      assert acc[k := m[k]] + (m - {k}) == acc + m;
    }
  }

  /** The round trip on values: however the keys of a dict and of the dicts in it are ordered, its
      written form parses back to it, with any indentation and any body. */
  lemma WrittenParses(entries: seq<Entry>, m: map<string, Yaml>, indent: nat, step: nat, body: string)
    requires Listing(entries, m) && step >= 1
    requires body == "" || body[0] == '\n'
    ensures ParseFrontmatter(Print(entries, indent, step, body)) == Ok(m)
  {
    hide *;
    WrittenEntries(entries, m, map[]);
    assert map[] + m == m;
    PrintedParses(entries, indent, step, body);
  }

  /** The values that can be written: no empty list or dict, scalars only in a list. */
  predicate Writable(v: Yaml)
    decreases v
  {
    match v
    case YList(items) => items != [] && forall i :: 0 <= i < |items| ==> Spellable(items[i])
    case YMap(m) => m != map[] && forall k :: k in m ==> GoodKey(k) && Writable(m[k])
    case _ => Spellable(v) && NoFlow(v)
  }

  predicate WritableEntries(m: map<string, Yaml>) { forall k :: k in m ==> GoodKey(k) && Writable(m[k]) }

  /** And every one of them is: each has a text that parses to it. */
  lemma EveryDictWritten(m: map<string, Yaml>, indent: nat, step: nat, body: string)
    requires WritableEntries(m) && step >= 1
    requires body == "" || body[0] == '\n'
    ensures exists entries ::
      Listing(entries, m) && ParseFrontmatter(Print(entries, indent, step, body)) == Ok(m)
  {
    hide *;
    var entries := ListingOf(YMap(m), m);
    WrittenParses(entries, m, indent, step, body);
  }

  lemma {:induction false} NodeOf(v: Yaml) returns (n: Node)
    requires Writable(v)
    ensures Writes(n, v)
    decreases v
  {
    hide Spellable, NoFlow, GoodKey;
    match v
    case YList(items) => n := Items(seq(|items|, i requires 0 <= i < |items| => Spell(items[i])));
    case YMap(m) =>
      var entries := ListingOf(v, m);
      n := Nested(entries);
    case _ => n := Leaf(Spell(v));
  }

  lemma {:induction false} ListingOf(whole: Yaml, m: map<string, Yaml>) returns (entries: seq<Entry>)
    requires WritableEntries(m)
    requires whole.YMap? && forall k :: k in m ==> k in whole.m && whole.m[k] == m[k]
    ensures Listing(entries, m)
    decreases whole, |m|
  {
    hide Writable, Writes, GoodKey;
    if m == map[] {
      entries := [];
    } else {
      var k :| k in m;
      var node := NodeOf(m[k]);
      var rest := ListingOf(whole, m - {k});
      entries := [Entry(k, node)] + rest;
      assert entries[1..] == rest;
    }
  }
}
