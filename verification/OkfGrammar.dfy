/** `okf_attested_computation.py`, the frontmatter parser: which texts it accepts and what they denote,
    told without the parser. */
module OkfGrammar {
  import opened JsonValue
  import opened PyText
  import opened OkfFrontmatter
  import OkfRoundTrip

  // ----- scalars -----

  predicate Numeral(s: string) { |s| > 0 && forall i :: 0 <= i < |s| ==> '0' <= s[i] <= '9' }

  predicate NumeralOf(s: string, n: nat) { Numeral(s) && DigitsValue(s) == n }

  predicate Integer(s: string, n: int) {
    (n >= 0 && NumeralOf(s, n)) || (n <= 0 && |s| > 0 && s[0] == '-' && NumeralOf(s[1..], -n))
  }

  /** Digits, a point, digits. */
  ghost predicate Fraction(s: string) {
    exists a: string, b: string :: Numeral(a) && Numeral(b) && s == a + "." + b
  }

  ghost predicate SignedFraction(s: string) { Fraction(s) || (|s| > 0 && s[0] == '-' && Fraction(s[1..])) }

  predicate Quoting(s: string, t: string) { s == "\"" + t + "\"" || s == "'" + t + "'" }

  predicate Quoted(s: string) { |s| >= 2 && Quoting(s, s[1..|s| - 1]) }

  ghost predicate Plain(s: string) {
    && s != "" && s != "null" && s != "~" && s != "true" && s != "false"
    && !Quoted(s) && !(exists n :: Integer(s, n)) && !SignedFraction(s)
  }

  /** The value of a stripped text. */
  ghost predicate Denotes(s: string, v: Yaml) {
    match v
    case YNull => s == "" || s == "null" || s == "~"
    case YBool(b) => s == if b then "true" else "false"
    case YInt(n) => Integer(s, n)
    case YFloat(literal) => s == literal && SignedFraction(s)
    case YStr(t) => Quoting(s, t) || (s == t && Plain(s))
    case YList(_) => false
    case YMap(_) => false
  }

  lemma IntegerExactly(s: string, n: int)
    ensures Integer(s, n) <==> IsIntText(s) && IntValue(s) == n
  {
    assert IsIntText(s) <==> Numeral(s) || (|s| > 0 && s[0] == '-' && Numeral(s[1..]));
  }

  lemma FractionExactly(s: string)
    ensures SignedFraction(s) <==> IsFloatText(s)
  {
    PartsExactly(Unsigned(s));
    if Fraction(s) {
      var a: string, b: string :| Numeral(a) && Numeral(b) && s == a + "." + b;
      assert s[0] == a[0] && s[0] != '-';
    }
  }

  lemma PartsExactly(u: string)
    ensures Fraction(u) <==>
      var parts := SplitOn(u, '.');
      |parts| == 2 && parts[0] != [] && AllDigits(parts[0]) && parts[1] != [] && AllDigits(parts[1])
  {
    var parts := SplitOn(u, '.');
    JoinOfSplit(u, '.');
    if |parts| == 2 && parts[0] != [] && AllDigits(parts[0]) && parts[1] != [] && AllDigits(parts[1]) {
      assert Numeral(parts[0]) && Numeral(parts[1]);
      assert u == parts[0] + "." + parts[1];
    }
    if a: string, b: string :| Numeral(a) && Numeral(b) && u == a + "." + b {
      SplitAtFirst(a, b, '.');
      SplitNone(b, '.');
    }
  }

  lemma QuotedExactly(s: string, t: string)
    ensures IsQuoted(s) <==> Quoted(s)
    ensures Quoting(s, t) <==> IsQuoted(s) && t == s[1..|s| - 1]
  {
    if IsQuoted(s) { assert s == [s[0]] + s[1..|s| - 1] + [s[0]]; }
    if Quoting(s, t) { assert s[1..|s| - 1] == t; }
  }

  predicate Word(s: string) { s == "" || s == "null" || s == "~" || s == "true" || s == "false" }

  lemma WordScalar(text: string, v: Yaml)
    requires Word(Strip(text))
    ensures ParseScalar(text) == v <==> Denotes(Strip(text), v)
  {
    var s := Strip(text);
    QuotedExactly(s, if v.YStr? then v.s else "");
    if v.YInt? { IntegerExactly(s, v.n); }
    FractionExactly(s);
    hide Strip, Integer, IntValue, Quoting, Quoted, SignedFraction;
    if IsIntText(s) || IsFloatText(s) { NotWord(s); }
    hide IsIntText, IsFloatText;
  }

  lemma QuotedScalar(text: string, v: Yaml)
    requires !Word(Strip(text)) && IsQuoted(Strip(text))
    ensures ParseScalar(text) == v <==> Denotes(Strip(text), v)
  {
    var s := Strip(text);
    QuotedExactly(s, if v.YStr? then v.s else "");
    if v.YInt? { IntegerExactly(s, v.n); }
    FractionExactly(s);
    if IsIntText(s) || IsFloatText(s) { NotWord(s); }
    hide Strip, Integer, IntValue, Quoting, Quoted, SignedFraction, IsIntText, IsFloatText, IsQuoted;
  }

  lemma OtherScalar(text: string, v: Yaml)
    requires !Word(Strip(text)) && !IsQuoted(Strip(text))
    ensures ParseScalar(text) == v <==> Denotes(Strip(text), v)
  {
    var s := Strip(text);
    QuotedExactly(s, if v.YStr? then v.s else "");
    forall n ensures Integer(s, n) <==> IsIntText(s) && IntValue(s) == n { IntegerExactly(s, n); }
    FractionExactly(s);
    if IsIntText(s) {
      NotFraction(s);
      assert Integer(s, IntValue(s));
    }
    hide Strip, Integer, IntValue, Quoting, Quoted, SignedFraction, IsIntText, IsFloatText, IsQuoted;
  }

  /** A text is read as the value its stripped form denotes, and as no other. */
  lemma ScalarExactly(text: string, v: Yaml)
    ensures ParseScalar(text) == v <==> Denotes(Strip(text), v)
  {
    hide *;
    if Word(Strip(text)) {
      WordScalar(text, v);
    } else if IsQuoted(Strip(text)) {
      QuotedScalar(text, v);
    } else {
      OtherScalar(text, v);
    }
  }

  /** A numeral is none of the five words and not quoted. */
  lemma NotWord(s: string)
    requires IsIntText(s) || IsFloatText(s)
    ensures s != "" && s != "null" && s != "~" && s != "true" && s != "false" && !IsQuoted(s)
  {
    FractionExactly(s);
    if IsIntText(s) {
      assert s[0] == '-' || IsDigit(s[0]);
    } else if Fraction(s) {
      var a: string, b: string :| Numeral(a) && Numeral(b) && s == a + "." + b;
      assert s[0] == a[0];
    }
  }

  lemma NotFraction(s: string)
    requires IsIntText(s)
    ensures !IsFloatText(s)
  {
    var u := Unsigned(s);
    assert '.' !in u;
    SplitNone(u, '.');
  }

  // ----- lines -----

  ghost predicate Comment(line: string) { exists n: nat :: n < |line| && line[n] == '#' && OnlyBlanks(line, n) }

  predicate OnlyBlanks(line: string, n: nat)
    requires n <= |line|
  {
    forall i :: 0 <= i < n ==> line[i] == ' '
  }

  /** The token is the line without the blanks before it, which it counts, and the white space after. */
  predicate TokenOf(line: string, t: Token) {
    var n := t.indent + |t.content|;
    && n <= |line| && OnlyBlanks(line, t.indent) && t.content == line[t.indent..n] && AllSpace(line[n..])
    && t.content != "" && t.content[0] != ' ' && !IsSpace(t.content[|t.content| - 1])
  }

  lemma {:induction false} BlanksTaken(line: string)
    ensures var r := LStripBlanks(line);
      && OnlyBlanks(line, |line| - |r|) && r == line[|line| - |r|..] && (r != [] ==> r[0] != ' ')
  {
    if line != [] && line[0] == ' ' {
      BlanksTaken(line[1..]);
      var n := |line| - |LStripBlanks(line)|;
      forall i | 0 <= i < n ensures line[i] == ' ' { if i > 0 { assert line[i] == line[1..][i - 1]; } }
    }
  }

  lemma BlankLine(line: string)
    ensures Strip(line) == "" <==> AllSpace(line)
  {
    hide Strip, IsSpace;
    StripExactly(line);
    var a: string, b: string :| AllSpace(a) && AllSpace(b) && line == a + Strip(line) + b;
    var mid := Strip(line);
    if mid != "" {
      assert line[|a|] == mid[0];
    } else {
      assert line == a + b;
    }
  }

  lemma KeptLine(line: string, n: nat, content: string, z: string)
    requires n <= |line| && line[n..] == content + z && AllSpace(z) && OnlyBlanks(line, n)
    ensures line[n + |content|..] == z && line[n..n + |content|] == content
    ensures content == "" ==> AllSpace(line)
  {
    assert line == line[..n] + (content + z);
    assert IsSpace(' ');
    if content == "" {
      forall i | 0 <= i < |line| ensures IsSpace(line[i]) { if i >= n { assert line[i] == z[i - n]; } }
    }
  }

  lemma CommentAt(line: string, n: nat)
    requires n <= |line| && OnlyBlanks(line, n) && (n < |line| ==> line[n] != ' ')
    ensures Comment(line) <==> n < |line| && line[n] == '#'
  {
    if Comment(line) {
      var m: nat :| m < |line| && line[m] == '#' && OnlyBlanks(line, m);
      assert !(m < n) && !(n < m);
    }
  }

  /** The parts of a line: blanks, content that neither starts with a blank nor ends in white space, and
      white space. */
  lemma LineShape(line: string, n: nat, content: string, z: string)
    requires n <= |line| && line[n..] == content + z && AllSpace(z) && OnlyBlanks(line, n)
    requires n < |line| ==> line[n] != ' '
    requires content != [] ==> !IsSpace(content[|content| - 1])
    ensures AllSpace(line) <==> content == ""
    ensures content != "" ==> TokenOf(line, Token(n, content)) && (StartsWith(content, "#") <==> Comment(line))
  {
    KeptLine(line, n, content, z);
    CommentAt(line, n);
    hide Comment, IsSpace;
    if content != "" {
      var last := n + |content| - 1;
      assert line[n..][|content| - 1] == content[|content| - 1] == line[last];
      assert line[n..][0] == content[0] == line[n];
    }
  }

  /** A blank line and a comment have no token; any other line has one. */
  lemma LineExactly(line: string)
    ensures LineTokens(line) == [] <==> AllSpace(line) || Comment(line)
    ensures LineTokens(line) != [] ==> |LineTokens(line)| == 1 && TokenOf(line, LineTokens(line)[0])
  {
    hide Strip, RStrip, IsSpace, Comment, LStripBlanks, AllSpace, OnlyBlanks, TokenOf;
    BlankLine(line);
    BlanksTaken(line);
    var r := LStripBlanks(line);
    var z := RStripped(r);
    LineShape(line, |line| - |r|, RStrip(r), z);
  }

  function TokensOf(lines: seq<string>): seq<Token> {
    if lines == [] then [] else LineTokens(lines[0]) + TokensOf(lines[1..])
  }

  ghost predicate HasTab(lines: seq<string>) { exists i :: 0 <= i < |lines| && '\t' in lines[i] }

  /** A tab in any line is refused; without one the tokens are those of the lines in order. */
  lemma {:induction false} TokenizeExactly(lines: seq<string>)
    ensures TokenizeLines(lines) == if HasTab(lines) then Err(TabCharacter) else Ok(TokensOf(lines))
  {
    hide LineTokens;
    if lines != [] {
      TokenizeExactly(lines[1..]);
      assert forall i :: 1 <= i < |lines| ==> lines[i] == lines[1..][i - 1];
      assert HasTab(lines) <==> '\t' in lines[0] || HasTab(lines[1..]);
    }
  }

  // ----- entries -----

  /** The entry `key: rest`, split at its first colon. */
  predicate Splits(content: string, key: string, rest: string) { ':' !in key && content == key + [':'] + rest }

  lemma SplitsAt(content: string, key: string, rest: string)
    requires Splits(content, key, rest)
    ensures KeyOf(content) == Strip(key) && RestOf(content) == Strip(rest)
  {
    hide Strip;
    SplitAtFirst(key, rest, ':');
    assert content[|key| + 1..] == rest;
  }

  lemma FirstColon(content: string) returns (key: string, rest: string)
    requires ':' in content
    ensures Splits(content, key, rest)
  {
    JoinOfSplit(content, ':');
    var parts := SplitOn(content, ':');
    key := parts[0];
    assert |parts| == 1 ==> content == key;
    rest := JoinOn(parts[1..], ':');
  }

  predicate IsItem(content: string) { |content| >= 2 && content[0] == '-' && content[1] == ' ' }

  lemma ItemExactly(content: string)
    ensures StartsWith(content, "- ") <==> IsItem(content)
  {
    if IsItem(content) { assert content[..2] == "- "; }
  }

  /** Which line is refused as an entry, and for which reason: the first that applies. */
  lemma EntryExactly(content: string, e: Error)
    ensures EntryError(content) == Some(e) <==>
      match e
      case StrayListItem => IsItem(content)
      case FlowCollection => !IsItem(content) && ('{' in content || '[' in content)
      case ExpectedKeyValue => !IsItem(content) && '{' !in content && '[' !in content && ':' !in content
      case EmptyKey => !IsItem(content) && '{' !in content && '[' !in content && BlankKey(content)
      case _ => false
  {
    if ':' in content {
      var key, rest := FirstColon(content);
      SplitsAt(content, key, rest);
      BlankLine(key);
      assert BlankKey(content) <==> AllSpace(key) by {
        forall k: string, r: string | Splits(content, k, r) ensures k == key { SameKey(content, k, r, key, rest); }
      }
    }
    ItemExactly(content);
    hide Strip, AllSpace, KeyOf, BlankKey, IsItem, StartsWith;
  }

  ghost predicate BlankKey(content: string) {
    exists key: string, rest: string :: Splits(content, key, rest) && AllSpace(key)
  }

  lemma SameKey(content: string, k: string, r: string, key: string, rest: string)
    requires Splits(content, k, r) && Splits(content, key, rest)
    ensures k == key
  {
    assert content[|k|] == ':' && content[|key|] == ':';
    assert forall i :: 0 <= i < |k| ==> content[i] == k[i];
    assert forall i :: 0 <= i < |key| ==> content[i] == key[i];
    assert !(|k| < |key|) && !(|key| < |k|);
    assert k == content[..|k|] && key == content[..|key|];
  }

  // ----- the layouts that are accepted -----

  /** What stands behind a key: its value on the line, nothing, list items, or entries. */
  datatype Block = OnLine | Nothing | ListBlock(indent: nat, items: seq<string>) | MapBlock(indent: nat, entries: seq<Line>)
  datatype Line = Line(content: string, block: Block)

  predicate WellLaid(es: seq<Line>, indent: nat)
    decreases es
  {
    es == [] ||
    (&& EntryError(es[0].content).None? && (es[0].block.OnLine? <==> RestOf(es[0].content) != "")
     && BlockLaid(es[0].block, indent) && WellLaid(es[1..], indent))
  }

  /** A block stands deeper than its key, all of it equally deep, and is not empty. */
  predicate BlockLaid(b: Block, indent: nat)
    decreases b
  {
    match b
    case OnLine => true
    case Nothing => true
    case ListBlock(i, items) => i > indent && items != [] && forall k :: 0 <= k < |items| ==> IsItem(items[k])
    case MapBlock(i, es) => i > indent && es != [] && WellLaid(es, i)
  }

  function ItemsLaid(items: seq<string>, indent: nat): (r: seq<Token>)
    ensures |r| == |items| && forall k :: 0 <= k < |r| ==> r[k] == Token(indent, items[k])
  {
    seq(|items|, k requires 0 <= k < |items| => Token(indent, items[k]))
  }

  function BlockTokens(b: Block): seq<Token>
    decreases b
  {
    match b
    case OnLine => []
    case Nothing => []
    case ListBlock(i, items) => ItemsLaid(items, i)
    case MapBlock(i, es) => Laid(es, i)
  }

  function Laid(es: seq<Line>, indent: nat): seq<Token>
    decreases es
  {
    if es == [] then [] else [Token(indent, es[0].content)] + BlockTokens(es[0].block) + Laid(es[1..], indent)
  }

  function ItemValue(item: string): Yaml
    requires IsItem(item)
  {
    ParseScalar(item[2..])
  }

  function ItemValues(items: seq<string>): (r: seq<Yaml>)
    requires forall k :: 0 <= k < |items| ==> IsItem(items[k])
    ensures |r| == |items| && forall k :: 0 <= k < |r| ==> r[k] == ItemValue(items[k])
  {
    seq(|items|, k requires 0 <= k < |items| => ItemValue(items[k]))
  }

  function BlockValue(content: string, b: Block, indent: nat): Yaml
    requires BlockLaid(b, indent)
    decreases b
  {
    match b
    case OnLine => ParseScalar(RestOf(content))
    case Nothing => YNull
    case ListBlock(_, items) => YList(ItemValues(items))
    case MapBlock(i, es) => YMap(DictOf(es, i, map[]))
  }

  /** The dict of the entries, added to `acc` in order. */
  function DictOf(es: seq<Line>, indent: nat, acc: map<string, Yaml>): map<string, Yaml>
    requires WellLaid(es, indent)
    decreases es
  {
    if es == [] then acc
    else DictOf(es[1..], indent, acc[KeyOf(es[0].content) := BlockValue(es[0].content, es[0].block, indent)])
  }

  predicate NoDeeper(post: seq<Token>, indent: nat) { post == [] || post[0].indent <= indent }

  // ----- what is laid out so is accepted -----

  lemma ItemStep(ts: seq<Token>, indent: nat, acc: seq<Yaml>)
    requires ts != [] && ts[0].indent == indent && IsItem(ts[0].content)
    ensures ParseList(ts, indent, acc) == ParseList(ts[1..], indent, acc + [ItemValue(ts[0].content)])
  {
    ItemExactly(ts[0].content);
    hide StartsWith, Suffix, ParseScalar;
  }

  lemma ItemsHead(items: seq<string>, indent: nat, post: seq<Token>)
    requires items != []
    ensures var ts := ItemsLaid(items, indent) + post;
      ts != [] && ts[0] == Token(indent, items[0]) && ts[1..] == ItemsLaid(items[1..], indent) + post
  {
    hide *;
  }

  lemma ValuesHead(items: seq<string>, acc: seq<Yaml>)
    requires items != [] && forall k :: 0 <= k < |items| ==> IsItem(items[k])
    ensures acc + ItemValues(items) == acc + [ItemValue(items[0])] + ItemValues(items[1..])
  {
    hide *;
  }

  lemma {:induction false} ListAccepted(items: seq<string>, indent: nat, acc: seq<Yaml>, post: seq<Token>)
    requires forall k :: 0 <= k < |items| ==> IsItem(items[k])
    requires post == [] || post[0].indent < indent
    ensures ParseList(ItemsLaid(items, indent) + post, indent, acc) == Ok((acc + ItemValues(items), post))
  {
    var ts := ItemsLaid(items, indent) + post;
    if items == [] {
      assert ts == post && acc + ItemValues(items) == acc;
    } else {
      hide *;
      assert IsItem(items[0]);
      ItemsHead(items, indent, post);
      ItemStep(ts, indent, acc);
      ValuesHead(items, acc);
      ListAccepted(items[1..], indent, acc + [ItemValue(items[0])], post);
    }
  }

  lemma {:induction false} BlockAccepted(content: string, b: Block, indent: nat, post: seq<Token>)
    requires BlockLaid(b, indent) && !b.OnLine? && NoDeeper(post, indent)
    ensures ParseBlock(BlockTokens(b) + post, indent) == Ok((BlockValue(content, b, indent), post))
    decreases b
  {
    match b
    case Nothing => assert BlockTokens(b) + post == post;
    case ListBlock(i, items) =>
      ListAccepted(items, i, [], post);
      ItemExactly(items[0]);
      assert [] + ItemValues(items) == ItemValues(items);
    case MapBlock(i, es) =>
      Accepted(es, i, map[], post);
      StopsBefore(post, i, DictOf(es, i, map[]));
      hide Laid, WellLaid, DictOf;
      LaidHead(es, i);
  }

  lemma StopsBefore(post: seq<Token>, indent: nat, m: map<string, Yaml>)
    requires post == [] || post[0].indent < indent
    ensures ParseMapping(post, indent, m) == Ok((m, post))
  {}

  lemma LaidHead(es: seq<Line>, indent: nat)
    requires es != [] && WellLaid(es, indent)
    ensures Laid(es, indent) != [] && Laid(es, indent)[0] == Token(indent, es[0].content)
    ensures !StartsWith(es[0].content, "- ")
  {
    EntryExactly(es[0].content, StrayListItem);
    ItemExactly(es[0].content);
  }

  /** Parsing a layout adds its dict, whatever follows the block. */
  lemma {:induction false} Accepted(es: seq<Line>, indent: nat, acc: map<string, Yaml>, post: seq<Token>)
    requires WellLaid(es, indent) && NoDeeper(post, indent)
    ensures ParseMapping(Laid(es, indent) + post, indent, acc) == ParseMapping(post, indent, DictOf(es, indent, acc))
    decreases es
  {
    if es == [] {
      assert Laid(es, indent) + post == post;
    } else {
      var e, more := es[0], Laid(es[1..], indent) + post;
      var ts := Laid(es, indent) + post;
      Regrouped(Token(indent, e.content), BlockTokens(e.block), Laid(es[1..], indent), post);
      if es[1..] != [] { LaidHead(es[1..], indent); }
      var value := BlockValue(e.content, e.block, indent);
      Accepted(es[1..], indent, acc[KeyOf(e.content) := value], post);
      if e.block.OnLine? {
        assert BlockTokens(e.block) + more == more;
      } else {
        BlockAccepted(e.content, e.block, indent, more);
      }
      hide BlockValue, BlockTokens, EntryError, RestOf, KeyOf, ParseScalar, ParseBlock, Laid;
      EntryStep(ts, indent, acc);
    }
  }

  lemma Regrouped(t: Token, a: seq<Token>, b: seq<Token>, post: seq<Token>)
    ensures [t] + a + b + post == [t] + (a + (b + post))
    ensures ([t] + (a + (b + post)))[1..] == a + (b + post) && ([t] + (a + (b + post)))[0] == t
  {}

  /** One step of the mapping. */
  lemma EntryStep(ts: seq<Token>, indent: nat, acc: map<string, Yaml>)
    requires ts != [] && ts[0].indent == indent && EntryError(ts[0].content).None?
    ensures RestOf(ts[0].content) != "" ==>
      ParseMapping(ts, indent, acc)
      == ParseMapping(ts[1..], indent, acc[KeyOf(ts[0].content) := ParseScalar(RestOf(ts[0].content))])
    ensures RestOf(ts[0].content) == "" ==>
      match ParseBlock(ts[1..], indent)
      case Ok((value, left)) =>
        ParseMapping(ts, indent, acc) == ParseMapping(left, indent, acc[KeyOf(ts[0].content) := value])
      case Err(e) => ParseMapping(ts, indent, acc) == Err(e)
  {
    hide EntryError, RestOf, KeyOf, ParseScalar, ParseBlock;
  }

  // ----- and nothing else is -----

  lemma ListStep(ts: seq<Token>, indent: nat, acc: seq<Yaml>)
    requires ParseList(ts, indent, acc).Ok?
    ensures if ts != [] && ts[0].indent == indent && IsItem(ts[0].content) then
              ParseList(ts, indent, acc) == ParseList(ts[1..], indent, acc + [ItemValue(ts[0].content)])
            else ParseList(ts, indent, acc) == Ok((acc, ts))
  {
    if ts != [] { ItemExactly(ts[0].content); }
    hide StartsWith, Suffix, ParseScalar;
  }

  lemma {:induction false} ListOnly(ts: seq<Token>, indent: nat, acc: seq<Yaml>) returns (items: seq<string>)
    requires ParseList(ts, indent, acc).Ok?
    ensures forall k :: 0 <= k < |items| ==> IsItem(items[k])
    ensures var (vs, rest) := ParseList(ts, indent, acc).value;
      ts == ItemsLaid(items, indent) + rest && vs == acc + ItemValues(items)
    ensures ts != [] && ts[0].indent == indent && IsItem(ts[0].content) ==> items != []
  {
    hide *;
    items := [];
    ListStep(ts, indent, acc);
    if ts != [] && ts[0].indent == indent && IsItem(ts[0].content) {
      var more := ListOnly(ts[1..], indent, acc + [ItemValue(ts[0].content)]);
      items := [ts[0].content] + more;
      OneItemMore(ts, indent, acc, more, ParseList(ts, indent, acc).value.1);
    } else {
      assert ts == ItemsLaid(items, indent) + ts && acc == acc + ItemValues(items);
    }
  }

  lemma OneItemMore(ts: seq<Token>, indent: nat, acc: seq<Yaml>, more: seq<string>, rest: seq<Token>)
    requires ts != [] && ts[0].indent == indent && IsItem(ts[0].content)
    requires forall k :: 0 <= k < |more| ==> IsItem(more[k])
    requires ts[1..] == ItemsLaid(more, indent) + rest
    ensures ts == ItemsLaid([ts[0].content] + more, indent) + rest
    ensures acc + ItemValues([ts[0].content] + more) == acc + [ItemValue(ts[0].content)] + ItemValues(more)
  {
    hide *;
    assert ts == [ts[0]] + ts[1..];
    assert ItemsLaid([ts[0].content] + more, indent) == [ts[0]] + ItemsLaid(more, indent);
  }

  lemma BlockStep(ts: seq<Token>, indent: nat)
    requires ParseBlock(ts, indent).Ok?
    ensures |ParseBlock(ts, indent).value.1| <= |ts|
    ensures if ts == [] || ts[0].indent <= indent then ParseBlock(ts, indent) == Ok((YNull, ts))
            else if IsItem(ts[0].content) then
              var r := ParseList(ts, ts[0].indent, []);
              r.Ok? && ParseBlock(ts, indent) == Ok((YList(r.value.0), r.value.1))
            else
              var r := ParseMapping(ts, ts[0].indent, map[]);
              r.Ok? && ParseBlock(ts, indent) == Ok((YMap(r.value.0), r.value.1))
  {
    if ts != [] { ItemExactly(ts[0].content); }
    hide StartsWith, ParseList, ParseMapping, IsItem;
  }

  lemma {:induction false} BlockOnly(content: string, ts: seq<Token>, indent: nat) returns (b: Block)
    requires ParseBlock(ts, indent).Ok?
    ensures !b.OnLine? && BlockLaid(b, indent)
    ensures var (value, rest) := ParseBlock(ts, indent).value;
      ts == BlockTokens(b) + rest && value == BlockValue(content, b, indent)
    decreases |ts|, 1
  {
    hide ParseBlock, ParseList, ParseMapping, StartsWith, IsItem, Suffix, ItemsLaid, Laid, DictOf, WellLaid;
    BlockStep(ts, indent);
    b := Nothing;
    if ts == [] || ts[0].indent <= indent {
      assert ts == BlockTokens(b) + ts;
    } else if IsItem(ts[0].content) {
      var items := ListOnly(ts, ts[0].indent, []);
      assert [] + ItemValues(items) == ItemValues(items);
      b := ListBlock(ts[0].indent, items);
    } else {
      var es := MappingOnly(ts, ts[0].indent, map[]);
      b := MapBlock(ts[0].indent, es);
    }
  }

  lemma MappingStep(ts: seq<Token>, indent: nat, acc: map<string, Yaml>)
    requires ParseMapping(ts, indent, acc).Ok?
    ensures if ts == [] || ts[0].indent < indent then ParseMapping(ts, indent, acc) == Ok((acc, ts))
            else ts[0].indent == indent && EntryError(ts[0].content).None?
  {
    hide EntryError, RestOf, KeyOf, ParseScalar, ParseBlock, Suffix;
  }

  /** Whatever is parsed was laid out so. */
  lemma {:induction false} MappingOnly(ts: seq<Token>, indent: nat, acc: map<string, Yaml>) returns (es: seq<Line>)
    requires ParseMapping(ts, indent, acc).Ok?
    ensures WellLaid(es, indent)
    ensures var (m, rest) := ParseMapping(ts, indent, acc).value;
      ts == Laid(es, indent) + rest && m == DictOf(es, indent, acc)
    ensures ts != [] && ts[0].indent == indent ==> es != []
    decreases |ts|, 0
  {
    hide *;
    es := [];
    MappingStep(ts, indent, acc);
    if ts == [] || ts[0].indent < indent {
      NothingLaid(ts, indent, acc);
    } else {
      es := EntriesOnly(ts, indent, acc);
    }
  }

  lemma NothingLaid(ts: seq<Token>, indent: nat, acc: map<string, Yaml>)
    ensures WellLaid([], indent) && ts == Laid([], indent) + ts && acc == DictOf([], indent, acc)
  {}

  lemma {:induction false} EntriesOnly(ts: seq<Token>, indent: nat, acc: map<string, Yaml>) returns (es: seq<Line>)
    requires ParseMapping(ts, indent, acc).Ok? && ts != [] && ts[0].indent == indent && EntryError(ts[0].content).None?
    ensures WellLaid(es, indent) && es != []
    ensures var (m, rest) := ParseMapping(ts, indent, acc).value;
      ts == Laid(es, indent) + rest && m == DictOf(es, indent, acc)
    decreases |ts| - 1, 2
  {
    hide EntryError, RestOf, KeyOf, ParseScalar, ParseBlock, ParseMapping, WellLaid, Laid, DictOf, BlockLaid, BlockTokens,
         Suffix;
    var content, rest := ts[0].content, ParseMapping(ts, indent, acc).value.1;
    EntryStep(ts, indent, acc);
    if RestOf(content) != "" {
      var more := MappingOnly(ts[1..], indent, acc[KeyOf(content) := ParseScalar(RestOf(content))]);
      es := [Line(content, OnLine)] + more;
      OnLineLaid(indent, ts[1..]);
      OneEntryMore(ts, indent, OnLine, more, ts[1..], rest, acc);
    } else {
      var b := BlockOnly(content, ts[1..], indent);
      BlockStep(ts[1..], indent);
      var (value, left) := ParseBlock(ts[1..], indent).value;
      var more := MappingOnly(left, indent, acc[KeyOf(content) := value]);
      es := [Line(content, b)] + more;
      OneEntryMore(ts, indent, b, more, left, rest, acc);
    }
  }

  lemma OnLineLaid(indent: nat, ts: seq<Token>)
    ensures BlockLaid(OnLine, indent) && BlockTokens(OnLine) + ts == ts
  {}

  lemma OneEntryMore(ts: seq<Token>, indent: nat, b: Block, more: seq<Line>, left: seq<Token>, rest: seq<Token>,
                     acc: map<string, Yaml>)
    requires ts != [] && ts[0].indent == indent && EntryError(ts[0].content).None?
    requires b.OnLine? <==> RestOf(ts[0].content) != ""
    requires BlockLaid(b, indent) && WellLaid(more, indent)
    requires ts[1..] == BlockTokens(b) + left && left == Laid(more, indent) + rest
    ensures var es := [Line(ts[0].content, b)] + more;
      && WellLaid(es, indent) && ts == Laid(es, indent) + rest
      && DictOf(es, indent, acc)
         == DictOf(more, indent, acc[KeyOf(ts[0].content) := BlockValue(ts[0].content, b, indent)])
  {
    hide EntryError, RestOf, KeyOf, ParseScalar, BlockValue;
    var es := [Line(ts[0].content, b)] + more;
    assert es[1..] == more && es[0] == Line(ts[0].content, b);
    assert ts == [ts[0]] + ts[1..];
    Regrouped(ts[0], BlockTokens(b), Laid(more, indent), rest);
  }

  /** The token list is a layout of a dict: its lines are entries at one indentation, with blocks of
      items or entries behind the keys that have nothing on their line. */
  ghost predicate Layout(ts: seq<Token>, m: map<string, Yaml>) {
    if ts == [] then m == map[]
    else
      var indent := ts[0].indent;
      exists es :: WellLaid(es, indent) && es != [] && ts == Laid(es, indent) && m == DictOf(es, indent, map[])
  }

  /** Tokens parse to a dict exactly when they are a layout of it. */
  lemma ParsedExactly(ts: seq<Token>, m: map<string, Yaml>)
    ensures ParseTokens(ts) == Ok(m) <==> Layout(ts, m)
  {
    if ts != [] {
      var indent := ts[0].indent;
      if ParseTokens(ts) == Ok(m) {
        var es := MappingOnly(ts, indent, map[]);
        assert ts == Laid(es, indent);
      }
      if es :| WellLaid(es, indent) && es != [] && ts == Laid(es, indent) && m == DictOf(es, indent, map[]) {
        Accepted(es, indent, map[], []);
        assert Laid(es, indent) + [] == ts;
      }
    }
  }

  /** Line n is the closing fence, and no line before it holds a tab. */
  predicate Enclosed(lines: seq<string>, n: nat) {
    && 1 <= n < |lines| && Strip(lines[n]) == "---"
    && forall i :: 1 <= i < n ==> Strip(lines[i]) != "---" && '\t' !in lines[i]
  }

  lemma FenceAt(lines: seq<string>, n: nat)
    requires lines != [] && n == 1 + FenceIndex(lines[1..]) && n < |lines|
    ensures forall k: nat :: Enclosed(lines, k) ==> k == n
    ensures Enclosed(lines, n) <==> !HasTab(lines[1..n])
  {
    hide Strip;
    assert forall i :: 1 <= i <= n ==> lines[i] == lines[1..][i - 1];
    assert forall i :: 1 <= i < n ==> lines[i] == lines[1..n][i - 1];
    assert forall i :: 1 <= i < n ==> !IsFence(lines[i]);
    forall k: nat | Enclosed(lines, k) ensures k == n { assert !(k < n) && !(n < k); }
  }

  lemma NoFence(lines: seq<string>)
    requires lines != [] && FenceIndex(lines[1..]) == |lines| - 1
    ensures forall k: nat :: !Enclosed(lines, k)
  {
    hide Strip;
    assert forall i :: 1 <= i < |lines| ==> lines[i] == lines[1..][i - 1] && !IsFence(lines[i]);
  }

  /** With the closing fence found, the text parses as the lines before it. */
  lemma EnclosedParses(text: string, n: nat, m: map<string, Yaml>)
    requires var lines := SplitOn(text, '\n'); IsFence(lines[0]) && n < |lines| - 1 && FenceIndex(lines[1..]) == n
    ensures ParseFrontmatter(text) == Ok(m) <==>
      var lines := SplitOn(text, '\n'); Enclosed(lines, n + 1) && Layout(TokensOf(lines[1..n + 1]), m)
  {
    hide Strip, ParseTokens, TokenizeLines, TokensOf, Layout, SplitOn, JoinOn, ParseFrontmatter, Enclosed, HasTab;
    var lines := SplitOn(text, '\n');
    OkfRoundTrip.FrontmatterAt(text, n);
    OkfRoundTrip.Rejoined(lines[1..][..n]);
    assert lines[1..][..n] == lines[1..n + 1];
    TokenizeExactly(lines[1..n + 1]);
    ParsedExactly(TokensOf(lines[1..n + 1]), m);
    FenceAt(lines, n + 1);
  }

  /** A text parses to a dict exactly when its first line is a fence, a later one is, no line before
      that holds a tab, and the tokens of these lines are a layout of the dict. */
  lemma FrontmatterExactly(text: string, m: map<string, Yaml>)
    ensures ParseFrontmatter(text) == Ok(m) <==>
      var lines := SplitOn(text, '\n');
      Strip(lines[0]) == "---" && exists n: nat :: Enclosed(lines, n) && Layout(TokensOf(lines[1..n]), m)
  {
    hide Strip, ParseTokens, TokenizeLines, TokensOf, Layout, SplitOn, JoinOn, Enclosed;
    var lines := SplitOn(text, '\n');
    if IsFence(lines[0]) {
      var n := FenceIndex(lines[1..]);
      if n < |lines| - 1 {
        EnclosedParses(text, n, m);
        FenceAt(lines, n + 1);
      } else {
        NoFence(lines);
      }
    }
  }
}
