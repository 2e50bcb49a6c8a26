/** How parsing composes over concatenated token lists, and from it: when trailing content is
    reported, and what one more top-level `key: value` line can change. */
module OkfInertness {
  import opened PyText
  import opened OkfFrontmatter
  import opened OkfRoundTrip

  // ----- parsing a concatenation -----

  lemma {:induction false} ListAppend(a: seq<Token>, b: seq<Token>, indent: nat, acc: seq<Yaml>)
    requires b != [] && b[0].indent < indent
    ensures ParseList(a + b, indent, acc)
      == match ParseList(a, indent, acc) case Ok((v, rest)) => Ok((v, rest + b)) case Err(e) => Err(e)
  {
    hide ParseScalar;
    if a == [] {
      assert a + b == b && [] + b == b;
    } else {
      assert (a + b)[0] == a[0] && (a + b)[1..] == a[1..] + b;
      if StartsWith(a[0].content, "- ") {
        ListAppend(a[1..], b, indent, acc + [ParseScalar(a[0].content[2..])]);
      }
    }
  }

  /** Tokens no deeper than the mapping, appended to its input, are parsed from wherever the
      input alone would have ended. */
  lemma {:induction false} MappingAppend(a: seq<Token>, b: seq<Token>, indent: nat, acc: map<string, Yaml>)
    requires b != [] && b[0].indent <= indent
    ensures ParseMapping(a + b, indent, acc)
      == match ParseMapping(a, indent, acc)
         case Ok((m, rest)) => if rest == [] then ParseMapping(b, indent, m) else Ok((m, rest + b))
         case Err(e) => Err(e)
    decreases |a|, 0
  {
    hide EntryError, KeyOf, RestOf, ParseScalar, ParseBlock, Suffix;
    if a == [] {
      assert a + b == b;
    } else {
      assert (a + b)[0] == a[0] && (a + b)[1..] == a[1..] + b;
      var key, rest := KeyOf(a[0].content), RestOf(a[0].content);
      if a[0].indent == indent && EntryError(a[0].content).None? {
        if rest == "" {
          BlockAppend(a[1..], b, indent);
          if ParseBlock(a[1..], indent).Ok? {
            var (value, left) := ParseBlock(a[1..], indent).value;
            SuffixShorter(left, a[1..]);
            MappingAppend(left, b, indent, acc[key := value]);
          }
        } else {
          MappingAppend(a[1..], b, indent, acc[key := ParseScalar(rest)]);
        }
      }
    }
  }

  lemma SuffixShorter(s: seq<Token>, ts: seq<Token>)
    requires Suffix(s, ts)
    ensures |s| <= |ts|
  {}

  lemma {:induction false} BlockAppend(a: seq<Token>, b: seq<Token>, indent: nat)
    requires b != [] && b[0].indent <= indent
    ensures ParseBlock(a + b, indent)
      == match ParseBlock(a, indent) case Ok((v, rest)) => Ok((v, rest + b)) case Err(e) => Err(e)
    decreases |a|, 1
  {
    hide ParseMapping, ParseList, Suffix;
    if a == [] {
      assert a + b == b && [] + b == b;
    } else {
      assert (a + b)[0] == a[0];
      if a[0].indent > indent {
        ListAppend(a, b, a[0].indent, []);
        MappingAppend(a, b, a[0].indent, map[]);
        MappingStops(b, a[0].indent);
        assert [] + b == b;
      }
    }
  }

  lemma MappingStops(b: seq<Token>, indent: nat)
    requires b != [] && b[0].indent < indent
    ensures forall m :: ParseMapping(b, indent, m) == Ok((m, b))
  {}

  /** What parsing adds does not depend on what was there. */
  lemma {:induction false} AccIndependent(ts: seq<Token>, indent: nat, acc: map<string, Yaml>)
    ensures ParseMapping(ts, indent, acc)
      == match ParseMapping(ts, indent, map[]) case Ok((d, rest)) => Ok((acc + d, rest)) case Err(e) => Err(e)
    decreases |ts|, 0
  {
    hide EntryError, KeyOf, RestOf, ParseScalar, ParseBlock, Suffix;
    assert acc + map[] == acc;
    if ts != [] && ts[0].indent == indent && EntryError(ts[0].content).None? {
      var key, rest := KeyOf(ts[0].content), RestOf(ts[0].content);
      if rest != "" {
        AccStep(ts[1..], indent, acc, key, ParseScalar(rest));
      } else if ParseBlock(ts[1..], indent).Ok? {
        var (value, left) := ParseBlock(ts[1..], indent).value;
        SuffixShorter(left, ts[1..]);
        AccStep(left, indent, acc, key, value);
      }
    }
  }

  lemma {:induction false} AccStep(ts: seq<Token>, indent: nat, acc: map<string, Yaml>, key: string, v: Yaml)
    ensures ParseMapping(ts, indent, acc[key := v])
      == match ParseMapping(ts, indent, map[][key := v])
         case Ok((d, rest)) => Ok((acc + d, rest)) case Err(e) => Err(e)
    decreases |ts|, 1
  {
    hide ParseMapping;
    AccIndependent(ts, indent, acc[key := v]);
    AccIndependent(ts, indent, map[][key := v]);
    if ParseMapping(ts, indent, map[]).Ok? {
      var d := ParseMapping(ts, indent, map[]).value.0;
      assert acc + (map[][key := v] + d) == acc[key := v] + d;
    }
  }

  // ----- trailing content -----

  /** The first token indented less than `indent`, or the number of tokens. */
  function Dedent(ts: seq<Token>, indent: nat): (n: nat)
    ensures n <= |ts|
    ensures forall i :: 0 <= i < n ==> ts[i].indent >= indent
    ensures n < |ts| ==> ts[n].indent < indent
  {
    if ts == [] || ts[0].indent < indent then 0 else 1 + Dedent(ts[1..], indent)
  }

  /** Trailing content is reported exactly when some later token is indented less than the first
      one and everything before it parses; nothing else makes the parser stop early. */
  lemma TrailingContentExactly(ts: seq<Token>)
    requires ts != []
    ensures var n := Dedent(ts, ts[0].indent);
      ParseTokens(ts) == Err(TrailingContent) <==> n < |ts| && ParseTokens(ts[..n]).Ok?
  {
    hide *;
    var n := Dedent(ts, ts[0].indent);
    var indent := ts[0].indent;
    assert 0 < n && ts[..n][0] == ts[0];
    NoLowToken(ts[..n], indent);
    if n < |ts| {
      assert ts == ts[..n] + ts[n..];
      MappingAppend(ts[..n], ts[n..], indent, map[]);
      var before := ParseMapping(ts[..n], indent, map[]);
      if before.Ok? { LowStops(ts[n..], indent, before.value.0); }
    } else {
      assert ts[..n] == ts;
    }
    TokensParse(ts);
    TokensParse(ts[..n]);
  }

  lemma LowStops(ts: seq<Token>, indent: nat, acc: map<string, Yaml>)
    requires ts != [] && ts[0].indent < indent
    ensures ParseMapping(ts, indent, acc) == Ok((acc, ts))
  {}

  lemma TokensParse(ts: seq<Token>)
    requires ts != []
    ensures var r := ParseMapping(ts, ts[0].indent, map[]);
      && (ParseTokens(ts) == Err(TrailingContent) <==> r.Ok? && r.value.1 != [])
      && (ParseTokens(ts).Ok? <==> r.Ok? && r.value.1 == [])
  {
    NeverTrailing(ts, ts[0].indent, map[]);
    hide ParseMapping;
  }

  lemma NoLowToken(ts: seq<Token>, indent: nat)
    requires forall i :: 0 <= i < |ts| ==> ts[i].indent >= indent
    ensures ParseMapping(ts, indent, map[]).Ok? ==> ParseMapping(ts, indent, map[]).value.1 == []
  {
    if ParseMapping(ts, indent, map[]).Ok? {
      var rest := ParseMapping(ts, indent, map[]).value.1;
      assert Suffix(rest, ts) && forall t :: t in rest ==> t.indent >= indent;
    }
  }

  lemma {:induction false} NeverTrailing(ts: seq<Token>, indent: nat, acc: map<string, Yaml>)
    ensures ParseMapping(ts, indent, acc) != Err(TrailingContent)
    decreases |ts|, 0
  {
    hide KeyOf, RestOf, ParseScalar, ParseBlock, Suffix;
    if ts != [] && ts[0].indent == indent && EntryError(ts[0].content).None? {
      var key, rest := KeyOf(ts[0].content), RestOf(ts[0].content);
      if rest != "" {
        NeverTrailing(ts[1..], indent, acc[key := ParseScalar(rest)]);
      } else {
        NeverTrailingBlock(ts[1..], indent);
        if ParseBlock(ts[1..], indent).Ok? {
          var (value, left) := ParseBlock(ts[1..], indent).value;
          SuffixShorter(left, ts[1..]);
          NeverTrailing(left, indent, acc[key := value]);
        }
      }
    }
  }

  lemma {:induction false} NeverTrailingBlock(ts: seq<Token>, indent: nat)
    ensures ParseBlock(ts, indent) != Err(TrailingContent)
    decreases |ts|, 1
  {
    hide ParseMapping, ParseList, Suffix;
    if ts != [] && ts[0].indent > indent {
      NeverTrailing(ts, ts[0].indent, map[]);
      NeverTrailingList(ts, ts[0].indent, []);
    }
  }

  lemma {:induction false} NeverTrailingList(ts: seq<Token>, indent: nat, acc: seq<Yaml>)
    ensures ParseList(ts, indent, acc) != Err(TrailingContent)
    decreases |ts|
  {
    if ts != [] && ts[0].indent == indent && StartsWith(ts[0].content, "- ") {
      NeverTrailingList(ts[1..], indent, acc + [ParseScalar(ts[0].content[2..])]);
    }
  }

  // ----- one more top-level entry -----

  /** The entry may stand between `a` and `b`: it is indented like the first token, and `b` goes
      on at that indentation. */
  predicate TopLevelBoundary(a: seq<Token>, b: seq<Token>, t: Token) {
    (a + b != [] ==> t.indent == (a + b)[0].indent) && (b != [] ==> b[0].indent == t.indent)
  }

  lemma InsertedToken(a: seq<Token>, b: seq<Token>, t: Token)
    requires EntryError(t.content).None? && RestOf(t.content) != ""
    requires TopLevelBoundary(a, b, t) && ParseTokens(a + b).Ok?
    ensures ParseTokens(a + [t] + b).Ok?
    ensures ParseTokens(a + [t] + b).value - {KeyOf(t.content)} == ParseTokens(a + b).value - {KeyOf(t.content)}
  {
    hide EntryError, KeyOf, RestOf, ParseScalar, ParseMapping;
    var n, k, v := t.indent, KeyOf(t.content), ParseScalar(RestOf(t.content));
    assert (a + [t] + b)[0].indent == n by { if a != [] { assert (a + b)[0] == a[0]; } }
    assert a + [t] + b == a + ([t] + b);
    MappingAppend(a, [t] + b, n, map[]);
    ParseEmpty(n);
    if b == [] { assert a + b == a; } else { MappingAppend(a, b, n, map[]); }
    assert a + b != [] ==> (a + b)[0].indent == n;
    var mA := ParseMapping(a, n, map[]).value.0;
    MappingStep(t, b, mA);
    AccIndependent(b, n, mA);
    AccIndependent(b, n, mA[k := v]);
    var d := ParseMapping(b, n, map[]).value.0;
    OneKeyApart(mA, d, k, v);
  }

  lemma ParseEmpty(indent: nat)
    ensures forall m :: ParseMapping([], indent, m) == Ok((m, []))
  {}

  lemma OneKeyApart(m: map<string, Yaml>, d: map<string, Yaml>, k: string, v: Yaml)
    ensures (m[k := v] + d) - {k} == (m + d) - {k}
  {
    var x, y := (m[k := v] + d) - {k}, (m + d) - {k};
    assert x.Keys == y.Keys;
  }

  lemma {:induction false} TokenizeAppend(xs: seq<string>, ys: seq<string>)
    ensures TokenizeLines(xs + ys)
      == match TokenizeLines(xs)
         case Ok(ts) => Prepend(ts, TokenizeLines(ys))
         case Err(e) => Err(e)
  {
    if xs == [] {
      assert xs + ys == ys;
      assert forall ts: seq<Token> :: [] + ts == ts;
    } else {
      assert (xs + ys)[1..] == xs[1..] + ys;
      TokenizeAppend(xs[1..], ys);
      if TokenizeLines(xs[1..]).Ok? && TokenizeLines(ys).Ok? {
        var h, t, u := LineTokens(xs[0]), TokenizeLines(xs[1..]).value, TokenizeLines(ys).value;
        assert h + (t + u) == (h + t) + u;
      }
    }
  }

  /** The text with one more line before line `p`. */
  function InsertLine(text: string, p: nat, line: string): string
    requires p <= |SplitOn(text, '\n')|
  {
    var lines := SplitOn(text, '\n');
    JoinOn(lines[..p] + [line] + lines[p..], '\n')
  }

  lemma InsertedSplit(text: string, p: nat, line: string)
    requires 1 <= p <= |SplitOn(text, '\n')| && '\n' !in line
    ensures SplitOn(InsertLine(text, p, line), '\n')
         == SplitOn(text, '\n')[..p] + [line] + SplitOn(text, '\n')[p..]
  {
    hide SplitOn, JoinOn;
    var lines := SplitOn(text, '\n');
    var all := lines[..p] + [line] + lines[p..];
    assert forall x :: x in all ==> x in lines || x == line;
    SplitOfJoin(all, '\n', "");
    assert JoinOn(all, '\n') + "" == JoinOn(all, '\n');
    assert all + [] == all;
  }

  function FromTokens(r: Result<seq<Token>>): Result<map<string, Yaml>> {
    match r case Ok(ts) => ParseTokens(ts) case Err(e) => Err(e)
  }

  lemma FrontmatterOf(text: string, n: nat)
    requires var lines := SplitOn(text, '\n');
      IsFence(lines[0]) && n < |lines| - 1 && FenceIndex(lines[1..]) == n
    ensures ParseFrontmatter(text) == FromTokens(TokenizeLines(SplitOn(text, '\n')[1..][..n]))
  {
    hide SplitOn, JoinOn, TokenizeLines, ParseTokens, FenceIndex, IsFence, ParseFrontmatter;
    FrontmatterAt(text, n);
    var lines := SplitOn(text, '\n');
    assert forall x :: x in lines[1..][..n] ==> x in lines;
    Rejoined(lines[1..][..n]);
  }

  lemma ParsedFence(text: string)
    requires ParseFrontmatter(text).Ok?
    ensures var lines := SplitOn(text, '\n'); IsFence(lines[0]) && FenceIndex(lines[1..]) < |lines| - 1
  {
    hide SplitOn, JoinOn, TokenizeLines, ParseTokens, FenceIndex, IsFence;
  }

  /** The tokens of lines with one more line among them. */
  lemma InsertedTokens(pre: seq<string>, post: seq<string>, t: Token)
    requires Keeps(t.content) && EntryError(t.content).None? && RestOf(t.content) != ""
    requires TokenizeLines(pre).Ok? && TokenizeLines(post).Ok?
    requires TopLevelBoundary(TokenizeLines(pre).value, TokenizeLines(post).value, t)
    requires FromTokens(TokenizeLines(pre + post)).Ok?
    ensures var r := FromTokens(TokenizeLines(pre + [LineOf(t)] + post));
      && r.Ok?
      && r.value - {KeyOf(t.content)} == FromTokens(TokenizeLines(pre + post)).value - {KeyOf(t.content)}
  {
    hide TokenizeLines, EntryError, KeyOf, RestOf, Keeps, LineOf, TopLevelBoundary, ParseTokens;
    TokenizeAppend(pre, post);
    TokenizeAppend(pre, [LineOf(t)] + post);
    assert pre + [LineOf(t)] + post == pre + ([LineOf(t)] + post);
    TokenizeAppend([LineOf(t)], post);
    OneLineTokens(t);
    var a, b := TokenizeLines(pre).value, TokenizeLines(post).value;
    assert a + [t] + b == a + ([t] + b);
    InsertedToken(a, b, t);
  }

  /** Line `p` of the text is a top-level boundary of its frontmatter. */
  predicate BoundaryAt(text: string, p: nat, t: Token) {
    var lines := SplitOn(text, '\n');
    var end := 1 + FenceIndex(lines[1..]);
    && 1 <= p <= end
    && var a, b := TokenizeLines(lines[1..p]), TokenizeLines(lines[p..end]);
      a.Ok? && b.Ok? && TopLevelBoundary(a.value, b.value, t)
  }

  /** Adding a line to a parseable frontmatter, at any top-level boundary between its fences,
      leaves a parseable frontmatter that differs at most in that line's key. */
  lemma InsertedLine(text: string, p: nat, t: Token)
    requires Keeps(t.content) && EntryError(t.content).None? && RestOf(t.content) != ""
    requires ParseFrontmatter(text).Ok? && BoundaryAt(text, p, t)
    ensures p <= |SplitOn(text, '\n')|
    ensures var r := ParseFrontmatter(InsertLine(text, p, LineOf(t)));
      r.Ok? && r.value - {KeyOf(t.content)} == ParseFrontmatter(text).value - {KeyOf(t.content)}
  {
    hide EntryError, KeyOf, RestOf, SplitOn, JoinOn, TokenizeLines, ParseTokens, FenceIndex, IsFence,
         LineOf, Keeps, TopLevelBoundary, InsertLine, LineTokens, ParseFrontmatter, FromTokens;
    var lines := SplitOn(text, '\n');
    ParsedFence(text);
    var n := FenceIndex(lines[1..]);
    var line := LineOf(t);
    var pre, post := lines[1..p], lines[p..1 + n];
    FrontmatterOf(text, n);
    assert lines[1..][..n] == pre + post;
    InsertedTokens(pre, post, t);
    NotFenceLine(t);
    var text' := InsertLine(text, p, line);
    InsertedSplit(text, p, line);
    var lines' := SplitOn(text', '\n');
    InsertedFence(lines, lines', p, line);
    FrontmatterOf(text', n + 1);
    assert lines'[1..][..n + 1] == pre + [line] + post;
  }

  lemma NotFenceLine(t: Token)
    requires Keeps(t.content) && EntryError(t.content).None?
    ensures '\n' !in LineOf(t) && !IsFence(LineOf(t))
  {
    hide KeyOf, Keeps;
    LineToken(t);
  }

  lemma OneLineTokens(t: Token)
    requires Keeps(t.content)
    ensures TokenizeLines([LineOf(t)]) == Ok([t])
  {
    LineToken(t);
    assert [LineOf(t)][1..] == [];
    assert TokenizeLines([]) == Ok([]);
    assert LineTokens(LineOf(t)) + [] == [t];
  }

  lemma InsertedFence(lines: seq<string>, lines': seq<string>, p: nat, line: string)
    requires lines != [] && 1 <= p <= 1 + FenceIndex(lines[1..]) < |lines| && !IsFence(line)
    requires lines' == lines[..p] + [line] + lines[p..]
    ensures lines'[0] == lines[0] && FenceIndex(lines'[1..]) == FenceIndex(lines[1..]) + 1
  {
    hide IsFence, FenceIndex;
    var n := FenceIndex(lines[1..]);
    assert forall i :: 0 <= i < n ==> lines[1..][i] == lines[i + 1];
    forall i | 0 <= i < n + 1 ensures !IsFence(lines'[1..][i]) {
      if i + 1 < p {
        assert lines'[1..][i] == lines[1..][i];
      } else if i + 1 > p {
        assert lines'[1..][i] == lines[1..][i - 1];
      }
    }
    assert lines'[1..][n + 1] == lines[1..][n];
    FenceIndexIs(lines'[1..], n + 1);
  }
}
