/** `okf_attested_computation.py`, the restricted YAML frontmatter parser. Each parsing loop is
    given twice: as a function on the remaining tokens, which the theorems use, and as the
    index-advancing loop the source has, proved to compute it. */
module OkfFrontmatter {
  import opened JsonValue
  import opened PyText

  /** A parsed declaration value. A float keeps its literal. */
  datatype Yaml =
    | YNull
    | YBool(b: bool)
    | YInt(n: int)
    | YFloat(literal: string)
    | YStr(s: string)
    | YList(items: seq<Yaml>)
    | YMap(m: map<string, Yaml>)

  /** The messages of OKFDeclarationError. */
  datatype Error =
    | TabCharacter
    | ListIndentation
    | MappingIndentation
    | StrayListItem
    | FlowCollection
    | ExpectedKeyValue
    | EmptyKey
    | NoOpeningFence
    | FenceNotClosed
    | TrailingContent

  datatype Result<+T> = Ok(value: T) | Err(error: Error) {
    predicate IsFailure() { Err? }
    function PropagateFailure<U>(): Result<U> requires Err? { Err(error) }
    function Extract(): T requires Ok? { value }
  }

  datatype Token = Token(indent: nat, content: string)

  // ----- scalars -----

  function Unsigned(s: string): string { if s != [] && s[0] == '-' then s[1..] else s }

  /** `-?\d+` on ASCII digits. */
  predicate IsIntText(s: string) { Unsigned(s) != [] && AllDigits(Unsigned(s)) }

  function IntValue(s: string): int
    requires IsIntText(s)
  {
    if s[0] == '-' then -(DigitsValue(s[1..]) as int) else DigitsValue(s)
  }

  /** `-?\d+\.\d+` on ASCII digits. */
  predicate IsFloatText(s: string) {
    var parts := SplitOn(Unsigned(s), '.');
    && |parts| == 2
    && parts[0] != [] && AllDigits(parts[0]) && parts[1] != [] && AllDigits(parts[1])
  }

  predicate IsQuoted(s: string) {
    |s| >= 2 && s[0] == s[|s| - 1] && (s[0] == '\"' || s[0] == '\'')
  }

  function ParseScalar(text: string): Yaml {
    var raw := Strip(text);
    if raw == "" then YNull
    else if IsQuoted(raw) then YStr(raw[1..|raw| - 1])
    else if raw == "true" then YBool(true)
    else if raw == "false" then YBool(false)
    else if raw == "null" || raw == "~" then YNull
    else if IsIntText(raw) then YInt(IntValue(raw))
    else if IsFloatText(raw) then YFloat(raw)
    else YStr(raw)
  }

  // ----- tokens -----

  function TokenizeLines(lines: seq<string>): Result<seq<Token>> {
    if lines == [] then Ok([])
    else if '\t' in lines[0] then Err(TabCharacter)
    else
      var rest :- TokenizeLines(lines[1..]);
      Ok(LineTokens(lines[0]) + rest)
  }

  /** The token of one line; blank lines and comments have none. */
  function LineTokens(line: string): seq<Token> {
    var stripped := LStripBlanks(line);
    var content := RStrip(stripped);
    if Strip(line) == "" || StartsWith(content, "#") then []
    else [Token(|line| - |stripped|, content)]
  }

  ghost function Prepend(ts: seq<Token>, r: Result<seq<Token>>): Result<seq<Token>> {
    match r case Ok(more) => Ok(ts + more) case Err(e) => Err(e)
  }

  method Tokenize(text: string) returns (r: Result<seq<Token>>)
    ensures r == TokenizeLines(SplitOn(text, '\n'))
  {
    var lines := SplitOn(text, '\n');
    var tokens: seq<Token> := [];
    assert lines[0..] == lines;
    assert forall ts: seq<Token> :: tokens + ts == ts;
    for i := 0 to |lines|
      invariant TokenizeLines(lines) == Prepend(tokens, TokenizeLines(lines[i..]))
    {
      var line := lines[i];
      assert lines[i..][0] == line && lines[i..][1..] == lines[i + 1..];
      assert tokens + [] == tokens;
      if '\t' in line {
        return Err(TabCharacter);
      }
      ghost var rest := TokenizeLines(lines[i + 1..]);
      assert rest.Ok? ==> (tokens + LineTokens(line)) + rest.value == tokens + (LineTokens(line) + rest.value);
      if Strip(line) == "" { continue; }
      var stripped := LStripBlanks(line);
      var content := RStrip(stripped);
      if StartsWith(content, "#") { continue; }
      tokens := tokens + [Token(|line| - |stripped|, content)];
    }
    assert lines[|lines|..] == [] && tokens + [] == tokens;
    r := Ok(tokens);
  }

  // ----- lists and mappings -----

  /** The items from the first token on, and the tokens left over. */
  function ParseList(ts: seq<Token>, indent: nat, acc: seq<Yaml>): (r: Result<(seq<Yaml>, seq<Token>)>)
    ensures r.Ok? ==> Suffix(r.value.1, ts)
    ensures r.Ok? ==> r.value.1 == [] || r.value.1[0].indent <= indent
  {
    if ts == [] then Ok((acc, []))
    else if ts[0].indent < indent then Ok((acc, ts))
    else if ts[0].indent > indent then Err(ListIndentation)
    else if !StartsWith(ts[0].content, "- ") then Ok((acc, ts))
    else ParseList(ts[1..], indent, acc + [ParseScalar(ts[0].content[2..])])
  }

  predicate Suffix(s: seq<Token>, ts: seq<Token>) {
    |s| <= |ts| && s == ts[|ts| - |s|..]
  }

  /** Why a token cannot be a mapping entry at its own indentation, if it cannot. */
  function EntryError(content: string): Option<Error> {
    if StartsWith(content, "- ") then Some(StrayListItem)
    else if '{' in content || '[' in content then Some(FlowCollection)
    else if ':' !in content then Some(ExpectedKeyValue)
    else if KeyOf(content) == "" then Some(EmptyKey)
    else None
  }

  /** `content.partition(":")`. */
  function KeyOf(content: string): string { Strip(SplitOn(content, ':')[0]) }

  function RestOf(content: string): string {
    var key := SplitOn(content, ':')[0];
    if |key| < |content| then Strip(content[|key| + 1..]) else ""
  }

  /** The value of an entry whose own line ends at the colon, and the tokens after it. */
  function ParseBlock(ts: seq<Token>, indent: nat): (r: Result<(Yaml, seq<Token>)>)
    ensures r.Ok? ==> Suffix(r.value.1, ts)
    decreases |ts|, 1
  {
    if ts == [] || ts[0].indent <= indent then Ok((YNull, ts))
    else if StartsWith(ts[0].content, "- ") then
      var (items, rest) :- ParseList(ts, ts[0].indent, []);
      Ok((YList(items), rest))
    else
      var (m, rest) :- ParseMapping(ts, ts[0].indent, map[]);
      Ok((YMap(m), rest))
  }

  /** Every call takes at least one token off unless it stops, and it stops only at the end or at
      a token indented less than the mapping. */
  function ParseMapping(ts: seq<Token>, indent: nat, acc: map<string, Yaml>)
    : (r: Result<(map<string, Yaml>, seq<Token>)>)
    ensures r.Ok? ==> Suffix(r.value.1, ts)
    ensures r.Ok? ==> r.value.1 == [] || r.value.1[0].indent < indent
    decreases |ts|, 0
  {
    if ts == [] then Ok((acc, []))
    else if ts[0].indent < indent then Ok((acc, ts))
    else if ts[0].indent > indent then Err(MappingIndentation)
    else match EntryError(ts[0].content)
      case Some(e) => Err(e)
      case None =>
        var key, rest := KeyOf(ts[0].content), RestOf(ts[0].content);
        if rest == "" then
          var (value, left) :- ParseBlock(ts[1..], indent);
          ParseMapping(left, indent, acc[key := value])
        else ParseMapping(ts[1..], indent, acc[key := ParseScalar(rest)])
  }

  // ----- the loops -----

  lemma SuffixAt(tokens: seq<Token>, i: nat, rest: seq<Token>)
    requires i <= |tokens| && Suffix(rest, tokens[i..])
    ensures |rest| <= |tokens| - i && tokens[|tokens| - |rest|..] == rest
  {}

  method ParseListLoop(tokens: seq<Token>, start: nat, indent: nat) returns (r: Result<(seq<Yaml>, nat)>)
    requires start <= |tokens|
    ensures match ParseList(tokens[start..], indent, [])
      case Ok((items, rest)) => r == Ok((items, |tokens| - |rest|))
      case Err(e) => r == Err(e)
    ensures r.Ok? ==> start <= r.value.1 <= |tokens|
  {
    hide ParseScalar, Suffix;
    var result: seq<Yaml> := [];
    var i := start;
    while i < |tokens|
      invariant start <= i <= |tokens|
      invariant ParseList(tokens[start..], indent, []) == ParseList(tokens[i..], indent, result)
    {
      var Token(tokIndent, content) := tokens[i];
      if tokIndent < indent { break; }
      if tokIndent > indent { return Err(ListIndentation); }
      if !StartsWith(content, "- ") { break; }
      assert tokens[i..][1..] == tokens[i + 1..];
      result := result + [ParseScalar(content[2..])];
      i := i + 1;
    }
    return Ok((result, i));
  }

  method ParseMappingLoop(tokens: seq<Token>, start: nat, indent: nat)
    returns (r: Result<(map<string, Yaml>, nat)>)
    requires start <= |tokens|
    ensures match ParseMapping(tokens[start..], indent, map[])
      case Ok((m, rest)) => r == Ok((m, |tokens| - |rest|))
      case Err(e) => r == Err(e)
    ensures r.Ok? ==> start <= r.value.1 <= |tokens|
    decreases |tokens| - start, 0
  {
    hide ParseScalar, Suffix, ParseList, ParseBlock, KeyOf, RestOf;
    var result: map<string, Yaml> := map[];
    var i := start;
    while i < |tokens|
      invariant start <= i <= |tokens|
      invariant ParseMapping(tokens[start..], indent, map[]) == ParseMapping(tokens[i..], indent, result)
    {
      var Token(tokIndent, content) := tokens[i];
      if tokIndent < indent { break; }
      if tokIndent > indent { return Err(MappingIndentation); }
      if StartsWith(content, "- ") { return Err(StrayListItem); }
      if '{' in content || '[' in content { return Err(FlowCollection); }
      if ':' !in content { return Err(ExpectedKeyValue); }
      var key := KeyOf(content);
      if key == "" { return Err(EmptyKey); }
      var rest := RestOf(content);
      i := i + 1;
      assert tokens[i - 1..][1..] == tokens[i..];
      if rest == "" {
        ghost var block := ParseBlock(tokens[i..], indent);
        var value :- ParseBlockLoop(tokens, i, indent);
        SuffixAt(tokens, i, block.value.1);
        result, i := result[key := value.0], value.1;
      } else {
        result := result[key := ParseScalar(rest)];
      }
    }
    return Ok((result, i));
  }

  /** The part of the mapping loop that reads the value of an entry without one on its line. */
  method ParseBlockLoop(tokens: seq<Token>, start: nat, indent: nat) returns (r: Result<(Yaml, nat)>)
    requires start <= |tokens|
    ensures match ParseBlock(tokens[start..], indent)
      case Ok((value, rest)) => r == Ok((value, |tokens| - |rest|))
      case Err(e) => r == Err(e)
    ensures r.Ok? ==> start <= r.value.1 <= |tokens|
    decreases |tokens| - start, 1
  {
    hide ParseScalar, Suffix, ParseList, ParseMapping;
    if start == |tokens| || tokens[start].indent <= indent { return Ok((YNull, start)); }
    var nextIndent := tokens[start].indent;
    if StartsWith(tokens[start].content, "- ") {
      var list :- ParseListLoop(tokens, start, nextIndent);
      return Ok((YList(list.0), list.1));
    }
    var nested :- ParseMappingLoop(tokens, start, nextIndent);
    return Ok((YMap(nested.0), nested.1));
  }

  // ----- the fence -----

  predicate IsFence(line: string) { Strip(line) == "---" }

  /** The first fence among `lines`, or their number when there is none. */
  function FenceIndex(lines: seq<string>): (n: nat)
    ensures n <= |lines|
    ensures forall i :: 0 <= i < n ==> !IsFence(lines[i])
    ensures n < |lines| ==> IsFence(lines[n])
  {
    if lines == [] || IsFence(lines[0]) then 0 else 1 + FenceIndex(lines[1..])
  }

  function ParseTokens(tokens: seq<Token>): Result<map<string, Yaml>> {
    if tokens == [] then Ok(map[])
    else
      var (m, rest) :- ParseMapping(tokens, tokens[0].indent, map[]);
      if rest != [] then Err(TrailingContent) else Ok(m)
  }

  /** The frontmatter lines are joined and split again, as in the source. */
  function ParseFrontmatter(text: string): Result<map<string, Yaml>> {
    var lines := SplitOn(text, '\n');
    if !IsFence(lines[0]) then Err(NoOpeningFence)
    else
      var n := FenceIndex(lines[1..]);
      if n == |lines| - 1 then Err(FenceNotClosed)
      else
        var tokens :- TokenizeLines(SplitOn(JoinOn(lines[1..n + 1], '\n'), '\n'));
        ParseTokens(tokens)
  }

  method ParseFrontmatterLoop(text: string) returns (r: Result<map<string, Yaml>>)
    ensures r == ParseFrontmatter(text)
  {
    var lines := SplitOn(text, '\n');
    if !IsFence(lines[0]) { return Err(NoOpeningFence); }
    var end := 1;
    while end < |lines| && !IsFence(lines[end])
      invariant 1 <= end <= |lines|
      invariant FenceIndex(lines[1..]) == end - 1 + FenceIndex(lines[end..])
    {
      assert lines[end..][1..] == lines[end + 1..];
      end := end + 1;
    }
    if end == |lines| { return Err(FenceNotClosed); }
    var tokens :- Tokenize(JoinOn(lines[1..end], '\n'));
    if tokens == [] { return Ok(map[]); }
    assert tokens[0..] == tokens;
    var parsed :- ParseMappingLoop(tokens, 0, tokens[0].indent);
    if parsed.1 != |tokens| { return Err(TrailingContent); }
    return Ok(parsed.0);
  }
}
