/** The two nesting guards: the lexical scan of `c2pa_test_signature0.py` over raw bytes, and the
    explicit-stack walk of `c2pa_srs_observed.py` over the parsed value. */
module NestingGuard {
  import opened JsonValue

  type Byte = b: int | 0 <= b < 256

  const QUOTE: Byte := 0x22
  const BACKSLASH: Byte := 0x5C
  const COLON: Byte := 0x3A
  const COMMA: Byte := 0x2C

  predicate Opens(b: Byte) { b == 0x5B || b == 0x7B }

  predicate Closes(b: Byte) { b == 0x5D || b == 0x7D }

  function Max(a: int, b: int): int { if a < b then b else a }

  // ----- the scan -----

  /** What follows the closing quote of a string whose opening quote has just been read; None when
      no quote closes it. A backslash takes the next byte with it, whatever that is. */
  function AfterString(data: seq<Byte>): (r: Option<seq<Byte>>)
    ensures r.Some? ==> |r.value| < |data| && r.value == data[|data| - |r.value|..]
  {
    if data == [] then None
    else if data[0] == QUOTE then Some(data[1..])
    else if data[0] == BACKSLASH then if |data| == 1 then None else AfterString(data[2..])
    else AfterString(data[1..])
  }

  /** The scan from some byte on, at a depth already reached. */
  predicate Scan(data: seq<Byte>, depth: nat, limit: int)
    decreases |data|
  {
    if data == [] then false
    else if data[0] == QUOTE then
      match AfterString(data[1..])
      case Some(rest) => Scan(rest, depth, limit)
      case None => Scan(data[1..], depth, limit)
    else if Opens(data[0]) then depth + 1 > limit || Scan(data[1..], depth + 1, limit)
    else if Closes(data[0]) then Scan(data[1..], Max(depth - 1, 0), limit)
    else Scan(data[1..], depth, limit)
  }

  /** `_exceeds_nesting`: each round of the loop is one step of the tokenising pattern. */
  method ExceedsNesting(data: seq<Byte>, limit: int) returns (exceeds: bool)
    ensures exceeds == Scan(data, 0, limit)
  {
    var i, depth := 0, 0;
    while i < |data|
      invariant 0 <= i <= |data| && depth >= 0
      invariant Scan(data, 0, limit) == Scan(data[i..], depth, limit)
    {
      var b := data[i];
      assert data[i..][1..] == data[i + 1..];
      if b == QUOTE {
        match AfterString(data[i + 1..]) {
          case Some(rest) =>
            assert rest == data[|data| - |rest|..];
            i := |data| - |rest|;
          case None => i := i + 1;
        }
      } else {
        if Opens(b) {
          depth := depth + 1;
          if depth > limit { return true; }
        } else if Closes(b) {
          depth := Max(depth - 1, 0);
        }
        i := i + 1;
      }
    }
    return false;
  }

  // ----- JSON texts -----

  /** White space around a token; section 2 of RFC 8259. */
  predicate Blank(ws: seq<Byte>) { forall b :: b in ws ==> b in {0x20, 0x09, 0x0A, 0x0D} }

  /** A character of a string as it is written; section 7 of RFC 8259. The four digits after `\u`
      are plain bytes here. */
  datatype Piece = Plain(b: Byte) | Escape(b: Byte)

  predicate PieceOk(p: Piece) { p.Plain? ==> p.b != QUOTE && p.b != BACKSLASH }

  /** A JSON text as a tree that keeps every byte: white space anywhere, any escapes and any
      brackets in strings and names. A token is a number or one of the three literals. */
  datatype Text =
    | Token(bytes: seq<Byte>)
    | Quoted(pieces: seq<Piece>)
    | Container(isObject: bool, pad: seq<Byte>, entries: seq<Entry>)

  datatype Entry = Entry(name: Option<Name>, before: seq<Byte>, value: Text, after: seq<Byte>)

  datatype Name = Name(before: seq<Byte>, pieces: seq<Piece>, after: seq<Byte>)

  /** No byte of the text starts a string or is a bracket. */
  predicate Inert(bytes: seq<Byte>) {
    forall b :: b in bytes ==> b != QUOTE && !Opens(b) && !Closes(b)
  }

  predicate PiecesOk(ps: seq<Piece>) { forall i :: 0 <= i < |ps| ==> PieceOk(ps[i]) }

  predicate WellWritten(t: Text)
    decreases t
  {
    match t
    case Token(bytes) => bytes != [] && Inert(bytes)
    case Quoted(ps) => PiecesOk(ps)
    case Container(isObject, pad, es) => Blank(pad) && EntriesWellWritten(es, isObject)
  }

  predicate EntriesWellWritten(es: seq<Entry>, named: bool)
    decreases es
  {
    es == [] ||
    (&& es[0].name.Some? == named
     && (named ==> Blank(es[0].name.value.before) && PiecesOk(es[0].name.value.pieces)
                   && Blank(es[0].name.value.after))
     && Blank(es[0].before) && WellWritten(es[0].value) && Blank(es[0].after)
     && EntriesWellWritten(es[1..], named))
  }

  function PiecesText(ps: seq<Piece>): seq<Byte> {
    if ps == [] then []
    else (match ps[0] case Plain(b) => [b] case Escape(b) => [BACKSLASH, b]) + PiecesText(ps[1..])
  }

  function StringText(ps: seq<Piece>): seq<Byte> { [QUOTE] + (PiecesText(ps) + [QUOTE]) }

  function NameText(n: Option<Name>): seq<Byte> {
    match n
    case None => []
    case Some(m) => m.before + (StringText(m.pieces) + (m.after + [COLON]))
  }

  function Render(t: Text): seq<Byte>
    decreases t
  {
    match t
    case Token(bytes) => bytes
    case Quoted(ps) => StringText(ps)
    case Container(isObject, pad, es) =>
      [if isObject then 0x7B else 0x5B] + (pad + (EntriesText(es) + [if isObject then 0x7D else 0x5D]))
  }

  function EntriesText(es: seq<Entry>): seq<Byte>
    decreases es
  {
    if es == [] then []
    else
      NameText(es[0].name) + (es[0].before + (Render(es[0].value) + (es[0].after
        + ((if |es| == 1 then [] else [COMMA]) + EntriesText(es[1..])))))
  }

  /** How many containers enclose the deepest one, itself included. */
  function Depth(t: Text): nat
    decreases t
  {
    match t
    case Container(_, _, es) => 1 + EntriesDepth(es)
    case _ => 0
  }

  function EntriesDepth(es: seq<Entry>): nat
    decreases es
  {
    if es == [] then 0 else Max(Depth(es[0].value), EntriesDepth(es[1..]))
  }

  // ----- the scan measures the tree -----

  /** Some container of `d` nested ones, met at `depth`, passes the limit. */
  predicate Passes(d: nat, depth: nat, limit: int) { d > 0 && depth + d > limit }

  lemma {:induction false} ScanInert(bytes: seq<Byte>, rest: seq<Byte>, depth: nat, limit: int)
    requires Inert(bytes)
    ensures Scan(bytes + rest, depth, limit) == Scan(rest, depth, limit)
  {
    if bytes == [] {
      assert bytes + rest == rest;
    } else {
      assert bytes[0] in bytes && (bytes + rest)[1..] == bytes[1..] + rest;
      InertTail(bytes);
      ScanInert(bytes[1..], rest, depth, limit);
    }
  }

  lemma InertTail(bytes: seq<Byte>)
    requires Inert(bytes) && bytes != []
    ensures Inert(bytes[1..])
  {
    forall b | b in bytes[1..] ensures b in bytes {}
  }

  /** One written character is read whole. */
  lemma PieceSkipped(p: Piece, tail: seq<Byte>)
    requires PieceOk(p)
    ensures AfterString((match p case Plain(b) => [b] case Escape(b) => [BACKSLASH, b]) + tail) == AfterString(tail)
  {
    match p
    case Plain(b) => assert ([b] + tail)[1..] == tail;
    case Escape(b) => assert ([BACKSLASH, b] + tail)[2..] == tail;
  }

  lemma {:induction false} PiecesSkipped(ps: seq<Piece>, rest: seq<Byte>)
    requires PiecesOk(ps)
    ensures AfterString(PiecesText(ps) + ([QUOTE] + rest)) == Some(rest)
  {
    if ps == [] {
      assert PiecesText(ps) + ([QUOTE] + rest) == [QUOTE] + rest;
      assert ([QUOTE] + rest)[1..] == rest;
    } else {
      assert PieceOk(ps[0]) && PiecesOk(ps[1..]);
      hide AfterString, PieceOk, PiecesOk;
      PiecesSkipped(ps[1..], rest);
      PieceSkipped(ps[0], PiecesText(ps[1..]) + ([QUOTE] + rest));
      var first := match ps[0] case Plain(b) => [b] case Escape(b) => [BACKSLASH, b];
      Reassociate(first, PiecesText(ps[1..]), [QUOTE] + rest);
    }
  }

  lemma ScanString(ps: seq<Piece>, rest: seq<Byte>, depth: nat, limit: int)
    requires PiecesOk(ps)
    ensures Scan(StringText(ps) + rest, depth, limit) == Scan(rest, depth, limit)
  {
    var data := StringText(ps) + rest;
    assert data[1..] == PiecesText(ps) + ([QUOTE] + rest);
    PiecesSkipped(ps, rest);
  }

  lemma Reassociate(a: seq<Byte>, b: seq<Byte>, c: seq<Byte>)
    ensures (a + b) + c == a + (b + c)
  {}

  lemma ScanName(n: Option<Name>, rest: seq<Byte>, depth: nat, limit: int)
    requires n.Some? ==> Blank(n.value.before) && PiecesOk(n.value.pieces) && Blank(n.value.after)
    ensures Scan(NameText(n) + rest, depth, limit) == Scan(rest, depth, limit)
  {
    match n
    case None => assert NameText(n) + rest == rest;
    case Some(m) =>
      var s, gap := StringText(m.pieces), m.after + [COLON];
      Reassociate(m.before, s + gap, rest);
      ScanInert(m.before, (s + gap) + rest, depth, limit);
      Reassociate(s, gap, rest);
      ScanString(m.pieces, gap + rest, depth, limit);
      ScanInert(gap, rest, depth, limit);
  }

  /** Scanning past a whole text, at any depth and whatever follows. */
  lemma {:induction false} ScanText(t: Text, rest: seq<Byte>, depth: nat, limit: int)
    requires WellWritten(t)
    ensures Scan(Render(t) + rest, depth, limit) == (Passes(Depth(t), depth, limit) || Scan(rest, depth, limit))
    decreases t
  {
    match t
    case Token(bytes) => ScanInert(bytes, rest, depth, limit);
    case Quoted(ps) => ScanString(ps, rest, depth, limit);
    case Container(isObject, pad, es) =>
      hide Scan, EntriesText;
      var open, close: Byte := if isObject then 0x7B else 0x5B, if isObject then 0x7D else 0x5D;
      var inner := EntriesText(es) + [close];
      Reassociate([open], pad + inner, rest);
      Reassociate(pad, inner, rest);
      ScanBrackets(open, close, pad + (inner + rest), rest, depth, limit);
      ScanInert(pad, inner + rest, depth + 1, limit);
      Reassociate(EntriesText(es), [close], rest);
      ScanEntries(es, isObject, [close] + rest, depth + 1, limit);
  }

  /** The two brackets of a container, seen alone. */
  lemma ScanBrackets(open: Byte, close: Byte, inner: seq<Byte>, rest: seq<Byte>, depth: nat, limit: int)
    requires Opens(open) && Closes(close)
    ensures Scan([open] + inner, depth, limit) == (depth + 1 > limit || Scan(inner, depth + 1, limit))
    ensures Scan([close] + rest, depth + 1, limit) == Scan(rest, depth, limit)
  {
    assert ([open] + inner)[1..] == inner && ([close] + rest)[1..] == rest;
  }

  lemma {:induction false} ScanEntries(es: seq<Entry>, named: bool, rest: seq<Byte>, depth: nat, limit: int)
    requires EntriesWellWritten(es, named)
    ensures Scan(EntriesText(es) + rest, depth, limit)
         == (Passes(EntriesDepth(es), depth, limit) || Scan(rest, depth, limit))
    decreases es
  {
    if es == [] {
      assert EntriesText(es) + rest == rest;
    } else {
      var e := es[0];
      var sep: seq<Byte> := if |es| == 1 then [] else [COMMA];
      var rest4 := EntriesText(es[1..]) + rest;
      var rest3 := sep + rest4;
      var rest2 := e.after + rest3;
      var rest1 := Render(e.value) + rest2;
      Flatten(NameText(e.name), e.before, Render(e.value), e.after, sep, EntriesText(es[1..]), rest);
      ScanName(e.name, e.before + rest1, depth, limit);
      ScanInert(e.before, rest1, depth, limit);
      ScanText(e.value, rest2, depth, limit);
      ScanInert(e.after, rest3, depth, limit);
      ScanInert(sep, rest4, depth, limit);
      ScanEntries(es[1..], named, rest, depth, limit);
    }
  }

  lemma Flatten(a: seq<Byte>, b: seq<Byte>, c: seq<Byte>, d: seq<Byte>, e: seq<Byte>, f: seq<Byte>, g: seq<Byte>)
    ensures (a + (b + (c + (d + (e + f))))) + g == a + (b + (c + (d + (e + (f + g)))))
  {}

  /** For every JSON text the scan reports exactly that the containers nest deeper than the limit. */
  lemma ScanMeasuresDepth(before: seq<Byte>, t: Text, after: seq<Byte>, limit: int)
    requires Blank(before) && WellWritten(t) && Blank(after)
    ensures Scan(before + (Render(t) + after), 0, limit) <==> Depth(t) > 0 && Depth(t) > limit
  {
    ScanInert(before, Render(t) + after, 0, limit);
    ScanText(t, after, 0, limit);
    ScanInert(after, [], 0, limit);
    assert after + [] == after;
  }

  // ----- the walk over the parsed value -----

  /** Containers nested in a parsed value. */
  function Nesting(j: Json): nat
    decreases j
  {
    match j
    case Arr(items) => 1 + ItemsNesting(items)
    case Obj(ms) => 1 + MembersNesting(ms)
    case _ => 0
  }

  function ItemsNesting(items: seq<Json>): nat
    decreases items
  {
    if items == [] then 0 else Max(Nesting(items[0]), ItemsNesting(items[1..]))
  }

  function MembersNesting(ms: seq<Member>): nat
    decreases ms
  {
    if ms == [] then 0 else Max(Nesting(ms[0].value), MembersNesting(ms[1..]))
  }

  function Values(ms: seq<Member>): seq<Json> {
    if ms == [] then [] else [ms[0].value] + Values(ms[1..])
  }

  function Children(j: Json): seq<Json> {
    match j case Obj(ms) => Values(ms) case Arr(items) => items case _ => []
  }

  predicate IsContainer(j: Json) { j.Obj? || j.Arr? }

  /** Nodes of a value, the measure that lets the walk end. */
  function Size(j: Json): nat
    decreases j
  {
    match j
    case Arr(items) => 1 + ItemsSize(items)
    case Obj(ms) => 1 + MembersSize(ms)
    case _ => 1
  }

  function ItemsSize(items: seq<Json>): nat
    decreases items
  {
    if items == [] then 0 else Size(items[0]) + ItemsSize(items[1..])
  }

  function MembersSize(ms: seq<Member>): nat
    decreases ms
  {
    if ms == [] then 0 else Size(ms[0].value) + MembersSize(ms[1..])
  }

  lemma {:induction false} ValuesMeasure(ms: seq<Member>)
    ensures ItemsNesting(Values(ms)) == MembersNesting(ms) && ItemsSize(Values(ms)) == MembersSize(ms)
  {
    if ms != [] {
      ValuesMeasure(ms[1..]);
      assert Values(ms)[1..] == Values(ms[1..]);
    }
  }

  lemma ChildrenMeasure(j: Json)
    ensures Size(j) == 1 + ItemsSize(Children(j))
    ensures IsContainer(j) ==> Nesting(j) == 1 + ItemsNesting(Children(j))
    ensures !IsContainer(j) ==> Nesting(j) == 0 && Children(j) == []
  {
    if j.Obj? { ValuesMeasure(j.members); }
  }

  /** The depth the walk attributes to a node: a scalar root counts as one. */
  function Reach(j: Json): nat { Max(1, Nesting(j)) }

  function StackReach(stack: seq<(Json, nat)>): nat {
    if stack == [] then 0
    else
      var top := stack[|stack| - 1];
      Max(top.1 + Reach(top.0) - 1, StackReach(stack[..|stack| - 1]))
  }

  function StackSize(stack: seq<(Json, nat)>): nat {
    if stack == [] then 0 else Size(stack[|stack| - 1].0) + StackSize(stack[..|stack| - 1])
  }

  /** What visiting a node's children pushes: its containers, one level further down. */
  function Pushed(children: seq<Json>, depth: nat): seq<(Json, nat)> {
    if children == [] then []
    else (if IsContainer(children[0]) then [(children[0], depth + 1)] else []) + Pushed(children[1..], depth)
  }

  lemma Push(stack: seq<(Json, nat)>, c: Json, depth: nat)
    ensures StackReach(stack + [(c, depth + 1)]) == Max(depth + Reach(c), StackReach(stack))
    ensures StackSize(stack + [(c, depth + 1)]) == Size(c) + StackSize(stack)
  {
    hide Size, Nesting;
    var r := stack + [(c, depth + 1)];
    assert r[..|r| - 1] == stack;
  }

  lemma {:induction false} PushedMeasure(stack: seq<(Json, nat)>, children: seq<Json>, depth: nat)
    ensures StackReach(stack + Pushed(children, depth))
         == Max(StackReach(stack), if ItemsNesting(children) == 0 then 0 else depth + ItemsNesting(children))
    ensures StackSize(stack + Pushed(children, depth)) <= StackSize(stack) + ItemsSize(children)
    decreases |children|
  {
    hide StackReach, StackSize, Nesting, Size, Children;
    if children == [] {
      assert stack + Pushed(children, depth) == stack;
    } else {
      var c := children[0];
      ChildrenMeasure(c);
      if IsContainer(c) {
        Push(stack, c, depth);
        assert stack + Pushed(children, depth) == (stack + [(c, depth + 1)]) + Pushed(children[1..], depth);
        PushedMeasure(stack + [(c, depth + 1)], children[1..], depth);
      } else {
        assert Pushed(children, depth) == Pushed(children[1..], depth);
        PushedMeasure(stack, children[1..], depth);
      }
    }
  }

  /** `_json_depth`: a stack of nodes still to visit, each with its depth. */
  method JsonDepth(value: Json) returns (deepest: nat)
    ensures deepest == Reach(value)
  {
    deepest := 0;
    var stack: seq<(Json, nat)> := [(value, 1)];
    assert stack[..0] == [];
    while stack != []
      invariant Max(deepest, StackReach(stack)) == Reach(value)
      decreases StackSize(stack)
    {
      var (node, depth) := stack[|stack| - 1];
      ghost var rest := stack[..|stack| - 1];
      deepest := Max(deepest, depth);
      ChildrenMeasure(node);
      PushedMeasure(rest, Children(node), depth);
      hide Pushed, Children, Size, Nesting;
      stack := PushContainers(stack[..|stack| - 1], Children(node), depth);
    }
  }

  /** The inner loop: the containers among a node's children go on the stack. */
  method PushContainers(rest: seq<(Json, nat)>, children: seq<Json>, depth: nat) returns (stack: seq<(Json, nat)>)
    ensures stack == rest + Pushed(children, depth)
  {
    stack := rest;
    var k := 0;
    while k < |children|
      invariant 0 <= k <= |children|
      invariant stack + Pushed(children[k..], depth) == rest + Pushed(children, depth)
    {
      assert children[k..][1..] == children[k + 1..];
      if IsContainer(children[k]) { stack := stack + [(children[k], depth + 1)]; }
      k := k + 1;
    }
  }

  // ----- the two guards agree -----

  /** The text is one way of writing the value: its entries stand for the items or members in
      order. Scalars may be written in any way. */
  ghost predicate Writes(t: Text, j: Json)
    decreases t
  {
    match t
    case Token(_) => !IsContainer(j) && !j.Str?
    case Quoted(_) => j.Str?
    case Container(isObject, _, es) =>
      if isObject then j.Obj? && EntriesWrite(es, Values(j.members)) else j.Arr? && EntriesWrite(es, j.items)
  }

  ghost predicate EntriesWrite(es: seq<Entry>, js: seq<Json>)
    decreases es
  {
    if es == [] then js == []
    else js != [] && Writes(es[0].value, js[0]) && EntriesWrite(es[1..], js[1..])
  }

  lemma {:induction false} WrittenDepth(t: Text, j: Json)
    requires Writes(t, j)
    ensures Depth(t) == Nesting(j)
    decreases t
  {
    ChildrenMeasure(j);
    if t.Container? { EntriesWrittenDepth(t.entries, Children(j)); }
  }

  lemma {:induction false} EntriesWrittenDepth(es: seq<Entry>, js: seq<Json>)
    requires EntriesWrite(es, js)
    ensures EntriesDepth(es) == ItemsNesting(js)
    decreases es
  {
    if es != [] {
      WrittenDepth(es[0].value, js[0]);
      EntriesWrittenDepth(es[1..], js[1..]);
    }
  }

  /** Both guards draw the same line: on a text whose value is a container at every limit, and on
      any text at every limit of at least one, the 64 in use among them. */
  lemma GuardsAgree(before: seq<Byte>, t: Text, after: seq<Byte>, value: Json, limit: nat)
    requires Blank(before) && WellWritten(t) && Blank(after) && Writes(t, value)
    ensures Scan(before + (Render(t) + after), 0, limit) <==> Nesting(value) > limit
    ensures IsContainer(value) || limit > 0 ==>
      (Scan(before + (Render(t) + after), 0, limit) <==> Reach(value) > limit)
  {
    hide Scan, Render, WellWritten, Writes;
    ScanMeasuresDepth(before, t, after, limit);
    WrittenDepth(t, value);
    ChildrenMeasure(value);
  }
}
