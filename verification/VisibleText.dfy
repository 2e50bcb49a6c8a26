/** `acquisition_grounding.py`, the extraction projection: which text of an HTML page is visible, and
    how it is normalised. HTML tokenising is not part of this model; the parser sees its events. */
module VisibleText {
  import opened PyText

  // ----- white space -----

  /** `text.split()`: the maximal runs of characters that are not white space. */
  function Words(s: string): (r: seq<string>)
    ensures s != [] && !IsSpace(s[0]) ==> r != []
    ensures forall w :: w in r ==> Word(w)
  {
    if s == [] then []
    else if IsSpace(s[0]) then Words(s[1..])
    else
      var r := Words(s[1..]);
      if |s| > 1 && !IsSpace(s[1]) then
        WordGrows(s[0], r[0]);
        [[s[0]] + r[0]] + r[1..]
      else [[s[0]]] + r
  }

  predicate Word(w: string) { w != [] && forall i :: 0 <= i < |w| ==> !IsSpace(w[i]) }

  lemma WordGrows(c: char, w: string)
    requires Word(w) && !IsSpace(c)
    ensures Word([c] + w)
  {}

  /** `normalize_whitespace`. */
  function Normalize(s: string): string { JoinOn(Words(s), ' ') }

  lemma {:induction false} WordsApart(a: string, c: char, b: string)
    requires IsSpace(c)
    ensures Words(a + [c] + b) == Words(a) + Words(b)
  {
    var s := a + [c] + b;
    if a == [] {
      assert s == [c] + b && s[1..] == b;
    } else {
      assert s[0] == a[0] && s[1..] == a[1..] + [c] + b;
      WordsApart(a[1..], c, b);
      if |a| == 1 { assert Words(a[1..]) == [] && s[1] == c; } else { assert s[1] == a[1]; }
      WordsStep(a);
      WordsStep(s);
      hide Words, IsSpace;
      HeadJoined([a[0]], Words(a[1..]), Words(b));
    }
  }

  lemma WordsStep(s: string)
    requires s != []
    ensures |s| > 1 && !IsSpace(s[1]) ==> Words(s[1..]) != []
    ensures Words(s) ==
      if IsSpace(s[0]) then Words(s[1..])
      else if |s| > 1 && !IsSpace(s[1]) then [[s[0]] + Words(s[1..])[0]] + Words(s[1..])[1..]
      else [[s[0]]] + Words(s[1..])
  {
    hide IsSpace;
  }

  lemma HeadJoined(c: string, ws: seq<string>, more: seq<string>)
    ensures [c] + (ws + more) == ([c] + ws) + more
    ensures ws != [] ==> (ws + more)[0] == ws[0]
    ensures ws != [] ==> [c + ws[0]] + (ws + more)[1..] == ([c + ws[0]] + ws[1..]) + more
  {}

  lemma {:induction false} WordAlone(w: string)
    requires Word(w)
    ensures Words(w) == [w]
  {
    if |w| > 1 {
      WordAlone(w[1..]);
      assert w == [w[0]] + w[1..];
    } else {
      assert w == [w[0]];
    }
  }

  lemma {:induction false} WordsOfJoin(ws: seq<string>)
    requires forall w :: w in ws ==> Word(w)
    ensures Words(JoinOn(ws, ' ')) == ws
  {
    if ws != [] {
      WordAlone(ws[0]);
      if |ws| == 1 {
        assert ws == [ws[0]];
      } else {
        WordsOfJoin(ws[1..]);
        WordsApart(ws[0], ' ', JoinOn(ws[1..], ' '));
        assert ws == [ws[0]] + ws[1..];
      }
    }
  }

  /** Normalising keeps the words, so doing it twice is doing it once; two texts normalise alike
      exactly when they have the same words. */
  lemma NormalizeIdempotent(s: string)
    ensures Words(Normalize(s)) == Words(s) && Normalize(Normalize(s)) == Normalize(s)
  {
    WordsOfJoin(Words(s));
  }

  lemma NormalizeEqual(s: string, t: string)
    ensures Normalize(s) == Normalize(t) <==> Words(s) == Words(t)
  {
    NormalizeIdempotent(s);
    NormalizeIdempotent(t);
  }

  // ----- the parser -----

  datatype Event = StartTag(tag: string) | EndTag(tag: string) | Data(text: string)

  predicate Skipped(tag: string) { tag == "script" || tag == "style" }

  /** How deep in skipped elements the reader is after some events; an end tag too many is
      ignored. */
  function SkipDepth(es: seq<Event>): nat {
    if es == [] then 0
    else
      var d := SkipDepth(es[..|es| - 1]);
      match es[|es| - 1]
      case StartTag(tag) => if Skipped(tag) then d + 1 else d
      case EndTag(tag) => if Skipped(tag) && d > 0 then d - 1 else d
      case Data(_) => d
  }

  /** The visible text nodes, in order. */
  function VisibleNodes(es: seq<Event>): seq<string> {
    if es == [] then []
    else
      var front := es[..|es| - 1];
      match es[|es| - 1]
      case Data(text) => if SkipDepth(front) == 0 then VisibleNodes(front) + [text] else VisibleNodes(front)
      case _ => VisibleNodes(front)
  }

  /** `_VisibleTextParser`. */
  class VisibleTextParser {
    var skipDepth: nat
    var nodes: seq<string>

    constructor ()
      ensures skipDepth == 0 && nodes == []
    {
      skipDepth, nodes := 0, [];
    }

    method HandleStartTag(tag: string)
      modifies this
      ensures nodes == old(nodes) && skipDepth == old(skipDepth) + if Skipped(tag) then 1 else 0
    {
      if Skipped(tag) { skipDepth := skipDepth + 1; }
    }

    method HandleEndTag(tag: string)
      modifies this
      ensures nodes == old(nodes)
      ensures skipDepth == if Skipped(tag) && old(skipDepth) > 0 then old(skipDepth) - 1 else old(skipDepth)
    {
      if Skipped(tag) && skipDepth > 0 { skipDepth := skipDepth - 1; }
    }

    method HandleData(text: string)
      modifies this
      ensures skipDepth == old(skipDepth)
      ensures nodes == if skipDepth == 0 then old(nodes) + [text] else old(nodes)
    {
      if skipDepth == 0 { nodes := nodes + [text]; }
    }

    /** The tokeniser calls one handler per event. */
    method Feed(es: seq<Event>)
      requires skipDepth == 0 && nodes == []
      modifies this
      ensures skipDepth == SkipDepth(es) && nodes == VisibleNodes(es)
    {
      assert es[..0] == [];
      for k := 0 to |es|
        invariant skipDepth == SkipDepth(es[..k]) && nodes == VisibleNodes(es[..k])
      {
        assert es[..k + 1][..k] == es[..k];
        match es[k] {
          case StartTag(tag) => HandleStartTag(tag);
          case EndTag(tag) => HandleEndTag(tag);
          case Data(text) => HandleData(text);
        }
      }
      assert es[..|es|] == es;
    }
  }

  /** Skipped elements opened less skipped elements closed. */
  function Balance(es: seq<Event>): int {
    if es == [] then 0
    else
      Balance(es[..|es| - 1]) +
      match es[|es| - 1]
      case StartTag(tag) => if Skipped(tag) then 1 else 0
      case EndTag(tag) => if Skipped(tag) then -1 else 0
      case Data(_) => 0
  }

  /** The counter is the largest balance of any run of events that ends here. */
  lemma {:induction false} SkipDepthMeans(es: seq<Event>)
    ensures forall j :: 0 <= j <= |es| ==> Balance(es[j..]) <= SkipDepth(es)
    ensures exists j :: 0 <= j <= |es| && Balance(es[j..]) == SkipDepth(es)
  {
    if es == [] {
      assert es[0..] == [];
    } else {
      var n := |es| - 1;
      var front := es[..n];
      SkipDepthMeans(front);
      assert es[n + 1..] == [];
      forall j | 0 <= j <= n ensures Balance(es[j..]) == Balance(front[j..]) + Balance([es[n]]) {
        assert es[j..][..|es[j..]| - 1] == front[j..] && es[j..][|es[j..]| - 1] == es[n];
        assert [es[n]][..0] == [];
      }
      var j :| 0 <= j <= n && Balance(front[j..]) == SkipDepth(front);
      assert [es[n]][..0] == [];
      if SkipDepth(es) == SkipDepth(front) + Balance([es[n]]) {
        assert Balance(es[j..]) == SkipDepth(es);
      } else {
        assert Balance(es[n + 1..]) == SkipDepth(es);
      }
    }
  }

  /** A text is visible exactly when no run of events that ends just before it opens more script or
      style elements than it closes. */
  lemma VisibleExactly(es: seq<Event>)
    ensures SkipDepth(es) == 0 <==> forall j :: 0 <= j <= |es| ==> Balance(es[j..]) <= 0
  {
    SkipDepthMeans(es);
  }

  // ----- the projection -----

  function NormalizedNodes(nodes: seq<string>): seq<string> {
    if nodes == [] then []
    else
      var n := Normalize(nodes[0]);
      (if n != [] then [n] else []) + NormalizedNodes(nodes[1..])
  }

  /** `project_html_visible_text`, after decoding and tokenising. */
  function Project(es: seq<Event>): string { JoinOn(NormalizedNodes(VisibleNodes(es)), '\n') }

  method ProjectHtmlVisibleText(es: seq<Event>) returns (projection: string)
    ensures projection == Project(es)
  {
    var parser := new VisibleTextParser();
    parser.Feed(es);
    projection := JoinOn(NormalizedNodes(parser.nodes), '\n');
  }

  function AllWords(nodes: seq<string>): seq<string> {
    if nodes == [] then [] else Words(nodes[0]) + AllWords(nodes[1..])
  }

  lemma NormalizeEmpty(s: string)
    ensures Normalize(s) == [] <==> Words(s) == []
  {
    NormalizeIdempotent(s);
  }

  lemma {:induction false} ProjectionWords(nodes: seq<string>)
    ensures Words(JoinOn(NormalizedNodes(nodes), '\n')) == AllWords(nodes)
  {
    if nodes != [] {
      var n, rest := Normalize(nodes[0]), NormalizedNodes(nodes[1..]);
      ProjectionWords(nodes[1..]);
      NormalizeIdempotent(nodes[0]);
      NormalizeEmpty(nodes[0]);
      if n != [] {
        if rest == [] {
          assert [n] + rest == [n];
        } else {
          JoinCons(n, rest, '\n');
          WordsApart(n, '\n', JoinOn(rest, '\n'));
        }
      } else {
        assert [] + rest == rest;
      }
    }
  }

  /** The normalised projection is the words of the visible texts in order, one blank between any
      two. */
  lemma ProjectionNormalized(es: seq<Event>)
    ensures Normalize(Project(es)) == JoinOn(AllWords(VisibleNodes(es)), ' ')
  {
    ProjectionWords(VisibleNodes(es));
  }
}
