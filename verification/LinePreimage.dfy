/** Texts made of labelled lines, the form both DAGR preimages have. */
module LinePreimage {
  import opened PyText

  /** The lines, each ended by a newline. */
  function LinesText(lines: seq<string>): string {
    if lines == [] then [] else lines[0] + ['\n'] + LinesText(lines[1..])
  }

  predicate NoNewline(s: string) { '\n' !in s }

  predicate AllNoNewline(xs: seq<string>) { forall i :: 0 <= i < |xs| ==> NoNewline(xs[i]) }

  lemma {:induction false} LinesTextAppend(a: seq<string>, b: seq<string>)
    ensures LinesText(a + b) == LinesText(a) + LinesText(b)
  {
    if a == [] {
      assert a + b == b;
    } else {
      assert (a + b)[1..] == a[1..] + b;
      LinesTextAppend(a[1..], b);
    }
  }

  lemma LinesTextSnoc(a: seq<string>, line: string)
    ensures LinesText(a + [line]) == LinesText(a) + line + ['\n']
  {
    LinesTextAppend(a, [line]);
    assert [line][1..] == [];
    assert LinesText([line]) == line + ['\n'] + [];
  }

  lemma {:induction false} LinesReadBack(lines: seq<string>)
    requires AllNoNewline(lines)
    ensures SplitOn(LinesText(lines), '\n') == lines + [[]]
  {
    if lines != [] {
      LinesReadBack(lines[1..]);
      SplitAtFirst(lines[0], LinesText(lines[1..]), '\n');
      assert lines == [lines[0]] + lines[1..];
    }
  }

  /** The text determines its lines. */
  lemma LinesInjective(a: seq<string>, b: seq<string>)
    requires AllNoNewline(a) && AllNoNewline(b) && LinesText(a) == LinesText(b)
    ensures a == b
  {
    LinesReadBack(a);
    LinesReadBack(b);
    assert (a + [[]])[..|a|] == a && (b + [[]])[..|b|] == b;
  }

  /** `name=value`, once per name. */
  function Labelled(names: seq<string>, values: seq<string>): (r: seq<string>)
    requires |names| == |values|
    ensures |r| == |names|
  {
    if names == [] then [] else [names[0] + "=" + values[0]] + Labelled(names[1..], values[1..])
  }

  lemma {:induction false} LabelledAt(names: seq<string>, values: seq<string>, i: nat)
    requires |names| == |values| && i < |names|
    ensures Labelled(names, values)[i] == names[i] + "=" + values[i]
  {
    if i > 0 { LabelledAt(names[1..], values[1..], i - 1); }
  }

  lemma {:induction false} LabelledNoNewline(names: seq<string>, values: seq<string>)
    requires |names| == |values| && AllNoNewline(names) && AllNoNewline(values)
    ensures AllNoNewline(Labelled(names, values))
  {
    if names != [] { LabelledNoNewline(names[1..], values[1..]); }
  }

  lemma SamePrefix(p: string, x: string, y: string)
    requires p + x == p + y
    ensures x == y
  {
    assert (p + x)[|p|..] == x && (p + y)[|p|..] == y;
  }

  lemma SameBefore(x: string, y: string, q: string)
    requires x + q == y + q
    ensures x == y
  {
    assert (x + q)[..|x|] == x && (y + q)[..|y|] == y;
  }

  lemma {:induction false} LabelledInjective(names: seq<string>, values: seq<string>, values': seq<string>)
    requires |names| == |values| == |values'|
    requires Labelled(names, values) == Labelled(names, values')
    ensures values == values'
  {
    if names != [] {
      var l, l' := Labelled(names, values), Labelled(names, values');
      assert l[1..] == Labelled(names[1..], values[1..]) && l'[1..] == Labelled(names[1..], values'[1..]);
      LabelledInjective(names[1..], values[1..], values'[1..]);
      assert l[0] == l'[0];
      SamePrefix(names[0] + "=", values[0], values'[0]);
      assert values == [values[0]] + values[1..] && values' == [values'[0]] + values'[1..];
    }
  }

  // ----- marks and values, newlines allowed -----

  /** Each value behind its mark. */
  function Woven(marks: seq<string>, values: seq<string>): string
    requires |marks| == |values|
  {
    if marks == [] then [] else marks[0] + (values[0] + Woven(marks[1..], values[1..]))
  }

  predicate OccursAt(s: string, part: string, k: nat) { k + |part| <= |s| && s[k..k + |part|] == part }

  predicate Contains(s: string, part: string) { exists k :: 0 <= k <= |s| && OccursAt(s, part, k) }

  /** A mark cannot overlap itself. */
  predicate Unbordered(mark: string) {
    mark != [] && forall k :: 0 < k < |mark| ==> mark[k..] != mark[..|mark| - k]
  }

  predicate AllUnbordered(marks: seq<string>) { forall i :: 0 <= i < |marks| ==> Unbordered(marks[i]) }

  /** Some value after the first one holds its own mark, or some value holds the next one's. */
  predicate Clash(marks: seq<string>, values: seq<string>)
    requires |marks| == |values|
  {
    exists i :: 1 <= i < |marks| && (Contains(values[i], marks[i]) || Contains(values[i - 1], marks[i]))
  }

  predicate OwnMark(marks: seq<string>, values: seq<string>)
    requires |marks| == |values|
  {
    exists i :: 0 <= i < |marks| && Contains(values[i], marks[i])
  }

  lemma NoSelfOverlap(s: string, mark: string, j: nat, k: nat)
    requires Unbordered(mark) && j < k && OccursAt(s, mark, j) && OccursAt(s, mark, k)
    ensures j + |mark| <= k
  {
    if k < j + |mark| { OverlapIsBorder(s, mark, j, k - j); }
  }

  lemma OverlapIsBorder(s: string, mark: string, j: nat, d: nat)
    requires d < |mark| && OccursAt(s, mark, j) && OccursAt(s, mark, j + d)
    ensures mark[d..] == mark[..|mark| - d]
  {
    assert s[j + d..j + |mark|] == s[j..j + |mark|][d..];
    assert s[j + d..j + |mark|] == s[j + d..j + d + |mark|][..|mark| - d];
  }

  lemma SameEnd(s: string, a: string, r: string, b: string, q: string)
    requires s == a + r && s == b + q && |q| <= |r|
    ensures r == r[..|r| - |q|] + q && b == a + r[..|r| - |q|]
  {
    assert r == s[|a|..] && q == s[|b|..];
    assert r[|r| - |q|..] == q;
    assert b == s[..|b|];
  }

  lemma InValue(mark: string, v: string, k: nat)
    requires k >= |mark| && OccursAt(mark + v, mark, k)
    ensures Contains(v, mark)
  {
    assert v[k - |mark|..k] == (mark + v)[k..k + |mark|];
    assert OccursAt(v, mark, k - |mark|);
  }

  /** If the same text can also be read with its marks starting later, some value holds its own
      mark. */
  lemma {:induction false} ShiftedLater(marks: seq<string>, v: seq<string>, w: seq<string>, x: string)
    requires marks != [] && |marks| == |v| == |w| && AllUnbordered(marks) && x != []
    requires x + Woven(marks, w) == Woven(marks, v)
    ensures OwnMark(marks, v)
  {
    hide Contains;
    var m, r, q := marks[0], Woven(marks[1..], v[1..]), Woven(marks[1..], w[1..]);
    var s := Woven(marks, v);
    assert s == (m + v[0]) + r;
    assert s == (x + (m + w[0])) + q;
    if |q| < |r| {
      SameEnd(s, m + v[0], r, x + (m + w[0]), q);
      ShiftedLater(marks[1..], v[1..], w[1..], r[..|r| - |q|]);
      var i :| 0 <= i < |marks[1..]| && Contains(v[1..][i], marks[1..][i]);
      assert Contains(v[i + 1], marks[i + 1]);
    } else {
      SameEnd(s, x + (m + w[0]), q, m + v[0], r);
      var t := m + v[0];
      assert t == x + (m + w[0]) + q[..|q| - |r|];
      assert t[|x|..|x| + |m|] == m && t[..|m|] == m;
      assert OccursAt(t, m, 0) && OccursAt(t, m, |x|);
      NoSelfOverlap(t, m, 0, |x|);
      InValue(m, v[0], |x|);
      assert Contains(v[0], m);
    }
  }

  /** If the same text can be read as two lists of values, the marks clash with either. */
  lemma {:induction false} SharedClashes(marks: seq<string>, v: seq<string>, w: seq<string>)
    requires |marks| == |v| == |w| && AllUnbordered(marks)
    requires Woven(marks, v) == Woven(marks, w) && v != w
    ensures Clash(marks, v)
  {
    hide Contains;
    var m, r, q := marks[0], Woven(marks[1..], v[1..]), Woven(marks[1..], w[1..]);
    SamePrefix(m, v[0] + r, w[0] + q);
    var s := v[0] + r;
    if |r| == |q| {
      SameEnd(s, v[0], r, w[0], q);
      assert r[..0] == [] && v[0] + [] == v[0] && [] + q == q;
      assert v == [v[0]] + v[1..] && w == [w[0]] + w[1..];
      SharedClashes(marks[1..], v[1..], w[1..]);
      var i :| 1 <= i < |marks[1..]|
               && (Contains(v[1..][i], marks[1..][i]) || Contains(v[1..][i - 1], marks[1..][i]));
      assert Contains(v[i + 1], marks[i + 1]) || Contains(v[i + 1 - 1], marks[i + 1]);
    } else if |q| < |r| {
      SameEnd(s, v[0], r, w[0], q);
      ShiftedLater(marks[1..], v[1..], w[1..], r[..|r| - |q|]);
      var i :| 0 <= i < |marks[1..]| && Contains(v[1..][i], marks[1..][i]);
      assert Contains(v[i + 1], marks[i + 1]);
    } else {
      SameEnd(s, w[0], q, v[0], r);
      ShiftedEarlier(marks, v, w);
    }
  }

  lemma ShiftedEarlier(marks: seq<string>, v: seq<string>, w: seq<string>)
    requires marks != [] && |marks| == |v| == |w| && AllUnbordered(marks)
    requires v[0] + Woven(marks[1..], v[1..]) == w[0] + Woven(marks[1..], w[1..])
    requires |Woven(marks[1..], v[1..])| < |Woven(marks[1..], w[1..])|
    ensures Clash(marks, v)
  {
    var r, q := Woven(marks[1..], v[1..]), Woven(marks[1..], w[1..]);
    assert marks[1..] != [];
    var s, m, j, k := v[0] + r, marks[1], |w[0]|, |v[0]|;
    assert marks[1..][0] == m;
    assert q[..|m|] == m && s[j..] == q;
    assert OccursAt(s, m, j);
    assert r[..|m|] == m && s[k..] == r;
    assert OccursAt(s, m, k);
    NoSelfOverlap(s, m, j, k);
    assert v[0][j..j + |m|] == s[j..j + |m|];
    assert OccursAt(v[0], m, j);
    assert Contains(v[1 - 1], marks[1]);
  }

  lemma {:induction false} WovenAppend(a: seq<string>, v: seq<string>, b: seq<string>, w: seq<string>)
    requires |a| == |v| && |b| == |w|
    ensures Woven(a + b, v + w) == Woven(a, v) + Woven(b, w)
  {
    if a == [] {
      assert a + b == b && v + w == w;
    } else {
      assert (a + b)[1..] == a[1..] + b && (v + w)[1..] == v[1..] + w;
      WovenAppend(a[1..], v[1..], b, w);
    }
  }

  lemma WovenTwo(m: string, n: string, x: string, y: string)
    ensures Woven([m, n], [x, y]) == m + (x + (n + y))
  {
    assert [m, n][1..] == [n] && [x, y][1..] == [y] && [n][1..] == [] && [y][1..] == [];
    assert Woven([n], [y]) == n + (y + []);
    assert y + [] == y;
  }

  /** A mark between two texts, of which it occurs in one, separates them at either occurrence. */
  lemma MarkMoves(m: string, n: string, x: string, a: string, b: string)
    ensures Woven([m, n], [x, a + n + b]) == Woven([m, n], [x + n + a, b])
  {
    WovenTwo(m, n, x, a + n + b);
    WovenTwo(m, n, x + n + a, b);
  }

  lemma Cut(s: string, part: string)
    requires Contains(s, part)
    ensures exists a, b :: s == a + part + b
  {
    var k :| 0 <= k <= |s| && OccursAt(s, part, k);
    assert s == s[..k] + part + s[k + |part|..];
  }

  lemma Split3<T>(s: seq<T>, i: nat)
    requires 1 <= i < |s|
    ensures s == s[..i - 1] + [s[i - 1], s[i]] + s[i + 1..]
  {}

  /** A clash gives the text a second reading. */
  lemma ClashShares(marks: seq<string>, v: seq<string>) returns (w: seq<string>)
    requires |marks| == |v| && AllUnbordered(marks) && Clash(marks, v)
    ensures |w| == |v| && w != v && Woven(marks, w) == Woven(marks, v)
  {
    hide Contains, Woven;
    var i :| 1 <= i < |marks| && (Contains(v[i], marks[i]) || Contains(v[i - 1], marks[i]));
    var n := marks[i];
    assert Unbordered(n);
    if Contains(v[i], n) {
      Cut(v[i], n);
      var a, b :| v[i] == a + n + b;
      w := v[..i - 1] + [v[i - 1] + n + a, b] + v[i + 1..];
      MarkMoves(marks[i - 1], n, v[i - 1], a, b);
      assert w[i] == b && |b| < |v[i]|;
      ReplaceTwo(marks, v, i, v[i - 1] + n + a, b);
    } else {
      Cut(v[i - 1], n);
      var a, b :| v[i - 1] == a + n + b;
      w := v[..i - 1] + [a, b + n + v[i]] + v[i + 1..];
      MarkMoves(marks[i - 1], n, a, b, v[i]);
      assert w[i - 1] == a && |a| < |v[i - 1]|;
      ReplaceTwo(marks, v, i, a, b + n + v[i]);
    }
  }

  lemma ReplaceTwo(marks: seq<string>, v: seq<string>, i: nat, x: string, y: string)
    requires |marks| == |v| && 1 <= i < |marks|
    requires Woven([marks[i - 1], marks[i]], [x, y]) == Woven([marks[i - 1], marks[i]], [v[i - 1], v[i]])
    ensures Woven(marks, v[..i - 1] + [x, y] + v[i + 1..]) == Woven(marks, v)
  {
    hide Woven;
    var a, m, b := marks[..i - 1], [marks[i - 1], marks[i]], marks[i + 1..];
    Split3(marks, i);
    Split3(v, i);
    WovenAppend(a + m, v[..i - 1] + [x, y], b, v[i + 1..]);
    WovenAppend(a, v[..i - 1], m, [x, y]);
    WovenAppend(a + m, v[..i - 1] + [v[i - 1], v[i]], b, v[i + 1..]);
    WovenAppend(a, v[..i - 1], m, [v[i - 1], v[i]]);
  }

  /** A text of marks and values has another reading exactly when some value clashes. */
  lemma SharedExactly(marks: seq<string>, v: seq<string>)
    requires |marks| == |v| && AllUnbordered(marks)
    ensures (exists w :: |w| == |v| && w != v && Woven(marks, w) == Woven(marks, v)) <==> Clash(marks, v)
  {
    if w :| |w| == |v| && w != v && Woven(marks, w) == Woven(marks, v) {
      SharedClashes(marks, v, w);
    }
    if Clash(marks, v) {
      var w := ClashShares(marks, v);
    }
  }

  // ----- lines as marks -----

  /** What stands before a value in a preimage: the newline that ends the line before, and the
      label. */
  function Marks(names: seq<string>): (r: seq<string>)
    ensures |r| == |names| && forall i :: 0 <= i < |names| ==> r[i] == ['\n'] + names[i] + "="
  {
    if names == [] then [] else [['\n'] + names[0] + "="] + Marks(names[1..])
  }

  lemma {:induction false} LinesAsMarks(first: string, names: seq<string>, values: seq<string>)
    requires |names| == |values|
    ensures LinesText([first] + Labelled(names, values)) == first + Woven(Marks(names), values) + ['\n']
    decreases |names|
  {
    var lines := [first] + Labelled(names, values);
    assert lines[1..] == Labelled(names, values);
    if names == [] {
      assert LinesText(lines) == first + ['\n'] + [];
      assert first + [] == first;
    } else {
      var line, rest := names[0] + "=" + values[0], Woven(Marks(names[1..]), values[1..]);
      LinesAsMarks(line, names[1..], values[1..]);
      assert Labelled(names, values) == [line] + Labelled(names[1..], values[1..]);
      assert Marks(names)[1..] == Marks(names[1..]);
      assert ['\n'] + (line + rest + ['\n']) == (['\n'] + names[0] + "=" + (values[0] + rest)) + ['\n'];
    }
  }

  lemma LinesWoven(first: string, names: seq<string>, values: seq<string>)
    requires |names| == |values|
    ensures LinesText([first] + Labelled(names, values)) == first + (Woven(Marks(names), values) + ['\n'])
  {
    LinesAsMarks(first, names, values);
    hide *;
    Regroup(first, Woven(Marks(names), values), ['\n']);
  }

  lemma Regroup(a: string, b: string, c: string)
    ensures (a + b) + c == a + (b + c)
  {}

  lemma MarkUnbordered(name: string)
    requires NoNewline(name)
    ensures Unbordered(['\n'] + name + "=")
  {
    var m := ['\n'] + name + "=";
    forall k | 0 < k < |m| ensures m[k..] != m[..|m| - k] {
      assert m[k..][0] == m[k] && m[..|m| - k][0] == '\n';
      if k <= |name| { assert m[k] == name[k - 1]; }
    }
  }
}
