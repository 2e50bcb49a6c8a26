/** `okf_attested_computation.py`, `_safe_resource_path`: which declared paths are refused before they
    are looked up. */
module OkfPaths {
  import opened PyText

  predicate Ends(s: string, suffix: string) {
    |suffix| <= |s| && s[|s| - |suffix|..] == suffix
  }

  predicate Contains(s: string, part: string)
    decreases |s|
  {
    part <= s || (s != "" && Contains(s[1..], part))
  }

  /** The lexical half of `_safe_resource_path`. */
  predicate SafeShape(path: string) {
    && path != ""
    && !StartsWith(path, "./") && !Contains(path, "/./") && !Ends(path, "/.")
    && !StartsWith(path, "/") && ".." !in SplitOn(path, '/')
  }

  // ----- segments -----

  predicate Around(s: string, c: char, x: string, a: string, b: string) {
    s == a + x + b && (a == "" || a[|a| - 1] == c) && (b == "" || b[0] == c)
  }

  /** `x` stands in `s` between two separators, or an end of the text and a separator. */
  ghost predicate Segment(s: string, c: char, x: string) { exists a, b :: Around(s, c, x, a, b) }

  lemma {:induction false} SplitAppend(p: string, c: char, q: string)
    ensures SplitOn(p + [c] + q, c) == SplitOn(p, c) + SplitOn(q, c)
  {
    if p == [] {
      assert p + [c] + q == [c] + q;
      assert ([c] + q)[1..] == q;
    } else {
      assert (p + [c] + q)[1..] == p[1..] + [c] + q;
      SplitAppend(p[1..], c, q);
    }
  }

  /** The text before the first separator, and after it. */
  lemma {:induction false} FirstCut(s: string, c: char) returns (p: string, q: string)
    requires c in s
    ensures s == p + [c] + q && c !in p && |q| < |s|
  {
    if s[0] == c {
      p, q := "", s[1..];
      assert s == [c] + s[1..];
    } else {
      p, q := FirstCut(s[1..], c);
      p := [s[0]] + p;
      assert s == [s[0]] + s[1..];
    }
  }

  lemma {:induction false} PartIsSegment(s: string, c: char, x: string)
    requires x in SplitOn(s, c)
    ensures Segment(s, c, x)
    decreases |s|
  {
    hide Around, SplitOn;
    if c !in s {
      SplitNone(s, c);
      WholeAround(s, c);
    } else {
      var p, q := FirstCut(s, c);
      SplitAtFirst(p, q, c);
      if x == p {
        FirstAround(p, q, c);
      } else {
        PartIsSegment(q, c, x);
        var a, b :| Around(q, c, x, a, b);
        LaterAround(p, q, c, x, a, b);
      }
    }
  }

  lemma WholeAround(s: string, c: char)
    ensures Around(s, c, s, "", "")
  {
    assert "" + s + "" == s;
  }

  lemma FirstAround(p: string, q: string, c: char)
    ensures Around(p + [c] + q, c, p, "", [c] + q)
  {
    assert "" + p + ([c] + q) == p + [c] + q;
  }

  lemma LaterAround(p: string, q: string, c: char, x: string, a: string, b: string)
    requires Around(q, c, x, a, b)
    ensures Around(p + [c] + q, c, x, p + [c] + a, b)
  {
    assert p + [c] + (a + x + b) == (p + [c] + a) + x + b;
    var front := p + [c] + a;
    assert front[|front| - 1] == if a == "" then c else a[|a| - 1];
  }

  lemma SegmentIsPart(s: string, c: char, x: string)
    requires c !in x && Segment(s, c, x)
    ensures x in SplitOn(s, c)
  {
    hide SplitOn;
    var a, b :| Around(s, c, x, a, b);
    if a == "" {
      FirstPart(x, c, b);
      assert s == x + b;
    } else {
      var front := a[..|a| - 1];
      assert a == front + [c];
      LaterPart(front, c, x, b);
      Regrouped(front, [c], x, b);
    }
  }

  lemma FirstPart(x: string, c: char, b: string)
    requires c !in x && (b == "" || b[0] == c)
    ensures x in SplitOn(x + b, c)
  {
    hide SplitOn;
    SplitOfOne(x, c, b);
    assert SplitOn(x + b, c)[0] == x;
  }

  lemma LaterPart(front: string, c: char, x: string, b: string)
    requires c !in x && (b == "" || b[0] == c)
    ensures x in SplitOn(front + [c] + (x + b), c)
  {
    hide SplitOn;
    FirstPart(x, c, b);
    SplitAppend(front, c, x + b);
  }

  lemma Regrouped(a: string, b: string, c: string, d: string)
    ensures (a + b) + c + d == a + b + (c + d)
  {}

  // ----- parts and ends -----

  ghost predicate Parts(s: string, part: string) { exists a: string, b: string :: s == a + part + b }

  lemma {:induction false} ContainsExactly(s: string, part: string)
    ensures Contains(s, part) <==> Parts(s, part)
    decreases |s|
  {
    if part <= s {
      assert s == "" + part + s[|part|..];
    } else if s != "" {
      ContainsExactly(s[1..], part);
      PartsLater(s, part);
      hide Parts;
    }
  }

  lemma PartsLater(s: string, part: string)
    requires s != "" && !(part <= s)
    ensures Parts(s, part) <==> Parts(s[1..], part)
  {
    if Parts(s[1..], part) {
      var a: string, b: string :| s[1..] == a + part + b;
      assert s == ([s[0]] + a) + part + b;
    }
    if Parts(s, part) {
      var a: string, b: string :| s == a + part + b;
      StartsWithPart(part, b);
      assert s[1..] == a[1..] + part + b;
    }
  }

  lemma StartsWithPart(part: string, b: string)
    ensures part <= "" + part + b
  {}

  lemma EndsExactly(s: string, suffix: string)
    ensures Ends(s, suffix) <==> exists a: string :: s == a + suffix
  {
    if Ends(s, suffix) { assert s == s[..|s| - |suffix|] + suffix; }
  }

  lemma StartsExactly(s: string, prefix: string)
    ensures StartsWith(s, prefix) <==> exists b: string :: s == prefix + b
  {
    if StartsWith(s, prefix) { assert s == prefix + s[|prefix|..]; }
  }

  /** Refused by its shape is a path that is empty or absolute, has a single dot between slashes, before
      the first one or after the last, or two dots as a whole segment. */
  ghost predicate Refused(path: string) {
    || path == ""
    || (exists b: string :: path == "/" + b)
    || (exists b: string :: path == "./" + b)
    || (exists a: string, b: string :: path == a + "/./" + b)
    || (exists a: string :: path == a + "/.")
    || (exists a, b :: Around(path, '/', "..", a, b))
  }

  lemma RefusedExactly(path: string)
    ensures SafeShape(path) <==> !Refused(path)
  {
    hide Ends, Contains, StartsWith, SplitOn, Around;
    StartsExactly(path, "/");
    StartsExactly(path, "./");
    ContainsExactly(path, "/./");
    EndsExactly(path, "/.");
    if ".." in SplitOn(path, '/') { PartIsSegment(path, '/', ".."); }
    if Segment(path, '/', "..") { SegmentIsPart(path, '/', ".."); }
  }
}
