/** Sorting by a total preorder, as the source's `sorted(xs, key=...)` does, and Python's
    code-point order on strings. */
module Sorting {

  /** `<=` on Python strings: lexicographic by code point. */
  predicate StrLe(a: string, b: string) {
    a == [] || (b != [] && (a[0] < b[0] || (a[0] == b[0] && StrLe(a[1..], b[1..]))))
  }

  /** A prefix comes first; otherwise the first character that differs decides. */
  predicate FirstDiffers(a: string, b: string, k: nat) {
    k < |a| && k < |b| && a[..k] == b[..k] && a[k] < b[k]
  }

  lemma SameBefore(a: string, b: string, k: nat)
    requires FirstDiffers(a, b, k)
    ensures k > 0 ==> a[0] == b[0]
  {
    if k > 0 { assert a[..k][0] == b[..k][0]; }
  }

  lemma {:induction false} StrLeExactly(a: string, b: string)
    ensures StrLe(a, b) <==> a <= b || exists k: nat :: FirstDiffers(a, b, k)
  {
    if a != [] && b != [] && a[0] == b[0] {
      StrLeExactly(a[1..], b[1..]);
      assert a <= b <==> a[1..] <= b[1..] by { assert a == [a[0]] + a[1..] && b == [b[0]] + b[1..]; }
      if k: nat :| FirstDiffers(a[1..], b[1..], k) {
        assert a[..k + 1] == [a[0]] + a[1..][..k] && b[..k + 1] == [b[0]] + b[1..][..k];
        assert FirstDiffers(a, b, k + 1);
      }
      if k: nat :| FirstDiffers(a, b, k) {
        assert a[1..][..k - 1] == a[..k][1..] && b[1..][..k - 1] == b[..k][1..];
        assert FirstDiffers(a[1..], b[1..], k - 1);
      }
    } else if a != [] && b != [] {
      if a[0] < b[0] { assert FirstDiffers(a, b, 0); }
      if k: nat :| FirstDiffers(a, b, k) { SameBefore(a, b, k); }
    }
  }

  lemma {:induction false} StrLeAntisymmetric(a: string, b: string)
    requires StrLe(a, b) && StrLe(b, a)
    ensures a == b
  {
    if a != [] && b != [] {
      StrLeAntisymmetric(a[1..], b[1..]);
      assert a == [a[0]] + a[1..] && b == [b[0]] + b[1..];
    }
  }

  lemma {:induction false} StrLeTransitive(a: string, b: string, c: string)
    requires StrLe(a, b) && StrLe(b, c)
    ensures StrLe(a, c)
  {
    if a != [] && a[0] == b[0] && b[0] == c[0] {
      StrLeTransitive(a[1..], b[1..], c[1..]);
    }
  }

  lemma {:induction false} StrLeTotal(a: string, b: string)
    ensures StrLe(a, b) || StrLe(b, a)
  {
    if a != [] && b != [] {
      StrLeTotal(a[1..], b[1..]);
    }
  }

  ghost predicate Preorder<T(!new)>(le: (T, T) -> bool) {
    && (forall x, y :: le(x, y) || le(y, x))
    && (forall x, y, z :: le(x, y) && le(y, z) ==> le(x, z))
  }

  ghost predicate AntisymmetricOn<T>(le: (T, T) -> bool, xs: seq<T>) {
    forall x, y :: x in xs && y in xs && le(x, y) && le(y, x) ==> x == y
  }

  ghost predicate Ordered<T>(xs: seq<T>, le: (T, T) -> bool) {
    forall i, j :: 0 <= i < j < |xs| ==> le(xs[i], xs[j])
  }

  lemma StrLeByKeyIsPreorder<T(!new)>(key: T -> string, le: (T, T) -> bool)
    requires forall x, y :: le(x, y) == StrLe(key(x), key(y))
    ensures Preorder(le)
  {
    forall x, y ensures le(x, y) || le(y, x) { StrLeTotal(key(x), key(y)); }
    forall x, y, z | le(x, y) && le(y, z) ensures le(x, z) {
      StrLeTransitive(key(x), key(y), key(z));
    }
  }

  /** Puts `x` before the first element it is below; an equal element stays ahead of it. */
  function Insert<T>(x: T, xs: seq<T>, le: (T, T) -> bool): (r: seq<T>)
    ensures multiset(r) == multiset([x]) + multiset(xs)
  {
    if xs == [] then [x]
    else if le(xs[0], x) then
      assert xs == [xs[0]] + xs[1..];
      [xs[0]] + Insert(x, xs[1..], le)
    else [x] + xs
  }

  /** Stable: elements are inserted from the left, each behind its equals. */
  function Sort<T>(xs: seq<T>, le: (T, T) -> bool): (r: seq<T>)
    ensures multiset(r) == multiset(xs)
    ensures |r| == |xs|
  {
    if xs == [] then []
    else
      assert xs == xs[..|xs| - 1] + [xs[|xs| - 1]];
      var r := Insert(xs[|xs| - 1], Sort(xs[..|xs| - 1], le), le);
      assert |multiset(r)| == |multiset(xs)|;
      r
  }

  lemma {:induction false} InsertOrdered<T(!new)>(x: T, xs: seq<T>, le: (T, T) -> bool)
    requires Preorder(le) && Ordered(xs, le)
    ensures Ordered(Insert(x, xs, le), le)
  {
    var r := Insert(x, xs, le);
    if xs != [] && le(xs[0], x) {
      InsertOrdered(x, xs[1..], le);
      forall j | 0 < j < |r| ensures le(r[0], r[j]) {
        assert r[j] in multiset(Insert(x, xs[1..], le));
        assert r[j] in multiset([x]) + multiset(xs[1..]);
      }
    } else if xs != [] {
      forall j | 0 < j < |r| ensures le(r[0], r[j]) {
        assert le(x, xs[0]) && r[j] == xs[j - 1];
      }
    }
  }

  lemma {:induction false} SortOrdered<T(!new)>(xs: seq<T>, le: (T, T) -> bool)
    requires Preorder(le)
    ensures Ordered(Sort(xs, le), le)
  {
    if xs != [] {
      SortOrdered(xs[..|xs| - 1], le);
      InsertOrdered(xs[|xs| - 1], Sort(xs[..|xs| - 1], le), le);
    }
  }

  lemma SameHead<T(!new)>(xs: seq<T>, ys: seq<T>, le: (T, T) -> bool)
    requires Ordered(xs, le) && Ordered(ys, le) && xs != [] && ys != []
    requires AntisymmetricOn(le, xs)
    requires multiset(xs) == multiset(ys)
    ensures xs[0] == ys[0]
  {
    assert xs[0] in multiset(ys) && ys[0] in multiset(xs);
    var j :| 0 <= j < |ys| && ys[j] == xs[0];
    var i :| 0 <= i < |xs| && xs[i] == ys[0];
    if i > 0 && j > 0 {
      assert le(xs[0], xs[i]) && le(ys[0], ys[j]);
    }
  }

  /** Two ordered listings of the same elements are the same listing. */
  lemma {:induction false} OrderedUnique<T(!new)>(xs: seq<T>, ys: seq<T>, le: (T, T) -> bool)
    requires Ordered(xs, le) && Ordered(ys, le)
    requires AntisymmetricOn(le, xs)
    requires multiset(xs) == multiset(ys)
    ensures xs == ys
  {
    assert |multiset(xs)| == |multiset(ys)|;
    if xs != [] {
      SameHead(xs, ys, le);
      TailKeeps(xs, le);
      TailKeeps(ys, le);
      hide Ordered, AntisymmetricOn;
      OrderedUnique(xs[1..], ys[1..], le);
      assert xs == [xs[0]] + xs[1..] && ys == [ys[0]] + ys[1..];
    }
  }

  lemma TailKeeps<T(!new)>(xs: seq<T>, le: (T, T) -> bool)
    requires xs != [] && Ordered(xs, le)
    ensures Ordered(xs[1..], le) && multiset(xs[1..]) == multiset(xs) - multiset([xs[0]])
    ensures AntisymmetricOn(le, xs) ==> AntisymmetricOn(le, xs[1..])
  {
    assert xs == [xs[0]] + xs[1..];
    forall x | x in xs[1..] ensures x in xs {}
  }

  /** Sorting forgets the order of its input exactly: equal results mean equal multisets, and
      the other way round when no two distinct elements tie. */
  lemma SortForgetsOrder<T(!new)>(xs: seq<T>, ys: seq<T>, le: (T, T) -> bool)
    requires Preorder(le) && AntisymmetricOn(le, xs)
    ensures Sort(xs, le) == Sort(ys, le) <==> multiset(xs) == multiset(ys)
  {
    if multiset(xs) == multiset(ys) {
      SortOrdered(xs, le);
      SortOrdered(ys, le);
      forall x | x in Sort(xs, le) ensures x in xs {
        assert x in multiset(Sort(xs, le));
      }
      OrderedUnique(Sort(xs, le), Sort(ys, le), le);
    }
  }

  ghost predicate NoRepeats<T>(xs: seq<T>) {
    forall i, j :: 0 <= i < j < |xs| ==> xs[i] != xs[j]
  }

  /** Having no repeats is a property of the multiset. */
  lemma {:induction false} NoRepeatsCount<T(!new)>(xs: seq<T>)
    ensures NoRepeats(xs) <==> forall x :: multiset(xs)[x] <= 1
  {
    if xs != [] {
      var t := xs[1..];
      assert xs == [xs[0]] + t;
      NoRepeatsCount(t);
      assert forall i :: 0 <= i < |t| ==> t[i] == xs[i + 1];
      if NoRepeats(xs) {
        forall x ensures multiset(xs)[x] <= 1 {
          if x == xs[0] { assert x !in t; }
        }
      } else {
        var i, j :| 0 <= i < j < |xs| && xs[i] == xs[j];
        assert t[j - 1] == xs[j];
        if i == 0 {
          assert xs[0] in t;
          assert multiset(xs)[xs[0]] >= 2;
        } else {
          assert t[i - 1] == t[j - 1];
          var x :| multiset(t)[x] > 1;
          assert multiset(xs)[x] > 1;
        }
      }
    }
  }
}
