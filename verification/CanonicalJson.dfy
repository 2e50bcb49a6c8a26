/** The canonical text both packet verifiers hash: `_canon_walk` followed by `json.dumps` with
    sorted keys, compact separators and non-ASCII characters kept. The module also gives a
    reader for the text, which the source has no need of, as the reference the printer is
    proved against. */
module CanonicalJson {
  import opened JsonValue
  import opened PyText
  import opened Sorting

  const MAX_DEPTH := 64

  predicate KeyLe(a: Member, b: Member) { StrLe(a.key, b.key) }

  function CanonWalk(j: Json, depth: nat): Option<Json>
    decreases j
  {
    if depth > MAX_DEPTH then None
    else match j
      case Arr(items) => var r :- CanonItems(items, depth + 1); Some(Arr(r))
      case Obj(ms) => var r :- CanonMembers(ms, depth + 1); Some(Obj(Sort(r, KeyLe)))
      case _ => Some(j)
  }

  function CanonItems(items: seq<Json>, depth: nat): Option<seq<Json>>
    decreases items
  {
    if items == [] then Some([])
    else
      var x :- CanonWalk(items[0], depth);
      var xs :- CanonItems(items[1..], depth);
      Some([x] + xs)
  }

  function CanonMembers(ms: seq<Member>, depth: nat): (r: Option<seq<Member>>)
    decreases ms
  {
    if ms == [] then Some([])
    else
      var x :- CanonWalk(ms[0].value, depth);
      var xs :- CanonMembers(ms[1..], depth);
      Some([Member(ms[0].key, x)] + xs)
  }

  // ----- json.dumps -----

  function HexDigit(n: nat): char
    requires n < 16
  {
    if n < 10 then ('0' as int + n) as char else ('a' as int + n - 10) as char
  }

  function EscapeChar(c: char): string {
    match c
    case '\"' => "\\\""
    case '\\' => "\\\\"
    case '\n' => "\\n"
    case '\r' => "\\r"
    case '\t' => "\\t"
    case _ =>
      var n := c as int;
      if n == 8 then "\\b" else if n == 12 then "\\f"
      else if n < 32 then "\\u00" + [HexDigit(n / 16), HexDigit(n % 16)]
      else [c]
  }

  /** A character stands for itself unless it is the quote, the backslash or a control character; of
      these seven have a letter and the others four hexadecimal digits. */
  lemma EscapeCharExactly(c: char)
    ensures c != '"' && c != '\\' && c as int >= 32 ==> EscapeChar(c) == [c]
    ensures c == '"' || c == '\\' ==> EscapeChar(c) == ['\\', c]
    ensures c as int == 8 ==> EscapeChar(c) == ['\\', 'b']
    ensures c as int == 9 ==> EscapeChar(c) == ['\\', 't']
    ensures c as int == 10 ==> EscapeChar(c) == ['\\', 'n']
    ensures c as int == 12 ==> EscapeChar(c) == ['\\', 'f']
    ensures c as int == 13 ==> EscapeChar(c) == ['\\', 'r']
    ensures c as int < 32 && c as int !in {8, 9, 10, 12, 13} ==>
      exists d: char :: EscapeChar(c) == ['\\', 'u', '0', '0', if c as int < 16 then '0' else '1', d]
                        && ReadHex(d) == Some(c as int % 16)
  {
    if c as int < 32 && c as int !in {8, 9, 10, 12, 13} {
      var d := HexDigit(c as int % 16);
      assert EscapeChar(c) == ['\\', 'u', '0', '0', if c as int < 16 then '0' else '1', d];
      assert ReadHex(d) == Some(c as int % 16);
    }
  }

  function EscapeText(s: string): string {
    if s == [] then [] else EscapeChar(s[0]) + EscapeText(s[1..])
  }

  function Quote(s: string): string { "\"" + EscapeText(s) + "\"" }

  /** One printed dict item. */
  datatype Field = Field(key: string, text: string)

  predicate FieldLe(a: Field, b: Field) { StrLe(a.key, b.key) }

  function Dumps(j: Json): string
    decreases j
  {
    match j
    case Null => "null"
    case Bool(b) => if b then "true" else "false"
    case Int(n) => IntText(n)
    case Str(s) => Quote(s)
    case Arr(items) => "[" + DumpItems(items) + "]"
    case Obj(ms) => "{" + JoinFields(Sort(DumpFields(ms), FieldLe)) + "}"
  }

  function DumpItems(items: seq<Json>): string
    decreases items
  {
    if items == [] then ""
    else Dumps(items[0]) + (if |items| == 1 then "" else "," + DumpItems(items[1..]))
  }

  function DumpFields(ms: seq<Member>): (r: seq<Field>)
    ensures |r| == |ms|
    ensures forall i :: 0 <= i < |ms| ==> r[i] == Field(ms[i].key, Dumps(ms[i].value))
    decreases ms
  {
    if ms == [] then [] else [Field(ms[0].key, Dumps(ms[0].value))] + DumpFields(ms[1..])
  }

  function JoinFields(fs: seq<Field>): string {
    if fs == [] then ""
    else
      Quote(fs[0].key) + ":" + fs[0].text
      + (if |fs| == 1 then "" else "," + JoinFields(fs[1..]))
  }

  function Canonical(j: Json): Option<string> {
    var w :- CanonWalk(j, 0);
    Some(Dumps(w))
  }

  // ----- the depth limit -----

  /** Nesting levels below the root; a container without elements adds none. */
  function Height(j: Json): nat
    decreases j
  {
    match j
    case Arr(items) => ItemsHeight(items)
    case Obj(ms) => MembersHeight(ms)
    case _ => 0
  }

  function Max(a: nat, b: nat): nat { if a < b then b else a }

  function ItemsHeight(items: seq<Json>): nat
    decreases items
  {
    if items == [] then 0 else Max(1 + Height(items[0]), ItemsHeight(items[1..]))
  }

  function MembersHeight(ms: seq<Member>): nat
    decreases ms
  {
    if ms == [] then 0 else Max(1 + Height(ms[0].value), MembersHeight(ms[1..]))
  }

  lemma {:induction false} WalkSucceeds(j: Json, depth: nat)
    ensures CanonWalk(j, depth).Some? <==> depth + Height(j) <= MAX_DEPTH
    decreases j
  {
    hide CanonItems, CanonMembers, ItemsHeight, MembersHeight;
    match j
    case Arr(items) => if depth <= MAX_DEPTH { ItemsSucceed(items, depth + 1); }
    case Obj(ms) => if depth <= MAX_DEPTH { MembersSucceed(ms, depth + 1); }
    case _ =>
  }

  lemma {:induction false} ItemsSucceed(items: seq<Json>, depth: nat)
    requires 1 <= depth <= MAX_DEPTH + 1
    ensures CanonItems(items, depth).Some? <==> depth - 1 + ItemsHeight(items) <= MAX_DEPTH
    decreases items
  {
    if items != [] {
      WalkSucceeds(items[0], depth);
      ItemsSucceed(items[1..], depth);
    }
  }

  lemma {:induction false} MembersSucceed(ms: seq<Member>, depth: nat)
    requires 1 <= depth <= MAX_DEPTH + 1
    ensures CanonMembers(ms, depth).Some? <==> depth - 1 + MembersHeight(ms) <= MAX_DEPTH
    decreases ms
  {
    if ms != [] {
      WalkSucceeds(ms[0].value, depth);
      MembersSucceed(ms[1..], depth);
    }
  }

  /** Text is produced exactly for values nested at most 64 levels deep. */
  lemma CanonicalDefined(j: Json)
    ensures Canonical(j).Some? <==> Height(j) <= MAX_DEPTH
  {
    WalkSucceeds(j, 0);
  }

  // ----- what the walk produces -----

  ghost predicate Strict(ms: seq<Member>) {
    forall i, j :: 0 <= i < j < |ms| ==> KeyLe(ms[i], ms[j]) && ms[i].key != ms[j].key
  }

  /** Keys strictly increasing at every level. */
  ghost predicate IsCanonical(j: Json)
    decreases j
  {
    match j
    case Arr(items) => forall i :: 0 <= i < |items| ==> IsCanonical(items[i])
    case Obj(ms) => Strict(ms) && forall i :: 0 <= i < |ms| ==> IsCanonical(ms[i].value)
    case _ => true
  }

  lemma {:induction false} KeyIndex(ms: seq<Member>, k: string)
    ensures HasKey(ms, k) <==> exists i :: 0 <= i < |ms| && ms[i].key == k
  {
    if ms != [] {
      KeyIndex(ms[1..], k);
      if HasKey(ms[1..], k) {
        var i :| 0 <= i < |ms[1..]| && ms[1..][i].key == k;
        assert ms[i + 1].key == k;
      }
      if i :| 0 <= i < |ms| && ms[i].key == k {
        if i > 0 { assert ms[1..][i - 1].key == k; }
      }
    }
  }

  lemma {:induction false} DistinctIndex(ms: seq<Member>)
    ensures DistinctKeys(ms) <==> forall i, j :: 0 <= i < j < |ms| ==> ms[i].key != ms[j].key
  {
    if ms != [] {
      DistinctIndex(ms[1..]);
      KeyIndex(ms[1..], ms[0].key);
      assert forall i :: 0 <= i < |ms[1..]| ==> ms[1..][i] == ms[i + 1];
      if DistinctKeys(ms) {
        forall i, j | 0 <= i < j < |ms| ensures ms[i].key != ms[j].key {
          assert ms[1..][j - 1] == ms[j];
          if i > 0 { assert ms[1..][i - 1] == ms[i]; }
        }
      } else if HasKey(ms[1..], ms[0].key) {
        var i :| 0 <= i < |ms[1..]| && ms[1..][i].key == ms[0].key;
        assert ms[0].key == ms[i + 1].key;
      } else {
        var i, j :| 0 <= i < j < |ms[1..]| && ms[1..][i].key == ms[1..][j].key;
        assert ms[i + 1].key == ms[j + 1].key;
      }
    }
  }

  lemma KeyLePreorder()
    ensures Preorder(KeyLe) && Preorder(FieldLe)
  {
    StrLeByKeyIsPreorder((m: Member) => m.key, KeyLe);
    StrLeByKeyIsPreorder((f: Field) => f.key, FieldLe);
  }

  /** A rearrangement of a dict's items has the same keys, each once, with the same values. */
  lemma RearrangedMembers(ms: seq<Member>, r: seq<Member>)
    requires DistinctKeys(ms) && multiset(r) == multiset(ms)
    ensures DistinctKeys(r) && AbsMembers(r) == AbsMembers(ms)
  {
    RearrangedKeys(ms, r);
    hide DistinctKeys;
    forall k ensures HasKey(r, k) <==> HasKey(ms, k) {
      if HasKey(r, k) { var m := SharedMember(r, ms, k); }
      if HasKey(ms, k) { var m := SharedMember(ms, r, k); }
    }
    forall k | k in AbsMembers(ms) ensures AbsMembers(r)[k] == AbsMembers(ms)[k] {
      var m := SharedMember(ms, r, k);
    }
  }

  lemma RearrangedKeys(ms: seq<Member>, r: seq<Member>)
    requires DistinctKeys(ms) && multiset(r) == multiset(ms)
    ensures DistinctKeys(r)
  {
    DistinctIndex(ms);
    DistinctIndex(r);
    NoRepeatsCount(ms);
    NoRepeatsCount(r);
    forall i, j | 0 <= i < j < |r| ensures r[i].key != r[j].key {
      SameKeySameMember(ms, r[i], r[j]);
    }
  }

  lemma SameKeySameMember(ms: seq<Member>, m: Member, n: Member)
    requires DistinctKeys(ms) && m in multiset(ms) && n in multiset(ms)
    ensures m.key == n.key ==> m == n
  {
    DistinctIndex(ms);
    var a :| 0 <= a < |ms| && ms[a] == m;
    var b :| 0 <= b < |ms| && ms[b] == n;
  }

  lemma SharedMember(ms: seq<Member>, r: seq<Member>, k: string) returns (m: Member)
    requires DistinctKeys(ms) && multiset(r) == multiset(ms) && HasKey(ms, k)
    ensures m.key == k && AbsMembers(ms)[k] == Abs(m.value)
    ensures HasKey(r, k)
    ensures DistinctKeys(r) ==> AbsMembers(r)[k] == Abs(m.value)
  {
    m := KeyHasMember(ms, k);
    MemberDenoted(ms, m);
    assert m in multiset(r);
    var i :| 0 <= i < |r| && r[i] == m;
    KeyIndex(r, k);
    if DistinctKeys(r) { MemberDenoted(r, m); }
  }

  /** Sorting a dict's items by key keeps the dict and makes the keys strictly increasing. */
  lemma SortMembers(ms: seq<Member>)
    requires DistinctKeys(ms)
    ensures var r := Sort(ms, KeyLe); Strict(r) && DistinctKeys(r) && AbsMembers(r) == AbsMembers(ms)
  {
    KeyLePreorder();
    SortOrdered(ms, KeyLe);
    RearrangedMembers(ms, Sort(ms, KeyLe));
    DistinctIndex(Sort(ms, KeyLe));
  }

  /** The walk keeps the value and puts every level into key order. */
  lemma {:induction false} WalkKeepsValue(j: Json, depth: nat)
    requires WellFormed(j) && CanonWalk(j, depth).Some?
    ensures var w := CanonWalk(j, depth).value;
      IsCanonical(w) && WellFormed(w) && Abs(w) == Abs(j)
    decreases j
  {
    match j
    case Arr(items) => WalkKeepsItems(items, depth + 1);
    case Obj(ms) =>
      WalkKeepsMembers(ms, depth + 1);
      var r := CanonMembers(ms, depth + 1).value;
      SortMembers(r);
      forall i | 0 <= i < |Sort(r, KeyLe)|
        ensures IsCanonical(Sort(r, KeyLe)[i].value) && WellFormed(Sort(r, KeyLe)[i].value)
      {
        assert Sort(r, KeyLe)[i] in multiset(r);
      }
    case _ =>
  }

  lemma {:induction false} WalkKeepsItems(items: seq<Json>, depth: nat)
    requires forall i :: 0 <= i < |items| ==> WellFormed(items[i])
    requires CanonItems(items, depth).Some?
    ensures var r := CanonItems(items, depth).value;
      && (forall i :: 0 <= i < |r| ==> IsCanonical(r[i]) && WellFormed(r[i]))
      && AbsItems(r) == AbsItems(items)
    decreases items
  {
    if items != [] {
      WalkKeepsValue(items[0], depth);
      WalkKeepsItems(items[1..], depth);
    }
  }

  lemma {:induction false} WalkKeepsMembers(ms: seq<Member>, depth: nat)
    requires forall i :: 0 <= i < |ms| ==> WellFormed(ms[i].value)
    requires CanonMembers(ms, depth).Some?
    ensures var r := CanonMembers(ms, depth).value;
      && (forall i :: 0 <= i < |r| ==> IsCanonical(r[i].value) && WellFormed(r[i].value))
      && AbsMembers(r) == AbsMembers(ms)
      && (DistinctKeys(ms) ==> DistinctKeys(r))
    decreases ms
  {
    if ms != [] {
      WalkKeepsValue(ms[0].value, depth);
      WalkKeepsMembers(ms[1..], depth);
      var r := CanonMembers(ms, depth).value;
      assert r[1..] == CanonMembers(ms[1..], depth).value;
    }
  }

  /** In canonical form, equal values are equal trees. */
  lemma {:induction false} CanonicalUnique(a: Json, b: Json)
    requires IsCanonical(a) && IsCanonical(b) && Abs(a) == Abs(b)
    ensures a == b
    decreases a
  {
    match a
    case Arr(items) =>
      forall i | 0 <= i < |items| ensures items[i] == b.items[i] {
        assert AbsItems(items)[i] == AbsItems(b.items)[i];
        CanonicalUnique(items[i], b.items[i]);
      }
      assert |items| == |AbsItems(items)|;
    case Obj(ms) => CanonicalMembersUnique(ms, b.members);
    case _ =>
  }

  lemma {:induction false} CanonicalMembersUnique(ms: seq<Member>, ns: seq<Member>)
    requires Strict(ms) && Strict(ns)
    requires forall i :: 0 <= i < |ms| ==> IsCanonical(ms[i].value)
    requires forall i :: 0 <= i < |ns| ==> IsCanonical(ns[i].value)
    requires AbsMembers(ms) == AbsMembers(ns)
    ensures ms == ns
    decreases ms
  {
    if ms != [] || ns != [] {
      SameFirstKey(ms, ns);
      StrictTail(ms);
      StrictTail(ns);
      CanonicalUnique(ms[0].value, ns[0].value);
      CanonicalMembersUnique(ms[1..], ns[1..]);
      assert ms == [ms[0]] + ms[1..] && ns == [ns[0]] + ns[1..];
    }
  }

  lemma SameFirstKey(ms: seq<Member>, ns: seq<Member>)
    requires Strict(ms) && Strict(ns) && (ms != [] || ns != [])
    requires AbsMembers(ms) == AbsMembers(ns)
    ensures ms != [] && ns != [] && ms[0].key == ns[0].key
  {
    assert ms != [] ==> ms[0].key in AbsMembers(ns);
    assert ns != [] ==> ns[0].key in AbsMembers(ms);
    KeyIndex(ms, ns[0].key);
    KeyIndex(ns, ms[0].key);
    var i :| 0 <= i < |ms| && ms[i].key == ns[0].key;
    var j :| 0 <= j < |ns| && ns[j].key == ms[0].key;
    if i > 0 && j > 0 { StrLeAntisymmetric(ms[0].key, ns[0].key); }
  }

  lemma StrictTail(ms: seq<Member>)
    requires Strict(ms) && ms != []
    requires forall i :: 0 <= i < |ms| ==> IsCanonical(ms[i].value)
    ensures Strict(ms[1..]) && forall i :: 0 <= i < |ms[1..]| ==> IsCanonical(ms[1..][i].value)
    ensures AbsMembers(ms)[ms[0].key] == Abs(ms[0].value)
    ensures AbsMembers(ms[1..]) == AbsMembers(ms) - {ms[0].key}
  {
    KeyIndex(ms[1..], ms[0].key);
    assert forall x :: 0 <= x < |ms[1..]| ==> ms[1..][x] == ms[x + 1];
    HeadRemoved(ms[0].key, Abs(ms[0].value), AbsMembers(ms[1..]));
  }

  lemma HeadRemoved(k: string, v: Value, m: map<string, Value>)
    requires k !in m
    ensures (map[k := v] + m) - {k} == m && (map[k := v] + m)[k] == v
  {}

  // ----- reading the text back -----

  function ReadHex(c: char): Option<nat> {
    if '0' <= c <= '9' then Some(c as int - '0' as int)
    else if 'a' <= c <= 'f' then Some(c as int - 'a' as int + 10)
    else None
  }

  /** Reads string contents up to the closing quote. */
  function ReadChars(s: string): (r: Option<(string, string)>)
    ensures r.Some? ==> |r.value.1| < |s|
  {
    if s == [] then None
    else if s[0] == '\"' then Some(([], s[1..]))
    else if s[0] != '\\' then var (x, rest) :- ReadChars(s[1..]); Some(([s[0]] + x, rest))
    else if |s| == 1 then None
    else if s[1] == 'u' then
      if |s| < 6 then None
      else
        var a :- ReadHex(s[4]);
        var b :- ReadHex(s[5]);
        var (x, rest) :- ReadChars(s[6..]);
        Some(([(16 * a + b) as char] + x, rest))
    else
      var (x, rest) :- ReadChars(s[2..]);
      var c := match s[1]
        case 'n' => '\n' case 'r' => '\r' case 't' => '\t'
        case 'b' => 8 as char case 'f' => 12 as char case c => c;
      Some(([c] + x, rest))
  }

  function TakeDigits(s: string): (r: string)
    ensures r <= s && AllDigits(r)
  {
    if s != [] && IsDigit(s[0]) then [s[0]] + TakeDigits(s[1..]) else []
  }

  function Signed(n: int, negative: bool): int { if negative then -n else n }

  function ReadNat(s: string, negative: bool): (r: Option<(Json, string)>)
    ensures r.Some? ==> |r.value.1| < |s|
  {
    var d := TakeDigits(s);
    if d == [] then None
    else
      Some((Int(Signed(DigitsValue(d), negative)), s[|d|..]))
  }

  function ReadInt(s: string): (r: Option<(Json, string)>)
    ensures r.Some? ==> |r.value.1| < |s|
  {
    if s != [] && s[0] == '-' then ReadNat(s[1..], true) else ReadNat(s, false)
  }

  function ReadWord(s: string, word: string, j: Json): (r: Option<(Json, string)>)
    requires word != []
    ensures r.Some? ==> |r.value.1| < |s|
  {
    if word <= s then Some((j, s[|word|..])) else None
  }

  function Read(s: string): (r: Option<(Json, string)>)
    ensures r.Some? ==> |r.value.1| < |s|
    decreases |s|, 1
  {
    if s == [] then None
    else match s[0]
      case 'n' => ReadWord(s, "null", Null)
      case 't' => ReadWord(s, "true", Bool(true))
      case 'f' => ReadWord(s, "false", Bool(false))
      case '\"' => var (x, rest) :- ReadChars(s[1..]); Some((Str(x), rest))
      case '[' =>
        if |s| > 1 && s[1] == ']' then Some((Arr([]), s[2..]))
        else var (xs, rest) :- ReadItems(s[1..]); Some((Arr(xs), rest))
      case '{' =>
        if |s| > 1 && s[1] == '}' then Some((Obj([]), s[2..]))
        else var (ms, rest) :- ReadMembers(s[1..]); Some((Obj(ms), rest))
      case _ => ReadInt(s)
  }

  function ReadItems(s: string): (r: Option<(seq<Json>, string)>)
    ensures r.Some? ==> |r.value.1| < |s|
    decreases |s|, 2
  {
    var (x, t) :- Read(s);
    if t == [] then None
    else if t[0] == ']' then Some(([x], t[1..]))
    else if t[0] == ',' then var (xs, rest) :- ReadItems(t[1..]); Some(([x] + xs, rest))
    else None
  }

  function ReadMembers(s: string): (r: Option<(seq<Member>, string)>)
    ensures r.Some? ==> |r.value.1| < |s|
    decreases |s|, 2
  {
    if s == [] || s[0] != '\"' then None
    else
      var (k, t) :- ReadChars(s[1..]);
      if t == [] || t[0] != ':' then None
      else
        var (x, u) :- Read(t[1..]);
        if u == [] then None
        else if u[0] == '}' then Some(([Member(k, x)], u[1..]))
        else if u[0] == ',' then
          var (ms, rest) :- ReadMembers(u[1..]);
          Some(([Member(k, x)] + ms, rest))
        else None
  }

  lemma Assoc(a: string, b: string, c: string, d: string)
    ensures a + b + c == a + (b + c) && a + b + c + d == a + (b + c + d)
    ensures a + (b + c) + d == a + (b + (c + d)) && a + b + c + d == a + b + (c + d)
  {}

  lemma {:induction false} ReadEscaped(s: string, rest: string)
    ensures ReadChars(EscapeText(s) + "\"" + rest) == Some((s, rest))
  {
    if s == [] {
      assert EscapeText(s) + "\"" + rest == "\"" + rest;
    } else {
      ReadEscaped(s[1..], rest);
      Assoc(EscapeChar(s[0]), EscapeText(s[1..]), "\"", rest);
      ReadEscapedChar(s[0], EscapeText(s[1..]) + "\"" + rest, s[1..], rest);
      assert [s[0]] + s[1..] == s;
    }
  }

  lemma ReadEscapedChar(c: char, t: string, s: string, rest: string)
    requires ReadChars(t) == Some((s, rest))
    ensures ReadChars(EscapeChar(c) + t) == Some(([c] + s, rest))
  {
    var e := EscapeChar(c);
    assert (e + t)[|e|..] == t;
    if |e| == 6 {
      HexRoundTrip(c as int);
      assert (e + t)[4] == HexDigit(c as int / 16) && (e + t)[5] == HexDigit(c as int % 16);
    } else if |e| == 2 {
      assert (e + t)[0] == '\\' && (e + t)[1] == e[1];
    } else {
      assert (e + t)[0] == c;
    }
  }

  lemma HexRoundTrip(n: nat)
    requires n < 256
    ensures ReadHex(HexDigit(n / 16)) == Some(n / 16) && ReadHex(HexDigit(n % 16)) == Some(n % 16)
    ensures 16 * (n / 16) + n % 16 == n
  {}

  lemma {:induction false} TakeAllDigits(d: string, rest: string)
    requires AllDigits(d) && (rest == [] || !IsDigit(rest[0]))
    ensures TakeDigits(d + rest) == d
  {
    if d == [] {
      assert d + rest == rest;
    } else {
      assert (d + rest)[1..] == d[1..] + rest;
      TakeAllDigits(d[1..], rest);
      assert [d[0]] + d[1..] == d;
    }
  }

  lemma ReadDigits(n: nat, rest: string, negative: bool)
    requires rest == [] || !IsDigit(rest[0])
    ensures ReadNat(Decimal(n) + rest, negative) == Some((Int(Signed(n, negative)), rest))
  {
    var d := Decimal(n);
    TakeAllDigits(d, rest);
    DecimalValue(n);
    assert (d + rest)[|d|..] == rest;
  }

  lemma ReadPrintedInt(n: int, rest: string)
    requires rest == [] || !IsDigit(rest[0])
    ensures Read(IntText(n) + rest) == Some((Int(n), rest))
  {
    hide Read, ReadNat, Decimal;
    if n < 0 {
      ReadDigits(-n, rest, true);
      var d := Decimal(-n);
      ReadSigned(d, rest);
    } else {
      ReadDigits(n, rest, false);
      ReadUnsigned(Decimal(n), rest);
    }
  }

  lemma ReadSigned(d: string, rest: string)
    ensures Read(['-'] + d + rest) == ReadNat(d + rest, true)
  {
    assert (['-'] + d + rest)[1..] == d + rest;
  }

  lemma ReadUnsigned(d: string, rest: string)
    requires d != [] && IsDigit(d[0])
    ensures Read(d + rest) == ReadNat(d + rest, false)
  {
    hide ReadWord, ReadChars, ReadItems, ReadMembers, ReadNat;
    assert (d + rest)[0] == d[0];
  }

  lemma SortedFields(ms: seq<Member>)
    requires Strict(ms)
    ensures Sort(DumpFields(ms), FieldLe) == DumpFields(ms)
  {
    var fs := DumpFields(ms);
    FieldsOrdered(ms);
    KeyLePreorder();
    hide DumpFields, FieldLe, Ordered;
    SortOrdered(fs, FieldLe);
    hide Sort;
    OrderedUnique(fs, Sort(fs, FieldLe), FieldLe);
  }

  lemma FieldsOrdered(ms: seq<Member>)
    requires Strict(ms)
    ensures Ordered(DumpFields(ms), FieldLe) && AntisymmetricOn(FieldLe, DumpFields(ms))
  {
    var fs := DumpFields(ms);
    forall x, y | x in fs && y in fs && FieldLe(x, y) && FieldLe(y, x) ensures x == y {
      StrLeAntisymmetric(x.key, y.key);
    }
    forall i, j | 0 <= i < j < |fs| ensures FieldLe(fs[i], fs[j]) { assert KeyLe(ms[i], ms[j]); }
  }

  lemma ReadQuoted(x: string, rest: string)
    ensures Read(Quote(x) + rest) == Some((Str(x), rest))
  {
    hide ReadWord, ReadChars, ReadItems, ReadMembers, ReadInt, EscapeText;
    ReadEscaped(x, rest);
    Assoc("\"", EscapeText(x), "\"", rest);
    var s := Quote(x) + rest;
    assert s[1..] == EscapeText(x) + "\"" + rest;
  }

  lemma ReadWords(rest: string)
    ensures Read("null" + rest) == Some((Null, rest))
    ensures Read("true" + rest) == Some((Bool(true), rest))
    ensures Read("false" + rest) == Some((Bool(false), rest))
    ensures Read("[]" + rest) == Some((Arr([]), rest))
    ensures Read("{}" + rest) == Some((Obj([]), rest))
  {
    assert ("null" + rest)[4..] == rest;
    assert ("true" + rest)[4..] == rest;
    assert ("false" + rest)[5..] == rest;
    assert ("[]" + rest)[2..] == rest;
    assert ("{}" + rest)[2..] == rest;
  }

  lemma ReadBracketed(d: string, items: seq<Json>, rest: string)
    requires d != [] && d[0] != ']' && ReadItems(d + "]" + rest) == Some((items, rest))
    ensures Read("[" + d + "]" + rest) == Some((Arr(items), rest))
  {
    hide ReadWord, ReadChars, ReadItems, ReadMembers, ReadInt;
    var s := "[" + d + "]" + rest;
    assert s[1..] == d + "]" + rest;
  }

  lemma ReadBraced(d: string, ms: seq<Member>, rest: string)
    requires d != [] && d[0] == '\"' && ReadMembers(d + "}" + rest) == Some((ms, rest))
    ensures Read("{" + d + "}" + rest) == Some((Obj(ms), rest))
  {
    hide ReadWord, ReadChars, ReadItems, ReadMembers, ReadInt;
    var s := "{" + d + "}" + rest;
    assert s[1..] == d + "}" + rest;
  }

  lemma ReadLastItem(d: string, x: Json, rest: string)
    requires Read(d + ("]" + rest)) == Some((x, "]" + rest))
    ensures ReadItems(d + "]" + rest) == Some(([x], rest))
  {
    Assoc(d, "]", rest, "");
  }

  lemma ReadNextItem(d: string, x: Json, e: string, xs: seq<Json>, rest: string)
    requires Read(d + ("," + (e + "]" + rest))) == Some((x, "," + (e + "]" + rest)))
    requires ReadItems(e + "]" + rest) == Some((xs, rest))
    ensures ReadItems(d + ("," + e) + "]" + rest) == Some(([x] + xs, rest))
  {
    var t := e + "]" + rest;
    assert d + ("," + e) + "]" + rest == d + ("," + t);
    assert ("," + t)[1..] == t;
  }

  lemma ReadKey(k: string, u: string)
    ensures var s := Quote(k) + (":" + u);
      s[0] == '\"' && ReadChars(s[1..]) == Some((k, ":" + u))
  {
    ReadEscaped(k, ":" + u);
    assert (Quote(k) + (":" + u))[1..] == EscapeText(k) + "\"" + (":" + u);
  }

  lemma ReadNextMember(k: string, d: string, x: Json, e: string, ms: seq<Member>, rest: string)
    requires Read(d + ("," + (e + "}" + rest))) == Some((x, "," + (e + "}" + rest)))
    requires ReadMembers(e + "}" + rest) == Some((ms, rest))
    ensures ReadMembers(Quote(k) + ":" + d + ("," + e) + "}" + rest)
         == Some(([Member(k, x)] + ms, rest))
  {
    var t := e + "}" + rest;
    var u := d + ("," + t);
    ReadKey(k, u);
    Regroup(Quote(k), ":", d, e, rest);
    NextMember(Quote(k) + (":" + u), k, u, x, t);
  }

  lemma ReadLastMember(k: string, d: string, x: Json, rest: string)
    requires Read(d + ("}" + rest)) == Some((x, "}" + rest))
    ensures ReadMembers(Quote(k) + ":" + d + "}" + rest) == Some(([Member(k, x)], rest))
  {
    var u := d + ("}" + rest);
    ReadKey(k, u);
    Assoc(Quote(k) + ":", d, "}", rest);
    Assoc(Quote(k), ":", u, "");
    assert (":" + u)[1..] == u;
  }

  lemma Regroup(a: string, b: string, c: string, d: string, rest: string)
    ensures a + b + c + ("," + d) + "}" + rest == a + (b + (c + ("," + (d + "}" + rest))))
  {}

  lemma NextMember(s: string, k: string, u: string, x: Json, t: string)
    requires s != [] && s[0] == '\"' && ReadChars(s[1..]) == Some((k, ":" + u))
    requires Read(u) == Some((x, "," + t)) && ReadMembers(t).Some?
    ensures ReadMembers(s) == Some(([Member(k, x)] + ReadMembers(t).value.0, ReadMembers(t).value.1))
  {
    assert (":" + u)[1..] == u;
    assert ("," + t)[1..] == t;
  }

  /** The reader inverts the printer on canonical trees, whatever non-digit follows. */
  lemma {:induction false} ReadDumped(j: Json, rest: string)
    requires IsCanonical(j) && (rest == [] || !IsDigit(rest[0]))
    ensures Read(Dumps(j) + rest) == Some((j, rest))
    decreases j
  {
    match j
    case Int(n) => ReadPrintedInt(n, rest);
    case Str(x) => ReadQuoted(x, rest);
    case Arr(items) => ReadDumpedArr(items, rest);
    case Obj(ms) => ReadDumpedObj(ms, rest);
    case _ => ReadWords(rest);
  }

  lemma {:induction false} ReadDumpedArr(items: seq<Json>, rest: string)
    requires forall i :: 0 <= i < |items| ==> IsCanonical(items[i])
    ensures Read("[" + DumpItems(items) + "]" + rest) == Some((Arr(items), rest))
    decreases items, 1
  {
    if items == [] {
      ReadWords(rest);
      assert "[" + DumpItems(items) + "]" == "[]";
    } else {
      ReadDumpedItems(items, rest);
      FirstChar(items[0]);
      ReadBracketed(DumpItems(items), items, rest);
    }
  }

  lemma {:induction false} ReadDumpedObj(ms: seq<Member>, rest: string)
    requires Strict(ms) && forall i :: 0 <= i < |ms| ==> IsCanonical(ms[i].value)
    ensures Read("{" + JoinFields(Sort(DumpFields(ms), FieldLe)) + "}" + rest) == Some((Obj(ms), rest))
    decreases ms, 1
  {
    SortedFields(ms);
    var d := JoinFields(DumpFields(ms));
    if ms == [] {
      ReadWords(rest);
      assert "{" + d + "}" == "{}";
    } else {
      ReadDumpedMembers(ms, rest);
      FieldsStart(DumpFields(ms));
      ReadBraced(d, ms, rest);
    }
  }

  lemma FieldsStart(fs: seq<Field>)
    requires fs != []
    ensures JoinFields(fs) != [] && JoinFields(fs)[0] == '\"'
  {
    assert Quote(fs[0].key)[0] == '\"';
  }

  /** No printed value starts with a closing bracket. */
  lemma FirstChar(j: Json)
    ensures Dumps(j) != [] && Dumps(j)[0] != ']'
  {
    if j.Int? { assert j.n >= 0 ==> IsDigit(Decimal(j.n)[0]); }
  }

  lemma {:induction false} ReadDumpedItems(items: seq<Json>, rest: string)
    requires items != [] && forall i :: 0 <= i < |items| ==> IsCanonical(items[i])
    ensures ReadItems(DumpItems(items) + "]" + rest) == Some((items, rest))
    decreases items, 0
  {
    if |items| == 1 {
      ReadDumped(items[0], "]" + rest);
      ReadLastItem(Dumps(items[0]), items[0], rest);
      assert items == [items[0]];
      assert DumpItems(items) == Dumps(items[0]);
    } else {
      ReadDumped(items[0], "," + (DumpItems(items[1..]) + "]" + rest));
      ReadDumpedItems(items[1..], rest);
      ReadNextItem(Dumps(items[0]), items[0], DumpItems(items[1..]), items[1..], rest);
      assert items == [items[0]] + items[1..];
    }
  }

  lemma {:induction false} ReadDumpedMembers(ms: seq<Member>, rest: string)
    requires ms != [] && forall i :: 0 <= i < |ms| ==> IsCanonical(ms[i].value)
    ensures ReadMembers(JoinFields(DumpFields(ms)) + "}" + rest) == Some((ms, rest))
    decreases ms, 0
  {
    var m, fs := ms[0], DumpFields(ms);
    if |ms| == 1 {
      ReadDumped(m.value, "}" + rest);
      ReadLastMember(m.key, fs[0].text, m.value, rest);
      assert ms == [m];
      assert JoinFields(fs) == Quote(m.key) + ":" + fs[0].text;
    } else {
      var e := JoinFields(DumpFields(ms[1..]));
      ReadDumped(m.value, "," + (e + "}" + rest));
      ReadDumpedMembers(ms[1..], rest);
      ReadNextMember(m.key, fs[0].text, m.value, e, ms[1..], rest);
      assert ms == [m] + ms[1..];
      assert fs[1..] == DumpFields(ms[1..]);
    }
  }

  // ----- the canonical text as a name for the value -----

  /** The canonical text can be read back, and reading it gives an equal value. */
  lemma CanonicalTextReadBack(j: Json)
    requires WellFormed(j) && Height(j) <= MAX_DEPTH
    ensures var t := Canonical(j);
      && t.Some? && Read(t.value).Some? && Read(t.value).value.1 == ""
      && Abs(Read(t.value).value.0) == Abs(j)
  {
    WalkSucceeds(j, 0);
    WalkKeepsValue(j, 0);
    var w := CanonWalk(j, 0).value;
    ReadDumped(w, "");
    assert Dumps(w) + "" == Dumps(w);
  }

  /** Two values have the same canonical text exactly when they are equal: the text tells all
      unequal values apart and never depends on the insertion order of any dict. */
  lemma CanonicalTextIffEqual(a: Json, b: Json)
    requires WellFormed(a) && WellFormed(b)
    requires Height(a) <= MAX_DEPTH && Height(b) <= MAX_DEPTH
    ensures Canonical(a) == Canonical(b) <==> Abs(a) == Abs(b)
  {
    CanonicalTextReadBack(a);
    CanonicalTextReadBack(b);
    if Abs(a) == Abs(b) {
      WalkKeepsValue(a, 0);
      WalkKeepsValue(b, 0);
      CanonicalUnique(CanonWalk(a, 0).value, CanonWalk(b, 0).value);
    }
  }
}
