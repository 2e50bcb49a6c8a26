/** Parsed JSON as Python holds it: a dict keeps the insertion order of its members. Numbers are
    integers only. */
module JsonValue {

  /** A missing result, or the exception a `try` in the source turns into one. */
  datatype Option<+T> = None | Some(value: T) {
    predicate IsFailure() { None? }
    function PropagateFailure<U>(): Option<U> requires None? { None }
    function Extract(): T requires Some? { value }
  }

  datatype Json =
    | Null
    | Bool(b: bool)
    | Int(n: int)
    | Str(s: string)
    | Arr(items: seq<Json>)
    | Obj(members: seq<Member>)

  datatype Member = Member(key: string, value: Json)

  predicate HasKey(ms: seq<Member>, k: string) {
    ms != [] && (ms[0].key == k || HasKey(ms[1..], k))
  }

  predicate DistinctKeys(ms: seq<Member>) {
    ms == [] || (!HasKey(ms[1..], ms[0].key) && DistinctKeys(ms[1..]))
  }

  /** A Python dict has each key once, at every level. */
  ghost predicate WellFormed(j: Json)
    decreases j
  {
    match j
    case Arr(items) => forall i :: 0 <= i < |items| ==> WellFormed(items[i])
    case Obj(ms) => DistinctKeys(ms) && forall i :: 0 <= i < |ms| ==> WellFormed(ms[i].value)
    case _ => true
  }

  /** `d.get(k)`: a missing key and an explicit null look the same. */
  function Lookup(ms: seq<Member>, k: string): Json {
    if ms == [] then Null else if ms[0].key == k then ms[0].value else Lookup(ms[1..], k)
  }

  function Get(j: Json, k: string): Json {
    if j.Obj? then Lookup(j.members, k) else Null
  }

  /** `d[k] = v`: replaces in place, or appends a new key. */
  function Put(ms: seq<Member>, k: string, v: Json): seq<Member> {
    if ms == [] then [Member(k, v)]
    else if ms[0].key == k then [Member(k, v)] + ms[1..]
    else [ms[0]] + Put(ms[1..], k, v)
  }

  /** The value a dict denotes for `==`: members by key, whatever their order. */
  datatype Value =
    | VNull
    | VBool(b: bool)
    | VInt(n: int)
    | VStr(s: string)
    | VArr(items: seq<Value>)
    | VObj(members: map<string, Value>)

  function Abs(j: Json): Value
    decreases j
  {
    match j
    case Null => VNull
    case Bool(b) => VBool(b)
    case Int(n) => VInt(n)
    case Str(s) => VStr(s)
    case Arr(items) => VArr(AbsItems(items))
    case Obj(ms) => VObj(AbsMembers(ms))
  }

  function AbsItems(items: seq<Json>): (r: seq<Value>)
    ensures |r| == |items| && forall i :: 0 <= i < |items| ==> r[i] == Abs(items[i])
    decreases items
  {
    if items == [] then [] else [Abs(items[0])] + AbsItems(items[1..])
  }

  function AbsMembers(ms: seq<Member>): (r: map<string, Value>)
    ensures forall k :: k in r <==> HasKey(ms, k)
    decreases ms
  {
    if ms == [] then map[] else map[ms[0].key := Abs(ms[0].value)] + AbsMembers(ms[1..])
  }

  // ----- facts about Lookup and Put -----

  lemma {:induction false} PutDistinct(ms: seq<Member>, k: string, v: Json)
    requires DistinctKeys(ms)
    ensures DistinctKeys(Put(ms, k, v))
    ensures forall x :: HasKey(Put(ms, k, v), x) <==> x == k || HasKey(ms, x)
  {
    if ms != [] && ms[0].key != k {
      PutDistinct(ms[1..], k, v);
      assert Put(ms, k, v)[1..] == Put(ms[1..], k, v);
    }
  }

  lemma {:induction false} LookupPut(ms: seq<Member>, k: string, v: Json)
    ensures Lookup(Put(ms, k, v), k) == v
    ensures forall x :: x != k ==> Lookup(Put(ms, k, v), x) == Lookup(ms, x)
  {
    if ms != [] && ms[0].key != k {
      LookupPut(ms[1..], k, v);
      assert Put(ms, k, v)[1..] == Put(ms[1..], k, v);
    }
  }

  /** Setting a key is a map update on the denoted value. */
  lemma {:induction false} AbsPut(ms: seq<Member>, k: string, v: Json)
    requires DistinctKeys(ms)
    ensures AbsMembers(Put(ms, k, v)) == AbsMembers(ms)[k := Abs(v)]
  {
    var r := Put(ms, k, v);
    if ms == [] {
      assert r[1..] == [];
    } else if ms[0].key == k {
      assert r[1..] == ms[1..];
      UpdateHead(k, Abs(ms[0].value), Abs(v), AbsMembers(ms[1..]));
    } else {
      assert r[1..] == Put(ms[1..], k, v) && r[0] == ms[0];
      AbsPut(ms[1..], k, v);
      UpdateTail(ms[0].key, Abs(ms[0].value), k, Abs(v), AbsMembers(ms[1..]));
    }
  }

  lemma UpdateHead(k: string, x: Value, y: Value, m: map<string, Value>)
    requires k !in m
    ensures map[k := y] + m == (map[k := x] + m)[k := y]
  {}

  lemma UpdateTail(k: string, x: Value, k': string, y: Value, m: map<string, Value>)
    requires k != k'
    ensures map[k := x] + m[k' := y] == (map[k := x] + m)[k' := y]
  {}

  /** What `get` returns is a function of the denoted value. */
  lemma {:induction false} AbsLookup(ms: seq<Member>, k: string)
    requires DistinctKeys(ms)
    ensures Abs(Lookup(ms, k)) == if HasKey(ms, k) then AbsMembers(ms)[k] else VNull
  {
    if ms != [] { AbsLookup(ms[1..], k); }
  }

  lemma {:induction false} LookupAt(ms: seq<Member>, k: string, i: nat)
    requires i < |ms| && ms[i].key == k && forall j :: 0 <= j < i ==> ms[j].key != k
    ensures Lookup(ms, k) == ms[i].value && HasKey(ms, k)
  {
    if i > 0 { LookupAt(ms[1..], k, i - 1); }
  }

  lemma {:induction false} LookupNone(ms: seq<Member>, k: string)
    requires forall j :: 0 <= j < |ms| ==> ms[j].key != k
    ensures Lookup(ms, k) == Null
  {
    if ms != [] { LookupNone(ms[1..], k); }
  }

  lemma {:induction false} MemberDenoted(ms: seq<Member>, m: Member)
    requires DistinctKeys(ms) && m in ms
    ensures HasKey(ms, m.key) && AbsMembers(ms)[m.key] == Abs(m.value)
  {
    if ms[0] != m { MemberDenoted(ms[1..], m); } else if HasKey(ms[1..], m.key) {}
  }

  lemma {:induction false} KeyHasMember(ms: seq<Member>, k: string) returns (m: Member)
    requires HasKey(ms, k)
    ensures m in ms && m.key == k
  {
    if ms[0].key == k { m := ms[0]; } else { m := KeyHasMember(ms[1..], k); }
  }

  lemma {:induction false} MemberWellFormed(ms: seq<Member>, k: string)
    requires forall i :: 0 <= i < |ms| ==> WellFormed(ms[i].value)
    ensures WellFormed(Lookup(ms, k))
  {
    if ms != [] && ms[0].key != k { MemberWellFormed(ms[1..], k); }
  }

  lemma WellFormedGet(j: Json, k: string)
    requires WellFormed(j)
    ensures WellFormed(Get(j, k))
  {
    if j.Obj? { MemberWellFormed(j.members, k); }
  }

  lemma {:induction false} WellFormedPut(ms: seq<Member>, k: string, v: Json)
    requires WellFormed(Obj(ms)) && WellFormed(v)
    ensures WellFormed(Obj(Put(ms, k, v)))
  {
    PutDistinct(ms, k, v);
    if ms != [] && ms[0].key != k {
      WellFormedPut(ms[1..], k, v);
    }
  }
}
