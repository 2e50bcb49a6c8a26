/** Digests of canonical texts, shared by the two packet verifiers. SHA-256 is a parameter: `hash`
    maps a text to the 64 hex digits of its digest. */
module DigestBinding {
  import opened JsonValue
  import opened CanonicalJson

  const SHA256_PREFIX := "sha256:"
  const DIGEST_SENTINEL := "sha256:pending"

  /** The canonical text, empty where there is none. */
  function CanonicalText(j: Json): string {
    match Canonical(j) case Some(t) => t case None => ""
  }

  /** `_sha256_digest`; None is the exception a too deep value raises. */
  function Digest(hash: string -> string, j: Json): Option<string> {
    var t :- Canonical(j);
    Some(SHA256_PREFIX + hash(t))
  }

  /** `_is_sha256`. `hex` stands for the test the code makes on the part after the prefix: it is
      its own lower case, and `int(body, 16)` accepts it. */
  predicate IsSha256(hex: string -> bool, v: Json) {
    v.Str? && |v.s| == 71 && SHA256_PREFIX <= v.s && hex(v.s[7..])
  }

  /** Accepted is the prefix followed by sixty-four characters that pass the test, and nothing else. */
  lemma IsSha256Exactly(hex: string -> bool, v: Json)
    ensures IsSha256(hex, v) <==> v.Str? && exists body: string :: v.s == "sha256:" + body && |body| == 64 && hex(body)
  {
    if IsSha256(hex, v) { assert v.s == "sha256:" + v.s[7..]; }
    if v.Str? {
      if body: string :| v.s == "sha256:" + body && |body| == 64 && hex(body) { assert v.s[7..] == body; }
    }
  }

  /** What is used of SHA-256's output format. */
  ghost predicate HashFormat(hash: string -> string, hex: string -> bool) {
    forall t :: |hash(t)| == 64 && hex(hash(t))
  }

  /** The two texts are not a hash collision. */
  predicate NoCollision(hash: string -> string, s: string, t: string) {
    hash(s) == hash(t) ==> s == t
  }

  lemma DigestWellFormatted(hash: string -> string, hex: string -> bool, j: Json)
    requires HashFormat(hash, hex) && Digest(hash, j).Some?
    ensures IsSha256(hex, Str(Digest(hash, j).value))
  {
    var d := Digest(hash, j).value;
    assert d[7..] == hash(Canonical(j).value);
  }

  /** The dict `ms` may stand `below` levels down without passing the depth limit. */
  ghost predicate Fits(ms: seq<Member>, below: nat) {
    WellFormed(Obj(ms)) && Height(Obj(ms)) + below <= MAX_DEPTH
  }

  /** Equal values have equal digests. */
  lemma DigestOfEqual(hash: string -> string, ms: seq<Member>, ns: seq<Member>)
    requires Fits(ms, 0) && Fits(ns, 0) && AbsMembers(ms) == AbsMembers(ns)
    ensures Digest(hash, Obj(ms)).Some? && Digest(hash, Obj(ms)) == Digest(hash, Obj(ns))
  {
    CanonicalTextIffEqual(Obj(ms), Obj(ns));
    CanonicalDefined(Obj(ms));
  }

  /** Equal digests mean equal values, unless the two canonical texts collide. */
  lemma EqualDigests(hash: string -> string, a: Json, b: Json)
    requires WellFormed(a) && WellFormed(b)
    requires Digest(hash, a).Some? && Digest(hash, a) == Digest(hash, b)
    requires NoCollision(hash, CanonicalText(a), CanonicalText(b))
    ensures Abs(a) == Abs(b)
  {
    CanonicalDefined(a);
    CanonicalDefined(b);
    var s, t := hash(Canonical(a).value), hash(Canonical(b).value);
    assert (SHA256_PREFIX + s)[7..] == s && (SHA256_PREFIX + t)[7..] == t;
    CanonicalTextIffEqual(a, b);
  }

  // ----- sealing: storing a dict's digest in the dict itself -----

  /** The digest of a dict with its own digest field masked by the sentinel. */
  function MaskedDigest(hash: string -> string, ms: seq<Member>, field: string): Option<string> {
    Digest(hash, Obj(Put(ms, field, Str(DIGEST_SENTINEL))))
  }

  /** Stores the masked digest under `field`. */
  function Seal(hash: string -> string, ms: seq<Member>, field: string): seq<Member> {
    match MaskedDigest(hash, ms, field)
    case Some(d) => Put(ms, field, Str(d))
    case None => ms
  }

  lemma {:induction false} HeightPut(ms: seq<Member>, k: string, v: Json)
    ensures Height(Obj(Put(ms, k, v))) <= Max(1 + Height(v), Height(Obj(ms)))
  {
    var r := Put(ms, k, v);
    if ms == [] {
      assert r[1..] == [];
    } else if ms[0].key == k {
      assert r[1..] == ms[1..];
    } else {
      HeightPut(ms[1..], k, v);
      assert r[1..] == Put(ms[1..], k, v);
    }
  }

  lemma FitsString(ms: seq<Member>, k: string, s: string, below: nat)
    requires Fits(ms, below) && below < MAX_DEPTH
    ensures Fits(Put(ms, k, Str(s)), below)
    ensures AbsMembers(Put(ms, k, Str(s))) == AbsMembers(ms)[k := VStr(s)]
  {
    hide Put, CanonWalk, AbsMembers, Canonical;
    HeightPut(ms, k, Str(s));
    WellFormedPut(ms, k, Str(s));
    AbsPut(ms, k, Str(s));
  }

  lemma FitsDict(ms: seq<Member>, k: string, v: seq<Member>, below: nat)
    requires Fits(ms, below) && Fits(v, below + 1)
    ensures Fits(Put(ms, k, Obj(v)), below)
  {
    HeightPut(ms, k, Obj(v));
    WellFormedPut(ms, k, Obj(v));
  }

  /** A sealed dict carries a well-formed digest which its own recomputation reproduces, and is
      otherwise the dict it was. */
  lemma SealVerifies(hash: string -> string, hex: string -> bool, ms: seq<Member>, field: string,
                     below: nat)
    requires HashFormat(hash, hex) && Fits(ms, below) && below < MAX_DEPTH
    ensures var r := Seal(hash, ms, field);
      && Fits(r, below)
      && IsSha256(hex, Lookup(r, field))
      && MaskedDigest(hash, r, field) == Some(Lookup(r, field).s)
      && (forall k :: k != field ==> Lookup(r, k) == Lookup(ms, k))
  {
    hide Canonical, CanonWalk, Height, Put, Lookup, IsSha256, AbsMembers, WellFormed, Abs;
    var m := Put(ms, field, Str(DIGEST_SENTINEL));
    FitsString(ms, field, DIGEST_SENTINEL, below);
    DigestOfEqual(hash, m, m);
    var d := Digest(hash, Obj(m)).value;
    DigestWellFormatted(hash, hex, Obj(m));
    var r := Put(ms, field, Str(d));
    FitsString(ms, field, d, below);
    LookupPut(ms, field, Str(d));
    FitsString(r, field, DIGEST_SENTINEL, below);
    Overwrite(AbsMembers(ms), field, VStr(d), VStr(DIGEST_SENTINEL));
    DigestOfEqual(hash, m, Put(r, field, Str(DIGEST_SENTINEL)));
  }

  lemma Overwrite(m: map<string, Value>, k: string, x: Value, y: Value)
    ensures m[k := x][k := y] == m[k := y]
  {}
}
