/** `dagr_authority_context.py`, `_compute_context_digest`: the digest binds every field of a
    resolved authority context, the number of review roles among them. */
module DagrAuthorityContext {
  import opened PyText
  import opened LinePreimage
  import opened DigestBinding

  /** A context of the closed shape: fourteen texts and the review roles. `head` holds schema,
      domain, transaction id and digest, operator and profile references; `tail` the authority
      source and the six provenance fields. */
  datatype Context = Context(
    schema: string, domain: string, transactionId: string, transactionDigest: string,
    operatorIdentityRef: string, authorityProfileRef: string,
    reviewRoles: seq<string>,
    authoritySource: string, provenance: Provenance)

  datatype Provenance = Provenance(
    genesisId: string, genesisDigest: string, status: string, effectiveFrom: string,
    authoritySourceRef: string, supportingReviewRef: string)

  const HEADER := "DAGR-RESOLVED-AUTHORITY-CONTEXT-V0.1"

  const HEAD_NAMES := ["schema", "domain", "transaction_id", "transaction_digest",
                       "operator_identity_ref", "authority_profile_ref", "review_role_count"]

  const TAIL_NAMES := ["authority_source", "authority_genesis_id", "authority_genesis_digest",
                       "authority_genesis_status", "authority_effective_from", "authority_source_ref",
                       "supporting_review_ref"]

  function HeadValues(c: Context): seq<string> {
    [c.schema, c.domain, c.transactionId, c.transactionDigest, c.operatorIdentityRef, c.authorityProfileRef,
     IntText(|c.reviewRoles|)]
  }

  function TailValues(c: Context): seq<string> {
    var p := c.provenance;
    [c.authoritySource, p.genesisId, p.genesisDigest, p.status, p.effectiveFrom, p.authoritySourceRef,
     p.supportingReviewRef]
  }

  function RoleName(i: nat): string { "review_role_" + IntText(i) }

  function RoleLines(roles: seq<string>): (r: seq<string>)
    ensures |r| == |roles|
  {
    if roles == [] then []
    else
      var n := |roles| - 1;
      RoleLines(roles[..n]) + [RoleName(n) + "=" + roles[n]]
  }

  /** The preimage as lines. */
  function ContextLines(c: Context): seq<string> {
    [HEADER] + Labelled(HEAD_NAMES, HeadValues(c)) + RoleLines(c.reviewRoles) + Labelled(TAIL_NAMES, TailValues(c))
  }

  function Preimage(c: Context): string { LinesText(ContextLines(c)) }

  /** The preimage as it is built, one line after another. */
  method ContextPreimage(c: Context) returns (preimage: string)
    ensures preimage == Preimage(c)
  {
    ghost var start := [HEADER] + Labelled(HEAD_NAMES, HeadValues(c));
    preimage := HEADER + ['\n'];
    assert LinesText([HEADER]) == preimage by { LinesTextSnoc([], HEADER); assert [] + [HEADER] == [HEADER]; }
        LinesTextAppend([HEADER], Labelled(HEAD_NAMES, HeadValues(c)));
    preimage := preimage + LinesText(Labelled(HEAD_NAMES, HeadValues(c)));
    var roles := c.reviewRoles;
    assert start + RoleLines(roles[..0]) == start;
    for index := 0 to |roles|
      invariant preimage == LinesText(start + RoleLines(roles[..index]))
    {
      var line := RoleName(index) + "=" + roles[index];
      assert roles[..index + 1][..index] == roles[..index];
      assert start + RoleLines(roles[..index + 1]) == (start + RoleLines(roles[..index])) + [line];
      LinesTextSnoc(start + RoleLines(roles[..index]), line);
      preimage := preimage + line + ['\n'];
    }
    assert roles[..|roles|] == roles;
    LinesTextAppend(start + RoleLines(roles), Labelled(TAIL_NAMES, TailValues(c)));
    preimage := preimage + LinesText(Labelled(TAIL_NAMES, TailValues(c)));
  }

  predicate NewlineFree(c: Context) {
    AllNoNewline(HeadValues(c)) && AllNoNewline(TailValues(c)) && AllNoNewline(c.reviewRoles)
  }

  lemma {:induction false} DecimalNoNewline(n: nat)
    ensures NoNewline(IntText(n))
  {
    forall i | 0 <= i < |Decimal(n)| ensures Decimal(n)[i] != '\n' { assert IsDigit(Decimal(n)[i]); }
  }

  lemma {:induction false} RoleLinesNoNewline(roles: seq<string>)
    requires AllNoNewline(roles)
    ensures AllNoNewline(RoleLines(roles))
  {
    if roles != [] {
      RoleLinesNoNewline(roles[..|roles| - 1]);
      DecimalNoNewline(|roles| - 1);
    }
  }

  lemma {:induction false} RoleLinesInjective(roles: seq<string>, roles': seq<string>)
    requires RoleLines(roles) == RoleLines(roles')
    ensures roles == roles'
  {
    assert |roles| == |roles'|;
    if roles != [] {
      var n := |roles| - 1;
      assert RoleLines(roles)[..n] == RoleLines(roles[..n]) && RoleLines(roles')[..n] == RoleLines(roles'[..n]);
      RoleLinesInjective(roles[..n], roles'[..n]);
      assert RoleLines(roles)[n] == RoleLines(roles')[n];
      SamePrefix(RoleName(n) + "=", roles[n], roles'[n]);
      assert roles == roles[..n] + [roles[n]] && roles' == roles'[..n] + [roles'[n]];
    }
  }

  lemma ContextLinesNoNewline(c: Context)
    requires NewlineFree(c)
    ensures AllNoNewline(ContextLines(c))
  {
    hide *;
    NamesOneLine();
    NewlineFreeMeans(c);
    LabelledNoNewline(HEAD_NAMES, HeadValues(c));
    LabelledNoNewline(TAIL_NAMES, TailValues(c));
    RoleLinesNoNewline(c.reviewRoles);
    AllFour(HEADER, Labelled(HEAD_NAMES, HeadValues(c)), RoleLines(c.reviewRoles), Labelled(TAIL_NAMES, TailValues(c)));
    LinesOfContext(c);
  }

  lemma NewlineFreeMeans(c: Context)
    ensures NewlineFree(c) <==>
      AllNoNewline(HeadValues(c)) && AllNoNewline(TailValues(c)) && AllNoNewline(c.reviewRoles)
    ensures |HeadValues(c)| == 7 && |TailValues(c)| == 7
  {}

  lemma NamesOneLine()
    ensures |HEAD_NAMES| == 7 && AllNoNewline(HEAD_NAMES)
    ensures |TAIL_NAMES| == 7 && AllNoNewline(TAIL_NAMES)
    ensures NoNewline(HEADER)
  {
    HeadNamesOneLine();
    TailNamesOneLine();
  }

  lemma HeadNamesOneLine()
    ensures |HEAD_NAMES| == 7 && AllNoNewline(HEAD_NAMES)
  {
    assert NoNewline("schema") && NoNewline("domain") && NoNewline("transaction_id") && NoNewline("transaction_digest");
    assert NoNewline("operator_identity_ref") && NoNewline("authority_profile_ref") && NoNewline("review_role_count");
    hide NoNewline;
  }

  lemma TailNamesOneLine()
    ensures |TAIL_NAMES| == 7 && AllNoNewline(TAIL_NAMES)
  {
    assert NoNewline("authority_source") && NoNewline("authority_genesis_id") && NoNewline("authority_genesis_digest");
    assert NoNewline("authority_genesis_status") && NoNewline("authority_effective_from");
    assert NoNewline("authority_source_ref") && NoNewline("supporting_review_ref");
    hide NoNewline;
  }

  lemma LinesOfContext(c: Context)
    ensures ContextLines(c) == [HEADER] + Labelled(HEAD_NAMES, HeadValues(c)) + RoleLines(c.reviewRoles)
                               + Labelled(TAIL_NAMES, TailValues(c))
  {}

  lemma AllFour(h: string, a: seq<string>, b: seq<string>, z: seq<string>)
    requires NoNewline(h) && AllNoNewline(a) && AllNoNewline(b) && AllNoNewline(z)
    ensures AllNoNewline([h] + a + b + z)
  {
    hide NoNewline;
  }

  lemma ThreeBlocks<T>(h: T, a: seq<T>, b: seq<T>, z: seq<T>, a': seq<T>, b': seq<T>, z': seq<T>)
    requires |a| == |a'| && |z| == |z'| && [h] + a + b + z == [h] + a' + b' + z'
    ensures a == a' && b == b' && z == z'
  {
    var s, s' := [h] + a + b + z, [h] + a' + b' + z';
    assert |b| == |b'|;
    assert s[1..1 + |a|] == a && s'[1..1 + |a|] == a';
    assert s[1 + |a|..1 + |a| + |b|] == b && s'[1 + |a|..1 + |a| + |b|] == b';
    assert s[1 + |a| + |b|..] == z && s'[1 + |a| + |b|..] == z';
  }

  /** The preimage is injective on newline-free contexts, in the length and content of the role list
      as in every other field. */
  lemma PreimageInjective(c: Context, d: Context)
    requires NewlineFree(c) && NewlineFree(d)
    ensures Preimage(c) == Preimage(d) <==> c == d
  {
    if Preimage(c) == Preimage(d) {
      ContextLinesNoNewline(c);
      ContextLinesNoNewline(d);
      LinesInjective(ContextLines(c), ContextLines(d));
      ThreeBlocks(HEADER, Labelled(HEAD_NAMES, HeadValues(c)), RoleLines(c.reviewRoles),
                  Labelled(TAIL_NAMES, TailValues(c)), Labelled(HEAD_NAMES, HeadValues(d)),
                  RoleLines(d.reviewRoles), Labelled(TAIL_NAMES, TailValues(d)));
      LabelledInjective(HEAD_NAMES, HeadValues(c), HeadValues(d));
      LabelledInjective(TAIL_NAMES, TailValues(c), TailValues(d));
      RoleLinesInjective(c.reviewRoles, d.reviewRoles);
      SameFields(c, d);
    }
  }

  lemma SameFields(c: Context, d: Context)
    requires HeadValues(c) == HeadValues(d) && TailValues(c) == TailValues(d) && c.reviewRoles == d.reviewRoles
    ensures c == d
  {
    forall i | 0 <= i < 7 ensures HeadValues(c)[i] == HeadValues(d)[i] && TailValues(c)[i] == TailValues(d)[i] {}
    assert HeadValues(c)[0] == HeadValues(d)[0] && HeadValues(c)[1] == HeadValues(d)[1];
    assert HeadValues(c)[2] == HeadValues(d)[2] && HeadValues(c)[3] == HeadValues(d)[3];
    assert HeadValues(c)[4] == HeadValues(d)[4] && HeadValues(c)[5] == HeadValues(d)[5];
    assert TailValues(c)[0] == TailValues(d)[0] && TailValues(c)[1] == TailValues(d)[1];
    assert TailValues(c)[2] == TailValues(d)[2] && TailValues(c)[3] == TailValues(d)[3];
    assert TailValues(c)[4] == TailValues(d)[4] && TailValues(c)[5] == TailValues(d)[5];
    assert TailValues(c)[6] == TailValues(d)[6];
  }

  /** `_compute_context_digest`. */
  function ContextDigest(hash: string -> string, c: Context): string { SHA256_PREFIX + hash(Preimage(c)) }

  /** Two newline-free contexts with one digest are the same context, unless their preimages
      collide. */
  lemma ContextDigestBinds(hash: string -> string, c: Context, d: Context)
    requires NewlineFree(c) && NewlineFree(d)
    requires ContextDigest(hash, c) == ContextDigest(hash, d) && NoCollision(hash, Preimage(c), Preimage(d))
    ensures c == d
  {
    SamePrefix(SHA256_PREFIX, hash(Preimage(c)), hash(Preimage(d)));
    PreimageInjective(c, d);
  }

  // ----- newlines allowed: exactly which contexts share their preimage -----

  function RoleNames(n: nat): (r: seq<string>)
    ensures |r| == n && forall i :: 0 <= i < n ==> r[i] == RoleName(i)
  {
    if n == 0 then [] else RoleNames(n - 1) + [RoleName(n - 1)]
  }

  lemma {:induction false} LabelledSnoc(names: seq<string>, values: seq<string>, name: string, value: string)
    requires |names| == |values|
    ensures Labelled(names + [name], values + [value]) == Labelled(names, values) + [name + "=" + value]
  {
    LabelledAppend(names, values, [name], [value]);
    assert [name][1..] == [] && [value][1..] == [];
  }

  lemma {:induction false} LabelledAppend(a: seq<string>, v: seq<string>, b: seq<string>, w: seq<string>)
    requires |a| == |v| && |b| == |w|
    ensures Labelled(a + b, v + w) == Labelled(a, v) + Labelled(b, w)
  {
    if a == [] {
      assert a + b == b && v + w == w;
    } else {
      assert (a + b)[1..] == a[1..] + b && (v + w)[1..] == v[1..] + w;
      LabelledAppend(a[1..], v[1..], b, w);
    }
  }

  lemma {:induction false} RolesLabelled(roles: seq<string>)
    ensures RoleLines(roles) == Labelled(RoleNames(|roles|), roles)
  {
    if roles != [] {
      var n := |roles| - 1;
      hide Labelled, RoleName;
      var some, last := roles[..n], roles[n];
      assert roles == some + [last];
      RolesLabelled(some);
      LabelledSnoc(RoleNames(n), some, RoleName(n), last);
    }
  }

  /** The names of the lines after the role count, and the values before and after it. */
  function LaterNames(n: nat): (r: seq<string>)
    ensures |r| == n + 7
  {
    RoleNames(n) + TAIL_NAMES
  }

  function FirstValues(c: Context): (r: seq<string>)
    ensures |r| == 6
  {
    HeadValues(c)[..6]
  }

  function LaterValues(c: Context): (r: seq<string>)
    ensures |r| == |c.reviewRoles| + 7
  {
    c.reviewRoles + TailValues(c)
  }

  /** Every value of a context but the count of its roles, which the roles determine. */
  function Values(c: Context): (r: seq<string>)
    ensures |r| == |c.reviewRoles| + 13
  {
    FirstValues(c) + LaterValues(c)
  }

  function CountMark(n: nat): string { Marks(HEAD_NAMES)[6] + IntText(n) + Marks(LaterNames(n))[0] }

  /** What stands before each of these values; the count line belongs to the mark that follows it. */
  function ContextMarks(n: nat): (r: seq<string>)
    ensures |r| == n + 13
  {
    Marks(HEAD_NAMES)[..6] + ([CountMark(n)] + Marks(LaterNames(n))[1..])
  }

  lemma ContextLinesLabelled(c: Context)
    ensures ContextLines(c) == [HEADER] + Labelled(HEAD_NAMES + LaterNames(|c.reviewRoles|), HeadValues(c) + LaterValues(c))
  {
    assert |HEAD_NAMES| == 7 && |TAIL_NAMES| == 7;
    hide Labelled, RoleLines, HEAD_NAMES, TAIL_NAMES, HEADER;
    var n := |c.reviewRoles|;
    RolesLabelled(c.reviewRoles);
    LabelledAppend(RoleNames(n), c.reviewRoles, TAIL_NAMES, TailValues(c));
    LabelledAppend(HEAD_NAMES, HeadValues(c), LaterNames(n), LaterValues(c));
    var a, b, z := Labelled(HEAD_NAMES, HeadValues(c)), RoleLines(c.reviewRoles), Labelled(TAIL_NAMES, TailValues(c));
    assert [HEADER] + a + b + z == [HEADER] + (a + (b + z));
  }

  lemma MarksAppend(a: seq<string>, b: seq<string>)
    ensures Marks(a + b) == Marks(a) + Marks(b)
  {}

  /** Moving a value into the mark behind it does not change the text. */
  lemma WovenMerge(a: seq<string>, v: seq<string>, m: string, x: string, n: string, y: string,
                   b: seq<string>, w: seq<string>)
    requires |a| == |v| && |b| == |w|
    ensures Woven(a + ([m] + ([n] + b)), v + ([x] + ([y] + w))) == Woven(a + ([m + x + n] + b), v + ([y] + w))
  {
    hide *;
    WovenAppend(a, v, [m] + ([n] + b), [x] + ([y] + w));
    WovenAppend(a, v, [m + x + n] + b, [y] + w);
    MergedHead(m, x, n, y, b, w);
  }

  lemma MergedHead(m: string, x: string, n: string, y: string, b: seq<string>, w: seq<string>)
    requires |b| == |w|
    ensures Woven([m] + ([n] + b), [x] + ([y] + w)) == Woven([m + x + n] + b, [y] + w)
  {
    hide *;
    WovenHead(m, x, [n] + b, [y] + w);
    WovenHead(n, y, b, w);
    WovenHead(m + x + n, y, b, w);
    MergedText(m, x, n, y, Woven(b, w));
  }

  lemma WovenHead(m: string, x: string, b: seq<string>, w: seq<string>)
    requires |b| == |w|
    ensures Woven([m] + b, [x] + w) == m + (x + Woven(b, w))
  {
    assert ([m] + b)[1..] == b && ([x] + w)[1..] == w;
  }

  lemma MergedText(a: string, b: string, c: string, d: string, e: string)
    ensures a + (b + (c + (d + e))) == (a + b + c) + (d + e)
  {}

  lemma PreimageWoven(c: Context)
    ensures Preimage(c) == HEADER + (Woven(ContextMarks(|c.reviewRoles|), Values(c)) + ['\n'])
  {
    hide Labelled, LinesText, Woven, HEADER, RoleNames, Marks;
    var n := |c.reviewRoles|;
    var names, values := HEAD_NAMES + LaterNames(n), HeadValues(c) + LaterValues(c);
    ContextLinesLabelled(c);
    LinesWoven(HEADER, names, values);
    MarksAppend(HEAD_NAMES, LaterNames(n));
    var m := Marks(HEAD_NAMES);
    assert m == m[..6] + [m[6]];
    assert HeadValues(c) == FirstValues(c) + [IntText(n)];
    assert Marks(names) == m[..6] + ([m[6]] + Marks(LaterNames(n)));
    assert values == FirstValues(c) + ([IntText(n)] + LaterValues(c));
    var later, w := Marks(LaterNames(n)), LaterValues(c);
    assert later == [later[0]] + later[1..] && w == [w[0]] + w[1..];
    WovenMerge(m[..6], FirstValues(c), m[6], IntText(n), later[0], w[0], later[1..], w[1..]);
  }

  lemma RoleNameOneLine(i: nat)
    ensures NoNewline(RoleName(i))
  {
    DecimalNoNewline(i);
  }

  lemma ContextMarksUnbordered(n: nat)
    ensures AllUnbordered(ContextMarks(n))
  {
    hide Unbordered, CountMark, HEAD_NAMES, TAIL_NAMES, Marks, LaterNames;
    var later := LaterNames(n);
    HeadMarksUnbordered();
    LaterMarksUnbordered(n);
    CountMarkUnbordered(n);
    forall i | 0 <= i < |ContextMarks(n)| ensures Unbordered(ContextMarks(n)[i]) {
      if i > 6 { assert ContextMarks(n)[i] == Marks(later)[i - 6]; }
    }
  }

  lemma HeadMarksUnbordered()
    ensures |Marks(HEAD_NAMES)| == 7 && AllUnbordered(Marks(HEAD_NAMES))
  {
    hide Unbordered, Marks, NoNewline, HEAD_NAMES;
    NamesOneLine();
    forall i | 0 <= i < 7 ensures Unbordered(Marks(HEAD_NAMES)[i]) { MarkUnbordered(HEAD_NAMES[i]); }
  }

  lemma LaterMarksUnbordered(n: nat)
    ensures AllUnbordered(Marks(LaterNames(n)))
  {
    hide Unbordered, RoleName, Marks, NoNewline, TAIL_NAMES, RoleNames;
    NamesOneLine();
    var later := LaterNames(n);
    forall i | 0 <= i < |later| ensures Unbordered(Marks(later)[i]) {
      if i < n { RoleNameOneLine(i); }
      MarkUnbordered(later[i]);
    }
  }

  lemma CountMarkUnbordered(n: nat)
    ensures Unbordered(CountMark(n))
  {
    DecimalNoNewline(n);
    var name := LaterNames(n)[0];
    if n > 0 {
      assert name == RoleName(0) && name == "review_role_" + IntText(0);
      assert IntText(0) == "0";
      assert name[12] == '0' && "review_role_count"[12] == 'c';
      RoleNameOneLine(0);
      TwoLinesUnbordered("review_role_count", IntText(n), name, 12);
    } else {
      assert name == "authority_source" && name[0] == 'a' && "review_role_count"[0] == 'r';
      TwoLinesUnbordered("review_role_count", IntText(n), name, 0);
    }
  }

  /** Two line starts in a row do not overlap themselves when their labels differ early. */
  lemma TwoLinesUnbordered(label0: string, value: string, name: string, d: nat)
    requires NoNewline(label0) && NoNewline(value) && NoNewline(name)
    requires d < |label0| && d < |name| && name[d] != label0[d]
    ensures Unbordered((['\n'] + label0 + "=") + value + (['\n'] + name + "="))
  {
    var first, last := (['\n'] + label0 + "=") + value, ['\n'] + name + "=";
    var m := first + last;
    forall k | 0 < k < |m| ensures m[k..] != m[..|m| - k] {
      assert m[k..][0] == m[k] && m[..|m| - k][0] == '\n';
      if k < |first| {
        assert first[k] != '\n' by {
          if k <= |label0| { assert first[k] == label0[k - 1]; }
          else if k > |label0| + 1 { assert first[k] == value[k - |label0| - 2]; }
        }
        assert m[k] == first[k];
      } else if k == |first| {
        assert m[k..][d + 1] == last[d + 1] == name[d];
        assert m[..|m| - k][d + 1] == m[d + 1] == label0[d];
      } else {
        assert m[k] == last[k - |first|];
        if k - |first| <= |name| { assert last[k - |first|] == name[k - |first| - 1]; }
      }
    }
  }

  /** The context with given values. */
  function ContextOf(w: seq<string>): Context
    requires |w| >= 13
  {
    var n := |w| - 13;
    Context(w[0], w[1], w[2], w[3], w[4], w[5], w[6..6 + n], w[6 + n],
            Provenance(w[7 + n], w[8 + n], w[9 + n], w[10 + n], w[11 + n], w[12 + n]))
  }

  lemma ContextOfValues(w: seq<string>)
    requires |w| >= 13
    ensures |ContextOf(w).reviewRoles| == |w| - 13 && Values(ContextOf(w)) == w
  {}

  lemma ValuesDetermine(c: Context, d: Context)
    requires |c.reviewRoles| == |d.reviewRoles| && Values(c) == Values(d)
    ensures c == d
  {
    var n, v, w := |c.reviewRoles|, Values(c), Values(d);
    assert c.reviewRoles == v[6..6 + n] && d.reviewRoles == w[6..6 + n];
    assert v[..6] == FirstValues(c) && w[..6] == FirstValues(d);
    assert v[6 + n..] == TailValues(c) && w[6 + n..] == TailValues(d);
    assert HeadValues(c) == FirstValues(c) + [IntText(n)] && HeadValues(d) == FirstValues(d) + [IntText(n)];
    SameFields(c, d);
  }

  /** A context shares its preimage with another one of as many roles exactly when one of its values
      holds the mark before it or the mark behind it. */
  lemma SharedPreimageExactly(c: Context)
    ensures (exists d: Context :: |d.reviewRoles| == |c.reviewRoles| && d != c && Preimage(d) == Preimage(c))
       <==> Clash(ContextMarks(|c.reviewRoles|), Values(c))
  {
    hide Preimage, Clash, ContextMarks, Values, ContextOf, HEADER;
    var n := |c.reviewRoles|;
    var marks, v := ContextMarks(n), Values(c);
    ContextMarksUnbordered(n);
    PreimageWoven(c);
    if d: Context :| |d.reviewRoles| == n && d != c && Preimage(d) == Preimage(c) {
      PreimageWoven(d);
      SamePrefix(HEADER, Woven(marks, Values(d)) + ['\n'], Woven(marks, v) + ['\n']);
      SameBefore(Woven(marks, Values(d)), Woven(marks, v), ['\n']);
      if Values(d) == v { ValuesDetermine(c, d); }
      SharedClashes(marks, v, Values(d));
    }
    if Clash(marks, v) {
      var w := ClashShares(marks, v);
      ContextOfValues(w);
      PreimageWoven(ContextOf(w));
      assert Values(ContextOf(w)) != v;
    }
  }

  /** The last two references are free texts that need only be non-empty, and their schema admits
      newlines: three non-empty texts can be shared out over them in two ways. */
  lemma NewlinesForge(c: Context, x: string, y: string, z: string)
    requires x != [] && z != []
    ensures var sep := ['\n'] + "supporting_review_ref" + "=";
      var p, q := c.provenance.(authoritySourceRef := x + sep + y, supportingReviewRef := z),
                  c.provenance.(authoritySourceRef := x, supportingReviewRef := y + sep + z);
      && c.(provenance := p) != c.(provenance := q)
      && Preimage(c.(provenance := p)) == Preimage(c.(provenance := q))
      && p.authoritySourceRef != [] && p.supportingReviewRef != []
      && q.authoritySourceRef != [] && q.supportingReviewRef != []
  {
    var sep := ['\n'] + "supporting_review_ref" + "=";
    var a := c.(provenance := c.provenance.(authoritySourceRef := x + sep + y, supportingReviewRef := z));
    var b := c.(provenance := c.provenance.(authoritySourceRef := x, supportingReviewRef := y + sep + z));
    assert |x + sep + y| > |x|;
    LastValues(a);
    LastValues(b);
    var n := |c.reviewRoles|;
    var k := n + 11;
    var marks := ContextMarks(n);
    SupportingMark(n);
    PreimageWoven(a);
    PreimageWoven(b);
    hide ContextMarks, Preimage, HEADER, Woven;
    assert Values(a)[..k] == Values(b)[..k] by { SameFront(a, b); }
    hide Values;
    MarkMoves(marks[k], sep, x, y, z);
    ReplaceTwo(marks, Values(b), k + 1, x + sep + y, z);
    assert Values(b)[..k] + [x + sep + y, z] + Values(b)[k + 2..] == Values(a);
  }

  lemma LastValues(c: Context)
    ensures var v, k := Values(c), |c.reviewRoles| + 11;
      v == v[..k] + [c.provenance.authoritySourceRef, c.provenance.supportingReviewRef]
  {
    var v, k := Values(c), |c.reviewRoles| + 11;
    assert v[k] == TailValues(c)[5] && v[k + 1] == TailValues(c)[6];
  }

  lemma SameFront(a: Context, b: Context)
    requires b == a.(provenance := a.provenance.(authoritySourceRef := b.provenance.authoritySourceRef,
                                                 supportingReviewRef := b.provenance.supportingReviewRef))
    ensures Values(a)[..|a.reviewRoles| + 11] == Values(b)[..|b.reviewRoles| + 11]
  {
    assert TailValues(a)[..5] == TailValues(b)[..5];
    assert Values(a)[..|a.reviewRoles| + 11] == FirstValues(a) + (a.reviewRoles + TailValues(a)[..5]);
    assert Values(b)[..|b.reviewRoles| + 11] == FirstValues(b) + (b.reviewRoles + TailValues(b)[..5]);
  }

  lemma SupportingMark(n: nat)
    ensures ContextMarks(n)[n + 12] == ['\n'] + "supporting_review_ref" + "="
  {
    assert LaterNames(n)[n + 6] == "supporting_review_ref";
    assert ContextMarks(n)[n + 12] == Marks(LaterNames(n))[n + 6];
  }
}
