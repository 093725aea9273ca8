/**
 The subject keys that the gateway computes, as the names of custom resources and the labels
 of their Pods see them.
 */
module ComputedKeys {
  import opened GatewaySession
  import CrName
  import Reconciler
  import SubjectKey

  predicate Hex(c: char) {
    '0' <= c <= '9' || 'a' <= c <= 'f'
  }

  /** Eight bytes of a digest in hexadecimal. */
  ghost predicate HexDigest(hash: string -> string) {
    forall s :: |hash(s)| == 16 && forall i :: 0 <= i < 16 ==> Hex(hash(s)[i])
  }

  predicate DashAt(i: int) {
    i == 8 || i == 13 || i == 18 || i == 23
  }

  /** The text of a UUID, in lower case. */
  predicate IsUuid(id: TargetId) {
    forall i :: 0 <= i < 36 ==> if DashAt(i) then id[i] == '-' else Hex(id[i])
  }

  predicate Word(kind: string) {
    4 <= |kind| <= 6 && forall i :: 0 <= i < |kind| ==> 'a' <= kind[i] <= 'z'
  }

  /** A word of letters, a colon, and a body that starts and ends with a hexadecimal digit and doubles no hyphen. */
  ghost predicate Computed(kind: string, body: string) {
    && Word(kind)
    && 16 <= |body| <= 36 && Hex(body[0]) && Hex(body[|body| - 1])
    && (forall i :: 0 <= i < |body| ==> Hex(body[i]) || body[i] == '-')
    && forall i :: 0 <= i < |body| - 1 ==> Hex(body[i]) || Hex(body[i + 1])
  }

  function Kind(t: SubjectKey.Target): string {
    match SubjectKey.BoundaryOf(t.isolation)
    case PerUser => "user"
    case PerRole => "role"
    case PerGroup => "group"
    case Shared => "shared"
  }

  function Body(t: SubjectKey.Target, c: SubjectKey.Caller, hash: string -> string): string {
    if SubjectKey.BoundaryOf(t.isolation) == SubjectKey.Shared then t.id else hash(SubjectKey.Hashed(t, c))
  }

  lemma DigestIsBody(kind: string, body: string)
    requires Word(kind) && |body| == 16 && forall i :: 0 <= i < 16 ==> Hex(body[i])
    ensures Computed(kind, body)
  {
  }

  lemma UuidIsBody(kind: string, id: TargetId)
    requires Word(kind) && IsUuid(id)
    ensures Computed(kind, id)
  {
    assert Hex(id[0]) && Hex(id[35]);
    forall i | 0 <= i < 35 ensures Hex(id[i]) || Hex(id[i + 1]) {
      assert !DashAt(i) || !DashAt(i + 1);
    }
  }

  lemma KeyParts(t: SubjectKey.Target, c: SubjectKey.Caller, hash: string -> string)
    requires HexDigest(hash) && IsUuid(t.id)
    ensures SubjectKey.Key(t, c, hash) == Kind(t) + ":" + Body(t, c, hash)
    ensures Computed(Kind(t), Body(t, c, hash))
  {
    if SubjectKey.BoundaryOf(t.isolation) == SubjectKey.Shared {
      UuidIsBody(Kind(t), t.id);
    } else {
      DigestIsBody(Kind(t), hash(SubjectKey.Hashed(t, c)));
    }
  }

  lemma ComputedIsShaped(kind: string, body: string)
    requires Computed(kind, body)
    ensures Reconciler.KeyShaped(kind + ":" + body)
  {
    var key := kind + ":" + body;
    forall j | 0 <= j < |key| && j != |kind| ensures Reconciler.CleanChar(key[j]) == key[j] {
      assert j < |kind| ==> key[j] == kind[j];
      assert j > |kind| ==> key[j] == body[j - |kind| - 1];
    }
    assert Reconciler.SplitsAt(key, |kind|);
  }

  /** Every computed key has the form that stays apart as a label. */
  lemma KeysAreShaped(t: SubjectKey.Target, c: SubjectKey.Caller, hash: string -> string)
    requires HexDigest(hash) && IsUuid(t.id)
    ensures Reconciler.KeyShaped(SubjectKey.Key(t, c, hash))
  {
    KeyParts(t, c, hash);
    ComputedIsShaped(Kind(t), Body(t, c, hash));
  }

  /** So the Service of one caller's instance reaches the Pod of another's exactly when they share the key. */
  lemma ServicesSeparateCallers(t: SubjectKey.Target, a: SubjectKey.Caller, b: SubjectKey.Caller, hash: string -> string,
                                x: Reconciler.Spec, y: Reconciler.Spec)
    requires HexDigest(hash) && IsUuid(t.id) && x.targetName == y.targetName
    requires x.subjectKey == SubjectKey.Key(t, a, hash) && y.subjectKey == SubjectKey.Key(t, b, hash)
    ensures Reconciler.Selects(Reconciler.LabelsOf(x), Reconciler.LabelsOf(y)) <==> SubjectKey.Key(t, a, hash) == SubjectKey.Key(t, b, hash)
  {
    KeysAreShaped(t, a, hash);
    KeysAreShaped(t, b, hash);
    Reconciler.ComputedKeysSeparate(x, y);
  }

  /** Every computed key ends legally, so only the target's name can make a Pod's labels illegal. */
  lemma ComputedKeysEndLegally(t: SubjectKey.Target, c: SubjectKey.Caller, hash: string -> string)
    requires HexDigest(hash) && IsUuid(t.id)
    ensures Reconciler.EndsLegally(SubjectKey.Key(t, c, hash))
  {
    KeyParts(t, c, hash);
    var kind, body := Kind(t), Body(t, c, hash);
    var key := kind + ":" + body;
    assert key[0] == kind[0] && key[|key| - 1] == body[|body| - 1];
  }

  ghost predicate LowerCase(lower: char -> char) {
    CrName.IsLower(lower) && lower(':') == ':'
  }

  lemma ComputedIsSolid(kind: string, body: string, lower: char -> char)
    requires LowerCase(lower) && Computed(kind, body)
    ensures CrName.Solid(CrName.Sanitize(kind + ":" + body, lower))
  {
    var key := kind + ":" + body;
    var s := CrName.Sanitize(key, lower);
    forall i | 0 <= i < |key| ensures s[i] == if i == |kind| then '-' else key[i] {
      assert i < |kind| ==> key[i] == kind[i];
      assert i > |kind| ==> key[i] == body[i - |kind| - 1];
    }
    forall i | 0 <= i < |s| - 1 ensures !(s[i] == '-' && s[i + 1] == '-') {
      if i > |kind| {
        assert s[i] == body[i - |kind| - 1] && s[i + 1] == body[i - |kind|];
      } else if i < |kind| {
        assert s[i] == kind[i];
      } else {
        assert s[i + 1] == body[0];
      }
    }
    assert s[|s| - 1] == body[|body| - 1] && s[0] == kind[0];
  }

  /** Two callers' keys share a custom resource of a target exactly when the cut at 63 characters loses their difference. */
  lemma ResourcesShared(name: string, t: SubjectKey.Target, a: SubjectKey.Caller, b: SubjectKey.Caller,
                        hash: string -> string, lower: char -> char)
    requires LowerCase(lower) && HexDigest(hash) && IsUuid(t.id)
    ensures var x, y, room := SubjectKey.Key(t, a, hash), SubjectKey.Key(t, b, hash), CrName.Room(name, lower);
            CrName.Normalize(name + "-" + x, lower) == CrName.Normalize(name + "-" + y, lower) <==>
            room <= 0 || CrName.Take(x, room) == CrName.Take(y, room)
  {
    var x, y, room := SubjectKey.Key(t, a, hash), SubjectKey.Key(t, b, hash), CrName.Room(name, lower);
    KeyParts(t, a, hash);
    KeyParts(t, b, hash);
    ComputedIsSolid(Kind(t), Body(t, a, hash), lower);
    ComputedIsSolid(Kind(t), Body(t, b, hash), lower);
    CrName.NamesCollideExactly(name, x, y, lower);
    if room > 0 {
      CutsAgree(Kind(t), Body(t, a, hash), Body(t, b, hash), room, lower);
    }
  }

  /** For two keys of one kind and length, what the cut leaves agrees before cleaning and trimming just when it does after. */
  lemma CutsAgree(kind: string, a: string, b: string, room: nat, lower: char -> char)
    requires LowerCase(lower) && Computed(kind, a) && Computed(kind, b) && |a| == |b| && room > 0
    ensures var x, y := kind + ":" + a, kind + ":" + b;
            CrName.TrimRight(CrName.Take(CrName.Sanitize(x, lower), room)) == CrName.TrimRight(CrName.Take(CrName.Sanitize(y, lower), room)) <==>
            CrName.Take(x, room) == CrName.Take(y, room)
  {
    var x, y := kind + ":" + a, kind + ":" + b;
    var p, q := CrName.Sanitize(x, lower), CrName.Sanitize(y, lower);
    CleanedAgree(kind, a, b, room, lower);
    ComputedIsSolid(kind, a, lower);
    ComputedIsSolid(kind, b, lower);
    TrimsAgree(CrName.Take(p, room), CrName.Take(q, room));
  }

  lemma CleanedAgree(kind: string, a: string, b: string, room: nat, lower: char -> char)
    requires LowerCase(lower) && Computed(kind, a) && Computed(kind, b) && |a| == |b|
    ensures var x, y := kind + ":" + a, kind + ":" + b;
            CrName.Take(CrName.Sanitize(x, lower), room) == CrName.Take(CrName.Sanitize(y, lower), room) <==>
            CrName.Take(x, room) == CrName.Take(y, room)
  {
    var x, y := kind + ":" + a, kind + ":" + b;
    var p, q := CrName.Sanitize(x, lower), CrName.Sanitize(y, lower);
    forall i | 0 <= i < |x| ensures p[i] == q[i] <==> x[i] == y[i] {
      assert i < |kind| ==> x[i] == kind[i] == y[i];
      assert i == |kind| ==> x[i] == ':' == y[i];
      assert i > |kind| ==> x[i] == a[i - |kind| - 1] && y[i] == b[i - |kind| - 1];
    }
    var cut := if |x| > room then room else |x|;
    assert CrName.Take(x, room) == x[..cut] && CrName.Take(y, room) == y[..cut];
    assert CrName.Take(p, room) == p[..cut] && CrName.Take(q, room) == q[..cut];
    if p[..cut] == q[..cut] {
      forall i | 0 <= i < cut ensures x[i] == y[i] {
        assert p[..cut][i] == q[..cut][i];
      }
    }
    if x[..cut] == y[..cut] {
      forall i | 0 <= i < cut ensures p[i] == q[i] {
        assert x[..cut][i] == y[..cut][i];
      }
    }
  }

  /** Trimming loses at most one hyphen here, so it keeps texts of one length apart. */
  lemma TrimsAgree(p: string, q: string)
    requires |p| == |q| && !CrName.HasDouble(p) && !CrName.HasDouble(q)
    ensures CrName.TrimRight(p) == CrName.TrimRight(q) <==> p == q
  {
    CrName.TrimLosesOne(p);
    CrName.TrimLosesOne(q);
  }

  /** All users of a per-user target share one custom resource, and so one Pod, when its name is a clean text of 57 characters or more. */
  lemma LongNamesMergeUsers(name: string, t: SubjectKey.Target, a: SubjectKey.Caller, b: SubjectKey.Caller,
                            hash: string -> string, lower: char -> char)
    requires LowerCase(lower) && HexDigest(hash) && IsUuid(t.id) && t.isolation == "per_user"
    requires |name| >= 57 && CrName.Solid(name) && forall i :: 0 <= i < |name| ==> CrName.Allowed(name[i])
    ensures CrName.Normalize(name + "-" + SubjectKey.Key(t, a, hash), lower) == CrName.Normalize(name + "-" + SubjectKey.Key(t, b, hash), lower)
  {
    CrName.CoreOfSolid(name, lower);
    KeyParts(t, a, hash);
    KeyParts(t, b, hash);
    ComputedIsSolid("user", Body(t, a, hash), lower);
    ComputedIsSolid("user", Body(t, b, hash), lower);
    assert "user:" + Body(t, a, hash) == "user" + ":" + Body(t, a, hash);
    assert "user:" + Body(t, b, hash) == "user" + ":" + Body(t, b, hash);
    CrName.LongTargetsMerge(name, name, "user:", Body(t, a, hash), Body(t, b, hash), lower);
  }

  /**
   Two per-user targets whose names become the same when cleaned, and have 57 characters or
   more then, share one custom resource for all their users: one of the two images runs for both.
   */
  lemma LookalikeTargetsMerge(name: string, name': string, t: SubjectKey.Target, t': SubjectKey.Target,
                              a: SubjectKey.Caller, b: SubjectKey.Caller, hash: string -> string, lower: char -> char)
    requires LowerCase(lower) && HexDigest(hash) && IsUuid(t.id) && IsUuid(t'.id)
    requires t.isolation == "per_user" && t'.isolation == "per_user"
    requires CrName.Core(name, lower) == CrName.Core(name', lower) && |CrName.Core(name, lower)| >= 57
    ensures CrName.Normalize(name + "-" + SubjectKey.Key(t, a, hash), lower) == CrName.Normalize(name' + "-" + SubjectKey.Key(t', b, hash), lower)
  {
    KeyParts(t, a, hash);
    KeyParts(t', b, hash);
    ComputedIsSolid("user", Body(t, a, hash), lower);
    ComputedIsSolid("user", Body(t', b, hash), lower);
    assert "user:" + Body(t, a, hash) == "user" + ":" + Body(t, a, hash);
    assert "user:" + Body(t', b, hash) == "user" + ":" + Body(t', b, hash);
    CrName.LongTargetsMerge(name, name', "user:", Body(t, a, hash), Body(t', b, hash), lower);
  }
}
