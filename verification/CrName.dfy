/**
 The name of a Kubernetes custom resource: lower-cased, every other character replaced by a
 hyphen, hyphens trimmed and collapsed by repeated passes, and cut to 63 characters.
 */
module CrName {

  const MAX_LENGTH := 63

  predicate Alphanumeric(c: char) {
    'a' <= c <= 'z' || '0' <= c <= '9'
  }

  predicate Allowed(c: char) {
    Alphanumeric(c) || c == '-'
  }

  /** Lower-casing one character; the allowed characters are already in lower case. */
  ghost predicate IsLower(lower: char -> char) {
    forall c :: Allowed(c) ==> lower(c) == c
  }

  function Sanitize(raw: string, lower: char -> char): (r: string)
    ensures |r| == |raw| && forall i :: 0 <= i < |r| ==> Allowed(r[i])
    ensures forall i :: 0 <= i < |r| ==> r[i] == if Allowed(lower(raw[i])) then lower(raw[i]) else '-'
  {
    seq(|raw|, i requires 0 <= i < |raw| => if Allowed(lower(raw[i])) then lower(raw[i]) else '-')
  }

  function TrimLeft(s: string): string {
    if s != "" && s[0] == '-' then TrimLeft(s[1..]) else s
  }

  function TrimRight(s: string): (r: string)
    ensures r <= s && (r != "" ==> r[|r| - 1] != '-')
    ensures r == "" <==> forall i :: 0 <= i < |s| ==> s[i] == '-'
  {
    if s != "" && s[|s| - 1] == '-' then TrimRight(s[..|s| - 1]) else s
  }

  predicate HasDouble(s: string) {
    exists i :: 0 <= i < |s| - 1 && s[i] == '-' && s[i + 1] == '-'
  }

  /** One pass of `strings.ReplaceAll` from two hyphens to one, left to right. */
  function ReplaceDouble(s: string): (r: string)
    ensures |r| <= |s|
    decreases |s|
  {
    if |s| < 2 then s
    else if s[0] == '-' && s[1] == '-' then "-" + ReplaceDouble(s[2..])
    else [s[0]] + ReplaceDouble(s[1..])
  }

  /** The reference: every maximal run of hyphens becomes one hyphen. */
  function Squeeze(s: string): string {
    if |s| < 2 then s
    else if s[0] == '-' && s[1] == '-' then Squeeze(s[1..])
    else [s[0]] + Squeeze(s[1..])
  }

  lemma {:induction false} PassShrinks(s: string)
    requires HasDouble(s)
    ensures |ReplaceDouble(s)| < |s|
    decreases |s|
  {
    if !(s[0] == '-' && s[1] == '-') {
      var i :| 0 <= i < |s| - 1 && s[i] == '-' && s[i + 1] == '-';
      assert s[1..][i - 1] == '-' && s[1..][i] == '-';
      PassShrinks(s[1..]);
    }
  }

  lemma SqueezeCons(c: char, t: string)
    ensures Squeeze([c] + t) == if c == '-' && t != "" && t[0] == '-' then Squeeze(t) else [c] + Squeeze(t)
  {
    assert ([c] + t)[1..] == t;
    if t == "" {
      assert [c] + t == [c];
    }
  }

  /** A pass does not change what remains when every run is one hyphen, even behind a hyphen. */
  lemma {:induction false} PassKeepsSqueeze(s: string)
    ensures Squeeze(ReplaceDouble(s)) == Squeeze(s)
    ensures Squeeze("-" + ReplaceDouble(s)) == Squeeze("-" + s)
    decreases |s|
  {
    SqueezeCons('-', s);
    SqueezeCons('-', ReplaceDouble(s));
    if |s| < 2 {
    } else if s[0] == '-' && s[1] == '-' {
      var t := s[2..];
      PassKeepsSqueeze(t);
      assert s[1..] == "-" + t;
      SqueezeCons('-', "-" + t);
      assert s == "-" + ("-" + t);
    } else {
      var t := s[1..];
      PassKeepsSqueeze(t);
      assert s == [s[0]] + t;
      SqueezeCons(s[0], t);
      SqueezeCons(s[0], ReplaceDouble(t));
      PassHead(t);
    }
  }

  lemma PassHead(s: string)
    ensures s != "" ==> ReplaceDouble(s) != "" && ReplaceDouble(s)[0] == s[0]
    ensures s == "" ==> ReplaceDouble(s) == ""
  {
  }

  lemma {:induction false} SqueezedAlready(s: string)
    requires !HasDouble(s)
    ensures Squeeze(s) == s
  {
    if |s| >= 2 {
      forall i | 0 <= i < |s[1..]| - 1 ensures !(s[1..][i] == '-' && s[1..][i + 1] == '-') {
        assert s[1..][i] == s[i + 1] && s[1..][i + 1] == s[i + 2];
      }
      SqueezedAlready(s[1..]);
      assert s == [s[0]] + s[1..];
    }
  }

  lemma {:induction false} SqueezeFacts(s: string)
    ensures !HasDouble(Squeeze(s))
    ensures s != "" ==> Squeeze(s) != "" && Squeeze(s)[0] == s[0]
    ensures forall c :: c in Squeeze(s) ==> c in s
    decreases |s|
  {
    if |s| >= 2 {
      SqueezeFacts(s[1..]);
      assert s == [s[0]] + s[1..];
    }
  }

  function Take(s: string, n: nat): string {
    if |s| > n then s[..n] else s
  }

  /** A name before the cut. */
  function Core(raw: string, lower: char -> char): string {
    Squeeze(TrimRight(TrimLeft(Sanitize(raw, lower))))
  }

  function Normalize(raw: string, lower: char -> char): string {
    TrimRight(Take(Core(raw, lower), MAX_LENGTH))
  }

  // ---------- The code ----------

  method CollapseHyphens(s: string) returns (r: string)
    ensures r == Squeeze(s)
  {
    r := s;
    while HasDouble(r)
      invariant Squeeze(r) == Squeeze(s)
      decreases |r|
    {
      PassShrinks(r);
      PassKeepsSqueeze(r);
      r := ReplaceDouble(r);
    }
    SqueezedAlready(r);
  }

  method BuildCrName(targetName: string, subjectKey: string, lower: char -> char) returns (name: string)
    ensures name == Normalize(targetName + "-" + subjectKey, lower)
  {
    var raw := targetName + "-" + subjectKey;
    name := Sanitize(raw, lower);
    name := TrimRight(TrimLeft(name));
    name := CollapseHyphens(name);
    if |name| > MAX_LENGTH {
      name := name[..MAX_LENGTH];
    }
    name := TrimRight(name);
  }

  // ---------- What a name looks like ----------

  /** A label in the sense of section 2.1 of RFC 1123, or nothing; moreover without doubled hyphens. */
  ghost predicate IsLabel(s: string) {
    && |s| <= 63
    && (forall i :: 0 <= i < |s| ==> Allowed(s[i]))
    && (s != "" ==> s[0] != '-' && s[|s| - 1] != '-')
    && !HasDouble(s)
  }

  lemma {:induction false} TrimLeftFacts(s: string)
    ensures TrimLeft(s) != "" ==> TrimLeft(s)[0] != '-'
    ensures TrimLeft(s) == "" <==> forall i :: 0 <= i < |s| ==> s[i] == '-'
    ensures forall c :: c in TrimLeft(s) ==> c in s
    decreases |s|
  {
    if s != "" && s[0] == '-' {
      var t := s[1..];
      TrimLeftFacts(t);
      assert s == "-" + t;
      assert forall i :: 0 <= i < |t| ==> t[i] == s[i + 1];
      assert forall i :: 0 < i < |s| ==> s[i] == t[i - 1];
    }
  }

  lemma NoDoublePrefix(s: string, r: string)
    requires !HasDouble(s) && r <= s
    ensures !HasDouble(r)
  {
    forall i | 0 <= i < |r| - 1 ensures !(r[i] == '-' && r[i + 1] == '-') {
      assert r[i] == s[i] && r[i + 1] == s[i + 1];
    }
  }

  /** Every name is a label or empty, and empty exactly when no character lower-cases to a letter or digit. */
  lemma NamesAreLabels(raw: string, lower: char -> char)
    ensures IsLabel(Normalize(raw, lower))
    ensures Normalize(raw, lower) == "" <==> forall i :: 0 <= i < |raw| ==> !Alphanumeric(lower(raw[i]))
  {
    var s := Sanitize(raw, lower);
    var t := TrimLeft(s);
    TrimLeftFacts(s);
    var u := TrimRight(t);
    var v := Squeeze(u);
    SqueezeFacts(u);
    var w := Take(v, MAX_LENGTH);
    var r := TrimRight(w);
    NoDoublePrefix(v, r);
    forall i | 0 <= i < |r| ensures Allowed(r[i]) {
      assert r[i] == v[i] && v[i] in v;
      assert v[i] in t && v[i] in s;
    }
    if t != "" {
      assert u[0] == t[0] && v[0] == u[0] && w[0] == v[0];
      assert s[0..] == s;
      AlphanumericFound(raw, lower);
    } else {
      AlphanumericFound(raw, lower);
    }
  }

  lemma AlphanumericFound(raw: string, lower: char -> char)
    ensures (forall i :: 0 <= i < |raw| ==> Sanitize(raw, lower)[i] == '-') <==> forall i :: 0 <= i < |raw| ==> !Alphanumeric(lower(raw[i]))
  {
    forall i | 0 <= i < |raw| ensures Sanitize(raw, lower)[i] == '-' <==> !Alphanumeric(lower(raw[i])) {
    }
  }

  lemma {:induction false} TrimLeftStops(s: string, i: nat)
    requires i < |s| && s[i] != '-'
    requires forall j :: 0 <= j < i ==> s[j] == '-'
    ensures TrimLeft(s) == s[i..]
    decreases i
  {
    if i > 0 {
      assert s[1..][i - 1] == s[i];
      assert forall j :: 0 <= j < i - 1 ==> s[1..][j] == s[j + 1];
      TrimLeftStops(s[1..], i - 1);
      assert s[1..][i - 1..] == s[i..];
    }
  }

  /**
   A name starts with the first letter or digit of its input. So it is a label in the stricter
   sense of section 2.3.1 of RFC 1035, which must start with a letter, only if that is a letter.
   */
  lemma NameStartsWithFirstKept(raw: string, lower: char -> char, i: nat)
    requires i < |raw| && Alphanumeric(lower(raw[i]))
    requires forall j :: 0 <= j < i ==> !Alphanumeric(lower(raw[j]))
    ensures Normalize(raw, lower) != "" && Normalize(raw, lower)[0] == lower(raw[i])
  {
    var s := Sanitize(raw, lower);
    NamesAreLabels(raw, lower);
    TrimLeftStops(s, i);
    SqueezeFacts(TrimRight(TrimLeft(s)));
  }

  // ---------- Labels that must start with a letter ----------

  predicate Letter(c: char) {
    'a' <= c <= 'z' || 'A' <= c <= 'Z'
  }

  /** A label in the sense of section 2.3.1 of RFC 1035. */
  predicate IsRfc1035Label(s: string) {
    && 0 < |s| <= 63
    && Letter(s[0])
    && (Letter(s[|s| - 1]) || '0' <= s[|s| - 1] <= '9')
    && forall i :: 0 <= i < |s| ==> Letter(s[i]) || '0' <= s[i] <= '9' || s[i] == '-'
  }

  predicate FirstKept(raw: string, lower: char -> char, i: nat)
    requires i < |raw|
  {
    Alphanumeric(lower(raw[i])) && forall j :: 0 <= j < i ==> !Alphanumeric(lower(raw[j]))
  }

  lemma {:induction false} SomeFirstKept(raw: string, lower: char -> char, k: nat) returns (i: nat)
    requires k < |raw| && Alphanumeric(lower(raw[k]))
    ensures i < |raw| && FirstKept(raw, lower, i)
    decreases k
  {
    if j :| 0 <= j < k && Alphanumeric(lower(raw[j])) {
      i := SomeFirstKept(raw, lower, j);
    } else {
      i := k;
    }
  }

  /** A name is such a label exactly when the first letter or digit of its input is a letter. */
  lemma Rfc1035Exactly(raw: string, lower: char -> char)
    ensures IsRfc1035Label(Normalize(raw, lower)) <==>
            exists i :: 0 <= i < |raw| && FirstKept(raw, lower, i) && 'a' <= lower(raw[i]) <= 'z'
  {
    NamesAreLabels(raw, lower);
    var name := Normalize(raw, lower);
    if name != "" {
      var k :| 0 <= k < |raw| && Alphanumeric(lower(raw[k]));
      var i := SomeFirstKept(raw, lower, k);
      NameStartsWithFirstKept(raw, lower, i);
      assert Allowed(name[|name| - 1]) && name[|name| - 1] != '-';
      forall j | 0 <= j < |raw| && FirstKept(raw, lower, j) ensures j == i {
      }
    }
  }

  /** No custom resource of a target named "1password" has a name that its Service may bear. */
  lemma DigitFirst(subjectKey: string, lower: char -> char)
    requires IsLower(lower)
    ensures !IsRfc1035Label(Normalize("1password" + "-" + subjectKey, lower))
  {
    var raw := "1password" + "-" + subjectKey;
    assert raw[0] == '1' && Allowed('1') && lower('1') == '1';
    NameStartsWithFirstKept(raw, lower, 0);
  }

  // ---------- When two subject keys of a target share a name ----------

  /** A non-empty label without doubled hyphens, as a subject key becomes when cleaned. */
  ghost predicate Solid(s: string) {
    s != "" && s[0] != '-' && s[|s| - 1] != '-' && !HasDouble(s)
  }

  /** How many characters the cut leaves behind such a core and a hyphen. */
  function RoomBehind(core: string): int {
    if core == "" then MAX_LENGTH else MAX_LENGTH - |core| - 1
  }

  function Room(target: string, lower: char -> char): int {
    RoomBehind(Core(target, lower))
  }

  lemma {:induction false} SqueezeAppend(x: string, y: string)
    requires x != "" && x[|x| - 1] != '-'
    ensures Squeeze(x + y) == Squeeze(x) + Squeeze(y)
    decreases |x|
  {
    assert x + y == [x[0]] + (x[1..] + y);
    assert x == [x[0]] + x[1..];
    SqueezeCons(x[0], x[1..] + y);
    SqueezeCons(x[0], x[1..]);
    if |x| > 1 {
      SqueezeAppend(x[1..], y);
    } else {
      assert x[1..] + y == y;
      assert Squeeze(x) == x;
    }
  }

  lemma {:induction false} SqueezeHyphens(h: string, k: string)
    requires (forall i :: 0 <= i < |h| ==> h[i] == '-') && h != "" && Solid(k)
    ensures Squeeze(h + k) == "-" + k
    decreases |h|
  {
    SqueezedAlready(k);
    assert h + k == "-" + (h[1..] + k);
    SqueezeCons('-', h[1..] + k);
    if |h| > 1 {
      SqueezeHyphens(h[1..], k);
    } else {
      assert h[1..] + k == k;
    }
  }

  lemma {:induction false} TrimLeftAppend(s: string, t: string)
    ensures TrimLeft(s + t) == if TrimLeft(s) == "" then TrimLeft(t) else TrimLeft(s) + t
    decreases |s|
  {
    if s == "" {
      assert s + t == t;
    } else if s[0] == '-' {
      assert (s + t)[1..] == s[1..] + t;
      TrimLeftAppend(s[1..], t);
    }
  }

  lemma {:induction false} TrimRightSplits(s: string) returns (h: string)
    ensures s == TrimRight(s) + h && forall i :: 0 <= i < |h| ==> h[i] == '-'
    decreases |s|
  {
    if s != "" && s[|s| - 1] == '-' {
      var rest := TrimRightSplits(s[..|s| - 1]);
      h := rest + "-";
      assert s == s[..|s| - 1] + "-";
    } else {
      h := "";
    }
  }

  lemma SanitizeParts(target: string, key: string, lower: char -> char)
    requires IsLower(lower)
    ensures Sanitize(target + "-" + key, lower) == Sanitize(target, lower) + ("-" + Sanitize(key, lower))
  {
    assert Allowed('-') && lower('-') == '-';
  }

  lemma Regroup(a: string, b: string, c: string)
    ensures (a + b) + c == a + (b + c)
  {
  }

  /** A trimmed part, a hyphen and a solid one: only the runs inside and between them are squeezed. */
  lemma SqueezeParts(u: string, k: string)
    requires Solid(k) && TrimRight(u) != ""
    ensures Squeeze(u + ("-" + k)) == Squeeze(TrimRight(u)) + ("-" + k)
  {
    var body := TrimRight(u);
    var h := TrimRightSplits(u);
    var tail := h + ("-" + k);
    Regroup(h, "-", k);
    SqueezeHyphens(h + "-", k);
    SqueezeAppend(body, tail);
    Regroup(body, h, "-" + k);
  }

  lemma Untrimmed(u: string, k: string)
    requires Solid(k)
    ensures TrimRight(u + ("-" + k)) == u + ("-" + k) && TrimRight(k) == k && TrimLeft("-" + k) == k
  {
    assert ("-" + k)[1..] == k;
  }

  /** The core of a target's name, a hyphen and a cleaned key. */
  function Whole(core: string, k: string): string {
    if core == "" then k else core + ("-" + k)
  }

  lemma NameParts(target: string, key: string, lower: char -> char)
    requires IsLower(lower) && Solid(Sanitize(key, lower))
    ensures Core(target + "-" + key, lower) == Whole(Core(target, lower), Sanitize(key, lower))
  {
    var s, k := Sanitize(target, lower), Sanitize(key, lower);
    var u := TrimLeft(s);
    SanitizeParts(target, key, lower);
    TrimLeftAppend(s, "-" + k);
    TrimLeftFacts(s);
    Untrimmed(u, k);
    SqueezedAlready(k);
    SqueezeFacts(TrimRight(u));
    if u != "" {
      SqueezeParts(u, k);
    }
  }

  lemma {:induction false} TrimRightAppend(p: string, x: string)
    requires x != "" && x[0] != '-'
    ensures TrimRight(p + x) == p + TrimRight(x)
    decreases |x|
  {
    if x[|x| - 1] == '-' {
      assert (p + x)[..|p + x| - 1] == p + x[..|x| - 1];
      TrimRightAppend(p, x[..|x| - 1]);
    }
  }

  lemma TakeBehind(p: string, k: string, n: nat)
    requires |p| <= n
    ensures Take(p + k, n) == p + Take(k, n - |p|)
  {
  }

  lemma TakeBefore(p: string, k: string, n: nat)
    requires n <= |p|
    ensures Take(p + k, n) == Take(p, n)
  {
    assert (p + k)[..n] == p[..n];
    assert n == |p| ==> p[..n] == p;
    assert k == "" ==> p + k == p;
  }

  lemma TrimOne(p: string)
    ensures TrimRight(p + "-") == TrimRight(p)
  {
    assert (p + "-")[..|p + "-"| - 1] == p;
  }

  /** A name after the cut, by the room that its first part leaves. */
  function Cut(core: string, k: string, room: int): string {
    if room <= 0 then TrimRight(Take(core, MAX_LENGTH))
    else (if core == "" then "" else core + "-") + TrimRight(Take(k, room))
  }

  lemma CutParts(core: string, k: string)
    requires core != "" && Solid(k)
    ensures TrimRight(Take(Whole(core, k), MAX_LENGTH)) == Cut(core, k, MAX_LENGTH - |core| - 1)
  {
    var room := MAX_LENGTH - |core| - 1;
    if room < 0 {
      TakeBefore(core, "-" + k, MAX_LENGTH);
    } else {
      Regroup(core, "-", k);
      TakeBehind(core + "-", k, MAX_LENGTH);
      if room == 0 {
        assert (core + "-") + Take(k, 0) == core + "-";
        TrimOne(core);
      } else {
        TrimRightAppend(core + "-", Take(k, room));
      }
    }
  }

  lemma CutWhole(core: string, k: string)
    requires Solid(k)
    ensures TrimRight(Take(Whole(core, k), MAX_LENGTH)) == Cut(core, k, RoomBehind(core))
  {
    if core != "" {
      CutParts(core, k);
    } else {
      assert "" + TrimRight(Take(k, MAX_LENGTH)) == TrimRight(Take(k, MAX_LENGTH));
    }
  }

  lemma CutCore(raw: string, core: string, k: string, lower: char -> char)
    requires Solid(k) && Core(raw, lower) == Whole(core, k)
    ensures Normalize(raw, lower) == Cut(core, k, RoomBehind(core))
  {
    CutWhole(core, k);
  }

  lemma CutsCollide(core: string, k: string, k': string, room: int)
    ensures Cut(core, k, room) == Cut(core, k', room) <==> room <= 0 || TrimRight(Take(k, room)) == TrimRight(Take(k', room))
  {
    if room > 0 {
      var p, x, y := if core == "" then "" else core + "-", TrimRight(Take(k, room)), TrimRight(Take(k', room));
      if p + x == p + y {
        assert x == (p + x)[|p|..] == (p + y)[|p|..] == y;
      }
    }
  }

  /**
   Two subject keys of one target share a custom resource, and so a Pod, exactly when the cut
   leaves no room for the key or leaves equal parts of both.
   */
  lemma NamesCollideExactly(target: string, a: string, b: string, lower: char -> char)
    requires IsLower(lower) && Solid(Sanitize(a, lower)) && Solid(Sanitize(b, lower))
    ensures var room := Room(target, lower);
            Normalize(target + "-" + a, lower) == Normalize(target + "-" + b, lower) <==>
            room <= 0 || TrimRight(Take(Sanitize(a, lower), room)) == TrimRight(Take(Sanitize(b, lower), room))
  {
    NameParts(target, a, lower);
    NameParts(target, b, lower);
    RawsCollide(target + "-" + a, target + "-" + b, Core(target, lower), Sanitize(a, lower), Sanitize(b, lower), lower);
  }

  lemma RawsCollide(raw: string, raw': string, core: string, k: string, k': string, lower: char -> char)
    requires Solid(k) && Solid(k') && Core(raw, lower) == Whole(core, k) && Core(raw', lower) == Whole(core, k')
    ensures var room := RoomBehind(core);
            Normalize(raw, lower) == Normalize(raw', lower) <==>
            room <= 0 || TrimRight(Take(k, room)) == TrimRight(Take(k', room))
  {
    CutCore(raw, core, k, lower);
    CutCore(raw', core, k', lower);
    CutsCollide(core, k, k', RoomBehind(core));
  }

  lemma TrimLosesOne(p: string)
    requires !HasDouble(p)
    ensures TrimRight(p) == if p != "" && p[|p| - 1] == '-' then p[..|p| - 1] else p
  {
    if |p| >= 2 && p[|p| - 1] == '-' {
      assert p[|p| - 2] != '-';
      assert p[..|p| - 1][|p| - 2] == p[|p| - 2];
    }
  }

  /** Equal, or equal but for a hyphen that trimming takes off the end. */
  predicate SameTrimmed(p: string, q: string) {
    p == q || p == q + "-" || q == p + "-"
  }

  lemma Untrim(p: string)
    requires !HasDouble(p)
    ensures p == TrimRight(p) || p == TrimRight(p) + "-"
  {
    TrimLosesOne(p);
    if p != "" && p[|p| - 1] == '-' {
      assert p == p[..|p| - 1] + "-";
    }
  }

  lemma TrimsEqual(p: string, q: string)
    requires !HasDouble(p) && !HasDouble(q)
    ensures TrimRight(p) == TrimRight(q) <==> SameTrimmed(p, q)
  {
    Untrim(p);
    Untrim(q);
    TrimOne(p);
    TrimOne(q);
  }

  /**
   Any two targets and keys share a custom resource exactly when the cleaned texts of target
   and key agree in their first 63 characters, but for a hyphen at the end.
   */
  lemma TargetsCollideExactly(target: string, a: string, other: string, b: string, lower: char -> char)
    requires IsLower(lower) && Solid(Sanitize(a, lower)) && Solid(Sanitize(b, lower))
    ensures Normalize(target + "-" + a, lower) == Normalize(other + "-" + b, lower) <==>
            SameTrimmed(Take(Whole(Core(target, lower), Sanitize(a, lower)), MAX_LENGTH),
                        Take(Whole(Core(other, lower), Sanitize(b, lower)), MAX_LENGTH))
  {
    NameParts(target, a, lower);
    NameParts(other, b, lower);
    CoresCollide(target + "-" + a, other + "-" + b, lower);
  }

  lemma CoresCollide(raw: string, raw': string, lower: char -> char)
    ensures Normalize(raw, lower) == Normalize(raw', lower) <==>
            SameTrimmed(Take(Core(raw, lower), MAX_LENGTH), Take(Core(raw', lower), MAX_LENGTH))
  {
    SqueezeFacts(TrimRight(TrimLeft(Sanitize(raw, lower))));
    SqueezeFacts(TrimRight(TrimLeft(Sanitize(raw', lower))));
    NoDoublePrefix(Core(raw, lower), Take(Core(raw, lower), MAX_LENGTH));
    NoDoublePrefix(Core(raw', lower), Take(Core(raw', lower), MAX_LENGTH));
    TrimsEqual(Take(Core(raw, lower), MAX_LENGTH), Take(Core(raw', lower), MAX_LENGTH));
  }

  lemma CoreOfSolid(s: string, lower: char -> char)
    requires IsLower(lower) && Solid(s) && forall i :: 0 <= i < |s| ==> Allowed(s[i])
    ensures Core(s, lower) == s
  {
    assert Sanitize(s, lower) == s;
    SqueezedAlready(s);
  }

  lemma SamePrefix(prefix: string, a: string, b: string, n: nat, lower: char -> char)
    requires n <= |prefix|
    ensures Take(Sanitize(prefix + a, lower), n) == Take(Sanitize(prefix + b, lower), n)
  {
    var x, y := Sanitize(prefix + a, lower), Sanitize(prefix + b, lower);
    forall i | 0 <= i < n ensures x[i] == y[i] {
      assert (prefix + a)[i] == prefix[i] == (prefix + b)[i];
    }
    assert x[..n] == y[..n];
    assert n == |x| ==> x[..n] == x;
    assert n == |y| ==> y[..n] == y;
  }

  /** So keys that agree on a prefix all share one custom resource of targets whose cleaned names are equal and long enough. */
  lemma LongTargetsMerge(target: string, other: string, prefix: string, a: string, b: string, lower: char -> char)
    requires IsLower(lower) && Solid(Sanitize(prefix + a, lower)) && Solid(Sanitize(prefix + b, lower))
    requires Core(target, lower) == Core(other, lower) && Room(target, lower) <= |prefix|
    ensures Normalize(target + "-" + (prefix + a), lower) == Normalize(other + "-" + (prefix + b), lower)
  {
    var x, y := prefix + a, prefix + b;
    NameParts(target, x, lower);
    NameParts(other, y, lower);
    RawsCollide(target + "-" + x, other + "-" + y, Core(target, lower), Sanitize(x, lower), Sanitize(y, lower), lower);
    if Room(target, lower) > 0 {
      SamePrefix(prefix, a, b, Room(target, lower), lower);
    }
  }

  /** Normalising a name again changes nothing. */
  lemma NormalizeIdempotent(raw: string, lower: char -> char)
    requires IsLower(lower)
    ensures Normalize(Normalize(raw, lower), lower) == Normalize(raw, lower)
  {
    NamesAreLabels(raw, lower);
    LabelIsFixed(Normalize(raw, lower), lower);
  }

  lemma LabelStays(s: string, lower: char -> char)
    requires IsLower(lower) && IsLabel(s)
    ensures Normalize(s, lower) == s
  {
    if s != "" {
      CoreOfSolid(s, lower);
      assert Take(s, MAX_LENGTH) == s && TrimRight(s) == s;
    }
  }

  /** The labels are exactly the names that normalisation leaves alone. */
  lemma LabelIsFixed(s: string, lower: char -> char)
    requires IsLower(lower)
    ensures Normalize(s, lower) == s <==> IsLabel(s)
  {
    if IsLabel(s) {
      LabelStays(s, lower);
    } else {
      NamesAreLabels(s, lower);
    }
  }
}
