/**
 The key under which a caller's isolated process is shared: a prefix naming the isolation
 boundary and a truncated hash of the caller's part and the target. Groups enter sorted and
 joined with commas.
 */
module SubjectKey {
  import opened Text
  import opened GatewaySession

  // ---------- Sorting strings ----------

  /** Byte-wise lexicographic order. */
  predicate Le(a: string, b: string) {
    if a == "" then true
    else if b == "" then false
    else a[0] < b[0] || (a[0] == b[0] && Le(a[1..], b[1..]))
  }

  lemma {:induction false} LeTotal(a: string, b: string)
    ensures Le(a, b) || Le(b, a)
  {
    if a != "" && b != "" && a[0] == b[0] {
      LeTotal(a[1..], b[1..]);
    }
  }

  lemma {:induction false} LeAntisymmetric(a: string, b: string)
    requires Le(a, b) && Le(b, a)
    ensures a == b
  {
    if a != "" && b != "" {
      LeAntisymmetric(a[1..], b[1..]);
      assert a == [a[0]] + a[1..] && b == [b[0]] + b[1..];
    }
  }

  lemma {:induction false} LeTransitive(a: string, b: string, c: string)
    requires Le(a, b) && Le(b, c)
    ensures Le(a, c)
  {
    if a != "" && b != "" && c != "" && a[0] == b[0] == c[0] {
      LeTransitive(a[1..], b[1..], c[1..]);
    }
  }

  ghost predicate Sorted(s: seq<string>) {
    forall i, j :: 0 <= i < j < |s| ==> Le(s[i], s[j])
  }

  function Insert(x: string, s: seq<string>): seq<string> {
    if s == [] || Le(x, s[0]) then [x] + s else [s[0]] + Insert(x, s[1..])
  }

  /** `sort.Strings` on a copy of the list. */
  function Sort(s: seq<string>): seq<string> {
    if s == [] then [] else Insert(s[0], Sort(s[1..]))
  }

  lemma {:induction false} InsertSorted(x: string, s: seq<string>)
    requires Sorted(s)
    ensures Sorted(Insert(x, s)) && multiset(Insert(x, s)) == multiset(s) + multiset{x}
  {
    if s == [] {
    } else if Le(x, s[0]) {
      forall j | 0 <= j < |s| ensures Le(x, s[j]) {
        if j > 0 {
          LeTransitive(x, s[0], s[j]);
        }
      }
    } else {
      InsertSorted(x, s[1..]);
      LeTotal(x, s[0]);
      var rest := Insert(x, s[1..]);
      assert s == [s[0]] + s[1..];
      forall j | 0 <= j < |rest| ensures Le(s[0], rest[j]) {
        assert rest[j] in multiset(rest);
        assert rest[j] == x || rest[j] in s[1..];
      }
    }
  }

  lemma {:induction false} SortSorts(s: seq<string>)
    ensures Sorted(Sort(s)) && multiset(Sort(s)) == multiset(s)
  {
    if s != [] {
      SortSorts(s[1..]);
      InsertSorted(s[0], Sort(s[1..]));
      assert s == [s[0]] + s[1..];
    }
  }

  lemma HeadIsLeast(s: seq<string>, x: string)
    requires Sorted(s) && x in s
    ensures Le(s[0], x)
  {
    var i :| 0 <= i < |s| && s[i] == x;
    LeTotal(x, x);
  }

  lemma HeadsEqual(a: seq<string>, b: seq<string>)
    requires Sorted(a) && Sorted(b) && multiset(a) == multiset(b) && a != [] && b != []
    ensures a[0] == b[0]
  {
    assert a[0] in multiset(b) && b[0] in multiset(a);
    HeadIsLeast(a, b[0]);
    HeadIsLeast(b, a[0]);
    LeAntisymmetric(a[0], b[0]);
  }

  lemma TailMultiset(s: seq<string>)
    requires s != []
    ensures multiset(s[1..]) == multiset(s) - multiset{s[0]}
  {
    assert s == [s[0]] + s[1..];
  }

  /** A multiset of strings has only one sorted arrangement, so it does not matter how the library sorts. */
  lemma {:induction false} SortedUnique(a: seq<string>, b: seq<string>)
    requires Sorted(a) && Sorted(b) && multiset(a) == multiset(b)
    ensures a == b
  {
    assert |multiset(a)| == |a| && |multiset(b)| == |b|;
    if a != [] {
      HeadsEqual(a, b);
      TailMultiset(a);
      TailMultiset(b);
      SortedUnique(a[1..], b[1..]);
      assert a == [a[0]] + a[1..] && b == [b[0]] + b[1..];
    }
  }

  // ---------- The key ----------

  datatype Boundary = PerUser | PerRole | PerGroup | Shared

  /** Any other word means shared. */
  function BoundaryOf(word: string): Boundary {
    if word == "per_user" then PerUser
    else if word == "per_role" then PerRole
    else if word == "per_group" then PerGroup
    else Shared
  }

  datatype Target = Target(id: TargetId, isolation: string)

  datatype Caller = Caller(userId: string, role: string, groups: seq<string>)

  function GroupPart(groups: seq<string>): string {
    if |groups| > 0 then Join(Sort(groups), ',') else ""
  }

  /** What the hash is computed from. */
  function Hashed(t: Target, c: Caller): string {
    (match BoundaryOf(t.isolation)
     case PerUser => c.userId
     case PerRole => c.role
     case PerGroup => GroupPart(c.groups)
     case Shared => "")
    + ":" + t.id
  }

  method ComputeSubjectKey(t: Target, c: Caller, hash: string -> string) returns (key: string)
    ensures key == Key(t, c, hash)
  {
    if t.isolation == "per_user" {
      return "user:" + hash(c.userId + ":" + t.id);
    } else if t.isolation == "per_role" {
      return "role:" + hash(c.role + ":" + t.id);
    } else if t.isolation == "per_group" {
      var group := "";
      if |c.groups| > 0 {
        var sorted := Sort(c.groups);
        group := Join(sorted, ',');
      }
      return "group:" + hash(group + ":" + t.id);
    } else {
      return "shared:" + t.id;
    }
  }

  function Key(t: Target, c: Caller, hash: string -> string): string {
    match BoundaryOf(t.isolation)
    case PerUser => "user:" + hash(Hashed(t, c))
    case PerRole => "role:" + hash(Hashed(t, c))
    case PerGroup => "group:" + hash(Hashed(t, c))
    case Shared => "shared:" + t.id
  }

  /** The same groups in any order; no group at all counts as the one empty name. */
  predicate SameGroups(a: seq<string>, b: seq<string>) {
    multiset(a) == multiset(b) || (a in [[], [""]] && b in [[], [""]])
  }

  predicate SameClass(boundary: Boundary, a: Caller, b: Caller) {
    match boundary
    case PerUser => a.userId == b.userId
    case PerRole => a.role == b.role
    case PerGroup => SameGroups(a.groups, b.groups)
    case Shared => true
  }

  ghost predicate CommaFree(groups: seq<string>) {
    forall i :: 0 <= i < |groups| ==> ',' !in groups[i]
  }

  lemma SortCommaFree(groups: seq<string>)
    requires CommaFree(groups)
    ensures CommaFree(Sort(groups)) && |Sort(groups)| == |groups|
  {
    SortSorts(groups);
    var s := Sort(groups);
    assert |multiset(s)| == |s| && |multiset(groups)| == |groups|;
    forall i | 0 <= i < |s| ensures ',' !in s[i] {
      assert s[i] in multiset(groups);
    }
  }

  lemma JoinEmpty(parts: seq<string>)
    ensures Join(parts, ',') == "" <==> parts in [[], [""]]
  {
    if |parts| == 1 {
      assert parts == [parts[0]];
    }
  }

  lemma PrefixCancels(p: string, x: string, y: string)
    ensures p + x == p + y <==> x == y
  {
    if p + x == p + y {
      assert x == (p + x)[|p|..] == (p + y)[|p|..] == y;
    }
  }

  lemma {:induction false} SingleSort(g: string)
    ensures Sort([g]) == [g]
  {
    assert [g][1..] == [];
  }

  lemma EmptyGroupPart(groups: seq<string>)
    ensures GroupPart(groups) == "" <==> groups in [[], [""]]
  {
    SortSorts(groups);
    assert |multiset(Sort(groups))| == |multiset(groups)|;
    JoinEmpty(Sort(groups));
    if |groups| == 1 {
      assert groups == [groups[0]];
      SingleSort(groups[0]);
    }
  }

  /** The group part tells comma-free group lists apart exactly as multisets. */
  lemma GroupPartExact(a: seq<string>, b: seq<string>)
    requires CommaFree(a) && CommaFree(b)
    ensures GroupPart(a) == GroupPart(b) <==> SameGroups(a, b)
  {
    EmptyGroupPart(a);
    EmptyGroupPart(b);
    SortSorts(a);
    SortSorts(b);
    if multiset(a) == multiset(b) {
      SortedUnique(Sort(a), Sort(b));
      assert |multiset(a)| == |a| && |multiset(b)| == |b|;
    }
    if GroupPart(a) == GroupPart(b) && a != [] && b != [] {
      SortCommaFree(a);
      SortCommaFree(b);
      SplitJoin(Sort(a), ',');
      SplitJoin(Sort(b), ',');
    }
  }

  lemma SuffixSplit(a: string, t: TargetId, b: string, u: TargetId)
    ensures a + ":" + t == b + ":" + u <==> a == b && t == u
  {
    if a + ":" + t == b + ":" + u {
      var s := a + ":" + t;
      assert |s| == |a| + 37 == |b| + 37;
      assert s[..|a|] == a == b;
      assert s[|a| + 1..] == t == u;
    }
  }

  lemma HashedExact(t: Target, a: Caller, u: Target, b: Caller)
    requires BoundaryOf(t.isolation) == BoundaryOf(u.isolation)
    requires BoundaryOf(t.isolation) == PerGroup ==> CommaFree(a.groups) && CommaFree(b.groups)
    ensures Hashed(t, a) == Hashed(u, b) <==> t.id == u.id && SameClass(BoundaryOf(t.isolation), a, b)
  {
    match BoundaryOf(t.isolation)
    case PerUser => SuffixSplit(a.userId, t.id, b.userId, u.id);
    case PerRole => SuffixSplit(a.role, t.id, b.role, u.id);
    case PerGroup =>
      GroupPartExact(a.groups, b.groups);
      SuffixSplit(GroupPart(a.groups), t.id, GroupPart(b.groups), u.id);
    case Shared => SuffixSplit("", t.id, "", u.id);
  }

  function FirstLetter(b: Boundary): char {
    match b case PerUser => 'u' case PerRole => 'r' case PerGroup => 'g' case Shared => 's'
  }

  lemma KeyHead(t: Target, c: Caller, hash: string -> string)
    ensures Key(t, c, hash) != "" && Key(t, c, hash)[0] == FirstLetter(BoundaryOf(t.isolation))
  {
  }

  /**
   Unless the truncated hash collides on the two inputs at hand, two callers share a key
   exactly when they share the target, the isolation boundary and the isolation class.
   Group names must be free of commas.
   */
  lemma SharedKeys(t: Target, a: Caller, u: Target, b: Caller, hash: string -> string)
    requires hash(Hashed(t, a)) == hash(Hashed(u, b)) ==> Hashed(t, a) == Hashed(u, b)
    requires BoundaryOf(t.isolation) == PerGroup ==> CommaFree(a.groups)
    requires BoundaryOf(u.isolation) == PerGroup ==> CommaFree(b.groups)
    ensures Key(t, a, hash) == Key(u, b, hash)
      <==> t.id == u.id && BoundaryOf(t.isolation) == BoundaryOf(u.isolation) && SameClass(BoundaryOf(t.isolation), a, b)
  {
    KeyHead(t, a, hash);
    KeyHead(u, b, hash);
    if BoundaryOf(t.isolation) == BoundaryOf(u.isolation) {
      HashedExact(t, a, u, b);
      var h, k := hash(Hashed(t, a)), hash(Hashed(u, b));
      match BoundaryOf(t.isolation)
      case PerUser => PrefixCancels("user:", h, k);
      case PerRole => PrefixCancels("role:", h, k);
      case PerGroup => PrefixCancels("group:", h, k);
      case Shared => PrefixCancels("shared:", t.id, u.id);
    }
  }

  /** Whether a name can be read as two sorted parts joined by one of its commas. */
  predicate ReadsAsTwo(name: string) {
    exists i :: 0 <= i < |name| && SplitsInOrder(name, i)
  }

  predicate SplitsInOrder(name: string, i: nat)
    requires i < |name|
  {
    name[i] == ',' && Le(name[..i], name[i + 1..])
  }

  lemma {:induction false} PrefixLe(p: string, q: string)
    ensures Le(p, p + q)
  {
    if p != "" {
      PrefixLe(p[1..], q);
      assert (p + q)[1..] == p[1..] + q;
    }
  }

  lemma SortPair(p: string, q: string)
    requires Le(p, q)
    ensures Sort([p, q]) == [p, q]
  {
    SingleSort(q);
    assert [p, q][1..] == [q];
    assert Insert(p, [q]) == [p] + [q];
  }

  lemma JoinPair(p: string, q: string)
    ensures Join([p, q], ',') == p + "," + q
  {
    assert [p, q][1..] == [q];
  }

  lemma JoinStarts(parts: seq<string>)
    requires parts != []
    ensures Le(parts[0], Join(parts, ','))
  {
    if |parts| == 1 {
      LeTotal(parts[0], parts[0]);
    } else {
      PrefixLe(parts[0], "," + Join(parts[1..], ','));
      assert parts[0] + ("," + Join(parts[1..], ',')) == Join(parts, ',');
    }
  }

  lemma SortedJoinReadsAsTwo(parts: seq<string>)
    requires |parts| >= 2 && Le(parts[0], parts[1])
    ensures ReadsAsTwo(Join(parts, ','))
  {
    var rest := parts[1..];
    JoinStarts(rest);
    LeTransitive(parts[0], rest[0], Join(rest, ','));
    SplitsHere(parts[0], Join(rest, ','));
  }

  lemma SplitsHere(p: string, q: string)
    requires Le(p, q)
    ensures ReadsAsTwo(p + [','] + q)
  {
    var name := p + [','] + q;
    assert name[..|p|] == p && name[|p| + 1..] == q;
    assert SplitsInOrder(name, |p|);
  }

  lemma LongListReadsAsTwo(b: seq<string>)
    requires |b| >= 2
    ensures ReadsAsTwo(GroupPart(b))
  {
    SortSorts(b);
    assert |multiset(Sort(b))| == |multiset(b)|;
    SortedJoinReadsAsTwo(Sort(b));
  }

  /**
   Without any assumption on names: a list of groups shares its group part with no other list
   exactly when it has at most one name and that name cannot be read as two sorted parts.
   */
  lemma UnmistakableExactly(a: seq<string>)
    ensures (forall b :: GroupPart(a) == GroupPart(b) ==> SameGroups(a, b)) <==> |a| <= 1 && (a != [] ==> !ReadsAsTwo(a[0]))
  {
    if |a| <= 1 && (a != [] ==> !ReadsAsTwo(a[0])) {
      forall b | GroupPart(a) == GroupPart(b) ensures SameGroups(a, b) {
        ShortLists(a, b);
      }
    } else {
      var b := Impostor(a);
    }
  }

  lemma SinglePart(g: string)
    ensures GroupPart([g]) == g
  {
    SingleSort(g);
  }

  lemma PairPart(p: string, q: string)
    requires Le(p, q)
    ensures GroupPart([p, q]) == p + "," + q
  {
    SortPair(p, q);
    JoinPair(p, q);
  }

  lemma Halves(name: string) returns (p: string, q: string)
    requires ReadsAsTwo(name)
    ensures Le(p, q) && p + "," + q == name
  {
    var i :| 0 <= i < |name| && SplitsInOrder(name, i);
    p, q := name[..i], name[i + 1..];
  }

  lemma Impostor(a: seq<string>) returns (b: seq<string>)
    requires |a| >= 2 || (|a| == 1 && ReadsAsTwo(a[0]))
    ensures GroupPart(a) == GroupPart(b) && !SameGroups(a, b)
  {
    if |a| >= 2 {
      b := [GroupPart(a)];
      SinglePart(GroupPart(a));
    } else {
      var p, q := Halves(a[0]);
      b := [p, q];
      SinglePart(a[0]);
      PairPart(p, q);
      assert a == [a[0]];
    }
    assert |multiset(a)| == |a| && |multiset(b)| == |b|;
  }

  lemma ShortLists(a: seq<string>, b: seq<string>)
    requires |a| <= 1 && (a != [] ==> !ReadsAsTwo(a[0])) && GroupPart(a) == GroupPart(b)
    ensures SameGroups(a, b)
  {
    EmptyGroupPart(a);
    EmptyGroupPart(b);
    if |a| == 1 {
      SingleSort(a[0]);
      assert a == [a[0]] && GroupPart(a) == a[0];
    }
    if |b| >= 2 {
      LongListReadsAsTwo(b);
    } else if |b| == 1 {
      SingleSort(b[0]);
      assert b == [b[0]];
    }
  }

  /** The two words mean one boundary: the same word, or both none of the three that isolate. */
  predicate SameWord(x: string, y: string) {
    x == y || (x !in {"per_user", "per_role", "per_group"} && y !in {"per_user", "per_role", "per_group"})
  }

  /** The theorem on the configured words: what a target set to each of them isolates. */
  lemma SharedKeysByWord(t: Target, a: Caller, u: Target, b: Caller, hash: string -> string)
    requires hash(Hashed(t, a)) == hash(Hashed(u, b)) ==> Hashed(t, a) == Hashed(u, b)
    requires t.isolation == "per_group" ==> CommaFree(a.groups)
    requires u.isolation == "per_group" ==> CommaFree(b.groups)
    ensures Key(t, a, hash) == Key(u, b, hash) <==>
            && t.id == u.id && SameWord(t.isolation, u.isolation)
            && (t.isolation == "per_user" ==> a.userId == b.userId)
            && (t.isolation == "per_role" ==> a.role == b.role)
            && (t.isolation == "per_group" ==>
                  multiset(a.groups) == multiset(b.groups) || (a.groups in [[], [""]] && b.groups in [[], [""]]))
  {
    SharedKeys(t, a, u, b, hash);
  }

  /** The key names its kind, and what it is computed from is the caller's part, a colon and the target. */
  lemma KeysByWord(t: Target, c: Caller, hash: string -> string)
    ensures t.isolation == "per_user" ==> Key(t, c, hash) == "user:" + hash(c.userId + ":" + t.id)
    ensures t.isolation == "per_role" ==> Key(t, c, hash) == "role:" + hash(c.role + ":" + t.id)
    ensures t.isolation == "per_group" && c.groups == [] ==> Key(t, c, hash) == "group:" + hash(":" + t.id)
    ensures t.isolation == "per_group" && c.groups != [] ==>
      exists sorted :: Sorted(sorted) && multiset(sorted) == multiset(c.groups) && Key(t, c, hash) == "group:" + hash(Join(sorted, ',') + ":" + t.id)
    ensures t.isolation !in {"per_user", "per_role", "per_group"} ==> Key(t, c, hash) == "shared:" + t.id
  {
    SortSorts(c.groups);
    assert "" + ":" + t.id == ":" + t.id;
  }

  /** A comma inside a name makes two different group lists share a key. */
  lemma CommaInNameMergesClasses(t: Target, hash: string -> string)
    requires t.isolation == "per_group"
    ensures Key(t, Caller("", "", ["a,b"]), hash) == Key(t, Caller("", "", ["a", "b"]), hash)
    ensures !SameGroups(["a,b"], ["a", "b"])
  {
    SingleSort("a,b");
    SingleSort("b");
    assert ["a", "b"][1..] == ["b"];
    assert Le("a", "b");
    assert Sort(["a", "b"]) == ["a"] + ["b"];
    assert (["a"] + ["b"])[1..] == ["b"];
    assert Join(["a"] + ["b"], ',') == "a,b" == Join(["a,b"], ',');
    assert |multiset(["a,b"])| == 1 && |multiset(["a", "b"])| == 2;
  }
}
