/**
 The multiplexing proxy: one goroutine per upstream merges capabilities and tools into one
 session, names are prefixed with the target's name, and a call is dispatched through the
 resulting table or, when the table has no entry, by parsing the prefix.
 */
module Proxy {
  import opened Wrappers
  import opened GatewaySession
  import opened Iteration
  import opened Text

  const DELIMITER := '_'

  // ---------- Names ----------

  function Prefixed(target: string, name: string): string {
    target + [DELIMITER] + name
  }

  function Display(multiplexing: bool, target: string, name: string): string {
    if multiplexing then Prefixed(target, name) else name
  }

  /** `parseResourceName`: what precedes the first delimiter, and what follows it. */
  function ParseName(name: string): (string, string) {
    var i := IndexOf(name, DELIMITER);
    if i == -1 then ("", name) else (name[..i], name[i + 1..])
  }

  /** Parsing recovers the pair a name was built from exactly when the target's name holds no delimiter. */
  lemma ParsePrefixed(target: string, name: string)
    ensures ParseName(Prefixed(target, name)) == (target, name) <==> DELIMITER !in target
  {
    var s := Prefixed(target, name);
    if DELIMITER !in target {
      IndexOfAfter(target, DELIMITER, name);
      assert s[..|target|] == target && s[|target| + 1..] == name;
    } else {
      var k :| 0 <= k < |target| && target[k] == DELIMITER;
      assert s[k] == DELIMITER;
      assert IndexOf(s, DELIMITER) <= k;
    }
  }

  /** No target's name, followed by the delimiter, begins another target's name. */
  ghost predicate PrefixFree(targets: set<string>) {
    forall m, n :: m in targets && n in targets ==> !(m + [DELIMITER] <= n)
  }

  ghost predicate DisplayInjective(targets: set<string>) {
    forall m, n, a, b :: m in targets && n in targets && Prefixed(m, a) == Prefixed(n, b) ==> m == n && a == b
  }

  lemma PrefixedClash(m: string, n: string, a: string, b: string)
    requires Prefixed(m, a) == Prefixed(n, b) && |m| <= |n|
    ensures (m == n && a == b) || m + [DELIMITER] <= n
  {
    var s := Prefixed(m, a);
    assert s[..|m|] == m && s[..|n|] == n;
    assert s[|m|] == DELIMITER;
    if |m| == |n| {
      assert s[|m| + 1..] == a == b;
    } else {
      assert n[|m|] == DELIMITER && n[..|m|] == m;
      assert m + [DELIMITER] == n[..|m| + 1];
    }
  }

  /** Display names tell the (target, name) pairs apart exactly when the target names are prefix-free. */
  lemma DisplayNames(targets: set<string>)
    ensures DisplayInjective(targets) <==> PrefixFree(targets)
  {
    if PrefixFree(targets) {
      forall m, n, a, b | m in targets && n in targets && Prefixed(m, a) == Prefixed(n, b) ensures m == n && a == b {
        if |m| <= |n| {
          PrefixedClash(m, n, a, b);
        } else {
          PrefixedClash(n, m, b, a);
        }
      }
    } else {
      var m, n :| m in targets && n in targets && m + [DELIMITER] <= n;
      var a := n[|m| + 1..] + [DELIMITER];
      assert Prefixed(m, a) == n + [DELIMITER] == Prefixed(n, "");
    }
  }

  lemma NoDelimiterIsPrefixFree(targets: set<string>)
    requires forall t :: t in targets ==> DELIMITER !in t
    ensures PrefixFree(targets)
  {
    forall m, n | m in targets && n in targets ensures !(m + [DELIMITER] <= n) {
      if |m| < |n| {
        assert n[|m|] in n;
      }
    }
  }

  // ---------- Listing tools ----------

  /** What one listing depends on: the connected targets, their answers (None for a failed one), and who may use what. */
  datatype Listing = Listing(targetIds: map<string, TargetId>, answers: map<string, Option<seq<string>>>, allowed: (TargetId, string) -> bool)
  {
    function IdOf(target: string): TargetId {
      if target in targetIds then targetIds[target] else NIL_ID
    }

    predicate Multiplexing() {
      |answers| > 1
    }

    function Names(target: string): seq<string> {
      if target in answers && answers[target].Some? then Permitted(IdOf(target), answers[target].value) else []
    }

    function Permitted(id: TargetId, names: seq<string>): seq<string> {
      if names == [] then []
      else if allowed(id, names[0]) then [names[0]] + Permitted(id, names[1..])
      else Permitted(id, names[1..])
    }

    function MappingOf(target: string, name: string): Mapping {
      Mapping(IdOf(target), target, name)
    }

    /** The target answered with this name and the caller may use it. */
    predicate Listed(target: string, name: string) {
      target in answers && answers[target].Some? && name in answers[target].value && allowed(IdOf(target), name)
    }

    lemma {:induction false} PermittedMembers(id: TargetId, names: seq<string>, name: string)
      ensures name in Permitted(id, names) <==> name in names && allowed(id, name)
    {
      if names != [] {
        PermittedMembers(id, names[1..], name);
      }
    }

    lemma NamesMembers(target: string, name: string)
      ensures name in Names(target) <==> Listed(target, name)
    {
      if target in answers && answers[target].Some? {
        PermittedMembers(IdOf(target), answers[target].value, name);
      }
    }
  }

  /** The routing table and the list of display names built so far. */
  datatype Merged = Merged(table: map<string, Mapping>, names: seq<string>)

  function MergeNames(m: Merged, l: Listing, target: string, names: seq<string>): Merged
    decreases |names|
  {
    if names == [] then m
    else
      var display := Display(l.Multiplexing(), target, names[0]);
      MergeNames(Merged(m.table[display := l.MappingOf(target, names[0])], m.names + [display]), l, target, names[1..])
  }

  /** One schedule: the goroutines enter the critical section in this order. */
  function MergeAll(m: Merged, l: Listing, order: seq<string>): Merged
    decreases |order|
  {
    if order == [] then m else MergeAll(MergeNames(m, l, order[0], l.Names(order[0])), l, order[1..])
  }

  /** `ListTools`; the listings of resources and of prompts run the same loop. */
  method ListTools(session: Session, answers: map<string, Option<seq<string>>>, allowed: (TargetId, string) -> bool, order: seq<string>)
    returns (tools: seq<string>)
    requires answers.Keys == session.tables.clients.Keys && Visits(order, answers.Keys)
    modifies session`tables
    ensures var l := Listing(old(session.tables).targetIds, answers, allowed);
      var merged := MergeAll(Merged(map[], []), l, order);
      tools == merged.names
      && session.tables == if answers.Keys == {} then old(session.tables) else old(session.tables).(toolMap := merged.table)
  {
    VisitsNothing(order, answers.Keys);
    if session.tables.clients.Keys == {} {
      return [];
    }
    session.tables := session.tables.(toolMap := map[]);
    tools := MergeSchedule(session, Listing(session.tables.targetIds, answers, allowed), order);
  }

  /** The goroutines, in the order in which they enter the critical section. */
  method MergeSchedule(session: Session, l: Listing, order: seq<string>) returns (tools: seq<string>)
    requires forall t :: t in order ==> t in l.answers
    modifies session`tables
    ensures session.tables == old(session.tables).(toolMap := session.tables.toolMap)
    ensures Merged(session.tables.toolMap, tools) == MergeAll(Merged(old(session.tables).toolMap, []), l, order)
  {
    tools := [];
    for i := 0 to |order|
      invariant session.tables == old(session.tables).(toolMap := session.tables.toolMap)
      invariant MergeAll(Merged(session.tables.toolMap, tools), l, order[i..]) == MergeAll(Merged(old(session.tables).toolMap, []), l, order)
    {
      assert order[i..][0] == order[i] && order[i..][1..] == order[i + 1..];
      tools := MergeAnswer(session, l, order[i], tools);
    }
    assert order[|order|..] == [];
  }

  /** One goroutine; a failed listing contributes nothing. */
  method MergeAnswer(session: Session, l: Listing, target: string, tools: seq<string>) returns (tools': seq<string>)
    requires target in l.answers
    modifies session`tables
    ensures session.tables == old(session.tables).(toolMap := session.tables.toolMap)
    ensures Merged(session.tables.toolMap, tools') == MergeNames(Merged(old(session.tables).toolMap, tools), l, target, l.Names(target))
  {
    tools' := tools;
    if l.answers[target].Some? {
      tools' := MergeTarget(session, l, target, l.answers[target].value, tools);
    }
  }

  /** One goroutine's loop inside the critical section. */
  method MergeTarget(session: Session, l: Listing, target: string, found: seq<string>, tools: seq<string>) returns (tools': seq<string>)
    modifies session`tables
    ensures session.tables == old(session.tables).(toolMap := session.tables.toolMap)
    ensures Merged(session.tables.toolMap, tools')
      == MergeNames(Merged(old(session.tables).toolMap, tools), l, target, l.Permitted(l.IdOf(target), found))
  {
    tools' := tools;
    var id := l.IdOf(target);
    for i := 0 to |found|
      invariant session.tables == old(session.tables).(toolMap := session.tables.toolMap)
      invariant MergeNames(Merged(session.tables.toolMap, tools'), l, target, l.Permitted(id, found[i..]))
        == MergeNames(Merged(old(session.tables).toolMap, tools), l, target, l.Permitted(id, found))
    {
      assert found[i..][0] == found[i] && found[i..][1..] == found[i + 1..];
      if !l.allowed(id, found[i]) {
        continue;
      }
      var display := found[i];
      if l.Multiplexing() {
        display := Prefixed(target, found[i]);
      }
      assert l.Permitted(id, found[i..])[1..] == l.Permitted(id, found[i + 1..]);
      tools' := tools' + [display];
      session.tables := session.tables.(toolMap := session.tables.toolMap[display := Mapping(id, target, found[i])]);
    }
    assert found[|found|..] == [];
  }

  // ---------- What every schedule gives ----------

  /** The table holds exactly the listed pairs of these targets, each under its display name. */
  ghost predicate IsTable(table: map<string, Mapping>, l: Listing, targets: set<string>) {
    && (forall k :: k in table ==>
          table[k].targetName in targets && l.Listed(table[k].targetName, table[k].name)
          && table[k] == l.MappingOf(table[k].targetName, table[k].name)
          && k == Display(l.Multiplexing(), table[k].targetName, table[k].name))
    && (forall t, n :: t in targets && l.Listed(t, n) ==> Display(l.Multiplexing(), t, n) in table)
  }

  /** No other target's listed tool has the display name of this one. */
  ghost predicate Unshared(l: Listing, target: string, name: string) {
    forall u, m :: l.Listed(u, m) && Display(l.Multiplexing(), u, m) == Display(l.Multiplexing(), target, name) ==> u == target
  }

  /** No two targets list tools that meet under one display name. */
  ghost predicate NoClash(l: Listing) {
    forall t, n :: l.Listed(t, n) ==> Unshared(l, t, n)
  }

  predicate Named(l: Listing, target: string, names: seq<string>, k: string) {
    exists n :: n in names && k == Display(l.Multiplexing(), target, n)
  }

  lemma NamedFirst(l: Listing, target: string, names: seq<string>, k: string)
    requires names != []
    ensures Named(l, target, names, k) <==> k == Display(l.Multiplexing(), target, names[0]) || Named(l, target, names[1..], k)
  {
    assert forall n :: n in names <==> n == names[0] || n in names[1..];
  }

  lemma {:induction false} MergeNamesTable(m: Merged, l: Listing, target: string, names: seq<string>)
    ensures var t' := MergeNames(m, l, target, names).table;
      (forall k :: k in t' <==> k in m.table || Named(l, target, names, k))
      && (forall k :: k in t' ==>
            ((k in m.table && t'[k] == m.table[k])
             || (t'[k].name in names && t'[k] == l.MappingOf(target, t'[k].name) && k == Display(l.Multiplexing(), target, t'[k].name))))
    decreases |names|
  {
    if names != [] {
      var display := Display(l.Multiplexing(), target, names[0]);
      var m1 := Merged(m.table[display := l.MappingOf(target, names[0])], m.names + [display]);
      MergeNamesTable(m1, l, target, names[1..]);
      forall k {
        NamedFirst(l, target, names, k);
      }
    }
  }

  lemma MergeTargetTable(m: Merged, l: Listing, targets: set<string>, target: string)
    requires IsTable(m.table, l, targets)
    ensures IsTable(MergeNames(m, l, target, l.Names(target)).table, l, targets + {target})
  {
    MergeNamesTable(m, l, target, l.Names(target));
    forall n ensures n in l.Names(target) <==> l.Listed(target, n) {
      l.NamesMembers(target, n);
    }
    var t' := MergeNames(m, l, target, l.Names(target)).table;
    forall t, n | t in targets + {target} && l.Listed(t, n) ensures Display(l.Multiplexing(), t, n) in t' {
      assert t == target ==> n in l.Names(target);
    }
  }

  lemma {:induction false} MergeAllTable(m: Merged, l: Listing, targets: set<string>, order: seq<string>)
    requires IsTable(m.table, l, targets)
    ensures IsTable(MergeAll(m, l, order).table, l, targets + set t | t in order)
    decreases |order|
  {
    if order == [] {
      assert targets + (set t | t in order) == targets;
    } else {
      MergeTargetTable(m, l, targets, order[0]);
      MergeAllTable(MergeNames(m, l, order[0], l.Names(order[0])), l, targets + {order[0]}, order[1..]);
      assert targets + (set t | t in order) == targets + {order[0]} + set t | t in order[1..];
    }
  }

  lemma ScheduleTable(l: Listing, order: seq<string>)
    requires Visits(order, l.answers.Keys)
    ensures IsTable(MergeAll(Merged(map[], []), l, order).table, l, l.answers.Keys)
  {
    MergeAllTable(Merged(map[], []), l, {}, order);
    assert {} + (set t | t in order) == l.answers.Keys;
  }

  lemma TablesEqual(a: map<string, Mapping>, b: map<string, Mapping>, l: Listing)
    requires NoClash(l)
    requires IsTable(a, l, l.answers.Keys) && IsTable(b, l, l.answers.Keys)
    ensures a == b
  {
    forall k | k in b ensures k in a {
      SameKeys(b, a, l, k);
    }
    forall k | k in a ensures k in b && a[k] == b[k] {
      SameKeys(a, b, l, k);
      assert Unshared(l, a[k].targetName, a[k].name);
      DisplayInName(l.Multiplexing(), a[k].targetName, a[k].name, b[k].name);
    }
  }

  lemma SameKeys(a: map<string, Mapping>, b: map<string, Mapping>, l: Listing, k: string)
    requires IsTable(a, l, l.answers.Keys) && IsTable(b, l, l.answers.Keys) && k in a
    ensures k in b
  {
    assert Display(l.Multiplexing(), a[k].targetName, a[k].name) in b;
  }

  /** One target's display names tell its tools apart. */
  lemma DisplayInName(multiplexing: bool, target: string, a: string, b: string)
    ensures Display(multiplexing, target, a) == Display(multiplexing, target, b) <==> a == b
  {
    if Prefixed(target, a) == Prefixed(target, b) {
      assert Prefixed(target, a)[|target| + 1..] == a && Prefixed(target, b)[|target| + 1..] == b;
    }
  }

  /** Target names of which none, followed by the delimiter, begins another never clash. */
  lemma PrefixFreeNeverClashes(l: Listing)
    requires l.Multiplexing() ==> PrefixFree(l.answers.Keys)
    ensures NoClash(l)
  {
    forall t, n, u, m | l.Listed(t, n) && l.Listed(u, m) && Display(l.Multiplexing(), u, m) == Display(l.Multiplexing(), t, n)
      ensures u == t
    {
      if l.Multiplexing() {
        DisplayNames(l.answers.Keys);
      } else {
        assert |l.answers.Keys| == |l.answers|;
        assert |l.answers| != 0;
        OneKey(l.answers);
      }
    }
  }

  lemma OneKey(m: map<string, Option<seq<string>>>)
    requires |m| == 1
    ensures forall s, t :: s in m && t in m ==> s == t
  {
    var k :| k in m;
    assert m.Keys == {k} by {
      assert |m.Keys - {k}| == 0;
    }
  }

  function DisplaysOf(l: Listing, target: string): seq<string> {
    Displays(l.Multiplexing(), target, l.Names(target))
  }

  function Displays(multiplexing: bool, target: string, names: seq<string>): seq<string> {
    if names == [] then [] else [Display(multiplexing, target, names[0])] + Displays(multiplexing, target, names[1..])
  }

  lemma {:induction false} MergeNamesList(m: Merged, l: Listing, target: string, names: seq<string>)
    ensures MergeNames(m, l, target, names).names == m.names + Displays(l.Multiplexing(), target, names)
    decreases |names|
  {
    if names == [] {
      assert m.names + [] == m.names;
    } else {
      var display := Display(l.Multiplexing(), target, names[0]);
      MergeNamesList(Merged(m.table[display := l.MappingOf(target, names[0])], m.names + [display]), l, target, names[1..]);
    }
  }

  lemma {:induction false} MergeAllList(m: Merged, l: Listing, order: seq<string>, f: string -> seq<string>)
    requires forall t :: f(t) == DisplaysOf(l, t)
    ensures MergeAll(m, l, order).names == m.names + Collect(order, f)
    decreases |order|
  {
    if order == [] {
      assert m.names + [] == m.names;
    } else {
      var m' := MergeNames(m, l, order[0], l.Names(order[0]));
      MergeNamesList(m, l, order[0], l.Names(order[0]));
      MergeAllList(m', l, order[1..], f);
      Regroup(m.names, f(order[0]), Collect(order[1..], f));
    }
  }

  lemma Regroup(a: seq<string>, b: seq<string>, c: seq<string>)
    ensures (a + b) + c == a + (b + c)
  {
  }

  /** Confluence of the list: every two schedules list the same names the same number of times. */
  lemma SchedulesAgree(l: Listing, p: seq<string>, q: seq<string>)
    requires Visits(p, l.answers.Keys) && Visits(q, l.answers.Keys)
    ensures multiset(MergeAll(Merged(map[], []), l, p).names) == multiset(MergeAll(Merged(map[], []), l, q).names)
  {
    var f := t => DisplaysOf(l, t);
    MergeAllList(Merged(map[], []), l, p, f);
    MergeAllList(Merged(map[], []), l, q, f);
    assert [] + Collect(p, f) == Collect(p, f) && [] + Collect(q, f) == Collect(q, f);
    CollectAnyOrder(p, q, l.answers.Keys, f);
  }

  lemma {:induction false} MergeNamesOwns(m: Merged, l: Listing, target: string, names: seq<string>, k: string)
    requires Named(l, target, names, k)
    ensures var t' := MergeNames(m, l, target, names).table; k in t' && t'[k].targetName == target
    decreases |names|
  {
    var display := Display(l.Multiplexing(), target, names[0]);
    var m1 := Merged(m.table[display := l.MappingOf(target, names[0])], m.names + [display]);
    NamedFirst(l, target, names, k);
    if Named(l, target, names[1..], k) {
      MergeNamesOwns(m1, l, target, names[1..], k);
    } else {
      MergeNamesTable(m1, l, target, names[1..]);
    }
  }

  lemma {:induction false} MergeAllLast(m: Merged, l: Listing, order: seq<string>, target: string)
    ensures var before := MergeAll(m, l, order);
            MergeAll(m, l, order + [target]) == MergeNames(before, l, target, l.Names(target))
    decreases |order|
  {
    if order == [] {
      assert [] + [target] == [target] && [target][1..] == [];
    } else {
      assert (order + [target])[1..] == order[1..] + [target];
      MergeAllLast(MergeNames(m, l, order[0], l.Names(order[0])), l, order[1..], target);
    }
  }

  /** The target that merges last owns every display name of its tools. */
  lemma LastOwns(l: Listing, order: seq<string>, target: string, name: string)
    requires l.Listed(target, name)
    ensures var table := MergeAll(Merged(map[], []), l, order + [target]).table;
            var k := Display(l.Multiplexing(), target, name);
            k in table && table[k].targetName == target
  {
    var before := MergeAll(Merged(map[], []), l, order);
    MergeAllLast(Merged(map[], []), l, order, target);
    l.NamesMembers(target, name);
    assert Named(l, target, l.Names(target), Display(l.Multiplexing(), target, name));
    MergeNamesOwns(before, l, target, l.Names(target), Display(l.Multiplexing(), target, name));
  }

  /** Confluence of the routing table: all schedules build the same one exactly when no two targets' tools clash. */
  lemma TablesAgreeExactly(l: Listing)
    ensures (forall p, q :: Visits(p, l.answers.Keys) && Visits(q, l.answers.Keys) ==>
               MergeAll(Merged(map[], []), l, p).table == MergeAll(Merged(map[], []), l, q).table)
            <==> NoClash(l)
  {
    if NoClash(l) {
      forall p, q | Visits(p, l.answers.Keys) && Visits(q, l.answers.Keys)
        ensures MergeAll(Merged(map[], []), l, p).table == MergeAll(Merged(map[], []), l, q).table
      {
        ScheduleTable(l, p);
        ScheduleTable(l, q);
        TablesEqual(MergeAll(Merged(map[], []), l, p).table, MergeAll(Merged(map[], []), l, q).table, l);
      }
    } else {
      var p, q := TablesDiffer(l);
    }
  }

  lemma TablesDiffer(l: Listing) returns (p: seq<string>, q: seq<string>)
    requires !NoClash(l)
    ensures Visits(p, l.answers.Keys) && Visits(q, l.answers.Keys)
    ensures MergeAll(Merged(map[], []), l, p).table != MergeAll(Merged(map[], []), l, q).table
  {
    var t, n :| l.Listed(t, n) && !Unshared(l, t, n);
    var u, m :| l.Listed(u, m) && Display(l.Multiplexing(), u, m) == Display(l.Multiplexing(), t, n) && u != t;
    var before := OrderEndingIn(l.answers.Keys, t);
    LastOwns(l, before, t, n);
    p := before + [t];
    before := OrderEndingIn(l.answers.Keys, u);
    LastOwns(l, before, u, m);
    q := before + [u];
  }

  /** Two targets, one name a prefix of the other's up to the delimiter, and tools that meet under one display name. */
  function AmbiguousListing(): Listing {
    Listing(map[], map["a" := Some(["b_c"]), "a_b" := Some(["c"])], (_, _) => true)
  }

  lemma AmbiguousListingFacts()
    ensures AmbiguousListing().answers.Keys == {"a", "a_b"} && AmbiguousListing().Multiplexing()
    ensures Visits(["a", "a_b"], {"a", "a_b"}) && Visits(["a_b", "a"], {"a", "a_b"})
  {
    assert |"a"| != |"a_b"|;
    VisitsPair("a", "a_b");
    VisitsPair("a_b", "a");
    assert {"a_b", "a"} == {"a", "a_b"};
    assert AmbiguousListing().answers.Keys == {"a", "a_b"};
    assert |AmbiguousListing().answers.Keys| == 2;
  }

  lemma VisitsPair(x: string, y: string)
    requires x != y
    ensures Visits([x, y], {x, y})
  {
  }

  /** With ambiguous names the schedule shows: the last goroutine to merge owns the shared name. */
  lemma SchedulesDisagree()
    ensures var l := AmbiguousListing();
      Visits(["a", "a_b"], l.answers.Keys) && Visits(["a_b", "a"], l.answers.Keys)
      && MergeAll(Merged(map[], []), l, ["a", "a_b"]).table == map["a_b_c" := Mapping(NIL_ID, "a_b", "c")]
      && MergeAll(Merged(map[], []), l, ["a_b", "a"]).table == map["a_b_c" := Mapping(NIL_ID, "a", "b_c")]
  {
    AmbiguousListingFacts();
    var l := AmbiguousListing();
    assert Prefixed("a", "b_c") == "a_b_c" == Prefixed("a_b", "c");
    assert l.Names("a") == ["b_c"] && l.Names("a_b") == ["c"];
    MergeTwo(Merged(map[], []), l, "a", "b_c", "a_b", "c");
    MergeTwo(Merged(map[], []), l, "a_b", "c", "a", "b_c");
  }

  lemma MergeOne(m: Merged, l: Listing, t: string, n: string)
    ensures MergeNames(m, l, t, [n]).table == m.table[Display(l.Multiplexing(), t, n) := l.MappingOf(t, n)]
  {
    assert [n][1..] == [];
  }

  lemma MergeTwo(m: Merged, l: Listing, t: string, n: string, t': string, n': string)
    requires l.Names(t) == [n] && l.Names(t') == [n']
    ensures MergeAll(m, l, [t, t']).table
      == m.table[Display(l.Multiplexing(), t, n) := l.MappingOf(t, n)][Display(l.Multiplexing(), t', n') := l.MappingOf(t', n')]
  {
    var m1 := MergeNames(m, l, t, [n]);
    MergeOne(m, l, t, n);
    MergeOne(m1, l, t', n');
    assert [t, t'][1..] == [t'] && [t'][1..] == [];
    assert MergeAll(m1, l, [t']) == MergeAll(MergeNames(m1, l, t', [n']), l, []);
  }

  // ---------- Dispatching a call ----------

  datatype CallOutcome = ToolNotFound | NotAuthorized | NotConnected | Called(target: string, tool: string)

  function TargetIdOf(tables: Tables, target: string): TargetId {
    if target in tables.targetIds then tables.targetIds[target] else NIL_ID
  }

  /** The table's entry, or else the parsed prefix with several clients and the name as it is with one. */
  ghost predicate Resolves(tables: Tables, name: string, m: Option<Mapping>) {
    if name in tables.toolMap then m == Some(tables.toolMap[name])
    else if |tables.clients| > 1 then
      var (target, tool) := ParseName(name);
      m == if target != "" then Some(Mapping(TargetIdOf(tables, target), target, tool)) else None
    else if tables.clients == map[] then m == None
    else m.Some? && m.value.targetName in tables.clients && m.value == Mapping(TargetIdOf(tables, m.value.targetName), m.value.targetName, name)
  }

  function Dispatch(tables: Tables, m: Option<Mapping>, allowed: (TargetId, string) -> bool): CallOutcome {
    if m == None then ToolNotFound
    else if !allowed(m.value.targetId, m.value.name) then NotAuthorized
    else if m.value.targetName !in tables.clients then NotConnected
    else Called(m.value.targetName, m.value.name)
  }

  /** What a call may give; only the choice of the single client, of which there is just one, is left open. */
  ghost predicate CallGives(tables: Tables, name: string, allowed: (TargetId, string) -> bool, outcome: CallOutcome) {
    exists m :: Resolves(tables, name, m) && outcome == Dispatch(tables, m, allowed)
  }

  method CallTool(session: Session, name: string, allowed: (TargetId, string) -> bool) returns (outcome: CallOutcome)
    ensures CallGives(session.tables, name, allowed, outcome)
  {
    var tables := session.tables;
    var mapping: Option<Mapping> := None;
    if name in tables.toolMap {
      mapping := Some(tables.toolMap[name]);
    } else if |tables.clients| > 1 {
      var (target, tool) := ParseName(name);
      if target != "" {
        mapping := Some(Mapping(TargetIdOf(tables, target), target, tool));
      }
    } else if tables.clients.Keys != {} {
      var target :| target in tables.clients.Keys;
      mapping := Some(Mapping(TargetIdOf(tables, target), target, name));
    }
    assert Resolves(tables, name, mapping);
    if mapping == None {
      return ToolNotFound;
    }
    if !allowed(mapping.value.targetId, mapping.value.name) {
      return NotAuthorized;
    }
    if mapping.value.targetName !in tables.clients {
      return NotConnected;
    }
    return Called(mapping.value.targetName, mapping.value.name);
  }

  /** The pair a name stands for, and the target ID that goes with it: an entry of the table, which may be stale, else a prefix, else the only client. */
  predicate StandsFor(tables: Tables, name: string, target: string, tool: string, id: TargetId) {
    if name in tables.toolMap then
      var entry := tables.toolMap[name]; entry.targetName == target && entry.name == tool && entry.targetId == id
    else
      && id == (if target in tables.targetIds then tables.targetIds[target] else NIL_ID)
      && if |tables.clients| > 1 then target != "" && '_' !in target && name == target + "_" + tool
         else target in tables.clients && tool == name
  }

  lemma ParsedParts(name: string)
    ensures var (target, tool) := ParseName(name);
      && (target != "" ==> '_' !in target && name == target + "_" + tool)
      && (target == "" ==> forall t, n :: t != "" && '_' !in t ==> name != t + "_" + n)
  {
    var i := IndexOf(name, '_');
    if i != -1 {
      assert name == name[..i] + "_" + name[i + 1..];
    }
    if ParseName(name).0 == "" {
      forall t: string, n: string | t != "" && '_' !in t ensures name != t + "_" + n {
        if name == t + "_" + n {
          IndexOfAfter(t, '_', n);
        }
      }
    }
  }

  lemma SplitOnce(t: string, n: string, u: string, m: string)
    requires '_' !in t && '_' !in u && t + "_" + n == u + "_" + m
    ensures t == u && n == m
  {
    IndexOfAfter(t, '_', n);
    IndexOfAfter(u, '_', m);
    var s := t + "_" + n;
    assert s[..|t|] == t && s[..|u|] == u && s[|t| + 1..] == n && s[|u| + 1..] == m;
  }

  lemma ResolvesStandsFor(tables: Tables, name: string, m: Option<Mapping>)
    requires Resolves(tables, name, m)
    ensures m.Some? ==> StandsFor(tables, name, m.value.targetName, m.value.name, m.value.targetId)
    ensures m.None? ==> forall t, n, id :: !StandsFor(tables, name, t, n, id)
  {
    ParsedParts(name);
    if m.None? && |tables.clients| <= 1 {
      assert tables.clients == map[];
    }
  }

  /**
   What a call gives, for every session, table and policy. A tool is called only on a connected
   target and only if the caller may use it there, under the target ID of the entry or session;
   a pair that is not allowed is refused, wherever it comes from; the other answers are exact too.
   */
  lemma CallsExactly(tables: Tables, name: string, allowed: (TargetId, string) -> bool, outcome: CallOutcome)
    requires CallGives(tables, name, allowed, outcome)
    ensures outcome.Called? ==>
      outcome.target in tables.clients && exists id :: StandsFor(tables, name, outcome.target, outcome.tool, id) && allowed(id, outcome.tool)
    ensures outcome == NotConnected ==>
      exists t, n, id :: StandsFor(tables, name, t, n, id) && allowed(id, n) && t !in tables.clients
    ensures outcome == NotAuthorized ==> exists t, n, id :: StandsFor(tables, name, t, n, id) && !allowed(id, n)
    ensures outcome == ToolNotFound <==> forall t, n, id :: !StandsFor(tables, name, t, n, id)
  {
    var m :| Resolves(tables, name, m) && outcome == Dispatch(tables, m, allowed);
    ResolvesStandsFor(tables, name, m);
    if m.Some? {
      assert StandsFor(tables, name, m.value.targetName, m.value.name, m.value.targetId);
    }
  }

  lemma StandsForOne(tables: Tables, name: string, t: string, n: string, id: TargetId, u: string, m: string, id': TargetId)
    requires StandsFor(tables, name, t, n, id) && StandsFor(tables, name, u, m, id')
    ensures t == u && n == m && id == id'
  {
    if name !in tables.toolMap {
      if |tables.clients| > 1 {
        SplitOnce(t, n, u, m);
      } else {
        OneClient(tables.clients, t, u);
      }
    }
  }

  lemma OneClient(clients: map<string, Client>, t: string, u: string)
    requires |clients| <= 1 && t in clients && u in clients
    ensures t == u
  {
    if t != u {
      assert {t, u} <= clients.Keys;
      assert |{t, u}| <= |clients.Keys| by { SubsetSize({t, u}, clients.Keys); }
    }
  }

  lemma SubsetSize(a: set<string>, b: set<string>)
    requires a <= b
    ensures |a| <= |b|
  {
    assert b == a + (b - a);
  }

  /** The answer to a call by a name that stands for a pair: allowed and connected, it is called, and nothing else is. */
  lemma PairGives(tables: Tables, name: string, allowed: (TargetId, string) -> bool, outcome: CallOutcome, t: string, n: string, id: TargetId)
    requires CallGives(tables, name, allowed, outcome) && StandsFor(tables, name, t, n, id)
    ensures outcome == if !allowed(id, n) then NotAuthorized else if t !in tables.clients then NotConnected else Called(t, n)
  {
    var m :| Resolves(tables, name, m) && outcome == Dispatch(tables, m, allowed);
    ResolvesStandsFor(tables, name, m);
    StandsForOne(tables, name, t, n, id, m.value.targetName, m.value.name, m.value.targetId);
  }

  /**
   A change of policy takes effect on the next call: a tool listed under the old policy, still in
   the table or not, is called under the new one exactly when the new one allows it.
   */
  lemma PolicyChangeTakesEffect(tables: Tables, l: Listing, order: seq<string>, target: string, name: string,
                                allowed: (TargetId, string) -> bool, outcome: CallOutcome)
    requires l.answers.Keys == tables.clients.Keys && l.targetIds == tables.targetIds
    requires Visits(order, l.answers.Keys) && l.Listed(target, name) && Unshared(l, target, name)
    requires CallGives(tables.(toolMap := MergeAll(Merged(map[], []), l, order).table), Display(l.Multiplexing(), target, name), allowed, outcome)
    ensures outcome == if allowed(l.IdOf(target), name) then Called(target, name) else NotAuthorized
  {
    ScheduleTable(l, order);
    var table := MergeAll(Merged(map[], []), l, order).table;
    var k := Display(l.Multiplexing(), target, name);
    assert k in table;
    DisplayInName(l.Multiplexing(), target, table[k].name, name);
    PairGives(tables.(toolMap := table), k, allowed, outcome, target, name, l.IdOf(target));
  }

  /** A call in a session whose table was built by one schedule. */
  ghost predicate CallAfter(tables: Tables, l: Listing, order: seq<string>, name: string, outcome: CallOutcome) {
    CallGives(tables.(toolMap := MergeAll(Merged(map[], []), l, order).table), name, l.allowed, outcome)
  }

  lemma UnsharedCallArrives(tables: Tables, l: Listing, order: seq<string>, target: string, name: string, outcome: CallOutcome)
    requires l.answers.Keys == tables.clients.Keys && l.targetIds == tables.targetIds
    requires Visits(order, l.answers.Keys) && l.Listed(target, name) && Unshared(l, target, name)
    requires CallAfter(tables, l, order, Display(l.Multiplexing(), target, name), outcome)
    ensures outcome == Called(target, name)
  {
    ScheduleTable(l, order);
    var table := MergeAll(Merged(map[], []), l, order).table;
    var k := Display(l.Multiplexing(), target, name);
    assert k in table;
    DisplayInName(l.Multiplexing(), target, table[k].name, name);
  }

  /** When a name is shared, the last target to merge gets the call. */
  lemma LastGetsCall(tables: Tables, l: Listing, order: seq<string>, u: string, m: string) returns (outcome: CallOutcome)
    requires l.answers.Keys == tables.clients.Keys && l.targetIds == tables.targetIds
    requires Visits(order + [u], l.answers.Keys) && l.Listed(u, m)
    ensures CallAfter(tables, l, order + [u], Display(l.Multiplexing(), u, m), outcome)
    ensures outcome == Called(u, m)
  {
    ScheduleTable(l, order + [u]);
    LastOwns(l, order, u, m);
    var table := MergeAll(Merged(map[], []), l, order + [u]).table;
    var k := Display(l.Multiplexing(), u, m);
    DisplayInName(l.Multiplexing(), u, table[k].name, m);
    var after := tables.(toolMap := table);
    assert Resolves(after, k, Some(table[k]));
    outcome := Dispatch(after, Some(table[k]), l.allowed);
  }

  /**
   A call by a listed display name reaches exactly the pair it was listed for, after every
   schedule, if and only if no other target lists a tool under that name.
   */
  lemma ListedCallsArrive(tables: Tables, l: Listing, target: string, name: string)
    requires l.answers.Keys == tables.clients.Keys && l.targetIds == tables.targetIds
    requires l.Listed(target, name)
    ensures (forall order, outcome ::
               Visits(order, l.answers.Keys) && CallAfter(tables, l, order, Display(l.Multiplexing(), target, name), outcome)
               ==> outcome == Called(target, name))
            <==> Unshared(l, target, name)
  {
    if Unshared(l, target, name) {
      forall order, outcome | Visits(order, l.answers.Keys) && CallAfter(tables, l, order, Display(l.Multiplexing(), target, name), outcome)
        ensures outcome == Called(target, name)
      {
        UnsharedCallArrives(tables, l, order, target, name, outcome);
      }
    } else {
      var u, m :| l.Listed(u, m) && Display(l.Multiplexing(), u, m) == Display(l.Multiplexing(), target, name) && u != target;
      var order := OrderEndingIn(l.answers.Keys, u);
      var outcome := LastGetsCall(tables, l, order, u, m);
      assert CallAfter(tables, l, order + [u], Display(l.Multiplexing(), target, name), outcome);
    }
  }

  /** With several clients and no table entry, the fallback reaches the pair exactly when the target's name is non-empty and free of the delimiter. */
  lemma FallbackExact(tables: Tables, target: string, name: string, m: Option<Mapping>)
    requires |tables.clients| > 1 && Prefixed(target, name) !in tables.toolMap
    requires Resolves(tables, Prefixed(target, name), m)
    ensures m == Some(Mapping(TargetIdOf(tables, target), target, name)) <==> target != "" && DELIMITER !in target
  {
    ParsePrefixed(target, name);
  }

  /** So with non-empty, delimiter-free target names a listed call arrives even after the table was cleared. */
  lemma ClearedCallsArrive(tables: Tables, l: Listing, target: string, name: string, outcome: CallOutcome)
    requires l.answers.Keys == tables.clients.Keys && l.targetIds == tables.targetIds
    requires l.Multiplexing() ==> target != "" && DELIMITER !in target
    requires l.Listed(target, name)
    requires CallGives(tables.(toolMap := map[]), Display(l.Multiplexing(), target, name), l.allowed, outcome)
    ensures outcome == Called(target, name)
  {
    var cleared := tables.(toolMap := map[]);
    var m :| Resolves(cleared, Display(l.Multiplexing(), target, name), m) && outcome == Dispatch(cleared, m, l.allowed);
    assert |l.answers| == |l.answers.Keys| == |tables.clients.Keys| == |tables.clients|;
    if l.Multiplexing() {
      FallbackExact(cleared, target, name, m);
    } else {
      assert |l.answers.Keys| == 1;
      OneKey(l.answers);
    }
  }
}
