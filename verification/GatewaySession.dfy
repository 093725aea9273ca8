/**
 One MCP session of the gateway: its identity context, its upstream clients and its
 name-mapping tables, and the test that decides whether it must be recycled.
 */
module GatewaySession {
  import opened Wrappers
  import opened Iteration

  type UserId = nat
  /** A UUID in its 36-character form. */
  type TargetId = s: string | |s| == 36 witness "00000000-0000-0000-0000-000000000000"
  type Time = int

  /** The zero UUID that a failed look-up yields. */
  const NIL_ID: TargetId := "00000000-0000-0000-0000-000000000000"

  /** An upstream client; a STDIO process is owned by the process pool, not by the session. */
  datatype Client = Client(stdio: bool, serial: nat)

  datatype Mapping = Mapping(targetId: TargetId, targetName: string, name: string)

  datatype ResourcesCapability = ResourcesCapability(subscribe: bool, listChanged: bool)

  /** `tools` and `prompts` hold their list-changed flag. */
  datatype Capabilities = Capabilities(tools: Option<bool>, resources: Option<ResourcesCapability>, prompts: Option<bool>, logging: bool)

  const NO_CAPABILITIES := Capabilities(None, None, None, false)

  /** The tables that a recycle clears. */
  datatype Tables = Tables(
    clients: map<string, Client>, targetIds: map<string, TargetId>,
    toolMap: map<string, Mapping>, resourceMap: map<string, Mapping>, promptMap: map<string, Mapping>,
    initialized: bool, capabilities: Option<Capabilities>)

  const NO_TABLES := Tables(map[], map[], map[], map[], map[], false, None)

  datatype View = View(userId: UserId, role: string, groups: seq<string>, createdAt: Time, expiresAt: Time, tables: Tables)

  /** The comparison of a session's stored identity with a token's. */
  predicate NeedsRecycle(role: string, groups: seq<string>, newRole: string, newGroups: seq<string>) {
    role != newRole || |groups| != |newGroups| || exists g :: g in newGroups && g !in groups
  }

  /** The clients that a recycle or a deletion closes. */
  function HttpClients(clients: map<string, Client>): set<string> {
    set name | name in clients && !clients[name].stdio
  }

  class Session {
    const id: string
    const userId: UserId
    const createdAt: Time
    var role: string
    var groups: seq<string>
    var expiresAt: Time
    var tables: Tables

    constructor (id: string, userId: UserId, role: string, groups: seq<string>, createdAt: Time, expiresAt: Time)
      ensures this.id == id && CurrentView() == View(userId, role, groups, createdAt, expiresAt, NO_TABLES)
    {
      this.id, this.userId, this.role, this.groups := id, userId, role, groups;
      this.createdAt, this.expiresAt, tables := createdAt, expiresAt, NO_TABLES;
    }

    function CurrentView(): View
      reads this
    {
      View(userId, role, groups, createdAt, expiresAt, tables)
    }

    method CheckIdentity(newRole: string, newGroups: seq<string>) returns (needs: bool)
      ensures needs == NeedsRecycle(role, groups, newRole, newGroups)
    {
      if role != newRole {
        return true;
      }
      if |groups| != |newGroups| {
        return true;
      }
      var groupSet: set<string> := {};
      for i := 0 to |groups|
        invariant groupSet == set k | 0 <= k < i :: groups[k]
      {
        groupSet := groupSet + {groups[i]};
      }
      assert forall g :: g in groupSet <==> g in groups;
      for i := 0 to |newGroups|
        invariant forall k :: 0 <= k < i ==> newGroups[k] in groups
      {
        if newGroups[i] !in groupSet {
          return true;
        }
      }
      return false;
    }

    /** Clears every table and takes over the new identity; only HTTP clients are closed. */
    method Recycle(newRole: string, newGroups: seq<string>) returns (closed: set<string>)
      modifies this
      ensures closed == HttpClients(old(tables.clients))
      ensures forall name :: name in closed <==> name in old(tables.clients) && !old(tables.clients)[name].stdio
      ensures CurrentView() == old(CurrentView()).(role := newRole, groups := newGroups, tables := NO_TABLES)
    {
      closed := set name | name in tables.clients && !tables.clients[name].stdio;
      tables := tables.(clients := map[], targetIds := map[]);
      tables := tables.(toolMap := map[], resourceMap := map[], promptMap := map[]);
      tables := tables.(initialized := false, capabilities := None);
      role, groups := newRole, newGroups;
    }
  }

  // ---------- What the comparison means ----------

  lemma RemoveOne(a: seq<string>, x: string) returns (a': seq<string>)
    requires x in a
    ensures |a'| == |a| - 1 && multiset(a) == multiset(a') + multiset{x}
  {
    var k :| 0 <= k < |a| && a[k] == x;
    a' := a[..k] + a[k + 1..];
    assert a == a[..k] + [x] + a[k + 1..];
  }

  /** Pigeonhole: as many distinct names as there are, all of them present, use up the whole list. */
  lemma {:induction false} Pigeonhole(stored: seq<string>, token: seq<string>)
    requires Distinct(token) && |stored| == |token|
    requires forall g :: g in token ==> g in stored
    ensures multiset(stored) == multiset(token)
    decreases |token|
  {
    if token != [] {
      var x, rest := token[0], token[1..];
      assert x in token;
      var stored' := RemoveOne(stored, x);
      forall g | g in rest ensures g in stored' {
        assert g in token && g != x;
        assert g in multiset(stored);
      }
      Pigeonhole(stored', rest);
      assert token == [x] + rest;
    }
  }

  lemma SameElements(a: seq<string>, b: seq<string>)
    requires multiset(a) == multiset(b)
    ensures |a| == |b| && forall g :: g in a <==> g in b
  {
    assert |multiset(a)| == |a| && |multiset(b)| == |b|;
    assert forall g :: g in a <==> g in multiset(a);
    assert forall g :: g in b <==> g in multiset(b);
  }

  /** For a token without repeated groups the test is exact: no recycle just when role and groups agree, in any order. */
  lemma RecycleExact(role: string, groups: seq<string>, newRole: string, newGroups: seq<string>)
    requires Distinct(newGroups)
    ensures !NeedsRecycle(role, groups, newRole, newGroups) <==> role == newRole && multiset(groups) == multiset(newGroups)
  {
    if multiset(groups) == multiset(newGroups) {
      SameElements(groups, newGroups);
    }
    if !NeedsRecycle(role, groups, newRole, newGroups) {
      Pigeonhole(groups, newGroups);
    }
  }

  /** Reordering the stored groups never triggers a recycle, with or without repetitions. */
  lemma PermutationNeverRecycles(role: string, groups: seq<string>, newGroups: seq<string>)
    requires multiset(groups) == multiset(newGroups)
    ensures !NeedsRecycle(role, groups, role, newGroups)
  {
    SameElements(groups, newGroups);
  }

  lemma {:induction false} FreshName(names: seq<string>) returns (x: string)
    ensures forall k :: 0 <= k < |names| ==> |names[k]| < |x|
    decreases |names|
  {
    if names == [] {
      x := "";
    } else {
      var y := FreshName(names[1..]);
      x := y + names[0] + "x";
      forall k | 0 <= k < |names| ensures |names[k]| < |x| {
        assert k > 0 ==> names[k] == names[1..][k - 1];
      }
    }
  }

  /** Passing the test means equal groups for whatever is stored exactly when the token repeats no group. */
  lemma RepetitionsHideLoss(role: string, token: seq<string>)
    ensures Distinct(token) <==>
      forall stored :: !NeedsRecycle(role, stored, role, token) ==> forall g :: g in stored <==> g in token
  {
    if Distinct(token) {
      forall stored | !NeedsRecycle(role, stored, role, token) ensures forall g :: g in stored <==> g in token {
        Pigeonhole(stored, token);
        SameElements(stored, token);
      }
    } else {
      var i, j :| 0 <= i < j < |token| && token[i] == token[j];
      var x := FreshName(token);
      var stored := token[j := x];
      forall g | g in token ensures g in stored {
        var k :| 0 <= k < |token| && token[k] == g;
        assert stored[if k == j then i else k] == g;
      }
      assert !NeedsRecycle(role, stored, role, token);
      assert stored[j] == x;
      assert x in stored && x !in token;
    }
  }
}
