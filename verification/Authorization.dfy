/**
 Authorization: policies sorted by descending priority, of which the first match decides,
 and a cache of policy lists that administrators' changes must invalidate.
 */
module Authorization {
  import opened Wrappers
  import opened GatewaySession
  import opened Iteration

  datatype Subject = Subject(kind: string, value: Option<string>)

  datatype Policy = Policy(
    id: nat, name: string, target: Option<TargetId>, resourceType: string, pattern: Option<string>,
    effect: string, priority: int, enabled: bool, subjects: seq<Subject>)

  datatype Request = Request(userId: string, role: string, groups: seq<string>, resourceType: string, resourceName: string)

  /** Regular-expression search of a pattern in a name; None when the pattern does not compile. */
  type Regex = (string, string) -> Option<bool>

  // ---------- Matching one policy ----------

  predicate SubjectMatches(s: Subject, req: Request) {
    s.kind == "everyone"
    || (s.value.Some? &&
        ((s.kind == "user" && s.value.value == req.userId)
         || (s.kind == "role" && s.value.value == req.role)
         || (s.kind == "group" && s.value.value in req.groups)))
  }

  predicate MatchesSubject(p: Policy, req: Request) {
    exists s :: s in p.subjects && SubjectMatches(s, req)
  }

  /** Resource type and pattern; a pattern is ignored when the request names no resource. */
  predicate MatchesResource(p: Policy, req: Request, re: Regex) {
    && (p.resourceType == "all" || p.resourceType == req.resourceType)
    && (p.pattern.Some? && p.pattern.value != "" && req.resourceName != "" ==> re(p.pattern.value, req.resourceName) == Some(true))
  }

  predicate Matches(p: Policy, req: Request, re: Regex) {
    MatchesSubject(p, req) && MatchesResource(p, req, re)
  }

  function FirstMatch(ps: seq<Policy>, req: Request, re: Regex): Option<Policy> {
    if ps == [] then None
    else if Matches(ps[0], req, re) then Some(ps[0])
    else FirstMatch(ps[1..], req, re)
  }

  function Allows(p: Policy): bool {
    p.effect == "allow"
  }

  /** The verdict and the name of the policy that gave it; deny when none matches. */
  function Decision(ps: seq<Policy>, req: Request, re: Regex): (bool, string) {
    match FirstMatch(ps, req, re)
    case Some(p) => (Allows(p), p.name)
    case None => (false, "")
  }

  // ---------- The set-level rule ----------

  ghost predicate Sorted(ps: seq<Policy>) {
    forall i, j :: 0 <= i < j < |ps| ==> ps[i].priority >= ps[j].priority
  }

  /** A matching policy of the highest priority among the matching ones. */
  ghost predicate IsTop(ps: seq<Policy>, req: Request, re: Regex, p: Policy) {
    p in ps && Matches(p, req, re) && forall q :: q in ps && Matches(q, req, re) ==> q.priority <= p.priority
  }

  ghost predicate TopAgree(ps: seq<Policy>, req: Request, re: Regex) {
    forall p, q :: IsTop(ps, req, re, p) && IsTop(ps, req, re, q) ==> Allows(p) == Allows(q)
  }

  lemma {:induction false} FirstMatchAt(ps: seq<Policy>, req: Request, re: Regex) returns (k: nat)
    ensures k <= |ps| && forall i :: 0 <= i < k ==> !Matches(ps[i], req, re)
    ensures k < |ps| ==> Matches(ps[k], req, re) && FirstMatch(ps, req, re) == Some(ps[k])
    ensures k == |ps| ==> FirstMatch(ps, req, re) == None
  {
    if ps == [] || Matches(ps[0], req, re) {
      k := 0;
    } else {
      var j := FirstMatchAt(ps[1..], req, re);
      k := j + 1;
      forall i | 0 <= i < k ensures !Matches(ps[i], req, re) {
        assert i > 0 ==> ps[i] == ps[1..][i - 1];
      }
    }
  }

  /** The position of the first match determines it. */
  lemma {:induction false} FirstMatchIs(ps: seq<Policy>, req: Request, re: Regex, k: nat)
    requires k < |ps| && Matches(ps[k], req, re) && forall i :: 0 <= i < k ==> !Matches(ps[i], req, re)
    ensures FirstMatch(ps, req, re) == Some(ps[k])
  {
    if k > 0 {
      FirstMatchIs(ps[1..], req, re, k - 1);
    }
  }

  /** On a sorted list the first match is a top match, and there is one whenever anything matches. */
  lemma FirstMatchIsTop(ps: seq<Policy>, req: Request, re: Regex)
    requires Sorted(ps)
    ensures FirstMatch(ps, req, re).Some? ==> IsTop(ps, req, re, FirstMatch(ps, req, re).value)
    ensures FirstMatch(ps, req, re) == None <==> forall p :: p in ps ==> !Matches(p, req, re)
  {
    var k := FirstMatchAt(ps, req, re);
    if k < |ps| {
      forall q | q in ps && Matches(q, req, re) ensures q.priority <= ps[k].priority {
        var i :| 0 <= i < |ps| && ps[i] == q;
      }
    }
  }

  /** When the top matches agree: access just when some highest-priority match allows, else (or with no match) deny. */
  lemma DecisionRule(ps: seq<Policy>, req: Request, re: Regex)
    requires Sorted(ps) && TopAgree(ps, req, re)
    ensures Decision(ps, req, re).0 <==> exists p :: IsTop(ps, req, re, p) && Allows(p)
  {
    FirstMatchIsTop(ps, req, re);
  }

  /** Two sorted lists of the same policies give the same verdict when the top matches agree. */
  lemma SameVerdict(ps: seq<Policy>, qs: seq<Policy>, req: Request, re: Regex)
    requires Sorted(ps) && Sorted(qs) && TopAgree(ps, req, re)
    requires forall p :: p in ps <==> p in qs
    ensures Decision(ps, req, re).0 == Decision(qs, req, re).0
  {
    FirstMatchIsTop(ps, req, re);
    FirstMatchIsTop(qs, req, re);
    if FirstMatch(qs, req, re).Some? {
      assert IsTop(ps, req, re, FirstMatch(qs, req, re).value);
    }
  }

  function Swap(ps: seq<Policy>, i: nat, j: nat): seq<Policy>
    requires i < j < |ps|
  {
    ps[i := ps[j]][j := ps[i]]
  }

  lemma SwapFacts(ps: seq<Policy>, i: nat, j: nat)
    requires i < j < |ps| && Sorted(ps) && ps[i].priority == ps[j].priority
    ensures Sorted(Swap(ps, i, j)) && multiset(Swap(ps, i, j)) == multiset(ps)
  {
  }

  /**
   The order among equal priorities, which the query leaves open, never matters exactly when
   the matching policies of the highest priority agree on their effect.
   */
  lemma OrderIrrelevant(ps: seq<Policy>, req: Request, re: Regex)
    requires Sorted(ps)
    ensures (forall qs :: Sorted(qs) && multiset(qs) == multiset(ps) ==> Decision(qs, req, re).0 == Decision(ps, req, re).0)
            <==> TopAgree(ps, req, re)
  {
    if TopAgree(ps, req, re) {
      forall qs | Sorted(qs) && multiset(qs) == multiset(ps) ensures Decision(qs, req, re).0 == Decision(ps, req, re).0 {
        SameMembers(ps, qs);
        SameVerdict(ps, qs, req, re);
      }
    } else {
      FirstMatchIsTop(ps, req, re);
      var k := FirstMatchAt(ps, req, re);
      var q :| IsTop(ps, req, re, q) && Allows(q) != Allows(ps[k]);
      var j :| 0 <= j < |ps| && ps[j] == q;
      SwapFacts(ps, k, j);
      var qs := Swap(ps, k, j);
      FirstMatchIs(qs, req, re, k);
    }
  }

  lemma SameMembers(ps: seq<Policy>, qs: seq<Policy>)
    requires multiset(qs) == multiset(ps)
    ensures forall p :: p in ps <==> p in qs
  {
    assert forall p :: p in ps <==> p in multiset(ps);
    assert forall p :: p in qs <==> p in multiset(qs);
  }

  // ---------- The rule on the fields themselves ----------

  /** What each kind of subject names. */
  predicate Names(kind: string, value: Option<string>, userId: string, role: string, groups: seq<string>) {
    match value
    case None => kind == "everyone"
    case Some(v) =>
      kind == "everyone" || (kind == "user" && v == userId) || (kind == "role" && v == role) || (kind == "group" && v in groups)
  }

  predicate NamesCaller(p: Policy, req: Request) {
    exists k :: 0 <= k < |p.subjects| && Names(p.subjects[k].kind, p.subjects[k].value, req.userId, req.role, req.groups)
  }

  /** A pattern counts only when it is not empty and a resource is named. */
  predicate NamesResource(p: Policy, req: Request, re: Regex) {
    && (p.resourceType == "all" || p.resourceType == req.resourceType)
    && (p.pattern == None || p.pattern == Some("") || req.resourceName == "" || re(p.pattern.value, req.resourceName) == Some(true))
  }

  /** The policy speaks of this caller and resource. */
  predicate Applies(p: Policy, req: Request, re: Regex) {
    NamesCaller(p, req) && NamesResource(p, req, re)
  }

  lemma SubjectIsNamed(p: Policy, req: Request)
    ensures MatchesSubject(p, req) <==> NamesCaller(p, req)
  {
    forall s ensures SubjectMatches(s, req) <==> Names(s.kind, s.value, req.userId, req.role, req.groups) {
    }
    if NamesCaller(p, req) {
      var k :| 0 <= k < |p.subjects| && Names(p.subjects[k].kind, p.subjects[k].value, req.userId, req.role, req.groups);
      assert p.subjects[k] in p.subjects;
    }
    if MatchesSubject(p, req) {
      var s :| s in p.subjects && SubjectMatches(s, req);
      var k :| 0 <= k < |p.subjects| && p.subjects[k] == s;
      assert Names(p.subjects[k].kind, p.subjects[k].value, req.userId, req.role, req.groups);
    }
  }

  lemma ResourceIsNamed(p: Policy, req: Request, re: Regex)
    ensures MatchesResource(p, req, re) <==> NamesResource(p, req, re)
  {
  }

  lemma MatchesIsApplies(p: Policy, req: Request, re: Regex)
    ensures Matches(p, req, re) <==> Applies(p, req, re)
  {
    SubjectIsNamed(p, req);
    ResourceIsNamed(p, req, re);
  }

  /** Access is granted exactly when the first policy in the list that applies has the effect "allow", and that policy is named. */
  lemma VerdictByFields(ps: seq<Policy>, req: Request, re: Regex)
    ensures Decision(ps, req, re).0 <==>
            exists k :: 0 <= k < |ps| && Applies(ps[k], req, re) && ps[k].effect == "allow" && forall j :: 0 <= j < k ==> !Applies(ps[j], req, re)
    ensures forall k :: 0 <= k < |ps| && Applies(ps[k], req, re) && (forall j :: 0 <= j < k ==> !Applies(ps[j], req, re)) ==>
              Decision(ps, req, re) == (ps[k].effect == "allow", ps[k].name)
    ensures (forall k :: 0 <= k < |ps| ==> !Applies(ps[k], req, re)) ==> Decision(ps, req, re) == (false, "")
  {
    forall k | 0 <= k < |ps| ensures Matches(ps[k], req, re) <==> Applies(ps[k], req, re) {
      MatchesIsApplies(ps[k], req, re);
    }
    var f := FirstMatchAt(ps, req, re);
    if f < |ps| {
      assert Applies(ps[f], req, re);
      assert forall k :: 0 <= k < |ps| && Applies(ps[k], req, re) && (forall j :: 0 <= j < k ==> !Applies(ps[j], req, re)) ==> k == f;
    }
  }

  /** What single subjects decide. */
  lemma SubjectsDecide(p: Policy, req: Request, re: Regex, value: string)
    requires p.effect == "allow" && p.resourceType == "all" && p.pattern == None
    ensures p.subjects == [Subject("everyone", None)] ==> Decision([p], req, re).0
    ensures p.subjects == [Subject("user", Some(value))] ==> (Decision([p], req, re).0 <==> req.userId == value)
    ensures p.subjects == [Subject("role", Some(value))] ==> (Decision([p], req, re).0 <==> req.role == value)
    ensures p.subjects == [Subject("group", Some(value))] ==> (Decision([p], req, re).0 <==> value in req.groups)
    ensures p.subjects == [] ==> !Decision([p], req, re).0
  {
    VerdictByFields([p], req, re);
    assert [p][0] == p;
    assert Decision([p], req, re).0 <==> NamesCaller(p, req);
    if |p.subjects| == 1 {
      var s := p.subjects[0];
      assert NamesCaller(p, req) <==> Names(s.kind, s.value, req.userId, req.role, req.groups);
    }
  }

  // ---------- The policy table and its query ----------

  ghost function Visible(table: set<Policy>, target: Option<TargetId>): set<Policy> {
    set p | p in table && p.enabled && (p.target == None || p.target == target)
  }

  /** What the query may return: the enabled policies for all targets or this one, by descending priority, ties in any order. */
  ghost predicate IsQuery(table: set<Policy>, target: Option<TargetId>, ps: seq<Policy>) {
    Sorted(ps) && Visits(ps, Visible(table, target))
  }

  /** An enabled policy of the table, for this target or for all, that applies. */
  predicate Governs(table: set<Policy>, target: Option<TargetId>, req: Request, re: Regex, p: Policy) {
    p in table && p.enabled && (p.target == None || p.target == target) && Applies(p, req, re)
  }

  /** The verdict over the table itself: some governing policy of the highest priority allows. */
  lemma TableDecides(table: set<Policy>, target: Option<TargetId>, ps: seq<Policy>, req: Request, re: Regex)
    requires IsQuery(table, target, ps) && TopAgree(ps, req, re)
    ensures Decision(ps, req, re).0 <==>
            exists p :: Governs(table, target, req, re, p) && p.effect == "allow" &&
                        forall q :: Governs(table, target, req, re, q) ==> q.priority <= p.priority
  {
    DecisionRule(ps, req, re);
    forall p ensures Governs(table, target, req, re, p) <==> p in ps && Matches(p, req, re) {
      MatchesIsApplies(p, req, re);
      assert p in ps <==> p in Visible(table, target);
    }
    if Decision(ps, req, re).0 {
      var p :| IsTop(ps, req, re, p) && Allows(p);
      assert Governs(table, target, req, re, p);
    }
    if p :| Governs(table, target, req, re, p) && p.effect == "allow" && forall q :: Governs(table, target, req, re, q) ==> q.priority <= p.priority {
      assert IsTop(ps, req, re, p);
    }
  }

  // ---------- The cache ----------

  type Cache = map<string, seq<Policy>>

  function Key(target: Option<TargetId>): string {
    match target case Some(t) => t case None => "global"
  }

  /** A UUID is never the word for the global list. */
  lemma KeyInjective(t: Option<TargetId>, u: Option<TargetId>)
    requires Key(t) == Key(u)
    ensures t == u
  {
    assert |"global"| == 6;
  }

  /** Every cached list is one that a direct query could return now. */
  ghost predicate Coherent(cache: Cache, table: set<Policy>) {
    forall t: Option<TargetId> :: Key(t) in cache ==> IsQuery(table, t, cache[Key(t)])
  }

  function Drop(cache: Cache, target: Option<TargetId>): Cache {
    cache - (if target.Some? then {Key(target), "global"} else {"global"})
  }

  /** Dropping a target loses its own list and the global one, and keeps every other. */
  lemma DropsExactly(cache: Cache, target: Option<TargetId>, other: Option<TargetId>)
    ensures Key(other) in Drop(cache, target) <==> Key(other) in cache && other != None && other != target
    ensures Key(other) in Drop(cache, target) ==> Drop(cache, target)[Key(other)] == cache[Key(other)]
  {
    if Key(other) == Key(target) {
      KeyInjective(other, target);
    }
    if Key(other) == Key(None) {
      KeyInjective(other, None);
    }
  }

  datatype Error = DatabaseError

  class Authorizer {
    var policyCache: Cache

    constructor ()
      ensures policyCache == map[]
    {
      policyCache := map[];
    }

    method MatchesAnySubject(p: Policy, req: Request) returns (r: bool)
      ensures r == MatchesSubject(p, req)
    {
      for i := 0 to |p.subjects|
        invariant forall k :: 0 <= k < i ==> !SubjectMatches(p.subjects[k], req)
      {
        var s := p.subjects[i];
        assert s in p.subjects;
        if s.kind == "everyone" {
          return true;
        } else if s.kind == "user" {
          if s.value.Some? && s.value.value == req.userId {
            return true;
          }
        } else if s.kind == "role" {
          if s.value.Some? && s.value.value == req.role {
            return true;
          }
        } else if s.kind == "group" {
          if s.value.Some? {
            for g := 0 to |req.groups|
              invariant s.value.value !in req.groups[..g]
            {
              if req.groups[g] == s.value.value {
                return true;
              }
            }
            assert req.groups[..|req.groups|] == req.groups;
          }
        }
      }
      return false;
    }

    /** The scan over the loaded policies. */
    method Decide(policies: seq<Policy>, req: Request, re: Regex) returns (allowed: bool, name: string)
      ensures (allowed, name) == Decision(policies, req, re)
    {
      for i := 0 to |policies|
        invariant Decision(policies[i..], req, re) == Decision(policies, req, re)
      {
        var p := policies[i];
        assert policies[i..][0] == p && policies[i..][1..] == policies[i + 1..];
        var subject := MatchesAnySubject(p, req);
        if !subject {
          continue;
        }
        if p.resourceType != "all" && p.resourceType != req.resourceType {
          continue;
        }
        if p.pattern.Some? && p.pattern.value != "" && req.resourceName != "" {
          var matched := re(p.pattern.value, req.resourceName);
          if matched == None || !matched.value {
            continue;
          }
        }
        return p.effect == "allow", p.name;
      }
      return false, "";
    }

    /** `queried` is what the database answers, should it be asked. */
    method LoadPolicies(target: Option<TargetId>, queried: Result<seq<Policy>, Error>) returns (r: Result<seq<Policy>, Error>)
      modifies this
      ensures r == if Key(target) in old(policyCache) then Ok(old(policyCache)[Key(target)]) else queried
      ensures policyCache ==
        if Key(target) !in old(policyCache) && queried.Ok? then old(policyCache)[Key(target) := queried.value] else old(policyCache)
    {
      var key := "global";
      if target.Some? {
        key := target.value;
      }
      if key in policyCache {
        return Ok(policyCache[key]);
      }
      if queried.Err? {
        return queried;
      }
      policyCache := policyCache[key := queried.value];
      return queried;
    }

    method CanAccess(target: Option<TargetId>, req: Request, re: Regex, queried: Result<seq<Policy>, Error>)
      returns (r: Result<(bool, string), Error>)
      modifies this
      ensures r ==
        if Key(target) in old(policyCache) then Ok(Decision(old(policyCache)[Key(target)], req, re))
        else if queried.Ok? then Ok(Decision(queried.value, req, re))
        else Err(queried.error)
      ensures policyCache ==
        if Key(target) !in old(policyCache) && queried.Ok? then old(policyCache)[Key(target) := queried.value] else old(policyCache)
    {
      var policies := LoadPolicies(target, queried);
      if policies.Err? {
        return Err(policies.error);
      }
      var allowed, name := Decide(policies.value, req, re);
      return Ok((allowed, name));
    }

    method InvalidateCache()
      modifies this
      ensures policyCache == map[]
    {
      policyCache := map[];
    }

    method InvalidateCacheForTarget(target: Option<TargetId>)
      modifies this
      ensures policyCache == Drop(old(policyCache), target)
    {
      if target.Some? {
        policyCache := policyCache - {target.value};
      }
      policyCache := policyCache - {"global"};
    }
  }

  // ---------- Runs of loads and policy changes ----------

  /**
   A load reads the rows of the policies in one statement, the subjects of each in a further
   one, and stores the list: `done` tells for how many rows the subjects have been read.
   */
  datatype Load = Load(target: Option<TargetId>, rows: seq<Policy>, done: nat)

  datatype State = State(cache: Cache, table: set<Policy>, reading: map<nat, Load>)

  datatype Invalidation = Everything | OneTarget(target: Option<TargetId>) | Nothing

  datatype Event =
    | AskRows(load: nat, target: Option<TargetId>, answer: seq<Policy>)
    | AskSubjects(load: nat)
    | Keep(load: nat)
    | Abandon(load: nat)
    | Change(table: set<Policy>, invalidation: Invalidation)

  ghost predicate UniqueIds(table: set<Policy>) {
    forall p, q :: p in table && q in table && p.id == q.id ==> p == q
  }

  /** The subjects stored for a policy; none when it is gone. */
  ghost function SubjectsNow(table: set<Policy>, id: nat): seq<Subject> {
    if p :| p in table && p.id == id then p.subjects else []
  }

  lemma SubjectsOf(table: set<Policy>, p: Policy)
    requires UniqueIds(table) && p in table
    ensures SubjectsNow(table, p.id) == p.subjects
  {
  }

  /** A policy as its row holds it. */
  function Head(p: Policy): Policy {
    p.(subjects := [])
  }

  function Heads(ps: seq<Policy>): (r: seq<Policy>)
    ensures |r| == |ps| && forall i :: 0 <= i < |r| ==> r[i] == Head(ps[i])
  {
    seq(|ps|, i requires 0 <= i < |ps| => Head(ps[i]))
  }

  ghost predicate Enabled(s: State, e: Event) {
    match e
    case AskRows(load, target, answer) => load !in s.reading && Key(target) !in s.cache && IsQuery(s.table, target, answer)
    case AskSubjects(load) => load in s.reading && s.reading[load].done < |s.reading[load].rows|
    case Keep(load) => load in s.reading && s.reading[load].done == |s.reading[load].rows|
    case Abandon(load) => load in s.reading
    case Change(table, _) => UniqueIds(table)
  }

  ghost function Next(s: State, e: Event): State
    requires Enabled(s, e)
  {
    match e
    case AskRows(load, target, answer) => s.(reading := s.reading[load := Load(target, Heads(answer), 0)])
    case AskSubjects(load) =>
      var l := s.reading[load];
      var row := l.rows[l.done].(subjects := SubjectsNow(s.table, l.rows[l.done].id));
      s.(reading := s.reading[load := l.(rows := l.rows[l.done := row], done := l.done + 1)])
    case Keep(load) =>
      State(s.cache[Key(s.reading[load].target) := s.reading[load].rows], s.table, s.reading - {load})
    case Abandon(load) => s.(reading := s.reading - {load})
    case Change(table, invalidation) =>
      State(match invalidation {
              case Everything => map[]
              case OneTarget(t) => Drop(s.cache, t)
              case Nothing => s.cache
            }, table, s.reading)
  }

  /** The list that a load would store if nothing changed before it ends. */
  ghost function Completed(table: set<Policy>, l: Load): (r: seq<Policy>)
    ensures |r| == |l.rows|
    ensures forall i :: 0 <= i < |r| ==>
              r[i] == if i < l.done then l.rows[i] else l.rows[i].(subjects := SubjectsNow(table, l.rows[i].id))
  {
    seq(|l.rows|, i requires 0 <= i < |l.rows| =>
      if i < l.done then l.rows[i] else l.rows[i].(subjects := SubjectsNow(table, l.rows[i].id)))
  }

  /** The load is on its way to an answer that a direct query could give now. */
  ghost predicate OnCourse(table: set<Policy>, l: Load) {
    l.done <= |l.rows| && IsQuery(table, l.target, Completed(table, l))
  }

  /** The cache is coherent, and so will be the lists on their way into it. */
  ghost predicate Current(s: State) {
    UniqueIds(s.table) && Coherent(s.cache, s.table) && forall l :: l in s.reading ==> OnCourse(s.table, s.reading[l])
  }

  ghost function VisibleHeads(table: set<Policy>, target: Option<TargetId>): set<Policy> {
    set p | p in Visible(table, target) :: Head(p)
  }

  /** The change leaves alone the rows that the load has read, and the subjects that it has read so far. */
  ghost predicate Spares(table: set<Policy>, table': set<Policy>, l: Load) {
    && VisibleHeads(table, l.target) == VisibleHeads(table', l.target)
    && forall i :: 0 <= i < l.done && i < |l.rows| ==> SubjectsNow(table, l.rows[i].id) == SubjectsNow(table', l.rows[i].id)
  }

  /** The change leaves every list alone that survives the invalidation, and every load what it has read. */
  ghost predicate Harmless(s: State, e: Event)
    requires Enabled(s, e)
  {
    e.Change? ==>
      && (forall t: Option<TargetId> :: Key(t) in Next(s, e).cache ==> Visible(s.table, t) == Visible(e.table, t))
      && (forall l :: l in s.reading ==> Spares(s.table, e.table, s.reading[l]))
  }

  lemma SameQuery(table: set<Policy>, table': set<Policy>, t: Option<TargetId>, ps: seq<Policy>)
    requires IsQuery(table, t, ps)
    ensures IsQuery(table', t, ps) <==> Visible(table, t) == Visible(table', t)
  {
    if IsQuery(table', t, ps) {
      assert forall p :: p in Visible(table, t) <==> p in ps;
    }
  }

  lemma CompletedHeads(table: set<Policy>, table': set<Policy>, l: Load, i: nat)
    requires i < |l.rows|
    ensures Head(Completed(table, l)[i]) == Head(Completed(table', l)[i]) == Head(l.rows[i])
  {
  }

  /** A policy of the new table with the row that the load holds at `i` is the one it will store there. */
  lemma FoundAt(table: set<Policy>, table': set<Policy>, l: Load, i: nat, p: Policy)
    requires UniqueIds(table) && UniqueIds(table') && OnCourse(table, l) && Spares(table, table', l)
    requires i < |l.rows| && p in table' && Head(p) == Head(l.rows[i])
    ensures Completed(table', l)[i] == p
  {
    SubjectsOf(table', p);
    var q := Completed(table, l)[i];
    assert q in Completed(table, l);
    SubjectsOf(table, q);
    assert p.id == l.rows[i].id == q.id;
  }

  lemma RowsDistinct(table: set<Policy>, l: Load, i: nat, j: nat)
    requires UniqueIds(table) && OnCourse(table, l) && i < j < |l.rows|
    ensures l.rows[i].id != l.rows[j].id
  {
    var c := Completed(table, l);
    assert c[i] in c && c[j] in c;
    assert c[i] != c[j];
  }

  lemma SparedOnCourse(table: set<Policy>, table': set<Policy>, l: Load)
    requires UniqueIds(table) && UniqueIds(table') && OnCourse(table, l) && Spares(table, table', l)
    ensures OnCourse(table', l)
  {
    var c, c' := Completed(table, l), Completed(table', l);
    forall p | p in Visible(table', l.target) ensures p in c' {
      assert Head(p) in VisibleHeads(table, l.target);
      var q :| q in Visible(table, l.target) && Head(q) == Head(p);
      assert q in c;
      var i :| 0 <= i < |c| && c[i] == q;
      CompletedHeads(table, table', l, i);
      FoundAt(table, table', l, i, p);
      assert c'[i] == p;
    }
    forall i | 0 <= i < |c'| ensures c'[i] in Visible(table', l.target) {
      assert c[i] in c;
      assert Head(c[i]) in VisibleHeads(table, l.target);
      CompletedHeads(table, table', l, i);
      var p :| p in Visible(table', l.target) && Head(p) == Head(c[i]);
      FoundAt(table, table', l, i, p);
    }
    forall i, j | 0 <= i < j < |c'| ensures c'[i] != c'[j] && c'[i].priority >= c'[j].priority {
      RowsDistinct(table, l, i, j);
      assert c[i].priority >= c[j].priority;
    }
  }

  lemma OnCourseSpared(table: set<Policy>, table': set<Policy>, l: Load)
    requires UniqueIds(table) && UniqueIds(table') && OnCourse(table, l) && OnCourse(table', l)
    ensures Spares(table, table', l)
  {
    HeadsKept(table, table', l);
    HeadsKept(table', table, l);
    var c, c' := Completed(table, l), Completed(table', l);
    forall i | 0 <= i < l.done && i < |l.rows| ensures SubjectsNow(table, l.rows[i].id) == SubjectsNow(table', l.rows[i].id) {
      assert c[i] in c && c'[i] in c' && c[i] == c'[i] == l.rows[i];
      SubjectsOf(table, c[i]);
      SubjectsOf(table', c'[i]);
    }
  }

  lemma HeadsKept(table: set<Policy>, table': set<Policy>, l: Load)
    requires OnCourse(table, l) && OnCourse(table', l)
    ensures VisibleHeads(table, l.target) <= VisibleHeads(table', l.target)
  {
    var c, c' := Completed(table, l), Completed(table', l);
    forall h | h in VisibleHeads(table, l.target) ensures h in VisibleHeads(table', l.target) {
      var p :| p in Visible(table, l.target) && Head(p) == h;
      assert p in c;
      var i :| 0 <= i < |c| && c[i] == p;
      CompletedHeads(table, table', l, i);
      assert c'[i] in c';
    }
  }

  /** A load's own statements keep it on course. */
  lemma ReadingKeepsCourse(s: State, e: Event, l: nat)
    requires Current(s) && Enabled(s, e) && !e.Change? && l in Next(s, e).reading
    ensures OnCourse(s.table, Next(s, e).reading[l])
  {
    match e
    case AskRows(load, target, answer) =>
      if l == load {
        var c := Completed(s.table, Load(target, Heads(answer), 0));
        forall i | 0 <= i < |answer| ensures c[i] == answer[i] {
          assert answer[i] in answer;
          SubjectsOf(s.table, answer[i]);
        }
        assert c == answer;
      }
    case AskSubjects(load) =>
      if l == load {
        assert Completed(s.table, Next(s, e).reading[l]) == Completed(s.table, s.reading[l]);
      }
    case _ =>
  }

  lemma KeptIsQuery(s: State, load: nat)
    requires Current(s) && load in s.reading && s.reading[load].done == |s.reading[load].rows|
    ensures IsQuery(s.table, s.reading[load].target, s.reading[load].rows)
  {
    assert OnCourse(s.table, s.reading[load]);
    assert Completed(s.table, s.reading[load]) == s.reading[load].rows;
  }

  lemma ReadingKeepsCurrent(s: State, e: Event)
    requires Current(s) && Enabled(s, e) && !e.Change?
    ensures Current(Next(s, e))
  {
    var s' := Next(s, e);
    forall t: Option<TargetId> | Key(t) in s'.cache ensures IsQuery(s'.table, t, s'.cache[Key(t)]) {
      if e.Keep? && Key(t) == Key(s.reading[e.load].target) {
        KeyInjective(t, s.reading[e.load].target);
        KeptIsQuery(s, e.load);
      } else {
        assert s'.cache[Key(t)] == s.cache[Key(t)];
      }
    }
    forall l | l in s'.reading ensures OnCourse(s'.table, s'.reading[l]) {
      ReadingKeepsCourse(s, e, l);
    }
  }

  lemma ChangeKeepsCurrent(s: State, e: Event)
    requires Current(s) && Enabled(s, e) && e.Change?
    ensures Current(Next(s, e)) <==> Harmless(s, e)
  {
    var s' := Next(s, e);
    forall t: Option<TargetId> | Key(t) in s'.cache
      ensures IsQuery(s'.table, t, s'.cache[Key(t)]) <==> Visible(s.table, t) == Visible(s'.table, t)
    {
      assert s'.cache[Key(t)] == s.cache[Key(t)];
      SameQuery(s.table, s'.table, t, s.cache[Key(t)]);
    }
    forall l | l in s.reading ensures OnCourse(s'.table, s.reading[l]) <==> Spares(s.table, s'.table, s.reading[l]) {
      assert OnCourse(s.table, s.reading[l]);
      if OnCourse(s'.table, s.reading[l]) {
        OnCourseSpared(s.table, s'.table, s.reading[l]);
      } else if Spares(s.table, s'.table, s.reading[l]) {
        SparedOnCourse(s.table, s'.table, s.reading[l]);
      }
    }
  }

  /** The exact condition: a step keeps the cache current just when it is harmless. */
  lemma StepKeepsCurrent(s: State, e: Event)
    requires Current(s) && Enabled(s, e)
    ensures Current(Next(s, e)) <==> Harmless(s, e)
  {
    if e.Change? {
      ChangeKeepsCurrent(s, e);
    } else {
      ReadingKeepsCurrent(s, e);
    }
  }

  /** Every policy that the change adds or removes is scoped to `t`. */
  ghost predicate ScopedTo(table: set<Policy>, table': set<Policy>, t: TargetId) {
    forall p :: (p in table) != (p in table') ==> p.target == Some(t)
  }

  /** With no load under way, clearing everything is always enough, and clearing one target is enough for a change scoped to it. */
  lemma InvalidationSuffices(s: State, e: Event)
    requires e.Change? && Enabled(s, e) && s.reading == map[]
    requires e.invalidation == Everything
      || (e.invalidation.OneTarget? && e.invalidation.target.Some? && ScopedTo(s.table, e.table, e.invalidation.target.value))
    ensures Harmless(s, e)
  {
    if e.invalidation.OneTarget? {
      var t0 := e.invalidation.target.value;
      forall t: Option<TargetId> | Key(t) in Next(s, e).cache ensures Visible(s.table, t) == Visible(e.table, t) {
        assert t != Some(t0);
      }
    }
  }

  ghost predicate Run(states: seq<State>, events: seq<Event>) {
    && |states| == |events| + 1
    && states[0].cache == map[] && states[0].reading == map[] && UniqueIds(states[0].table)
    && forall i :: 0 <= i < |events| ==> Enabled(states[i], events[i]) && states[i + 1] == Next(states[i], events[i])
  }

  /** In a run whose changes are harmless, a cached decision is the one a direct query would lead to, whenever the order of ties does not matter. */
  lemma CachedDecision(states: seq<State>, events: seq<Event>, n: nat, t: Option<TargetId>, direct: seq<Policy>, req: Request, re: Regex)
    requires Run(states, events) && n < |states|
    requires forall i :: 0 <= i < n ==> Harmless(states[i], events[i])
    requires Key(t) in states[n].cache
    requires IsQuery(states[n].table, t, direct) && TopAgree(direct, req, re)
    ensures Decision(states[n].cache[Key(t)], req, re).0 == Decision(direct, req, re).0
  {
    RunKeepsCurrent(states, events, n);
    SameVerdict(direct, states[n].cache[Key(t)], req, re);
  }

  lemma {:induction false} RunKeepsCurrent(states: seq<State>, events: seq<Event>, n: nat)
    requires Run(states, events) && n < |states|
    requires forall i :: 0 <= i < n ==> Harmless(states[i], events[i])
    ensures Current(states[n])
  {
    if n > 0 {
      RunKeepsCurrent(states, events, n - 1);
      StepKeepsCurrent(states[n - 1], events[n - 1]);
      assert states[n - 1 + 1] == Next(states[n - 1], events[n - 1]);
    }
  }

  // ---------- Where the cache goes stale ----------

  const OPEN_TO_ALL := Policy(1, "open", None, "all", None, "allow", 1, true, [Subject("everyone", None)])

  lemma OpenAllows(req: Request, re: Regex)
    ensures Decision([OPEN_TO_ALL], req, re) == (true, "open")
    ensures forall t :: IsQuery({OPEN_TO_ALL}, t, [OPEN_TO_ALL])
  {
    assert OPEN_TO_ALL.subjects[0] in OPEN_TO_ALL.subjects;
    forall t ensures IsQuery({OPEN_TO_ALL}, t, [OPEN_TO_ALL]) {
      assert Visible({OPEN_TO_ALL}, t) == {OPEN_TO_ALL};
    }
  }

  /**
   Removing an all-target policy: clearing only one target, or nothing (which is what the
   repository's policy handlers do), leaves another target's list allowing everything,
   while a direct query would deny.
   */
  lemma AllTargetChangeGoesStale(t: TargetId, u: TargetId, invalidation: Invalidation, req: Request, re: Regex)
    requires t != u && (invalidation == OneTarget(Some(t)) || invalidation == Nothing)
    ensures var s := State(map[u := [OPEN_TO_ALL]], {OPEN_TO_ALL}, map[]);
      Enabled(s, Change({}, invalidation)) &&
      var s' := Next(s, Change({}, invalidation));
      Current(s) && Key(Some(u)) in s'.cache
      && Decision(s'.cache[Key(Some(u))], req, re).0 && IsQuery(s'.table, Some(u), []) && !Decision([], req, re).0
  {
    OpenAllows(req, re);
    var s := State(map[u := [OPEN_TO_ALL]], {OPEN_TO_ALL}, map[]);
    forall v: Option<TargetId> | Key(v) in s.cache ensures IsQuery(s.table, v, s.cache[Key(v)]) {
      KeyInjective(v, Some(u));
    }
    assert |"global"| == 6;
  }

  /** A load that asked before a change and stores after it undoes even a full invalidation. */
  lemma LateStoreUndoesInvalidation(u: TargetId, req: Request, re: Regex)
    ensures var s0 := State(map[], {OPEN_TO_ALL}, map[]);
      var rows, subjects, change, keep := AskRows(0, Some(u), [OPEN_TO_ALL]), AskSubjects(0), Change({}, Everything), Keep(0);
      Enabled(s0, rows) &&
      var s1 := Next(s0, rows);
      Enabled(s1, subjects) &&
      var s2 := Next(s1, subjects);
      Enabled(s2, change) &&
      var s3 := Next(s2, change);
      Enabled(s3, keep) &&
      var s4 := Next(s3, keep);
      Key(Some(u)) in s4.cache && Decision(s4.cache[Key(Some(u))], req, re).0
      && IsQuery(s4.table, Some(u), []) && !Decision([], req, re).0
  {
    OpenAllows(req, re);
    SubjectsOf({OPEN_TO_ALL}, OPEN_TO_ALL);
    var s1 := Next(State(map[], {OPEN_TO_ALL}, map[]), AskRows(0, Some(u), [OPEN_TO_ALL]));
    var s2 := Next(s1, AskSubjects(0));
    assert s2.reading[0].rows == [OPEN_TO_ALL];
  }

  function Scoped(effect: string, subject: Subject): Policy {
    Policy(1, "one", None, "all", None, effect, 1, true, [subject])
  }

  lemma ScopedDecision(effect: string, subject: Subject, req: Request, re: Regex)
    ensures Decision([Scoped(effect, subject)], req, re).0 <==> effect == "allow" && SubjectMatches(subject, req)
    ensures forall t :: IsQuery({Scoped(effect, subject)}, t, [Scoped(effect, subject)])
  {
    var p := Scoped(effect, subject);
    assert p.subjects[0] == subject;
    assert MatchesSubject(p, req) <==> SubjectMatches(subject, req);
    assert Matches(p, req, re) <==> SubjectMatches(subject, req);
    assert [p][1..] == [] && FirstMatch([], req, re) == None;
    assert FirstMatch([p], req, re) == if Matches(p, req, re) then Some(p) else None;
    forall t ensures IsQuery({p}, t, [p]) {
      assert Visible({p}, t) == {p};
    }
  }

  lemma OneRowLoad(s: State, p: Policy, load: nat)
    requires load in s.reading && s.reading[load].rows == [Head(p)] && s.reading[load].done == 0
    ensures Enabled(s, AskSubjects(load))
    ensures Next(s, AskSubjects(load)).reading[load].rows == [Head(p).(subjects := SubjectsNow(s.table, p.id))]
    ensures Enabled(Next(s, AskSubjects(load)), Keep(load))
  {
  }

  /**
   A torn load: it reads the row of a policy that allows one user, the policy is changed to deny
   and then extended to everyone, and the load reads the subjects. The cached list allows
   everyone, although no table of the run does and each change invalidates everything.
   */
  lemma TornLoad(u: TargetId, user: string, req: Request, re: Regex)
    requires req.userId != user
    ensures var one, all := Subject("user", Some(user)), Subject("everyone", None);
      var t0, t1, t2 := {Scoped("allow", one)}, {Scoped("deny", one)}, {Scoped("deny", all)};
      var rows, deny, extend := AskRows(0, Some(u), [Scoped("allow", one)]), Change(t1, Everything), Change(t2, Everything);
      var s0 := State(map[], t0, map[]);
      Enabled(s0, rows) && Enabled(Next(s0, rows), deny) &&
      var s2 := Next(Next(s0, rows), deny);
      Enabled(s2, extend) && Enabled(Next(s2, extend), AskSubjects(0)) &&
      var s4 := Next(Next(s2, extend), AskSubjects(0));
      Enabled(s4, Keep(0)) &&
      var cache := Next(s4, Keep(0)).cache;
      && Key(Some(u)) in cache && Decision(cache[Key(Some(u))], req, re).0
      && IsQuery(t0, Some(u), [Scoped("allow", one)]) && !Decision([Scoped("allow", one)], req, re).0
      && IsQuery(t1, Some(u), [Scoped("deny", one)]) && !Decision([Scoped("deny", one)], req, re).0
      && IsQuery(t2, Some(u), [Scoped("deny", all)]) && !Decision([Scoped("deny", all)], req, re).0
  {
    var one, all := Subject("user", Some(user)), Subject("everyone", None);
    ScopedDecision("allow", one, req, re);
    ScopedDecision("deny", one, req, re);
    ScopedDecision("deny", all, req, re);
    ScopedDecision("allow", all, req, re);
    var s0 := State(map[], {Scoped("allow", one)}, map[]);
    var s1 := Next(s0, AskRows(0, Some(u), [Scoped("allow", one)]));
    var s2 := Next(s1, Change({Scoped("deny", one)}, Everything));
    var s3 := Next(s2, Change({Scoped("deny", all)}, Everything));
    SubjectsOf(s3.table, Scoped("deny", all));
    OneRowLoad(s3, Scoped("allow", one), 0);
    assert Next(s3, AskSubjects(0)).reading[0].rows == [Scoped("allow", all)];
  }
}
