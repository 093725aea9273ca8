/**
 Credentials of a target: environment entries are merged layer by layer into one map, legacy
 tokens are looked up in a chain that stops at the first answer.
 */
module EnvConfig {
  import opened Wrappers

  datatype Scope = Default | Role(role: string) | Group(group: string) | User(user: string)

  datatype Row = Row(key: string, value: string, description: Option<string>)

  datatype Source = FromDefault | FromRole | FromGroup | FromUser

  datatype Info = Info(key: string, value: string, source: Source, scopeValue: string, description: string)

  datatype DbError = NotFound | Failed(code: int)

  function SourceOf(scope: Scope): Source {
    match scope
    case Default => FromDefault
    case Role(_) => FromRole
    case Group(_) => FromGroup
    case User(_) => FromUser
  }

  function ScopeValue(scope: Scope): string {
    match scope
    case Default => ""
    case Role(r) => r
    case Group(g) => g
    case User(u) => u
  }

  /** The entry a row gives rise to when it is found under a scope. */
  function InfoOf(scope: Scope, row: Row): Info {
    Info(row.key, row.value, SourceOf(scope), ScopeValue(scope), if row.description.Some? then row.description.value else "")
  }

  // ---------- The lookup that the merge must agree with ----------

  /** The last row with a key (a unique index leaves at most one). */
  function Find(rows: seq<Row>, key: string): (r: Option<Row>)
    ensures r.Some? <==> exists i :: 0 <= i < |rows| && rows[i].key == key
    ensures r.Some? ==> r.value.key == key && r.value in rows
  {
    if rows == [] then None
    else if rows[|rows| - 1].key == key then Some(rows[|rows| - 1])
    else
      Find(rows[..|rows| - 1], key)
  }

  function Held(store: Scope -> Result<seq<Row>, DbError>, scope: Scope, key: string): Option<Info> {
    match store(scope)
    case Err(_) => None
    case Ok(rows) =>
      match Find(rows, key)
      case None => None
      case Some(row) => Some(InfoOf(scope, row))
  }

  function LastGroup(store: Scope -> Result<seq<Row>, DbError>, groups: seq<string>, key: string): Option<Info> {
    if groups == [] then None
    else
      var last := Held(store, Group(groups[|groups| - 1]), key);
      if last.Some? then last else LastGroup(store, groups[..|groups| - 1], key)
  }

  /** The user's entry, else that of the last listed group holding the key, else the role's, else the default. */
  function Lookup(store: Scope -> Result<seq<Row>, DbError>, user: string, role: string, groups: seq<string>, key: string): Option<Info> {
    var own := Held(store, User(user), key);
    var group := LastGroup(store, groups, key);
    var ofRole := if role != "" then Held(store, Role(role), key) else None;
    if own.Some? then own
    else if group.Some? then group
    else if ofRole.Some? then ofRole
    else Held(store, Default, key)
  }

  function Groups(groups: seq<string>): (r: seq<Scope>)
    ensures |r| == |groups| && forall i :: 0 <= i < |r| ==> r[i] == Group(groups[i])
  {
    seq(|groups|, i requires 0 <= i < |groups| => Group(groups[i]))
  }

  /** The scopes in the order in which they are queried. */
  function Scopes(user: string, role: string, groups: seq<string>): seq<Scope> {
    [Default] + (if role != "" then [Role(role)] else []) + Groups(groups) + [User(user)]
  }

  function FirstFailure(store: Scope -> Result<seq<Row>, DbError>, scopes: seq<Scope>): (r: Option<DbError>)
    ensures r.None? <==> forall i :: 0 <= i < |scopes| ==> store(scopes[i]).Ok?
  {
    if scopes == [] then None
    else if store(scopes[0]).Err? then Some(store(scopes[0]).error)
    else
      var rest := FirstFailure(store, scopes[1..]);
      assert forall i :: 0 < i < |scopes| ==> scopes[i] == scopes[1..][i - 1];
      rest
  }

  lemma {:induction false} FirstFailureAppend(store: Scope -> Result<seq<Row>, DbError>, a: seq<Scope>, b: seq<Scope>)
    ensures FirstFailure(store, a + b) ==
            if FirstFailure(store, a).Some? then FirstFailure(store, a) else FirstFailure(store, b)
  {
    if a == [] {
      assert a + b == b;
    } else {
      assert (a + b)[1..] == a[1..] + b;
      FirstFailureAppend(store, a[1..], b);
    }
  }

  // ---------- The merge ----------

  function Entry(configs: map<string, Info>, key: string): Option<Info> {
    if key in configs then Some(configs[key]) else None
  }

  /** Writes every row over the map, as the default, role and user layers do. */
  method Overlay(configs: map<string, Info>, scope: Scope, rows: seq<Row>) returns (out: map<string, Info>)
    ensures forall key :: Entry(out, key) ==
                          if Find(rows, key).Some? then Some(InfoOf(scope, Find(rows, key).value)) else Entry(configs, key)
  {
    out := configs;
    for i := 0 to |rows|
      invariant forall key :: Entry(out, key) ==
                              if Find(rows[..i], key).Some? then Some(InfoOf(scope, Find(rows[..i], key).value)) else Entry(configs, key)
    {
      assert rows[..i + 1][..i] == rows[..i];
      out := out[rows[i].key := InfoOf(scope, rows[i])];
    }
    assert rows[..|rows|] == rows;
  }

  /** What the layer of one group makes of a key: it leaves alone what a user entry has already set. */
  function Overlaid(configs: map<string, Info>, group: string, rows: seq<Row>, key: string): Option<Info> {
    if Find(rows, key).Some? && !(key in configs && configs[key].source == FromUser)
    then Some(InfoOf(Group(group), Find(rows, key).value)) else Entry(configs, key)
  }

  method OverlayGroup(configs: map<string, Info>, group: string, rows: seq<Row>) returns (out: map<string, Info>)
    ensures forall key :: Entry(out, key) == Overlaid(configs, group, rows, key)
  {
    out := configs;
    for i := 0 to |rows|
      invariant forall key :: Entry(out, key) == Overlaid(configs, group, rows[..i], key)
    {
      out := OverlayRow(configs, group, rows, i, out);
    }
    assert rows[..|rows|] == rows;
  }

  /** One round of the loop. */
  method OverlayRow(configs: map<string, Info>, group: string, rows: seq<Row>, i: nat, out: map<string, Info>) returns (out': map<string, Info>)
    requires i < |rows| && forall key :: Entry(out, key) == Overlaid(configs, group, rows[..i], key)
    ensures forall key :: Entry(out', key) == Overlaid(configs, group, rows[..i + 1], key)
  {
    assert rows[..i + 1][..i] == rows[..i];
    var key := rows[i].key;
    assert Entry(out, key) == Overlaid(configs, group, rows[..i], key);
    out' := out;
    if key !in out || out[key].source != FromUser {
      out' := out[key := InfoOf(Group(group), rows[i])];
    }
    forall k ensures Entry(out', k) == Overlaid(configs, group, rows[..i + 1], k) {
      assert Entry(out, k) == Overlaid(configs, group, rows[..i], k);
      assert k != key ==> Find(rows[..i + 1], k) == Find(rows[..i], k) && Entry(out', k) == Entry(out, k);
      assert Find(rows[..i + 1], key) == Some(rows[i]);
    }
  }

  /** What the layers below the groups leave for a key. */
  function Below(store: Scope -> Result<seq<Row>, DbError>, role: string, key: string): Option<Info> {
    var ofRole := if role != "" then Held(store, Role(role), key) else None;
    if ofRole.Some? then ofRole else Held(store, Default, key)
  }

  method MergeBelow(store: Scope -> Result<seq<Row>, DbError>, role: string)
      returns (r: Result<map<string, Info>, DbError>)
    ensures var scopes := [Default] + if role != "" then [Role(role)] else [];
            match r
            case Err(e) => FirstFailure(store, scopes) == Some(e)
            case Ok(configs) => FirstFailure(store, scopes) == None && forall key :: Entry(configs, key) == Below(store, role, key)
  {
    var defaults := store(Default);
    if defaults.Err? {
      return Err(defaults.error);
    }
    var configs := Overlay(map[], Default, defaults.value);
    assert forall key :: Entry(configs, key) == Held(store, Default, key);
    if role != "" {
      var own := store(Role(role));
      if own.Err? {
        assert ([Default] + [Role(role)])[1..] == [Role(role)];
        return Err(own.error);
      }
      configs := Overlay(configs, Role(role), own.value);
    }
    return Ok(configs);
  }

  lemma GroupFailure(store: Scope -> Result<seq<Row>, DbError>, groups: seq<string>, i: nat)
    requires i < |groups| && FirstFailure(store, Groups(groups[..i])) == None
    ensures store(Group(groups[i])).Ok? ==> FirstFailure(store, Groups(groups[..i + 1])) == None
    ensures store(Group(groups[i])).Err? ==> FirstFailure(store, Groups(groups)) == Some(store(Group(groups[i])).error)
  {
    assert Groups(groups[..i + 1]) == Groups(groups[..i]) + [Group(groups[i])];
    FirstFailureAppend(store, Groups(groups[..i]), [Group(groups[i])]);
    assert Groups(groups) == Groups(groups[..i + 1]) + Groups(groups[i + 1..]);
    FirstFailureAppend(store, Groups(groups[..i + 1]), Groups(groups[i + 1..]));
  }

  /** What the groups make of a map in which no entry is a user's. */
  function Grouped(store: Scope -> Result<seq<Row>, DbError>, below: map<string, Info>, groups: seq<string>, key: string): Option<Info> {
    var group := LastGroup(store, groups, key);
    if group.Some? then group else Entry(below, key)
  }

  lemma GroupedStep(store: Scope -> Result<seq<Row>, DbError>, below: map<string, Info>, groups: seq<string>, i: nat, key: string)
    requires i < |groups|
    ensures var own := Held(store, Group(groups[i]), key);
            Grouped(store, below, groups[..i + 1], key) == if own.Some? then own else Grouped(store, below, groups[..i], key)
  {
    assert groups[..i + 1][..i] == groups[..i];
  }

  /** As no user entry is there yet, the guard of a group's layer never holds a row back. */
  method MergeGroup(store: Scope -> Result<seq<Row>, DbError>, configs: map<string, Info>, group: string, rows: seq<Row>)
      returns (next: map<string, Info>)
    requires store(Group(group)) == Ok(rows)
    requires forall key :: key in configs ==> configs[key].source != FromUser
    ensures forall key :: key in next ==> next[key].source != FromUser
    ensures forall key :: Entry(next, key) == if Held(store, Group(group), key).Some? then Held(store, Group(group), key) else Entry(configs, key)
  {
    next := OverlayGroup(configs, group, rows);
    forall key | key in next ensures next[key].source != FromUser {
      assert Entry(next, key) == Some(next[key]);
      assert key in configs ==> Entry(configs, key) == Some(configs[key]);
    }
  }

  method MergeGroups(store: Scope -> Result<seq<Row>, DbError>, below: map<string, Info>, groups: seq<string>)
      returns (r: Result<map<string, Info>, DbError>)
    requires forall key :: key in below ==> below[key].source != FromUser
    ensures match r
            case Err(e) => FirstFailure(store, Groups(groups)) == Some(e)
            case Ok(configs) =>
              FirstFailure(store, Groups(groups)) == None && forall key :: Entry(configs, key) == Grouped(store, below, groups, key)
  {
    var configs := below;
    for i := 0 to |groups|
      invariant FirstFailure(store, Groups(groups[..i])) == None
      invariant forall key :: key in configs ==> configs[key].source != FromUser
      invariant forall key :: Entry(configs, key) == Grouped(store, below, groups[..i], key)
    {
      GroupFailure(store, groups, i);
      var rows := store(Group(groups[i]));
      if rows.Err? {
        return Err(rows.error);
      }
      var next := MergeGroup(store, configs, groups[i], rows.value);
      forall key ensures Entry(next, key) == Grouped(store, below, groups[..i + 1], key) {
        GroupedStep(store, below, groups, i, key);
      }
      configs := next;
    }
    assert groups[..|groups|] == groups;
    return Ok(configs);
  }

  lemma ScopeFailures(store: Scope -> Result<seq<Row>, DbError>, user: string, role: string, groups: seq<string>)
    ensures var low := FirstFailure(store, [Default] + if role != "" then [Role(role)] else []);
            var middle := FirstFailure(store, Groups(groups));
            FirstFailure(store, Scopes(user, role, groups)) ==
            if low.Some? then low else if middle.Some? then middle
            else if store(User(user)).Err? then Some(store(User(user)).error) else None
  {
    var low := [Default] + if role != "" then [Role(role)] else [];
    FirstFailureAppend(store, low + Groups(groups), [User(user)]);
    FirstFailureAppend(store, low, Groups(groups));
  }

  /** The whole merge: the first failed query aborts it, otherwise it is the lookup for every key. */
  method ResolveEnvConfigsForTarget(store: Scope -> Result<seq<Row>, DbError>, user: string, role: string, groups: seq<string>)
      returns (r: Result<map<string, Info>, DbError>)
    ensures match r
            case Err(e) => FirstFailure(store, Scopes(user, role, groups)) == Some(e)
            case Ok(configs) =>
              && FirstFailure(store, Scopes(user, role, groups)) == None
              && forall key :: Entry(configs, key) == Lookup(store, user, role, groups, key)
  {
    ScopeFailures(store, user, role, groups);
    var below := MergeBelow(store, role);
    if below.Err? {
      return below;
    }
    forall key | key in below.value ensures below.value[key].source != FromUser {
      assert Entry(below.value, key) == Some(below.value[key]);
    }
    var grouped := MergeGroups(store, below.value, groups);
    if grouped.Err? {
      return grouped;
    }
    var own := store(User(user));
    if own.Err? {
      return Err(own.error);
    }
    var configs := Overlay(grouped.value, User(user), own.value);
    return Ok(configs);
  }

  // ---------- What the lookup means ----------

  ghost predicate Layer(store: Scope -> Result<seq<Row>, DbError>, scope: Scope, info: Info) {
    store(scope).Ok? && exists row :: row in store(scope).value && row.key == info.key && info == InfoOf(scope, row)
  }

  lemma {:induction false} LastGroupRule(store: Scope -> Result<seq<Row>, DbError>, groups: seq<string>, key: string, info: Info)
    ensures LastGroup(store, groups, key) == Some(info) <==>
            exists i :: 0 <= i < |groups| && Held(store, Group(groups[i]), key) == Some(info) &&
                        forall j :: i < j < |groups| ==> Held(store, Group(groups[j]), key).None?
    ensures LastGroup(store, groups, key).None? <==> forall i :: 0 <= i < |groups| ==> Held(store, Group(groups[i]), key).None?
  {
    if groups != [] {
      var n := |groups| - 1;
      LastGroupRule(store, groups[..n], key, info);
      if Held(store, Group(groups[n]), key).None? {
        assert forall i :: 0 <= i < n ==> groups[..n][i] == groups[i];
      }
    }
  }

  /** A merged entry names the layer it came from, and no layer above that one holds the key. */
  lemma LookupNamesItsLayer(store: Scope -> Result<seq<Row>, DbError>, user: string, role: string, groups: seq<string>, key: string)
    requires Lookup(store, user, role, groups, key).Some?
    ensures var info := Lookup(store, user, role, groups, key).value;
            && info.key == key
            && (info.source == FromUser <==> Held(store, User(user), key).Some?)
            && (info.source == FromUser ==> info.scopeValue == user && Layer(store, User(user), info))
            && (info.source == FromGroup ==> info.scopeValue in groups && Layer(store, Group(info.scopeValue), info))
            && (info.source == FromRole ==> info.scopeValue == role != "" && Layer(store, Role(role), info))
            && (info.source == FromDefault ==> info.scopeValue == "" && Layer(store, Default, info))
            && (info.source in {FromRole, FromDefault} ==> forall g :: g in groups ==> Held(store, Group(g), key).None?)
            && (info.source == FromDefault && role != "" ==> Held(store, Role(role), key).None?)
  {
    var info := Lookup(store, user, role, groups, key).value;
    LastGroupRule(store, groups, key, info);
  }

  /** The value and description of an entry are those of a row stored under its key in the scope that the entry names. */
  predicate FromRow(info: Info, row: Row) {
    info.key == row.key && info.value == row.value && info.description == (match row.description case Some(d) => d case None => "")
  }

  /**
   Which row an entry holds, for every key: the user's last row with the key, else that of the
   last listed group with one, else the role's, if there is a role, else the default's.
   */
  lemma LookupGivesTheRow(store: Scope -> Result<seq<Row>, DbError>, user: string, role: string, groups: seq<string>, key: string)
    requires Lookup(store, user, role, groups, key).Some?
    ensures var info := Lookup(store, user, role, groups, key).value;
      exists scope :: store(scope).Ok? && (exists k :: LastRow(store(scope).value, key, k) && FromRow(info, store(scope).value[k]))
        && (info.source == FromUser ==> scope == User(user)) && (info.source == FromGroup ==> scope == Group(info.scopeValue) && info.scopeValue in groups)
        && (info.source == FromRole ==> scope == Role(role)) && (info.source == FromDefault ==> scope == Default)
  {
    var info := Lookup(store, user, role, groups, key).value;
    LastGroupRule(store, groups, key, info);
    LookupNamesItsLayer(store, user, role, groups, key);
    var scope := match info.source
      case FromUser => User(user)
      case FromGroup => Group(info.scopeValue)
      case FromRole => Role(role)
      case FromDefault => Default;
    assert Held(store, scope, key) == Some(info);
    var k := FindsLastRow(store(scope).value, key);
  }

  /** A key is missing exactly when no scope that applies to the caller holds it. */
  lemma LookupMissesExactly(store: Scope -> Result<seq<Row>, DbError>, user: string, role: string, groups: seq<string>, key: string)
    ensures Lookup(store, user, role, groups, key).None? <==>
            && !Holds(store, User(user), key) && !Holds(store, Default, key) && (role != "" ==> !Holds(store, Role(role), key))
            && forall i :: 0 <= i < |groups| ==> !Holds(store, Group(groups[i]), key)
  {
    forall scope ensures Held(store, scope, key).Some? <==> Holds(store, scope, key) {
    }
    LastGroupRule(store, groups, key, Info("", "", FromDefault, "", ""));
  }

  predicate Holds(store: Scope -> Result<seq<Row>, DbError>, scope: Scope, key: string) {
    store(scope).Ok? && exists i :: 0 <= i < |store(scope).value| && store(scope).value[i].key == key
  }

  predicate LastRow(rows: seq<Row>, key: string, k: int) {
    0 <= k < |rows| && rows[k].key == key && forall j :: k < j < |rows| ==> rows[j].key != key
  }

  lemma {:induction false} FindsLastRow(rows: seq<Row>, key: string) returns (k: int)
    requires Find(rows, key).Some?
    ensures LastRow(rows, key, k) && Find(rows, key) == Some(rows[k])
    decreases |rows|
  {
    k := |rows| - 1;
    if rows[k].key != key {
      k := FindsLastRow(rows[..k], key);
    }
  }

  // ---------- Legacy tokens ----------

  datatype TokenInfo = TokenInfo(token: string, source: Source)

  type Answer = Result<TokenInfo, DbError>

  const MISSING: Answer := Err(NotFound)

  /** A stored token answers, a missing one defers to the next candidate, a failed query answers with its error. */
  function Candidate(found: Result<string, DbError>, source: Source): Answer {
    match found
    case Ok(token) => Ok(TokenInfo(token, source))
    case Err(e) => Err(e)
  }

  function FirstAnswer(candidates: seq<Answer>): Answer {
    if candidates == [] then MISSING
    else if candidates[0] != MISSING then candidates[0]
    else FirstAnswer(candidates[1..])
  }

  lemma {:induction false} FirstAnswerRule(candidates: seq<Answer>, answer: Answer)
    requires answer != MISSING
    ensures FirstAnswer(candidates) == answer <==>
            exists i :: 0 <= i < |candidates| && candidates[i] == answer && forall j :: 0 <= j < i ==> candidates[j] == MISSING
  {
    if candidates != [] && candidates[0] == MISSING {
      var rest := candidates[1..];
      FirstAnswerRule(rest, answer);
      if FirstAnswer(rest) == answer {
        var i :| 0 <= i < |rest| && rest[i] == answer && forall j :: 0 <= j < i ==> rest[j] == MISSING;
        assert candidates[i + 1] == answer;
        assert forall j :: 0 < j < i + 1 ==> candidates[j] == rest[j - 1];
      }
      if i :| 0 <= i < |candidates| && candidates[i] == answer && forall j :: 0 <= j < i ==> candidates[j] == MISSING {
        assert rest[i - 1] == answer;
        assert forall j :: 0 <= j < i - 1 ==> rest[j] == candidates[j + 1];
      }
    }
  }

  lemma {:induction false} FirstAnswerAppend(a: seq<Answer>, b: seq<Answer>)
    ensures FirstAnswer(a + b) == if FirstAnswer(a) != MISSING then FirstAnswer(a) else FirstAnswer(b)
  {
    if a == [] {
      assert a + b == b;
    } else {
      assert (a + b)[1..] == a[1..] + b;
      FirstAnswerAppend(a[1..], b);
    }
  }

  function GroupAnswers(tokens: Scope -> Result<string, DbError>, groups: seq<string>): (r: seq<Answer>)
    ensures |r| == |groups| && forall i :: 0 <= i < |r| ==> r[i] == Candidate(tokens(Group(groups[i])), FromGroup)
  {
    seq(|groups|, i requires 0 <= i < |groups| => Candidate(tokens(Group(groups[i])), FromGroup))
  }

  function RoleAnswers(tokens: Scope -> Result<string, DbError>, role: string): seq<Answer> {
    if role != "" then [Candidate(tokens(Role(role)), FromRole)] else []
  }

  /** The default token: a missing target is an error, a missing or empty token is no answer. */
  function DefaultAnswer(target: Result<Option<string>, DbError>): Answer {
    match target
    case Err(e) => Err(e)
    case Ok(token) => if token.Some? && token.value != "" then Ok(TokenInfo(token.value, FromDefault)) else MISSING
  }

  function CodeOrder(tokens: Scope -> Result<string, DbError>, target: Result<Option<string>, DbError>,
                     user: string, role: string, groups: seq<string>): seq<Answer>
  {
    [Candidate(tokens(User(user)), FromUser)] + RoleAnswers(tokens, role) + GroupAnswers(tokens, groups) + [DefaultAnswer(target)]
  }

  /** The order the user documentation gives: groups before the role. */
  function DocumentedOrder(tokens: Scope -> Result<string, DbError>, target: Result<Option<string>, DbError>,
                           user: string, role: string, groups: seq<string>): seq<Answer>
  {
    [Candidate(tokens(User(user)), FromUser)] + GroupAnswers(tokens, groups) + RoleAnswers(tokens, role) + [DefaultAnswer(target)]
  }

  method FirstGroupToken(tokens: Scope -> Result<string, DbError>, groups: seq<string>) returns (r: Answer)
    ensures r == FirstAnswer(GroupAnswers(tokens, groups))
  {
    for i := 0 to |groups|
      invariant FirstAnswer(GroupAnswers(tokens, groups)) == FirstAnswer(GroupAnswers(tokens, groups)[i..])
    {
      var found := tokens(Group(groups[i]));
      assert GroupAnswers(tokens, groups)[i..][1..] == GroupAnswers(tokens, groups)[i + 1..];
      if found.Ok? {
        return Ok(TokenInfo(found.value, FromGroup));
      }
      if found.error != NotFound {
        return Err(found.error);
      }
    }
    return MISSING;
  }

  method ResolveTokenForTarget(tokens: Scope -> Result<string, DbError>, target: Result<Option<string>, DbError>,
                               user: string, role: string, groups: seq<string>)
      returns (r: Answer)
    ensures r == FirstAnswer(CodeOrder(tokens, target, user, role, groups))
  {
    TokenParts(tokens, target, user, role, groups);
    var own := tokens(User(user));
    if own.Ok? {
      return Ok(TokenInfo(own.value, FromUser));
    }
    if own.error != NotFound {
      return Err(own.error);
    }
    if role != "" {
      var ofRole := tokens(Role(role));
      if ofRole.Ok? {
        return Ok(TokenInfo(ofRole.value, FromRole));
      }
      if ofRole.error != NotFound {
        return Err(ofRole.error);
      }
    }
    var group := FirstGroupToken(tokens, groups);
    if group != MISSING {
      return group;
    }
    if target.Err? {
      return Err(target.error);
    }
    if target.value.Some? && target.value.value != "" {
      return Ok(TokenInfo(target.value.value, FromDefault));
    }
    return MISSING;
  }

  lemma TokenParts(tokens: Scope -> Result<string, DbError>, target: Result<Option<string>, DbError>,
                   user: string, role: string, groups: seq<string>)
    ensures var own := Candidate(tokens(User(user)), FromUser);
            var ofRole := FirstAnswer(RoleAnswers(tokens, role));
            var group := FirstAnswer(GroupAnswers(tokens, groups));
            && FirstAnswer(CodeOrder(tokens, target, user, role, groups)) ==
               (if own != MISSING then own else if ofRole != MISSING then ofRole
                else if group != MISSING then group else DefaultAnswer(target))
            && FirstAnswer(DocumentedOrder(tokens, target, user, role, groups)) ==
               (if own != MISSING then own else if group != MISSING then group
                else if ofRole != MISSING then ofRole else DefaultAnswer(target))
  {
    var a := [Candidate(tokens(User(user)), FromUser)];
    var b := RoleAnswers(tokens, role);
    var c := GroupAnswers(tokens, groups);
    var d := [DefaultAnswer(target)];
    FirstAnswerAppend(a + b + c, d);
    FirstAnswerAppend(a + b, c);
    FirstAnswerAppend(a, b);
    FirstAnswerAppend(a + c + b, d);
    FirstAnswerAppend(a + c, b);
    FirstAnswerAppend(a, c);
  }

  /** The default token answers exactly when nothing before it does, the target exists and its token is not empty. */
  lemma DefaultAnswersExactly(tokens: Scope -> Result<string, DbError>, target: Result<Option<string>, DbError>,
                              user: string, role: string, groups: seq<string>, token: string)
    ensures FirstAnswer(CodeOrder(tokens, target, user, role, groups)) == Ok(TokenInfo(token, FromDefault)) <==>
            && tokens(User(user)) == Err(NotFound)
            && (role == "" || tokens(Role(role)) == Err(NotFound))
            && (forall i :: 0 <= i < |groups| ==> tokens(Group(groups[i])) == Err(NotFound))
            && target == Ok(Some(token)) && token != ""
  {
    var c := GroupAnswers(tokens, groups);
    TokenParts(tokens, target, user, role, groups);
    AllMissing(c);
    forall i | 0 <= i < |groups| ensures c[i] == MISSING <==> tokens(Group(groups[i])) == Err(NotFound) {
    }
    if FirstAnswer(c) != MISSING {
      FirstAnswerRule(c, FirstAnswer(c));
    }
  }

  predicate FirstGroupWithToken(tokens: Scope -> Result<string, DbError>, groups: seq<string>, i: int) {
    && 0 <= i < |groups| && tokens(Group(groups[i])).Ok?
    && forall j :: 0 <= j < i ==> tokens(Group(groups[j])) == Err(NotFound)
  }

  /** The answers of the layers before it: the user's token first, then the role's, then the first group's that has one. */
  lemma TokensInOrder(tokens: Scope -> Result<string, DbError>, target: Result<Option<string>, DbError>,
                      user: string, role: string, groups: seq<string>)
    ensures var answer := FirstAnswer(CodeOrder(tokens, target, user, role, groups));
      && (tokens(User(user)).Ok? ==> answer == Ok(TokenInfo(tokens(User(user)).value, FromUser)))
      && (tokens(User(user)) == Err(NotFound) && role != "" && tokens(Role(role)).Ok? ==>
            answer == Ok(TokenInfo(tokens(Role(role)).value, FromRole)))
      && (tokens(User(user)) == Err(NotFound) && (role == "" || tokens(Role(role)) == Err(NotFound)) ==>
            forall i :: FirstGroupWithToken(tokens, groups, i) ==> answer == Ok(TokenInfo(tokens(Group(groups[i])).value, FromGroup)))
      && (tokens(User(user)).Err? && tokens(User(user)) != Err(NotFound) ==> answer == Err(tokens(User(user)).error))
  {
    TokenParts(tokens, target, user, role, groups);
    var c := GroupAnswers(tokens, groups);
    forall i | FirstGroupWithToken(tokens, groups, i)
      ensures FirstAnswer(c) == Ok(TokenInfo(tokens(Group(groups[i])).value, FromGroup))
    {
      FirstAnswerRule(c, c[i]);
    }
  }

  /**
   The documented order holds exactly when the user's lookup decides, or the role has no token,
   or no group has one, or the role's query and the first deciding group's fail with the same error.
   */
  lemma DocumentedOrderExact(tokens: Scope -> Result<string, DbError>, target: Result<Option<string>, DbError>,
                             user: string, role: string, groups: seq<string>)
    ensures FirstAnswer(CodeOrder(tokens, target, user, role, groups)) == FirstAnswer(DocumentedOrder(tokens, target, user, role, groups)) <==>
            || tokens(User(user)) != Err(NotFound)
            || role == ""
            || tokens(Role(role)) == Err(NotFound)
            || (forall i :: 0 <= i < |groups| ==> tokens(Group(groups[i])) == Err(NotFound))
            || (tokens(Role(role)).Err? && FirstAnswer(GroupAnswers(tokens, groups)) == Err(tokens(Role(role)).error))
  {
    TokenParts(tokens, target, user, role, groups);
    var c := GroupAnswers(tokens, groups);
    var group := FirstAnswer(c);
    forall i | 0 <= i < |groups| ensures c[i] == MISSING <==> tokens(Group(groups[i])) == Err(NotFound) {
    }
    AllMissing(c);
    if group != MISSING {
      FirstAnswerRule(c, group);
    }
  }

  lemma {:induction false} AllMissing(candidates: seq<Answer>)
    ensures FirstAnswer(candidates) == MISSING <==> forall i :: 0 <= i < |candidates| ==> candidates[i] == MISSING
  {
    if candidates != [] {
      AllMissing(candidates[1..]);
      assert forall i :: 0 < i < |candidates| ==> candidates[i] == candidates[1..][i - 1];
    }
  }
}
