/**
 Initialising a session: one goroutine per target authorises, connects and handshakes, then
 stores its client, stores its target's ID and merges its capabilities, each under a lock of
 its own. Any interleaving of these critical sections ends in the same session.
 */
module Initialization {
  import opened Wrappers
  import opened GatewaySession
  import opened Iteration

  /** How far a target gets. */
  datatype Attempt = CheckFailed | Refused | ClientFailed | HandshakeFailed | Ready(client: Client, caps: Capabilities)

  datatype Target = Target(id: TargetId, attempt: Attempt)

  /** The critical sections. */
  datatype Action = StoreClient(target: string) | StoreTargetId(target: string) | MergeCaps(target: string) | ReportError(target: string)

  predicate Fails(a: Attempt) {
    a.CheckFailed? || a.ClientFailed? || a.HandshakeFailed?
  }

  predicate Performs(targets: map<string, Target>, a: Action) {
    && a.target in targets
    && if a.ReportError? then Fails(targets[a.target].attempt) else targets[a.target].attempt.Ready?
  }

  ghost predicate IsSchedule(targets: map<string, Target>, schedule: seq<Action>) {
    Distinct(schedule) && forall a :: a in schedule <==> Performs(targets, a)
  }

  datatype Progress = Progress(
    clients: map<string, Client>, targetIds: map<string, TargetId>, ready: nat, errors: seq<string>, caps: Capabilities)

  function Started(tables: Tables): Progress {
    Progress(tables.clients, tables.targetIds, 0, [], NO_CAPABILITIES)
  }

  // ---------- Capabilities ----------

  function Merge(agg: Capabilities, caps: Capabilities): Capabilities {
    Capabilities(
      if caps.tools.Some? then Some((agg.tools.Some? && agg.tools.value) || caps.tools.value) else agg.tools,
      if caps.resources.Some? then
        Some(ResourcesCapability(
          (agg.resources.Some? && agg.resources.value.subscribe) || caps.resources.value.subscribe,
          (agg.resources.Some? && agg.resources.value.listChanged) || caps.resources.value.listChanged))
      else agg.resources,
      if caps.prompts.Some? then Some((agg.prompts.Some? && agg.prompts.value) || caps.prompts.value) else agg.prompts,
      agg.logging || caps.logging)
  }

  datatype Flag = HasTools | ToolsChange | HasResources | Subscribe | ResourcesChange | HasPrompts | PromptsChange | HasLogging

  /** A capability as the list of what it offers. */
  predicate Offers(c: Capabilities, f: Flag) {
    match f
    case HasTools => c.tools.Some?
    case ToolsChange => c.tools.Some? && c.tools.value
    case HasResources => c.resources.Some?
    case Subscribe => c.resources.Some? && c.resources.value.subscribe
    case ResourcesChange => c.resources.Some? && c.resources.value.listChanged
    case HasPrompts => c.prompts.Some?
    case PromptsChange => c.prompts.Some? && c.prompts.value
    case HasLogging => c.logging
  }

  lemma MergeOffers(agg: Capabilities, caps: Capabilities)
    ensures forall f :: Offers(Merge(agg, caps), f) <==> Offers(agg, f) || Offers(caps, f)
  {
    forall f ensures Offers(Merge(agg, caps), f) <==> Offers(agg, f) || Offers(caps, f) {
      match f {
        case HasTools =>
        case ToolsChange =>
        case HasResources =>
        case Subscribe =>
        case ResourcesChange =>
        case HasPrompts =>
        case PromptsChange =>
        case HasLogging =>
      }
    }
  }

  lemma OffersDetermine(a: Capabilities, b: Capabilities)
    requires forall f :: Offers(a, f) <==> Offers(b, f)
    ensures a == b
  {
    assert Offers(a, HasTools) <==> Offers(b, HasTools);
    assert Offers(a, ToolsChange) <==> Offers(b, ToolsChange);
    assert a.tools == b.tools;
    assert Offers(a, HasPrompts) <==> Offers(b, HasPrompts);
    assert Offers(a, PromptsChange) <==> Offers(b, PromptsChange);
    assert a.prompts == b.prompts;
    assert Offers(a, HasResources) <==> Offers(b, HasResources);
    assert Offers(a, Subscribe) <==> Offers(b, Subscribe);
    assert Offers(a, ResourcesChange) <==> Offers(b, ResourcesChange);
    assert a.resources == b.resources;
    assert Offers(a, HasLogging) <==> Offers(b, HasLogging);
  }

  // ---------- One schedule ----------

  function Do(p: Progress, targets: map<string, Target>, a: Action): Progress
    requires Performs(targets, a)
  {
    var target := targets[a.target];
    match a
    case StoreClient(t) => p.(clients := p.clients[t := target.attempt.client])
    case StoreTargetId(t) => p.(targetIds := p.targetIds[t := target.id])
    case MergeCaps(t) => p.(ready := p.ready + 1, caps := Merge(p.caps, target.attempt.caps))
    case ReportError(t) => p.(errors := p.errors + [t])
  }

  function DoAll(p: Progress, targets: map<string, Target>, schedule: seq<Action>): Progress
    requires forall a :: a in schedule ==> Performs(targets, a)
    decreases |schedule|
  {
    if schedule == [] then p else DoAll(Do(p, targets, schedule[0]), targets, schedule[1..])
  }

  datatype Reply = QueryFailed | NoServers | NoneAuthorized | AllFailed(errors: seq<string>) | Initialized(caps: Capabilities)

  function ReplyOf(targets: map<string, Target>, p: Progress): Reply {
    if targets == map[] then NoServers
    else if p.ready == 0 then (if p.errors != [] then AllFailed(p.errors) else NoneAuthorized)
    else Initialized(p.caps)
  }

  function Finish(tables: Tables, targets: map<string, Target>, p: Progress): Tables {
    var t := tables.(clients := p.clients, targetIds := p.targetIds);
    if ReplyOf(targets, p).Initialized? then t.(initialized := true, capabilities := Some(p.caps)) else t
  }

  /** `queried` holds the enabled targets, or nothing when the query for them fails. */
  method InitializeSession(session: Session, queried: Option<map<string, Target>>, schedule: seq<Action>) returns (reply: Reply)
    requires queried.Some? ==> IsSchedule(queried.value, schedule)
    modifies session`tables
    ensures queried.None? ==> reply == QueryFailed && session.tables == old(session.tables)
    ensures queried.Some? ==>
      var p := DoAll(Started(old(session.tables)), queried.value, schedule);
      reply == ReplyOf(queried.value, p) && session.tables == Finish(old(session.tables), queried.value, p)
  {
    if queried.None? {
      return QueryFailed;
    }
    var targets := queried.value;
    if |targets| == 0 {
      EmptySchedule(targets, schedule);
      return NoServers;
    }
    assert targets != map[];
    var ready, errors, caps := RunSchedule(session, targets, schedule);
    if ready == 0 {
      return if errors != [] then AllFailed(errors) else NoneAuthorized;
    }
    session.tables := session.tables.(initialized := true, capabilities := Some(caps));
    return Initialized(caps);
  }

  lemma EmptySchedule(targets: map<string, Target>, schedule: seq<Action>)
    requires IsSchedule(targets, schedule)
    ensures targets == map[] ==> schedule == []
  {
    if schedule != [] {
      assert schedule[0] in schedule;
    }
  }

  /** The goroutines' critical sections in the order in which they happen. */
  method RunSchedule(session: Session, targets: map<string, Target>, schedule: seq<Action>)
    returns (ready: nat, errors: seq<string>, caps: Capabilities)
    requires forall a :: a in schedule ==> Performs(targets, a)
    modifies session`tables
    ensures var p := DoAll(Started(old(session.tables)), targets, schedule);
      Progress(session.tables.clients, session.tables.targetIds, ready, errors, caps) == p
    ensures session.tables == old(session.tables).(clients := session.tables.clients, targetIds := session.tables.targetIds)
  {
    ready, errors, caps := 0, [], NO_CAPABILITIES;
    for i := 0 to |schedule|
      invariant session.tables == old(session.tables).(clients := session.tables.clients, targetIds := session.tables.targetIds)
      invariant DoAll(Progress(session.tables.clients, session.tables.targetIds, ready, errors, caps), targets, schedule[i..])
        == DoAll(Started(old(session.tables)), targets, schedule)
    {
      assert schedule[i..][0] == schedule[i] && schedule[i..][1..] == schedule[i + 1..];
      assert schedule[i] in schedule;
      var target := targets[schedule[i].target];
      match schedule[i] {
        case StoreClient(t) =>
          session.tables := session.tables.(clients := session.tables.clients[t := target.attempt.client]);
        case StoreTargetId(t) =>
          session.tables := session.tables.(targetIds := session.tables.targetIds[t := target.id]);
        case MergeCaps(t) =>
          ready := ready + 1;
          caps := Merge(caps, target.attempt.caps);
        case ReportError(t) =>
          errors := errors + [t];
      }
    }
    assert schedule[|schedule|..] == [];
  }

  // ---------- What every schedule gives ----------

  /** The targets whose action of this kind is among those done. */
  ghost function Merged(targets: map<string, Target>, done: set<Action>): set<string> {
    set t | t in targets && MergeCaps(t) in done
  }

  ghost function Failed(targets: map<string, Target>, done: set<Action>): set<string> {
    set t | t in targets && ReportError(t) in done
  }

  predicate TargetOffers(targets: map<string, Target>, t: string, f: Flag) {
    t in targets && targets[t].attempt.Ready? && Offers(targets[t].attempt.caps, f)
  }

  ghost function ClientsOf(targets: map<string, Target>, done: set<Action>): map<string, Client> {
    map t | t in targets && targets[t].attempt.Ready? && StoreClient(t) in done :: targets[t].attempt.client
  }

  ghost function IdsOf(targets: map<string, Target>, done: set<Action>): map<string, TargetId> {
    map t | t in targets && StoreTargetId(t) in done :: targets[t].id
  }

  ghost predicate CapsAmount(caps: Capabilities, targets: map<string, Target>, done: set<Action>) {
    forall f :: Offers(caps, f) <==> exists t :: t in Merged(targets, done) && TargetOffers(targets, t, f)
  }

  /** The progress is what the actions done so far amount to, in no particular order. */
  ghost predicate Amounts(p: Progress, start: Tables, targets: map<string, Target>, done: set<Action>) {
    && p.clients == start.clients + ClientsOf(targets, done)
    && p.targetIds == start.targetIds + IdsOf(targets, done)
    && p.ready == |Merged(targets, done)|
    && CapsAmount(p.caps, targets, done)
    && multiset(p.errors) == multiset(Failed(targets, done))
  }

  lemma DoAmounts(p: Progress, start: Tables, targets: map<string, Target>, done: set<Action>, a: Action)
    requires Amounts(p, start, targets, done) && a !in done && Performs(targets, a)
    ensures Amounts(Do(p, targets, a), start, targets, done + {a})
  {
    ClientsStep(targets, done, a);
    IdsStep(targets, done, a);
    SetsStep(targets, done, a);
    if a.StoreClient? {
      AddUnder(start.clients, ClientsOf(targets, done), a.target, targets[a.target].attempt.client);
    }
    if a.StoreTargetId? {
      AddUnder(start.targetIds, IdsOf(targets, done), a.target, targets[a.target].id);
    }
    if a.MergeCaps? {
      MergeAmounts(p.caps, targets, done, a.target);
    } else {
      assert CapsAmount(p.caps, targets, done + {a});
    }
  }

  lemma AddUnder<V>(start: map<string, V>, added: map<string, V>, k: string, v: V)
    ensures (start + added)[k := v] == start + added[k := v]
  {
  }

  lemma ClientsStep(targets: map<string, Target>, done: set<Action>, a: Action)
    requires Performs(targets, a)
    ensures ClientsOf(targets, done + {a})
      == if a.StoreClient? then ClientsOf(targets, done)[a.target := targets[a.target].attempt.client] else ClientsOf(targets, done)
  {
  }

  lemma IdsStep(targets: map<string, Target>, done: set<Action>, a: Action)
    requires Performs(targets, a)
    ensures IdsOf(targets, done + {a})
      == if a.StoreTargetId? then IdsOf(targets, done)[a.target := targets[a.target].id] else IdsOf(targets, done)
  {
  }

  lemma SetsStep(targets: map<string, Target>, done: set<Action>, a: Action)
    requires Performs(targets, a)
    ensures Merged(targets, done + {a}) == if a.MergeCaps? then Merged(targets, done) + {a.target} else Merged(targets, done)
    ensures Failed(targets, done + {a}) == if a.ReportError? then Failed(targets, done) + {a.target} else Failed(targets, done)
    ensures a !in done ==> (a.MergeCaps? ==> a.target !in Merged(targets, done)) && (a.ReportError? ==> a.target !in Failed(targets, done))
  {
  }

  lemma MergeAmounts(caps: Capabilities, targets: map<string, Target>, done: set<Action>, t: string)
    requires t in targets && targets[t].attempt.Ready? && CapsAmount(caps, targets, done)
    ensures CapsAmount(Merge(caps, targets[t].attempt.caps), targets, done + {MergeCaps(t)})
  {
    var done', caps' := done + {MergeCaps(t)}, Merge(caps, targets[t].attempt.caps);
    SetsStep(targets, done, MergeCaps(t));
    MergeOffers(caps, targets[t].attempt.caps);
    forall f ensures Offers(caps', f) <==> exists u :: u in Merged(targets, done') && TargetOffers(targets, u, f) {
      assert TargetOffers(targets, t, f) <==> Offers(targets[t].attempt.caps, f);
    }
  }

  lemma {:induction false} DoAllAmounts(p: Progress, start: Tables, targets: map<string, Target>, done: set<Action>, schedule: seq<Action>)
    requires Amounts(p, start, targets, done)
    requires Distinct(schedule) && forall a :: a in schedule ==> Performs(targets, a) && a !in done
    ensures Amounts(DoAll(p, targets, schedule), start, targets, done + set a | a in schedule)
    decreases |schedule|
  {
    if schedule == [] {
      assert done + (set a | a in schedule) == done;
    } else {
      var a, rest := schedule[0], schedule[1..];
      DoAmounts(p, start, targets, done, a);
      DoAllAmounts(Do(p, targets, a), start, targets, done + {a}, rest);
      assert done + (set a | a in schedule) == done + {a} + set a | a in rest;
    }
  }

  ghost function ReadyTargets(targets: map<string, Target>): set<string> {
    set t | t in targets && targets[t].attempt.Ready?
  }

  ghost function FailedTargets(targets: map<string, Target>): set<string> {
    set t | t in targets && Fails(targets[t].attempt)
  }

  ghost function ReadyClients(targets: map<string, Target>): map<string, Client> {
    map t | t in targets && targets[t].attempt.Ready? :: targets[t].attempt.client
  }

  ghost function ReadyIds(targets: map<string, Target>): map<string, TargetId> {
    map t | t in targets && targets[t].attempt.Ready? :: targets[t].id
  }

  lemma AllDone(targets: map<string, Target>, done: set<Action>)
    requires forall a :: a in done <==> Performs(targets, a)
    ensures ClientsOf(targets, done) == ReadyClients(targets) && IdsOf(targets, done) == ReadyIds(targets)
    ensures Merged(targets, done) == ReadyTargets(targets) && Failed(targets, done) == FailedTargets(targets)
  {
  }

  /**
   After any schedule: exactly the targets that got ready are connected and counted, each
   failed target is reported once, and each capability flag is the OR over the ready targets.
   */
  lemma AfterSchedule(tables: Tables, targets: map<string, Target>, schedule: seq<Action>)
    requires IsSchedule(targets, schedule)
    ensures var p := DoAll(Started(tables), targets, schedule);
      && p.clients == tables.clients + ReadyClients(targets)
      && p.targetIds == tables.targetIds + ReadyIds(targets)
      && p.ready == |ReadyTargets(targets)|
      && multiset(p.errors) == multiset(FailedTargets(targets))
      && forall f :: Offers(p.caps, f) <==> exists t :: TargetOffers(targets, t, f)
  {
    var done := set a | a in schedule;
    AmountsNothing(tables, targets);
    DoAllAmounts(Started(tables), tables, targets, {}, schedule);
    assert {} + done == done;
    AllDone(targets, done);
    forall t, f ensures TargetOffers(targets, t, f) <==> t in Merged(targets, done) && TargetOffers(targets, t, f) {
    }
  }

  lemma AmountsNothing(tables: Tables, targets: map<string, Target>)
    ensures Amounts(Started(tables), tables, targets, {})
  {
    forall f ensures !Offers(NO_CAPABILITIES, f) {
      match f {
        case HasTools =>
        case ToolsChange =>
        case HasResources =>
        case Subscribe =>
        case ResourcesChange =>
        case HasPrompts =>
        case PromptsChange =>
        case HasLogging =>
      }
    }
    assert Merged(targets, {}) == {} && Failed(targets, {}) == {};
    assert ClientsOf(targets, {}) == map[] && IdsOf(targets, {}) == map[];
  }

  /** Confluence: two schedules leave equal sessions, and equal replies up to the order of error messages. */
  lemma SchedulesAgree(tables: Tables, targets: map<string, Target>, a: seq<Action>, b: seq<Action>)
    requires IsSchedule(targets, a) && IsSchedule(targets, b)
    ensures var p, q := DoAll(Started(tables), targets, a), DoAll(Started(tables), targets, b);
      && Finish(tables, targets, p) == Finish(tables, targets, q)
      && (ReplyOf(targets, p) == ReplyOf(targets, q)
          || (ReplyOf(targets, p).AllFailed? && ReplyOf(targets, q).AllFailed?
              && multiset(ReplyOf(targets, p).errors) == multiset(ReplyOf(targets, q).errors)))
  {
    AfterSchedule(tables, targets, a);
    AfterSchedule(tables, targets, b);
    var p, q := DoAll(Started(tables), targets, a), DoAll(Started(tables), targets, b);
    OffersDetermine(p.caps, q.caps);
    assert |multiset(p.errors)| == |p.errors| && |multiset(q.errors)| == |q.errors|;
  }

  /** The target failed: neither refused nor ready. */
  predicate Failing(a: Attempt) {
    a in {CheckFailed, ClientFailed, HandshakeFailed}
  }

  lemma SomeReady(targets: map<string, Target>)
    ensures |ReadyTargets(targets)| == 0 <==> forall t :: t in targets ==> !targets[t].attempt.Ready?
  {
    if t :| t in targets && targets[t].attempt.Ready? {
      assert t in ReadyTargets(targets);
    }
    if ReadyTargets(targets) != {} {
      var t :| t in ReadyTargets(targets);
      assert targets[t].attempt.Ready?;
    }
  }

  lemma SomeFailed(targets: map<string, Target>, errors: seq<string>)
    requires multiset(errors) == multiset(FailedTargets(targets))
    ensures errors == [] <==> forall t :: t in targets ==> !Failing(targets[t].attempt)
  {
    assert |multiset(errors)| == |errors| && |multiset(FailedTargets(targets))| == |FailedTargets(targets)|;
    if t :| t in targets && Failing(targets[t].attempt) {
      assert t in FailedTargets(targets);
    }
    if FailedTargets(targets) != {} {
      var t :| t in FailedTargets(targets);
      assert Failing(targets[t].attempt);
    }
  }

  lemma ErrorsNameFailed(targets: map<string, Target>, errors: seq<string>)
    requires multiset(errors) == multiset(FailedTargets(targets))
    ensures forall t :: t in errors <==> t in targets && Failing(targets[t].attempt)
  {
    assert forall t :: t in errors <==> t in multiset(errors);
    assert forall t :: t in multiset(FailedTargets(targets)) <==> t in FailedTargets(targets);
  }

  lemma RepliesByCounts(targets: map<string, Target>, p: Progress)
    requires p.ready == |ReadyTargets(targets)| && multiset(p.errors) == multiset(FailedTargets(targets))
    ensures var reply := ReplyOf(targets, p);
      && reply != QueryFailed
      && (reply == NoServers <==> targets == map[])
      && (reply.Initialized? <==> exists t :: t in targets && targets[t].attempt.Ready?)
      && (reply.AllFailed? <==> (forall t :: t in targets ==> !targets[t].attempt.Ready?) && exists t :: t in targets && Failing(targets[t].attempt))
      && (reply == NoneAuthorized <==> targets != map[] && forall t :: t in targets ==> targets[t].attempt == Refused)
  {
    SomeReady(targets);
    SomeFailed(targets, p.errors);
  }

  /**
   Which reply comes when, for every interleaving: one ready target suffices to initialise the
   session, a failure is reported only when none is ready, and if all refuse nobody failed.
   */
  lemma RepliesExactly(tables: Tables, targets: map<string, Target>, schedule: seq<Action>)
    requires IsSchedule(targets, schedule)
    ensures var p := DoAll(Started(tables), targets, schedule); var reply := ReplyOf(targets, p);
      && reply != QueryFailed
      && (reply == NoServers <==> targets == map[])
      && (reply.Initialized? <==> exists t :: t in targets && targets[t].attempt.Ready?)
      && (reply.AllFailed? <==> (forall t :: t in targets ==> !targets[t].attempt.Ready?) && exists t :: t in targets && Failing(targets[t].attempt))
      && (reply == NoneAuthorized <==> targets != map[] && forall t :: t in targets ==> targets[t].attempt == Refused)
      && (reply.AllFailed? ==> forall t :: t in reply.errors <==> t in targets && Failing(targets[t].attempt))
  {
    var p := DoAll(Started(tables), targets, schedule);
    AfterSchedule(tables, targets, schedule);
    RepliesByCounts(targets, p);
    ErrorsNameFailed(targets, p.errors);
  }

  /** What the session is left with: initialised with the merged capabilities when that is the reply, untouched in both otherwise. */
  lemma InitializedExactly(tables: Tables, targets: map<string, Target>, p: Progress)
    ensures var reply := ReplyOf(targets, p); var after := Finish(tables, targets, p);
      && (reply.Initialized? ==> after.initialized && after.capabilities == Some(reply.caps) && reply.caps == p.caps)
      && (!reply.Initialized? ==> after.initialized == tables.initialized && after.capabilities == tables.capabilities)
      && after.clients == p.clients && after.targetIds == p.targetIds
      && after.toolMap == tables.toolMap && after.resourceMap == tables.resourceMap && after.promptMap == tables.promptMap
  {
  }
}
