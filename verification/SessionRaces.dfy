/**
 Sessions below the level of whole requests. A look-up that misses reads the row in one step
 and stores and returns its copy in a later one, a deletion clears memory and then the row, and
 a request looks its session up, checks its identity and is routed in three steps, all on the
 object that it was given at first, even when that has left the table.
 */
module SessionRaces {
  import opened Wrappers
  import opened GatewaySession
  import opened SessionManagement

  /** A copy of a row on its way into memory, for the request that asked for it. */
  datatype Load = Load(id: string, view: View, token: Token)

  /**
   A request that holds a session object: the how-manieth object under its id that is, the
   identity it has now, and whether the request has passed the check.
   */
  datatype Held = Held(id: string, gen: nat, token: Token, identity: Identity, checked: bool)

  /** `gens` counts the objects under an id that have left the table. */
  datatype World = World(base: State, loads: map<nat, Load>, held: map<nat, Held>, gens: map<string, nat>)

  datatype Step =
    | Whole(e: Event)
    | ReadRow(req: nat, id: string, token: Token, fate: Fate)
    | Keep(req: nat)
    | Forget(id: string)
    | EraseRow(id: string)
    | Fetch(req: nat, id: string, token: Token, fate: Fate)
    | Check(req: nat)
    | Route(req: nat)
    | Drop(req: nat)

  function Found(s: State, id: string, fate: Fate, timeout: nat): Result<View, Error> {
    Get(s.store, s.users, timeout, s.clock, id, fate).1
  }

  predicate Possible(w: World, e: Step, timeout: nat) {
    var s := w.base;
    match e
    case Whole(event) => Enabled(s, event)
    case ReadRow(req, id, _, fate) =>
      && req !in w.loads && req !in w.held
      && id !in s.store.mem && fate.read && id in s.store.rows && s.clock <= s.store.rows[id].expiresAt
    case Keep(req) => req in w.loads
    case Forget(_) => true
    case EraseRow(_) => true
    case Fetch(req, id, token, fate) =>
      && req !in w.loads && req !in w.held
      && Found(s, id, fate, timeout).Ok? && Found(s, id, fate, timeout).value.userId == token.userId
    case Check(req) => req in w.held && !w.held[req].checked
    case Route(req) => req in w.held && w.held[req].checked
    case Drop(req) => req in w.held
  }

  predicate Passes(own: Identity, token: Token) {
    !NeedsRecycle(own.role, own.groups, token.role, token.groups)
  }

  function IdentityOf(v: View): Identity {
    Identity(v.role, v.groups)
  }

  function Gen(gens: map<string, nat>, id: string): nat {
    if id in gens then gens[id] else 0
  }

  /** The object that the request holds is still the one in the table. */
  predicate Linked(w: World, h: Held) {
    h.id in w.base.store.mem && h.gen == Gen(w.gens, h.id)
  }

  /** The check recycles an object that does not pass, in the table or not. */
  predicate Recycles(w: World, e: Step, id: string, gen: nat)
    requires e.Check? ==> e.req in w.held
  {
    e.Check? &&
    var h := w.held[e.req];
    h.id == id && h.gen == gen && !Passes(h.identity, h.token)
  }

  function NextBase(w: World, e: Step, timeout: nat): State
    requires Possible(w, e, timeout)
  {
    var s := w.base;
    match e
    case Whole(event) => Next(s, event, timeout)
    case Keep(req) => s.(store := s.store.(mem := s.store.mem[w.loads[req].id := w.loads[req].view]))
    case Forget(id) => s.(store := s.store.(mem := s.store.mem - {id}))
    case EraseRow(id) => s.(store := s.store.(rows := s.store.rows - {id}))
    case Fetch(_, id, _, fate) => Next(s, Lookup(id, fate), timeout)
    case Check(req) =>
      var h := w.held[req];
      if Linked(w, h) && !Passes(h.identity, h.token) then
        s.(store := s.store.(mem := s.store.mem[h.id := Recycled(s.store.mem[h.id], h.token.role, h.token.groups)]))
      else s
    case _ => s
  }

  function NextLoads(w: World, e: Step, timeout: nat): map<nat, Load>
    requires Possible(w, e, timeout)
  {
    match e
    case ReadRow(req, id, token, fate) =>
      w.loads[req := Load(id, SessionManagement.Load(w.base.store.rows[id], w.base.users, fate), token)]
    case Keep(req) => w.loads - {req}
    case _ => w.loads
  }

  /** The object under this id leaves the table, or gives its place to another. */
  predicate Leaves(w: World, e: Step, timeout: nat, id: string)
    requires Possible(w, e, timeout)
  {
    id in w.base.store.mem && (id !in NextBase(w, e, timeout).store.mem || (e.Keep? && w.loads[e.req].id == id))
  }

  function NextGens(w: World, e: Step, timeout: nat): map<string, nat>
    requires Possible(w, e, timeout)
  {
    w.gens + map id | id in w.base.store.mem && Leaves(w, e, timeout, id) :: Gen(w.gens, id) + 1
  }

  /** A held object has the identity that the table gives it while it is there; later only a check changes it. */
  function Follow(w: World, e: Step, timeout: nat, h: Held): Held
    requires Possible(w, e, timeout)
  {
    if Linked(w, h) && !Leaves(w, e, timeout, h.id) then h.(identity := IdentityOf(NextBase(w, e, timeout).store.mem[h.id]))
    else if Recycles(w, e, h.id, h.gen) then h.(identity := Identity(w.held[e.req].token.role, w.held[e.req].token.groups))
    else h
  }

  function NextHeld(w: World, e: Step, timeout: nat): map<nat, Held>
    requires Possible(w, e, timeout)
  {
    var followed := map r | r in w.held :: Follow(w, e, timeout, w.held[r]);
    match e
    case Keep(req) =>
      var l := w.loads[req];
      if l.view.userId == l.token.userId then
        followed[req := Held(l.id, Gen(NextGens(w, e, timeout), l.id), l.token, IdentityOf(l.view), false)]
      else followed
    case Fetch(req, id, token, fate) =>
      followed[req := Held(id, Gen(w.gens, id), token, IdentityOf(Found(w.base, id, fate, timeout).value), false)]
    case Check(req) =>
      if Passes(w.held[req].identity, w.held[req].token) then followed[req := followed[req].(checked := true)]
      else followed - {req}
    case Route(req) => followed - {req}
    case Drop(req) => followed - {req}
    case _ => followed
  }

  function Take(w: World, e: Step, timeout: nat): World
    requires Possible(w, e, timeout)
  {
    World(NextBase(w, e, timeout), NextLoads(w, e, timeout), NextHeld(w, e, timeout), NextGens(w, e, timeout))
  }

  predicate Runs(w: World, steps: seq<Step>, timeout: nat)
    decreases |steps|
  {
    steps == [] || (Possible(w, steps[0], timeout) && Runs(Take(w, steps[0], timeout), steps[1..], timeout))
  }

  function After(w: World, steps: seq<Step>, timeout: nat): World
    requires Runs(w, steps, timeout)
    decreases |steps|
  {
    if steps == [] then w else After(Take(w, steps[0], timeout), steps[1..], timeout)
  }

  // ---------- What every run keeps ----------

  /** A copy expires with its row, and no later than the session in memory. */
  predicate LoadOk(s: State, l: Load, timeout: nat) {
    && l.id in s.used && l.view.expiresAt <= s.clock + timeout
    && (l.id in s.store.rows ==> s.store.rows[l.id].expiresAt == l.view.expiresAt)
    && (l.id in s.store.mem ==> l.view.expiresAt <= s.store.mem[l.id].expiresAt)
  }

  /** A held object is the one in the table, with its identity, or one that has left it before. */
  predicate HeldOk(w: World, h: Held) {
    && h.gen <= Gen(w.gens, h.id) && h.id in w.base.used
    && (h.gen == Gen(w.gens, h.id) ==> h.id in w.base.store.mem && h.identity == IdentityOf(w.base.store.mem[h.id]))
  }

  ghost predicate Good(w: World, timeout: nat) {
    && Inv(w.base, timeout)
    && (forall l :: l in w.loads ==> LoadOk(w.base, w.loads[l], timeout))
    && (forall l, k :: l in w.loads && k in w.loads && w.loads[l].id == w.loads[k].id ==>
          w.loads[l].view.expiresAt == w.loads[k].view.expiresAt)
    && (forall r :: r in w.held ==> HeldOk(w, w.held[r]))
    && (forall r :: r in w.loads ==> r !in w.held)
  }

  /** Whole operations only drop rows of ids in use, and never shorten what is left of a session. */
  lemma WholeKeepsLoad(s: State, e: Event, l: Load, timeout: nat)
    requires Enabled(s, e) && LoadOk(s, l, timeout)
    ensures LoadOk(Next(s, e, timeout), l, timeout)
  {
    match e
    case Lookup(id, fate) => GetKeepsLoad(s, id, fate, l, timeout);
    case PostRequest(id, token, notification, fate) => PostKeepsLoad(s, id, token, notification, fate, l, timeout);
    case DeleteRequest(id, _, fate) => GetKeepsLoad(s, id, fate, l, timeout);
    case InitRequest(existing, newId, token, fate) => InitKeepsLoad(s, existing, newId, token, fate, l, timeout);
    case _ =>
  }

  lemma PostKeepsLoad(s: State, id: string, token: Token, notification: bool, fate: Fate, l: Load, timeout: nat)
    requires LoadOk(s, l, timeout)
    ensures LoadOk(Next(s, PostRequest(id, token, notification, fate), timeout), l, timeout)
  {
    GetKeepsLoad(s, id, fate, l, timeout);
  }

  lemma InitKeepsLoad(s: State, existing: Option<string>, newId: string, token: Token, fate: Fate, l: Load, timeout: nat)
    requires LoadOk(s, l, timeout) && newId !in s.used
    ensures LoadOk(Next(s, InitRequest(existing, newId, token, fate), timeout), l, timeout)
  {
    if existing.Some? {
      GetKeepsLoad(s, existing.value, fate, l, timeout);
    }
  }

  lemma GetKeepsLoad(s: State, id: string, fate: Fate, l: Load, timeout: nat)
    requires LoadOk(s, l, timeout)
    ensures LoadOk(s.(store := Get(s.store, s.users, timeout, s.clock, id, fate).0), l, timeout)
  {
  }

  lemma LoadsKept(w: World, e: Step, timeout: nat, l: nat)
    requires Good(w, timeout) && Possible(w, e, timeout) && l in NextLoads(w, e, timeout)
    ensures LoadOk(NextBase(w, e, timeout), NextLoads(w, e, timeout)[l], timeout)
  {
    var s := w.base;
    if l in w.loads {
      assert LoadOk(s, w.loads[l], timeout);
      match e {
        case Whole(event) => WholeKeepsLoad(s, event, w.loads[l], timeout);
        case Fetch(_, id, _, fate) => WholeKeepsLoad(s, Lookup(id, fate), w.loads[l], timeout);
        case Keep(k) => assert LoadOk(s, w.loads[k], timeout);
        case _ =>
      }
    } else {
      assert RowOk(s.store, e.id, timeout, s.clock);
    }
  }

  lemma BaseKept(w: World, e: Step, timeout: nat)
    requires Good(w, timeout) && Possible(w, e, timeout)
    ensures Inv(NextBase(w, e, timeout), timeout)
  {
    var s, s' := w.base, NextBase(w, e, timeout);
    match e
    case Whole(event) => StepKeepsInv(s, event, timeout);
    case Fetch(_, id, _, fate) => StepKeepsInv(s, Lookup(id, fate), timeout);
    case Keep(req) =>
      assert LoadOk(s, w.loads[req], timeout);
      forall i | i in s'.store.rows ensures RowOk(s'.store, i, timeout, s'.clock) {
        assert RowOk(s.store, i, timeout, s.clock);
      }
    case Forget(_) => SameExpiriesKeepOrder(s.store, s'.store, timeout, s.clock, s.clock);
    case EraseRow(_) => SameExpiriesKeepOrder(s.store, s'.store, timeout, s.clock, s.clock);
    case Check(_) => SameExpiriesKeepOrder(s.store, s'.store, timeout, s.clock, s.clock);
    case _ =>
  }

  lemma GensGrow(w: World, e: Step, timeout: nat, id: string)
    requires Possible(w, e, timeout)
    ensures Gen(NextGens(w, e, timeout), id) == Gen(w.gens, id) + if Leaves(w, e, timeout, id) then 1 else 0
  {
  }

  lemma FollowKeepsHeld(w: World, e: Step, timeout: nat, h: Held)
    requires Possible(w, e, timeout) && HeldOk(w, h)
    ensures HeldOk(World(NextBase(w, e, timeout), map[], map[], NextGens(w, e, timeout)), Follow(w, e, timeout, h))
  {
    GensGrow(w, e, timeout, h.id);
  }

  lemma NewHeld(w: World, e: Step, timeout: nat)
    requires Good(w, timeout) && Possible(w, e, timeout) && (e.Fetch? || e.Keep?) && e.req in NextHeld(w, e, timeout)
    ensures HeldOk(World(NextBase(w, e, timeout), map[], map[], NextGens(w, e, timeout)), NextHeld(w, e, timeout)[e.req])
  {
    if e.Fetch? {
      GensGrow(w, e, timeout, e.id);
    } else {
      GensGrow(w, e, timeout, w.loads[e.req].id);
    }
  }

  /** The same object, held for the same token under the same identity. */
  predicate SameHold(a: Held, b: Held) {
    a.id == b.id && a.gen == b.gen && a.token == b.token && a.identity == b.identity
  }

  lemma CheckedFollows(w: World, checked: nat, r: nat, timeout: nat)
    requires Possible(w, Check(checked), timeout) && r in w.held && r in NextHeld(w, Check(checked), timeout)
    ensures SameHold(NextHeld(w, Check(checked), timeout)[r], Follow(w, Check(checked), timeout, w.held[r]))
  {
  }

  lemma OldHeld(w: World, e: Step, timeout: nat, r: nat)
    requires Good(w, timeout) && Possible(w, e, timeout) && r in w.held && r in NextHeld(w, e, timeout)
    ensures SameHold(NextHeld(w, e, timeout)[r], Follow(w, e, timeout, w.held[r]))
  {
    match e
    case Check(checked) => CheckedFollows(w, checked, r, timeout);
    case Keep(req) => assert req in w.loads && req !in w.held;
    case _ =>
  }

  lemma HeldKept(w: World, e: Step, timeout: nat, r: nat)
    requires Good(w, timeout) && Possible(w, e, timeout) && r in NextHeld(w, e, timeout)
    ensures HeldOk(Take(w, e, timeout), NextHeld(w, e, timeout)[r])
  {
    if r in w.held {
      OldHeld(w, e, timeout, r);
      FollowKeepsHeld(w, e, timeout, w.held[r]);
    } else {
      NewHeld(w, e, timeout);
    }
  }

  lemma StepKeepsGood(w: World, e: Step, timeout: nat)
    requires Good(w, timeout) && Possible(w, e, timeout)
    ensures Good(Take(w, e, timeout), timeout)
  {
    BaseKept(w, e, timeout);
    var next := Take(w, e, timeout);
    forall l | l in next.loads ensures LoadOk(next.base, next.loads[l], timeout) {
      LoadsKept(w, e, timeout, l);
    }
    forall r | r in next.held ensures HeldOk(next, next.held[r]) {
      HeldKept(w, e, timeout, r);
    }
    ExpiriesKept(w, e, timeout);
    ApartKept(w, e, timeout);
  }

  lemma ApartKept(w: World, e: Step, timeout: nat)
    requires Good(w, timeout) && Possible(w, e, timeout)
    ensures forall r :: r in NextLoads(w, e, timeout) ==> r !in NextHeld(w, e, timeout)
  {
  }

  lemma ExpiriesKept(w: World, e: Step, timeout: nat)
    requires Good(w, timeout) && Possible(w, e, timeout)
    ensures var loads := NextLoads(w, e, timeout);
            forall l, k :: l in loads && k in loads && loads[l].id == loads[k].id ==> loads[l].view.expiresAt == loads[k].view.expiresAt
  {
    if e.ReadRow? {
      forall l | l in w.loads && w.loads[l].id == e.id ensures w.loads[l].view.expiresAt == w.base.store.rows[e.id].expiresAt {
        assert LoadOk(w.base, w.loads[l], timeout);
      }
    }
  }

  // ---------- When a session can come back ----------

  /** Nothing unexpired is left of the session in either table. */
  predicate Silent(s: State, id: string) {
    && (id in s.store.mem ==> s.store.mem[id].expiresAt < s.clock)
    && (id in s.store.rows ==> s.store.rows[id].expiresAt < s.clock)
  }

  predicate Underway(w: World, id: string) {
    exists l :: l in w.loads && w.loads[l].id == id && w.base.clock <= w.loads[l].view.expiresAt
  }

  predicate Alive(w: World, id: string) {
    !Silent(w.base, id) || Underway(w, id)
  }

  ghost predicate CanReturn(w: World, id: string, timeout: nat) {
    exists steps, fate :: Runs(w, steps, timeout) && Returns(After(w, steps, timeout).base, id, fate, timeout)
  }

  predicate Returns(s: State, id: string, fate: Fate, timeout: nat) {
    Found(s, id, fate, timeout).Ok?
  }

  lemma SilentGet(s: State, id: string, other: string, fate: Fate, timeout: nat)
    requires Silent(s, id)
    ensures Silent(s.(store := Get(s.store, s.users, timeout, s.clock, other, fate).0), id)
    ensures !Returns(s, id, fate, timeout)
  {
  }

  lemma WholeKeepsSilent(s: State, e: Event, id: string, timeout: nat)
    requires Silent(s, id) && Enabled(s, e) && id in s.used
    ensures Silent(Next(s, e, timeout), id)
  {
    match e
    case Lookup(other, fate) => SilentGet(s, id, other, fate, timeout);
    case PostRequest(other, _, _, fate) => SilentGet(s, id, other, fate, timeout);
    case DeleteRequest(other, _, fate) => SilentGet(s, id, other, fate, timeout);
    case InitRequest(existing, _, _, fate) =>
      if existing.Some? {
        SilentGet(s, id, existing.value, fate, timeout);
      }
    case _ =>
  }

  lemma StepKeepsGone(w: World, e: Step, id: string, timeout: nat)
    requires Good(w, timeout) && Possible(w, e, timeout) && id in w.base.used && !Alive(w, id)
    ensures id in Take(w, e, timeout).base.used && !Alive(Take(w, e, timeout), id)
  {
    match e
    case Whole(event) => WholeKeepsSilent(w.base, event, id, timeout);
    case Fetch(_, other, _, fate) => WholeKeepsSilent(w.base, Lookup(other, fate), id, timeout);
    case _ =>
  }

  lemma {:induction false} GoneStaysGone(w: World, steps: seq<Step>, id: string, timeout: nat)
    requires Good(w, timeout) && Runs(w, steps, timeout) && id in w.base.used && !Alive(w, id)
    ensures !Alive(After(w, steps, timeout), id)
    decreases |steps|
  {
    if steps != [] {
      StepKeepsGood(w, steps[0], timeout);
      StepKeepsGone(w, steps[0], id, timeout);
      GoneStaysGone(Take(w, steps[0], timeout), steps[1..], id, timeout);
    }
  }

  const WORKING := Fate(true, true, true, true)

  lemma RunOne(w: World, e: Step, timeout: nat)
    requires Possible(w, e, timeout)
    ensures Runs(w, [e], timeout) && After(w, [e], timeout) == Take(w, e, timeout)
  {
    assert [e][1..] == [];
  }

  lemma AliveReturns(w: World, id: string, timeout: nat)
    requires Good(w, timeout) && Alive(w, id)
    ensures CanReturn(w, id, timeout)
  {
    if !Silent(w.base, id) {
      assert RowOk(w.base.store, id, timeout, w.base.clock) || id !in w.base.store.rows;
      assert Runs(w, [], timeout) && Returns(After(w, [], timeout).base, id, WORKING, timeout);
    } else {
      var l :| l in w.loads && w.loads[l].id == id && w.base.clock <= w.loads[l].view.expiresAt;
      RunOne(w, Keep(l), timeout);
      assert Returns(After(w, [Keep(l)], timeout).base, id, WORKING, timeout);
    }
  }

  lemma LaterReturns(w: World, id: string, timeout: nat)
    requires Good(w, timeout) && id in w.base.used
    ensures CanReturn(w, id, timeout) <==> Alive(w, id)
  {
    if Alive(w, id) {
      AliveReturns(w, id, timeout);
    } else {
      forall steps, fate | Runs(w, steps, timeout) ensures !Returns(After(w, steps, timeout).base, id, fate, timeout) {
        GoneStaysGone(w, steps, id, timeout);
        SilentGet(After(w, steps, timeout).base, id, id, fate, timeout);
      }
    }
  }

  // ---------- Look-ups under way ----------

  /** A look-up that missed returns the copy it stores, expired or not. */
  predicate HandsOut(w: World, steps: seq<Step>, id: string, timeout: nat)
    requires Runs(w, steps, timeout)
    decreases |steps|
  {
    steps != [] &&
    ((steps[0].Keep? && w.loads[steps[0].req].id == id) || HandsOut(Take(w, steps[0], timeout), steps[1..], id, timeout))
  }

  /** In some continuation a look-up, under way or started later, returns the id. */
  ghost predicate CanHandOut(w: World, id: string, timeout: nat) {
    CanReturn(w, id, timeout) || exists steps :: Runs(w, steps, timeout) && HandsOut(w, steps, id, timeout)
  }

  predicate CopyUnderway(w: World, id: string) {
    exists l :: l in w.loads && w.loads[l].id == id
  }

  lemma StepKeepsQuiet(w: World, e: Step, id: string, timeout: nat)
    requires Possible(w, e, timeout) && id in w.base.used && Silent(w.base, id) && !CopyUnderway(w, id)
    ensures id in Take(w, e, timeout).base.used && Silent(Take(w, e, timeout).base, id) && !CopyUnderway(Take(w, e, timeout), id)
  {
    match e
    case Whole(event) => WholeKeepsSilent(w.base, event, id, timeout);
    case Fetch(_, other, _, fate) => WholeKeepsSilent(w.base, Lookup(other, fate), id, timeout);
    case _ =>
  }

  lemma {:induction false} QuietHandsNothing(w: World, steps: seq<Step>, id: string, timeout: nat)
    requires Runs(w, steps, timeout) && id in w.base.used && Silent(w.base, id) && !CopyUnderway(w, id)
    ensures !HandsOut(w, steps, id, timeout) && Silent(After(w, steps, timeout).base, id)
    decreases |steps|
  {
    if steps != [] {
      StepKeepsQuiet(w, steps[0], id, timeout);
      QuietHandsNothing(Take(w, steps[0], timeout), steps[1..], id, timeout);
    }
  }

  lemma HandsOutExactly(w: World, id: string, timeout: nat)
    requires Good(w, timeout) && id in w.base.used
    ensures CanHandOut(w, id, timeout) <==> !Silent(w.base, id) || CopyUnderway(w, id)
  {
    LaterReturns(w, id, timeout);
    if CopyUnderway(w, id) {
      var l :| l in w.loads && w.loads[l].id == id;
      RunOne(w, Keep(l), timeout);
      assert HandsOut(w, [Keep(l)], id, timeout);
    } else if Silent(w.base, id) {
      forall steps | Runs(w, steps, timeout) ensures !HandsOut(w, steps, id, timeout) {
        QuietHandsNothing(w, steps, id, timeout);
      }
    }
  }

  // ---------- From every reachable state ----------

  function Start(users: map<UserId, Identity>): World {
    World(State(Store(map[], map[]), users, {}, 0), map[], map[], map[])
  }

  ghost predicate Reachable(w: World, timeout: nat) {
    exists users, past :: Runs(Start(users), past, timeout) && w == After(Start(users), past, timeout)
  }

  lemma StartIsGood(users: map<UserId, Identity>, timeout: nat)
    ensures Good(Start(users), timeout)
  {
  }

  lemma {:induction false} RunKeepsGood(w: World, steps: seq<Step>, timeout: nat)
    requires Good(w, timeout) && Runs(w, steps, timeout)
    ensures Good(After(w, steps, timeout), timeout)
    decreases |steps|
  {
    if steps != [] {
      StepKeepsGood(w, steps[0], timeout);
      RunKeepsGood(Take(w, steps[0], timeout), steps[1..], timeout);
    }
  }

  lemma ReachableIsGood(w: World, timeout: nat)
    requires Reachable(w, timeout)
    ensures Good(w, timeout)
  {
    var users, past :| Runs(Start(users), past, timeout) && w == After(Start(users), past, timeout);
    StartIsGood(users, timeout);
    RunKeepsGood(Start(users), past, timeout);
  }

  /**
   From every reachable state: some continuation has a look-up return an id handed out before
   exactly when a table holds it unexpired or a copy of its row is on its way, even an expired
   one. For look-ups started later, only an unexpired copy counts.
   */
  lemma ReturnsAgainExactly(w: World, id: string, timeout: nat)
    requires Reachable(w, timeout) && id in w.base.used
    ensures CanHandOut(w, id, timeout) <==> !Silent(w.base, id) || CopyUnderway(w, id)
    ensures CanReturn(w, id, timeout) <==> !Silent(w.base, id) || Underway(w, id)
  {
    ReachableIsGood(w, timeout);
    HandsOutExactly(w, id, timeout);
    LaterReturns(w, id, timeout);
  }

  /**
   A session found expired in memory is never returned by a look-up started later, and not by
   one under way either exactly when no copy is on its way.
   */
  lemma ExpiryIsFinal(w: World, id: string, timeout: nat)
    requires Reachable(w, timeout) && id in w.base.store.mem && w.base.store.mem[id].expiresAt < w.base.clock
    ensures !CanReturn(w, id, timeout)
    ensures !CanHandOut(w, id, timeout) <==> !CopyUnderway(w, id)
  {
    ReachableIsGood(w, timeout);
    if id in w.base.store.rows {
      assert RowOk(w.base.store, id, timeout, w.base.clock);
    }
    forall l | l in w.loads && w.loads[l].id == id ensures w.loads[l].view.expiresAt < w.base.clock {
      assert LoadOk(w.base, w.loads[l], timeout);
    }
    ReturnsAgainExactly(w, id, timeout);
  }

  /** The row is gone, or what is left of it has expired. */
  predicate RowEnds(s: State, id: string, fate: Fate) {
    fate.delete || id !in s.store.rows || s.store.rows[id].expiresAt < s.clock
  }

  /**
   A deletion is final exactly when its row was deleted, absent or expired and no copy of the
   row is on its way; for look-ups started later, when no unexpired copy is.
   */
  lemma DeletionIsFinal(w: World, id: string, user: UserId, fate: Fate, timeout: nat)
    requires Reachable(w, timeout) && id in w.base.used
    requires Terminate(w.base.store, w.base.users, timeout, w.base.clock, id, user, fate).1 in {Failed, Gone}
    ensures var next := Take(w, Whole(DeleteRequest(id, user, fate)), timeout);
            && (!CanHandOut(next, id, timeout) <==> RowEnds(w.base, id, fate) && !CopyUnderway(w, id))
            && (!CanReturn(next, id, timeout) <==> RowEnds(w.base, id, fate) && !Underway(w, id))
  {
    var next := Take(w, Whole(DeleteRequest(id, user, fate)), timeout);
    ReachableIsGood(w, timeout);
    StepKeepsGood(w, Whole(DeleteRequest(id, user, fate)), timeout);
    HandsOutExactly(next, id, timeout);
    LaterReturns(next, id, timeout);
    DeletionKills(w.base, id, user, fate, timeout);
  }

  /**
   Whenever a session is only in the database and unexpired: a look-up reads the row, the owner
   deletes the session from both tables, the look-up stores its copy, and the deleted session is
   found again.
   */
  lemma DeletedSessionReturns(w: World, req: nat, id: string, token: Token, timeout: nat)
    requires req !in w.loads && req !in w.held && id in w.base.used && id !in w.base.store.mem
    requires id in w.base.store.rows && w.base.clock <= w.base.store.rows[id].expiresAt
    ensures var user := w.base.store.rows[id].userId;
            var read := Take(w, ReadRow(req, id, token, WORKING), timeout);
            var s := read.base;
            var gone := Take(read, Whole(DeleteRequest(id, user, WORKING)), timeout);
            && Terminate(s.store, s.users, timeout, s.clock, id, user, WORKING).1 == Gone
            && Dead(gone.base, id) && Possible(gone, Keep(req), timeout)
            && Returns(Take(gone, Keep(req), timeout).base, id, WORKING, timeout)
  {
    var user := w.base.store.rows[id].userId;
    var read := Take(w, ReadRow(req, id, token, WORKING), timeout);
    var s := read.base;
    var gone := Take(read, Whole(DeleteRequest(id, user, WORKING)), timeout);
    assert gone.base.store.mem == w.base.store.mem - {id} && gone.base.store.rows == w.base.store.rows - {id};
    assert gone.loads[req].view.expiresAt == w.base.store.rows[id].expiresAt;
  }

  /** A restart leads to such a state. */
  lemma RestartLeavesRows(timeout: nat)
    ensures var open, restart := Whole(OpenStream("s", Token(1, "user", []), WORKING)), Whole(Restart);
            Runs(Start(map[]), [open] + [restart], timeout) &&
            var w := After(Start(map[]), [open] + [restart], timeout);
            0 !in w.loads && 0 !in w.held && "s" in w.base.used && "s" !in w.base.store.mem
            && "s" in w.base.store.rows && w.base.clock <= w.base.store.rows["s"].expiresAt
  {
    var open, restart := Whole(OpenStream("s", Token(1, "user", []), WORKING)), Whole(Restart);
    var w1 := Take(Start(map[]), open, timeout);
    RunOne(w1, restart, timeout);
    RunCons(Start(map[]), open, [restart], timeout);
  }

  lemma RunCons(w: World, e: Step, rest: seq<Step>, timeout: nat)
    requires Possible(w, e, timeout) && Runs(Take(w, e, timeout), rest, timeout)
    ensures Runs(w, [e] + rest, timeout) && After(w, [e] + rest, timeout) == After(Take(w, e, timeout), rest, timeout)
  {
    assert ([e] + rest)[1..] == rest;
  }

  // ---------- Who owns a session ----------

  /** Both tables, every copy on its way and every request that holds an object of this id name the same user. */
  predicate Owned(w: World, id: string, user: UserId) {
    && OwnedBy(w.base.store, id, user)
    && (forall l :: l in w.loads && w.loads[l].id == id ==> w.loads[l].view.userId == user)
    && forall r :: r in w.held && w.held[r].id == id ==> w.held[r].token.userId == user
  }

  lemma BaseKeepsOwner(w: World, e: Step, id: string, user: UserId, timeout: nat)
    requires Possible(w, e, timeout) && id in w.base.used && Owned(w, id, user)
    ensures OwnedBy(NextBase(w, e, timeout).store, id, user)
  {
    match e
    case Whole(event) => StepKeepsOwner(w.base, event, id, user, timeout);
    case Fetch(_, other, _, fate) => StepKeepsOwner(w.base, Lookup(other, fate), id, user, timeout);
    case _ =>
  }

  lemma HeldKeepOwner(w: World, e: Step, id: string, user: UserId, timeout: nat, r: nat)
    requires Possible(w, e, timeout) && Owned(w, id, user)
    requires r in NextHeld(w, e, timeout) && NextHeld(w, e, timeout)[r].id == id
    ensures NextHeld(w, e, timeout)[r].token.userId == user
  {
    if e.Fetch? && r == e.req {
      GetKeepsOwner(w.base, id, user, id, e.fate, timeout);
    }
  }

  lemma StepKeepsOwned(w: World, e: Step, id: string, user: UserId, timeout: nat)
    requires Possible(w, e, timeout) && id in w.base.used && Owned(w, id, user)
    ensures id in NextBase(w, e, timeout).used && Owned(Take(w, e, timeout), id, user)
  {
    BaseKeepsOwner(w, e, id, user, timeout);
    var next := Take(w, e, timeout);
    forall r | r in next.held && next.held[r].id == id ensures next.held[r].token.userId == user {
      HeldKeepOwner(w, e, id, user, timeout, r);
    }
  }

  lemma {:induction false} RunKeepsOwned(w: World, steps: seq<Step>, id: string, user: UserId, timeout: nat)
    requires Runs(w, steps, timeout) && id in w.base.used && Owned(w, id, user)
    ensures id in After(w, steps, timeout).base.used && Owned(After(w, steps, timeout), id, user)
    decreases |steps|
  {
    if steps != [] {
      StepKeepsOwned(w, steps[0], id, user, timeout);
      RunKeepsOwned(Take(w, steps[0], timeout), steps[1..], id, user, timeout);
    }
  }

  lemma FreshIsOwned(w: World, e: Event, id: string, user: UserId, timeout: nat)
    requires Good(w, timeout) && Enabled(w.base, e) && HandsOutId(e, id, user)
    ensures id in Next(w.base, e, timeout).used && Owned(Take(w, Whole(e), timeout), id, user)
  {
    CreatorOwns(w.base, e, id, user, timeout);
    var next := Take(w, Whole(e), timeout);
    forall l | l in next.loads ensures next.loads[l].id != id {
      assert LoadOk(w.base, w.loads[l], timeout);
    }
    forall r | r in next.held ensures next.held[r].id != id {
      assert HeldOk(w, w.held[r]);
    }
  }

  /**
   In every run, with restarts, reloads, clean-ups and split look-ups, an id stays with the user
   to whom it was handed out: rows, sessions, copies and the requests that hold an object.
   */
  lemma OwnerNeverChanges(w: World, e: Event, steps: seq<Step>, id: string, user: UserId, timeout: nat)
    requires Reachable(w, timeout) && Enabled(w.base, e) && HandsOutId(e, id, user)
    requires Runs(Take(w, Whole(e), timeout), steps, timeout)
    ensures Owned(After(Take(w, Whole(e), timeout), steps, timeout), id, user)
  {
    ReachableIsGood(w, timeout);
    FreshIsOwned(w, e, id, user, timeout);
    RunKeepsOwned(Take(w, Whole(e), timeout), steps, id, user, timeout);
  }

  // ---------- Under which identity a checked request is routed ----------

  /** The step recycles the held object to an identity that does not pass for the request's token. */
  predicate Diverts(w: World, e: Step, h: Held)
    requires e.Check? ==> e.req in w.held
  {
    var s := w.base;
    match e
    case Whole(PostRequest(id, token, _, _)) =>
      Linked(w, h) &&
      var v := s.store.mem[h.id];
      && id == h.id && s.clock <= v.expiresAt && v.userId == token.userId
      && !Passes(IdentityOf(v), token) && !Passes(Identity(token.role, token.groups), h.token)
    case Whole(RecycleAll(user, fate)) =>
      Linked(w, h) && fate.readUser && user in s.users && s.store.mem[h.id].userId == user && !Passes(s.users[user], h.token)
    case Check(req) =>
      Recycles(w, e, h.id, h.gen) && !Passes(Identity(w.held[req].token.role, w.held[req].token.groups), h.token)
    case _ => false
  }

  /** The identity that an operation leaves a session in memory with. */
  function NextIdentity(s: State, e: Event, id: string): Identity
    requires id in s.store.mem
  {
    var v := s.store.mem[id];
    var own := Identity(v.role, v.groups);
    match e
    case PostRequest(other, token, _, _) =>
      if other == id && s.clock <= v.expiresAt && v.userId == token.userId && !Passes(own, token) then Identity(token.role, token.groups)
      else own
    case RecycleAll(user, fate) => if fate.readUser && user in s.users && v.userId == user then s.users[user] else own
    case _ => own
  }

  lemma WholeMovesIdentity(s: State, e: Event, id: string, timeout: nat)
    requires Inv(s, timeout) && Enabled(s, e) && id in s.store.mem && id in Next(s, e, timeout).store.mem
    ensures var v := Next(s, e, timeout).store.mem[id];
            Identity(v.role, v.groups) == NextIdentity(s, e, id)
  {
    match e
    case Lookup(other, fate) => GetKeepsIdentity(s, id, other, fate, timeout);
    case PostRequest(other, _, _, fate) => GetKeepsIdentity(s, id, other, fate, timeout);
    case DeleteRequest(other, _, fate) => GetKeepsIdentity(s, id, other, fate, timeout);
    case InitRequest(existing, _, _, fate) =>
      if existing.Some? {
        GetKeepsIdentity(s, id, existing.value, fate, timeout);
      }
    case _ =>
  }

  lemma GetKeepsIdentity(s: State, id: string, other: string, fate: Fate, timeout: nat)
    requires id in s.store.mem
    ensures var mem := Get(s.store, s.users, timeout, s.clock, other, fate).0.mem;
            id in mem ==> mem[id].role == s.store.mem[id].role && mem[id].groups == s.store.mem[id].groups
  {
  }

  /** What a step makes of a held object. */
  function NextHeldIdentity(w: World, e: Step, h: Held): Identity
    requires e.Check? ==> e.req in w.held
  {
    match e
    case Whole(event) => if Linked(w, h) then NextIdentity(w.base, event, h.id) else h.identity
    case Check(req) =>
      if Recycles(w, e, h.id, h.gen) then Identity(w.held[req].token.role, w.held[req].token.groups) else h.identity
    case _ => h.identity
  }

  lemma WholeMovesHeld(w: World, event: Event, timeout: nat, h: Held)
    requires Good(w, timeout) && Enabled(w.base, event) && HeldOk(w, h) && Linked(w, h)
    ensures Follow(w, Whole(event), timeout, h).identity == NextIdentity(w.base, event, h.id)
  {
    if Leaves(w, Whole(event), timeout, h.id) {
      StaysWhereRecycled(w.base, event, h.id, timeout);
    } else {
      WholeMovesIdentity(w.base, event, h.id, timeout);
    }
  }

  lemma CheckMovesHeld(w: World, req: nat, timeout: nat, h: Held)
    requires Possible(w, Check(req), timeout) && HeldOk(w, h) && HeldOk(w, w.held[req])
    ensures Follow(w, Check(req), timeout, h).identity == NextHeldIdentity(w, Check(req), h)
  {
  }

  lemma FollowMoves(w: World, e: Step, timeout: nat, h: Held)
    requires Good(w, timeout) && Possible(w, e, timeout) && HeldOk(w, h)
    ensures Follow(w, e, timeout, h).identity == NextHeldIdentity(w, e, h)
  {
    match e
    case Whole(event) =>
      if Linked(w, h) {
        WholeMovesHeld(w, event, timeout, h);
      }
    case Fetch(_, id, _, fate) =>
      if Linked(w, h) {
        GetKeepsIdentity(w.base, h.id, id, fate, timeout);
      }
    case Check(req) =>
      assert HeldOk(w, w.held[req]);
      CheckMovesHeld(w, req, timeout, h);
    case _ =>
  }

  /** A request that passed the check stops passing it exactly at a step that recycles its object away. */
  lemma StepKeepsPassing(w: World, e: Step, req: nat, timeout: nat)
    requires Good(w, timeout) && Possible(w, e, timeout) && req in w.held && e != Route(req) && e != Drop(req)
    requires Passes(w.held[req].identity, w.held[req].token)
    ensures req in Take(w, e, timeout).held && Take(w, e, timeout).held[req].token == w.held[req].token
    ensures Passes(Take(w, e, timeout).held[req].identity, w.held[req].token) <==> !Diverts(w, e, w.held[req])
  {
    assert HeldOk(w, w.held[req]);
    FollowMoves(w, e, timeout, w.held[req]);
    StaysHeld(w, e, req, timeout);
    OldHeld(w, e, timeout, req);
    FollowKeepsToken(w, e, timeout, w.held[req]);
  }

  lemma FollowKeepsToken(w: World, e: Step, timeout: nat, h: Held)
    requires Possible(w, e, timeout)
    ensures Follow(w, e, timeout, h).token == h.token
  {
  }

  /** Only routing, dropping and failing the check end a request. */
  lemma StaysHeld(w: World, e: Step, req: nat, timeout: nat)
    requires Possible(w, e, timeout) && req in w.held && e != Route(req) && e != Drop(req)
    requires Passes(w.held[req].identity, w.held[req].token)
    ensures req in NextHeld(w, e, timeout)
  {
  }

  /** An operation that changes a session's identity leaves it in memory. */
  lemma StaysWhereRecycled(s: State, e: Event, id: string, timeout: nat)
    requires Enabled(s, e) && id in s.store.mem && id !in Next(s, e, timeout).store.mem
    ensures NextIdentity(s, e, id) == Identity(s.store.mem[id].role, s.store.mem[id].groups)
  {
    match e
    case PostRequest(other, token, notification, fate) =>
    case _ =>
  }

  /** No step of the run recycles the request's object away from its token, and none ends the request. */
  predicate Undisturbed(w: World, steps: seq<Step>, req: nat, timeout: nat)
    requires Runs(w, steps, timeout)
    decreases |steps|
  {
    steps == [] ||
    (&& req in w.held && steps[0] != Route(req) && steps[0] != Drop(req) && !Diverts(w, steps[0], w.held[req])
     && Undisturbed(Take(w, steps[0], timeout), steps[1..], req, timeout))
  }

  /** So in every run without such a step, the request is routed under an identity that passes for its token. */
  lemma {:induction false} RoutedUnderOwnIdentity(w: World, steps: seq<Step>, req: nat, timeout: nat)
    requires Good(w, timeout) && Runs(w, steps, timeout) && Undisturbed(w, steps, req, timeout)
    requires req in w.held && Passes(w.held[req].identity, w.held[req].token)
    ensures var last := After(w, steps, timeout);
            req in last.held && Passes(last.held[req].identity, w.held[req].token)
    decreases |steps|
  {
    if steps != [] {
      StepKeepsPassing(w, steps[0], req, timeout);
      StepKeepsGood(w, steps[0], timeout);
      RoutedUnderOwnIdentity(Take(w, steps[0], timeout), steps[1..], req, timeout);
    }
  }

  /**
   Two requests of one user hold a session, one with an old token and one with a new. The first
   passes the check, the session is deleted, and the check of the second recycles the object
   that both hold: the first is about to be routed under the role of the second.
   */
  lemma RoutedUnderAnotherRole(timeout: nat) returns (steps: seq<Step>)
    ensures Runs(Start(map[]), steps, timeout)
    ensures var last := After(Start(map[]), steps, timeout);
            0 in last.held && last.held[0].checked && last.held[0].token.role == "user" && last.held[0].identity.role == "admin"
  {
    var user, admin := Token(1, "user", []), Token(1, "admin", []);
    var open := Whole(OpenStream("s", user, WORKING));
    var w1 := Take(Start(map[]), open, timeout);
    var rest := SecondCheckDiverts(w1, timeout);
    RunCons(Start(map[]), open, rest, timeout);
    steps := [open] + rest;
  }

  /** An unexpired session in memory with its identity, and nobody between look-up and routing but those given. */
  ghost predicate InMemory(w: World, held: map<nat, Held>) {
    && w.loads == map[] && w.held == held && "s" in w.base.store.mem
    && w.base.clock <= w.base.store.mem["s"].expiresAt
    && w.base.store.mem["s"].userId == 1 && IdentityOf(w.base.store.mem["s"]) == Identity("user", [])
  }

  lemma FetchHolds(w: World, held: map<nat, Held>, req: nat, token: Token, timeout: nat)
    requires InMemory(w, held) && req !in held && token.userId == 1
    requires forall r :: r in held ==> held[r].id == "s" && held[r].gen == Gen(w.gens, "s") && held[r].identity == Identity("user", [])
    ensures Possible(w, Fetch(req, "s", token, WORKING), timeout)
    ensures var next := Take(w, Fetch(req, "s", token, WORKING), timeout);
            && next.gens == w.gens
            && InMemory(next, held[req := Held("s", Gen(w.gens, "s"), token, Identity("user", []), false)])
  {
    var fetch := Fetch(req, "s", token, WORKING);
    var next := Take(w, fetch, timeout);
    assert forall id :: id in w.base.store.mem ==> !Leaves(w, fetch, timeout, id);
    assert next.gens == w.gens;
    assert next.held == held[req := Held("s", Gen(w.gens, "s"), token, Identity("user", []), false)];
  }

  lemma CheckPasses(w: World, held: map<nat, Held>, req: nat, timeout: nat)
    requires InMemory(w, held) && req in held && !held[req].checked && Passes(held[req].identity, held[req].token)
    requires forall r :: r in held ==> held[r].id == "s" && held[r].gen == Gen(w.gens, "s") && held[r].identity == Identity("user", [])
    ensures Possible(w, Check(req), timeout)
    ensures Take(w, Check(req), timeout).gens == w.gens
    ensures InMemory(Take(w, Check(req), timeout), held[req := held[req].(checked := true)])
  {
    var next := Take(w, Check(req), timeout);
    assert forall id :: id in w.base.store.mem ==> !Leaves(w, Check(req), timeout, id);
    assert next.gens == w.gens;
    assert next.held == held[req := held[req].(checked := true)];
  }

  lemma SecondCheckDiverts(w: World, timeout: nat) returns (steps: seq<Step>)
    requires InMemory(w, map[])
    ensures Runs(w, steps, timeout)
    ensures var last := After(w, steps, timeout);
            0 in last.held && last.held[0].checked && last.held[0].token.role == "user" && last.held[0].identity.role == "admin"
  {
    var user, admin := Token(1, "user", []), Token(1, "admin", []);
    var fetch, check, second := Fetch(0, "s", user, WORKING), Check(0), Fetch(1, "s", admin, WORKING);
    var own := Held("s", Gen(w.gens, "s"), user, Identity("user", []), false);
    FetchHolds(w, map[], 0, user, timeout);
    var w1 := Take(w, fetch, timeout);
    CheckPasses(w1, map[0 := own], 0, timeout);
    var w2 := Take(w1, check, timeout);
    assert map[0 := own][0 := own.(checked := true)] == map[0 := own.(checked := true)];
    FetchHolds(w2, map[0 := own.(checked := true)], 1, admin, timeout);
    var rest := DeletedThenRecycled(Take(w2, second, timeout), timeout);
    RunCons(w2, second, rest, timeout);
    RunCons(w1, check, [second] + rest, timeout);
    RunCons(w, fetch, [check] + ([second] + rest), timeout);
    steps := [fetch] + ([check] + ([second] + rest));
  }

  lemma DeletedThenRecycled(w: World, timeout: nat) returns (steps: seq<Step>)
    requires 0 in w.held && 1 in w.held && "s" in w.base.store.mem
    requires w.held[0] == Held("s", Gen(w.gens, "s"), Token(1, "user", []), Identity("user", []), true)
    requires w.held[1] == Held("s", Gen(w.gens, "s"), Token(1, "admin", []), Identity("user", []), false)
    ensures Runs(w, steps, timeout)
    ensures var last := After(w, steps, timeout);
            0 in last.held && last.held[0].checked && last.held[0].token.role == "user" && last.held[0].identity.role == "admin"
  {
    var forget, recheck := Forget("s"), Check(1);
    var w1 := Take(w, forget, timeout);
    assert Leaves(w, forget, timeout, "s");
    assert w1.held[0] == w.held[0] && w1.held[1] == w.held[1];
    RunOne(w1, recheck, timeout);
    RunCons(w, forget, [recheck], timeout);
    steps := [forget] + [recheck];
  }
}
