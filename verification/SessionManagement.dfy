/**
 The session life cycle: a table in memory whose entries expire a fixed time after their
 last use, a database table whose rows expire a fixed time after creation, and the request
 handlers that drive both. Each operation is one step and reads the clock once.
 */
module SessionManagement {
  import opened Wrappers
  import opened GatewaySession
  import opened Iteration

  datatype Row = Row(userId: UserId, createdAt: Time, expiresAt: Time)

  datatype Identity = Identity(role: string, groups: seq<string>)

  datatype Store = Store(mem: map<string, View>, rows: map<string, Row>)

  datatype Error = NotFound | DatabaseError

  /** Which database statements of one operation succeed. */
  datatype Fate = Fate(insert: bool, read: bool, readUser: bool, delete: bool)

  // ---------- The operations on values ----------

  function Create(st: Store, timeout: nat, now: Time, id: string, userId: UserId, role: string, groups: seq<string>, fate: Fate)
    : (Store, Result<View, Error>)
  {
    if !fate.insert then (st, Err(DatabaseError))
    else
      var v := View(userId, role, groups, now, now + timeout, NO_TABLES);
      (Store(st.mem[id := v], st.rows[id := Row(userId, now, now + timeout)]), Ok(v))
  }

  function DeleteRow(rows: map<string, Row>, id: string, ok: bool): map<string, Row> {
    if ok then rows - {id} else rows
  }

  /** Memory is cleared even when the row cannot be deleted. */
  function Delete(st: Store, id: string, fate: Fate): (Store, Option<Error>) {
    (Store(st.mem - {id}, DeleteRow(st.rows, id, fate.delete)),
     if !fate.delete then Some(DatabaseError) else if id !in st.rows then Some(NotFound) else None)
  }

  function Load(row: Row, users: map<UserId, Identity>, fate: Fate): View {
    var identity :=
      if fate.readUser && row.userId in users then users[row.userId] else Identity("user", []);
    View(row.userId, identity.role, identity.groups, row.createdAt, row.expiresAt, NO_TABLES)
  }

  function Get(st: Store, users: map<UserId, Identity>, timeout: nat, now: Time, id: string, fate: Fate)
    : (Store, Result<View, Error>)
  {
    if id in st.mem then
      if st.mem[id].expiresAt < now then (Delete(st, id, fate).0, Err(NotFound))
      else
        var v := st.mem[id].(expiresAt := now + timeout);
        (st.(mem := st.mem[id := v]), Ok(v))
    else if !fate.read then (st, Err(DatabaseError))
    else if id !in st.rows then (st, Err(NotFound))
    else if st.rows[id].expiresAt < now then (st.(rows := DeleteRow(st.rows, id, fate.delete)), Err(NotFound))
    else
      var v := Load(st.rows[id], users, fate);
      (st.(mem := st.mem[id := v]), Ok(v))
  }

  function Cleanup(st: Store, now: Time, fate: Fate): Store {
    Store(UnexpiredSessions(st.mem, now), if fate.delete then UnexpiredRows(st.rows, now) else st.rows)
  }

  function UnexpiredSessions(mem: map<string, View>, now: Time): map<string, View> {
    map id | id in mem && now <= mem[id].expiresAt :: mem[id]
  }

  function UnexpiredRows(rows: map<string, Row>, now: Time): map<string, Row> {
    map id | id in rows && now <= rows[id].expiresAt :: rows[id]
  }

  function Recycled(v: View, role: string, groups: seq<string>): View {
    v.(role := role, groups := groups, tables := NO_TABLES)
  }

  function RecycleUser(mem: map<string, View>, userId: UserId, identity: Identity): map<string, View> {
    map id | id in mem :: if mem[id].userId == userId then Recycled(mem[id], identity.role, identity.groups) else mem[id]
  }

  function SessionsOf(mem: map<string, View>, userId: UserId): set<string> {
    set id | id in mem && mem[id].userId == userId
  }

  function RecycleStep(mem: map<string, View>, id: string, userId: UserId, identity: Identity): map<string, View>
  {
    if id in mem && mem[id].userId == userId then mem[id := Recycled(mem[id], identity.role, identity.groups)] else mem
  }

  ghost function RecycleEach(mem: map<string, View>, order: seq<string>, userId: UserId, identity: Identity): map<string, View>
    decreases |order|
  {
    if order == [] then mem else RecycleEach(RecycleStep(mem, order[0], userId, identity), order[1..], userId, identity)
  }

  lemma {:induction false} RecycleEachResult(mem: map<string, View>, order: seq<string>, userId: UserId, identity: Identity)
    ensures RecycleEach(mem, order, userId, identity)
      == map id | id in mem :: if id in order && mem[id].userId == userId then Recycled(mem[id], identity.role, identity.groups) else mem[id]
    decreases |order|
  {
    if order != [] {
      RecycleEachResult(RecycleStep(mem, order[0], userId, identity), order[1..], userId, identity);
      assert forall id :: id in order <==> id == order[0] || id in order[1..];
    }
  }

  lemma OwnersKept(mem: map<string, View>, id: string, userId: UserId, identity: Identity)
    ensures SessionsOf(RecycleStep(mem, id, userId, identity), userId) == SessionsOf(mem, userId)
  {
  }

  /** The loop over all sessions recycles the user's sessions, in whatever order it meets them. */
  lemma RecycleAnyOrder(mem: map<string, View>, order: seq<string>, userId: UserId, identity: Identity)
    requires Visits(order, mem.Keys)
    ensures RecycleEach(mem, order, userId, identity) == RecycleUser(mem, userId, identity)
    ensures CountIn(order, SessionsOf(mem, userId)) == |SessionsOf(mem, userId)|
  {
    RecycleEachResult(mem, order, userId, identity);
    CountInResult(order, mem.Keys, SessionsOf(mem, userId));
    assert SessionsOf(mem, userId) * mem.Keys == SessionsOf(mem, userId);
  }

  ghost function EvictEach(mem: map<string, View>, order: seq<string>, now: Time): map<string, View>
    decreases |order|
  {
    if order == [] then mem else EvictEach(EvictStep(mem, order[0], now), order[1..], now)
  }

  function EvictStep(mem: map<string, View>, id: string, now: Time): map<string, View> {
    if id in mem && mem[id].expiresAt < now then mem - {id} else mem
  }

  /** The loop over all sessions evicts the expired ones, in whatever order it meets them. */
  lemma EvictAnyOrder(mem: map<string, View>, order: seq<string>, now: Time)
    requires Visits(order, mem.Keys)
    ensures EvictEach(mem, order, now) == UnexpiredSessions(mem, now)
  {
    EvictEachResult(mem, order, now);
  }

  lemma {:induction false} EvictEachResult(mem: map<string, View>, order: seq<string>, now: Time)
    ensures EvictEach(mem, order, now) == map id | id in mem && (id !in order || now <= mem[id].expiresAt) :: mem[id]
    decreases |order|
  {
    if order != [] {
      EvictEachResult(EvictStep(mem, order[0], now), order[1..], now);
      assert forall id :: id in order <==> id == order[0] || id in order[1..];
    }
  }

  /** The clients that closing a session's connections closes. */
  function ClientsOf(id: string, v: View): set<(string, string)> {
    set name | name in v.tables.clients && !v.tables.clients[name].stdio :: (id, name)
  }

  ghost function ExpiredClients(mem: map<string, View>, now: Time): set<(string, string)> {
    set id, name | id in mem && mem[id].expiresAt < now && name in HttpClients(mem[id].tables.clients) :: (id, name)
  }

  lemma ClientsSplit(mem: map<string, View>, id: string, now: Time)
    requires id in mem && mem[id].expiresAt < now
    ensures ExpiredClients(mem, now) == ClientsOf(id, mem[id]) + ExpiredClients(mem - {id}, now)
  {
  }

  lemma NoneExpired(mem: map<string, View>, now: Time)
    ensures ExpiredClients(UnexpiredSessions(mem, now), now) == {}
  {
  }

  // ---------- The handlers on values ----------

  datatype Token = Token(userId: UserId, role: string, groups: seq<string>)

  datatype Reply = NoSession | Forbidden | AskedToReinitialize | Accepted | Routed(session: View)

  /** A JSON-RPC request that names a session and is not `initialize`. */
  function Post(st: Store, users: map<UserId, Identity>, timeout: nat, now: Time, id: string, token: Token, notification: bool, fate: Fate)
    : (Store, Reply)
  {
    var (st', found) := Get(st, users, timeout, now, id, fate);
    match found
    case Err(_) => (st', NoSession)
    case Ok(v) =>
      if v.userId != token.userId then (st', Forbidden)
      else if NeedsRecycle(v.role, v.groups, token.role, token.groups) then
        (st'.(mem := st'.mem[id := Recycled(v, token.role, token.groups)]), AskedToReinitialize)
      else if notification then (st', Accepted)
      else (st', Routed(v))
  }

  /** `initialize`: reuse the caller's own live session, or make a new one under a fresh id. */
  function Initialize(st: Store, users: map<UserId, Identity>, timeout: nat, now: Time,
                      existing: Option<string>, newId: string, token: Token, fate: Fate)
    : (Store, Result<(string, View), Error>)
  {
    var (st', found) :=
      if existing.Some? then Get(st, users, timeout, now, existing.value, fate) else (st, Err(NotFound));
    if found.Ok? && found.value.userId == token.userId then (st', Ok((existing.value, found.value)))
    else
      var (st'', made) := Create(st', timeout, now, newId, token.userId, token.role, token.groups, fate);
      match made { case Ok(v) => (st'', Ok((newId, v))) case Err(e) => (st'', Err(e)) }
  }

  datatype DeleteReply = Absent | NotOwner | Failed | Gone

  function Terminate(st: Store, users: map<UserId, Identity>, timeout: nat, now: Time, id: string, userId: UserId, fate: Fate)
    : (Store, DeleteReply)
  {
    var (st', found) := Get(st, users, timeout, now, id, fate);
    match found
    case Err(_) => (st', Absent)
    case Ok(v) =>
      if v.userId != userId then (st', NotOwner)
      else
        var (st'', err) := Delete(st', id, fate);
        (st'', if err.Some? then Failed else Gone)
  }

  // ---------- The code ----------

  class SessionManager {
    var sessions: map<string, Session>
    var rows: map<string, Row>
    const timeout: nat
    /** The contents of the sessions in memory. */
    ghost var mem: map<string, View>

    /** `mem` is up to date, and different ids never share a session object. */
    ghost predicate Valid()
      reads this, sessions.Values
    {
      && mem.Keys == sessions.Keys
      && (forall id :: id in sessions ==> mem[id] == sessions[id].CurrentView())
      && (forall i, j :: i in sessions && j in sessions && sessions[i] == sessions[j] ==> i == j)
    }

    ghost function Current(): Store
      reads this
    {
      Store(mem, rows)
    }

    constructor (timeout: nat)
      ensures Valid() && Current() == Store(map[], map[]) && this.timeout == timeout
    {
      sessions, rows, this.timeout, mem := map[], map[], timeout, map[];
    }

    method AddSession(id: string, session: Session)
      requires Valid() && session !in sessions.Values
      modifies this`sessions, this`mem
      ensures Valid() && sessions == old(sessions)[id := session]
      ensures mem == old(mem)[id := session.CurrentView()]
    {
      forall i | i in sessions ensures sessions[i] != session {
        assert sessions[i] in sessions.Values;
      }
      sessions := sessions[id := session];
      mem := mem[id := session.CurrentView()];
    }

    method RemoveSession(id: string)
      requires Valid()
      modifies this`sessions, this`mem
      ensures Valid() && sessions == old(sessions) - {id} && mem == old(mem) - {id}
    {
      sessions := sessions - {id};
      mem := mem - {id};
    }

    /** A returned session object is the one in the table, with the expected contents. */
    ghost predicate Agrees(r: Result<Session, Error>, spec: Result<View, Error>, id: string)
      reads this, sessions.Values
    {
      match spec
      case Ok(v) => r.Ok? && id in sessions && sessions[id] == r.value && r.value.CurrentView() == v
      case Err(e) => r == Err(e)
    }

    method CreateSession(now: Time, id: string, userId: UserId, role: string, groups: seq<string>, fate: Fate)
      returns (r: Result<Session, Error>)
      requires Valid()
      modifies this`sessions, this`mem, this`rows
      ensures Valid() && fresh(sessions.Values - old(sessions.Values))
      ensures var spec := Create(old(Current()), timeout, now, id, userId, role, groups, fate);
        Current() == spec.0 && Agrees(r, spec.1, id)
    {
      if !fate.insert {
        return Err(DatabaseError);
      }
      rows := rows[id := Row(userId, now, now + timeout)];
      var session := new Session(id, userId, role, groups, now, now + timeout);
      AddSession(id, session);
      r := Ok(session);
    }

    method DeleteSession(id: string, fate: Fate) returns (err: Option<Error>, closed: set<string>)
      requires Valid()
      modifies this`sessions, this`mem, this`rows
      ensures Valid() && sessions == old(sessions) - {id}
      ensures (Current(), err) == Delete(old(Current()), id, fate)
      ensures closed == if id in old(mem) then HttpClients(old(mem)[id].tables.clients) else {}
    {
      closed := {};
      if id in sessions {
        closed := HttpClients(sessions[id].tables.clients);
      }
      RemoveSession(id);
      if !fate.delete {
        return Some(DatabaseError), closed;
      }
      err := if id in rows then None else Some(NotFound);
      rows := rows - {id};
    }

    /** The branch of GetSession for a session in memory. */
    method GetCached(now: Time, id: string, fate: Fate) returns (r: Result<Session, Error>)
      requires Valid() && id in sessions
      modifies this`sessions, this`mem, this`rows, sessions[id]
      ensures Valid() && sessions.Values <= old(sessions.Values)
      ensures var spec := Get(old(Current()), map[], timeout, now, id, fate);
        Current() == spec.0 && Agrees(r, spec.1, id)
    {
      var session := sessions[id];
      if session.expiresAt < now {
        var _, _ := DeleteSession(id, fate);
        return Err(NotFound);
      }
      session.expiresAt := now + timeout;
      mem := mem[id := mem[id].(expiresAt := now + timeout)];
      return Ok(session);
    }

    /** The branch of GetSession that falls back on the database. */
    method LoadSession(users: map<UserId, Identity>, now: Time, id: string, fate: Fate) returns (r: Result<Session, Error>)
      requires Valid() && id !in sessions
      modifies this`sessions, this`mem, this`rows
      ensures Valid() && fresh(sessions.Values - old(sessions.Values))
      ensures var spec := Get(old(Current()), users, timeout, now, id, fate);
        Current() == spec.0 && Agrees(r, spec.1, id)
    {
      if !fate.read {
        return Err(DatabaseError);
      }
      if id !in rows {
        return Err(NotFound);
      }
      var row := rows[id];
      if row.expiresAt < now {
        if fate.delete {
          rows := rows - {id};
        }
        return Err(NotFound);
      }
      var role, groups := "user", [];
      if fate.readUser && row.userId in users {
        role, groups := users[row.userId].role, users[row.userId].groups;
      }
      var session := new Session(id, row.userId, role, groups, row.createdAt, row.expiresAt);
      AddSession(id, session);
      r := Ok(session);
    }

    method GetSession(users: map<UserId, Identity>, now: Time, id: string, fate: Fate) returns (r: Result<Session, Error>)
      requires Valid()
      modifies this`sessions, this`mem, this`rows, sessions.Values
      ensures Valid() && fresh(sessions.Values - old(sessions.Values))
      ensures var spec := Get(old(Current()), users, timeout, now, id, fate);
        Current() == spec.0 && Agrees(r, spec.1, id)
    {
      if id in sessions {
        r := GetCached(now, id, fate);
      } else {
        r := LoadSession(users, now, id, fate);
      }
    }

    /** One round of the cleanup's loop; the closed clients are named with their session's id. */
    method EvictIfExpired(id: string, now: Time, closed: set<(string, string)>) returns (closed': set<(string, string)>)
      requires Valid()
      modifies this`sessions, this`mem
      ensures Valid() && mem == EvictStep(old(mem), id, now)
      ensures closed' + ExpiredClients(mem, now) == closed + ExpiredClients(old(mem), now)
    {
      closed' := closed;
      if id in sessions && sessions[id].expiresAt < now {
        closed' := closed + ClientsOf(id, sessions[id].CurrentView());
        ClientsSplit(mem, id, now);
        RemoveSession(id);
      }
    }

    /** The part of the cleanup that runs under the manager's lock. */
    method EvictExpired(now: Time) returns (closed: set<(string, string)>)
      requires Valid()
      modifies this`sessions, this`mem
      ensures Valid() && mem == UnexpiredSessions(old(mem), now)
      ensures closed == ExpiredClients(old(mem), now)
    {
      ghost var all := mem;
      ghost var due := ExpiredClients(mem, now);
      var order := AnyOrder(sessions.Keys);
      EvictAnyOrder(all, order, now);
      var i := 0;
      closed := {};
      while i < |order|
        invariant 0 <= i <= |order| && Valid()
        invariant EvictEach(mem, order[i..], now) == UnexpiredSessions(all, now)
        invariant closed + ExpiredClients(mem, now) == due
      {
        assert order[i..][0] == order[i] && order[i..][1..] == order[i + 1..];
        closed := EvictIfExpired(order[i], now, closed);
        i := i + 1;
      }
      assert order[i..] == [];
      NoneExpired(all, now);
    }

    method CleanupExpired(now: Time, fate: Fate) returns (closed: set<(string, string)>)
      requires Valid()
      modifies this`sessions, this`mem, this`rows
      ensures Valid()
      ensures Current() == Cleanup(old(Current()), now, fate)
      ensures closed == ExpiredClients(old(mem), now)
    {
      closed := EvictExpired(now);
      if fate.delete {
        rows := UnexpiredRows(rows, now);
      }
    }

    /** One round of the loop over all sessions: recycles the session if it is the user's. */
    method RecycleIfOwned(id: string, userId: UserId, identity: Identity) returns (owned: bool)
      requires Valid() && id in sessions
      modifies this`mem, sessions[id]
      ensures Valid()
      ensures owned == (id in SessionsOf(old(mem), userId))
      ensures mem == RecycleStep(old(mem), id, userId, identity)
    {
      owned := sessions[id].userId == userId;
      if owned {
        var _ := sessions[id].Recycle(identity.role, identity.groups);
        mem := mem[id := Recycled(mem[id], identity.role, identity.groups)];
      }
    }

    method RecycleUserSessions(users: map<UserId, Identity>, userId: UserId, fate: Fate) returns (count: nat)
      requires Valid()
      modifies this`mem, sessions.Values
      ensures Valid()
      ensures mem == if fate.readUser && userId in users then RecycleUser(old(mem), userId, users[userId]) else old(mem)
      ensures count == if fate.readUser && userId in users then |SessionsOf(old(mem), userId)| else 0
    {
      if !fate.readUser || userId !in users {
        return 0;
      }
      var identity := users[userId];
      var order := AnyOrder(sessions.Keys);
      ghost var mine := SessionsOf(mem, userId);
      count := 0;
      for i := 0 to |order|
        invariant Valid()
        invariant RecycleEach(mem, order[i..], userId, identity) == RecycleEach(old(mem), order, userId, identity)
        invariant SessionsOf(mem, userId) == mine
        invariant count + CountIn(order[i..], mine) == CountIn(order, mine)
      {
        assert order[i..][0] == order[i] && order[i..][1..] == order[i + 1..];
        OwnersKept(mem, order[i], userId, identity);
        var owned := RecycleIfOwned(order[i], userId, identity);
        if owned {
          count := count + 1;
        }
      }
      assert order[|order|..] == [];
      RecycleAnyOrder(old(mem), order, userId, identity);
    }
  }

  /** The request handlers; `now` and `fate` are the clock and the database's behaviour during the request. */
  class Handler {
    const manager: SessionManager

    constructor (manager: SessionManager)
      ensures this.manager == manager
    {
      this.manager := manager;
    }

    method RecycleSession(id: string, token: Token)
      requires manager.Valid() && id in manager.sessions
      modifies manager`mem, manager.sessions[id]
      ensures manager.Valid()
      ensures manager.mem == old(manager.mem)[id := Recycled(old(manager.mem)[id], token.role, token.groups)]
    {
      var _ := manager.sessions[id].Recycle(token.role, token.groups);
      manager.mem := manager.mem[id := Recycled(manager.mem[id], token.role, token.groups)];
    }

    method HandlePost(users: map<UserId, Identity>, now: Time, id: string, token: Token, notification: bool, fate: Fate)
      returns (reply: Reply)
      requires manager.Valid()
      modifies manager, manager.sessions.Values
      ensures manager.Valid() && fresh(manager.sessions.Values - old(manager.sessions.Values))
      ensures (manager.Current(), reply) == Post(old(manager.Current()), users, manager.timeout, now, id, token, notification, fate)
    {
      var found := manager.GetSession(users, now, id, fate);
      if found.Err? {
        return NoSession;
      }
      var session := found.value;
      if session.userId != token.userId {
        return Forbidden;
      }
      var stale := session.CheckIdentity(token.role, token.groups);
      if stale {
        RecycleSession(id, token);
        return AskedToReinitialize;
      }
      if notification {
        return Accepted;
      }
      return Routed(session.CurrentView());
    }

    method HandleInitialize(users: map<UserId, Identity>, now: Time, existing: Option<string>, newId: string, token: Token, fate: Fate)
      returns (r: Result<(string, View), Error>)
      requires manager.Valid()
      modifies manager, manager.sessions.Values
      ensures manager.Valid()
      ensures (manager.Current(), r) == Initialize(old(manager.Current()), users, manager.timeout, now, existing, newId, token, fate)
    {
      if existing.Some? {
        var found := manager.GetSession(users, now, existing.value, fate);
        if found.Ok? && found.value.userId == token.userId {
          return Ok((existing.value, found.value.CurrentView()));
        }
      }
      var made := manager.CreateSession(now, newId, token.userId, token.role, token.groups, fate);
      r := if made.Ok? then Ok((newId, made.value.CurrentView())) else Err(made.error);
    }

    method HandleDelete(users: map<UserId, Identity>, now: Time, id: string, userId: UserId, fate: Fate) returns (reply: DeleteReply)
      requires manager.Valid()
      modifies manager, manager.sessions.Values
      ensures manager.Valid()
      ensures (manager.Current(), reply) == Terminate(old(manager.Current()), users, manager.timeout, now, id, userId, fate)
    {
      var found := manager.GetSession(users, now, id, fate);
      if found.Err? {
        return Absent;
      }
      if found.value.userId != userId {
        return NotOwner;
      }
      var err, _ := manager.DeleteSession(id, fate);
      reply := if err.Some? then Failed else Gone;
    }
  }

  // ---------- Runs ----------

  /** `used` holds every id handed out so far: a new session's id is a fresh UUID. */
  datatype State = State(store: Store, users: map<UserId, Identity>, used: set<string>, clock: Time)

  /** Everything that can happen, one atomic operation at a time. */
  datatype Event =
    | Advance(ticks: nat)
    | SetUser(user: UserId, identity: Identity)
    | DropUser(user: UserId)
    | Restart
    | CleanupTick(fate: Fate)
    | RecycleAll(user: UserId, fate: Fate)
    | Work(id: string, tables: Tables)
    | Lookup(id: string, fate: Fate)
    | OpenStream(newId: string, token: Token, fate: Fate)
    | PostRequest(id: string, token: Token, notification: bool, fate: Fate)
    | InitRequest(existing: Option<string>, newId: string, token: Token, fate: Fate)
    | DeleteRequest(id: string, user: UserId, fate: Fate)

  predicate Enabled(s: State, e: Event) {
    match e
    case Work(id, _) => id in s.store.mem
    case OpenStream(newId, _, _) => newId !in s.used
    case InitRequest(_, newId, _, _) => newId !in s.used
    case _ => true
  }

  function DropRows(rows: map<string, Row>, user: UserId): map<string, Row> {
    map id | id in rows && rows[id].userId != user :: rows[id]
  }

  /** The effect of an event on the two session tables. */
  function NextStore(s: State, e: Event, timeout: nat): Store
    requires Enabled(s, e)
  {
    match e
    case Advance(_) => s.store
    case SetUser(_, _) => s.store
    case DropUser(user) => s.store.(rows := DropRows(s.store.rows, user))
    case Restart => s.store.(mem := map[])
    case CleanupTick(fate) => Cleanup(s.store, s.clock, fate)
    case RecycleAll(user, fate) =>
      if fate.readUser && user in s.users then s.store.(mem := RecycleUser(s.store.mem, user, s.users[user])) else s.store
    case Work(id, tables) => s.store.(mem := s.store.mem[id := s.store.mem[id].(tables := tables)])
    case Lookup(id, fate) => Get(s.store, s.users, timeout, s.clock, id, fate).0
    case OpenStream(newId, token, fate) =>
      Create(s.store, timeout, s.clock, newId, token.userId, token.role, token.groups, fate).0
    case PostRequest(id, token, notification, fate) =>
      Post(s.store, s.users, timeout, s.clock, id, token, notification, fate).0
    case InitRequest(existing, newId, token, fate) =>
      Initialize(s.store, s.users, timeout, s.clock, existing, newId, token, fate).0
    case DeleteRequest(id, user, fate) => Terminate(s.store, s.users, timeout, s.clock, id, user, fate).0
  }

  function Next(s: State, e: Event, timeout: nat): State
    requires Enabled(s, e)
  {
    State(
      NextStore(s, e, timeout),
      match e {
        case SetUser(user, identity) => s.users[user := identity]
        case DropUser(user) => s.users - {user}
        case _ => s.users
      },
      match e {
        case OpenStream(newId, _, _) => s.used + {newId}
        case InitRequest(_, newId, _, _) => s.used + {newId}
        case _ => s.used
      },
      if e.Advance? then s.clock + e.ticks else s.clock)
  }

  ghost predicate Run(states: seq<State>, events: seq<Event>, timeout: nat) {
    && |states| == |events| + 1
    && states[0].store == Store(map[], map[]) && states[0].used == {}
    && forall i :: 0 <= i < |events| ==> Enabled(states[i], events[i]) && states[i + 1] == Next(states[i], events[i], timeout)
  }

  // ---------- What every run keeps ----------

  /** No stored row outlives its in-memory session, and no expiry lies further ahead than one timeout. */
  ghost predicate RowOk(st: Store, id: string, timeout: nat, clock: Time) {
    id in st.rows ==> st.rows[id].expiresAt <= clock + timeout && (id in st.mem ==> st.rows[id].expiresAt <= st.mem[id].expiresAt)
  }

  ghost predicate Ordered(st: Store, timeout: nat, clock: Time) {
    forall id :: id in st.rows ==> RowOk(st, id, timeout, clock)
  }

  ghost predicate Inv(s: State, timeout: nat) {
    Ordered(s.store, timeout, s.clock) && s.store.mem.Keys <= s.used && s.store.rows.Keys <= s.used
  }

  lemma GetKeepsOrder(st: Store, users: map<UserId, Identity>, timeout: nat, now: Time, id: string, fate: Fate)
    requires Ordered(st, timeout, now)
    ensures Ordered(Get(st, users, timeout, now, id, fate).0, timeout, now)
    ensures var st' := Get(st, users, timeout, now, id, fate).0;
      st'.mem.Keys <= st.mem.Keys + st.rows.Keys && st'.rows.Keys <= st.rows.Keys
  {
    var st' := Get(st, users, timeout, now, id, fate).0;
    forall i | i in st'.rows ensures RowOk(st', i, timeout, now) {
      assert RowOk(st, i, timeout, now);
    }
  }

  lemma CreateKeepsOrder(st: Store, timeout: nat, now: Time, id: string, token: Token, fate: Fate)
    requires Ordered(st, timeout, now)
    ensures Ordered(Create(st, timeout, now, id, token.userId, token.role, token.groups, fate).0, timeout, now)
  {
    var st' := Create(st, timeout, now, id, token.userId, token.role, token.groups, fate).0;
    forall i | i in st'.rows ensures RowOk(st', i, timeout, now) {
      assert i != id ==> RowOk(st, i, timeout, now);
    }
  }

  /** Changes that move no expiry and add no row keep the order. */
  lemma SameExpiriesKeepOrder(st: Store, st': Store, timeout: nat, clock: Time, clock': Time)
    requires Ordered(st, timeout, clock) && clock <= clock'
    requires forall id :: id in st'.rows ==> id in st.rows && st'.rows[id] == st.rows[id]
    requires forall id :: id in st'.mem ==> id in st.mem && st'.mem[id].expiresAt == st.mem[id].expiresAt
    ensures Ordered(st', timeout, clock')
  {
    forall i | i in st'.rows ensures RowOk(st', i, timeout, clock') {
      assert RowOk(st, i, timeout, clock);
    }
  }

  lemma StepKeepsInv(s: State, e: Event, timeout: nat)
    requires Inv(s, timeout) && Enabled(s, e)
    ensures Inv(Next(s, e, timeout), timeout)
  {
    var st, st' := s.store, NextStore(s, e, timeout);
    match e
    case Lookup(id, fate) =>
      GetKeepsOrder(st, s.users, timeout, s.clock, id, fate);
    case OpenStream(newId, token, fate) =>
      CreateKeepsOrder(st, timeout, s.clock, newId, token, fate);
    case PostRequest(id, token, notification, fate) =>
      PostKeepsInv(s, id, token, notification, fate, timeout);
    case InitRequest(existing, newId, token, fate) =>
      InitKeepsInv(s, existing, newId, token, fate, timeout);
    case DeleteRequest(id, user, fate) =>
      DeleteKeepsInv(s, id, user, fate, timeout);
    case _ =>
      SameExpiriesKeepOrder(st, st', timeout, s.clock, Next(s, e, timeout).clock);
  }

  lemma PostKeepsInv(s: State, id: string, token: Token, notification: bool, fate: Fate, timeout: nat)
    requires Inv(s, timeout)
    ensures Inv(Next(s, PostRequest(id, token, notification, fate), timeout), timeout)
  {
    var st := Get(s.store, s.users, timeout, s.clock, id, fate).0;
    GetKeepsOrder(s.store, s.users, timeout, s.clock, id, fate);
    SameExpiriesKeepOrder(st, Next(s, PostRequest(id, token, notification, fate), timeout).store, timeout, s.clock, s.clock);
  }

  lemma DeleteKeepsInv(s: State, id: string, user: UserId, fate: Fate, timeout: nat)
    requires Inv(s, timeout)
    ensures Inv(Next(s, DeleteRequest(id, user, fate), timeout), timeout)
  {
    var st := Get(s.store, s.users, timeout, s.clock, id, fate).0;
    GetKeepsOrder(s.store, s.users, timeout, s.clock, id, fate);
    SameExpiriesKeepOrder(st, Next(s, DeleteRequest(id, user, fate), timeout).store, timeout, s.clock, s.clock);
  }

  lemma InitKeepsInv(s: State, existing: Option<string>, newId: string, token: Token, fate: Fate, timeout: nat)
    requires Inv(s, timeout) && Enabled(s, InitRequest(existing, newId, token, fate))
    ensures Inv(Next(s, InitRequest(existing, newId, token, fate), timeout), timeout)
  {
    var mid := if existing.Some? then Get(s.store, s.users, timeout, s.clock, existing.value, fate).0 else s.store;
    if existing.Some? {
      GetKeepsOrder(s.store, s.users, timeout, s.clock, existing.value, fate);
    }
    CreateKeepsOrder(mid, timeout, s.clock, newId, token, fate);
  }

  lemma {:induction false} RunKeepsInv(states: seq<State>, events: seq<Event>, timeout: nat, n: nat)
    requires Run(states, events, timeout) && n < |states|
    ensures Inv(states[n], timeout)
    decreases n
  {
    if n > 0 {
      RunKeepsInv(states, events, timeout, n - 1);
      StepKeepsInv(states[n - 1], events[n - 1], timeout);
      assert states[n - 1 + 1] == Next(states[n - 1], events[n - 1], timeout);
    }
  }

  // ---------- Dead sessions stay dead ----------

  /** Handed out once, and no table can bring it back. */
  ghost predicate Dead(s: State, id: string) {
    && id in s.used && id !in s.store.mem
    && (id in s.store.rows ==> s.store.rows[id].expiresAt < s.clock)
  }

  lemma DeadGet(s: State, id: string, other: string, fate: Fate, timeout: nat)
    requires Dead(s, id)
    ensures var (st', r) := Get(s.store, s.users, timeout, s.clock, other, fate);
      id !in st'.mem && (id in st'.rows ==> id in s.store.rows && st'.rows[id] == s.store.rows[id]) && (other == id ==> r.Err?)
  {
  }

  lemma StepKeepsDead(s: State, e: Event, id: string, timeout: nat)
    requires Dead(s, id) && Enabled(s, e)
    ensures Dead(Next(s, e, timeout), id)
  {
    match e
    case Lookup(other, fate) => DeadGet(s, id, other, fate, timeout);
    case PostRequest(other, _, _, fate) => DeadGet(s, id, other, fate, timeout);
    case DeleteRequest(other, _, fate) => DeadGet(s, id, other, fate, timeout);
    case InitRequest(existing, _, _, fate) =>
      if existing.Some? {
        DeadGet(s, id, existing.value, fate, timeout);
      }
    case _ =>
  }

  /** In any run, once a session is dead no later look-up returns it, whatever the database does. */
  lemma {:induction false} DeadStaysDead(states: seq<State>, events: seq<Event>, timeout: nat, i: nat, j: nat, id: string, fate: Fate)
    requires Run(states, events, timeout) && i <= j < |states|
    requires Dead(states[i], id)
    ensures Dead(states[j], id)
    ensures Get(states[j].store, states[j].users, timeout, states[j].clock, id, fate).1.Err?
    decreases j - i
  {
    if i < j {
      assert states[i + 1] == Next(states[i], events[i], timeout);
      StepKeepsDead(states[i], events[i], id, timeout);
      DeadStaysDead(states, events, timeout, i + 1, j, id, fate);
    } else {
      DeadGet(states[j], id, id, fate, timeout);
    }
  }

  /** The event looks the session up before anything else. */
  predicate LooksUp(e: Event, id: string) {
    match e
    case Lookup(other, _) => other == id
    case PostRequest(other, _, _, _) => other == id
    case DeleteRequest(other, _, _) => other == id
    case InitRequest(existing, _, _, _) => existing == Some(id)
    case _ => false
  }

  /**
   Evicting a session as expired, by a look-up or by the cleanup, kills it even when the
   database fails to delete its row: the row can only have expired earlier.
   */
  lemma EvictionKills(states: seq<State>, events: seq<Event>, timeout: nat, n: nat, id: string)
    requires Run(states, events, timeout) && n < |events|
    requires id in states[n].store.mem && states[n].store.mem[id].expiresAt < states[n].clock
    requires events[n].CleanupTick? || LooksUp(events[n], id)
    ensures Dead(states[n + 1], id)
  {
    RunKeepsInv(states, events, timeout, n);
    var s := states[n];
    assert states[n + 1] == Next(s, events[n], timeout);
    assert RowOk(s.store, id, timeout, s.clock);
  }

  /** Deleting a session kills it exactly when its row is deleted, was absent, or has expired. */
  lemma DeletionKills(s: State, id: string, user: UserId, fate: Fate, timeout: nat)
    requires Inv(s, timeout) && id in s.used
    requires Terminate(s.store, s.users, timeout, s.clock, id, user, fate).1 in {Failed, Gone}
    ensures Dead(Next(s, DeleteRequest(id, user, fate), timeout), id)
      <==> fate.delete || id !in s.store.rows || s.store.rows[id].expiresAt < s.clock
  {
  }

  /** Without deletion or restart, a session in memory lives on until its expiry passes, even after its row is gone. */
  lemma OnlyExpiryEvicts(s: State, e: Event, id: string, timeout: nat)
    requires Enabled(s, e) && id in s.store.mem && !e.Restart?
    requires s.clock <= s.store.mem[id].expiresAt
    requires e.DeleteRequest? ==> e.id != id
    ensures id in Next(s, e, timeout).store.mem
    ensures s.clock <= Next(s, e, timeout).store.mem[id].expiresAt
    ensures LooksUp(e, id) ==> Next(s, e, timeout).store.mem[id].expiresAt == s.clock + timeout
  {
  }

  // ---------- Who owns a session ----------

  /** Whatever either table holds under the id is this user's. */
  predicate OwnedBy(st: Store, id: string, user: UserId) {
    && (id in st.mem ==> st.mem[id].userId == user)
    && (id in st.rows ==> st.rows[id].userId == user)
  }

  lemma GetKeepsOwner(s: State, id: string, user: UserId, other: string, fate: Fate, timeout: nat)
    requires OwnedBy(s.store, id, user)
    ensures var (st', r) := Get(s.store, s.users, timeout, s.clock, other, fate);
      OwnedBy(st', id, user) && (other == id && r.Ok? ==> r.value.userId == user)
  {
  }

  /** No operation of any user moves a session that exists to another owner. */
  lemma StepKeepsOwner(s: State, e: Event, id: string, user: UserId, timeout: nat)
    requires Enabled(s, e) && id in s.used && OwnedBy(s.store, id, user)
    ensures OwnedBy(Next(s, e, timeout).store, id, user)
  {
    match e
    case Lookup(other, fate) => GetKeepsOwner(s, id, user, other, fate, timeout);
    case PostRequest(other, _, _, fate) => GetKeepsOwner(s, id, user, other, fate, timeout);
    case DeleteRequest(other, _, fate) => GetKeepsOwner(s, id, user, other, fate, timeout);
    case InitRequest(existing, _, _, fate) =>
      if existing.Some? {
        GetKeepsOwner(s, id, user, existing.value, fate, timeout);
      }
    case _ =>
  }

  /** The event hands out the id, to this user. */
  predicate HandsOutId(e: Event, id: string, user: UserId) {
    match e
    case OpenStream(newId, token, _) => newId == id && token.userId == user
    case InitRequest(_, newId, token, _) => newId == id && token.userId == user
    case _ => false
  }

  lemma CreatorOwns(s: State, e: Event, id: string, user: UserId, timeout: nat)
    requires Inv(s, timeout) && Enabled(s, e) && HandsOutId(e, id, user)
    ensures id in Next(s, e, timeout).used && OwnedBy(Next(s, e, timeout).store, id, user)
  {
    if e.InitRequest? && e.existing.Some? {
      GetKeepsOrder(s.store, s.users, timeout, s.clock, e.existing.value, e.fate);
    }
  }

  /** Only the owner gets past the ownership check of a request, a deletion and a reuse, and the owner always does. */
  lemma OnlyOwnerPasses(s: State, id: string, user: UserId, token: Token, notification: bool, newId: string, fate: Fate, timeout: nat)
    requires OwnedBy(s.store, id, user)
    ensures var found := Get(s.store, s.users, timeout, s.clock, id, fate).1.Ok?;
      var reply := Post(s.store, s.users, timeout, s.clock, id, token, notification, fate).1;
      var gone := Terminate(s.store, s.users, timeout, s.clock, id, token.userId, fate).1;
      var init := Initialize(s.store, s.users, timeout, s.clock, Some(id), newId, token, fate).1;
      && (reply == NoSession <==> !found) && (gone == Absent <==> !found)
      && (reply == Forbidden <==> found && token.userId != user)
      && (gone == NotOwner <==> found && token.userId != user)
      && (newId != id && init.Ok? ==> (init.value.0 == id <==> found && token.userId == user))
  {
    GetKeepsOwner(s, id, user, id, fate, timeout);
  }

  /** After a restart the row brings the session back, for its owner and nobody else. */
  lemma RestartKeepsOwner(s: State, id: string, user: UserId, token: Token, notification: bool, fate: Fate, timeout: nat)
    requires OwnedBy(s.store, id, user) && id in s.store.rows && s.clock <= s.store.rows[id].expiresAt && fate.read
    ensures var t := Next(s, Restart, timeout);
      var reply := Post(t.store, t.users, timeout, t.clock, id, token, notification, fate).1;
      && reply != NoSession
      && (reply == Forbidden <==> token.userId != user)
  {
  }

  // ---------- How long a session lasts ----------

  /** Created at this time: both tables say so, and the row expires one timeout later. */
  predicate BornAt(st: Store, id: string, at: Time, timeout: nat) {
    && (id in st.mem ==> st.mem[id].createdAt == at)
    && (id in st.rows ==> st.rows[id].createdAt == at && st.rows[id].expiresAt == at + timeout)
  }

  lemma GetKeepsBirth(s: State, id: string, at: Time, other: string, fate: Fate, timeout: nat)
    requires BornAt(s.store, id, at, timeout)
    ensures BornAt(Get(s.store, s.users, timeout, s.clock, other, fate).0, id, at, timeout)
  {
  }

  /** Uses renew the session in memory only: no operation ever moves its time of creation or its row's expiry. */
  lemma StepKeepsBirth(s: State, e: Event, id: string, at: Time, timeout: nat)
    requires Enabled(s, e) && id in s.used && BornAt(s.store, id, at, timeout)
    ensures BornAt(Next(s, e, timeout).store, id, at, timeout)
  {
    match e
    case Lookup(other, fate) => GetKeepsBirth(s, id, at, other, fate, timeout);
    case PostRequest(other, _, _, fate) => GetKeepsBirth(s, id, at, other, fate, timeout);
    case DeleteRequest(other, _, fate) => GetKeepsBirth(s, id, at, other, fate, timeout);
    case InitRequest(existing, _, _, fate) =>
      if existing.Some? {
        GetKeepsBirth(s, id, at, existing.value, fate, timeout);
      }
    case _ =>
  }

  lemma CreatedNow(s: State, e: Event, id: string, user: UserId, timeout: nat)
    requires Inv(s, timeout) && Enabled(s, e) && HandsOutId(e, id, user)
    ensures BornAt(Next(s, e, timeout).store, id, s.clock, timeout)
  {
    if e.InitRequest? && e.existing.Some? {
      GetKeepsOrder(s.store, s.users, timeout, s.clock, e.existing.value, e.fate);
    }
  }

  /**
   A session that is only in the database comes back exactly until one timeout after its
   creation, however often it was used, and with just the rest of that time to live.
   */
  lemma ReloadedExactly(s: State, id: string, at: Time, fate: Fate, timeout: nat)
    requires BornAt(s.store, id, at, timeout) && id !in s.store.mem && id in s.store.rows && fate.read
    ensures var found := Get(s.store, s.users, timeout, s.clock, id, fate).1;
      && (found.Ok? <==> s.clock <= at + timeout)
      && (found.Ok? ==> found.value.createdAt == at && found.value.expiresAt == at + timeout)
  {
  }

  /** A look-up that meets an expired session removes it from memory and, when the database lets it, its row. */
  lemma ForgetsExpired(s: State, id: string, fate: Fate, timeout: nat)
    requires if id in s.store.mem then s.store.mem[id].expiresAt < s.clock
             else fate.read && id in s.store.rows && s.store.rows[id].expiresAt < s.clock
    ensures var (st, found) := Get(s.store, s.users, timeout, s.clock, id, fate);
      && found == Err(NotFound) && id !in st.mem && (id in st.rows <==> id in s.store.rows && !fate.delete)
      && (forall other :: other != id ==> (other in st.mem <==> other in s.store.mem) && (other in st.rows <==> other in s.store.rows))
  {
  }

  /** A cleanup takes exactly what has expired: from memory always, from the database when it can. */
  lemma CleansExactly(s: State, fate: Fate, timeout: nat, id: string)
    ensures var st := Next(s, CleanupTick(fate), timeout).store;
      && (id in st.mem <==> id in s.store.mem && !(s.store.mem[id].expiresAt < s.clock))
      && (id in st.rows <==> id in s.store.rows && (fate.delete ==> !(s.store.rows[id].expiresAt < s.clock)))
      && (id in st.mem ==> st.mem[id] == s.store.mem[id]) && (id in st.rows ==> st.rows[id] == s.store.rows[id])
  {
  }

  // ---------- What a routed request may rely on ----------

  /**
   A request that is routed, in any state at all, gets an unexpired session of its caller with
   the token's role and, when the token repeats no group, the token's groups in some order.
   */
  lemma RoutedRequest(s: State, timeout: nat, id: string, token: Token, notification: bool, fate: Fate)
    requires Post(s.store, s.users, timeout, s.clock, id, token, notification, fate).1.Routed?
    ensures var (st', reply) := Post(s.store, s.users, timeout, s.clock, id, token, notification, fate);
      && id in st'.mem && st'.mem[id] == reply.session
      && s.clock <= reply.session.expiresAt
      && reply.session.userId == token.userId && reply.session.role == token.role
      && (Distinct(token.groups) ==> multiset(reply.session.groups) == multiset(token.groups))
      && !Dead(s, id)
  {
    var v := Post(s.store, s.users, timeout, s.clock, id, token, notification, fate).1.session;
    if Distinct(token.groups) {
      RecycleExact(v.role, v.groups, token.role, token.groups);
    }
    if Dead(s, id) {
      DeadGet(s, id, id, fate, timeout);
    }
  }

  /** A stale request leaves the session with empty tables and the token's identity, so that the same token is not refused again. */
  lemma RecycleSettles(s: State, id: string, token: Token, notification: bool, fate: Fate, fate': Fate, timeout: nat)
    requires Post(s.store, s.users, timeout, s.clock, id, token, notification, fate).1 == AskedToReinitialize
    ensures var st' := Post(s.store, s.users, timeout, s.clock, id, token, notification, fate).0;
      && id in st'.mem && st'.mem[id].tables == NO_TABLES
      && st'.mem[id].role == token.role && st'.mem[id].groups == token.groups
      && Post(st', s.users, timeout, s.clock, id, token, false, fate').1.Routed?
  {
    var (st', _) := Post(s.store, s.users, timeout, s.clock, id, token, notification, fate);
    PermutationNeverRecycles(token.role, token.groups, token.groups);
  }

  /** A look-up would find the session, unexpired in memory or by reloading its row. */
  predicate Findable(s: State, id: string, fate: Fate) {
    if id in s.store.mem then s.clock <= s.store.mem[id].expiresAt
    else fate.read && id in s.store.rows && s.clock <= s.store.rows[id].expiresAt
  }

  /** And it would be this user's. */
  predicate Reusable(s: State, id: string, user: UserId, fate: Fate) {
    && Findable(s, id, fate)
    && user == if id in s.store.mem then s.store.mem[id].userId else s.store.rows[id].userId
  }

  /** The identity kept in memory, else the user's current one, else the default. */
  function StoredIdentity(s: State, id: string, fate: Fate): Identity
    requires id in s.store.mem || id in s.store.rows
  {
    if id in s.store.mem then Identity(s.store.mem[id].role, s.store.mem[id].groups)
    else if fate.readUser && s.store.rows[id].userId in s.users then s.users[s.store.rows[id].userId]
    else Identity("user", [])
  }

  /**
   `initialize` does not compare identities. A session it reuses keeps its stored identity, so
   the session passes for the token's exactly when none is reused or the stored identity does.
   */
  lemma InitializeIdentity(s: State, existing: Option<string>, newId: string, token: Token, fate: Fate, timeout: nat)
    requires Enabled(s, InitRequest(existing, newId, token, fate)) && Inv(s, timeout)
    requires Initialize(s.store, s.users, timeout, s.clock, existing, newId, token, fate).1.Ok?
    ensures var (id, v) := Initialize(s.store, s.users, timeout, s.clock, existing, newId, token, fate).1.value;
      var reused := existing.Some? && Reusable(s, existing.value, token.userId, fate);
      && v.userId == token.userId && s.clock <= v.expiresAt
      && id == (if reused then existing.value else newId)
      && (reused ==> Identity(v.role, v.groups) == StoredIdentity(s, existing.value, fate))
      && (!reused ==> Identity(v.role, v.groups) == Identity(token.role, token.groups) && v.tables == NO_TABLES)
      && (!NeedsRecycle(v.role, v.groups, token.role, token.groups) <==>
          !reused || var own := StoredIdentity(s, existing.value, fate); !NeedsRecycle(own.role, own.groups, token.role, token.groups))
  {
    PermutationNeverRecycles(token.role, token.groups, token.groups);
  }

  /** Every answer to a request, by the fields of the stored session and of the token. */
  lemma RepliesExactly(s: State, id: string, token: Token, notification: bool, fate: Fate, timeout: nat)
    ensures var reply := Post(s.store, s.users, timeout, s.clock, id, token, notification, fate).1;
      if !Findable(s, id, fate) then reply == NoSession
      else if !Reusable(s, id, token.userId, fate) then reply == Forbidden
      else
        var own := StoredIdentity(s, id, fate);
        if own.role == token.role && |own.groups| == |token.groups| && (forall g :: g in token.groups ==> g in own.groups)
        then if notification then reply == Accepted else reply.Routed?
        else reply == AskedToReinitialize
  {
  }

  /** Every answer to a deletion, and what is left: nothing in memory, and the row only when it could not be deleted. */
  lemma DeletesExactly(s: State, id: string, user: UserId, fate: Fate, timeout: nat)
    ensures var (st, reply) := Terminate(s.store, s.users, timeout, s.clock, id, user, fate);
      && (reply == Absent <==> !Findable(s, id, fate))
      && (reply == NotOwner <==> Findable(s, id, fate) && !Reusable(s, id, user, fate))
      && (reply == Gone <==> Reusable(s, id, user, fate) && fate.delete && id in s.store.rows)
      && (Reusable(s, id, user, fate) ==> id !in st.mem && (id in st.rows <==> id in s.store.rows && !fate.delete))
  {
  }

  /** A user opens a session as an administrator, loses the role, and initialises it again: it is still an administrator's. */
  lemma StaleIdentityReused(timeout: nat)
    ensures var ok := Fate(true, true, true, true);
      var s0 := State(Store(map[], map[]), map[], {}, 0);
      var open := OpenStream("s", Token(1, "admin", []), ok);
      var s1 := Next(s0, open, timeout);
      var token := Token(1, "user", []);
      var again := InitRequest(Some("s"), "t", token, ok);
      && Run([s0, s1, Next(s1, again, timeout)], [open, again], timeout)
      && var r := Initialize(s1.store, s1.users, timeout, s1.clock, Some("s"), "t", token, ok).1;
         r.Ok? && r.value.0 == "s" && r.value.1.role == "admin"
  {
    assert "t" != "s";
  }
}
