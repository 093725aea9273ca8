/**
 The pool of STDIO processes: at most one process per subject key and a bound on their
 number, with a periodic collection of dead and idle processes. Times are nanoseconds; a
 process remembers its last use in whole seconds.
 */
module Pool {
  import opened Wrappers
  import opened Iteration

  type Time = int
  type Key = string

  const SECOND: Time := 1_000_000_000

  /** `used` is the exact time of the last use, of which the code keeps only the seconds. */
  datatype Proc = Proc(id: nat, alive: bool, used: Time)
  {
    function LastUsed(): Time {
      used / SECOND * SECOND
    }
  }

  /** `closed` and `spawned` record which processes were ever closed and how many were started. */
  datatype PoolState = PoolState(procs: map<Key, Proc>, closed: set<nat>, spawned: nat)

  datatype Error = Full | StartFailed

  function DropDead(procs: map<Key, Proc>, key: Key): map<Key, Proc> {
    if key in procs && !procs[key].alive then procs - {key} else procs
  }

  function GetOrCreate(p: PoolState, key: Key, now: Time, max: nat, startOk: bool): (PoolState, Result<nat, Error>) {
    if key in p.procs && p.procs[key].alive then (p, Ok(p.procs[key].id))
    else
      var procs := DropDead(p.procs, key);
      if |procs| >= max then (p.(procs := procs), Err(Full))
      else if !startOk then (p.(procs := procs), Err(StartFailed))
      else (p.(procs := procs[key := Proc(p.spawned, true, now)], spawned := p.spawned + 1), Ok(p.spawned))
  }

  predicate Idle(q: Proc, ttl: Time, now: Time) {
    ttl < now - q.LastUsed()
  }

  /** A dead process is dropped, a live idle one is closed and dropped, and every other one stays. */
  function GcStep(p: PoolState, key: Key, ttl: Time, now: Time): PoolState {
    if key !in p.procs then p
    else if !p.procs[key].alive then p.(procs := p.procs - {key})
    else if Idle(p.procs[key], ttl, now) then p.(procs := p.procs - {key}, closed := p.closed + {p.procs[key].id})
    else p
  }

  function GcEach(p: PoolState, order: seq<Key>, ttl: Time, now: Time): PoolState
    decreases |order|
  {
    if order == [] then p else GcEach(GcStep(p, order[0], ttl, now), order[1..], ttl, now)
  }

  predicate Kept(q: Proc, ttl: Time, now: Time) {
    q.alive && !Idle(q, ttl, now)
  }

  /** The collection in no order at all. */
  function GcAll(p: PoolState, ttl: Time, now: Time): PoolState {
    PoolState(
      map k | k in p.procs && Kept(p.procs[k], ttl, now) :: p.procs[k],
      p.closed + set k | k in p.procs && p.procs[k].alive && Idle(p.procs[k], ttl, now) :: p.procs[k].id,
      p.spawned)
  }

  lemma {:induction false} GcEachResult(p: PoolState, order: seq<Key>, ttl: Time, now: Time)
    requires Distinct(order)
    ensures var r := GcEach(p, order, ttl, now);
      && r.procs == (map k | k in p.procs && (k in order ==> Kept(p.procs[k], ttl, now)) :: p.procs[k])
      && r.closed == p.closed + (set k | k in order && k in p.procs && p.procs[k].alive && Idle(p.procs[k], ttl, now) :: p.procs[k].id)
      && r.spawned == p.spawned
    decreases |order|
  {
    if order != [] {
      var p1 := GcStep(p, order[0], ttl, now);
      GcEachResult(p1, order[1..], ttl, now);
      assert forall k :: k in order <==> k == order[0] || k in order[1..];
      assert order[0] !in order[1..];
      assert forall k :: k in order[1..] && k in p.procs ==> k in p1.procs && p1.procs[k] == p.procs[k];
    }
  }

  /** The loop over the map collects the same processes in whatever order it meets them. */
  lemma GcAnyOrder(p: PoolState, order: seq<Key>, ttl: Time, now: Time)
    requires Visits(order, p.procs.Keys)
    ensures GcEach(p, order, ttl, now) == GcAll(p, ttl, now)
  {
    GcEachResult(p, order, ttl, now);
    assert forall k :: k in order <==> k in p.procs;
  }

  // ---------- The code ----------

  class Manager {
    var processes: map<Key, Proc>
    var closed: set<nat>
    var spawned: nat
    const idleTtl: nat
    const maxProcesses: nat

    constructor (idleTtl: nat, maxProcesses: nat)
      ensures Current() == PoolState(map[], {}, 0) && this.idleTtl == idleTtl && this.maxProcesses == maxProcesses
    {
      processes, closed, spawned := map[], {}, 0;
      this.idleTtl, this.maxProcesses := idleTtl, maxProcesses;
    }

    function Current(): PoolState
      reads this
    {
      PoolState(processes, closed, spawned)
    }

    method GetOrCreateProcess(key: Key, now: Time, startOk: bool) returns (r: Result<nat, Error>)
      modifies this
      ensures (Current(), r) == GetOrCreate(old(Current()), key, now, maxProcesses, startOk)
    {
      if key in processes {
        if processes[key].alive {
          return Ok(processes[key].id);
        }
        processes := processes - {key};
      }
      if |processes| >= maxProcesses {
        return Err(Full);
      }
      if !startOk {
        return Err(StartFailed);
      }
      var proc := Proc(spawned, true, now);
      spawned := spawned + 1;
      processes := processes[key := proc];
      return Ok(proc.id);
    }

    method GcOne(key: Key, now: Time)
      modifies this
      ensures Current() == GcStep(old(Current()), key, idleTtl, now)
    {
      if key in processes {
        var proc := processes[key];
        if !proc.alive {
          processes := processes - {key};
          return;
        }
        var idleFor := now - proc.LastUsed();
        if idleFor > idleTtl {
          closed := closed + {proc.id};
          processes := processes - {key};
        }
      }
    }

    method Gc(now: Time)
      modifies this
      ensures Current() == GcAll(old(Current()), idleTtl, now)
    {
      ghost var start := Current();
      var order := AnyOrder(processes.Keys);
      GcAnyOrder(start, order, idleTtl, now);
      for i := 0 to |order|
        invariant GcEach(Current(), order[i..], idleTtl, now) == GcAll(start, idleTtl, now)
      {
        assert order[i..][0] == order[i] && order[i..][1..] == order[i + 1..];
        GcOne(order[i], now);
      }
      assert order[|order|..] == [];
    }

    method StopOne(key: Key)
      requires key in processes
      modifies this
      ensures processes == old(processes) - {key} && spawned == old(spawned)
      ensures closed + IdsOf(processes) == old(closed) + IdsOf(old(processes))
    {
      IdsSplit(processes, key);
      closed := closed + {processes[key].id};
      processes := processes - {key};
    }

    method Shutdown()
      modifies this
      ensures processes == map[] && spawned == old(spawned)
      ensures closed == old(closed) + IdsOf(old(processes))
    {
      ghost var all := closed + IdsOf(processes);
      var order := AnyOrder(processes.Keys);
      var i := 0;
      while i < |order|
        invariant 0 <= i <= |order| && Visits(order[i..], processes.Keys)
        invariant closed + IdsOf(processes) == all
        invariant spawned == old(spawned)
      {
        VisitsRest(order[i..], processes.Keys);
        assert order[i..][1..] == order[i + 1..];
        StopOne(order[i]);
        i := i + 1;
      }
      VisitsNothing(order[i..], processes.Keys);
    }
  }

  function IdsOf(procs: map<Key, Proc>): set<nat> {
    set k | k in procs :: procs[k].id
  }

  lemma IdsSplit(procs: map<Key, Proc>, key: Key)
    requires key in procs
    ensures IdsOf(procs) == {procs[key].id} + IdsOf(procs - {key})
  {
    assert forall k :: k in procs ==> k == key || (k in procs - {key} && (procs - {key})[k] == procs[k]);
  }

  // ---------- Runs ----------

  datatype State = State(pool: PoolState, clock: Time, lastTick: Time)

  datatype Config = Config(ttl: nat, max: nat, interval: nat)

  datatype Event =
    | Advance(ticks: nat)
    | Request(key: Key, startOk: bool)
    | Use(key: Key)
    | Die(key: Key)
    | Tick
    | Stop

  /** Processes are used and die at any time; the clock never passes the next collection. */
  predicate Enabled(cfg: Config, s: State, e: Event) {
    match e
    case Advance(d) => s.clock + d - s.lastTick <= cfg.interval
    case Use(key) => key in s.pool.procs
    case Die(key) => key in s.pool.procs
    case _ => true
  }

  function Next(cfg: Config, s: State, e: Event): State
    requires Enabled(cfg, s, e)
  {
    match e
    case Advance(d) => s.(clock := s.clock + d)
    case Request(key, startOk) => s.(pool := GetOrCreate(s.pool, key, s.clock, cfg.max, startOk).0)
    case Use(key) => s.(pool := s.pool.(procs := s.pool.procs[key := s.pool.procs[key].(used := s.clock)]))
    case Die(key) => s.(pool := s.pool.(procs := s.pool.procs[key := s.pool.procs[key].(alive := false)]))
    case Tick => s.(pool := GcAll(s.pool, cfg.ttl, s.clock), lastTick := s.clock)
    case Stop => s.(pool := s.pool.(procs := map[], closed := s.pool.closed + IdsOf(s.pool.procs)))
  }

  ghost predicate Run(cfg: Config, states: seq<State>, events: seq<Event>) {
    && |states| == |events| + 1
    && states[0].pool == PoolState(map[], {}, 0) && states[0].lastTick == states[0].clock
    && forall i :: 0 <= i < |events| ==> Enabled(cfg, states[i], events[i]) && states[i + 1] == Next(cfg, states[i], events[i])
  }

  /** Used no later than now, and too recently for the last collection to have taken it. */
  predicate ProcOk(cfg: Config, s: State, q: Proc) {
    && q.used <= s.clock && s.lastTick <= q.used + cfg.ttl
    && q.id < s.pool.spawned && q.id !in s.pool.closed
  }

  ghost predicate Inv(cfg: Config, s: State) {
    && s.lastTick <= s.clock <= s.lastTick + cfg.interval
    && |s.pool.procs| <= cfg.max
    && (forall c :: c in s.pool.closed ==> c < s.pool.spawned)
    && (forall k :: k in s.pool.procs ==> ProcOk(cfg, s, s.pool.procs[k]))
    && (forall j, k :: j in s.pool.procs && k in s.pool.procs && s.pool.procs[j].id == s.pool.procs[k].id ==> j == k)
  }

  lemma Truncation(used: Time)
    ensures used - SECOND < used / SECOND * SECOND <= used
  {
  }

  lemma SubmapSize(a: map<Key, Proc>, b: map<Key, Proc>)
    requires a.Keys <= b.Keys
    ensures |a| <= |b|
  {
    assert b.Keys == a.Keys + (b.Keys - a.Keys);
    assert |a.Keys + (b.Keys - a.Keys)| == |a.Keys| + |b.Keys - a.Keys|;
  }

  /** Dropping entries keeps the invariant. */
  lemma FewerKeepInv(cfg: Config, s: State, procs: map<Key, Proc>)
    requires Inv(cfg, s)
    requires forall k :: k in procs ==> k in s.pool.procs && procs[k] == s.pool.procs[k]
    ensures Inv(cfg, s.(pool := s.pool.(procs := procs)))
  {
    var s' := s.(pool := s.pool.(procs := procs));
    SubmapSize(procs, s.pool.procs);
    forall k | k in procs ensures ProcOk(cfg, s', procs[k]) {
      assert ProcOk(cfg, s, s.pool.procs[k]);
    }
  }

  lemma StartKeepsInv(cfg: Config, s: State, key: Key)
    requires Inv(cfg, s) && key !in s.pool.procs && |s.pool.procs| < cfg.max
    ensures Inv(cfg, s.(pool := s.pool.(procs := s.pool.procs[key := Proc(s.pool.spawned, true, s.clock)], spawned := s.pool.spawned + 1)))
  {
    var procs := s.pool.procs[key := Proc(s.pool.spawned, true, s.clock)];
    var s' := s.(pool := s.pool.(procs := procs, spawned := s.pool.spawned + 1));
    assert forall k :: k in s.pool.procs ==> ProcOk(cfg, s, s.pool.procs[k]);
    forall k | k in procs ensures ProcOk(cfg, s', procs[k]) {
      assert k != key ==> ProcOk(cfg, s, s.pool.procs[k]);
    }
  }

  lemma RequestKeepsInv(cfg: Config, s: State, key: Key, startOk: bool)
    requires Inv(cfg, s)
    ensures Inv(cfg, Next(cfg, s, Request(key, startOk)))
  {
    var procs := DropDead(s.pool.procs, key);
    var s1 := s.(pool := s.pool.(procs := procs));
    FewerKeepInv(cfg, s, procs);
    if key !in procs && |procs| < cfg.max {
      StartKeepsInv(cfg, s1, key);
    }
  }

  lemma TickKeepsInv(cfg: Config, s: State)
    requires Inv(cfg, s)
    ensures Inv(cfg, Next(cfg, s, Tick))
  {
    var s' := Next(cfg, s, Tick);
    SubmapSize(s'.pool.procs, s.pool.procs);
    forall k | k in s'.pool.procs ensures ProcOk(cfg, s', s'.pool.procs[k]) {
      assert ProcOk(cfg, s, s.pool.procs[k]);
      Truncation(s.pool.procs[k].used);
    }
    forall c | c in s'.pool.closed ensures c < s'.pool.spawned {
      if c !in s.pool.closed {
        var j :| j in s.pool.procs && s.pool.procs[j].id == c;
        assert ProcOk(cfg, s, s.pool.procs[j]);
      }
    }
  }

  lemma StepKeepsInv(cfg: Config, s: State, e: Event)
    requires Inv(cfg, s) && Enabled(cfg, s, e)
    ensures Inv(cfg, Next(cfg, s, e))
  {
    match e
    case Request(key, startOk) => RequestKeepsInv(cfg, s, key, startOk);
    case Tick => TickKeepsInv(cfg, s);
    case _ => OtherKeepsInv(cfg, s, e);
  }

  lemma OtherKeepsInv(cfg: Config, s: State, e: Event)
    requires Inv(cfg, s) && Enabled(cfg, s, e) && !e.Request? && !e.Tick?
    ensures Inv(cfg, Next(cfg, s, e))
  {
    var s' := Next(cfg, s, e);
    forall k | k in s'.pool.procs ensures ProcOk(cfg, s', s'.pool.procs[k]) {
      assert ProcOk(cfg, s, s.pool.procs[k]);
    }
    SubmapSize(s'.pool.procs, s.pool.procs);
    forall c | c in s'.pool.closed ensures c < s'.pool.spawned {
      if c !in s.pool.closed {
        var j :| j in s.pool.procs && s.pool.procs[j].id == c;
        assert ProcOk(cfg, s, s.pool.procs[j]);
      }
    }
  }

  lemma {:induction false} RunKeepsInv(cfg: Config, states: seq<State>, events: seq<Event>, n: nat)
    requires Run(cfg, states, events) && n < |states|
    ensures Inv(cfg, states[n])
    decreases n
  {
    if n > 0 {
      RunKeepsInv(cfg, states, events, n - 1);
      StepKeepsInv(cfg, states[n - 1], events[n - 1]);
      assert states[n - 1 + 1] == Next(cfg, states[n - 1], events[n - 1]);
    }
  }

  /**
   In every reachable state the pool holds at most `max` processes, each under one key only
   and never a closed one, and none that has been idle for longer than the idle time plus one
   collection interval.
   */
  lemma Capacity(cfg: Config, states: seq<State>, events: seq<Event>, n: nat)
    requires Run(cfg, states, events) && n < |states|
    ensures var s := states[n];
      && |s.pool.procs| <= cfg.max
      && (forall j, k :: j in s.pool.procs && k in s.pool.procs && s.pool.procs[j].id == s.pool.procs[k].id ==> j == k)
      && (forall k :: k in s.pool.procs ==> s.pool.procs[k].id !in s.pool.closed && s.clock <= s.pool.procs[k].used + cfg.ttl + cfg.interval)
  {
    RunKeepsInv(cfg, states, events, n);
    var s := states[n];
    forall k | k in s.pool.procs ensures s.pool.procs[k].id !in s.pool.closed && s.clock <= s.pool.procs[k].used + cfg.ttl + cfg.interval {
      assert ProcOk(cfg, s, s.pool.procs[k]);
    }
  }

  /** A process leaves the map, or gives its key up to another, only if it was dead or is now closed. */
  lemma LeavesOnlyDeadOrClosed(cfg: Config, states: seq<State>, events: seq<Event>, n: nat, key: Key)
    requires Run(cfg, states, events) && n < |events|
    requires key in states[n].pool.procs
    requires key in states[n + 1].pool.procs ==> states[n + 1].pool.procs[key].id != states[n].pool.procs[key].id
    ensures !states[n].pool.procs[key].alive || states[n].pool.procs[key].id in states[n + 1].pool.closed
  {
    assert states[n + 1] == Next(cfg, states[n], events[n]);
  }

  /**
   A collection takes a live process exactly when its idle time, measured from the start of
   the second of its last use, exceeds the limit; so never until one second before the limit
   has passed since the use itself, whatever the age of the process.
   */
  lemma IdleCollection(cfg: Config, s: State, key: Key)
    requires Inv(cfg, s) && key in s.pool.procs && s.pool.procs[key].alive
    ensures var q := s.pool.procs[key];
      && (key !in Next(cfg, s, Tick).pool.procs <==> cfg.ttl < s.clock - q.used / SECOND * SECOND)
      && (q.id in Next(cfg, s, Tick).pool.closed <==> key !in Next(cfg, s, Tick).pool.procs)
      && (s.clock <= q.used + cfg.ttl - SECOND ==> key in Next(cfg, s, Tick).pool.procs && Next(cfg, s, Tick).pool.procs[key] == q)
  {
    var q := s.pool.procs[key];
    Truncation(q.used);
    assert ProcOk(cfg, s, q);
  }

  /** Being full never locks out a key whose process is alive, and a free place or a dead holder is always used. */
  lemma RequestOutcome(cfg: Config, s: State, key: Key, startOk: bool)
    requires Inv(cfg, s)
    ensures var r := GetOrCreate(s.pool, key, s.clock, cfg.max, startOk).1;
      && (key in s.pool.procs && s.pool.procs[key].alive ==> r == Ok(s.pool.procs[key].id))
      && (key in s.pool.procs && !s.pool.procs[key].alive ==> r == if startOk then Ok(s.pool.spawned) else Err(StartFailed))
      && (key !in s.pool.procs ==>
            r == if |s.pool.procs| == cfg.max then Err(Full) else if startOk then Ok(s.pool.spawned) else Err(StartFailed))
  {
    if key in s.pool.procs {
      assert s.pool.procs.Keys == (s.pool.procs - {key}).Keys + {key};
    }
  }

  /**
   What a request leaves: a live process under the key, which is the one it returned, or after
   a failure none at all; the other keys keep theirs, and nothing is closed.
   */
  lemma RequestServes(p: PoolState, key: Key, now: Time, max: nat, startOk: bool)
    ensures var (p', r) := GetOrCreate(p, key, now, max, startOk);
      && (r.Ok? ==> key in p'.procs && p'.procs[key].alive && p'.procs[key].id == r.value)
      && (r.Err? ==> key !in p'.procs && p'.spawned == p.spawned)
      && (forall k :: k != key ==> (k in p'.procs <==> k in p.procs) && (k in p.procs ==> p'.procs[k] == p.procs[k]))
      && p'.closed == p.closed
  {
  }

  /** As long as its process lives, a key gets that same process on every further request, and nothing is started. */
  lemma SameProcessAgain(p: PoolState, key: Key, now: Time, later: Time, max: nat, startOk: bool, startOk': bool)
    requires GetOrCreate(p, key, now, max, startOk).1.Ok?
    ensures var (p', r) := GetOrCreate(p, key, now, max, startOk); GetOrCreate(p', key, later, max, startOk') == (p', r)
  {
  }
}
