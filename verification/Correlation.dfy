/**
 Requests and responses over one unordered stream. Many callers register a one-slot
 channel under their request's ID; one reader routes each response to the channel
 registered under the response's ID. The STDIO process and the SSE client share this
 protocol. A step is one lock-protected region or one channel operation.
 */
module Correlation {
  import opened Wrappers
  import opened Text

  /** A call and the channel it makes share one name: every call makes a fresh channel. */
  type CallId = nat

  datatype Response = Response(id: string, payload: int)

  /** A one-slot channel: what it holds now, and everything ever sent on it. */
  datatype Chan = Chan(slot: Option<Response>, sent: seq<Response>)

  /** What the lock protects. */
  datatype Table = Table(pending: map<string, CallId>, chans: map<CallId, Chan>)

  const EMPTY := Table(map[], map[])

  function Insert(t: Table, id: string, c: CallId): Table {
    Table(t.pending[id := c], t.chans[c := Chan(None, [])])
  }

  function Remove(t: Table, id: string): Table {
    t.(pending := t.pending - {id})
  }

  /** The reader's send would wait for a free slot while it holds the lock. */
  predicate WouldBlock(t: Table, id: string) {
    id in t.pending && !(t.pending[id] in t.chans && t.chans[t.pending[id]].slot == None)
  }

  function Route(t: Table, resp: Response): Table
    requires !WouldBlock(t, resp.id)
  {
    if resp.id in t.pending then
      var c := t.pending[resp.id];
      Table(t.pending - {resp.id}, t.chans[c := Chan(Some(resp), t.chans[c].sent + [resp])])
    else t
  }

  // ---------- Request IDs ----------

  const TWO_TO_64 := 0x1_0000_0000_0000_0000

  /** The value of an `int64` counter after `k` increments from zero. */
  function Wrap64(k: int): int {
    (k + 0x8000_0000_0000_0000) % TWO_TO_64 - 0x8000_0000_0000_0000
  }

  /** The ID that the `k`-th allocation gives. */
  function AllocatedId(k: nat): string {
    SignedDecimal(Wrap64(k))
  }

  lemma WrapsClash(j: int, k: int)
    ensures Wrap64(j) == Wrap64(k) <==> (j - k) % TWO_TO_64 == 0
  {
  }

  /** Two allocations give the same ID exactly when they are a multiple of 2^64 apart. */
  lemma AllocatedIdsClash(j: nat, k: nat)
    ensures AllocatedId(j) == AllocatedId(k) <==> (j - k) % TWO_TO_64 == 0
  {
    if AllocatedId(j) == AllocatedId(k) {
      SignedDecimalInjective(Wrap64(j), Wrap64(k));
    }
    WrapsClash(j, k);
  }

  // ---------- The code of one process ----------

  /** What the reader finds on one line of standard output. */
  datatype Line = Blank | Malformed | NoId | Reply(resp: Response)

  /** Every registered channel is free, and no channel is registered twice. */
  ghost predicate Ready(t: Table) {
    && (forall id :: id in t.pending ==> !WouldBlock(t, id))
    && (forall i, j :: i in t.pending && j in t.pending && t.pending[i] == t.pending[j] ==> i == j)
  }

  lemma RouteKeepsReady(t: Table, resp: Response)
    requires Ready(t)
    ensures Ready(Route(t, resp))
  {
    var t' := Route(t, resp);
    forall id | id in t'.pending ensures !WouldBlock(t', id) {
      assert !WouldBlock(t, id);
    }
  }

  /** The table after the reader has handled some lines with no other step between them. */
  ghost function RouteAll(t: Table, lines: seq<Line>): Table
    requires Ready(t)
    decreases |lines|
  {
    if lines == [] then t
    else if lines[0].Reply? then
      RouteKeepsReady(t, lines[0].resp);
      RouteAll(Route(t, lines[0].resp), lines[1..])
    else RouteAll(t, lines[1..])
  }

  /** The line at `k` is the first response that bears the ID. */
  predicate FirstBears(lines: seq<Line>, id: string, k: int) {
    && 0 <= k < |lines| && lines[k].Reply? && lines[k].resp.id == id
    && forall j :: 0 <= j < k && lines[j].Reply? ==> lines[j].resp.id != id
  }

  predicate NoneBears(lines: seq<Line>, id: string) {
    forall j :: 0 <= j < |lines| && lines[j].Reply? ==> lines[j].resp.id != id
  }

  /** A registered ID is gone just when some line bears it, and then its channel holds the first such response. */
  ghost predicate Served(t: Table, t': Table, lines: seq<Line>, id: string)
    requires Ready(t)
  {
    id in t.pending ==>
      assert !WouldBlock(t, id);
      var c := t.pending[id];
      && c in t'.chans
      && (forall k :: FirstBears(lines, id, k) ==>
            id !in t'.pending && t'.chans[c] == Chan(Some(lines[k].resp), t.chans[c].sent + [lines[k].resp]))
      && (NoneBears(lines, id) ==> id in t'.pending && t'.pending[id] == c && t'.chans[c] == t.chans[c])
  }

  /** Nothing else changes: no ID is registered, and the channels of no registered ID stay as they are. */
  ghost predicate OthersKept(t: Table, t': Table) {
    && (forall id :: id in t'.pending ==> id in t.pending && t'.pending[id] == t.pending[id])
    && t'.chans.Keys == t.chans.Keys
    && forall c :: c in t.chans && (forall id :: id in t.pending ==> t.pending[id] != c) ==> t'.chans[c] == t.chans[c]
  }

  lemma {:induction false} RouteAllServes(t: Table, lines: seq<Line>, id: string)
    requires Ready(t)
    ensures Served(t, RouteAll(t, lines), lines, id)
    decreases |lines|
  {
    if lines != [] && id in t.pending {
      assert !WouldBlock(t, id);
      var first, rest := lines[0], lines[1..];
      if first.Reply? {
        RouteKeepsReady(t, first.resp);
      }
      if first.Reply? && first.resp.id == id {
        RouteAllForgets(Route(t, first.resp), rest, t.pending[id]);
        assert forall k :: FirstBears(lines, id, k) ==> k == 0;
      } else {
        RouteAllServes(if first.Reply? then Route(t, first.resp) else t, rest, id);
        BearsLater(lines, id);
      }
    }
  }

  lemma BearsLater(lines: seq<Line>, id: string)
    requires lines != [] && !(lines[0].Reply? && lines[0].resp.id == id)
    ensures forall k :: FirstBears(lines, id, k) ==> FirstBears(lines[1..], id, k - 1) && lines[1..][k - 1] == lines[k]
    ensures NoneBears(lines, id) ==> NoneBears(lines[1..], id)
  {
    var rest := lines[1..];
    assert forall j :: 0 <= j < |rest| ==> rest[j] == lines[j + 1];
  }

  /** A channel that is not registered is left alone. */
  lemma {:induction false} RouteAllForgets(t: Table, lines: seq<Line>, c: CallId)
    requires Ready(t) && c in t.chans && forall id :: id in t.pending ==> t.pending[id] != c
    ensures var t' := RouteAll(t, lines); c in t'.chans && t'.chans[c] == t.chans[c]
    ensures forall id :: id in RouteAll(t, lines).pending ==> RouteAll(t, lines).pending[id] != c
    ensures forall id :: id !in t.pending ==> id !in RouteAll(t, lines).pending
    decreases |lines|
  {
    if lines != [] {
      if lines[0].Reply? {
        RouteKeepsReady(t, lines[0].resp);
        RouteAllForgets(Route(t, lines[0].resp), lines[1..], c);
      } else {
        RouteAllForgets(t, lines[1..], c);
      }
    }
  }

  lemma {:induction false} RouteAllKeepsOthers(t: Table, lines: seq<Line>)
    requires Ready(t)
    ensures OthersKept(t, RouteAll(t, lines))
    decreases |lines|
  {
    if lines != [] {
      if lines[0].Reply? {
        RouteKeepsReady(t, lines[0].resp);
        assert lines[0].resp.id in t.pending ==> !WouldBlock(t, lines[0].resp.id);
        RouteAllKeepsOthers(Route(t, lines[0].resp), lines[1..]);
      } else {
        RouteAllKeepsOthers(t, lines[1..]);
      }
    }
  }

  class Process {
    var nextId: int
    var table: Table
    var done: bool
    ghost var allocs: nat

    ghost predicate Valid()
      reads this
    {
      nextId == Wrap64(allocs)
    }

    constructor ()
      ensures Valid() && table == EMPTY && !done && allocs == 0
    {
      nextId, table, done, allocs := 0, EMPTY, false, 0;
    }

    method AllocId() returns (id: string)
      requires Valid()
      modifies this`nextId, this`allocs
      ensures Valid() && allocs == old(allocs) + 1
      ensures id == AllocatedId(allocs)
    {
      nextId := if nextId == 0x7fff_ffff_ffff_ffff then -0x8000_0000_0000_0000 else nextId + 1;
      allocs := allocs + 1;
      id := SignedDecimal(nextId);
    }

    method Register(id: string, c: CallId)
      modifies this`table
      ensures table == Insert(old(table), id, c)
    {
      var ch := Chan(None, []);
      table := table.(chans := table.chans[c := ch]);
      table := table.(pending := table.pending[id := c]);
    }

    method Unregister(id: string)
      modifies this`table
      ensures table == Remove(old(table), id)
    {
      table := table.(pending := map k | k in table.pending && k != id :: table.pending[k]);
    }

    /** The reader goroutine, to the end of the stream. */
    method ReadLoop(lines: seq<Line>)
      requires Ready(table)
      modifies this`table, this`done
      ensures table == RouteAll(old(table), lines)
      ensures forall id :: Served(old(table), table, lines, id)
      ensures OthersKept(old(table), table)
      ensures done
    {
      var i := 0;
      while i < |lines|
        invariant 0 <= i <= |lines| && Ready(table)
        invariant RouteAll(table, lines[i..]) == RouteAll(old(table), lines)
      {
        assert lines[i..][0] == lines[i] && lines[i..][1..] == lines[i + 1..];
        if lines[i].Reply? {
          var resp := lines[i].resp;
          RouteKeepsReady(table, resp);
          if resp.id in table.pending {
            var c := table.pending[resp.id];
            assert !WouldBlock(table, resp.id);
            var ch := table.chans[c];
            table := Table(table.pending - {resp.id}, table.chans[c := Chan(Some(resp), ch.sent + [resp])]);
          }
        }
        i := i + 1;
      }
      assert lines[i..] == [];
      done := true;
      forall id ensures Served(old(table), table, lines, id) {
        RouteAllServes(old(table), lines, id);
      }
      RouteAllKeepsOthers(old(table), lines);
    }
  }

  // ---------- The protocol ----------

  datatype Reason = WriteFailed | Exited | Cancelled | TimedOut

  datatype Outcome = Answer(resp: Response) | Failure(reason: Reason)

  datatype Phase = Allocated | Registered | Waiting | Leaving(outcome: Outcome) | Returned(outcome: Outcome)

  /** `serial` counts the allocation an ID came from; a forwarded request brings its own ID. */
  datatype Call = Call(id: string, serial: Option<nat>, phase: Phase)

  datatype State = State(allocs: nat, table: Table, calls: map<CallId, Call>, exited: bool, stuck: bool)

  const START := State(0, EMPTY, map[], false, false)

  datatype Event =
    | Alloc(c: CallId)
    | Forward(c: CallId, id: string)
    | Register(c: CallId)
    | Write(c: CallId, ok: bool)
    | Arrive(resp: Response)
    | Exit
    | Receive(c: CallId)
    | GiveUp(c: CallId, reason: Reason)
    | Return(c: CallId)

  predicate InPhase(s: State, c: CallId, p: Phase) {
    c in s.calls && s.calls[c].phase == p
  }

  /** Registered and not yet returned: the call's deferred delete is still to come. */
  predicate InFlight(s: State, c: CallId) {
    c in s.calls && (s.calls[c].phase.Registered? || s.calls[c].phase.Waiting? || s.calls[c].phase.Leaving?)
  }

  predicate Enabled(s: State, e: Event) {
    match e
    case Alloc(c) => c !in s.calls
    case Forward(c, _) => c !in s.calls
    case Register(c) => !s.stuck && InPhase(s, c, Allocated)
    case Write(c, _) => InPhase(s, c, Registered)
    case Arrive(_) => !s.stuck && !s.exited
    case Exit => !s.stuck && !s.exited
    case Receive(c) => InPhase(s, c, Waiting) && c in s.table.chans && s.table.chans[c].slot.Some?
    case GiveUp(c, reason) =>
      InPhase(s, c, Waiting) && (reason == Exited ==> s.exited) && reason != WriteFailed
    case Return(c) => !s.stuck && InFlight(s, c) && s.calls[c].phase.Leaving?
  }

  function SetPhase(s: State, c: CallId, p: Phase): State
    requires c in s.calls
  {
    s.(calls := s.calls[c := s.calls[c].(phase := p)])
  }

  function Next(s: State, e: Event): State
    requires Enabled(s, e)
  {
    match e
    case Alloc(c) =>
      s.(allocs := s.allocs + 1,
         calls := s.calls[c := Call(AllocatedId(s.allocs + 1), Some(s.allocs + 1), Allocated)])
    case Forward(c, id) => s.(calls := s.calls[c := Call(id, None, Allocated)])
    case Register(c) => SetPhase(s, c, Registered).(table := Insert(s.table, s.calls[c].id, c))
    case Write(c, ok) => SetPhase(s, c, if ok then Waiting else Leaving(Failure(WriteFailed)))
    case Arrive(resp) =>
      if WouldBlock(s.table, resp.id) then s.(stuck := true) else s.(table := Route(s.table, resp))
    case Exit => s.(exited := true)
    case Receive(c) =>
      var ch := s.table.chans[c];
      SetPhase(s, c, Leaving(Answer(ch.slot.value)))
        .(table := s.table.(chans := s.table.chans[c := ch.(slot := None)]))
    case GiveUp(c, reason) => SetPhase(s, c, Leaving(Failure(reason)))
    case Return(c) => SetPhase(s, c, Returned(s.calls[c].phase.outcome)).(table := Remove(s.table, s.calls[c].id))
  }

  /** A run: the states passed, one more than the events. */
  ghost predicate Run(states: seq<State>, events: seq<Event>) {
    && |states| == |events| + 1
    && states[0] == START
    && forall i :: 0 <= i < |events| ==> Enabled(states[i], events[i]) && states[i + 1] == Next(states[i], events[i])
  }

  // ---------- What every run keeps, even with duplicate IDs ----------

  /** An entry of the table: a free, never used channel of a call in flight under its own ID. */
  predicate EntryOk(s: State, id: string)
    requires id in s.table.pending
  {
    var c := s.table.pending[id];
    InFlight(s, c) && s.calls[c].id == id && c in s.table.chans && s.table.chans[c] == Chan(None, [])
  }

  /** A call's channel carries at most one response, it bears the call's ID, and an answer is that response. */
  predicate CallOk(s: State, c: CallId)
    requires c in s.calls
  {
    var call := s.calls[c];
    if call.phase.Allocated? then c !in s.table.chans
    else
      && c in s.table.chans
      && |s.table.chans[c].sent| <= 1
      && (forall r :: r in s.table.chans[c].sent ==> r.id == call.id)
      && (s.table.chans[c].slot.Some? ==> s.table.chans[c].sent == [s.table.chans[c].slot.value])
      && ((call.phase.Registered? || call.phase.Waiting?) && s.table.chans[c].sent != [] ==> s.table.chans[c].slot.Some?)
      && ((call.phase.Leaving? || call.phase.Returned?) && call.phase.outcome.Answer?
          ==> s.table.chans[c].sent == [call.phase.outcome.resp])
  }

  predicate SerialOk(s: State, c: CallId)
    requires c in s.calls
  {
    s.calls[c].serial.Some? ==>
      1 <= s.calls[c].serial.value <= s.allocs && s.calls[c].id == AllocatedId(s.calls[c].serial.value)
  }

  ghost predicate Inv(s: State) {
    && !s.stuck
    && (forall id :: id in s.table.pending ==> EntryOk(s, id))
    && (forall c :: c in s.calls ==> CallOk(s, c))
    && (forall c :: c in s.table.chans ==> c in s.calls)
  }

  ghost predicate SerialInv(s: State) {
    && (forall c :: c in s.calls ==> SerialOk(s, c))
    && (forall c, d :: c in s.calls && d in s.calls && c != d && s.calls[c].serial.Some?
          ==> s.calls[c].serial != s.calls[d].serial)
  }

  lemma EntriesKept(s: State, e: Event)
    requires Inv(s) && Enabled(s, e)
    ensures forall id :: id in Next(s, e).table.pending ==> EntryOk(Next(s, e), id)
  {
    var s' := Next(s, e);
    forall id | id in s'.table.pending ensures EntryOk(s', id) {
      if id in s.table.pending {
        assert EntryOk(s, id);
        var d := s.table.pending[id];
        assert CallOk(s, d);
      }
      if e.Register? {
        assert CallOk(s, e.c);
      }
    }
  }

  lemma CallsKept(s: State, e: Event)
    requires Inv(s) && Enabled(s, e)
    ensures forall c :: c in Next(s, e).calls ==> CallOk(Next(s, e), c)
  {
    var s' := Next(s, e);
    forall c | c in s'.calls ensures CallOk(s', c) {
      if c in s.calls {
        assert CallOk(s, c);
      }
      if e.Arrive? && e.resp.id in s.table.pending {
        assert EntryOk(s, e.resp.id);
        assert ([] + [e.resp])[0] == e.resp;
      }
    }
  }

  /** Every step keeps the invariant; in particular the reader never blocks. */
  lemma StepKeepsInv(s: State, e: Event)
    requires Inv(s) && Enabled(s, e)
    ensures Inv(Next(s, e))
  {
    EntriesKept(s, e);
    CallsKept(s, e);
    if e.Arrive? && e.resp.id in s.table.pending {
      assert EntryOk(s, e.resp.id);
    }
  }

  lemma StepKeepsSerials(s: State, e: Event)
    requires SerialInv(s) && Enabled(s, e)
    ensures SerialInv(Next(s, e))
  {
    var s' := Next(s, e);
    forall c | c in s'.calls ensures SerialOk(s', c) {
      if c in s.calls {
        assert SerialOk(s, c);
      }
    }
    forall c, d | c in s'.calls && d in s'.calls && c != d && s'.calls[c].serial.Some?
      ensures s'.calls[c].serial != s'.calls[d].serial
    {
      if c in s.calls { assert SerialOk(s, c); }
      if d in s.calls { assert SerialOk(s, d); }
    }
  }

  lemma {:induction false} RunKeepsInv(states: seq<State>, events: seq<Event>, n: nat)
    requires Run(states, events) && n < |states|
    ensures Inv(states[n]) && SerialInv(states[n])
  {
    if n > 0 {
      RunKeepsInv(states, events, n - 1);
      assert states[n - 1 + 1] == Next(states[n - 1], events[n - 1]);
      StepKeepsInv(states[n - 1], events[n - 1]);
      StepKeepsSerials(states[n - 1], events[n - 1]);
    }
  }

  /**
   Safety over every run, under any interleaving and even with duplicate IDs: the reader is
   never stuck, registered channels are free and belong to calls in flight, nothing stays
   registered when no call is in flight, and a call that got an answer got the only response
   ever sent to it, which bears its ID.
   */
  lemma Safety(states: seq<State>, events: seq<Event>, n: nat)
    requires Run(states, events) && n < |states|
    ensures var s := states[n];
      && !s.stuck && Ready(s.table)
      && (forall id :: id in s.table.pending ==> InFlight(s, s.table.pending[id]))
      && ((forall c :: c in s.calls ==> !InFlight(s, c)) ==> s.table.pending == map[])
      && (forall c :: c in s.calls && s.calls[c].phase.Returned? && s.calls[c].phase.outcome.Answer? ==>
            c in s.table.chans && s.table.chans[c].sent == [s.calls[c].phase.outcome.resp]
            && s.calls[c].phase.outcome.resp.id == s.calls[c].id)
  {
    RunKeepsInv(states, events, n);
    var s := states[n];
    forall id | id in s.table.pending ensures InFlight(s, s.table.pending[id]) && !WouldBlock(s.table, id) {
      assert EntryOk(s, id);
    }
    forall i, j | i in s.table.pending && j in s.table.pending && s.table.pending[i] == s.table.pending[j] ensures i == j {
      assert EntryOk(s, i) && EntryOk(s, j);
    }
    forall c | c in s.calls && s.calls[c].phase.Returned? && s.calls[c].phase.outcome.Answer?
      ensures c in s.table.chans && s.table.chans[c].sent == [s.calls[c].phase.outcome.resp]
      ensures s.calls[c].phase.outcome.resp.id == s.calls[c].id
    {
      assert CallOk(s, c);
      assert s.calls[c].phase.outcome.resp in s.table.chans[c].sent;
    }
  }

  /** In every run, two calls with allocated IDs clash exactly when their allocations are a multiple of 2^64 apart. */
  lemma AllocatedCallsClash(states: seq<State>, events: seq<Event>, n: nat, c: CallId, d: CallId)
    requires Run(states, events) && n < |states|
    requires c in states[n].calls && d in states[n].calls && c != d
    requires states[n].calls[c].serial.Some? && states[n].calls[d].serial.Some?
    ensures states[n].calls[c].id == states[n].calls[d].id
            <==> (states[n].calls[c].serial.value - states[n].calls[d].serial.value) % TWO_TO_64 == 0
    ensures states[n].allocs <= TWO_TO_64 ==> states[n].calls[c].id != states[n].calls[d].id
  {
    RunKeepsInv(states, events, n);
    var s := states[n];
    assert SerialOk(s, c) && SerialOk(s, d);
    AllocatedIdsClash(s.calls[c].serial.value, s.calls[d].serial.value);
  }

  // ---------- When no response is lost ----------

  /** In flight, and nothing has been sent to it yet. */
  predicate Unanswered(s: State, c: CallId) {
    InFlight(s, c) && c in s.table.chans && s.table.chans[c].sent == []
  }

  predicate LinkedCall(s: State, c: CallId)
    requires c in s.calls
  {
    s.calls[c].id in s.table.pending && s.table.pending[s.calls[c].id] == c
  }

  /** Each unanswered call would still get the response that bears its ID. */
  ghost predicate Linked(s: State) {
    forall c :: c in s.calls && Unanswered(s, c) ==> LinkedCall(s, c)
  }

  ghost predicate DistinctIds(s: State) {
    forall c, d :: c in s.calls && d in s.calls && InFlight(s, c) && InFlight(s, d) && s.calls[c].id == s.calls[d].id ==> c == d
  }

  ghost predicate Tidy(s: State) {
    Linked(s) && DistinctIds(s)
  }

  /** The event registers an ID that some call in flight is using. */
  ghost predicate Clash(s: State, e: Event) {
    e.Register? && e.c in s.calls && exists d :: d in s.calls && InFlight(s, d) && s.calls[d].id == s.calls[e.c].id
  }

  lemma StepKeepsDistinct(s: State, e: Event)
    requires DistinctIds(s) && Enabled(s, e) && !Clash(s, e)
    ensures DistinctIds(Next(s, e))
  {
    var s' := Next(s, e);
    forall c, d | c in s'.calls && d in s'.calls && InFlight(s', c) && InFlight(s', d) && s'.calls[c].id == s'.calls[d].id
      ensures c == d
    {
      assert c in s.calls && d in s.calls;
    }
  }

  lemma StepKeepsTidy(s: State, e: Event)
    requires Inv(s) && Tidy(s) && Enabled(s, e) && !Clash(s, e)
    ensures Tidy(Next(s, e))
  {
    StepKeepsDistinct(s, e);
    var s' := Next(s, e);
    forall c | c in s'.calls && Unanswered(s', c) ensures LinkedCall(s', c) {
      assert c in s.calls && CallOk(s, c);
      if e.Arrive? && e.resp.id in s.table.pending {
        assert EntryOk(s, e.resp.id);
      }
      assert Unanswered(s, c) ==> LinkedCall(s, c);
    }
  }

  lemma {:induction false} RunKeepsTidy(states: seq<State>, events: seq<Event>, n: nat)
    requires Run(states, events) && n < |states|
    requires forall i :: 0 <= i < n ==> !Clash(states[i], events[i])
    ensures Tidy(states[n])
  {
    if n > 0 {
      RunKeepsTidy(states, events, n - 1);
      RunKeepsInv(states, events, n - 1);
      assert states[n - 1 + 1] == Next(states[n - 1], events[n - 1]);
      StepKeepsTidy(states[n - 1], events[n - 1]);
    }
  }

  /**
   In a run in which no call registers an ID in use, an arriving response reaches the one
   unanswered call that sent its ID, and no other; a late or unknown ID changes nothing.
   */
  lemma Delivery(states: seq<State>, events: seq<Event>, n: nat, resp: Response)
    requires Run(states, events) && n < |states|
    requires forall i :: 0 <= i < n ==> !Clash(states[i], events[i])
    requires Enabled(states[n], Arrive(resp))
    ensures forall c :: c in states[n].calls && Unanswered(states[n], c) && states[n].calls[c].id == resp.id ==>
              Next(states[n], Arrive(resp)).table.chans == states[n].table.chans[c := Chan(Some(resp), [resp])]
    ensures (forall c :: c in states[n].calls && Unanswered(states[n], c) ==> states[n].calls[c].id != resp.id) ==>
              Next(states[n], Arrive(resp)) == states[n]
    ensures Next(states[n], Arrive(resp)).calls == states[n].calls
  {
    RunKeepsInv(states, events, n);
    RunKeepsTidy(states, events, n);
    var s := states[n];
    if resp.id in s.table.pending {
      assert EntryOk(s, resp.id);
      var d := s.table.pending[resp.id];
      assert Unanswered(s, d) && s.calls[d].id == resp.id;
      assert [] + [resp] == [resp];
    }
    forall c | c in s.calls && Unanswered(s, c) && s.calls[c].id == resp.id
      ensures resp.id in s.table.pending && s.table.pending[resp.id] == c
    {
      assert LinkedCall(s, c);
    }
  }

  /** A call whose request could not be written returns that failure and leaves no entry under its ID. */
  lemma FailedWriteReturns(s: State, c: CallId)
    requires Inv(s) && InPhase(s, c, Registered)
    ensures Enabled(s, Write(c, false)) && Enabled(Next(s, Write(c, false)), Return(c))
    ensures var s' := Next(Next(s, Write(c, false)), Return(c));
      InPhase(s', c, Returned(Failure(WriteFailed))) && s.calls[c].id !in s'.table.pending && s'.table.chans == s.table.chans
  {
  }

  lemma {:induction false} NoForwardNoForeignIds(states: seq<State>, events: seq<Event>, n: nat)
    requires Run(states, events) && n < |states|
    requires forall i :: 0 <= i < n ==> !events[i].Forward?
    ensures forall c :: c in states[n].calls ==> states[n].calls[c].serial.Some?
  {
    if n > 0 {
      NoForwardNoForeignIds(states, events, n - 1);
      assert states[n - 1 + 1] == Next(states[n - 1], events[n - 1]);
    }
  }

  lemma {:induction false} AllocsGrow(states: seq<State>, events: seq<Event>, i: nat, n: nat)
    requires Run(states, events) && i <= n < |states|
    ensures states[i].allocs <= states[n].allocs
    decreases n - i
  {
    if i < n {
      AllocsGrow(states, events, i, n - 1);
      assert states[n - 1 + 1] == Next(states[n - 1], events[n - 1]);
    }
  }

  /** Without forwarded requests and with at most 2^64 allocations no call ever registers an ID in use. */
  lemma AllocatedIdsNeverClash(states: seq<State>, events: seq<Event>, n: nat)
    requires Run(states, events) && n < |states| && states[n].allocs <= TWO_TO_64
    requires forall i :: 0 <= i < n ==> !events[i].Forward?
    ensures forall i :: 0 <= i < n ==> !Clash(states[i], events[i])
  {
    forall i | 0 <= i < n ensures !Clash(states[i], events[i]) {
      var s, e := states[i], events[i];
      if e.Register? && e.c in s.calls {
        AllocsGrow(states, events, i, n);
        NoForwardNoForeignIds(states, events, i);
        forall d | d in s.calls && InFlight(s, d) ensures s.calls[d].id != s.calls[e.c].id {
          assert Enabled(s, e) && d != e.c;
          AllocatedCallsClash(states, events, i, d, e.c);
        }
      }
    }
  }

  /** So in such a run every response reaches the unanswered call that sent its ID, and no other. */
  lemma AllocatedDelivery(states: seq<State>, events: seq<Event>, n: nat, resp: Response, c: CallId)
    requires Run(states, events) && n < |states| && states[n].allocs <= TWO_TO_64
    requires forall i :: 0 <= i < n ==> !events[i].Forward?
    requires Enabled(states[n], Arrive(resp))
    requires c in states[n].calls && Unanswered(states[n], c) && states[n].calls[c].id == resp.id
    ensures Next(states[n], Arrive(resp)).table.chans == states[n].table.chans[c := Chan(Some(resp), [resp])]
    ensures Next(states[n], Arrive(resp)).calls == states[n].calls
  {
    AllocatedIdsNeverClash(states, events, n);
    Delivery(states, events, n, resp);
  }

  predicate CanRun(s: State, events: seq<Event>)
    decreases |events|
  {
    events == [] || (Enabled(s, events[0]) && CanRun(Next(s, events[0]), events[1..]))
  }

  function After(s: State, events: seq<Event>): State
    requires CanRun(s, events)
    decreases |events|
  {
    if events == [] then s else After(Next(s, events[0]), events[1..])
  }

  lemma RunOne(s: State, e: Event)
    requires Enabled(s, e)
    ensures CanRun(s, [e]) && After(s, [e]) == Next(s, e)
  {
    assert [e][1..] == [];
  }

  lemma RunCons(s: State, e: Event, rest: seq<Event>)
    requires Enabled(s, e) && CanRun(Next(s, e), rest)
    ensures CanRun(s, [e] + rest) && After(s, [e] + rest) == After(Next(s, e), rest)
  {
    assert ([e] + rest)[1..] == rest;
  }

  /** A call in flight that has its answer can always finish. */
  lemma Finish(s: State, d: CallId) returns (es: seq<Event>)
    requires Inv(s) && InFlight(s, d) && !Unanswered(s, d)
    ensures CanRun(s, es)
    ensures var s' := After(s, es);
      s'.table == Remove(s.table, s.calls[d].id).(chans := s'.table.chans)
      && (forall c :: c in s.calls && c != d ==> c in s'.calls && s'.calls[c] == s.calls[c])
      && (forall c :: c in s.table.chans && c != d ==> c in s'.table.chans && s'.table.chans[c] == s.table.chans[c])
  {
    assert CallOk(s, d);
    match s.calls[d].phase
    case Leaving(_) =>
      RunOne(s, Return(d));
      es := [Return(d)];
    case Waiting =>
      var s1 := Next(s, Receive(d));
      RunOne(s1, Return(d));
      RunCons(s, Receive(d), [Return(d)]);
      es := [Receive(d)] + [Return(d)];
    case Registered =>
      var s1 := Next(s, Write(d, true));
      var s2 := Next(s1, Receive(d));
      RunOne(s2, Return(d));
      RunCons(s1, Receive(d), [Return(d)]);
      RunCons(s, Write(d, true), [Receive(d)] + [Return(d)]);
      es := [Write(d, true)] + ([Receive(d)] + [Return(d)]);
  }

  /**
   The condition is exact. Registering an ID in use always opens a way to a state in which an
   unanswered call can no longer be reached: at once when the other call is unanswered, and
   otherwise when that other call returns and deletes the newcomer's entry.
   */
  lemma ClashLosesResponse(s: State, c: CallId, d: CallId) returns (es: seq<Event>)
    requires Inv(s) && Enabled(s, Register(c))
    requires d in s.calls && InFlight(s, d) && s.calls[d].id == s.calls[c].id
    ensures CanRun(s, [Register(c)] + es) && !Linked(After(s, [Register(c)] + es))
  {
    var s1 := Next(s, Register(c));
    StepKeepsInv(s, Register(c));
    assert CallOk(s, d) && c != d;
    es := [];
    if Unanswered(s, d) {
      assert Unanswered(s1, d) && !LinkedCall(s1, d);
    } else {
      es := Finish(s1, d);
      var s2 := After(s1, es);
      assert Unanswered(s2, c) && !LinkedCall(s2, c);
    }
    RunCons(s, Register(c), es);
  }

  /** Forwarded requests bring their own IDs, and one of them can equal an allocated ID in flight. */
  lemma ForwardedIdClash()
    ensures var es := [Alloc(0), Register(0), Forward(1, "1")];
      CanRun(START, es) && Enabled(After(START, es), Register(1)) && Clash(After(START, es), Register(1))
  {
    assert AllocatedId(1) == "1";
    var s1 := Next(START, Alloc(0));
    var s2 := Next(s1, Register(0));
    RunOne(s2, Forward(1, "1"));
    RunCons(s1, Register(0), [Forward(1, "1")]);
    RunCons(START, Alloc(0), [Register(0), Forward(1, "1")]);
    assert [Alloc(0)] + [Register(0), Forward(1, "1")] == [Alloc(0), Register(0), Forward(1, "1")];
    assert [Register(0)] + [Forward(1, "1")] == [Register(0), Forward(1, "1")];
    var s3 := Next(s2, Forward(1, "1"));
    assert InFlight(s3, 0) && s3.calls[0].id == s3.calls[1].id;
  }
}
