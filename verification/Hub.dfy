/**
 The broadcast hub: one loop registers and drops WebSocket clients and copies each message
 from a bounded queue into every client's bounded channel, closing the channel of a client
 that has fallen behind.
 */
module Hub {
  import opened Iteration

  type Message = int
  type ClientId = nat

  const QUEUE_SIZE := 256
  const SEND_SIZE := 64

  /** A client's channel with its history: what was ever put in, what was taken out, and how often it was closed. */
  datatype Chan = Chan(buffer: seq<Message>, closed: bool, sent: seq<Message>, received: seq<Message>, closes: nat)

  const NEW_CHAN := Chan([], false, [], [], 0)

  /** `panicked` records a send on, or a second close of, a closed channel. */
  datatype Room = Room(clients: set<ClientId>, chans: map<ClientId, Chan>, panicked: bool)

  function Push(ch: Chan, m: Message): Chan {
    ch.(buffer := ch.buffer + [m], sent := ch.sent + [m])
  }

  function Close(ch: Chan): Chan {
    ch.(closed := true, closes := ch.closes + 1)
  }

  function Join(r: Room, c: ClientId): Room {
    r.(clients := r.clients + {c}, chans := r.chans[c := NEW_CHAN])
  }

  function Leave(r: Room, c: ClientId): Room {
    if c in r.clients && c in r.chans then
      Room(r.clients - {c}, r.chans[c := Close(r.chans[c])], r.panicked || r.chans[c].closed)
    else r
  }

  /** The message at one client: a non-blocking send, or else the client is dropped. */
  function Offer(r: Room, m: Message, c: ClientId): Room {
    if c !in r.clients || c !in r.chans then r
    else if r.chans[c].closed then r.(panicked := true)
    else if |r.chans[c].buffer| < SEND_SIZE then r.(chans := r.chans[c := Push(r.chans[c], m)])
    else Leave(r, c)
  }

  function OfferEach(r: Room, m: Message, order: seq<ClientId>): Room
    decreases |order|
  {
    if order == [] then r else OfferEach(Offer(r, m, order[0]), m, order[1..])
  }

  /** The loop's effect in no order at all, for clients whose channels are open. */
  function OfferAll(r: Room, m: Message): Room {
    Room(
      set c | c in r.clients && c in r.chans && |r.chans[c].buffer| < SEND_SIZE,
      map c | c in r.chans ::
        if c !in r.clients then r.chans[c]
        else if |r.chans[c].buffer| < SEND_SIZE then Push(r.chans[c], m)
        else Close(r.chans[c]),
      r.panicked)
  }

  ghost predicate AllOpen(r: Room) {
    forall c :: c in r.clients ==> c in r.chans && !r.chans[c].closed
  }

  /** The room after the clients in `done` were served. */
  ghost predicate Served(before: Room, after: Room, m: Message, done: set<ClientId>) {
    && after.panicked == before.panicked && after.chans.Keys == before.chans.Keys
    && (forall c :: c in before.chans ==> after.chans[c] == if c in done then OfferAll(before, m).chans[c] else before.chans[c])
    && after.clients == set c | c in before.clients && (c in done ==> c in OfferAll(before, m).clients)
  }

  lemma OfferServes(before: Room, after: Room, m: Message, done: set<ClientId>, c: ClientId)
    requires AllOpen(before) && Served(before, after, m, done) && c in before.clients && c !in done
    ensures Served(before, Offer(after, m, c), m, done + {c})
  {
    assert after.chans[c] == before.chans[c];
    var next := Offer(after, m, c);
    assert next.clients == set d | d in before.clients && (d in done + {c} ==> d in OfferAll(before, m).clients);
  }

  lemma {:induction false} OfferEachServes(before: Room, after: Room, m: Message, done: set<ClientId>, order: seq<ClientId>)
    requires AllOpen(before) && Served(before, after, m, done)
    requires Distinct(order) && forall c :: c in order ==> c in before.clients && c !in done
    ensures Served(before, OfferEach(after, m, order), m, done + set c | c in order)
    decreases |order|
  {
    if order == [] {
      assert done + (set c | c in order) == done;
    } else {
      OfferServes(before, after, m, done, order[0]);
      OfferEachServes(before, Offer(after, m, order[0]), m, done + {order[0]}, order[1..]);
      assert done + (set c | c in order) == done + {order[0]} + set c | c in order[1..];
    }
  }

  /** Whatever the order of the range loop, every registered client is served once. */
  lemma OfferAnyOrder(r: Room, m: Message, order: seq<ClientId>)
    requires AllOpen(r) && Visits(order, r.clients)
    ensures OfferEach(r, m, order) == OfferAll(r, m)
  {
    var done := set c | c in order;
    assert Served(r, r, m, {});
    OfferEachServes(r, r, m, {}, order);
    assert {} + done == r.clients;
    var after := OfferEach(r, m, order);
    assert after.clients == OfferAll(r, m).clients;
    assert after.chans == OfferAll(r, m).chans;
  }

  // ---------- The code ----------

  class BroadcastHub {
    var room: Room
    var queue: seq<Message>

    constructor ()
      ensures room == Room({}, map[], false) && queue == []
    {
      room, queue := Room({}, map[], false), [];
    }

    /** Never waits: a full queue drops the message. */
    method Publish(m: Message)
      modifies this`queue
      ensures queue == if |old(queue)| < QUEUE_SIZE then old(queue) + [m] else old(queue)
    {
      if |queue| < QUEUE_SIZE {
        queue := queue + [m];
      }
    }

    method Register(c: ClientId)
      modifies this`room
      ensures room == Join(old(room), c)
    {
      room := room.(clients := room.clients + {c}, chans := room.chans[c := NEW_CHAN]);
    }

    method Unregister(c: ClientId)
      requires c in room.chans
      modifies this`room
      ensures room == Leave(old(room), c)
    {
      if c in room.clients {
        room := room.(clients := room.clients - {c});
        CloseChannel(c);
      }
    }

    /** Closing a closed channel panics. */
    method CloseChannel(c: ClientId)
      requires c in room.chans
      modifies this`room
      ensures room == old(room).(chans := old(room).chans[c := Close(old(room).chans[c])],
                                 panicked := old(room).panicked || old(room).chans[c].closed)
    {
      var ch := room.chans[c];
      room := room.(chans := room.chans[c := ch.(closed := true, closes := ch.closes + 1)], panicked := room.panicked || ch.closed);
    }

    /** One round of the range loop. */
    method OfferTo(c: ClientId, m: Message)
      requires c in room.clients && c in room.chans
      modifies this`room
      ensures room == Offer(old(room), m, c)
    {
      var ch := room.chans[c];
      if ch.closed {
        room := room.(panicked := true);
      } else if |ch.buffer| < SEND_SIZE {
        room := room.(chans := room.chans[c := ch.(buffer := ch.buffer + [m], sent := ch.sent + [m])]);
      } else {
        CloseChannel(c);
        room := room.(clients := room.clients - {c});
      }
    }

    /** The loop takes the oldest queued message and offers it to every client. */
    method Broadcast() returns (m: Message)
      requires queue != [] && AllOpen(room)
      modifies this`room, this`queue
      ensures m == old(queue)[0] && queue == old(queue)[1..]
      ensures room == OfferAll(old(room), m)
    {
      m := queue[0];
      queue := queue[1..];
      OfferToAll(m);
    }

    method OfferToAll(m: Message)
      requires AllOpen(room)
      modifies this`room
      ensures room == OfferAll(old(room), m)
    {
      ghost var start := room;
      var order := AnyOrder(room.clients);
      OfferAnyOrder(start, m, order);
      var i := 0;
      while i < |order|
        invariant 0 <= i <= |order|
        invariant OfferEach(room, m, order[i..]) == OfferAll(start, m)
        invariant forall k :: i <= k < |order| ==> order[k] in room.clients && order[k] in room.chans
      {
        assert order[i..][0] == order[i] && order[i..][1..] == order[i + 1..];
        OfferTo(order[i], m);
        i := i + 1;
      }
      assert order[i..] == [];
    }
  }

  // ---------- Runs ----------

  /**
   `accepted` and `taken` are the messages ever queued and ever taken; `joined` tells how many
   had been taken when a client registered.
   */
  datatype State = State(room: Room, queue: seq<Message>, accepted: seq<Message>, taken: seq<Message>, joined: map<ClientId, nat>)

  const START := State(Room({}, map[], false), [], [], [], map[])

  datatype Event =
    | PublishEvent(m: Message)
    | RegisterEvent(c: ClientId)
    | UnregisterEvent(c: ClientId)
    | BroadcastEvent
    | DrainEvent(c: ClientId)

  /** Each connection registers its own fresh channel, once; anything else may come at any time. */
  predicate Enabled(s: State, e: Event) {
    match e
    case PublishEvent(_) => true
    case RegisterEvent(c) => c !in s.room.chans
    case UnregisterEvent(c) => c in s.room.chans
    case BroadcastEvent => s.queue != []
    case DrainEvent(c) => c in s.room.chans && s.room.chans[c].buffer != []
  }

  function Drain(ch: Chan): Chan
    requires ch.buffer != []
  {
    ch.(buffer := ch.buffer[1..], received := ch.received + [ch.buffer[0]])
  }

  function Next(s: State, e: Event): State
    requires Enabled(s, e)
  {
    match e
    case PublishEvent(m) =>
      if |s.queue| < QUEUE_SIZE then s.(queue := s.queue + [m], accepted := s.accepted + [m]) else s
    case RegisterEvent(c) => s.(room := Join(s.room, c), joined := s.joined[c := |s.taken|])
    case UnregisterEvent(c) => s.(room := Leave(s.room, c))
    case BroadcastEvent =>
      s.(room := OfferAll(s.room, s.queue[0]), queue := s.queue[1..], taken := s.taken + [s.queue[0]])
    case DrainEvent(c) => s.(room := s.room.(chans := s.room.chans[c := Drain(s.room.chans[c])]))
  }

  ghost predicate Run(states: seq<State>, events: seq<Event>) {
    && |states| == |events| + 1
    && states[0] == START
    && forall i :: 0 <= i < |events| ==> Enabled(states[i], events[i]) && states[i + 1] == Next(states[i], events[i])
  }

  /** What was sent to the client is the block of taken messages that starts where it joined. */
  predicate Block(s: State, c: ClientId)
    requires c in s.room.chans
  {
    var ch := s.room.chans[c];
    c in s.joined && s.joined[c] + |ch.sent| <= |s.taken| && ch.sent == s.taken[s.joined[c]..s.joined[c] + |ch.sent|]
  }

  predicate ChanOk(s: State, c: ClientId)
    requires c in s.room.chans
  {
    var ch := s.room.chans[c];
    && Block(s, c)
    && ch.received + ch.buffer == ch.sent
    && |ch.buffer| <= SEND_SIZE
    && ch.closes == (if ch.closed then 1 else 0)
    && (c in s.room.clients <==> !ch.closed)
    && (c in s.room.clients ==> s.joined[c] + |ch.sent| == |s.taken|)
  }

  ghost predicate Inv(s: State) {
    && !s.room.panicked
    && s.room.clients <= s.room.chans.Keys
    && s.taken + s.queue == s.accepted
    && forall c :: c in s.room.chans ==> ChanOk(s, c)
  }

  lemma BroadcastKeepsChan(s: State, c: ClientId)
    requires Inv(s) && s.queue != [] && c in s.room.chans
    ensures ChanOk(Next(s, BroadcastEvent), c)
  {
    assert ChanOk(s, c);
    var s', ch, m := Next(s, BroadcastEvent), s.room.chans[c], s.queue[0];
    var j, n := s.joined[c], s.joined[c] + |ch.sent|;
    assert s'.taken[j..n] == s.taken[j..n];
    if c in s.room.clients && |ch.buffer| < SEND_SIZE {
      assert s'.taken[j..n + 1] == s.taken[j..n] + [m];
      assert ch.received + (ch.buffer + [m]) == (ch.received + ch.buffer) + [m];
    }
  }

  lemma StepKeepsInv(s: State, e: Event)
    requires Inv(s) && Enabled(s, e)
    ensures Inv(Next(s, e))
  {
    var s' := Next(s, e);
    forall c | c in s'.room.chans ensures ChanOk(s', c) {
      if c in s.room.chans {
        assert ChanOk(s, c);
        if e.BroadcastEvent? {
          BroadcastKeepsChan(s, c);
        } else if e == DrainEvent(c) {
          DrainKeepsOrder(s.room.chans[c]);
        }
      }
    }
    QueueKept(s, e);
    if e.UnregisterEvent? && e.c in s.room.clients {
      assert ChanOk(s, e.c);
    }
  }

  lemma QueueKept(s: State, e: Event)
    requires s.taken + s.queue == s.accepted && Enabled(s, e)
    ensures Next(s, e).taken + Next(s, e).queue == Next(s, e).accepted
  {
    match e
    case PublishEvent(m) => assert s.taken + (s.queue + [m]) == (s.taken + s.queue) + [m];
    case BroadcastEvent => assert (s.taken + [s.queue[0]]) + s.queue[1..] == s.taken + s.queue;
    case _ =>
  }

  lemma DrainKeepsOrder(ch: Chan)
    requires ch.buffer != []
    ensures Drain(ch).received + Drain(ch).buffer == ch.received + ch.buffer
  {
    assert (ch.received + [ch.buffer[0]]) + ch.buffer[1..] == ch.received + ch.buffer;
  }

  lemma {:induction false} RunKeepsInv(states: seq<State>, events: seq<Event>, n: nat)
    requires Run(states, events) && n < |states|
    ensures Inv(states[n])
  {
    if n > 0 {
      RunKeepsInv(states, events, n - 1);
      StepKeepsInv(states[n - 1], events[n - 1]);
      assert states[n - 1 + 1] == Next(states[n - 1], events[n - 1]);
    }
  }

  /**
   In every state of every run: no send on and no second close of a closed channel; what was
   sent to a client is a contiguous block, in order, of the messages taken since it joined,
   reaching up to the latest one while the client is registered; what it received is a prefix
   of that; and no accepted message is lost between the queue and the loop.
   */
  lemma Delivery(states: seq<State>, events: seq<Event>, n: nat, c: ClientId)
    requires Run(states, events) && n < |states| && c in states[n].room.chans
    ensures var s := states[n]; var ch := s.room.chans[c];
      && !s.room.panicked && ch.closes <= 1 && (ch.closed <==> c !in s.room.clients) && AllOpen(s.room)
      && Block(s, c) && ch.received <= ch.sent
      && (c in s.room.clients ==> ch.sent == s.taken[s.joined[c]..])
      && s.taken <= s.accepted
  {
    RunKeepsInv(states, events, n);
    var s := states[n];
    assert ChanOk(s, c);
    forall d | d in s.room.clients ensures d in s.room.chans && !s.room.chans[d].closed {
      assert ChanOk(s, d);
    }
  }

  lemma StepKeepsClosed(s: State, e: Event, c: ClientId)
    requires Inv(s) && Enabled(s, e) && c in s.room.chans && s.room.chans[c].closed
    ensures var ch, ch' := s.room.chans[c], Next(s, e).room.chans[c];
      c in Next(s, e).room.chans && ch'.closed && ch'.sent == ch.sent && ch'.closes == ch.closes
  {
    assert ChanOk(s, c);
  }

  /** Once a channel is closed nothing is ever sent on it again, and it is not closed again. */
  lemma {:induction false} ClosedIsFinal(states: seq<State>, events: seq<Event>, i: nat, j: nat, c: ClientId)
    requires Run(states, events) && i <= j < |states|
    requires c in states[i].room.chans && states[i].room.chans[c].closed
    ensures c in states[j].room.chans && states[j].room.chans[c].closed
    ensures states[j].room.chans[c].sent == states[i].room.chans[c].sent
    ensures states[j].room.chans[c].closes == states[i].room.chans[c].closes == 1
    decreases j - i
  {
    RunKeepsInv(states, events, i);
    assert ChanOk(states[i], c);
    if i < j {
      StepKeepsClosed(states[i], events[i], c);
      assert states[i + 1] == Next(states[i], events[i]);
      ClosedIsFinal(states, events, i + 1, j, c);
    }
  }

  /** A broadcast drops a client exactly when it has let 64 messages pile up. */
  lemma DroppedWhenFull(s: State, c: ClientId)
    requires Inv(s) && s.queue != [] && c in s.room.clients
    ensures c !in Next(s, BroadcastEvent).room.clients <==> |s.room.chans[c].buffer| == 64
  {
    assert ChanOk(s, c);
  }

  /** A published message is lost exactly when 256 others are waiting; otherwise it waits behind them. */
  lemma LostWhenQueueFull(states: seq<State>, events: seq<Event>, n: nat, m: Message)
    requires Run(states, events) && n < |events| && events[n] == PublishEvent(m)
    ensures |states[n].queue| <= 256
    ensures if |states[n].queue| == 256 then states[n + 1] == states[n]
            else states[n + 1].queue == states[n].queue + [m] && states[n + 1].taken == states[n].taken
  {
    QueueBounded(states, events, n);
    assert states[n + 1] == Next(states[n], events[n]);
  }

  lemma {:induction false} QueueBounded(states: seq<State>, events: seq<Event>, n: nat)
    requires Run(states, events) && n < |states|
    ensures |states[n].queue| <= 256
  {
    if n > 0 {
      QueueBounded(states, events, n - 1);
      assert states[n - 1 + 1] == Next(states[n - 1], events[n - 1]);
    }
  }

  // ---------- A broadcast is many channel operations ----------

  /** What may happen while the loop offers one message: the offers themselves, and writers taking from their channels. */
  datatype Micro = OfferTo(c: ClientId) | DrainOf(c: ClientId)

  function DrainIn(r: Room, c: ClientId): Room {
    if c in r.chans && r.chans[c].buffer != [] then r.(chans := r.chans[c := Drain(r.chans[c])]) else r
  }

  function DrainAll(r: Room, cs: seq<ClientId>): Room
    decreases |cs|
  {
    if cs == [] then r else DrainAll(DrainIn(r, cs[0]), cs[1..])
  }

  function Interleaved(r: Room, m: Message, ms: seq<Micro>): Room
    decreases |ms|
  {
    if ms == [] then r
    else Interleaved(if ms[0].OfferTo? then Offer(r, m, ms[0].c) else DrainIn(r, ms[0].c), m, ms[1..])
  }

  function Offers(ms: seq<Micro>): seq<ClientId> {
    if ms == [] then [] else if ms[0].OfferTo? then [ms[0].c] + Offers(ms[1..]) else Offers(ms[1..])
  }

  /** The drains of clients that are offered the message later in the list. */
  function Early(ms: seq<Micro>): seq<ClientId> {
    if ms == [] then []
    else if ms[0].DrainOf? && ms[0].c in Offers(ms[1..]) then [ms[0].c] + Early(ms[1..])
    else Early(ms[1..])
  }

  function Late(ms: seq<Micro>): seq<ClientId> {
    if ms == [] then []
    else if ms[0].DrainOf? && ms[0].c !in Offers(ms[1..]) then [ms[0].c] + Late(ms[1..])
    else Late(ms[1..])
  }

  lemma OfferDrainCommute(r: Room, m: Message, c: ClientId, d: ClientId)
    requires c != d
    ensures Offer(DrainIn(r, d), m, c) == DrainIn(Offer(r, m, c), d)
  {
    var a, b := Offer(DrainIn(r, d), m, c), DrainIn(Offer(r, m, c), d);
    assert a.chans == b.chans;
  }

  lemma DrainsCommute(r: Room, c: ClientId, d: ClientId)
    ensures DrainIn(DrainIn(r, c), d) == DrainIn(DrainIn(r, d), c)
  {
    if c != d {
      assert DrainIn(DrainIn(r, c), d).chans == DrainIn(DrainIn(r, d), c).chans;
    }
  }

  lemma {:induction false} OfferBehindDrains(r: Room, m: Message, c: ClientId, ds: seq<ClientId>)
    requires c !in ds
    ensures Offer(DrainAll(r, ds), m, c) == DrainAll(Offer(r, m, c), ds)
    decreases |ds|
  {
    if ds != [] {
      OfferDrainCommute(r, m, c, ds[0]);
      OfferBehindDrains(DrainIn(r, ds[0]), m, c, ds[1..]);
    }
  }

  lemma {:induction false} DrainBehindDrains(r: Room, d: ClientId, ds: seq<ClientId>)
    ensures DrainAll(DrainIn(r, d), ds) == DrainIn(DrainAll(r, ds), d)
    decreases |ds|
  {
    if ds != [] {
      DrainsCommute(r, d, ds[0]);
      DrainBehindDrains(DrainIn(r, ds[0]), d, ds[1..]);
    }
  }

  lemma {:induction false} DrainBehindOffers(r: Room, m: Message, d: ClientId, order: seq<ClientId>)
    requires d !in order
    ensures OfferEach(DrainIn(r, d), m, order) == DrainIn(OfferEach(r, m, order), d)
    decreases |order|
  {
    if order != [] {
      OfferDrainCommute(r, m, order[0], d);
      DrainBehindOffers(Offer(r, m, order[0]), m, d, order[1..]);
    }
  }

  lemma {:induction false} EarlyAreOffered(ms: seq<Micro>)
    ensures forall c :: c in Early(ms) ==> c in Offers(ms)
  {
    if ms != [] {
      EarlyAreOffered(ms[1..]);
    }
  }

  lemma {:induction false} Sequenced(r: Room, m: Message, ms: seq<Micro>)
    requires Distinct(Offers(ms))
    ensures Interleaved(r, m, ms) == DrainAll(OfferEach(DrainAll(r, Early(ms)), m, Offers(ms)), Late(ms))
    decreases |ms|
  {
    if ms != [] {
      var c, rest := ms[0].c, ms[1..];
      var early, offers, late := Early(rest), Offers(rest), Late(rest);
      EarlyAreOffered(rest);
      if ms[0].OfferTo? {
        assert Offers(ms) == [c] + offers && c !in offers && Distinct(offers) by {
          FirstIsNotRepeated(c, offers);
        }
        Sequenced(Offer(r, m, c), m, rest);
        OfferBehindDrains(r, m, c, early);
        assert ([c] + offers)[1..] == offers;
      } else {
        Sequenced(DrainIn(r, c), m, rest);
        if c in offers {
          assert ([c] + early)[1..] == early;
        } else {
          DrainBehindDrains(r, c, early);
          DrainBehindOffers(DrainAll(r, early), m, c, offers);
          assert ([c] + late)[1..] == late;
        }
      }
    }
  }

  lemma FirstIsNotRepeated(c: ClientId, rest: seq<ClientId>)
    requires Distinct([c] + rest)
    ensures c !in rest && Distinct(rest)
  {
    var all := [c] + rest;
    forall i | 0 <= i < |rest| ensures rest[i] != c {
      assert all[0] != all[i + 1];
    }
    forall i, j | 0 <= i < j < |rest| ensures rest[i] != rest[j] {
      assert all[i + 1] != all[j + 1];
    }
  }

  /**
   A broadcast may be taken as one step. However the writers' drains fall between its offers,
   the outcome is that of some drains, the whole broadcast, and the other drains: a client's
   drains before its own offer count as before the broadcast, all others as after it.
   */
  lemma BroadcastIsOneStep(r: Room, m: Message, ms: seq<Micro>)
    requires AllOpen(r) && Visits(Offers(ms), r.clients)
    ensures Interleaved(r, m, ms) == DrainAll(OfferAll(DrainAll(r, Early(ms)), m), Late(ms))
  {
    Sequenced(r, m, ms);
    DrainsKeepOpen(r, Early(ms));
    OfferAnyOrder(DrainAll(r, Early(ms)), m, Offers(ms));
  }

  lemma {:induction false} DrainsKeepOpen(r: Room, cs: seq<ClientId>)
    requires AllOpen(r)
    ensures AllOpen(DrainAll(r, cs)) && DrainAll(r, cs).clients == r.clients
    decreases |cs|
  {
    if cs != [] {
      DrainsKeepOpen(DrainIn(r, cs[0]), cs[1..]);
    }
  }
}
