/**
 Rolling statistics over the last five minutes: an append-only log per target that every
 snapshot prunes in place, compared with statistics over the complete, never pruned log.
 Latencies are real numbers.
 */
module Aggregator {
  import opened Wrappers
  import opened Iteration

  type Time = int

  /** Five minutes, in nanoseconds. */
  const WINDOW_SIZE: Time := 300_000_000_000
  const WINDOW_SECONDS := 300.0

  datatype Entry = Entry(ts: Time, latency: real, isError: bool)

  datatype Activity = Activity(ts: Time, target: string, latency: real, status: string)

  datatype TargetStats = TargetStats(requests: nat, errors: nat, totalLatency: real, avgLatency: real, errorRate: real, rps: real)

  datatype Snapshot = Snapshot(
    timestamp: Time, totalRequests: nat, totalErrors: nat, avgLatency: real, errorRate: real, targets: map<string, TargetStats>)

  type Log = map<string, seq<Entry>>

  function After(entries: seq<Entry>, cutoff: Time): (r: seq<Entry>)
    ensures |r| <= |entries|
  {
    if entries == [] then []
    else if cutoff < entries[0].ts then [entries[0]] + After(entries[1..], cutoff)
    else After(entries[1..], cutoff)
  }

  lemma {:induction false} AfterAppend(entries: seq<Entry>, e: Entry, cutoff: Time)
    ensures After(entries + [e], cutoff) == After(entries, cutoff) + if cutoff < e.ts then [e] else []
  {
    if entries == [] {
      assert entries + [e] == [e] && [e][1..] == [];
    } else {
      AfterAppend(entries[1..], e, cutoff);
      assert (entries + [e])[1..] == entries[1..] + [e];
    }
  }

  /** Pruning early does not change what a later, tighter pruning keeps. */
  lemma {:induction false} AfterTwice(entries: seq<Entry>, early: Time, late: Time)
    requires early <= late
    ensures After(After(entries, early), late) == After(entries, late)
  {
    if entries != [] {
      AfterTwice(entries[1..], early, late);
      if early < entries[0].ts {
        assert After(entries, early)[1..] == After(entries[1..], early);
      }
    }
  }

  // ---------- Pruning in place ----------

  /** The kept entries are compacted to the front of the same array. */
  method Prune(a: array<Entry>, n: nat, cutoff: Time) returns (kept: nat)
    requires n <= a.Length
    modifies a
    ensures kept <= n && a[..kept] == After(old(a[..n]), cutoff)
    ensures a[n..] == old(a[n..])
  {
    ghost var all := a[..n];
    kept := 0;
    var i := 0;
    while i < n
      invariant 0 <= kept <= i <= n
      invariant a[..kept] == After(all[..i], cutoff)
      invariant a[i..] == old(a[i..])
    {
      var e := a[i];
      assert e == old(a[i..])[0] == all[i];
      assert all[..i + 1] == all[..i] + [e];
      AfterAppend(all[..i], e, cutoff);
      assert old(a[i..])[1..] == old(a[i + 1..]);
      if cutoff < e.ts {
        ghost var before := a[..kept];
        a[kept] := e;
        kept := kept + 1;
        assert a[..kept] == before + [e];
      }
      i := i + 1;
    }
    assert all[..n] == all;
  }

  // ---------- Statistics of one target ----------

  function CountErrors(entries: seq<Entry>): (n: nat)
  {
    if entries == [] then 0 else (if entries[0].isError then 1 else 0) + CountErrors(entries[1..])
  }

  function SumLatency(entries: seq<Entry>): real {
    if entries == [] then 0.0 else entries[0].latency + SumLatency(entries[1..])
  }

  function StatsOf(entries: seq<Entry>): TargetStats
    requires entries != []
  {
    var n := |entries| as real;
    TargetStats(|entries|, CountErrors(entries), SumLatency(entries),
                SumLatency(entries) / n, CountErrors(entries) as real / n, n / WINDOW_SECONDS)
  }

  method ComputeStats(entries: seq<Entry>) returns (s: TargetStats)
    requires entries != []
    ensures s == StatsOf(entries)
  {
    var requests, errors, total := 0, 0, 0.0;
    for i := 0 to |entries|
      invariant requests == i
      invariant errors + CountErrors(entries[i..]) == CountErrors(entries)
      invariant total + SumLatency(entries[i..]) == SumLatency(entries)
    {
      assert entries[i..][1..] == entries[i + 1..];
      requests := requests + 1;
      total := total + entries[i].latency;
      if entries[i].isError {
        errors := errors + 1;
      }
    }
    assert entries[|entries|..] == [];
    var n := requests as real;
    s := TargetStats(requests, errors, total, total / n, errors as real / n, n / WINDOW_SECONDS);
  }

  // ---------- The complete log as the reference ----------

  function TargetOf(e: Activity): string {
    if e.target == "" then "_gateway" else e.target
  }

  function EntryOf(e: Activity): Entry {
    Entry(e.ts, e.latency, e.status == "error")
  }

  /** All entries ever recorded for one target. */
  function Of(history: seq<Activity>, name: string): seq<Entry> {
    if history == [] then []
    else Of(history[..|history| - 1], name) + if TargetOf(history[|history| - 1]) == name then [EntryOf(history[|history| - 1])] else []
  }

  /** The entries in the window, of all targets in `names`. */
  function Window(history: seq<Activity>, names: set<string>, cutoff: Time): seq<Entry> {
    if history == [] then []
    else
      var e := history[|history| - 1];
      Window(history[..|history| - 1], names, cutoff) + if TargetOf(e) in names && cutoff < e.ts then [EntryOf(e)] else []
  }

  function Recorded(history: seq<Activity>): set<string> {
    set i | 0 <= i < |history| :: TargetOf(history[i])
  }

  /** The statistics computed from the complete log, restricted to the window that ends now. */
  function Reference(history: seq<Activity>, now: Time): Snapshot {
    var cutoff := now - WINDOW_SIZE;
    var all := Window(history, Recorded(history), cutoff);
    Snapshot(
      now, |all|, CountErrors(all),
      if all == [] then 0.0 else SumLatency(all) / |all| as real,
      if all == [] then 0.0 else CountErrors(all) as real / |all| as real,
      map name | name in Recorded(history) && After(Of(history, name), cutoff) != [] :: StatsOf(After(Of(history, name), cutoff)))
  }

  lemma OfLast(history: seq<Activity>, e: Activity, name: string)
    ensures Of(history + [e], name) == Of(history, name) + if TargetOf(e) == name then [EntryOf(e)] else []
  {
    assert (history + [e])[..|history|] == history;
  }

  lemma {:induction false} OfUnrecorded(history: seq<Activity>, name: string)
    requires name !in Recorded(history)
    ensures Of(history, name) == []
    decreases |history|
  {
    if history != [] {
      var prev := history[..|history| - 1];
      assert TargetOf(history[|history| - 1]) in Recorded(history);
      forall x | x in Recorded(prev) ensures x in Recorded(history) {
        var i :| 0 <= i < |prev| && TargetOf(prev[i]) == x;
        assert history[i] == prev[i];
      }
      OfUnrecorded(prev, name);
    }
  }

  // ---------- What every run keeps ----------

  /** At and above `floor`, no cutoff can tell the pruned entries from the complete ones. */
  ghost predicate Faithful(entries: seq<Entry>, all: seq<Entry>, floor: Time) {
    forall cutoff :: floor <= cutoff ==> After(entries, cutoff) == After(all, cutoff)
  }

  ghost predicate LogOk(log: Log, history: seq<Activity>, floor: Time) {
    log.Keys == Recorded(history) && forall name :: name in log ==> Faithful(log[name], Of(history, name), floor)
  }

  function RecordIn(log: Log, e: Activity): Log {
    var name := TargetOf(e);
    log[name := (if name in log then log[name] else []) + [EntryOf(e)]]
  }

  function PruneAll(log: Log, cutoff: Time): Log {
    map name | name in log :: After(log[name], cutoff)
  }

  lemma FaithfulAppend(entries: seq<Entry>, all: seq<Entry>, floor: Time, e: Entry)
    requires Faithful(entries, all, floor)
    ensures Faithful(entries + [e], all + [e], floor)
  {
    forall cutoff | floor <= cutoff ensures After(entries + [e], cutoff) == After(all + [e], cutoff) {
      AfterAppend(entries, e, cutoff);
      AfterAppend(all, e, cutoff);
    }
  }

  lemma FaithfulPrune(entries: seq<Entry>, all: seq<Entry>, floor: Time, cutoff: Time)
    requires Faithful(entries, all, floor) && floor <= cutoff
    ensures Faithful(After(entries, cutoff), all, cutoff)
  {
    forall late | cutoff <= late ensures After(After(entries, cutoff), late) == After(all, late) {
      AfterTwice(entries, cutoff, late);
    }
  }

  lemma RecordedLast(history: seq<Activity>, e: Activity)
    ensures Recorded(history + [e]) == Recorded(history) + {TargetOf(e)}
  {
    forall x | x in Recorded(history) + {TargetOf(e)} ensures x in Recorded(history + [e]) {
      if x == TargetOf(e) {
        assert (history + [e])[|history|] == e;
      } else {
        var i :| 0 <= i < |history| && TargetOf(history[i]) == x;
        assert (history + [e])[i] == history[i];
      }
    }
  }

  lemma RecordKeepsLog(log: Log, history: seq<Activity>, floor: Time, e: Activity)
    requires LogOk(log, history, floor)
    ensures LogOk(RecordIn(log, e), history + [e], floor)
  {
    RecordedLast(history, e);
    var log', target := RecordIn(log, e), TargetOf(e);
    forall name | name in log' ensures Faithful(log'[name], Of(history + [e], name), floor) {
      OfLast(history, e, name);
      if name == target {
        if name !in log {
          OfUnrecorded(history, name);
        }
        FaithfulAppend(if name in log then log[name] else [], Of(history, name), floor, EntryOf(e));
      } else {
        assert Of(history, name) + [] == Of(history, name);
      }
    }
  }

  lemma PruneKeepsLog(log: Log, history: seq<Activity>, floor: Time, cutoff: Time)
    requires LogOk(log, history, floor) && floor <= cutoff
    ensures LogOk(PruneAll(log, cutoff), history, cutoff)
  {
    forall name | name in log ensures Faithful(After(log[name], cutoff), Of(history, name), cutoff) {
      FaithfulPrune(log[name], Of(history, name), floor, cutoff);
    }
  }

  datatype Event = RecordEvent(e: Activity) | SnapshotEvent(now: Time)

  /** The pruned log, the complete log, and the cutoff of the last snapshot. */
  datatype State = State(log: Log, history: seq<Activity>, floor: Time)

  function Next(s: State, e: Event): State {
    match e
    case RecordEvent(a) => s.(log := RecordIn(s.log, a), history := s.history + [a])
    case SnapshotEvent(now) => s.(log := PruneAll(s.log, now - WINDOW_SIZE), floor := now - WINDOW_SIZE)
  }

  ghost predicate StateOk(s: State) {
    LogOk(s.log, s.history, s.floor)
  }

  /** The clock of the snapshots never goes back. */
  predicate InOrder(s: State, e: Event) {
    e.SnapshotEvent? ==> s.floor <= e.now - WINDOW_SIZE
  }

  lemma StepKeepsLog(s: State, e: Event)
    requires StateOk(s) && InOrder(s, e)
    ensures StateOk(Next(s, e))
  {
    match e
    case RecordEvent(a) => RecordKeepsLog(s.log, s.history, s.floor, a);
    case SnapshotEvent(now) => PruneKeepsLog(s.log, s.history, s.floor, now - WINDOW_SIZE);
  }

  ghost predicate Run(states: seq<State>, events: seq<Event>) {
    && |states| == |events| + 1
    && states[0].log == map[] && states[0].history == []
    && forall i :: 0 <= i < |events| ==> InOrder(states[i], events[i]) && states[i + 1] == Next(states[i], events[i])
  }

  lemma {:induction false} RunKeepsLog(states: seq<State>, events: seq<Event>, n: nat)
    requires Run(states, events) && n < |states|
    ensures StateOk(states[n])
    decreases n
  {
    if n > 0 {
      RunKeepsLog(states, events, n - 1);
      StepKeepsLog(states[n - 1], events[n - 1]);
      assert states[n - 1 + 1] == Next(states[n - 1], events[n - 1]);
    }
  }

  /**
   In-place pruning loses nothing a later snapshot needs: after any run with a non-decreasing
   clock, each target's entries inside a window ending now or later are those of the full log.
   */
  lemma PruningLosesNothing(states: seq<State>, events: seq<Event>, n: nat, now: Time, name: string)
    requires Run(states, events) && n < |states| && states[n].floor <= now - WINDOW_SIZE
    ensures var s := states[n];
      && (name in s.log <==> name in Recorded(s.history))
      && (name in s.log ==> After(s.log[name], now - WINDOW_SIZE) == After(Of(s.history, name), now - WINDOW_SIZE))
  {
    RunKeepsLog(states, events, n);
    var s := states[n];
    assert name in s.log ==> Faithful(s.log[name], Of(s.history, name), s.floor);
  }

  // ---------- Totals ----------

  lemma {:induction false} CountAppend(entries: seq<Entry>, e: Entry)
    ensures CountErrors(entries + [e]) == CountErrors(entries) + (if e.isError then 1 else 0)
    ensures SumLatency(entries + [e]) == SumLatency(entries) + e.latency
  {
    if entries == [] {
      assert entries + [e] == [e] && [e][1..] == [];
    } else {
      CountAppend(entries[1..], e);
      assert (entries + [e])[1..] == entries[1..] + [e];
    }
  }

  lemma OwnStep(prev: seq<Activity>, e: Activity, name: string, cutoff: Time)
    ensures After(Of(prev + [e], name), cutoff)
      == if TargetOf(e) == name && cutoff < e.ts then After(Of(prev, name), cutoff) + [EntryOf(e)] else After(Of(prev, name), cutoff)
  {
    OfLast(prev, e, name);
    AfterAppend(Of(prev, name), EntryOf(e), cutoff);
    assert Of(prev, name) + [] == Of(prev, name);
    assert After(Of(prev, name), cutoff) + [] == After(Of(prev, name), cutoff);
  }

  /** How many, how many errors, and how much latency. */
  function Sums(entries: seq<Entry>): (nat, nat, real) {
    (|entries|, CountErrors(entries), SumLatency(entries))
  }

  function Add(a: (nat, nat, real), b: (nat, nat, real)): (nat, nat, real) {
    (a.0 + b.0, a.1 + b.1, a.2 + b.2)
  }

  /** One more target adds its own entries to the window, no matter which came before. */
  lemma {:induction false} WindowAdds(history: seq<Activity>, names: set<string>, name: string, cutoff: Time)
    requires name !in names
    ensures Sums(Window(history, names + {name}, cutoff))
      == Add(Sums(Window(history, names, cutoff)), Sums(After(Of(history, name), cutoff)))
    decreases |history|
  {
    if history != [] {
      var prev, e := history[..|history| - 1], history[|history| - 1];
      assert history == prev + [e];
      WindowAdds(prev, names, name, cutoff);
      WindowStep(prev, e, names, cutoff);
      WindowStep(prev, e, names + {name}, cutoff);
      OwnStep(prev, e, name, cutoff);
      AddsStep(Window(prev, names, cutoff), Window(prev, names + {name}, cutoff), After(Of(prev, name), cutoff), EntryOf(e),
               TargetOf(e) in names && cutoff < e.ts, TargetOf(e) == name && cutoff < e.ts);
    }
  }

  function AppendIf(entries: seq<Entry>, e: Entry, present: bool): seq<Entry> {
    if present then entries + [e] else entries
  }

  lemma AddsStep(before: seq<Entry>, after: seq<Entry>, own: seq<Entry>, e: Entry, inBefore: bool, inOwn: bool)
    requires Sums(after) == Add(Sums(before), Sums(own)) && !(inBefore && inOwn)
    ensures Sums(AppendIf(after, e, inBefore || inOwn)) == Add(Sums(AppendIf(before, e, inBefore)), Sums(AppendIf(own, e, inOwn)))
  {
    CountAppend(before, e);
    CountAppend(after, e);
    CountAppend(own, e);
  }

  lemma WindowStep(prev: seq<Activity>, e: Activity, names: set<string>, cutoff: Time)
    ensures Window(prev + [e], names, cutoff)
      == if TargetOf(e) in names && cutoff < e.ts then Window(prev, names, cutoff) + [EntryOf(e)] else Window(prev, names, cutoff)
  {
    assert (prev + [e])[..|prev|] == prev;
    assert Window(prev, names, cutoff) + [] == Window(prev, names, cutoff);
  }

  lemma {:induction false} WindowNone(history: seq<Activity>, cutoff: Time)
    ensures Window(history, {}, cutoff) == []
    decreases |history|
  {
    if history != [] {
      WindowNone(history[..|history| - 1], cutoff);
    }
  }

  /** The part of a snapshot that covers the targets in `done`. */
  datatype Partial = Partial(sums: (nat, nat, real), stats: map<string, TargetStats>)

  function PartialOf(history: seq<Activity>, done: set<string>, cutoff: Time): Partial {
    Partial(
      Sums(Window(history, done, cutoff)),
      map name | name in done && After(Of(history, name), cutoff) != [] :: StatsOf(After(Of(history, name), cutoff)))
  }

  lemma PartialAdds(history: seq<Activity>, done: set<string>, name: string, cutoff: Time)
    requires name !in done
    ensures var p, own := PartialOf(history, done, cutoff), After(Of(history, name), cutoff);
      PartialOf(history, done + {name}, cutoff)
        == Partial(Add(p.sums, Sums(own)), if own == [] then p.stats else p.stats[name := StatsOf(own)])
  {
    WindowAdds(history, done, name, cutoff);
  }

  function Conclude(p: Partial, now: Time): Snapshot {
    var (requests, errors, latency) := p.sums;
    Snapshot(now, requests, errors,
             if requests == 0 then 0.0 else latency / requests as real,
             if requests == 0 then 0.0 else errors as real / requests as real,
             p.stats)
  }

  lemma ConcludeAll(history: seq<Activity>, now: Time)
    ensures Conclude(PartialOf(history, Recorded(history), now - WINDOW_SIZE), now) == Reference(history, now)
  {
  }

  ghost function PruneSome(log: Log, done: set<string>, cutoff: Time): Log {
    map name | name in log :: if name in done then After(log[name], cutoff) else log[name]
  }

  lemma PruneSomeStep(log: Log, done: set<string>, name: string, cutoff: Time)
    requires name in log && name !in done
    ensures PruneSome(log, done, cutoff)[name] == log[name]
    ensures PruneSome(log, done, cutoff)[name := After(log[name], cutoff)] == PruneSome(log, done + {name}, cutoff)
  {
  }

  /** One more target visited, seen from the whole log and from the complete history. */
  lemma VisitStep(log: Log, history: seq<Activity>, floor: Time, cutoff: Time, done: set<string>, name: string)
    requires LogOk(log, history, floor) && floor <= cutoff && name in log && name !in done
    ensures var before, own, p := PruneSome(log, done, cutoff), After(Of(history, name), cutoff), PartialOf(history, done, cutoff);
      && After(before[name], cutoff) == own
      && PruneSome(log, done + {name}, cutoff) == before[name := own]
      && PartialOf(history, done + {name}, cutoff)
        == Partial(Add(p.sums, Sums(own)), if own == [] then p.stats else p.stats[name := StatsOf(own)])
  {
    assert Faithful(log[name], Of(history, name), floor);
    PruneSomeStep(log, done, name, cutoff);
    PartialAdds(history, done, name, cutoff);
  }

  const NOTHING_YET := Partial((0, 0, 0.0), map[])

  lemma NoTargets(log: Log, history: seq<Activity>, cutoff: Time)
    ensures PruneSome(log, {}, cutoff) == log
    ensures PartialOf(history, {}, cutoff) == NOTHING_YET
  {
    WindowNone(history, cutoff);
  }

  /** One round of the loop over the targets. */
  function FoldStep(log: Log, p: Partial, name: string, cutoff: Time): (Log, Partial) {
    if name !in log then (log, p)
    else
      var own := After(log[name], cutoff);
      (log[name := own], Partial(Add(p.sums, Sums(own)), if own == [] then p.stats else p.stats[name := StatsOf(own)]))
  }

  ghost function Fold(log: Log, p: Partial, order: seq<string>, cutoff: Time): (Log, Partial)
    decreases |order|
  {
    if order == [] then (log, p)
    else
      var (log', p') := FoldStep(log, p, order[0], cutoff);
      Fold(log', p', order[1..], cutoff)
  }

  lemma FoldOne(log: Log, history: seq<Activity>, floor: Time, cutoff: Time, done: set<string>, name: string)
    requires LogOk(log, history, floor) && floor <= cutoff && name in log && name !in done
    ensures FoldStep(PruneSome(log, done, cutoff), PartialOf(history, done, cutoff), name, cutoff)
         == (PruneSome(log, done + {name}, cutoff), PartialOf(history, done + {name}, cutoff))
  {
    VisitStep(log, history, floor, cutoff, done, name);
  }

  lemma FoldFirst(log: Log, p: Partial, order: seq<string>, cutoff: Time, log': Log, p': Partial)
    requires order != [] && FoldStep(log, p, order[0], cutoff) == (log', p')
    ensures Fold(log, p, order, cutoff) == Fold(log', p', order[1..], cutoff)
  {
  }

  lemma NextKeys(keys: set<string>, done: set<string>, order: seq<string>)
    requires done <= keys && Visits(order, keys - done)
    ensures order == [] ==> done == keys
    ensures order != [] ==>
      order[0] in keys && order[0] !in done && done + {order[0]} <= keys && Visits(order[1..], keys - (done + {order[0]}))
  {
    VisitsNothing(order, keys - done);
    if order == [] {
      assert forall k :: k in keys ==> k in done || k in keys - done;
    } else {
      VisitsRest(order, keys - done);
      assert keys - (done + {order[0]}) == keys - done - {order[0]};
    }
  }

  lemma {:induction false} FoldRest(log: Log, history: seq<Activity>, floor: Time, cutoff: Time, done: set<string>, order: seq<string>)
    requires LogOk(log, history, floor) && floor <= cutoff
    requires done <= log.Keys && Visits(order, log.Keys - done)
    ensures Fold(PruneSome(log, done, cutoff), PartialOf(history, done, cutoff), order, cutoff)
         == (PruneSome(log, log.Keys, cutoff), PartialOf(history, log.Keys, cutoff))
    decreases |order|
  {
    NextKeys(log.Keys, done, order);
    if order != [] {
      var next := done + {order[0]};
      FoldOne(log, history, floor, cutoff, done, order[0]);
      FoldFirst(PruneSome(log, done, cutoff), PartialOf(history, done, cutoff), order, cutoff,
                PruneSome(log, next, cutoff), PartialOf(history, next, cutoff));
      FoldRest(log, history, floor, cutoff, next, order[1..]);
    }
  }

  lemma PruneEvery(log: Log, cutoff: Time)
    ensures PruneSome(log, log.Keys, cutoff) == PruneAll(log, cutoff)
  {
  }

  lemma VisitsFromNone(order: seq<string>, keys: set<string>)
    requires Visits(order, keys)
    ensures Visits(order, keys - {})
  {
    assert keys - {} == keys;
  }

  /** The loop prunes every log and adds up the window, whatever order it meets the targets in. */
  lemma FoldAnyOrder(log: Log, history: seq<Activity>, floor: Time, order: seq<string>, cutoff: Time)
    requires LogOk(log, history, floor) && floor <= cutoff && Visits(order, log.Keys)
    ensures Fold(log, NOTHING_YET, order, cutoff) == (PruneAll(log, cutoff), PartialOf(history, Recorded(history), cutoff))
  {
    NoTargets(log, history, cutoff);
    VisitsFromNone(order, log.Keys);
    FoldRest(log, history, floor, cutoff, {}, order);
    PruneEvery(log, cutoff);
  }

  // ---------- What a snapshot says of the activities ----------

  /** Less than five minutes old. */
  predicate Recent(e: Activity, now: Time) {
    now < e.ts + 300_000_000_000
  }

  /** The places in the history of the activities that a question is about. */
  ghost function Places(history: seq<Activity>, about: Activity -> bool): set<int> {
    set i | 0 <= i < |history| && about(history[i])
  }

  function TotalLatency(history: seq<Activity>, about: Activity -> bool): real {
    if history == [] then 0.0
    else
      var e := history[|history| - 1];
      TotalLatency(history[..|history| - 1], about) + if about(e) then e.latency else 0.0
  }

  lemma PlacesLast(history: seq<Activity>, e: Activity, about: Activity -> bool)
    ensures |Places(history + [e], about)| == |Places(history, about)| + if about(e) then 1 else 0
    ensures TotalLatency(history + [e], about) == TotalLatency(history, about) + if about(e) then e.latency else 0.0
  {
    var n := |history|;
    assert (history + [e])[..n] == history;
    assert Places(history + [e], about) == Places(history, about) + if about(e) then {n} else {};
  }

  /** Entries that stand for the activities picked out, by number, errors and latency. */
  ghost predicate StandFor(entries: seq<Entry>, history: seq<Activity>, about: Activity -> bool, failed: Activity -> bool) {
    && |entries| == |Places(history, about)|
    && CountErrors(entries) == |Places(history, failed)|
    && SumLatency(entries) == TotalLatency(history, about)
  }

  lemma {:induction false} WindowStandsFor(history: seq<Activity>, names: set<string>, now: Time)
    requires Recorded(history) <= names
    ensures StandFor(Window(history, names, now - WINDOW_SIZE), history, e => Recent(e, now), e => Recent(e, now) && e.status == "error")
    decreases |history|
  {
    var about, failed := (e: Activity) => Recent(e, now), (e: Activity) => Recent(e, now) && e.status == "error";
    if history == [] {
      assert Places(history, about) == {} && Places(history, failed) == {};
    } else {
      var prev, e := history[..|history| - 1], history[|history| - 1];
      assert history == prev + [e];
      RecordedLast(prev, e);
      WindowStandsFor(prev, names, now);
      WindowStep(prev, e, names, now - WINDOW_SIZE);
      PlacesLast(prev, e, about);
      PlacesLast(prev, e, failed);
      CountAppend(Window(prev, names, now - WINDOW_SIZE), EntryOf(e));
    }
  }

  /** The name under which an activity is counted. */
  predicate CountedUnder(e: Activity, name: string) {
    name == if e.target == "" then "_gateway" else e.target
  }

  lemma {:induction false} OwnStandsFor(history: seq<Activity>, name: string, now: Time)
    ensures StandFor(After(Of(history, name), now - WINDOW_SIZE), history,
                     e => Recent(e, now) && CountedUnder(e, name), e => Recent(e, now) && CountedUnder(e, name) && e.status == "error")
    decreases |history|
  {
    var about := (e: Activity) => Recent(e, now) && CountedUnder(e, name);
    var failed := (e: Activity) => Recent(e, now) && CountedUnder(e, name) && e.status == "error";
    if history == [] {
      assert Places(history, about) == {} && Places(history, failed) == {};
    } else {
      var prev, e := history[..|history| - 1], history[|history| - 1];
      assert history == prev + [e];
      OwnStandsFor(prev, name, now);
      OwnStep(prev, e, name, now - WINDOW_SIZE);
      PlacesLast(prev, e, about);
      PlacesLast(prev, e, failed);
      CountAppend(After(Of(prev, name), now - WINDOW_SIZE), EntryOf(e));
    }
  }

  /** A part of a whole, or nothing of nothing. */
  predicate IsShare(share: real, part: real, whole: nat) {
    if whole == 0 then share == 0.0 else share * whole as real == part
  }

  /** The totals of a snapshot: the recent activities, those with the status "error", and their average latency and rate. */
  lemma TotalsMean(history: seq<Activity>, now: Time)
    ensures var snap := Reference(history, now);
      var about, failed := (e: Activity) => Recent(e, now), (e: Activity) => Recent(e, now) && e.status == "error";
      && snap.timestamp == now
      && snap.totalRequests == |Places(history, about)| && snap.totalErrors == |Places(history, failed)|
      && IsShare(snap.avgLatency, TotalLatency(history, about), snap.totalRequests)
      && IsShare(snap.errorRate, snap.totalErrors as real, snap.totalRequests)
  {
    WindowStandsFor(history, Recorded(history), now);
  }

  lemma ShareTaken(part: real, whole: nat)
    requires whole > 0
    ensures part / whole as real * whole as real == part
  {
  }

  lemma StatsMean(entries: seq<Entry>)
    requires entries != []
    ensures var stats := StatsOf(entries);
      && stats.requests == |entries| && stats.errors == CountErrors(entries) && stats.totalLatency == SumLatency(entries)
      && IsShare(stats.avgLatency, stats.totalLatency, stats.requests)
      && IsShare(stats.errorRate, stats.errors as real, stats.requests)
      && stats.rps * 300.0 == stats.requests as real
  {
    ShareTaken(SumLatency(entries), |entries|);
    ShareTaken(CountErrors(entries) as real, |entries|);
  }

  lemma HasLine(history: seq<Activity>, now: Time, name: string)
    ensures var own := After(Of(history, name), now - WINDOW_SIZE);
      && (name in Reference(history, now).targets <==> own != [])
      && (own != [] ==> Reference(history, now).targets[name] == StatsOf(own))
  {
    if name !in Recorded(history) {
      OfUnrecorded(history, name);
    }
  }

  /** A target's line in a snapshot: there just when it has recent activities, and then their number, errors, latency and rates. */
  lemma TargetsMean(history: seq<Activity>, now: Time, name: string)
    ensures var snap := Reference(history, now);
      var about := (e: Activity) => Recent(e, now) && CountedUnder(e, name);
      var failed := (e: Activity) => Recent(e, now) && CountedUnder(e, name) && e.status == "error";
      && (name in snap.targets <==> |Places(history, about)| != 0)
      && (name in snap.targets ==>
            var stats := snap.targets[name];
            && stats.requests == |Places(history, about)| && stats.errors == |Places(history, failed)|
            && stats.totalLatency == TotalLatency(history, about)
            && IsShare(stats.avgLatency, stats.totalLatency, stats.requests)
            && IsShare(stats.errorRate, stats.errors as real, stats.requests)
            && stats.rps * 300.0 == stats.requests as real)
  {
    OwnStandsFor(history, name, now);
    HasLine(history, now, name);
    var own := After(Of(history, name), now - WINDOW_SIZE);
    if own != [] {
      StatsMean(own);
    }
  }

  // ---------- The code ----------

  class Aggregator {
    var targets: Log
    /** Everything ever recorded, and the cutoff of the last snapshot. */
    ghost var history: seq<Activity>
    ghost var floor: Time

    ghost predicate Valid()
      reads this
    {
      StateOk(State(targets, history, floor))
    }

    constructor (ghost start: Time)
      ensures Valid() && history == [] && floor == start
    {
      targets, history, floor := map[], [], start;
    }

    method Record(e: Activity)
      requires Valid()
      modifies this
      ensures Valid() && targets == RecordIn(old(targets), e) && history == old(history) + [e] && floor == old(floor)
    {
      StepKeepsLog(State(targets, history, floor), RecordEvent(e));
      var target := e.target;
      if target == "" {
        target := "_gateway";
      }
      var entries := [];
      if target in targets {
        entries := targets[target];
      }
      targets := targets[target := entries + [Entry(e.ts, e.latency, e.status == "error")]];
      history := history + [e];
    }

    /** One round of the loop over the targets: prune the entries, and add them up if any are left. */
    method VisitTarget(name: string, cutoff: Time, p: Partial) returns (p': Partial)
      requires name in targets
      modifies this`targets
      ensures targets == old(targets)[name := After(old(targets)[name], cutoff)]
      ensures var own := After(old(targets)[name], cutoff);
        p' == Partial(Add(p.sums, Sums(own)), if own == [] then p.stats else p.stats[name := StatsOf(own)])
    {
      var entries := After(targets[name], cutoff);
      targets := targets[name := entries];
      p' := p;
      if entries != [] {
        var ts := ComputeStats(entries);
        p' := Partial(Add(p.sums, (ts.requests, ts.errors, ts.totalLatency)), p.stats[name := ts]);
      }
    }

    /** The loop, in whatever order it meets the targets. */
    method VisitEach(cutoff: Time) returns (p: Partial, ghost order: seq<string>)
      modifies this`targets
      ensures Visits(order, old(targets).Keys)
      ensures (targets, p) == Fold(old(targets), NOTHING_YET, order, cutoff)
    {
      var names := AnyOrder(targets.Keys);
      order := names;
      p := NOTHING_YET;
      var i := 0;
      while i < |names|
        invariant 0 <= i <= |names|
        invariant forall k :: k in names ==> k in targets
        invariant Fold(targets, p, names[i..], cutoff) == Fold(old(targets), NOTHING_YET, names, cutoff)
      {
        assert names[i..][0] == names[i] && names[i..][1..] == names[i + 1..];
        p := VisitTarget(names[i], cutoff, p);
        i := i + 1;
      }
      assert names[i..] == [];
    }

    method VisitTargets(cutoff: Time) returns (p: Partial)
      requires Valid() && floor <= cutoff
      modifies this`targets
      ensures targets == PruneAll(old(targets), cutoff)
      ensures p == PartialOf(history, Recorded(history), cutoff)
    {
      ghost var start, all, low := targets, history, floor;
      ghost var order;
      p, order := VisitEach(cutoff);
      FoldAnyOrder(start, all, low, order, cutoff);
    }

    /** Prunes the log, and gives exactly the statistics of the complete log over the window. */
    method TakeSnapshot(now: Time) returns (snap: Snapshot)
      requires Valid() && floor <= now - WINDOW_SIZE
      modifies this
      ensures Valid() && history == old(history) && floor == now - WINDOW_SIZE
      ensures targets == PruneAll(old(targets), now - WINDOW_SIZE)
      ensures snap == Reference(history, now)
    {
      PruneWindow(now - WINDOW_SIZE);
      var p := VisitTargets(now - WINDOW_SIZE);
      floor := now - WINDOW_SIZE;
      snap := Conclude(p, now);
      ConcludeAll(history, now);
    }

    lemma PruneWindow(cutoff: Time)
      requires Valid() && floor <= cutoff
      ensures StateOk(State(PruneAll(targets, cutoff), history, cutoff))
    {
      PruneKeepsLog(targets, history, floor, cutoff);
    }
  }
}
