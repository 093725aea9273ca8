/**
 Server-Sent Events as the gateway reads and writes them: a stateful line loop on the
 reading side, a printer that splits data into lines on the writing side, and the exact
 condition under which the two are inverse to each other.
 */
module Sse {
  import opened Wrappers
  import opened Text

  /** Go's `int` on a 64-bit platform. */
  type Int64 = n: int | -0x8000_0000_0000_0000 <= n < 0x8000_0000_0000_0000

  datatype Event = Event(event: string, data: string, id: string, retry: Int64)

  const BLANK := Event("", "", "", 0)

  /** What one call of the reader gives: an event, `io.EOF`, or another read error. */
  datatype Outcome = Got(event: Event) | EndOfInput | Broken

  // ---------- The `%d` verb of `fmt.Sscanf` ----------

  /** The characters the scanner skips as white space. */
  predicate IsSpace(c: char) {
    var n := c as int;
    9 <= n <= 13 || n == 0x20 || n == 0x85 || n == 0xa0 || n == 0x1680 || 0x2000 <= n <= 0x200a
    || n == 0x2028 || n == 0x2029 || n == 0x202f || n == 0x205f || n == 0x3000
  }

  function SkipSpaces(s: string): string {
    if s != "" && IsSpace(s[0]) then SkipSpaces(s[1..]) else s
  }

  function LeadingDigits(s: string): (d: string)
    ensures forall i :: 0 <= i < |d| ==> IsDigit(d[i])
  {
    if s != "" && IsDigit(s[0]) then [s[0]] + LeadingDigits(s[1..]) else ""
  }

  /** The integer a value starts with, or None when there is none or it does not fit. */
  function ScanInt(value: string): Option<Int64> {
    var s := SkipSpaces(value);
    var signed := s != "" && (s[0] == '+' || s[0] == '-');
    var digits := LeadingDigits(if signed then s[1..] else s);
    if digits == "" then None
    else
      var magnitude: int := DigitsValue(digits);
      var n := if signed && s[0] == '-' then -magnitude else magnitude;
      if -0x8000_0000_0000_0000 <= n < 0x8000_0000_0000_0000 then Some(n) else None
  }

  lemma LeadingDigitsAll(s: string)
    requires forall i :: 0 <= i < |s| ==> IsDigit(s[i])
    ensures LeadingDigits(s) == s
  {
    if s != "" {
      LeadingDigitsAll(s[1..]);
    }
  }

  lemma ScanPrinted(n: Int64)
    requires 0 < n
    ensures ScanInt(Decimal(n)) == Some(n)
  {
    assert IsDigit(Decimal(n)[0]);
    LeadingDigitsAll(Decimal(n));
    DecimalValue(n);
  }

  // ---------- Reading ----------

  /** The switch over field names. */
  function SetField(e: Event, field: string, value: string): Event {
    if field == "event" then e.(event := value)
    else if field == "data" then e.(data := e.data + value + "\n")
    else if field == "id" then e.(id := value)
    else if field == "retry" then
      match ScanInt(value) { case Some(n) => e.(retry := n) case None => e }
    else e
  }

  /** One non-blank line: a comment, or a field with an optional value. */
  function ApplyLine(e: Event, line: string): Event
    requires line != ""
  {
    if line[0] == ':' then e
    else
      var colon := IndexOf(line, ':');
      if colon == -1 then SetField(e, line, "")
      else
        var value := line[colon + 1..];
        SetField(e, line[..colon], if value != "" && value[0] == ' ' then value[1..] else value)
  }

  /** Reads the rest of the current event `e`; also gives the input left over. */
  function Read(input: string, e: Event, broken: bool): (r: (Outcome, string))
    ensures |r.1| <= |input|
    ensures r.0.Got? && e.data == "" ==> |r.1| < |input|
    decreases |input|
  {
    var i := IndexOf(input, '\n');
    if i == -1 then
      (if broken then Broken else if e.data != "" then Got(e) else EndOfInput, "")
    else
      var line, rest := TrimSuffix(input[..i], '\r'), input[i + 1..];
      if line == "" then
        if e.data != "" || e.event != "" then (Got(e.(data := TrimSuffix(e.data, '\n'))), rest)
        else Read(rest, e, broken)
      else Read(rest, ApplyLine(e, line), broken)
  }

  /** The reader's object: what is left of the stream, and whether it ends in an error other than EOF. */
  class SseReader {
    var rest: string
    const broken: bool

    constructor (input: string, broken: bool)
      ensures rest == input && this.broken == broken
    {
      this.rest, this.broken := input, broken;
    }

    method ReadEvent() returns (r: Outcome)
      modifies this
      ensures (r, rest) == Read(old(rest), BLANK, broken)
    {
      var e := BLANK;
      while true
        invariant Read(rest, e, broken) == Read(old(rest), BLANK, broken)
        decreases |rest|
      {
        var i := IndexOf(rest, '\n');
        if i == -1 {
          rest := "";
          if !broken && e.data != "" {
            return Got(e);
          }
          return if broken then Broken else EndOfInput;
        }
        var line := TrimSuffix(rest[..i], '\r');
        rest := rest[i + 1..];
        if line == "" {
          if e.data != "" || e.event != "" {
            e := e.(data := TrimSuffix(e.data, '\n'));
            return Got(e);
          }
          continue;
        }
        e := ReadLine(e, line);
      }
    }

    /** The part of the loop that handles one non-blank line. */
    static method ReadLine(e: Event, line: string) returns (e': Event)
      requires line != ""
      ensures e' == ApplyLine(e, line)
    {
      if line[0] == ':' {
        return e;
      }
      var colon := IndexOf(line, ':');
      var field, value := line, "";
      if colon != -1 {
        field, value := line[..colon], line[colon + 1..];
        if value != "" && value[0] == ' ' {
          value := value[1..];
        }
      }
      e' := SetField(e, field, value);
    }
  }

  /** Calls the reader until it stops giving events. */
  function ReadAll(input: string, broken: bool): (seq<Event>, Outcome)
    decreases |input|
  {
    var (r, rest) := Read(input, BLANK, broken);
    match r
    case Got(e) => var (es, end) := ReadAll(rest, broken); ([e] + es, end)
    case _ => ([], r)
  }

  // ---------- Writing ----------

  function PrintField(name: string, value: string): string {
    name + ": " + value + "\n"
  }

  function PrintData(lines: seq<string>): string {
    if lines == [] then "" else PrintField("data", lines[0]) + PrintData(lines[1..])
  }

  function Optional(present: bool, name: string, value: string): string {
    if present then PrintField(name, value) else ""
  }

  function RetryLine(retry: Int64): string {
    if 0 < retry then PrintField("retry", Decimal(retry)) else ""
  }

  function PrintHead(e: Event): string {
    Optional(e.event != "", "event", e.event) + Optional(e.id != "", "id", e.id) + RetryLine(e.retry)
  }

  /** The text of one event on the wire. */
  function Print(e: Event): string {
    PrintHead(e) + PrintData(Split(e.data, '\n')) + "\n"
  }

  function PrintAll(es: seq<Event>): string {
    if es == [] then "" else Print(es[0]) + PrintAll(es[1..])
  }

  /** The writer's object: a response that accepts some number of writes before it fails. */
  class SseWriter {
    var out: string
    var writesLeft: nat

    constructor (writesLeft: nat)
      ensures out == "" && this.writesLeft == writesLeft
    {
      out, this.writesLeft := "", writesLeft;
    }

    method Write(s: string) returns (ok: bool)
      modifies this
      ensures ok == (0 < old(writesLeft))
      ensures out == if ok then old(out) + s else old(out)
      ensures writesLeft == if ok then old(writesLeft) - 1 else 0
    {
      ok := 0 < writesLeft;
      if ok {
        out, writesLeft := out + s, writesLeft - 1;
      }
    }

    /** Writes one optional field line. */
    method WriteField(present: bool, text: string) returns (ok: bool)
      modifies this
      ensures ok ==> out == old(out) + (if present then text else "")
      ensures old(out) <= out <= old(out) + (if present then text else "")
    {
      ok := true;
      if present {
        ok := Write(text);
      }
    }

    method WriteHead(e: Event) returns (ok: bool)
      modifies this
      ensures ok ==> out == old(out) + PrintHead(e)
      ensures old(out) <= out <= old(out) + PrintHead(e)
    {
      ghost var start := out;
      ghost var head := PrintHead(e);
      ghost var v, i, r := Optional(e.event != "", "event", e.event), Optional(e.id != "", "id", e.id), RetryLine(e.retry);
      Associate(start, v, i, r);
      ok := WriteField(e.event != "", PrintField("event", e.event));
      if ok {
        ok := WriteField(e.id != "", PrintField("id", e.id));
        if ok {
          ok := WriteField(0 < e.retry, RetryLine(e.retry));
        }
      }
    }

    method WriteLines(lines: seq<string>) returns (ok: bool)
      modifies this
      ensures ok ==> out == old(out) + PrintData(lines)
      ensures old(out) <= out <= old(out) + PrintData(lines)
    {
      ok := true;
      var i := 0;
      while i < |lines|
        invariant 0 <= i <= |lines| && ok
        invariant old(out) <= out
        invariant out + PrintData(lines[i..]) == old(out) + PrintData(lines)
      {
        PrintDataStep(out, lines, i);
        ok := Write(PrintField("data", lines[i]));
        if !ok {
          PrefixOf(out, PrintData(lines[i..]), old(out) + PrintData(lines));
          return;
        }
        i := i + 1;
      }
      assert lines[i..] == [];
    }

    /** Success puts exactly the event's text on the wire; a failed write leaves a prefix of it. */
    method WriteEvent(e: Event) returns (ok: bool)
      modifies this
      ensures ok ==> out == old(out) + Print(e)
      ensures old(out) <= out <= old(out) + Print(e)
    {
      var lines := Split(e.data, '\n');
      Associate(out, PrintHead(e), PrintData(lines), "\n");
      ok := WriteHead(e);
      if ok {
        ok := WriteLines(lines);
        if ok {
          ok := Write("\n");
        }
      }
    }
  }

  /** Writing three texts one after the other, and the prefixes passed on the way. */
  lemma Associate(start: string, a: string, b: string, c: string)
    ensures start + a + b + c == start + (a + b + c)
    ensures start + a <= start + (a + b + c)
    ensures start + a + b <= start + (a + b + c)
  {
  }

  lemma PrintDataStep(out: string, lines: seq<string>, i: nat)
    requires i < |lines|
    ensures out + PrintData(lines[i..]) == (out + PrintField("data", lines[i])) + PrintData(lines[i + 1..])
  {
    assert lines[i..][0] == lines[i] && lines[i..][1..] == lines[i + 1..];
  }

  lemma PrefixOf(a: string, b: string, whole: string)
    requires a + b == whole
    ensures a <= whole
  {
  }

  // ---------- What the reader makes of printed text ----------

  /** Each line loses one CR at its end. */
  function TrimLines(lines: seq<string>): (r: seq<string>)
    ensures |r| == |lines|
    ensures forall i :: 0 <= i < |r| ==> r[i] == TrimSuffix(lines[i], '\r')
  {
    if lines == [] then [] else [TrimSuffix(lines[0], '\r')] + TrimLines(lines[1..])
  }

  /** The event that arrives when `e` is sent, provided its name and identifier hold no LF. */
  function Received(e: Event): Event {
    Event(TrimSuffix(e.event, '\r'), Join(TrimLines(Split(e.data, '\n')), '\n'), TrimSuffix(e.id, '\r'), if 0 < e.retry then e.retry else 0)
  }

  /** `e` as the wire format can carry it: a non-positive retry is not sent. */
  function Normal(e: Event): Event {
    e.(retry := if 0 < e.retry then e.retry else 0)
  }

  /** The events that survive the wire: a check on the fields before sending. */
  predicate Clean(e: Event) {
    && '\n' !in e.event && !EndsIn(e.event, '\r')
    && '\n' !in e.id && !EndsIn(e.id, '\r')
    && forall line :: line in Split(e.data, '\n') ==> !EndsIn(line, '\r')
  }

  lemma ReadsLine(line: string, rest: string, e: Event, broken: bool)
    requires '\n' !in line && TrimSuffix(line, '\r') != ""
    ensures Read(line + "\n" + rest, e, broken) == Read(rest, ApplyLine(e, TrimSuffix(line, '\r')), broken)
  {
    IndexOfAfter(line, '\n', rest);
    var input := line + "\n" + rest;
    assert input == line + ['\n'] + rest;
    assert input[..|line|] == line && input[|line| + 1..] == rest;
  }

  lemma AppliesField(name: string, v: string, e: Event)
    requires name != "" && ':' !in name
    ensures ApplyLine(e, name + ": " + v) == SetField(e, name, v)
  {
    var line := name + ": " + v;
    assert line == name + [':'] + (" " + v);
    IndexOfAfter(name, ':', " " + v);
    assert line[..|name|] == name && line[|name| + 1..] == " " + v;
    assert line[0] == name[0] && name[0] in name;
    assert (" " + v)[1..] == v;
  }

  /** A printed field sets that field, whatever its value holds besides LF: only one CR at its end is lost. */
  lemma ReadsField(name: string, value: string, rest: string, e: Event, broken: bool)
    requires name != "" && ':' !in name && '\n' !in name && '\n' !in value
    ensures Read(PrintField(name, value) + rest, e, broken) == Read(rest, SetField(e, name, TrimSuffix(value, '\r')), broken)
  {
    var line, v := name + ": " + value, TrimSuffix(value, '\r');
    assert TrimSuffix(line, '\r') == name + ": " + v;
    AppliesField(name, v, e);
    ReadsLine(line, rest, e, broken);
    assert PrintField(name, value) + rest == line + "\n" + rest;
  }

  /** The data accumulated from lines: each followed by LF. */
  function Unlines(lines: seq<string>): string {
    if lines == [] then "" else lines[0] + "\n" + Unlines(lines[1..])
  }

  lemma {:induction false} UnlinesJoin(lines: seq<string>)
    requires lines != []
    ensures Unlines(lines) == Join(lines, '\n') + "\n"
  {
    if |lines| > 1 {
      UnlinesJoin(lines[1..]);
    }
  }

  /** Reading `text` takes the event under construction from `e` to `e'`, whatever follows. */
  ghost predicate Moves(text: string, e: Event, e': Event) {
    forall rest, broken :: Read(text + rest, e, broken) == Read(rest, e', broken)
  }

  lemma MovesNothing(e: Event)
    ensures Moves("", e, e)
  {
    forall rest, broken ensures Read("" + rest, e, broken) == Read(rest, e, broken) {
      assert "" + rest == rest;
    }
  }

  lemma MovesConcat(a: string, b: string, e: Event, e': Event, e'': Event)
    requires Moves(a, e, e') && Moves(b, e', e'')
    ensures Moves(a + b, e, e'')
  {
    forall rest, broken ensures Read((a + b) + rest, e, broken) == Read(rest, e'', broken) {
      assert (a + b) + rest == a + (b + rest);
    }
  }

  lemma MovesField(name: string, value: string, e: Event)
    requires name != "" && ':' !in name && '\n' !in name && '\n' !in value
    ensures Moves(PrintField(name, value), e, SetField(e, name, TrimSuffix(value, '\r')))
  {
    forall rest, broken
      ensures Read(PrintField(name, value) + rest, e, broken) == Read(rest, SetField(e, name, TrimSuffix(value, '\r')), broken)
    {
      ReadsField(name, value, rest, e, broken);
    }
  }

  lemma {:induction false} MovesData(lines: seq<string>, e: Event)
    requires forall i :: 0 <= i < |lines| ==> '\n' !in lines[i]
    ensures Moves(PrintData(lines), e, e.(data := e.data + Unlines(TrimLines(lines))))
  {
    if lines == [] {
      MovesNothing(e);
      assert e.data + "" == e.data;
    } else {
      var v := TrimSuffix(lines[0], '\r');
      var e' := SetField(e, "data", v);
      MovesField("data", lines[0], e);
      MovesData(lines[1..], e');
      assert TrimLines(lines)[1..] == TrimLines(lines[1..]);
      var more := Unlines(TrimLines(lines[1..]));
      assert e.data + v + "\n" + more == e.data + (v + "\n" + more);
      MovesConcat(PrintField("data", lines[0]), PrintData(lines[1..]), e, e', e'.(data := e'.data + more));
    }
  }

  lemma MovesHead(e: Event)
    requires '\n' !in e.event && '\n' !in e.id
    ensures Moves(PrintHead(e), BLANK, Received(e).(data := ""))
  {
    var e1 := BLANK.(event := TrimSuffix(e.event, '\r'));
    var e2 := e1.(id := TrimSuffix(e.id, '\r'));
    var e3 := Received(e).(data := "");
    var v, i, r := Optional(e.event != "", "event", e.event), Optional(e.id != "", "id", e.id), RetryLine(e.retry);
    if e.event != "" { MovesField("event", e.event, BLANK); } else { MovesNothing(BLANK); }
    if e.id != "" { MovesField("id", e.id, e1); } else { MovesNothing(e1); }
    if 0 < e.retry { MovesRetry(e.retry, e2); } else { MovesNothing(e2); }
    MovesConcat(v, i, BLANK, e1, e2);
    MovesConcat(v + i, r, BLANK, e2, e3);
  }

  lemma MovesRetry(retry: Int64, e: Event)
    requires 0 < retry
    ensures Moves(PrintField("retry", Decimal(retry)), e, e.(retry := retry))
  {
    forall k | 0 <= k < |Decimal(retry)| ensures Decimal(retry)[k] != '\n' && Decimal(retry)[k] != '\r' {
      assert IsDigit(Decimal(retry)[k]);
    }
    MovesField("retry", Decimal(retry), e);
    ScanPrinted(retry);
    SetRetry(e, Decimal(retry), retry);
  }

  lemma SetRetry(e: Event, value: string, n: Int64)
    requires ScanInt(value) == Some(n)
    ensures SetField(e, "retry", value) == e.(retry := n)
  {
  }

  lemma ReadsBlankLine(rest: string, e: Event, broken: bool)
    requires e.data != ""
    ensures Read("\n" + rest, e, broken) == (Got(e.(data := TrimSuffix(e.data, '\n'))), rest)
  {
    IndexOfAfter("", '\n', rest);
    assert "" + ['\n'] + rest == "\n" + rest;
    assert ("\n" + rest)[..0] == "" && ("\n" + rest)[1..] == rest;
  }

  /** One event, whatever follows it on the wire. */
  lemma ReadPrinted(e: Event, rest: string, broken: bool)
    requires '\n' !in e.event && '\n' !in e.id
    ensures Read(Print(e) + rest, BLANK, broken) == (Got(Received(e)), rest)
  {
    var lines := Split(e.data, '\n');
    var head, full := Received(e).(data := ""), Received(e).(data := Received(e).data + "\n");
    UnlinesJoin(TrimLines(lines));
    MovesHead(e);
    MovesData(lines, head);
    assert head.data + Unlines(TrimLines(lines)) == full.data;
    MovesConcat(PrintHead(e), PrintData(lines), BLANK, head, full);
    assert Print(e) + rest == (PrintHead(e) + PrintData(lines)) + ("\n" + rest);
    ReadsBlankLine(rest, full, broken);
  }

  lemma TrimChanges(s: string)
    ensures TrimSuffix(s, '\r') == s <==> !EndsIn(s, '\r')
  {
  }

  lemma ReceivedIsNormal(e: Event)
    requires '\n' !in e.event && '\n' !in e.id
    ensures Received(e) == Normal(e) <==> Clean(e)
  {
    var lines := Split(e.data, '\n');
    var trimmed := TrimLines(lines);
    TrimChanges(e.event);
    TrimChanges(e.id);
    forall i | 0 <= i < |trimmed| ensures '\n' !in trimmed[i] {
      assert forall c :: c in trimmed[i] ==> c in lines[i];
    }
    SplitJoin(trimmed, '\n');
    if Join(trimmed, '\n') == e.data {
      assert trimmed == lines;
      forall line | line in lines ensures !EndsIn(line, '\r') {
        var i :| 0 <= i < |lines| && lines[i] == line;
        TrimChanges(lines[i]);
      }
    }
    if forall line :: line in lines ==> !EndsIn(line, '\r') {
      assert forall i :: 0 <= i < |lines| ==> lines[i] in lines;
      assert trimmed == lines;
    }
  }

  predicate NoLineFeed(e: Event) {
    '\n' !in e.event && '\n' !in e.id
  }

  lemma ApplyLineNoLineFeed(e: Event, line: string)
    requires NoLineFeed(e) && line != "" && '\n' !in line
    ensures NoLineFeed(ApplyLine(e, line))
  {
    var colon := IndexOf(line, ':');
    if colon != -1 {
      var value := line[colon + 1..];
      assert '\n' !in value && (value != "" ==> '\n' !in value[1..]);
    }
  }

  /** The reader never gives an event name or identifier that holds an LF. */
  lemma {:induction false} NoLineFeedInFields(input: string, e: Event, broken: bool)
    requires NoLineFeed(e)
    ensures Read(input, e, broken).0.Got? ==> NoLineFeed(Read(input, e, broken).0.event)
    decreases |input|
  {
    var i := IndexOf(input, '\n');
    if i != -1 {
      var line, rest := TrimSuffix(input[..i], '\r'), input[i + 1..];
      assert '\n' !in input[..i];
      assert '\n' !in line;
      if line != "" {
        ApplyLineNoLineFeed(e, line);
        NoLineFeedInFields(rest, ApplyLine(e, line), broken);
      } else if e.data == "" && e.event == "" {
        NoLineFeedInFields(rest, e, broken);
      }
    }
  }

  /**
   For every event and every continuation: the event comes back (and nothing else is consumed)
   exactly when it is clean.
   */
  lemma EventRoundTrip(e: Event, rest: string, broken: bool)
    ensures Read(Print(e) + rest, BLANK, broken).0 == Got(Normal(e)) <==> Clean(e)
    ensures Clean(e) ==> Read(Print(e) + rest, BLANK, broken) == (Got(Normal(e)), rest)
  {
    if '\n' !in e.event && '\n' !in e.id {
      ReadPrinted(e, rest, broken);
      ReceivedIsNormal(e);
    } else {
      NoLineFeedInFields(Print(e) + rest, BLANK, broken);
    }
  }

  function NormalAll(es: seq<Event>): seq<Event> {
    if es == [] then [] else [Normal(es[0])] + NormalAll(es[1..])
  }

  predicate AllClean(es: seq<Event>) {
    es == [] || (Clean(es[0]) && AllClean(es[1..]))
  }

  lemma ReadAllStep(input: string, broken: bool, e: Event, rest: string)
    requires Read(input, BLANK, broken) == (Got(e), rest)
    ensures ReadAll(input, broken) == ([e] + ReadAll(rest, broken).0, ReadAll(rest, broken).1)
  {
  }

  lemma ReadAllFirst(input: string, broken: bool)
    requires ReadAll(input, broken).0 != []
    ensures Read(input, BLANK, broken).0 == Got(ReadAll(input, broken).0[0])
  {
  }

  lemma ConsEqual<T>(x: T, a: seq<T>, b: seq<T>)
    ensures [x] + a == [x] + b <==> a == b
  {
    if [x] + a == [x] + b {
      assert a == ([x] + a)[1..] == ([x] + b)[1..] == b;
    }
  }

  /**
   For every sequence of events: reading the concatenated text gives back the same sequence
   exactly when each event is clean, and then also the end of the stream.
   */
  lemma {:induction false} StreamRoundTrip(es: seq<Event>, broken: bool)
    ensures ReadAll(PrintAll(es), broken).0 == NormalAll(es) <==> AllClean(es)
    ensures AllClean(es) ==> ReadAll(PrintAll(es), broken) == (NormalAll(es), if broken then Broken else EndOfInput)
  {
    if es == [] {
    } else {
      var input, rest := PrintAll(es), PrintAll(es[1..]);
      EventRoundTrip(es[0], rest, broken);
      StreamRoundTrip(es[1..], broken);
      if Clean(es[0]) {
        ReadAllStep(input, broken, Normal(es[0]), rest);
        ConsEqual(Normal(es[0]), ReadAll(rest, broken).0, NormalAll(es[1..]));
      } else if ReadAll(input, broken).0 == NormalAll(es) {
        ReadAllFirst(input, broken);
      }
    }
  }
}
