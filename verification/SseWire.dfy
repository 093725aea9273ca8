/**
 Event streams that other servers write: fields with or without the optional space or the
 colon, comments, unknown fields, either line ending, and a stream that stops anywhere. What
 the reader makes of them is stated by the values that each field name is given.
 */
module SseWire {
  import opened Wrappers
  import opened Text
  import opened Sse

  datatype Form = Spaced | Tight | Bare

  /** A line that is not blank. */
  datatype Item = Field(name: string, value: string, form: Form) | Comment(text: string)

  /** A line and whether CR LF ends it, or LF alone. */
  datatype Line = Line(item: Item, cr: bool)

  function LineText(item: Item): string {
    match item
    case Comment(text) => ":" + text
    case Field(name, value, Spaced) => name + ": " + value
    case Field(name, value, Tight) => name + ":" + value
    case Field(name, _, Bare) => name
  }

  /** The item can be told from its text: names hold no colon, and only a space that is meant is dropped. */
  predicate Legible(item: Item) {
    && '\n' !in LineText(item)
    && (item.Field? ==>
          && item.name != "" && ':' !in item.name
          && (item.form.Tight? ==> item.value == "" || item.value[0] != ' ')
          && (item.form.Bare? ==> item.value == ""))
  }

  function End(cr: bool): string {
    if cr then "\r\n" else "\n"
  }

  function LinesText(lines: seq<Line>): string {
    if lines == [] then "" else LineText(lines[0].item) + End(lines[0].cr) + LinesText(lines[1..])
  }

  /** The reader takes one CR off the end of a line, so one that is meant needs another behind it. */
  predicate LegibleLine(line: Line) {
    Legible(line.item) && (!line.cr ==> !EndsIn(LineText(line.item), '\r'))
  }

  predicate AllLegible(lines: seq<Line>) {
    forall i :: 0 <= i < |lines| ==> LegibleLine(lines[i])
  }

  // ---------- What the lines say ----------

  /** The values that a field name is given, in order. */
  function Values(lines: seq<Line>, name: string): seq<string> {
    if lines == [] then []
    else if lines[0].item.Field? && lines[0].item.name == name then [lines[0].item.value] + Values(lines[1..], name)
    else Values(lines[1..], name)
  }

  function LastOr(values: seq<string>, otherwise: string): string {
    if values == [] then otherwise else values[|values| - 1]
  }

  /** The last value that is a number. */
  function LastNumber(values: seq<string>, otherwise: Int64): Int64 {
    if values == [] then otherwise
    else
      match ScanInt(values[|values| - 1])
      case Some(n) => n
      case None => LastNumber(values[..|values| - 1], otherwise)
  }

  /** The event under construction after the lines: the last name, identifier and number, and all data. */
  function Told(lines: seq<Line>, e: Event): Event {
    Event(LastOr(Values(lines, "event"), e.event), e.data + Unlines(Values(lines, "data")),
          LastOr(Values(lines, "id"), e.id), LastNumber(Values(lines, "retry"), e.retry))
  }

  // ---------- One line ----------

  lemma ColonFound(name: string, after: string)
    requires ':' !in name
    ensures IndexOf(name + ":" + after, ':') == |name|
    ensures (name + ":" + after)[..|name|] == name && (name + ":" + after)[|name| + 1..] == after
  {
    IndexOfAfter(name, ':', after);
  }

  lemma SpacedApplies(name: string, value: string, e: Event)
    requires name != "" && ':' !in name
    ensures ApplyLine(e, name + ": " + value) == SetField(e, name, value)
  {
    var text := name + ":" + (" " + value);
    ColonFound(name, " " + value);
    assert (" " + value)[1..] == value;
    assert text == name + ": " + value && text[0] == name[0];
  }

  lemma TightApplies(name: string, value: string, e: Event)
    requires name != "" && ':' !in name && (value == "" || value[0] != ' ')
    ensures ApplyLine(e, name + ":" + value) == SetField(e, name, value)
  {
    ColonFound(name, value);
    assert (name + ":" + value)[0] == name[0];
  }

  /** A comment changes nothing; a field sets its value, whichever way it is written. */
  lemma LineApplies(item: Item, e: Event)
    requires Legible(item)
    ensures LineText(item) != ""
    ensures ApplyLine(e, LineText(item)) == if item.Field? then SetField(e, item.name, item.value) else e
  {
    match item
    case Comment(c) => assert LineText(item)[0] == ':';
    case Field(name, value, Spaced) => SpacedApplies(name, value, e);
    case Field(name, value, Tight) => TightApplies(name, value, e);
    case Field(name, value, Bare) => assert LineText(item) == name && name[0] in name;
  }

  lemma EndedReads(text: string, cr: bool, rest: string, e: Event, broken: bool)
    requires text != "" && '\n' !in text && (!cr ==> !EndsIn(text, '\r'))
    ensures Read(text + End(cr) + rest, e, broken) == Read(rest, ApplyLine(e, text), broken)
  {
    if cr {
      assert TrimSuffix(text + "\r", '\r') == text;
      ReadsLine(text + "\r", rest, e, broken);
      assert text + "\r\n" == (text + "\r") + "\n";
    } else {
      ReadsLine(text, rest, e, broken);
    }
  }

  lemma LineReads(line: Line, rest: string, e: Event, broken: bool)
    requires LegibleLine(line)
    ensures Read(LineText(line.item) + End(line.cr) + rest, e, broken) ==
            Read(rest, if line.item.Field? then SetField(e, line.item.name, line.item.value) else e, broken)
  {
    LineApplies(line.item, e);
    EndedReads(LineText(line.item), line.cr, rest, e, broken);
  }

  // ---------- Many lines ----------

  /** What the first line says and what the others say add up. */
  lemma ToldFirst(lines: seq<Line>, e: Event)
    requires lines != []
    ensures var item := lines[0].item;
            Told(lines, e) == Told(lines[1..], if item.Field? then SetField(e, item.name, item.value) else e)
  {
    var item, rest := lines[0].item, lines[1..];
    if item.Field? {
      LastOrFirst(item.value, Values(rest, item.name), e.event);
      LastOrFirst(item.value, Values(rest, item.name), e.id);
      LastNumberFirst(item.value, Values(rest, item.name), e.retry);
      DataFirst(e.data, item.value, Values(rest, item.name));
    }
  }

  lemma LastOrFirst(v: string, values: seq<string>, otherwise: string)
    ensures LastOr([v] + values, otherwise) == LastOr(values, v)
  {
  }

  lemma {:induction false} LastNumberFirst(v: string, values: seq<string>, otherwise: Int64)
    ensures LastNumber([v] + values, otherwise) ==
            LastNumber(values, match ScanInt(v) case Some(n) => n case None => otherwise)
    decreases |values|
  {
    if values == [] {
      assert [v] + values == [v] && [v][..0] == [];
    } else {
      assert ([v] + values)[..|values|] == [v] + values[..|values| - 1];
      LastNumberFirst(v, values[..|values| - 1], otherwise);
    }
  }

  lemma DataFirst(data: string, v: string, values: seq<string>)
    ensures data + Unlines([v] + values) == (data + v + "\n") + Unlines(values)
  {
    assert ([v] + values)[1..] == values;
    assert data + (v + "\n" + Unlines(values)) == (data + v + "\n") + Unlines(values);
  }

  /** Any legible lines, whatever follows them, leave just what they say in the event under construction. */
  lemma {:induction false} LinesRead(lines: seq<Line>, rest: string, e: Event, broken: bool)
    requires AllLegible(lines)
    ensures Read(LinesText(lines) + rest, e, broken) == Read(rest, Told(lines, e), broken)
    decreases |lines|
  {
    if lines == [] {
      assert "" + rest == rest && e.data + "" == e.data;
    } else {
      var line, more := lines[0], lines[1..];
      var e' := if line.item.Field? then SetField(e, line.item.name, line.item.value) else e;
      Regroup(LineText(line.item) + End(line.cr), LinesText(more), rest);
      LineReads(line, LinesText(more) + rest, e, broken);
      LinesRead(more, rest, e', broken);
      ToldFirst(lines, e);
    }
  }

  lemma Regroup(a: string, b: string, c: string)
    ensures (a + b) + c == a + (b + c)
  {
  }

  // ---------- The end of an event ----------

  /** A blank line ends the event when it has data or a name; otherwise what was said so far stays. */
  lemma BlankReads(cr: bool, rest: string, e: Event, broken: bool)
    ensures Read(End(cr) + rest, e, broken) ==
            if e.data != "" || e.event != "" then (Got(e.(data := TrimSuffix(e.data, '\n'))), rest) else Read(rest, e, broken)
  {
    var before := if cr then "\r" else "";
    var input := End(cr) + rest;
    IndexOfAfter(before, '\n', rest);
    assert input == before + ['\n'] + rest;
    assert input[..|before|] == before && input[|before| + 1..] == rest;
    assert TrimSuffix(before, '\r') == "";
  }

  /** An event is given when there is a data line or the last name is not empty. */
  predicate Given(lines: seq<Line>, e: Event) {
    Values(lines, "data") != [] || LastOr(Values(lines, "event"), e.event) != ""
  }

  /** The event that the lines make: data lines joined by LF, the last name and identifier, the last number. */
  function Finished(lines: seq<Line>, e: Event): Event {
    Event(LastOr(Values(lines, "event"), e.event), Join(Values(lines, "data"), '\n'),
          LastOr(Values(lines, "id"), e.id), LastNumber(Values(lines, "retry"), e.retry))
  }

  /** An event under construction that has no data yet, its lines and a blank line. */
  lemma BlockReads(lines: seq<Line>, cr: bool, rest: string, e: Event, broken: bool)
    requires AllLegible(lines) && e.data == ""
    ensures Read(LinesText(lines) + End(cr) + rest, e, broken) ==
            if Given(lines, e) then (Got(Finished(lines, e)), rest) else Read(rest, Told(lines, e), broken)
    ensures !Given(lines, e) ==> Told(lines, e).data == ""
  {
    var told, values := Told(lines, e), Values(lines, "data");
    Regroup(LinesText(lines), End(cr), rest);
    LinesRead(lines, End(cr) + rest, e, broken);
    BlankReads(cr, rest, told, broken);
    assert told.data == Unlines(values);
    if values != [] {
      UnlinesJoin(values);
      assert (Join(values, '\n') + "\n")[..|Join(values, '\n')|] == Join(values, '\n');
    } else {
      assert TrimSuffix("", '\n') == "";
    }
  }

  /** What the end of the stream gives: data that no blank line has ended, with its last LF. */
  function AtEnd(lines: seq<Line>, e: Event, broken: bool): Outcome {
    if broken then Broken
    else if Values(lines, "data") != [] then Got(Finished(lines, e).(data := Join(Values(lines, "data"), '\n') + "\n"))
    else EndOfInput
  }

  /** A partial line is lost. */
  lemma EndReached(lines: seq<Line>, tail: string, e: Event, broken: bool)
    requires AllLegible(lines) && e.data == "" && '\n' !in tail
    ensures Read(LinesText(lines) + tail, e, broken) == (AtEnd(lines, e, broken), "")
  {
    var values := Values(lines, "data");
    LinesRead(lines, tail, e, broken);
    assert Told(lines, e).data == Unlines(values);
    if values != [] {
      UnlinesJoin(values);
    }
  }

  // ---------- Whole streams ----------

  /** Lines that a blank one ends. */
  datatype Block = Block(lines: seq<Line>, cr: bool)

  function StreamText(blocks: seq<Block>): string {
    if blocks == [] then "" else LinesText(blocks[0].lines) + End(blocks[0].cr) + StreamText(blocks[1..])
  }

  predicate AllBlocksLegible(blocks: seq<Block>) {
    forall i :: 0 <= i < |blocks| ==> AllLegible(blocks[i].lines)
  }

  function Ending(r: Outcome, broken: bool): (seq<Event>, Outcome) {
    if r.Got? then ([r.event], if broken then Broken else EndOfInput) else ([], r)
  }

  /** One event for each block with data or a name; identifier and number of a block without carry over to the next. */
  function Events(blocks: seq<Block>, lines: seq<Line>, e: Event, broken: bool): (seq<Event>, Outcome)
    decreases |blocks|
  {
    if blocks == [] then Ending(AtEnd(lines, e, broken), broken)
    else if Given(blocks[0].lines, e) then
      var (es, end) := Events(blocks[1..], lines, BLANK, broken);
      ([Finished(blocks[0].lines, e)] + es, end)
    else Events(blocks[1..], lines, Told(blocks[0].lines, e), broken)
  }

  /** Reading on with an event under construction. */
  function ReadOn(input: string, e: Event, broken: bool): (seq<Event>, Outcome) {
    var (r, rest) := Read(input, e, broken);
    match r
    case Got(first) => var (es, end) := ReadAll(rest, broken); ([first] + es, end)
    case _ => ([], r)
  }

  lemma ReadOnFirst(input: string, e: Event, broken: bool, first: Event, rest: string)
    requires Read(input, e, broken) == (Got(first), rest)
    ensures ReadOn(input, e, broken) == ([first] + ReadOn(rest, BLANK, broken).0, ReadOn(rest, BLANK, broken).1)
  {
  }

  lemma NothingLeft(broken: bool)
    ensures ReadAll("", broken) == ([], if broken then Broken else EndOfInput)
  {
  }

  lemma ReadOnLast(input: string, e: Event, broken: bool, r: Outcome)
    requires Read(input, e, broken) == (r, "")
    ensures ReadOn(input, e, broken) == Ending(r, broken)
  {
    NothingLeft(broken);
    if r.Got? {
      assert [r.event] + [] == [r.event];
    }
  }

  lemma LastReads(lines: seq<Line>, tail: string, e: Event, broken: bool)
    requires AllLegible(lines) && '\n' !in tail && e.data == ""
    ensures ReadOn(LinesText(lines) + tail, e, broken) == Events([], lines, e, broken)
  {
    EndReached(lines, tail, e, broken);
    ReadOnLast(LinesText(lines) + tail, e, broken, AtEnd(lines, e, broken));
  }

  lemma FirstBlockReads(first: Block, rest: string, e: Event, broken: bool)
    requires AllLegible(first.lines) && e.data == ""
    ensures var input := LinesText(first.lines) + End(first.cr) + rest;
            ReadOn(input, e, broken) ==
            if Given(first.lines, e) then ([Finished(first.lines, e)] + ReadOn(rest, BLANK, broken).0, ReadOn(rest, BLANK, broken).1)
            else ReadOn(rest, Told(first.lines, e), broken)
    ensures !Given(first.lines, e) ==> Told(first.lines, e).data == ""
  {
    var input := LinesText(first.lines) + End(first.cr) + rest;
    BlockReads(first.lines, first.cr, rest, e, broken);
    if Given(first.lines, e) {
      ReadOnFirst(input, e, broken, Finished(first.lines, e), rest);
    }
  }

  lemma BlocksFirst(blocks: seq<Block>, last: string)
    requires blocks != [] && AllBlocksLegible(blocks)
    ensures StreamText(blocks) + last == LinesText(blocks[0].lines) + End(blocks[0].cr) + (StreamText(blocks[1..]) + last)
    ensures AllLegible(blocks[0].lines) && AllBlocksLegible(blocks[1..])
  {
    Regroup(LinesText(blocks[0].lines) + End(blocks[0].cr), StreamText(blocks[1..]), last);
    assert forall i :: 0 <= i < |blocks[1..]| ==> blocks[1..][i] == blocks[i + 1];
  }

  lemma EventsFirst(blocks: seq<Block>, lines: seq<Line>, e: Event, broken: bool)
    requires blocks != []
    ensures Events(blocks, lines, e, broken) ==
            if Given(blocks[0].lines, e) then
              ([Finished(blocks[0].lines, e)] + Events(blocks[1..], lines, BLANK, broken).0, Events(blocks[1..], lines, BLANK, broken).1)
            else Events(blocks[1..], lines, Told(blocks[0].lines, e), broken)
  {
  }

  /** Every stream of blocks, further lines and a partial line reads as the events that its values make. */
  lemma {:induction false} StreamReads(blocks: seq<Block>, lines: seq<Line>, tail: string, e: Event, broken: bool)
    requires AllBlocksLegible(blocks) && AllLegible(lines) && '\n' !in tail && e.data == ""
    ensures ReadOn(StreamText(blocks) + (LinesText(lines) + tail), e, broken) == Events(blocks, lines, e, broken)
    decreases |blocks|
  {
    var last := LinesText(lines) + tail;
    if blocks == [] {
      assert StreamText(blocks) + last == last;
      LastReads(lines, tail, e, broken);
    } else {
      BlocksFirst(blocks, last);
      FirstBlockReads(blocks[0], StreamText(blocks[1..]) + last, e, broken);
      EventsFirst(blocks, lines, e, broken);
      if Given(blocks[0].lines, e) {
        StreamReads(blocks[1..], lines, tail, BLANK, broken);
      } else {
        StreamReads(blocks[1..], lines, tail, Told(blocks[0].lines, e), broken);
      }
    }
  }

  /** The same for the reader that starts afresh. */
  lemma ForeignStream(blocks: seq<Block>, lines: seq<Line>, tail: string, broken: bool)
    requires AllBlocksLegible(blocks) && AllLegible(lines) && '\n' !in tail
    ensures ReadAll(StreamText(blocks) + (LinesText(lines) + tail), broken) == Events(blocks, lines, BLANK, broken)
  {
    StreamReads(blocks, lines, tail, BLANK, broken);
  }

  // ---------- Every input is such a stream ----------

  lemma FieldIsItem(name: string, after: string) returns (item: Item)
    requires name != "" && ':' !in name && '\n' !in name && '\n' !in after
    ensures Legible(item) && LineText(item) == name + ":" + after
  {
    if after != "" && after[0] == ' ' {
      item := Field(name, after[1..], Spaced);
      assert after == " " + after[1..];
      assert LineText(item) == name + ":" + after;
    } else {
      item := Field(name, after, Tight);
    }
  }

  /** Every non-blank line is one legible item. */
  lemma LineIsItem(text: string) returns (item: Item)
    requires text != "" && '\n' !in text
    ensures Legible(item) && LineText(item) == text
  {
    var i := IndexOf(text, ':');
    if i == 0 {
      item := Comment(text[1..]);
      assert text == ":" + text[1..];
    } else if i == -1 {
      item := Field(text, "", Bare);
    } else {
      assert text == text[..i] + ":" + text[i + 1..];
      item := FieldIsItem(text[..i], text[i + 1..]);
    }
  }

  lemma CutLine(input: string) returns (text: string, cr: bool, rest: string)
    requires '\n' in input
    ensures '\n' !in text && (!cr ==> !EndsIn(text, '\r')) && input == text + End(cr) + rest
  {
    var i := IndexOf(input, '\n');
    rest := input[i + 1..];
    var whole := input[..i];
    cr := EndsIn(whole, '\r');
    text := TrimSuffix(whole, '\r');
    assert input == whole + "\n" + rest;
    if cr {
      assert whole == text + "\r";
      assert whole + "\n" == text + "\r\n";
    }
  }

  lemma BlankInFront(cr: bool, blocks: seq<Block>, after: string) returns (blocks': seq<Block>)
    requires AllBlocksLegible(blocks)
    ensures AllBlocksLegible(blocks') && StreamText(blocks') + after == End(cr) + (StreamText(blocks) + after)
  {
    var first := Block([], cr);
    blocks' := [first] + blocks;
    assert blocks'[1..] == blocks;
    assert LinesText([]) + End(cr) == End(cr);
    Regroup(End(cr), StreamText(blocks), after);
  }

  lemma LineInFrontOfLines(line: Line, lines: seq<Line>, after: string)
    ensures LinesText([line] + lines) + after == LineText(line.item) + End(line.cr) + (LinesText(lines) + after)
  {
    assert ([line] + lines)[1..] == lines;
    Regroup(LineText(line.item) + End(line.cr), LinesText(lines), after);
  }

  lemma LineInFrontOfBlocks(line: Line, blocks: seq<Block>, after: string) returns (blocks': seq<Block>)
    requires blocks != [] && LegibleLine(line) && AllBlocksLegible(blocks)
    ensures AllBlocksLegible(blocks')
    ensures StreamText(blocks') + after == LineText(line.item) + End(line.cr) + (StreamText(blocks) + after)
  {
    var first := Block([line] + blocks[0].lines, blocks[0].cr);
    blocks' := [first] + blocks[1..];
    assert AllLegible(blocks[0].lines);
    assert AllLegible(first.lines);
    assert AllBlocksLegible(blocks') by {
      assert forall i :: 0 < i < |blocks'| ==> blocks'[i] == blocks[i];
    }
    BlocksFirst(blocks, after);
    BlocksFirst(blocks', after);
    assert blocks'[1..] == blocks[1..];
    var rest := StreamText(blocks[1..]) + after;
    LineInFrontOfLines(line, blocks[0].lines, End(first.cr) + rest);
    Regroup(LinesText(first.lines), End(first.cr), rest);
    Regroup(LinesText(blocks[0].lines), End(first.cr), rest);
  }

  /** A text with its decomposition. */
  ghost predicate IsStream(input: string, blocks: seq<Block>, lines: seq<Line>, tail: string) {
    && AllBlocksLegible(blocks) && AllLegible(lines) && '\n' !in tail
    && input == StreamText(blocks) + (LinesText(lines) + tail)
  }

  lemma ItemInFront(text: string, cr: bool, rest: string, blocks: seq<Block>, lines: seq<Line>, tail: string)
      returns (blocks': seq<Block>, lines': seq<Line>)
    requires IsStream(rest, blocks, lines, tail) && text != "" && '\n' !in text && (!cr ==> !EndsIn(text, '\r'))
    ensures IsStream(text + End(cr) + rest, blocks', lines', tail)
  {
    var item := LineIsItem(text);
    var line := Line(item, cr);
    blocks', lines' := blocks, lines;
    if blocks == [] {
      LineInFrontOfLines(line, lines, tail);
      lines' := [line] + lines;
      assert rest == LinesText(lines) + tail;
      assert AllLegible(lines');
    } else {
      blocks' := LineInFrontOfBlocks(line, blocks, LinesText(lines) + tail);
    }
  }

  lemma BlankLineInFront(cr: bool, rest: string, blocks: seq<Block>, lines: seq<Line>, tail: string) returns (blocks': seq<Block>)
    requires IsStream(rest, blocks, lines, tail)
    ensures IsStream(End(cr) + rest, blocks', lines, tail)
  {
    blocks' := BlankInFront(cr, blocks, LinesText(lines) + tail);
  }

  lemma NoLineIsStream(input: string)
    requires '\n' !in input
    ensures IsStream(input, [], [], input)
  {
  }

  /** So the theorem on streams covers every input. */
  lemma {:induction false} EveryInputIsStream(input: string) returns (blocks: seq<Block>, lines: seq<Line>, tail: string)
    ensures IsStream(input, blocks, lines, tail)
    decreases |input|
  {
    if '\n' !in input {
      NoLineIsStream(input);
      blocks, lines, tail := [], [], input;
    } else {
      var text, cr, rest := CutLine(input);
      blocks, lines, tail := EveryInputIsStream(rest);
      if text == "" {
        assert text + End(cr) + rest == End(cr) + rest;
        blocks := BlankLineInFront(cr, rest, blocks, lines, tail);
      } else {
        blocks, lines := ItemInFront(text, cr, rest, blocks, lines, tail);
      }
    }
  }

  // ---------- Numbers ----------

  lemma {:induction false} DigitsThenOther(digits: string, other: string)
    requires (forall i :: 0 <= i < |digits| ==> IsDigit(digits[i])) && (other == "" || !IsDigit(other[0]))
    ensures LeadingDigits(digits + other) == digits
    decreases |digits|
  {
    if digits == "" {
      assert digits + other == other;
    } else {
      assert (digits + other)[0] == digits[0] && (digits + other)[1..] == digits[1..] + other;
      DigitsThenOther(digits[1..], other);
      assert digits == [digits[0]] + digits[1..];
    }
  }

  lemma {:induction false} SpacesSkipped(spaces: string, s: string)
    requires (forall i :: 0 <= i < |spaces| ==> IsSpace(spaces[i])) && (s == "" || !IsSpace(s[0]))
    ensures SkipSpaces(spaces + s) == s
    decreases |spaces|
  {
    if spaces == "" {
      assert spaces + s == s;
    } else {
      assert (spaces + s)[1..] == spaces[1..] + s;
      SpacesSkipped(spaces[1..], s);
    }
  }

  lemma UnsignedScanned(n: nat, other: string)
    requires n < 0x8000_0000_0000_0000 && (other == "" || !IsDigit(other[0]))
    ensures var s := Decimal(n) + other; s != "" && IsDigit(s[0]) && LeadingDigits(s) == Decimal(n) && DigitsValue(LeadingDigits(s)) == n
  {
    DigitsThenOther(Decimal(n), other);
    DecimalValue(n);
    assert IsDigit(Decimal(n)[0]);
  }

  lemma PositiveScanned(spaces: string, n: nat, other: string)
    requires (forall i :: 0 <= i < |spaces| ==> IsSpace(spaces[i])) && n < 0x8000_0000_0000_0000 && (other == "" || !IsDigit(other[0]))
    ensures ScanInt(spaces + (Decimal(n) + other)) == Some(n)
  {
    UnsignedScanned(n, other);
    SpacesSkipped(spaces, Decimal(n) + other);
  }

  lemma NegativeScanned(spaces: string, n: Int64, other: string)
    requires (forall i :: 0 <= i < |spaces| ==> IsSpace(spaces[i])) && n < 0 && (other == "" || !IsDigit(other[0]))
    ensures var m: int := n; ScanInt(spaces + ("-" + (Decimal(-m) + other))) == Some(n)
  {
    var m: int := n;
    var s := "-" + (Decimal(-m) + other);
    DigitsThenOther(Decimal(-m), other);
    DecimalValue(-m);
    SpacesSkipped(spaces, s);
    assert s[1..] == Decimal(-m) + other;
  }

  /** A number may have white space before it and anything but a digit after it, and may be negative. */
  lemma NumberScanned(spaces: string, n: Int64, other: string)
    requires (forall i :: 0 <= i < |spaces| ==> IsSpace(spaces[i])) && (other == "" || !IsDigit(other[0]))
    ensures ScanInt(spaces + (SignedDecimal(n) + other)) == Some(n)
  {
    if n < 0 {
      var m: int := n;
      Regroup("-", Decimal(-m), other);
      NegativeScanned(spaces, n, other);
    } else {
      PositiveScanned(spaces, n, other);
    }
  }

  /** What starts with no digit, after white space and a sign, is no number and leaves the old one. */
  lemma NoNumber(spaces: string, other: string)
    requires (forall i :: 0 <= i < |spaces| ==> IsSpace(spaces[i]))
    requires other == "" || (!IsSpace(other[0]) && !IsDigit(other[0]) && other[0] != '+' && other[0] != '-')
    ensures ScanInt(spaces + other) == None
  {
    SpacesSkipped(spaces, other);
  }
}
