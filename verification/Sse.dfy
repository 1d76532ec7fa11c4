/** The event-stream reader of the frontend, and the writer of the API it reads from.
    Reads arrive as decoded text; `parse` is JSON.parse and `empty` the object `{}`. */
module Sse {
  import opened Wrappers
  import opened Text

  datatype Event<Json> = Event(kind: string, data: Json)

  type Parser<Json> = string -> Option<Json>

  const BLANK_LINE := "\n\n"
  const EVENT_FIELD := "event: "
  const DATA_FIELD := "data: "

  /** JavaScript white space and line terminators. */
  predicate IsSpace(c: char) {
    || c in "\t\n\r \U{000B}\U{000C}\U{00A0}\U{1680}\U{2028}\U{2029}\U{202F}\U{205F}\U{3000}\U{FEFF}"
    || '\U{2000}' <= c <= '\U{200A}'
  }

  // ---------------------------------------------------------------- what a frame means

  datatype Fields = Fields(eventType: string, dataLine: string)

  predicate IsEventLine(line: string) {
    EVENT_FIELD <= line
  }

  predicate IsDataLine(line: string) {
    DATA_FIELD <= line
  }

  function ReadLine(fields: Fields, line: string): Fields {
    if IsEventLine(line) then fields.(eventType := Trim(line[7..], IsSpace))
    else if IsDataLine(line) then fields.(dataLine := Trim(line[6..], IsSpace))
    else fields
  }

  /** The fields of a frame: a later line overrides an earlier one. */
  function ReadLines(lines: seq<string>): Fields {
    if lines == [] then Fields("message", "") else ReadLine(ReadLines(Front(lines)), Last(lines))
  }

  function ParseFields<Json>(fields: Fields, parse: Parser<Json>, empty: Json): seq<Event<Json>> {
    var data := if fields.dataLine == "" then Some(empty) else parse(fields.dataLine);
    if data.None? then [] else [Event(fields.eventType, data.value)]
  }

  /** No event for a blank or malformed frame, one for any other. */
  function ParseFrame<Json>(frame: string, parse: Parser<Json>, empty: Json): seq<Event<Json>> {
    if Trim(frame, IsSpace) == "" then [] else ParseFields(ReadLines(Split(frame, "\n")), parse, empty)
  }

  function ParseFrames<Json>(frames: seq<string>, parse: Parser<Json>, empty: Json): seq<Event<Json>> {
    if frames == [] then []
    else ParseFrames(Front(frames), parse, empty) + ParseFrame(Last(frames), parse, empty)
  }

  /** The events of a whole text: those of its frames, all but the unfinished last. */
  function Delivered<Json>(text: string, parse: Parser<Json>, empty: Json): seq<Event<Json>> {
    ParseFrames(Front(Split(text, BLANK_LINE)), parse, empty)
  }

  function Concat(chunks: seq<string>): string {
    if chunks == [] then "" else Concat(Front(chunks)) + Last(chunks)
  }

  // ------------------------------------------------------------------------ the reader

  lemma ReadLinesStep(lines: seq<string>, i: nat)
    requires i < |lines|
    ensures ReadLines(lines[..i + 1]) == ReadLine(ReadLines(lines[..i]), lines[i])
  {
    assert Front(lines[..i + 1]) == lines[..i];
  }

  lemma ParseFramesStep<Json>(before: seq<string>, frames: seq<string>, i: nat, parse: Parser<Json>, empty: Json)
    requires i < |frames|
    ensures ParseFrames(before + frames[..i + 1], parse, empty)
         == ParseFrames(before + frames[..i], parse, empty) + ParseFrame(frames[i], parse, empty)
  {
    assert Front(before + frames[..i + 1]) == before + frames[..i];
  }

  /** One more read only extends the frames already complete. */
  lemma ReadExtendsFrames(seen: string, chunk: string)
    ensures var before, frames := Front(Split(seen, BLANK_LINE)),
                                  Split(Last(Split(seen, BLANK_LINE)) + chunk, BLANK_LINE);
            && Last(Split(seen + chunk, BLANK_LINE)) == Last(frames)
            && Front(Split(seen + chunk, BLANK_LINE)) == before + Front(frames)
  {
    SplitAcrossCut(seen, chunk, BLANK_LINE);
    AppendKeepsEnds(Front(Split(seen, BLANK_LINE)), Split(Last(Split(seen, BLANK_LINE)) + chunk, BLANK_LINE));
  }

  lemma AppendKeepsEnds<T>(xs: seq<T>, ys: seq<T>)
    requires ys != []
    ensures Last(xs + ys) == Last(ys) && Front(xs + ys) == xs + Front(ys)
  {
  }

  method ReadFrame(frame: string) returns (eventType: string, dataLine: string)
    ensures Fields(eventType, dataLine) == ReadLines(Split(frame, "\n"))
  {
    eventType, dataLine := "message", "";
    var lines := Split(frame, "\n");
    for i := 0 to |lines|
      invariant Fields(eventType, dataLine) == ReadLines(lines[..i])
    {
      ReadLinesStep(lines, i);
      var line := lines[i];
      if IsEventLine(line) {
        eventType := Trim(line[7..], IsSpace);
      } else if IsDataLine(line) {
        dataLine := Trim(line[6..], IsSpace);
      }
    }
    assert lines[..|lines|] == lines;
  }

  method ReadFrames<Json>(frames: seq<string>, parse: Parser<Json>, empty: Json, delivered: seq<Event<Json>>,
                          ghost before: seq<string>)
    returns (events: seq<Event<Json>>)
    requires delivered == ParseFrames(before, parse, empty)
    ensures events == ParseFrames(before + frames, parse, empty)
  {
    events := delivered;
    assert before + frames[..0] == before;
    for i := 0 to |frames|
      invariant events == ParseFrames(before + frames[..i], parse, empty)
    {
      ParseFramesStep(before, frames, i, parse, empty);
      if Trim(frames[i], IsSpace) == "" {
        continue;
      }
      var eventType, dataLine := ReadFrame(frames[i]);
      var parsed := if dataLine != "" then parse(dataLine) else Some(empty);
      if parsed.Some? {
        events := events + [Event(eventType, parsed.value)];
      }
    }
    assert frames[..|frames|] == frames;
  }

  lemma ConcatStep(chunks: seq<string>, n: nat)
    requires n < |chunks|
    ensures Concat(chunks[..n + 1]) == Concat(chunks[..n]) + chunks[n]
  {
    assert Front(chunks[..n + 1]) == chunks[..n];
  }

  /** However a stream is cut into reads, what is delivered is what its whole text
      says. */
  method StreamRun<Json>(chunks: seq<string>, parse: Parser<Json>, empty: Json)
    returns (events: seq<Event<Json>>)
    ensures events == Delivered(Concat(chunks), parse, empty)
  {
    events := [];
    var buffer := "";
    assert Split("", BLANK_LINE) == [""];
    for n := 0 to |chunks|
      invariant buffer == Last(Split(Concat(chunks[..n]), BLANK_LINE))
      invariant events == Delivered(Concat(chunks[..n]), parse, empty)
    {
      ConcatStep(chunks, n);
      ReadExtendsFrames(Concat(chunks[..n]), chunks[n]);
      ghost var before := Front(Split(Concat(chunks[..n]), BLANK_LINE));

      buffer := buffer + chunks[n];
      var frames := Split(buffer, BLANK_LINE);
      buffer := Last(frames);
      events := ReadFrames(Front(frames), parse, empty, events, before);
    }
    assert chunks[..|chunks|] == chunks;
  }

  // -------------------------------------------------- which lines count

  /** JavaScript's white space by code point. */
  lemma SpaceByCode(c: char)
    ensures IsSpace(c) <==>
              || c as int in {9, 10, 11, 12, 13, 32, 160, 5760, 8232, 8233, 8239, 8287, 12288, 65279}
              || 8192 <= c as int <= 8202
  {
  }

  /** The event type of a frame is the value of its last `event: ` line, or `message`. */
  lemma {:induction false} LastEventLineNames(lines: seq<string>, k: int)
    requires -1 <= k < |lines| && (k >= 0 ==> "event: " <= lines[k])
    requires forall j | k < j < |lines| :: !("event: " <= lines[j])
    ensures ReadLines(lines).eventType == if k == -1 then "message" else Trim(lines[k][7..], IsSpace)
    decreases |lines|
  {
    if lines != [] {
      var front := Front(lines);
      assert forall j | 0 <= j < |front| :: front[j] == lines[j];
      if k < |lines| - 1 {
        LastEventLineNames(front, k);
      }
    }
  }

  /** Its data is the value of its last `data: ` line, or none. */
  lemma {:induction false} LastDataLineCounts(lines: seq<string>, k: int)
    requires -1 <= k < |lines| && (k >= 0 ==> "data: " <= lines[k])
    requires forall j | k < j < |lines| :: !("data: " <= lines[j])
    ensures ReadLines(lines).dataLine == if k == -1 then "" else Trim(lines[k][6..], IsSpace)
    decreases |lines|
  {
    if lines != [] {
      var front := Front(lines);
      assert forall j | 0 <= j < |front| :: front[j] == lines[j];
      assert "data: " <= Last(lines) ==> Last(lines)[0] == 'd';
      assert "event: " <= Last(lines) ==> Last(lines)[0] == 'e';
      if k < |lines| - 1 {
        LastDataLineCounts(front, k);
      }
    }
  }

  /** A frame of white space is silent; any other yields one event, of its type, with its
      parsed data or, without any, the empty object; data that does not parse silences it. */
  lemma FrameYieldsEvent<Json>(frame: string, parse: Parser<Json>, empty: Json)
    ensures var fields, events := ReadLines(Split(frame, "\n")), ParseFrame(frame, parse, empty);
            && (AllSpace(frame, IsSpace) ==> events == [])
            && (!AllSpace(frame, IsSpace) && fields.dataLine == "" ==> events == [Event(fields.eventType, empty)])
            && (!AllSpace(frame, IsSpace) && fields.dataLine != "" ==>
                  events == if parse(fields.dataLine).None? then []
                            else [Event(fields.eventType, parse(fields.dataLine).value)])
  {
    TrimmedAwayExactly(frame, IsSpace);
  }

  // -------------------------------------------------- the writer, and the round trip

  datatype Message<Json> = Message(name: string, id: Option<string>, payload: Json)

  type Printer<!Json> = Json -> string

  function Join(lines: seq<string>): string
    requires lines != []
  {
    JoinPieces(lines, "\n")
  }

  function MessageLines<Json>(m: Message<Json>, dump: Printer<Json>): seq<string> {
    [EVENT_FIELD + m.name] + (if m.id.Some? then ["id: " + m.id.value] else []) + [DATA_FIELD + dump(m.payload)]
  }

  function SseMessage<Json>(m: Message<Json>, dump: Printer<Json>): string {
    Join(MessageLines(m, dump)) + BLANK_LINE
  }

  function Stream<Json>(ms: seq<Message<Json>>, dump: Printer<Json>): string {
    if ms == [] then "" else SseMessage(ms[0], dump) + Stream(ms[1..], dump)
  }

  /** Field values are single lines without surrounding white space, as event names
      and compact JSON objects are, and the reader's parser undoes the printer. */
  ghost predicate Printable<Json>(m: Message<Json>, dump: Printer<Json>, parse: Parser<Json>) {
    && OneLine(m.name) && Trimmed(m.name, IsSpace)
    && (m.id.Some? ==> OneLine(m.id.value))
    && OneLine(dump(m.payload)) && dump(m.payload) != "" && Trimmed(dump(m.payload), IsSpace)
    && parse(dump(m.payload)) == Some(m.payload)
  }

  predicate OneLine(s: string) {
    '\n' !in s
  }

  function Sent<Json>(m: Message<Json>): Event<Json> {
    Event(m.name, m.payload)
  }

  function AllSent<Json>(ms: seq<Message<Json>>): (events: seq<Event<Json>>)
    ensures |events| == |ms| && forall i | 0 <= i < |ms| :: events[i] == Sent(ms[i])
  {
    seq(|ms|, i requires 0 <= i < |ms| => Sent(ms[i]))
  }

  /** A frame never contains or begins a blank line. */
  ghost predicate Frame(s: string) {
    && s != "" && s[0] != '\n' && s[|s| - 1] != '\n'
    && forall i | 0 <= i < |s| - 1 :: !(s[i] == '\n' && s[i + 1] == '\n')
  }

  lemma {:induction false} JoinedLinesFrame(lines: seq<string>)
    requires lines != [] && forall line <- lines :: OneLine(line) && line != ""
    ensures Frame(Join(lines))
    decreases |lines|
  {
    assert lines[0] in lines;
    if |lines| > 1 {
      JoinedLinesFrame(lines[1..]);
    }
  }

  lemma SplitOffFrame(frame: string, rest: string)
    requires Frame(frame)
    ensures Split(frame + BLANK_LINE + rest, BLANK_LINE) == [frame] + Split(rest, BLANK_LINE)
  {
    var s := frame + BLANK_LINE + rest;
    forall i: nat | i < |frame| ensures !Occurs(s, BLANK_LINE, i) {
      OccurrenceShows(s, BLANK_LINE, i);
      assert s[i] == frame[i] && (i < |frame| - 1 ==> s[i + 1] == frame[i + 1]);
    }
    SplitAfterPiece(frame, BLANK_LINE, rest);
  }

  lemma FieldLine(field: string, value: string)
    requires Trimmed(value, IsSpace)
    ensures field <= field + value && Trim((field + value)[|field|..], IsSpace) == value
  {
    assert (field + value)[|field|..] == value;
    TrimOfTrimmed(value, IsSpace);
  }

  lemma MessageFields<Json>(m: Message<Json>, dump: Printer<Json>, parse: Parser<Json>)
    requires Printable(m, dump, parse)
    ensures ReadLines(MessageLines(m, dump)) == Fields(m.name, dump(m.payload))
  {
    var event, data := EVENT_FIELD + m.name, DATA_FIELD + dump(m.payload);
    FieldLine(EVENT_FIELD, m.name);
    FieldLine(DATA_FIELD, dump(m.payload));
    assert data[0] == 'd' && !IsEventLine(data);
    assert Front([event]) == [];
    assert ReadLines([event]) == Fields(m.name, "");
    if m.id.Some? {
      var id := "id: " + m.id.value;
      assert id[0] == 'i' && !IsEventLine(id) && !IsDataLine(id);
      assert Front([event, id]) == [event];
      assert Front([event, id, data]) == [event, id];
      assert MessageLines(m, dump) == [event, id, data];
    } else {
      assert Front([event, data]) == [event];
      assert MessageLines(m, dump) == [event, data];
    }
  }

  lemma NotBlank(s: string)
    requires s != "" && s[0] == 'e'
    ensures Trim(s, IsSpace) != ""
  {
    assert !IsSpace(s[0]);
    var tail := TrimEndParts(s, IsSpace);
    assert s[0] == (TrimEnd(s, IsSpace) + tail)[0];
    assert TrimEnd(s, IsSpace) == "" ==> s == tail;
  }

  lemma MessageLinesShape<Json>(m: Message<Json>, dump: Printer<Json>, parse: Parser<Json>)
    requires Printable(m, dump, parse)
    ensures MessageLines(m, dump) != []
    ensures forall line <- MessageLines(m, dump) :: OneLine(line) && line != ""
    ensures MessageLines(m, dump)[0] != "" && MessageLines(m, dump)[0][0] == 'e'
  {
  }

  lemma JoinStartsAsFirst(lines: seq<string>)
    requires lines != [] && lines[0] != ""
    ensures Join(lines) != "" && Join(lines)[0] == lines[0][0]
  {
  }

  lemma MessageFrame<Json>(m: Message<Json>, dump: Printer<Json>, parse: Parser<Json>)
    requires Printable(m, dump, parse)
    ensures Frame(Join(MessageLines(m, dump)))
    ensures Split(Join(MessageLines(m, dump)), "\n") == MessageLines(m, dump)
    ensures Trim(Join(MessageLines(m, dump)), IsSpace) != ""
  {
    MessageLinesShape(m, dump, parse);
    JoinedLinesFrame(MessageLines(m, dump));
    SplitOfPieces(MessageLines(m, dump), '\n');
    JoinStartsAsFirst(MessageLines(m, dump));
    NotBlank(Join(MessageLines(m, dump)));
  }

  /** A message written and read again is one event with its name and payload. */
  lemma MessageRoundTrip<Json>(m: Message<Json>, dump: Printer<Json>, parse: Parser<Json>, empty: Json)
    requires Printable(m, dump, parse)
    ensures Frame(Join(MessageLines(m, dump)))
    ensures ParseFrame(Join(MessageLines(m, dump)), parse, empty) == [Sent(m)]
  {
    MessageFrame(m, dump, parse);
    MessageFields(m, dump, parse);
    FieldsParsed(Join(MessageLines(m, dump)), Fields(m.name, dump(m.payload)), m.payload, parse, empty);
  }

  lemma FieldsParsed<Json>(frame: string, fields: Fields, payload: Json, parse: Parser<Json>, empty: Json)
    requires Trim(frame, IsSpace) != "" && ReadLines(Split(frame, "\n")) == fields
    requires fields.dataLine != "" && parse(fields.dataLine) == Some(payload)
    ensures ParseFrame(frame, parse, empty) == [Event(fields.eventType, payload)]
  {
  }

  lemma ParseFramesUnfold<Json>(frames: seq<string>, parse: Parser<Json>, empty: Json)
    requires frames != []
    ensures ParseFrames(frames, parse, empty)
         == ParseFrames(Front(frames), parse, empty) + ParseFrame(Last(frames), parse, empty)
  {
  }

  lemma {:induction false} ParseFramesPrepend<Json>(
    frame: string, frames: seq<string>, parse: Parser<Json>, empty: Json)
    ensures ParseFrames([frame] + frames, parse, empty)
         == ParseFrame(frame, parse, empty) + ParseFrames(frames, parse, empty)
    decreases |frames|
  {
    ParseFramesUnfold([frame] + frames, parse, empty);
    if frames == [] {
      assert Front([frame] + frames) == [];
    } else {
      ParseFramesUnfold(frames, parse, empty);
      assert Front([frame] + frames) == [frame] + Front(frames);
      ParseFramesPrepend(frame, Front(frames), parse, empty);
      Associate(ParseFrame(frame, parse, empty), ParseFrames(Front(frames), parse, empty),
                ParseFrame(Last(frames), parse, empty));
    }
  }

  lemma FrameDelivered<Json>(frame: string, rest: string, parse: Parser<Json>, empty: Json)
    requires Frame(frame)
    ensures Delivered(frame + BLANK_LINE + rest, parse, empty)
         == ParseFrame(frame, parse, empty) + Delivered(rest, parse, empty)
  {
    SplitOffFrame(frame, rest);
    var pieces := Split(rest, BLANK_LINE);
    assert Front([frame] + pieces) == [frame] + Front(pieces);
    ParseFramesPrepend(frame, Front(pieces), parse, empty);
  }

  lemma AllSentCons<Json>(m: Message<Json>, ms: seq<Message<Json>>)
    ensures AllSent([m] + ms) == [Sent(m)] + AllSent(ms)
  {
  }

  lemma MessageDelivered<Json>(m: Message<Json>, ms: seq<Message<Json>>, unfinished: string,
                               dump: Printer<Json>, parse: Parser<Json>, empty: Json)
    requires Printable(m, dump, parse)
    ensures Delivered(Stream([m] + ms, dump) + unfinished, parse, empty)
         == [Sent(m)] + Delivered(Stream(ms, dump) + unfinished, parse, empty)
  {
    var frame, rest := Join(MessageLines(m, dump)), Stream(ms, dump) + unfinished;
    assert ([m] + ms)[1..] == ms;
    Associate(frame + BLANK_LINE, Stream(ms, dump), unfinished);
    MessageRoundTrip(m, dump, parse, empty);
    FrameDelivered(frame, rest, parse, empty);
  }

  /** What the API writes is what the frontend delivers, message by message and in
      order; an unfinished message at the end delivers nothing yet. */
  lemma {:induction false} StreamRoundTrip<Json>(
    ms: seq<Message<Json>>, unfinished: string, dump: Printer<Json>, parse: Parser<Json>, empty: Json)
    requires forall m <- ms :: Printable(m, dump, parse)
    requires Find(unfinished, BLANK_LINE, 0) == -1
    ensures Delivered(Stream(ms, dump) + unfinished, parse, empty) == AllSent(ms)
    decreases |ms|
  {
    if ms == [] {
      assert Stream(ms, dump) + unfinished == unfinished;
    } else {
      MessageDelivered(ms[0], ms[1..], unfinished, dump, parse, empty);
      StreamRoundTrip(ms[1..], unfinished, dump, parse, empty);
      AllSentCons(ms[0], ms[1..]);
      assert ms == [ms[0]] + ms[1..];
    }
  }
}
