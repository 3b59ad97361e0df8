/** The SSE wire format: what `_sse_body` writes and what a conforming client reads back. */
module Sse {
  import opened Heartbeat
  import opened Logs

  /** `id`, `kind` (the source's `type`) and the JSON text of an event. */
  datatype Event = Event(id: string, kind: string, data: string)

  // ---- the writer ------------------------------------------------------------

  function Frame(e: Event): string {
    "id: " + e.id + "\nevent: " + e.kind + "\ndata: " + e.data + "\n\n"
  }

  const RETRY: string := "retry: 3000\n\n"
  const HEARTBEAT: string := ": heartbeat\n\n"

  /** What one turn of the loop of `_sse_body` yields. */
  function Written(o: Output<Event>, canView: Event -> bool): string {
    match o
    case Beat(_) => HEARTBEAT
    case Item(e) => if canView(e) then Frame(e) else ""
  }

  function Frames(outputs: seq<Output<Event>>, canView: Event -> bool): string {
    if outputs == [] then "" else Written(outputs[0], canView) + Frames(outputs[1..], canView)
  }

  function Body(outputs: seq<Output<Event>>, canView: Event -> bool): string {
    RETRY + Frames(outputs, canView)
  }

  function Visible(outputs: seq<Output<Event>>, canView: Event -> bool): seq<Event> {
    if outputs == [] then []
    else if outputs[0].Item? && canView(outputs[0].value) then [outputs[0].value] + Visible(outputs[1..], canView)
    else Visible(outputs[1..], canView)
  }

  // ---- the reader: sections 9.2.5 and 9.2.6 of the WHATWG HTML Standard -----------

  /** The lines of a stream, each ended by CRLF, LF or CR; an unfinished last line is discarded. */
  function SplitLines(s: string, line: string): seq<string>
    decreases |s|
  {
    if |s| == 0 then []
    else if |s| > 1 && s[0] == '\r' && s[1] == '\n' then [line] + SplitLines(s[2..], "")
    else if s[0] == '\r' then [line] + SplitLines(s[1..], "")
    else if s[0] == '\n' then [line] + SplitLines(s[1..], "")
    else SplitLines(s[1..], line + [s[0]])
  }

  /** The three buffers, the events dispatched so far, the reconnection time if one was set, and how many
      comments were read. */
  datatype Reader = Reader(lastId: string, kind: string, data: string, events: seq<Event>, retry: Option<nat>,
                           comments: nat)

  function Colon(line: string): nat
    ensures Colon(line) <= |line|
    ensures Colon(line) < |line| ==> line[Colon(line)] == ':'
    ensures forall i :: 0 <= i < Colon(line) ==> line[i] != ':'
  {
    if line == "" || line[0] == ':' then 0 else 1 + Colon(line[1..])
  }

  function ReadLine(r: Reader, line: string): Reader {
    if line == "" then Dispatch(r)
    else
      var at := Colon(line);
      if at == 0 then r.(comments := r.comments + 1)
      else if at == |line| then ReadField(r, line, "")
      else if at + 1 < |line| && line[at + 1] == ' ' then ReadField(r, line[..at], line[at + 2..])
      else ReadField(r, line[..at], line[at + 1..])
  }

  predicate AllDigits(s: string) {
    forall i :: 0 <= i < |s| ==> '0' <= s[i] <= '9'
  }

  /** ASCII digits as an integer in base ten. */
  function Decimal(s: string): nat
    requires AllDigits(s)
  {
    if s == "" then 0
    else
      var last := s[|s| - 1];
      assert '0' <= last <= '9';
      Decimal(s[..|s| - 1]) * 10 + ((last as int) - ('0' as int))
  }

  /** `retry` sets the reconnection time if it is a number; unknown fields do nothing. */
  function ReadField(r: Reader, field: string, value: string): Reader {
    if field == "event" then r.(kind := value)
    else if field == "data" then r.(data := r.data + value + "\n")
    else if field == "id" then if '\0' in value then r else r.(lastId := value)
    else if field == "retry" && value != "" && AllDigits(value) then r.(retry := Some(Decimal(value)))
    else r
  }

  function Dispatch(r: Reader): Reader {
    if r.data == "" then r.(kind := "", data := "")
    else
      var text := if r.data[|r.data| - 1] == '\n' then r.data[..|r.data| - 1] else r.data;
      var e := Event(r.lastId, if r.kind == "" then "message" else r.kind, text);
      r.(kind := "", data := "", events := r.events + [e])
  }

  function ReadLines(r: Reader, lines: seq<string>): Reader
    decreases |lines|
  {
    if lines == [] then r else ReadLines(ReadLine(r, lines[0]), lines[1..])
  }

  const START: Reader := Reader("", "", "", [], None, 0)

  /** One leading byte order mark is dropped. */
  function Read(s: string): Reader {
    var text := if s != "" && s[0] == '\U{FEFF}' then s[1..] else s;
    ReadLines(START, SplitLines(text, ""))
  }

  function Parse(s: string): seq<Event> {
    Read(s).events
  }

  // ---- round trip --------------------------------------------------------------

  ghost predicate OneLine(s: string) {
    forall i :: 0 <= i < |s| ==> s[i] != '\n' && s[i] != '\r'
  }

  ghost predicate WellFormed(e: Event) {
    OneLine(e.id) && OneLine(e.kind) && OneLine(e.data) && '\0' !in e.id && e.kind != ""
  }

  ghost predicate AllWellFormed(outputs: seq<Output<Event>>, canView: Event -> bool) {
    forall i :: 0 <= i < |outputs| && outputs[i].Item? && canView(outputs[i].value) ==> WellFormed(outputs[i].value)
  }

  lemma {:induction false} FirstLine(text: string, rest: string, line: string)
    requires OneLine(text)
    ensures SplitLines(text + "\n" + rest, line) == [line + text] + SplitLines(rest, "")
  {
    if text == "" {
      assert text + "\n" + rest == "\n" + rest;
      assert ("\n" + rest)[1..] == rest;
      assert line + text == line;
    } else {
      var all := text + "\n" + rest;
      FirstLine(text[1..], rest, line + [text[0]]);
      assert all[1..] == text[1..] + "\n" + rest;
      assert line + [text[0]] + text[1..] == line + text;
    }
  }

  lemma FieldLine(r: Reader, field: string, value: string)
    requires field != "" && forall i :: 0 <= i < |field| ==> field[i] != ':'
    ensures ReadLine(r, field + ": " + value) == ReadField(r, field, value)
  {
    var line := field + ": " + value;
    assert line[|field|] == ':' && line[|field| + 1] == ' ';
    assert Colon(line) == |field| by {
      assert forall i :: 0 <= i < |field| ==> line[i] == field[i];
    }
    assert line[..|field|] == field && line[|field| + 2..] == value;
  }

  /** What a reader does with text that starts with a whole line. */
  lemma ReadFirst(r: Reader, line: string, rest: string)
    requires OneLine(line)
    ensures ReadLines(r, SplitLines(line + "\n" + rest, "")) == ReadLines(ReadLine(r, line), SplitLines(rest, ""))
  {
    FirstLine(line, rest, "");
    assert "" + line == line;
  }

  /** A whole field line, as a frame writes it. */
  lemma ReadFirstField(r: Reader, field: string, value: string, rest: string)
    requires field != "" && OneLine(field) && OneLine(value) && forall i :: 0 <= i < |field| ==> field[i] != ':'
    ensures ReadLines(r, SplitLines(field + ": " + value + "\n" + rest, ""))
            == ReadLines(ReadField(r, field, value), SplitLines(rest, ""))
  {
    FieldLine(r, field, value);
    ReadFirst(r, field + ": " + value, rest);
  }

  lemma ReadBlank(r: Reader, rest: string)
    ensures ReadLines(r, SplitLines("\n" + rest, "")) == ReadLines(Dispatch(r), SplitLines(rest, ""))
  {
    ReadFirst(r, "", rest);
    assert "" + "\n" + rest == "\n" + rest;
  }

  ghost predicate Between(r: Reader) {
    r.kind == "" && r.data == ""
  }

  /** The end of a frame: the data line and the blank line. */
  lemma FrameTail(r: Reader, data: string, rest: string)
    requires r.data == "" && r.kind != "" && OneLine(data)
    ensures ReadLines(r, SplitLines("data: " + data + "\n" + ("\n" + rest), ""))
         == ReadLines(r.(kind := "", data := "", events := r.events + [Event(r.lastId, r.kind, data)]),
                      SplitLines(rest, ""))
  {
    ReadFirstField(r, "data", data, "\n" + rest);
    assert "data" + ": " + data == "data: " + data;
    var full := ReadField(r, "data", data);
    assert full.data == data + "\n";
    assert full.data[..|full.data| - 1] == data;
    ReadBlank(full, rest);
  }

  lemma FrameReadsBack(r: Reader, e: Event, rest: string)
    requires Between(r) && WellFormed(e)
    ensures ReadLines(r, SplitLines(Frame(e) + rest, ""))
         == ReadLines(r.(lastId := e.id, events := r.events + [e]), SplitLines(rest, ""))
  {
    var last := "data: " + e.data + "\n" + ("\n" + rest);
    var middle := "event" + ": " + e.kind + "\n" + last;
    assert Frame(e) + rest == "id" + ": " + e.id + "\n" + middle;
    ReadFirstField(r, "id", e.id, middle);
    ReadFirstField(r.(lastId := e.id), "event", e.kind, last);
    FrameTail(r.(lastId := e.id, kind := e.kind), e.data, rest);
  }

  lemma CommentLine(r: Reader, line: string)
    requires line != "" && line[0] == ':'
    ensures ReadLine(r, line) == r.(comments := r.comments + 1)
  {
    assert Colon(line) == 0;
  }

  lemma NothingToDispatch(r: Reader)
    requires Between(r)
    ensures Dispatch(r) == r
  {
  }

  /** A comment, and the empty line after it, which dispatches nothing. */
  lemma QuietBlock(r: Reader, line: string, rest: string)
    requires Between(r) && OneLine(line) && line != "" && line[0] == ':'
    ensures ReadLines(r, SplitLines(line + "\n" + ("\n" + rest), ""))
         == ReadLines(r.(comments := r.comments + 1), SplitLines(rest, ""))
  {
    ReadFirst(r, line, "\n" + rest);
    CommentLine(r, line);
    ReadBlank(r.(comments := r.comments + 1), rest);
    NothingToDispatch(r.(comments := r.comments + 1));
  }

  lemma HeartbeatIsQuiet(r: Reader, rest: string)
    requires Between(r)
    ensures ReadLines(r, SplitLines(HEARTBEAT + rest, ""))
         == ReadLines(r.(comments := r.comments + 1), SplitLines(rest, ""))
  {
    var line := ": heartbeat";
    assert HEARTBEAT + rest == line + "\n" + ("\n" + rest);
    QuietBlock(r, line, rest);
  }

  /** What a reader knows once it has read the retry hint: to reconnect after three seconds. */
  const HINTED: Reader := Reader("", "", "", [], Some(3000), 0)

  lemma ThreeThousand()
    ensures AllDigits("3000") && Decimal("3000") == 3000
  {
    assert "3000"[..3] == "300" && "300"[..2] == "30" && "30"[..1] == "3" && "3"[..0] == "";
    assert Decimal("3") == 3 && Decimal("30") == 30 && Decimal("300") == 300;
  }

  lemma RetrySets()
    ensures ReadField(START, "retry", "3000") == HINTED
  {
    ThreeThousand();
  }

  lemma RetryText(rest: string)
    ensures RETRY + rest == "retry" + ": " + "3000" + "\n" + ("\n" + rest)
  {
    assert RETRY == "retry" + ": " + "3000" + "\n" + "\n";
  }

  lemma RetryIsRead(rest: string)
    ensures ReadLines(START, SplitLines(RETRY + rest, "")) == ReadLines(HINTED, SplitLines(rest, ""))
  {
    RetrySets();
    RetryText(rest);
    ReadFirstField(START, "retry", "3000", "\n" + rest);
    ReadBlank(HINTED, rest);
  }

  /** The reader, between two events, after one output. */
  function AfterOutput(r: Reader, o: Output<Event>, canView: Event -> bool): Reader {
    match o
    case Item(e) => if canView(e) then r.(lastId := e.id, events := r.events + [e]) else r
    case Beat(_) => r.(comments := r.comments + 1)
  }

  lemma OutputReadsBack(r: Reader, o: Output<Event>, canView: Event -> bool, rest: string)
    requires Between(r) && (o.Item? && canView(o.value) ==> WellFormed(o.value))
    ensures ReadLines(r, SplitLines(Written(o, canView) + rest, ""))
         == ReadLines(AfterOutput(r, o, canView), SplitLines(rest, ""))
  {
    match o
    case Beat(_) => HeartbeatIsQuiet(r, rest);
    case Item(e) =>
      if canView(e) {
        FrameReadsBack(r, e, rest);
      } else {
        assert "" + rest == rest;
      }
  }

  /** What one output shows. */
  function Shown(o: Output<Event>, canView: Event -> bool): seq<Event> {
    if o.Item? && canView(o.value) then [o.value] else []
  }

  lemma VisibleStep(outputs: seq<Output<Event>>, canView: Event -> bool)
    requires outputs != []
    ensures Visible(outputs, canView) == Shown(outputs[0], canView) + Visible(outputs[1..], canView)
  {
  }

  lemma AfterOutputShows(r: Reader, o: Output<Event>, canView: Event -> bool)
    ensures AfterOutput(r, o, canView).events == r.events + Shown(o, canView)
    ensures AfterOutput(r, o, canView).retry == r.retry
    ensures AfterOutput(r, o, canView).comments == r.comments + if o.Beat? then 1 else 0
  {
  }

  lemma OutputFirst(r: Reader, outputs: seq<Output<Event>>, canView: Event -> bool)
    requires outputs != [] && Between(r) && AllWellFormed(outputs, canView)
    ensures ReadLines(r, SplitLines(Frames(outputs, canView), ""))
         == ReadLines(AfterOutput(r, outputs[0], canView), SplitLines(Frames(outputs[1..], canView), ""))
  {
    OutputReadsBack(r, outputs[0], canView, Frames(outputs[1..], canView));
  }

  lemma EventsConcat(a: seq<Event>, b: seq<Event>, c: seq<Event>)
    ensures (a + b) + c == a + (b + c)
  {
  }

  /** What reading the frames comes to. */
  ghost predicate ReadsBack(r: Reader, end: Reader, shown: seq<Event>, beats: nat) {
    end.events == r.events + shown && end.retry == r.retry && end.comments == r.comments + beats
  }

  /** The heartbeats among the outputs. */
  function Beats(outputs: seq<Output<Event>>): nat {
    if outputs == [] then 0 else Beats(outputs[1..]) + if outputs[0].Beat? then 1 else 0
  }

  lemma ReadsBackFrom(r: Reader, o: Output<Event>, canView: Event -> bool, end: Reader, shown: seq<Event>,
                      beats: nat)
    requires ReadsBack(AfterOutput(r, o, canView), end, shown, beats)
    ensures ReadsBack(r, end, Shown(o, canView) + shown, beats + if o.Beat? then 1 else 0)
  {
    AfterOutputShows(r, o, canView);
    EventsConcat(r.events, Shown(o, canView), shown);
  }

  lemma {:induction false} FramesReadBack(r: Reader, outputs: seq<Output<Event>>, canView: Event -> bool)
    requires Between(r) && AllWellFormed(outputs, canView)
    ensures ReadsBack(r, ReadLines(r, SplitLines(Frames(outputs, canView), "")), Visible(outputs, canView),
                      Beats(outputs))
    decreases |outputs|
  {
    if outputs == [] {
      assert r.events + [] == r.events;
    } else {
      var next := AfterOutput(r, outputs[0], canView);
      var end := ReadLines(next, SplitLines(Frames(outputs[1..], canView), ""));
      FramesReadBack(next, outputs[1..], canView);
      OutputFirst(r, outputs, canView);
      ReadsBackFrom(r, outputs[0], canView, end, Visible(outputs[1..], canView), Beats(outputs[1..]));
      VisibleStep(outputs, canView);
    }
  }

  /** The retry hint and any mix of heartbeats and frames are read back as exactly the visible events,
      in delivery order, a reconnection time of three seconds, and one comment for each heartbeat. */
  lemma BodyRoundTrip(outputs: seq<Output<Event>>, canView: Event -> bool)
    requires AllWellFormed(outputs, canView)
    ensures Parse(Body(outputs, canView)) == Visible(outputs, canView)
    ensures Read(Body(outputs, canView)).retry == Some(3000) && Read(Body(outputs, canView)).comments == Beats(outputs)
  {
    RetryIsRead(Frames(outputs, canView));
    FramesReadBack(HINTED, outputs, canView);
    assert Body(outputs, canView)[0] == RETRY[0] == 'r';
    assert [] + Visible(outputs, canView) == Visible(outputs, canView);
  }

  // ---- the round trip's condition is exact ------------------------------------------

  /** What a reader can hold at all, whatever it is sent. */
  ghost predicate Readable(r: Reader) {
    && OneLine(r.lastId) && '\0' !in r.lastId && OneLine(r.kind) && '\r' !in r.data
    && forall i :: 0 <= i < |r.events| ==>
         OneLine(r.events[i].id) && '\0' !in r.events[i].id && OneLine(r.events[i].kind) && r.events[i].kind != ""
         && '\r' !in r.events[i].data
  }

  lemma {:induction false} SplitLinesAreLines(s: string, line: string)
    requires OneLine(line)
    ensures forall i :: 0 <= i < |SplitLines(s, line)| ==> OneLine(SplitLines(s, line)[i])
    decreases |s|
  {
    if |s| == 0 {
    } else if |s| > 1 && s[0] == '\r' && s[1] == '\n' {
      SplitLinesAreLines(s[2..], "");
    } else if s[0] == '\r' || s[0] == '\n' {
      SplitLinesAreLines(s[1..], "");
    } else {
      SplitLinesAreLines(s[1..], line + [s[0]]);
    }
  }

  lemma ReadFieldStaysReadable(r: Reader, field: string, value: string)
    requires Readable(r) && OneLine(value)
    ensures Readable(ReadField(r, field, value))
  {
  }

  lemma ReadLineStaysReadable(r: Reader, line: string)
    requires Readable(r) && OneLine(line)
    ensures Readable(ReadLine(r, line))
  {
    if line == "" {
      assert forall i :: 0 <= i < |Dispatch(r).events| - 1 ==> Dispatch(r).events[i] == r.events[i];
    } else {
      var at := Colon(line);
      ReadFieldStaysReadable(r, line, "");
      if at < |line| {
        ReadFieldStaysReadable(r, line[..at], line[at + 1..]);
        if at + 1 < |line| {
          ReadFieldStaysReadable(r, line[..at], line[at + 2..]);
        }
      }
    }
  }

  lemma {:induction false} ReadLinesStaysReadable(r: Reader, lines: seq<string>)
    requires Readable(r) && forall i :: 0 <= i < |lines| ==> OneLine(lines[i])
    ensures Readable(ReadLines(r, lines))
    decreases |lines|
  {
    if lines != [] {
      ReadLineStaysReadable(r, lines[0]);
      ReadLinesStaysReadable(ReadLine(r, lines[0]), lines[1..]);
    }
  }

  /** The characters of data a reader holds, counting one line end for each event. */
  function Weight(events: seq<Event>): nat {
    if events == [] then 0 else Weight(events[..|events| - 1]) + |events[|events| - 1].data| + 1
  }

  function Held(r: Reader): nat {
    Weight(r.events) + |r.data|
  }

  /** A data buffer is empty or ends its last line. */
  ghost predicate Closed(r: Reader) {
    r.data != "" ==> r.data[|r.data| - 1] == '\n'
  }

  function Total(lines: seq<string>): nat {
    if lines == [] then 0 else |lines[0]| + Total(lines[1..])
  }

  lemma ReadLineAddsLittle(r: Reader, line: string)
    requires Closed(r)
    ensures Closed(ReadLine(r, line)) && Held(ReadLine(r, line)) <= Held(r) + |line|
  {
    if line == "" && r.data != "" {
      var after := Dispatch(r);
      assert after.events[..|r.events|] == r.events;
    }
  }

  lemma {:induction false} ReadLinesAddLittle(r: Reader, lines: seq<string>)
    requires Closed(r)
    ensures Held(ReadLines(r, lines)) <= Held(r) + Total(lines)
    decreases |lines|
  {
    if lines != [] {
      ReadLineAddsLittle(r, lines[0]);
      ReadLinesAddLittle(ReadLine(r, lines[0]), lines[1..]);
    }
  }

  /** Two line ends of the text are in no line. */
  lemma {:induction false} LinesAreShorter(s: string, line: string)
    ensures Total(SplitLines(s + "\n\n", line)) <= |line| + |s|
    decreases |s|
  {
    var all := s + "\n\n";
    if s == "" {
      assert all[1..] == "\n" && all[1..][1..] == "";
      assert SplitLines(all[1..], "") == [""];
    } else if |s| > 1 && s[0] == '\r' && s[1] == '\n' {
      assert all[2..] == s[2..] + "\n\n";
      LinesAreShorter(s[2..], "");
    } else if |s| == 1 && s[0] == '\r' {
      assert all[0] == '\r' && all[1] == '\n' && all[2..] == "\n";
      assert all[2..][1..] == "";
      assert SplitLines(all[2..], "") == [""];
      assert SplitLines(all, line) == [line] + [""];
      assert Total([line] + [""]) == |line| + Total([""]) by {
        assert ([line] + [""])[1..] == [""];
      }
    } else {
      assert all[1..] == s[1..] + "\n\n";
      LinesAreShorter(s[1..], if s[0] == '\r' || s[0] == '\n' then "" else line + [s[0]]);
    }
  }

  /** The frame of an event whose data is `before`, a line end and `after`. */
  lemma FrameOfTwoLines(e: Event, before: string, after: string)
    requires e.data == before + "\n" + after
    ensures Frame(e) == "id" + ": " + e.id + "\n" + ("event" + ": " + e.kind + "\n" + ("data" + ": " + before
            + "\n" + (after + "\n\n")))
  {
    var last := "data: " + e.data + "\n\n";
    assert last == "data: " + before + "\n" + (after + "\n\n");
    assert "data: " == "data" + ": ";
    assert Frame(e) == "id: " + e.id + "\n" + ("event: " + e.kind + "\n" + last);
    assert "id: " == "id" + ": " && "event: " == "event" + ": ";
    assert Frame(e) == "id" + ": " + e.id + "\n" + ("event" + ": " + e.kind + "\n" + last);
  }

  /** Data with a line end in it is read back shorter than it was. */
  lemma LineEndIsLost(e: Event, before: string, after: string)
    requires OneLine(e.id) && OneLine(e.kind) && '\0' !in e.id && OneLine(before) && e.data == before + "\n" + after
    ensures Held(ReadLines(HINTED, SplitLines(Frame(e), ""))) < Weight([e])
  {
    var rest := after + "\n\n";
    var last := "data" + ": " + before + "\n" + rest;
    FrameOfTwoLines(e, before, after);
    ReadFirstField(HINTED, "id", e.id, "event" + ": " + e.kind + "\n" + last);
    ReadFirstField(HINTED.(lastId := e.id), "event", e.kind, last);
    var r := HINTED.(lastId := e.id, kind := e.kind);
    ReadFirstField(r, "data", before, rest);
    var next := ReadField(r, "data", before);
    assert next.data == before + "\n";
    ReadLinesAddLittle(next, SplitLines(rest, ""));
    LinesAreShorter(after, "");
    assert Weight([e]) == |e.data| + 1;
  }

  lemma FirstLineEnd(s: string) returns (before: string, after: string)
    requires '\n' in s && '\r' !in s
    ensures OneLine(before) && s == before + "\n" + after
  {
    if s[0] == '\n' {
      before, after := "", s[1..];
    } else {
      var b, a := FirstLineEnd(s[1..]);
      before, after := [s[0]] + b, a;
    }
  }

  /** An event sent on its own is read back as itself exactly when it is well formed: no line end in any
      field, no NUL in the id and a type that is not empty. */
  lemma RoundTripIsExact(e: Event)
    ensures Parse(RETRY + Frame(e)) == [e] <==> WellFormed(e)
  {
    var text := RETRY + Frame(e);
    assert text[0] == RETRY[0] == 'r';
    RetryIsRead(Frame(e));
    var r := ReadLines(HINTED, SplitLines(Frame(e), ""));
    assert Parse(text) == r.events;
    if WellFormed(e) {
      FrameReadsBack(HINTED, e, "");
      assert Frame(e) + "" == Frame(e);
      assert [] + [e] == [e];
    } else if r.events == [e] {
      SplitLinesAreLines(Frame(e), "");
      ReadLinesStaysReadable(HINTED, SplitLines(Frame(e), ""));
      assert e == r.events[0];
      var before, after := FirstLineEnd(e.data);
      LineEndIsLost(e, before, after);
    }
  }

  lemma FramesStep(text: string, outputs: seq<Output<Event>>, i: nat, canView: Event -> bool)
    requires i < |outputs|
    ensures text + Frames(outputs[i..], canView) == (text + Written(outputs[i], canView)) + Frames(outputs[i + 1..],
            canView)
  {
    assert outputs[i..][1..] == outputs[i + 1..];
  }

  /** `_sse_body`, up to the `outputs` its wrapped subscription yields: the concatenation of what it yields
      is read back as exactly the visible events. */
  method SseBody(outputs: seq<Output<Event>>, canView: Event -> bool) returns (text: string)
    ensures text == Body(outputs, canView)
    ensures AllWellFormed(outputs, canView)
            ==> Parse(text) == Visible(outputs, canView)
  {
    text := RETRY;
    var i := 0;
    assert outputs[0..] == outputs;
    while i < |outputs|
      invariant 0 <= i <= |outputs|
      invariant text + Frames(outputs[i..], canView) == Body(outputs, canView)
    {
      FramesStep(text, outputs, i, canView);
      text := text + Written(outputs[i], canView);
      i := i + 1;
    }
    assert Frames(outputs[i..], canView) == "";
    if AllWellFormed(outputs, canView) {
      BodyRoundTrip(outputs, canView);
    }
  }
}
