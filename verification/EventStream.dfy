/**
 The event stream between gateway and browser client: the gateway writes one frame per message, with
 keepalive comments in between; the client cuts whatever text chunks arrive back into messages.
 */
module EventStream {
  import opened Wrappers
  import opened Text

  // ---- the writer ----

  datatype Event = Message(payload: string) | Keepalive

  /** `name` is `ros2-message` or `mqtt-message`. */
  function Frame(name: string, e: Event): string {
    match e
    case Message(payload) => "event: " + name + "\n" + "data: " + payload + "\n\n"
    case Keepalive => ": keepalive" + "\n\n"
  }

  /** Everything written to the socket after the response head. */
  function Written(name: string, events: seq<Event>): string {
    if events == [] then "" else Frame(name, events[0]) + Written(name, events[1..])
  }

  function Payloads(events: seq<Event>): seq<string> {
    if events == [] then []
    else (if events[0].Message? then [events[0].payload] else []) + Payloads(events[1..])
  }

  predicate OneLine(s: string) {
    '\n' !in s
  }

  predicate Clean(e: Event) {
    e.Message? ==> OneLine(e.payload)
  }

  /** As `serde_json::to_string` writes payloads. */
  predicate Compact(events: seq<Event>) {
    forall e | e in events :: Clean(e)
  }

  // ---- the client ----

  predicate BreakAt(s: string, i: int) {
    0 <= i < |s| - 1 && s[i] == '\n' && s[i + 1] == '\n'
  }

  /** `buffered.indexOf("\n\n")` */
  function Boundary(s: string): (r: Option<nat>)
    ensures r.Some? ==> BreakAt(s, r.value) && forall i | 0 <= i < r.value :: !BreakAt(s, i)
    ensures r.None? ==> forall i :: !BreakAt(s, i)
  {
    FirstBreak(s, 0)
  }

  function FirstBreak(s: string, from: nat): (r: Option<nat>)
    requires from <= |s|
    ensures r.Some? ==> BreakAt(s, r.value) && forall i | from <= i < r.value :: !BreakAt(s, i)
    ensures r.None? ==> forall i | from <= i :: !BreakAt(s, i)
    decreases |s| - from
  {
    if from == |s| then None else if BreakAt(s, from) then Some(from) else FirstBreak(s, from + 1)
  }

  predicate IsData(line: string) {
    |line| >= 6 && line[..6] == "data: "
  }

  function DataLines(lines: seq<string>): seq<string> {
    if lines == [] then []
    else (if IsData(lines[0]) then [lines[0][6..]] else []) + DataLines(lines[1..])
  }

  /** The text handed to `onMessage` for one frame, if it has data at all. */
  function FrameText(frame: string): seq<string> {
    var data := DataLines(Split(frame, '\n'));
    if data == [] then [] else [Join(data, "\n")]
  }

  /** The messages in a whole text and what is left after its last complete frame. */
  function Parse(text: string): (r: (seq<string>, string))
    ensures Boundary(r.1).None?
    decreases |text|
  {
    match Boundary(text)
    case None => ([], text)
    case Some(b) =>
      var (messages, rest) := Parse(text[b + 2..]);
      (FrameText(text[..b]) + messages, rest)
  }

  /**
   The client's read loop: the messages depend only on the concatenated text, never on where the chunks were
   cut, and no complete frame is left in the buffer.
   */
  method ReadStream(chunks: seq<string>) returns (messages: seq<string>, buffered: string)
    ensures (messages, buffered) == Parse(Concat(chunks))
    ensures Boundary(buffered).None?
  {
    messages, buffered := [], "";
    hide FrameText, Boundary;
    for c := 0 to |chunks|
      invariant Parse(Concat(chunks[..c])) == (messages, buffered)
    {
      ConcatNext(chunks, c);
      ParseMore(Concat(chunks[..c]), chunks[c]);
      ghost var (before, found) := (messages, Parse(buffered + chunks[c]));
      buffered := buffered + chunks[c];
      var boundary := Boundary(buffered);
      while boundary.Some?
        invariant boundary == Boundary(buffered)
        invariant (before + found.0, found.1) == (messages + Parse(buffered).0, Parse(buffered).1)
        decreases |buffered|
      {
        var frame := buffered[..boundary.value];
        buffered := buffered[boundary.value + 2..];
        Associate(messages, FrameText(frame), Parse(buffered).0);
        messages := messages + FrameText(frame);
        boundary := Boundary(buffered);
      }
      assert messages + [] == messages;
    }
    assert chunks[..|chunks|] == chunks;
  }

  /** Parsing may stop at any point of the text and go on later from what was left. */
  lemma {:induction false} ParseMore(a: string, b: string)
    ensures var (messages, rest) := Parse(a);
            var (more, last) := Parse(rest + b);
            Parse(a + b) == (messages + more, last)
    decreases |a|
  {
    hide FrameText;
    match Boundary(a) {
      case None =>
        assert [] + Parse(a + b).0 == Parse(a + b).0;
      case Some(cut) =>
        BoundaryStays(a, b, cut);
        hide Boundary;
        assert (a + b)[..cut] == a[..cut];
        assert (a + b)[cut + 2..] == a[cut + 2..] + b;
        ParseMore(a[cut + 2..], b);
        var (messages, rest) := Parse(a[cut + 2..]);
        Associate(FrameText(a[..cut]), messages, Parse(rest + b).0);
    }
  }

  lemma BoundaryStays(a: string, b: string, cut: nat)
    requires Boundary(a) == Some(cut)
    ensures Boundary(a + b) == Some(cut)
  {
    var r := Boundary(a + b);
    assert BreakAt(a + b, cut);
    forall i | 0 <= i < cut ensures !BreakAt(a + b, i) {
      assert !BreakAt(a, i);
    }
  }

  // ---- a frame the gateway wrote ----

  /** The frame without its closing blank line. */
  function Head(name: string, e: Event): string {
    match e
    case Message(payload) => "event: " + name + "\n" + "data: " + payload
    case Keepalive => ": keepalive"
  }

  lemma HeadHasNoBreak(name: string, e: Event)
    requires OneLine(name) && Clean(e)
    ensures Head(name, e) != "" && Head(name, e)[|Head(name, e)| - 1] != '\n'
    ensures forall i :: !BreakAt(Head(name, e), i)
    ensures Frame(name, e) == Head(name, e) + "\n\n"
  {
    var h := Head(name, e);
    match e {
      case Keepalive =>
      case Message(payload) =>
        var first, second := "event: " + name, "data: " + payload;
        assert '\n' !in first && '\n' !in second;
        assert h == first + "\n" + second;
        forall i | 0 <= i < |h| ensures h[i] == '\n' <==> i == |first| {
          if i > |first| {
            assert h[i] == second[i - |first| - 1];
          }
        }
    }
  }

  /** Of a text that begins with a written frame, the client cuts off exactly that frame. */
  lemma FrameIsCut(name: string, e: Event, rest: string)
    requires OneLine(name) && Clean(e)
    ensures Boundary(Frame(name, e) + rest) == Some(|Head(name, e)|)
    ensures (Frame(name, e) + rest)[..|Head(name, e)|] == Head(name, e)
    ensures (Frame(name, e) + rest)[|Head(name, e)| + 2..] == rest
  {
    HeadHasNoBreak(name, e);
    var h := Head(name, e);
    hide Head, Frame;
    var text := h + "\n\n" + rest;
    assert BreakAt(text, |h|);
    forall i | 0 <= i < |h| ensures !BreakAt(text, i) {
      assert !BreakAt(h, i);
    }
  }

  lemma SecondLineIsData(first: string, second: string)
    requires OneLine(first) && OneLine(second) && !IsData(first) && IsData(second)
    ensures FrameText(first + ['\n'] + second) == [second[6..]]
  {
    SplitFirst(first, second, '\n');
    SplitFirst(second, "", '\n');
    hide IsData;
    assert ([first] + [second])[1..] == [second];
    assert DataLines([second]) == [second[6..]] by {
      assert [second][1..] == [];
    }
  }

  lemma DataField(payload: string)
    ensures IsData("data: " + payload) && ("data: " + payload)[6..] == payload
  {
    assert ("data: " + payload)[..6] == "data: ";
  }

  lemma HeadCarriesPayload(name: string, e: Event)
    requires OneLine(name) && Clean(e)
    ensures FrameText(Head(name, e)) == Payloads([e])
  {
    match e {
      case Keepalive =>
        var h := ": keepalive";
        assert h[0] == ':' && h[..6][0] == ':';
        SplitFirst(h, "", '\n');
        assert [h][1..] == [];
      case Message(payload) =>
        var first, second := "event: " + name, "data: " + payload;
        assert first[0] == 'e' && first[..6][0] == 'e';
        DataField(payload);
        assert Head(name, e) == first + ['\n'] + second;
        assert OneLine(first) && OneLine(second);
        assert Payloads([e]) == [payload];
        hide Head, IsData, FrameText;
        SecondLineIsData(first, second);
    }
  }

  /**
   Any messages and keepalives, cut anywhere: the client gets exactly the payloads, in order, and keeps an
   unfinished frame to itself.
   */
  lemma {:induction false} EveryPayloadArrives(name: string, events: seq<Event>, unfinished: string)
    requires OneLine(name) && Compact(events) && Boundary(unfinished).None?
    ensures Parse(Written(name, events) + unfinished) == (Payloads(events), unfinished)
  {
    hide Boundary, FrameText;
    if events == [] {
      assert Written(name, events) + unfinished == unfinished;
    } else {
      var e, rest := events[0], Written(name, events[1..]) + unfinished;
      EveryPayloadArrives(name, events[1..], unfinished);
      assert Written(name, events) + unfinished == Frame(name, e) + rest;
      FrameIsCut(name, e, rest);
      HeadCarriesPayload(name, e);
      assert Payloads(events) == Payloads([e]) + Payloads(events[1..]) by {
        assert [e][1..] == [];
      }
      hide Frame, Head;
    }
  }

  lemma UnfinishedHasNoBreak(name: string, e: Event, k: nat)
    requires OneLine(name) && Clean(e) && k < |Frame(name, e)|
    ensures Boundary(Frame(name, e)[..k]).None?
  {
    HeadHasNoBreak(name, e);
    var h := Head(name, e);
    hide Head, Frame;
    var cut := (h + "\n\n")[..k];
    forall i ensures !BreakAt(cut, i) {
      if 0 <= i < |cut| - 1 {
        assert cut[i] == (h + "\n\n")[i] && cut[i + 1] == (h + "\n\n")[i + 1];
        assert !BreakAt(h, i);
      }
    }
  }

  /**
   A written stream cut off anywhere, even in the middle of a frame, and chunked in any way: the read loop
   hands over the payloads of the complete frames, in order, and no more.
   */
  lemma StreamDelivers(name: string, events: seq<Event>, next: Event, k: nat, chunks: seq<string>)
    requires OneLine(name) && Compact(events + [next]) && k < |Frame(name, next)|
    requires Concat(chunks) == Written(name, events) + Frame(name, next)[..k]
    ensures Parse(Concat(chunks)) == (Payloads(events), Frame(name, next)[..k])
  {
    assert forall e | e in events :: e in events + [next];
    assert next in events + [next];
    hide Frame, Parse;
    UnfinishedHasNoBreak(name, next, k);
    EveryPayloadArrives(name, events, Frame(name, next)[..k]);
  }

  // ---- payloads with line breaks ----

  /** Each data line loses its six-character field name, each other line is lost. */
  lemma {:induction false} DataShrinks(lines: seq<string>)
    requires lines != []
    ensures DataLines(lines) != [] ==> |Join(DataLines(lines), "\n")| + 6 * |DataLines(lines)| <= |Join(lines, "\n")|
  {
    if |lines| > 1 {
      DataShrinks(lines[1..]);
      var data := DataLines(lines[1..]);
      if IsData(lines[0]) && data != [] {
        assert DataLines(lines) == [lines[0][6..]] + data;
        assert ([lines[0][6..]] + data)[1..] == data;
        assert |Join([lines[0][6..]] + data, "\n")| == |lines[0]| - 6 + 1 + |Join(data, "\n")|;
      } else if IsData(lines[0]) {
        assert DataLines(lines) == [lines[0][6..]];
      } else {
        assert DataLines(lines) == data;
      }
    } else {
      assert lines[1..] == [];
      assert DataLines(lines) == if IsData(lines[0]) then [lines[0][6..]] else [];
    }
  }

  /** A line ends at the first line break. */
  lemma {:induction false} CutLine(s: string) returns (line: string, rest: string)
    requires !OneLine(s)
    ensures OneLine(line) && s == line + ['\n'] + rest
  {
    if s[0] == '\n' {
      line, rest := "", s[1..];
    } else {
      line, rest := CutLine(s[1..]);
      line := [s[0]] + line;
    }
  }

  /** The text handed over for a frame whose data field is followed by `p`: all of `p` only if it is one line. */
  lemma DataText(first: string, p: string) returns (m: string)
    requires OneLine(first) && !IsData(first)
    ensures FrameText(first + ['\n'] + ("data: " + p)) == [m]
    ensures |m| <= |p| && (m == p <==> OneLine(p))
  {
    DataField(p);
    if OneLine(p) {
      m := p;
      assert OneLine("data: " + p);
      hide IsData, FrameText;
      SecondLineIsData(first, "data: " + p);
    } else {
      var line, rest := CutLine(p);
      m := LongDataText(first, "data: " + line, rest, line) by {
        DataField(line);
      }
      assert "data: " + p == ("data: " + line) + ['\n'] + rest;
    }
  }

  lemma LongDataText(first: string, second: string, rest: string, line: string) returns (m: string)
    requires OneLine(first) && !IsData(first) && OneLine(second) && IsData(second) && second[6..] == line
    ensures FrameText(first + ['\n'] + (second + ['\n'] + rest)) == [m]
    ensures |m| <= |line| + 1 + |rest| && m != line + ['\n'] + rest
  {
    SplitFirst(first, second + ['\n'] + rest, '\n');
    SplitFirst(second, rest, '\n');
    var more := Split(rest, '\n');
    DataShrinks(more);
    JoinSplit(rest, '\n');
    var data := DataLines(more);
    hide IsData, Split;
    assert ([first] + ([second] + more))[1..] == [second] + more && ([second] + more)[1..] == more;
    assert DataLines([second] + more) == [line] + data;
    assert DataLines([first] + ([second] + more)) == [line] + data;
    m := Join([line] + data, "\n");
    assert ([line] + data)[1..] == data;
    if data == [] {
      assert m == line;
    } else {
      assert |m| == |line| + 1 + |Join(data, "\n")|;
    }
  }

  lemma HeadIsUnbroken(first: string, rest: string)
    requires OneLine(first)
    ensures var head := first + ['\n'] + "data: ";
            forall i | 0 <= i < |head| :: !BreakAt(head + rest, i)
  {
    var head := first + ['\n'] + "data: ";
    forall i | 0 <= i < |head| ensures !BreakAt(head + rest, i) {
      if i < |first| {
        assert (head + rest)[i] == first[i];
      } else if i == |first| {
        assert (head + rest)[i + 1] == 'd';
      } else {
        assert (head + rest)[i] == "data: "[i - |first| - 1];
      }
    }
  }

  lemma BreakInPayload(text: string, head: nat, end: nat)
    requires forall i | 0 <= i < head :: !BreakAt(text, i)
    requires head <= end && BreakAt(text, end)
    ensures Boundary(text).Some? && head <= Boundary(text).value <= end
  {
  }

  lemma ParseCut(text: string, cut: nat)
    requires Boundary(text) == Some(cut)
    ensures Parse(text).0 == FrameText(text[..cut]) + Parse(text[cut + 2..]).0
  {
    hide Boundary, FrameText;
  }

  lemma FieldBreaks(first: string, payload: string, rest: string, text: string, start: nat)
    requires OneLine(first) && start == |first| + 7
    requires text == first + ['\n'] + "data: " + (payload + "\n\n" + rest)
    ensures Boundary(text).Some? && start <= Boundary(text).value <= start + |payload|
  {
    HeadIsUnbroken(first, payload + "\n\n" + rest);
    assert text[start + |payload|] == text[start + |payload| + 1] == '\n';
    BreakInPayload(text, start, start + |payload|);
  }

  lemma TextUpTo(first: string, payload: string, rest: string, text: string, start: nat, cut: nat)
    requires text == first + ['\n'] + "data: " + (payload + "\n\n" + rest)
    requires start == |first| + 7 && start <= cut <= start + |payload|
    ensures text[..cut] == first + ['\n'] + ("data: " + payload[..cut - start])
  {
  }

  lemma BrokenField(first: string, payload: string, rest: string, text: string)
    requires OneLine(first) && !IsData(first) && !OneLine(payload)
    requires text == first + ['\n'] + "data: " + (payload + "\n\n" + rest)
    ensures Parse(text).0 != [] && Parse(text).0[0] != payload
  {
    hide Boundary, FrameText, BreakAt, Parse, IsData, OneLine;
    FieldBreaks(first, payload, rest, text, |first| + 7);
    var cut := Boundary(text).value;
    ParseCut(text, cut);
    TextUpTo(first, payload, rest, text, |first| + 7, cut);
    var p := payload[..cut - |first| - 7];
    var m := DataText(first, p);
    assert Parse(text).0 == [m] + Parse(text[cut + 2..]).0;
    if |p| == |payload| {
      assert p == payload;
    }
  }

  /** A payload with a line break in it is never what the client gets first. */
  lemma BrokenPayload(name: string, payload: string, rest: string)
    requires OneLine(name) && !OneLine(payload)
    ensures var messages := Parse(Frame(name, Message(payload)) + rest).0; messages != [] && messages[0] != payload
  {
    hide Parse;
    var first := "event: " + name;
    assert OneLine(first) && first[0] == 'e' && first[..6][0] == 'e';
    var text := Frame(name, Message(payload)) + rest;
    assert text == first + ['\n'] + "data: " + (payload + "\n\n" + rest);
    BrokenField(first, payload, rest, text);
  }

  lemma CleanFrameFirst(name: string, e: Event, rest: string)
    requires OneLine(name) && Clean(e)
    ensures Parse(Frame(name, e) + rest) == (Payloads([e]) + Parse(rest).0, Parse(rest).1)
  {
    FrameIsCut(name, e, rest);
    HeadCarriesPayload(name, e);
    hide Frame, Head, Boundary, FrameText, Payloads;
  }

  lemma CompactFirst(events: seq<Event>)
    requires events != []
    ensures Compact(events) <==> Clean(events[0]) && Compact(events[1..])
    ensures Payloads(events) == Payloads([events[0]]) + Payloads(events[1..])
  {
    assert [events[0]][1..] == [];
    assert forall e :: e in events <==> e == events[0] || e in events[1..];
    hide Clean;
  }

  lemma SameTail<T>(a: seq<T>, x: seq<T>, y: seq<T>)
    ensures a + x == a + y <==> x == y
  {
    if a + x == a + y {
      assert (a + x)[|a|..] == x && (a + y)[|a|..] == y;
    }
  }

  /** The client gets the written messages if and only if every payload is a single line. */
  lemma {:induction false} ArrivesIffCompact(name: string, events: seq<Event>)
    requires OneLine(name)
    ensures Parse(Written(name, events)) == (Payloads(events), "") <==> Compact(events)
  {
    hide Frame, FrameText, Boundary, Payloads;
    if Compact(events) {
      EveryPayloadArrives(name, events, "");
      assert Written(name, events) + "" == Written(name, events);
    } else {
      var e, rest := events[0], Written(name, events[1..]);
      hide Compact, Parse;
      CompactFirst(events);
      if e.Message? && !OneLine(e.payload) {
        BrokenPayload(name, e.payload, rest);
        assert Payloads([e]) == [e.payload] by {
          OnePayload(e);
        }
      } else {
        ArrivesIffCompact(name, events[1..]);
        CleanFrameFirst(name, e, rest);
        SameTail(Payloads([e]), Parse(rest).0, Payloads(events[1..]));
      }
    }
  }

  lemma OnePayload(e: Event)
    requires e.Message?
    ensures Payloads([e]) == [e.payload]
  {
  }
}
