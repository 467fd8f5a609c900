/** The buffered reader that turns network chunks of an event stream into parsed events.
    Models frontend/src/services/api.ts, the loops of streamScan, streamFindingChat and streamChat. */
module LineDecoder {
  import opened Sequences

  const DATA := "data: "

  // ---------------------------------------------------------------- lines of a text

  /** JavaScript's `text.split("\n")`. */
  function Split(text: string): (pieces: seq<string>)
    ensures |pieces| > 0
  {
    if text == "" then [""]
    else
      var rest := Split(text[1..]);
      if text[0] == '\n' then [""] + rest else [[text[0]] + rest[0]] + rest[1..]
  }

  function Last<T>(s: seq<T>): T
    requires |s| > 0
  {
    s[|s| - 1]
  }

  function Init<T>(s: seq<T>): seq<T>
    requires |s| > 0
  {
    s[..|s| - 1]
  }

  /** The lines of a text that a line break has ended; what follows the last break is left out. */
  function CompleteLines(text: string): seq<string> {
    Init(Split(text))
  }

  function JoinLines(pieces: seq<string>): string
    requires |pieces| > 0
  {
    if |pieces| == 1 then pieces[0] else pieces[0] + "\n" + JoinLines(pieces[1..])
  }

  /** Split takes a text apart at its line breaks and loses nothing ... */
  lemma {:induction false} SplitJoins(text: string)
    ensures JoinLines(Split(text)) == text
    ensures forall i | 0 <= i < |Split(text)| :: '\n' !in Split(text)[i]
  {
    if text != "" {
      SplitJoins(text[1..]);
      var rest := Split(text[1..]);
      if text[0] == '\n' {
        assert ([""] + rest)[1..] == rest;
      } else {
        var pieces := [[text[0]] + rest[0]] + rest[1..];
        assert pieces[1..] == rest[1..];
        assert JoinLines(pieces) == [text[0]] + JoinLines(rest);
      }
    }
  }

  lemma {:induction false} SplitPrepend(line: string, text: string)
    requires '\n' !in line
    ensures Split(line + "\n" + text) == [line] + Split(text)
  {
    var whole := line + "\n" + text;
    if line == "" {
      assert whole[1..] == text;
    } else {
      SplitPrepend(line[1..], text);
      assert whole[1..] == line[1..] + "\n" + text;
      assert [line[0]] + line[1..] == line;
    }
  }

  /** ... and there is no other way to do so. */
  lemma {:induction false} SplitOfJoin(pieces: seq<string>)
    requires |pieces| > 0
    requires forall i | 0 <= i < |pieces| :: '\n' !in pieces[i]
    ensures Split(JoinLines(pieces)) == pieces
  {
    if |pieces| == 1 {
      SplitOfLine(pieces[0]);
    } else {
      SplitOfJoin(pieces[1..]);
      SplitPrepend(pieces[0], JoinLines(pieces[1..]));
    }
  }

  lemma {:induction false} SplitOfLine(line: string)
    requires '\n' !in line
    ensures Split(line) == [line]
  {
    if line != "" {
      SplitOfLine(line[1..]);
      assert [line[0]] + line[1..] == line;
    }
  }

  /** Splitting a longer text keeps the finished lines and goes on from the unfinished one. */
  lemma {:induction false} SplitAppend(a: string, b: string)
    ensures Split(a + b) == CompleteLines(a) + Split(Last(Split(a)) + b)
  {
    if a == "" {
      assert a + b == b && [""][0] + b == b;
    } else {
      SplitAppend(a[1..], b);
      assert (a + b)[1..] == a[1..] + b;
      SplitAppendStep(a[0], Split(a[1..]), b);
    }
  }

  /** Put one character in front of a split text. */
  function Put(c: char, pieces: seq<string>): (r: seq<string>)
    requires |pieces| > 0
    ensures |r| > 0
  {
    if c == '\n' then [""] + pieces else [[c] + pieces[0]] + pieces[1..]
  }

  lemma PutBeforeLast(c: char, rest: seq<string>, tail: seq<string>)
    requires |rest| > 0 && |tail| > 0 && (c == '\n' || |rest| > 1)
    ensures Put(c, Init(rest) + tail) == Init(Put(c, rest)) + tail
    ensures Last(Put(c, rest)) == Last(rest)
  {
    if c == '\n' {
      assert Init([""] + rest) == [""] + Init(rest);
      Associative([""], Init(rest), tail);
    } else {
      var first, middle := [[c] + rest[0]], rest[1..|rest| - 1];
      assert Init(Put(c, rest)) == first + middle;
      assert (Init(rest) + tail)[1..] == middle + tail;
      Associative(first, middle, tail);
    }
  }

  lemma SplitFirst(c: char, text: string)
    ensures Split([c] + text) == Put(c, Split(text))
  {
    assert ([c] + text)[1..] == text;
  }

  lemma SplitAppendStep(c: char, rest: seq<string>, b: string)
    requires |rest| > 0
    ensures Put(c, Init(rest) + Split(Last(rest) + b)) == Init(Put(c, rest)) + Split(Last(Put(c, rest)) + b)
  {
    hide Split;
    if c == '\n' || |rest| > 1 {
      PutBeforeLast(c, rest, Split(Last(rest) + b));
    } else {
      SplitFirst(c, rest[0] + b);
      assert [c] + (rest[0] + b) == [c] + rest[0] + b;
    }
  }

  // ---------------------------------------------------------------- the decoder

  /** The event of a line: of a data line whose payload parses; any other line is skipped. */
  function EventOf<T>(line: string, parse: string -> Option<T>): seq<T> {
    if DATA <= line && parse(line[|DATA|..]).Some? then [parse(line[|DATA|..]).value] else []
  }

  function Events<T>(lines: seq<string>, parse: string -> Option<T>): seq<T> {
    if lines == [] then [] else EventOf(lines[0], parse) + Events(lines[1..], parse)
  }

  lemma {:induction false} EventsOfAppend<T>(a: seq<string>, b: seq<string>, parse: string -> Option<T>)
    ensures Events(a + b, parse) == Events(a, parse) + Events(b, parse)
  {
    if a == [] {
      assert a + b == b;
    } else {
      EventsOfAppend(a[1..], b, parse);
      assert (a + b)[1..] == a[1..] + b;
      Associative(EventOf(a[0], parse), Events(a[1..], parse), Events(b, parse));
    }
  }

  lemma ChunkStep<T>(before: string, chunk: string, parse: string -> Option<T>)
    ensures var lines := Split(Last(Split(before)) + chunk);
            && Last(Split(before + chunk)) == Last(lines)
            && Events(CompleteLines(before + chunk), parse)
               == Events(CompleteLines(before), parse) + Events(Init(lines), parse)
  {
    var lines := Split(Last(Split(before)) + chunk);
    SplitAppend(before, chunk);
    assert CompleteLines(before + chunk) == CompleteLines(before) + Init(lines);
    EventsOfAppend(CompleteLines(before), Init(lines), parse);
  }

  /** The inner loop: the events of the lines a chunk has finished. */
  method ReadLines<T>(lines: seq<string>, parse: string -> Option<T>) returns (events: seq<T>)
    ensures events == Events(lines, parse)
  {
    events := [];
    for k := 0 to |lines|
      invariant events == Events(lines[..k], parse)
    {
      var line := lines[k];
      assert lines[..k + 1] == lines[..k] + [line];
      EventsOfAppend(lines[..k], [line], parse);
      if DATA <= line {
        var data := parse(line[|DATA|..]);
        if data.Some? {
          events := events + [data.value];
        }
      }
    }
    assert lines[..|lines|] == lines;
  }

  /** The reading loop, until the stream is done. Whatever the chunks are, the events are those of
      the finished lines of the whole text. */
  method DecodeStream<T>(chunks: seq<string>, parse: string -> Option<T>) returns (events: seq<T>)
    ensures events == Events(CompleteLines(Flatten(chunks)), parse)
  {
    events := [];
    var buffer := "";
    for i := 0 to |chunks|
      invariant buffer == Last(Split(Flatten(chunks[..i])))
      invariant events == Events(CompleteLines(Flatten(chunks[..i])), parse)
    {
      assert chunks[..i + 1] == chunks[..i] + [chunks[i]];
      FlattenJoin(chunks[..i], [chunks[i]]);
      assert Flatten([chunks[i]]) == chunks[i];
      ChunkStep(Flatten(chunks[..i]), chunks[i], parse);
      buffer := buffer + chunks[i];
      var lines := Split(buffer);
      buffer := Last(lines);
      var found := ReadLines(Init(lines), parse);
      events := events + found;
    }
    assert chunks[..|chunks|] == chunks;
  }

  // ---------------------------------------------------------------- the server's side

  /** What the server writes: an event with its payload, or a comment that keeps proxies awake. */
  datatype Frame = Event(payload: string) | Ping(comment: string)

  function FrameLine(frame: Frame): string {
    match frame
    case Event(payload) => DATA + payload
    case Ping(comment) => ": " + comment
  }

  /** A frame is its line, ended, and an empty line. */
  function Wire(frames: seq<Frame>, eol: string): string {
    if frames == [] then "" else FrameLine(frames[0]) + eol + eol + Wire(frames[1..], eol)
  }

  /** What a frame means to the reader. */
  function MeaningOf<T>(frame: Frame, parse: string -> Option<T>): seq<T> {
    if frame.Event? && parse(frame.payload).Some? then [parse(frame.payload).value] else []
  }

  function Meaning<T>(frames: seq<Frame>, parse: string -> Option<T>): seq<T> {
    if frames == [] then [] else MeaningOf(frames[0], parse) + Meaning(frames[1..], parse)
  }

  predicate OneLine(frame: Frame) {
    '\n' !in FrameLine(frame)
  }

  predicate IsLineEnd(eol: string) {
    eol == "\n" || eol == "\r\n"
  }

  /** Decoding what was written gives back the events, for both line ends, as long as a payload
      parses to the same value with a carriage return behind it (which JSON treats as blank). */
  lemma {:induction false} RoundTrip<T>(frames: seq<Frame>, eol: string, parse: string -> Option<T>)
    requires IsLineEnd(eol)
    requires forall f | f in frames :: OneLine(f)
    requires forall f | f in frames && f.Event? :: parse(f.payload + "\r") == parse(f.payload)
    ensures Events(CompleteLines(Wire(frames, eol)), parse) == Meaning(frames, parse)
  {
    if frames != [] {
      RoundTrip(frames[1..], eol, parse);
      assert OneLine(frames[0]);
      var cr := if eol == "\n" then "" else "\r";
      FrameSplits(frames, eol, cr);
      LineMeans(frames[0], cr, parse);
      TwoLines(FrameLine(frames[0]) + cr, cr, CompleteLines(Wire(frames[1..], eol)), parse);
    }
  }

  lemma TwoLines<T>(first: string, second: string, lines: seq<string>, parse: string -> Option<T>)
    requires EventOf(second, parse) == []
    ensures Events([first] + ([second] + lines), parse) == EventOf(first, parse) + Events(lines, parse)
  {
    assert ([first] + ([second] + lines))[1..] == [second] + lines;
    assert ([second] + lines)[1..] == lines;
  }

  lemma FrameSplits(frames: seq<Frame>, eol: string, cr: string)
    requires frames != [] && eol == cr + "\n" && '\n' !in cr && OneLine(frames[0])
    ensures CompleteLines(Wire(frames, eol))
         == [FrameLine(frames[0]) + cr] + ([cr] + CompleteLines(Wire(frames[1..], eol)))
  {
    var rest := Wire(frames[1..], eol);
    var line := FrameLine(frames[0]) + cr;
    WireLines(frames, eol, cr);
    SplitPrepend(cr, rest);
    SplitPrepend(line, cr + "\n" + rest);
    assert Init([line] + ([cr] + Split(rest))) == [line] + ([cr] + Init(Split(rest)));
  }

  lemma WireLines(frames: seq<Frame>, eol: string, cr: string)
    requires frames != [] && eol == cr + "\n"
    ensures Wire(frames, eol) == (FrameLine(frames[0]) + cr) + "\n" + (cr + "\n" + Wire(frames[1..], eol))
  {
  }

  lemma LineMeans<T>(frame: Frame, cr: string, parse: string -> Option<T>)
    requires cr == "" || cr == "\r"
    requires frame.Event? ==> parse(frame.payload + "\r") == parse(frame.payload)
    ensures EventOf(FrameLine(frame) + cr, parse) == MeaningOf(frame, parse)
    ensures EventOf(cr, parse) == []
  {
    var line := FrameLine(frame) + cr;
    if frame.Ping? {
      assert line[0] == ':' && DATA[0] == 'd';
    } else {
      assert line == DATA + (frame.payload + cr);
      assert cr == "" ==> frame.payload + cr == frame.payload;
    }
  }

  /** A stream cut off anywhere yields the first events of the whole stream, in order. */
  lemma CutStream<T>(text: string, n: nat, parse: string -> Option<T>)
    requires n <= |text|
    ensures Events(CompleteLines(text[..n]), parse) <= Events(CompleteLines(text), parse)
  {
    var a, b := text[..n], text[n..];
    assert a + b == text;
    SplitAppend(a, b);
    var later := Init(Split(Last(Split(a)) + b));
    assert CompleteLines(text) == CompleteLines(a) + later;
    EventsOfAppend(CompleteLines(a), later, parse);
  }
}
