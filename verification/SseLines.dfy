/** What the client's parser makes of an event stream from any sender
    (src/sse.rs; sections 9.2.5 and 9.2.6 of the WHATWG HTML standard): line
    breaks with and without carriage returns, data spread over several lines,
    and fields it does not look at. */
module SseLines {
  import opened Wrappers
  import opened Sse

  /** A line that is not blank: data, with or without a space behind the colon, or
      anything else. */
  datatype Field = Data(text: string, spaced: bool) | Other(text: string)

  /** A field and the number of carriage returns before its line break. */
  datatype Line = Line(field: Field, crs: nat)

  /** The lines of an event and the carriage returns of the blank line behind them. */
  datatype Event = Event(lines: seq<Line>, crs: nat)

  predicate TextOk(text: string) {
    '\n' !in text && (text != "" ==> text[|text| - 1] != '\r')
  }

  /** A field that reads as itself. */
  predicate FieldOk(f: Field) {
    && TextOk(f.text)
    && match f
       case Data(text, spaced) => !spaced && text != "" ==> text[0] != ' '
       case Other(text) => text != "" && !(|text| >= 5 && text[..5] == "data:")
  }

  predicate EventOk(e: Event) {
    forall l | l in e.lines :: FieldOk(l.field)
  }

  function Break(crs: nat): string {
    if crs == 0 then "\n" else "\r" + Break(crs - 1)
  }

  function FieldText(f: Field): string {
    match f
    case Data(text, spaced) => (if spaced then "data: " else "data:") + text
    case Other(text) => text
  }

  function WriteLines(lines: seq<Line>): string {
    if lines == [] then "" else FieldText(lines[0].field) + Break(lines[0].crs) + WriteLines(lines[1..])
  }

  function Write(events: seq<Event>): string {
    if events == [] then "" else
    WriteLines(events[0].lines) + Break(events[0].crs) + Write(events[1..])
  }

  // ----- what is meant -----

  /** More lines of data, each on a line of its own. */
  function Continued(lines: seq<Line>): string {
    if lines == [] then ""
    else (if lines[0].field.Data? then "\n" + lines[0].field.text else "") + Continued(lines[1..])
  }

  /** The data of an event: its data lines but for empty ones at the beginning. */
  function DataOf(lines: seq<Line>): string {
    if lines == [] then ""
    else if lines[0].field.Data? && lines[0].field.text != "" then lines[0].field.text + Continued(lines[1..])
    else DataOf(lines[1..])
  }

  /** An event with data that can be decoded is one; anything else is nothing. */
  function Means<E>(c: Codec<E>, events: seq<Event>): seq<E> {
    if events == [] then [] else
    var data := DataOf(events[0].lines);
    (if data != "" && c.decode(data).Some? then [c.decode(data).value] else []) + Means(c, events[1..])
  }

  // ----- what is read -----

  lemma TrimOne(line: string)
    ensures TrimEnd(line + "\r") == TrimEnd(line)
  {
    var more := line + "\r";
    assert more[..|more| - 1] == line;
  }

  lemma TrimNone(text: string)
    requires TextOk(text)
    ensures TrimEnd(text) == text
  {
  }

  lemma {:induction false} Trimmed(text: string, n: nat)
    requires TextOk(text)
    ensures TrimEnd(text + Returns(n)) == text
    decreases n
  {
    if n == 0 {
      assert text + Returns(0) == text;
      TrimNone(text);
    } else {
      OneReturn(n);
      Trimmed(text, n - 1);
      hide Returns, TrimEnd, TextOk;
      assert text + Returns(n) == text + Returns(n - 1) + "\r";
      TrimOne(text + Returns(n - 1));
    }
  }

  function Returns(n: nat): string {
    if n == 0 then "" else "\r" + Returns(n - 1)
  }

  lemma {:induction false} OneReturn(n: nat)
    requires n > 0
    ensures Returns(n) == Returns(n - 1) + "\r"
  {
    if n > 1 { OneReturn(n - 1); }
  }

  lemma {:induction false} BreakIs(n: nat)
    ensures Break(n) == Returns(n) + "\n" && '\n' !in Returns(n)
  {
    if n > 0 { BreakIs(n - 1); }
  }

  /** What one line adds to the data. */
  function Added(data: string, f: Field): string {
    match f
    case Data(text, _) => if data == "" then text else data + "\n" + text
    case Other(_) => data
  }

  lemma DataIs(text: string, spaced: bool)
    requires FieldOk(Data(text, spaced))
    ensures var line := FieldText(Data(text, spaced));
      line != "" && "data:" <= line && StripPrefix(line[5..], " ") == text
  {
    var line := FieldText(Data(text, spaced));
    assert line[..5] == "data:";
    assert line[5..] == (if spaced then " " else "") + text;
    if spaced { assert line[5..][1..] == text; }
  }

  lemma TextIs(f: Field)
    requires FieldOk(f)
    ensures TextOk(FieldText(f)) && FieldText(f) != ""
    ensures f.Other? ==> !("data:" <= FieldText(f))
  {
    if f.Data? {
      var head := if f.spaced then "data: " else "data:";
      assert '\n' !in head;
    }
  }

  lemma FieldRead<E>(c: Codec<E>, data: string, f: Field, n: nat)
    requires FieldOk(f)
    ensures OnLine(c, data, FieldText(f) + Returns(n)) == (Added(data, f), [])
    ensures '\n' !in FieldText(f) + Returns(n)
  {
    hide TrimEnd, Returns, StripPrefix, FieldOk, FieldText;
    BreakIs(n);
    var line := FieldText(f);
    TextIs(f);
    Trimmed(line, n);
    match f {
      case Data(text, spaced) =>
        DataIs(text, spaced);
        assert data + "" + text == data + text && "" + "" + text == text;
      case Other(_) =>
    }
  }

  lemma BlankRead<E>(c: Codec<E>, data: string, n: nat)
    ensures OnLine(c, data, Returns(n)) ==
      ("", if data != "" && c.decode(data).Some? then [c.decode(data).value] else [])
    ensures '\n' !in Returns(n)
  {
    BreakIs(n);
    Trimmed("", n);
    assert "" + Returns(n) == Returns(n);
  }

  function AddAll(data: string, lines: seq<Line>): string
    decreases |lines|
  {
    if lines == [] then data else AddAll(Added(data, lines[0].field), lines[1..])
  }

  lemma {:induction false} LinesRead<E>(c: Codec<E>, data: string, lines: seq<Line>, rest: string)
    requires forall l | l in lines :: FieldOk(l.field)
    ensures Run(c, State("", data), WriteLines(lines) + rest) == Run(c, State("", AddAll(data, lines)), rest)
    decreases |lines|
  {
    hide OnLine, FieldOk, FieldText, Break, Returns, Added;
    if lines == [] {
      assert WriteLines(lines) + rest == rest;
    } else {
      var l, more := lines[0], lines[1..];
      assert l in lines;
      FieldRead(c, data, l.field, l.crs);
      BreakIs(l.crs);
      var line, behind := FieldText(l.field) + Returns(l.crs), WriteLines(more) + rest;
      assert WriteLines(lines) + rest == line + ['\n'] + behind;
      hide Run;
      RunLine(c, data, line, behind);
      LinesRead(c, Added(data, l.field), more, rest);
      ThenThen([], [], Run(c, State("", Added(data, l.field)), behind));
    }
  }

  lemma {:induction false} MoreAdded(data: string, lines: seq<Line>)
    requires data != ""
    ensures AddAll(data, lines) == data + Continued(lines)
    decreases |lines|
  {
    if lines == [] {
      assert data + "" == data;
    } else {
      var next := Added(data, lines[0].field);
      MoreAdded(next, lines[1..]);
      if lines[0].field.Data? {
        assert next + Continued(lines[1..]) == data + ("\n" + lines[0].field.text + Continued(lines[1..]));
      } else {
        assert "" + Continued(lines[1..]) == Continued(lines[1..]);
      }
    }
  }

  lemma {:induction false} AllAdded(lines: seq<Line>)
    ensures AddAll("", lines) == DataOf(lines)
    decreases |lines|
  {
    if lines != [] {
      if lines[0].field.Data? && lines[0].field.text != "" {
        MoreAdded(lines[0].field.text, lines[1..]);
      } else {
        AllAdded(lines[1..]);
      }
    }
  }

  /** Whatever an event stream consists of, the parser makes of it what is meant. */
  lemma {:induction false} StreamMeans<E>(c: Codec<E>, events: seq<Event>)
    requires forall e | e in events :: EventOk(e)
    ensures Run(c, State("", ""), Write(events)) == (State("", ""), Means(c, events))
    decreases |events|
  {
    hide OnLine, Run, EventOk, WriteLines, Break, Returns, DataOf, AddAll;
    if events == [] {
      RunNothing(c, State("", ""));
    } else {
      var e, more := events[0], events[1..];
      assert e in events && EventOk(e);
      assert forall l | l in e.lines :: FieldOk(l.field) by { FieldsOk(e); }
      var data, behind := DataOf(e.lines), Write(more);
      BreakIs(e.crs);
      assert Write(events) == WriteLines(e.lines) + (Returns(e.crs) + ['\n'] + behind);
      LinesRead(c, "", e.lines, Returns(e.crs) + ['\n'] + behind);
      AllAdded(e.lines);
      BlankRead(c, data, e.crs);
      RunLine(c, data, Returns(e.crs), behind);
      StreamMeans(c, more);
    }
  }

  lemma FieldsOk(e: Event)
    requires EventOk(e)
    ensures forall l | l in e.lines :: FieldOk(l.field)
  {
  }

  /** What the relay writes is such an event: its name, its data, a blank line. */
  lemma EncodedLines<E(!new)>(c: Codec<E>, e: E)
    requires Faithful(c)
    ensures var lines := [Line(Other("event: " + c.name(e)), 0), Line(Data(c.encode(e), true), 0)];
      && Encode(c, e) == Write([Event(lines, 0)])
      && EventOk(Event(lines, 0)) && DataOf(lines) == c.encode(e)
  {
    var name, data := Line(Other("event: " + c.name(e)), 0), Line(Data(c.encode(e), true), 0);
    var lines := [name, data];
    assert lines[1..] == [data] && [data][1..] == [] && [Event(lines, 0)][1..] == [];
    assert WriteLines([data]) == "data: " + c.encode(e) + "\n" + "";
    assert WriteLines(lines) == "event: " + c.name(e) + "\n" + ("data: " + c.encode(e) + "\n");
    assert Write([Event(lines, 0)]) == WriteLines(lines) + "\n" + "";
    LastPlain(c.encode(e));
    LastPlain("event: " + c.name(e));
    assert ("event: " + c.name(e))[0] == 'e';
    assert c.encode(e) + Continued([]) == c.encode(e);
  }

  lemma LastPlain(text: string)
    requires OneLine(text)
    ensures TextOk(text)
  {
  }
}
