/** Server-sent events (src/sse.rs): the relay's encoder and the incremental
    parser of the client (sections 9.2.5 and 9.2.6 of the WHATWG HTML standard).

    JSON is a parameter: a codec turns an event into text and text into an
    event, or into nothing if it is malformed. */
module Sse {
  import opened Bytes
  import opened Text
  import Utf8
  import opened Wrappers

  datatype Codec<!E> = Codec(encode: E -> string, name: E -> string, decode: string -> Option<E>)

  /** What is assumed of JSON: decoding undoes encoding, and the text of an
      event is not empty and has no raw line break. */
  ghost predicate Faithful<E(!new)>(c: Codec<E>) {
    forall e ::
      && c.decode(c.encode(e)) == Some(e)
      && c.encode(e) != "" && OneLine(c.encode(e)) && OneLine(c.name(e))
  }

  predicate OneLine(s: string) {
    '\n' !in s && '\r' !in s
  }

  function Encode<E>(c: Codec<E>, e: E): string {
    "event: " + c.name(e) + "\n" + ("data: " + c.encode(e) + "\n" + "\n")
  }

  /** `trim_end_matches` of line breaks on a line that ends at its `\n`. */
  function TrimEnd(line: string): string {
    if line != [] && line[|line| - 1] == '\r' then TrimEnd(line[..|line| - 1]) else line
  }

  function StripPrefix(s: string, prefix: string): string {
    if prefix <= s then s[|prefix|..] else s
  }

  /** One complete line: the data collected after it and the events it ends. */
  function OnLine<E>(c: Codec<E>, data: string, raw: string): (string, seq<E>) {
    var line := TrimEnd(raw);
    if line == "" then
      ("", if data == "" then [] else match c.decode(data) case Some(e) => [e] case None => [])
    else if "data:" <= line then
      (data + (if data == "" then "" else "\n") + StripPrefix(line[5..], " "), [])
    else (data, [])
  }

  /** The parser seen one character at a time: the unfinished line and the
      data of the unfinished event. */
  datatype State = State(line: string, data: string)

  function Step<E>(c: Codec<E>, st: State, ch: char): (State, seq<E>) {
    if ch == '\n' then
      var (data, events) := OnLine(c, st.data, st.line);
      (State("", data), events)
    else (State(st.line + [ch], st.data), [])
  }

  function Run<E>(c: Codec<E>, st: State, text: string): (State, seq<E>)
    decreases |text|
  {
    if text == [] then (st, []) else
    var (next, now) := Step(c, st, text[0]);
    Then(now, Run(c, next, text[1..]))
  }

  function Then<E>(first: seq<E>, rest: (State, seq<E>)): (State, seq<E>) {
    (rest.0, first + rest.1)
  }

  lemma ThenThen<E>(a: seq<E>, b: seq<E>, rest: (State, seq<E>))
    ensures Then([], rest) == rest
    ensures Then(a, Then(b, rest)) == Then(a + b, rest)
  {
    assert [] + rest.1 == rest.1;
    assert a + (b + rest.1) == a + b + rest.1;
  }

  class Parser<!E> {
    const codec: Codec<E>
    var buf: string
    var data: string

    /** Between calls the buffer never holds a complete line. */
    ghost predicate Valid()
      reads this
    {
      '\n' !in buf
    }

    ghost function Now(): State
      reads this
    {
      State(buf, data)
    }

    constructor (c: Codec<E>)
      ensures Valid() && codec == c && Now() == State("", "")
    {
      codec, buf, data := c, "", "";
    }

    /** Feeds a chunk and returns the events it completes: what the automaton
        does one character at a time with the text the chunk reads as. */
    method Push(chunk: seq<byte>) returns (out: seq<E>)
      requires Valid()
      modifies this
      ensures Valid()
      ensures (Now(), out) == Run(codec, old(Now()), Utf8.Lossy(chunk))
    {
      hide Utf8.Lossy;
      ghost var before := Now();
      var text := Utf8.Lossy(chunk);
      RunPlain(codec, State("", data), buf, text);
      assert "" + buf == buf;
      buf := buf + text;
      out := [];
      ThenThen([], [], Run(codec, State("", data), buf));
      while '\n' in buf
        invariant Run(codec, before, text) == Then(out, Run(codec, State("", data), buf))
        decreases |buf|
      {
        var cut := SplitOnce(buf, '\n').value;
        RunLine(codec, data, cut.0, cut.1);
        ghost var (after, events) := OnLine(codec, data, cut.0);
        ThenThen(out, events, Run(codec, State("", after), cut.1));
        buf := cut.1;
        var line := TrimEnd(cut.0);
        if line == "" {
          if data != "" {
            var ev := codec.decode(data);
            if ev.Some? { out := out + [ev.value]; }
            data := "";
          }
        } else if "data:" <= line {
          if data != "" { data := data + "\n"; }
          data := data + StripPrefix(line[5..], " ");
        }
      }
      RunPlain(codec, State("", data), buf, "");
      assert buf + "" == buf && "" + buf == buf && out + [] == out;
    }
  }

  /** Characters before a line break only lengthen the line. */
  lemma {:induction false} RunPlain<E>(c: Codec<E>, st: State, plain: string, rest: string)
    requires '\n' !in plain
    ensures Run(c, st, plain + rest) == Run(c, State(st.line + plain, st.data), rest)
    decreases |plain|
  {
    if plain == [] {
      assert plain + rest == rest && st.line + plain == st.line;
    } else {
      assert plain[0] in plain && forall x | x in plain[1..] :: x in plain;
      assert (plain + rest)[1..] == plain[1..] + rest;
      RunPlain(c, State(st.line + [plain[0]], st.data), plain[1..], rest);
      ThenThen([], [], Run(c, State(st.line + [plain[0]], st.data), plain[1..] + rest));
      assert st.line + [plain[0]] + plain[1..] == st.line + plain;
    }
  }

  lemma RunLine<E>(c: Codec<E>, data: string, raw: string, rest: string)
    requires '\n' !in raw
    ensures Run(c, State("", data), raw + ['\n'] + rest)
         == var (after, events) := OnLine(c, data, raw);
            Then(events, Run(c, State("", after), rest))
  {
    RunPlain(c, State("", data), raw, ['\n'] + rest);
    assert raw + ['\n'] + rest == raw + (['\n'] + rest);
    assert (['\n'] + rest)[1..] == rest;
    assert "" + raw == raw;
  }

  /** Chunking does not matter: two pushes are one push of the whole. */
  lemma {:induction false} RunConcat<E>(c: Codec<E>, st: State, a: string, b: string)
    ensures Run(c, st, a + b)
         == var (mid, events) := Run(c, st, a); Then(events, Run(c, mid, b))
    decreases |a|
  {
    if a == [] {
      assert a + b == b;
      ThenThen([], [], Run(c, st, b));
    } else {
      assert (a + b)[1..] == a[1..] + b;
      var (next, now) := Step(c, st, a[0]);
      RunConcat(c, next, a[1..], b);
      var (mid, events) := Run(c, next, a[1..]);
      ThenThen(now, events, Run(c, mid, b));
    }
  }

  /** A sequence of pushes. */
  function PushAll<E>(c: Codec<E>, st: State, chunks: seq<seq<byte>>): (State, seq<E>)
    decreases |chunks|
  {
    if chunks == [] then (st, []) else
    var (mid, events) := Run(c, st, Utf8.Lossy(chunks[0]));
    Then(events, PushAll(c, mid, chunks[1..]))
  }

  lemma {:induction false} PushesJoined<E>(c: Codec<E>, st: State, chunks: seq<seq<byte>>)
    ensures PushAll(c, st, chunks) == Run(c, st, Utf8.JoinedText(chunks))
    decreases |chunks|
  {
    hide Utf8.Lossy;
    if chunks != [] {
      var text := Utf8.Lossy(chunks[0]);
      RunConcat(c, st, text, Utf8.JoinedText(chunks[1..]));
      PushesJoined(c, Run(c, st, text).0, chunks[1..]);
    }
  }

  /** However a text is cut into chunks, unless inside a character, the events
      and the state at the end are those of the whole text. */
  lemma ChunkingIsIrrelevant<E>(c: Codec<E>, st: State, text: string, chunks: seq<seq<byte>>)
    requires Utf8.Joined(chunks) == Utf8.Encode(text) && Utf8.Aligned(chunks)
    ensures PushAll(c, st, chunks) == Run(c, st, text)
  {
    PushesJoined(c, st, chunks);
    Utf8.ChunksIff(text, chunks);
  }

  /** Inside a character it matters: an event that carries one letter outside
      ASCII arrives as another one, with two replacement characters, if its text
      is cut between the two bytes of the letter. */
  lemma CutInsideLetter(c: Codec<string>, head: string, chunks: seq<seq<byte>>)
    requires forall s: string :: c.decode(s) == Some(s)
    requires head == "data: " && chunks == [Utf8.Encode(head) + [0xC3], [0xA9] + Utf8.Encode("\n\n")]
    ensures Utf8.Joined(chunks) == Utf8.Encode(head + "\U{E9}" + "\n\n")
    ensures Run(c, State("", ""), head + "\U{E9}" + "\n\n").1 == ["\U{E9}"]
    ensures PushAll(c, State("", ""), chunks).1 == [[Utf8.REPLACEMENT, Utf8.REPLACEMENT]]
  {
    hide Utf8.Lossy, Utf8.Encode, Run, PushAll, Utf8.Joined, Utf8.JoinedText, OneLine;
    Utf8.CutLetter(head, "\n\n");
    PushesJoined(c, State("", ""), chunks);
    Plain();
    DataLine(c, "\U{E9}");
    DataLine(c, [Utf8.REPLACEMENT, Utf8.REPLACEMENT]);
  }

  lemma Plain()
    ensures OneLine("\U{E9}") && OneLine([Utf8.REPLACEMENT, Utf8.REPLACEMENT])
  {
  }

  /** One event that is its own data. */
  lemma DataLine(c: Codec<string>, text: string)
    requires text != "" && OneLine(text) && c.decode(text) == Some(text)
    ensures Run(c, State("", ""), "data: " + text + "\n\n") == (State("", ""), [text])
  {
    var line := "data: " + text;
    DataAndEnd(c, text);
    DataPlain(text);
    NoBreak(line);
    TwoLines(c, line, text, [text]);
    assert "data: " + text + "\n\n" == line + ['\n'] + ("" + ['\n'] + "");
  }

  lemma TwoLines<E>(c: Codec<E>, line: string, data: string, events: seq<E>)
    requires '\n' !in line && OnLine(c, "", line) == (data, []) && OnLine(c, data, "") == ("", events)
    ensures Run(c, State("", ""), line + ['\n'] + ("" + ['\n'] + "")) == (State("", ""), events)
  {
    hide OnLine, Run;
    RunLine(c, "", line, "" + ['\n'] + "");
    RunLine(c, data, "", "");
    RunNothing(c, State("", ""));
    ThenThen([], events, (State("", ""), []));
    assert [] + events + [] == events;
  }

  lemma DataAndEnd(c: Codec<string>, text: string)
    requires text != "" && OneLine(text) && c.decode(text) == Some(text)
    ensures OnLine(c, "", "data: " + text) == (text, []) && OnLine(c, text, "") == ("", [text])
  {
    var line := "data: " + text;
    TrimPlain(line);
    assert line[..5] == "data:" && line[5..] == " " + text;
    assert StripPrefix(line[5..], " ") == text;
    assert "" + "" + text == text;
  }

  lemma DataPlain(text: string)
    requires OneLine(text)
    ensures OneLine("data: " + text)
  {
  }

  lemma NoBreak(line: string)
    requires OneLine(line)
    ensures '\n' !in line
  {
  }

  lemma RunNothing<E>(c: Codec<E>, st: State)
    ensures Run(c, st, "") == (st, [])
  {
  }

  // ----- the parser undoes the encoder -----

  /** What a stream consists of: events, and comments that keep it alive. */
  datatype Block<E> = Ev(e: E) | Comment(text: string)

  function Render<E>(c: Codec<E>, blocks: seq<Block<E>>): string {
    if blocks == [] then "" else
    (match blocks[0]
     case Ev(e) => Encode(c, e)
     case Comment(text) => ":" + text + "\n" + "\n") + Render(c, blocks[1..])
  }

  function Events<E>(blocks: seq<Block<E>>): seq<E> {
    if blocks == [] then []
    else (if blocks[0].Ev? then [blocks[0].e] else []) + Events(blocks[1..])
  }

  lemma TrimPlain(line: string)
    requires OneLine(line)
    ensures TrimEnd(line) == line
  {
    if line != [] { assert line[|line| - 1] in line; }
  }

  /** The three lines of an encoded event. */
  lemma EventLines<E(!new)>(c: Codec<E>, e: E)
    requires Faithful(c)
    ensures OnLine(c, "", "event: " + c.name(e)) == ("", [])
    ensures OnLine(c, "", "data: " + c.encode(e)) == (c.encode(e), [])
    ensures OnLine(c, c.encode(e), "") == ("", [e])
  {
    var head, body := "event: " + c.name(e), "data: " + c.encode(e);
    TrimPlain(head);
    TrimPlain(body);
    assert head[0] == 'e' && body[..5] == "data:" && body[5..] == " " + c.encode(e);
    assert StripPrefix(body[5..], " ") == c.encode(e);
    assert "" + "" + c.encode(e) == c.encode(e);
  }

  lemma ThreeLines<E>(c: Codec<E>, head: string, body: string, json: string, e: E, rest: string)
    requires '\n' !in head && '\n' !in body
    requires OnLine(c, "", head) == ("", []) && OnLine(c, "", body) == (json, []) && OnLine(c, json, "") == ("", [e])
    ensures Run(c, State("", ""), head + ['\n'] + (body + ['\n'] + ['\n']) + rest)
         == Then([e], Run(c, State("", ""), rest))
  {
    var third := "" + ['\n'] + rest;
    var second := body + ['\n'] + third;
    RunLine(c, "", head, second);
    RunLine(c, "", body, third);
    RunLine(c, json, "", rest);
    ThenThen([], [], Run(c, State("", ""), second));
    ThenThen([], [], Run(c, State("", json), third));
    assert head + ['\n'] + (body + ['\n'] + ['\n']) + rest == head + ['\n'] + second;
  }

  lemma ReadsEvent<E(!new)>(c: Codec<E>, e: E, rest: string)
    requires Faithful(c)
    ensures Run(c, State("", ""), Encode(c, e) + rest) == Then([e], Run(c, State("", ""), rest))
  {
    hide OnLine, Run, Faithful;
    EventLines(c, e);
    PlainLines(c, e);
    ThreeLines(c, "event: " + c.name(e), "data: " + c.encode(e), c.encode(e), e, rest);
  }

  lemma PlainLines<E(!new)>(c: Codec<E>, e: E)
    requires Faithful(c)
    ensures '\n' !in "event: " + c.name(e) && '\n' !in "data: " + c.encode(e)
  {
  }

  lemma ReadsComment<E>(c: Codec<E>, text: string, rest: string)
    requires OneLine(text)
    ensures Run(c, State("", ""), ":" + text + "\n" + "\n" + rest) == Run(c, State("", ""), rest)
  {
    var line := ":" + text;
    TrimPlain(line);
    assert line[0] == ':';
    RunLine(c, "", line, "" + "\n" + rest);
    RunLine(c, "", "", rest);
    ThenThen([], [], Run(c, State("", ""), "" + "\n" + rest));
    ThenThen([], [], Run(c, State("", ""), rest));
    assert line + "\n" + "\n" + rest == line + "\n" + ("" + "\n" + rest);
  }

  lemma {:induction false} ReadsBlocks<E(!new)>(c: Codec<E>, blocks: seq<Block<E>>)
    requires Faithful(c)
    requires forall b | b in blocks && b.Comment? :: OneLine(b.text)
    ensures Run(c, State("", ""), Render(c, blocks)) == (State("", ""), Events(blocks))
    decreases |blocks|
  {
    if blocks != [] {
      ReadsBlocks(c, blocks[1..]);
      match blocks[0]
      case Ev(e) => ReadsEvent(c, e, Render(c, blocks[1..]));
      case Comment(text) =>
        assert blocks[0] in blocks;
        ReadsComment(c, text, Render(c, blocks[1..]));
        assert [] + Events(blocks[1..]) == Events(blocks[1..]);
    }
  }

  /** A stream of encoded events and comments, cut into any chunks but inside a
      character, comes out as exactly those events, and the parser is back in its
      first state. */
  lemma StreamRoundTrip<E(!new)>(c: Codec<E>, blocks: seq<Block<E>>, chunks: seq<seq<byte>>)
    requires Faithful(c)
    requires forall b | b in blocks && b.Comment? :: OneLine(b.text)
    requires Utf8.Joined(chunks) == Utf8.Encode(Render(c, blocks)) && Utf8.Aligned(chunks)
    ensures PushAll(c, State("", ""), chunks) == (State("", ""), Events(blocks))
  {
    ChunkingIsIrrelevant(c, State("", ""), Render(c, blocks), chunks);
    ReadsBlocks(c, blocks);
  }

  /** A stream that breaks off early, be it inside a character, has delivered a
      beginning of its events and nothing else. */
  lemma BrokenStream<E(!new)>(c: Codec<E>, blocks: seq<Block<E>>, chunks: seq<seq<byte>>)
    requires Faithful(c)
    requires forall b | b in blocks && b.Comment? :: OneLine(b.text)
    requires Utf8.Joined(chunks) <= Utf8.Encode(Render(c, blocks)) && Utf8.Aligned(chunks)
    ensures PushAll(c, State("", ""), chunks).1 <= Events(blocks)
  {
    hide Run, PushAll, Render, Events, Utf8.Lossy, Utf8.Encode, Utf8.Aligned;
    var whole := Render(c, blocks);
    Utf8.AlignedCutOff(whole, chunks);
    var k, tail := Utf8.ReadsCutOff(whole, Utf8.Joined(chunks));
    PushesJoined(c, State("", ""), chunks);
    RunConcat(c, State("", ""), whole[..k], tail);
    NothingFromTail(c, Run(c, State("", ""), whole[..k]).0, tail);
    assert whole[..k] + whole[k..] == whole;
    RunConcat(c, State("", ""), whole[..k], whole[k..]);
    ReadsBlocks(c, blocks);
  }

  lemma NothingFromTail<E>(c: Codec<E>, st: State, tail: string)
    requires tail in {"", [Utf8.REPLACEMENT]}
    ensures Run(c, st, tail).1 == []
  {
    RunPlain(c, st, tail, "");
    assert tail + "" == tail;
  }
}
