/** Streams of server-sent events that are cut inside characters (src/sse.rs):
    which events arrive, and as what. */
module SseCuts {
  import opened Bytes
  import opened Wrappers
  import opened Utf8
  import opened Cuts
  import opened Sse

  // ----- one block -----

  function TextOf<E>(c: Codec<E>, b: Block<E>): string {
    match b
    case Ev(e) => Sse.Encode(c, e)
    case Comment(text) => ":" + text + "\n" + "\n"
  }

  /** What stands in front of an event's data. */
  function Head<E>(c: Codec<E>, e: E): string {
    "event: " + c.name(e) + "\n" + "data: "
  }

  function Size(text: string): nat {
    |Utf8.Encode(text)|
  }

  /** The event a data line brings, if any. */
  function Arrives<E>(c: Codec<E>, b: Block<E>, data: string): seq<E> {
    if b.Comment? then [] else
    match c.decode(data) case Some(e) => [e] case None => []
  }

  /** What some chunks of a text read as, and whether one begins inside a
      character. */
  ghost predicate ReadAs(text: string, data: string, cut: bool) {
    exists chunks :: Joined(chunks) == Utf8.Encode(text) && data == JoinedText(chunks) && (cut <==> !Aligned(chunks))
  }

  /** How an event's data is read. It says nothing about comments. */
  ghost predicate DataRead<E>(c: Codec<E>, b: Block<E>, data: string, cut: bool) {
    b.Ev? ==> ReadAs(c.encode(b.e), data, cut)
  }

  predicate Spoils<E>(c: Codec<E>, b: Block<E>, chunks: seq<seq<byte>>, at: nat) {
    b.Ev? && var from := at + Size(Head(c, b.e)); CutIn(chunks, from, from + Size(c.encode(b.e)))
  }

  lemma ReadsAs(text: string, chunks: seq<seq<byte>>)
    requires Joined(chunks) == Utf8.Encode(text)
    ensures ReadAs(text, JoinedText(chunks), CutIn(chunks, 0, Size(text)))
  {
    hide Joined, JoinedText, Aligned, CutIn;
    AlignedIff(chunks);
  }

  /** A line of the stream, however it is read, is one line. */
  lemma ReadsLine(text: string, chunks: seq<seq<byte>>)
    requires Joined(chunks) == Utf8.Encode(text) && OneLine(text)
    ensures OneLine(JoinedText(chunks)) && (text != "" ==> JoinedText(chunks) != "")
  {
    hide Joined, JoinedText, Utf8.Encode;
    ReadsNoMore(text, chunks, '\n');
    ReadsNoMore(text, chunks, '\r');
    StartsInText(text);
    ChunksLong(chunks);
  }

  /** An event as it is read: its name and its data may be misread, and nothing
      else. */
  lemma EventRead<E(!new)>(c: Codec<E>, e: E, chunks: seq<seq<byte>>) returns (name: string, data: string)
    requires Faithful(c) && Joined(chunks) == Utf8.Encode(Sse.Encode(c, e))
    ensures JoinedText(chunks) == ("event: " + name + "\n") + (("data: " + data + "\n") + "\n")
    ensures OneLine(name) && OneLine(data) && data != ""
    ensures ReadAs(c.encode(e), data, Spoils(c, Ev(e), chunks, 0))
  {
    hide Joined, JoinedText, Utf8.Encode, CutIn, Aligned, Lossy, Ascii, OneLine, ReadAs;
    var n, j := c.name(e), c.encode(e);
    Plain(c, e);
    var head, tail := "event: " + n + "\n" + "data: ", "\n" + "\n";
    assert Sse.Encode(c, e) == head + (j + tail);
    var a, b := TwoTexts(head, j + tail, chunks);
    var d, t := TwoTexts(j, tail, b);
    AsciiReads(tail, t) by { Fixed(); }
    var h, last := TwoTexts("event: " + n, "\n" + "data: ", a) by { assert head == "event: " + n + ("\n" + "data: "); }
    AsciiReads("\n" + "data: ", last) by { Fixed(); }
    var first, m := TwoTexts("event: ", n, h);
    AsciiReads("event: ", first) by { Fixed(); }
    ReadsLine(n, m);
    ReadsLine(j, d);
    ReadsAs(j, d);
    name, data := JoinedText(m), JoinedText(d);
    Offsets(c, e, chunks, b, d);
    Assembled(name, data);
  }

  lemma Fixed()
    ensures Ascii("\n" + "\n") && Ascii("\n" + "data: ") && Ascii("event: ")
  {
  }

  lemma Plain<E(!new)>(c: Codec<E>, e: E)
    requires Faithful(c)
    ensures OneLine(c.name(e)) && OneLine(c.encode(e)) && c.encode(e) != ""
  {
  }

  lemma Assembled(name: string, data: string)
    ensures ("event: " + name + ("\n" + "data: ")) + (data + ("\n" + "\n"))
         == ("event: " + name + "\n") + (("data: " + data + "\n") + "\n")
  {
  }

  lemma Offsets<E>(c: Codec<E>, e: E, chunks: seq<seq<byte>>, b: seq<seq<byte>>, d: seq<seq<byte>>)
    requires var h, n := Size(Head(c, e)), Size(c.encode(e));
      && (CutIn(chunks, h, h + n) <==> CutIn(b, 0, n)) && (CutIn(b, 0, n) <==> CutIn(d, 0, n))
    ensures Spoils(c, Ev(e), chunks, 0) <==> CutIn(d, 0, Size(c.encode(e)))
  {
    hide CutIn, Size, Head;
  }

  /** A misread event is parsed as an event with the misread data. */
  lemma ParsesEvent<E>(c: Codec<E>, e: E, name: string, data: string, rest: string)
    requires OneLine(name) && OneLine(data) && data != ""
    ensures Run(c, State("", ""), ("event: " + name + "\n") + (("data: " + data + "\n") + "\n") + rest)
         == Then(Arrives(c, Ev(e), data), Run(c, State("", ""), rest))
  {
    var head, body := "event: " + name, "data: " + data;
    HeadLine(c, name);
    BodyLine(c, data);
    EndLine(c, data);
    var third := "" + ['\n'] + rest;
    var second := body + ['\n'] + third;
    var whole := ("event: " + name + "\n") + (("data: " + data + "\n") + "\n") + rest;
    assert whole == head + ['\n'] + second;
    hide OnLine, Run, OneLine, Arrives;
    RunLine(c, "", head, second);
    RunLine(c, "", body, third);
    RunLine(c, data, "", rest);
    ThenThen([], [], Run(c, State("", ""), second));
    ThenThen([], [], Run(c, State("", data), third));
    EndArrives(c, e, data);
  }

  lemma HeadLine<E>(c: Codec<E>, name: string)
    requires OneLine(name)
    ensures '\n' !in "event: " + name && OnLine(c, "", "event: " + name) == ("", [])
  {
    var line := "event: " + name;
    TrimPlain(line);
    assert line[0] == 'e';
  }

  lemma BodyLine<E>(c: Codec<E>, data: string)
    requires OneLine(data)
    ensures '\n' !in "data: " + data && OnLine(c, "", "data: " + data) == (data, [])
  {
    var line := "data: " + data;
    TrimPlain(line);
    assert line[..5] == "data:" && line[5..] == " " + data;
    assert StripPrefix(line[5..], " ") == data;
    assert "" + "" + data == data;
  }

  lemma EndLine<E>(c: Codec<E>, data: string)
    requires data != ""
    ensures OnLine(c, data, "") == ("", match c.decode(data) case Some(e) => [e] case None => [])
  {
  }

  lemma EndArrives<E>(c: Codec<E>, e: E, data: string)
    ensures Arrives(c, Ev(e), data) == match c.decode(data) case Some(x) => [x] case None => []
  {
  }

  /** A misread comment is a comment. */
  lemma CommentRead<E>(c: Codec<E>, text: string, chunks: seq<seq<byte>>, rest: string)
    requires OneLine(text) && Joined(chunks) == Utf8.Encode(":" + text + "\n" + "\n")
    ensures Run(c, State("", ""), JoinedText(chunks) + rest) == Run(c, State("", ""), rest)
  {
    hide Run, Joined, JoinedText, Utf8.Encode, CutIn, Ascii, OneLine;
    assert ":" + text + "\n" + "\n" == ":" + (text + ("\n" + "\n"));
    var a, b := TwoTexts(":", text + ("\n" + "\n"), chunks);
    var t, last := TwoTexts(text, "\n" + "\n", b);
    AsciiReads(":", a) by { Colon(); }
    AsciiReads("\n" + "\n", last) by { Fixed(); }
    ReadsLine(text, t);
    ReadsComment(c, JoinedText(t), rest);
    assert JoinedText(chunks) == ":" + JoinedText(t) + "\n" + "\n";
  }

  lemma Colon()
    ensures Ascii(":")
  {
  }

  lemma BlockRead<E(!new)>(c: Codec<E>, b: Block<E>, chunks: seq<seq<byte>>, rest: string) returns (data: string)
    requires Faithful(c) && (b.Comment? ==> OneLine(b.text)) && Joined(chunks) == Utf8.Encode(TextOf(c, b))
    ensures DataRead(c, b, data, Spoils(c, b, chunks, 0))
    ensures Run(c, State("", ""), JoinedText(chunks) + rest) == Then(Arrives(c, b, data), Run(c, State("", ""), rest))
  {
    hide Run, Joined, JoinedText, Utf8.Encode, CutIn, ReadAs, Faithful, Spoils, OneLine;
    match b {
      case Ev(e) =>
        var name;
        name, data := EventRead(c, e, chunks);
        ParsesEvent(c, e, name, data, rest);
      case Comment(text) =>
        data := "";
        CommentRead(c, text, chunks, rest);
        ThenThen([], [], Run(c, State("", ""), rest));
    }
  }

  // ----- a stream -----

  /** Where a block of the stream begins, in bytes. */
  function Offset<E>(c: Codec<E>, blocks: seq<Block<E>>, k: nat): nat
    requires k <= |blocks|
  {
    if k == 0 then 0 else Size(TextOf(c, blocks[0])) + Offset(c, blocks[1..], k - 1)
  }

  /** Some chunk begins inside a character of the data of event `k`. */
  predicate Spoilt<E>(c: Codec<E>, blocks: seq<Block<E>>, chunks: seq<seq<byte>>, k: nat)
    requires k < |blocks|
  {
    Spoils(c, blocks[k], chunks, Offset(c, blocks, k))
  }

  function Arrived<E>(c: Codec<E>, blocks: seq<Block<E>>, datas: seq<string>): seq<E>
    requires |datas| == |blocks|
  {
    if blocks == [] then [] else Arrives(c, blocks[0], datas[0]) + Arrived(c, blocks[1..], datas[1..])
  }

  ghost predicate AllRead<E>(c: Codec<E>, blocks: seq<Block<E>>, chunks: seq<seq<byte>>, datas: seq<string>) {
    && |datas| == |blocks|
    && forall k | 0 <= k < |blocks| :: DataRead(c, blocks[k], datas[k], Spoilt(c, blocks, chunks, k))
  }

  lemma SpoiltFirst<E>(c: Codec<E>, blocks: seq<Block<E>>, chunks: seq<seq<byte>>, a: seq<seq<byte>>)
    requires blocks != []
    requires forall from, to | to <= Size(TextOf(c, blocks[0])) :: CutIn(chunks, from, to) <==> CutIn(a, from, to)
    ensures Spoilt(c, blocks, chunks, 0) <==> Spoils(c, blocks[0], a, 0)
  {
    hide CutIn, Size;
    if blocks[0].Ev? { DataInside(c, blocks[0].e); }
  }

  /** The data of an event lies within its block. */
  lemma DataInside<E>(c: Codec<E>, e: E)
    ensures Size(Head(c, e)) + Size(c.encode(e)) <= Size(Sse.Encode(c, e))
  {
    hide Utf8.Encode;
    EncodeJoined(Head(c, e), c.encode(e));
    EncodeJoined(Head(c, e) + c.encode(e), "\n" + "\n");
    assert Sse.Encode(c, e) == Head(c, e) + c.encode(e) + ("\n" + "\n");
  }

  lemma SpoiltLater<E>(c: Codec<E>, blocks: seq<Block<E>>, chunks: seq<seq<byte>>, b: seq<seq<byte>>, k: nat)
    requires 0 < k < |blocks|
    requires var n := Size(TextOf(c, blocks[0]));
      forall from, to | n <= from :: CutIn(chunks, from, to) <==> CutIn(b, from - n, to - n)
    ensures Spoilt(c, blocks, chunks, k) <==> Spoilt(c, blocks[1..], b, k - 1)
  {
    hide CutIn, Size, Head, TextOf;
    var n, rest := Size(TextOf(c, blocks[0])), blocks[1..];
    assert Offset(c, blocks, k) == n + Offset(c, rest, k - 1) && rest[k - 1] == blocks[k];
    if blocks[k].Ev? {
      var from := Offset(c, blocks, k) + Size(Head(c, blocks[k].e));
      var to := from + Size(c.encode(blocks[k].e));
      assert CutIn(chunks, from, to) <==> CutIn(b, from - n, to - n);
    }
  }

  /** Whatever chunks a stream comes in, the events that arrive are those their
      data are read as, in order; the data of an event are misread exactly if some
      chunk begins inside one of their characters; and the parser is back in its
      first state. */
  lemma {:induction false} StreamRead<E(!new)>(c: Codec<E>, blocks: seq<Block<E>>, chunks: seq<seq<byte>>)
    returns (datas: seq<string>)
    requires Faithful(c) && forall b | b in blocks && b.Comment? :: OneLine(b.text)
    requires Joined(chunks) == Utf8.Encode(Render(c, blocks))
    ensures AllRead(c, blocks, chunks, datas)
    ensures PushAll(c, State("", ""), chunks) == (State("", ""), Arrived(c, blocks, datas))
    decreases |blocks|
  {
    hide Run, PushAll, Joined, JoinedText, Utf8.Encode, CutIn, Faithful, Spoils, OneLine;
    hide DataRead, Spoilt, Arrives, Size;
    PushesJoined(c, State("", ""), chunks);
    if blocks == [] {
      datas := [];
      NothingRead(c, chunks);
    } else {
      var rest := blocks[1..];
      assert blocks[0] in blocks && forall b | b in rest :: b in blocks;
      assert Render(c, blocks) == TextOf(c, blocks[0]) + Render(c, rest);
      hide Render, TextOf;
      var a, b := TwoTexts(TextOf(c, blocks[0]), Render(c, rest), chunks);
      SizeIs(TextOf(c, blocks[0]));
      var later := StreamRead(c, rest, b);
      PushesJoined(c, State("", ""), b);
      var data := BlockRead(c, blocks[0], a, JoinedText(b));
      datas := [data] + later;
      assert datas[1..] == later;
      SpoiltFirst(c, blocks, chunks, a);
      forall k: nat | 0 < k < |blocks| ensures DataRead(c, blocks[k], datas[k], Spoilt(c, blocks, chunks, k)) {
        SpoiltLater(c, blocks, chunks, b, k);
        assert DataRead(c, rest[k - 1], later[k - 1], Spoilt(c, rest, b, k - 1));
      }
    }
  }

  lemma SizeIs(text: string)
    ensures Size(text) == |Utf8.Encode(text)|
  {
  }

  lemma NothingRead<E>(c: Codec<E>, chunks: seq<seq<byte>>)
    requires Joined(chunks) == Utf8.Encode("")
    ensures Run(c, State("", ""), JoinedText(chunks)) == (State("", ""), [])
  {
    AsciiReads("", chunks);
  }

  // ----- which cuts matter -----

  /** What is assumed of JSON: the text of an event, misread because it was cut
      inside a character, is not the text of the same event. */
  ghost predicate TellsApart<E(!new)>(c: Codec<E>) {
    forall e, data :: ReadAs(c.encode(e), data, true) ==> c.decode(data) != Some(e)
  }

  lemma {:induction false} NoneMore<E>(c: Codec<E>, blocks: seq<Block<E>>, datas: seq<string>)
    requires |datas| == |blocks|
    ensures |Arrived(c, blocks, datas)| <= |Events(blocks)|
  {
    if blocks != [] { NoneMore(c, blocks[1..], datas[1..]); }
  }

  lemma OneArrives<E>(c: Codec<E>, b: Block<E>, data: string)
    ensures Arrives(c, b, data) == if b.Comment? || c.decode(data).None? then [] else [c.decode(data).value]
  {
  }

  /** All events arrive as they were sent exactly if the data of each one still
      bring it. */
  lemma {:induction false} ArrivedIff<E>(c: Codec<E>, blocks: seq<Block<E>>, datas: seq<string>)
    requires |datas| == |blocks|
    ensures Arrived(c, blocks, datas) == Events(blocks) <==>
      forall k | 0 <= k < |blocks| && blocks[k].Ev? :: c.decode(datas[k]) == Some(blocks[k].e)
  {
    hide Arrives;
    if blocks != [] {
      OneArrives(c, blocks[0], datas[0]);
      var rest, more := blocks[1..], datas[1..];
      ArrivedIff(c, rest, more);
      NoneMore(c, rest, more);
      var now, later, sent := Arrives(c, blocks[0], datas[0]), Arrived(c, rest, more), Events(rest);
      assert forall k | 0 < k < |blocks| :: blocks[k] == rest[k - 1] && datas[k] == more[k - 1];
      if blocks[0].Ev? {
        assert Events(blocks) == [blocks[0].e] + sent;
        if now + later == [blocks[0].e] + sent {
          assert |now| == 1 && now[0] == (now + later)[0] == blocks[0].e;
          assert later == (now + later)[1..] == sent;
        }
      } else {
        assert Events(blocks) == [] + sent == sent && now + later == later;
      }
    }
  }

  /** A stream brings its events unchanged if and only if no chunk begins inside a
      character of the data of one. Comments and names may be cut anywhere. */
  lemma ArrivesIff<E(!new)>(c: Codec<E>, blocks: seq<Block<E>>, chunks: seq<seq<byte>>)
    requires Faithful(c) && TellsApart(c) && forall b | b in blocks && b.Comment? :: OneLine(b.text)
    requires Joined(chunks) == Utf8.Encode(Render(c, blocks))
    ensures PushAll(c, State("", ""), chunks).1 == Events(blocks) <==>
      forall k | 0 <= k < |blocks| :: !Spoilt(c, blocks, chunks, k)
  {
    hide Joined, Utf8.Encode, Render, Spoilt, PushAll, Arrived, Events;
    var datas := StreamRead(c, blocks, chunks);
    ArrivedIff(c, blocks, datas);
    forall k: nat | k < |blocks|
      ensures blocks[k].Ev? ==> (c.decode(datas[k]) == Some(blocks[k].e) <==> !Spoilt(c, blocks, chunks, k))
      ensures blocks[k].Comment? ==> !Spoilt(c, blocks, chunks, k)
    {
      assert DataRead(c, blocks[k], datas[k], Spoilt(c, blocks, chunks, k));
      if blocks[k].Ev? {
        DataDecides(c, blocks[k].e, datas[k], Spoilt(c, blocks, chunks, k));
      } else {
        CommentsUnspoilt(c, blocks, chunks, k);
      }
    }
  }

  lemma CommentsUnspoilt<E>(c: Codec<E>, blocks: seq<Block<E>>, chunks: seq<seq<byte>>, k: nat)
    requires k < |blocks| && blocks[k].Comment?
    ensures !Spoilt(c, blocks, chunks, k)
  {
  }

  lemma DataDecides<E(!new)>(c: Codec<E>, e: E, data: string, cut: bool)
    requires Faithful(c) && TellsApart(c) && ReadAs(c.encode(e), data, cut)
    ensures c.decode(data) == Some(e) <==> !cut
  {
    hide Joined, JoinedText, Aligned, Utf8.Encode;
    if !cut {
      var chunks :| Joined(chunks) == Utf8.Encode(c.encode(e)) && data == JoinedText(chunks) && Aligned(chunks);
      ChunksIff(c.encode(e), chunks);
    }
  }
}
