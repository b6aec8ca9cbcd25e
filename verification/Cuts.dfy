/** Texts in chunks, each chunk read as UTF-8 by itself (src/sse.rs): what the
    chunks of a part of the text read as, and where they are cut. */
module Cuts {
  import opened Bytes
  import opened Utf8

  // ----- where chunks begin -----

  lemma LossyStep(b: seq<byte>)
    requires b != []
    ensures Lossy(b) == [First(b)] + Lossy(b[Taken(b)..])
  {
  }

  /** Reading falls apart at every byte that can begin a character. */
  lemma {:induction false} LossyJoined(a: seq<byte>, b: seq<byte>)
    requires b != [] ==> !Continues(b[0])
    ensures Lossy(a + b) == Lossy(a) + Lossy(b)
    decreases |a|
  {
    hide Lossy, Taken, First;
    if a == [] {
      assert a + b == b;
      RoundTrip("");
    } else {
      var n := Taken(a);
      TakenFirst(a, b);
      LossyJoined(a[n..], b);
      assert (a + b)[n..] == a[n..] + b;
      LossyStep(a);
      LossyStep(a + b);
    }
  }

  lemma TakenFirst(a: seq<byte>, b: seq<byte>)
    requires a != [] && (b != [] ==> !Continues(b[0]))
    ensures Taken(a + b) == Taken(a) && First(a + b) == First(a)
  {
    var all := a + b;
    assert all[0] == a[0];
    assert forall k | 0 <= k < |a| :: all[k] == a[k];
    assert b != [] ==> all[|a|] == b[0];
  }

  /** Some chunk begins inside a character, at one of the bytes from `from` on and
      before `to`. */
  predicate CutIn(chunks: seq<seq<byte>>, from: int, to: int) {
    exists k | 0 <= k < |chunks| :: CutAt(chunks, k, from, to)
  }

  predicate CutAt(chunks: seq<seq<byte>>, k: nat, from: int, to: int)
    requires k < |chunks|
  {
    chunks[k] != [] && Continues(chunks[k][0]) && from <= |Joined(chunks[..k])| < to
  }

  lemma CutBehindFirst(chunks: seq<seq<byte>>, k: nat, from: int, to: int)
    requires 0 < k < |chunks|
    ensures var n := |chunks[0]|; CutAt(chunks, k, from, to) <==> CutAt(chunks[1..], k - 1, from - n, to - n)
  {
    assert chunks[..k][1..] == chunks[1..][..k - 1];
  }

  /** Looking for cuts chunk by chunk. */
  lemma CutFirst(chunks: seq<seq<byte>>, from: int, to: int)
    requires chunks != []
    ensures var n := |chunks[0]|;
      CutIn(chunks, from, to) <==>
        (n > 0 && Continues(chunks[0][0]) && from <= 0 < to) || CutIn(chunks[1..], from - n, to - n)
  {
    hide Joined;
    var n := |chunks[0]|;
    assert Joined(chunks[..0]) == [] by { NothingJoined(); }
    if k :| 0 <= k < |chunks| && CutAt(chunks, k, from, to) {
      if k > 0 { CutBehindFirst(chunks, k, from, to); }
    }
    var rest, f, t := chunks[1..], from - n, to - n;
    if k :| 0 <= k < |rest| && CutAt(rest, k, f, t) {
      CutBehindFirst(chunks, k + 1, from, to);
    }
    if n > 0 && Continues(chunks[0][0]) && from <= 0 < to { assert CutAt(chunks, 0, from, to); }
  }

  lemma NothingJoined()
    ensures Joined([]) == []
  {
  }

  lemma {:induction false} NoCutBefore(chunks: seq<seq<byte>>, from: int, to: int)
    requires to <= 0
    ensures !CutIn(chunks, from, to)
  {
  }

  lemma {:induction false} AlignedIff(chunks: seq<seq<byte>>)
    ensures Aligned(chunks) <==> !CutIn(chunks, 0, |Joined(chunks)|)
  {
    if chunks != [] {
      var n := |chunks[0]|;
      AlignedIff(chunks[1..]);
      CutFirst(chunks, 0, |Joined(chunks)|);
      FromStart(chunks[1..], -n, |Joined(chunks[1..])|);
      AlignedFirst(chunks);
    }
  }

  /** No chunk begins before the first byte. */
  lemma FromStart(chunks: seq<seq<byte>>, from: int, to: int)
    requires from <= 0
    ensures CutIn(chunks, from, to) <==> CutIn(chunks, 0, to)
  {
    hide Joined;
    if k :| 0 <= k < |chunks| && CutAt(chunks, k, from, to) { assert CutAt(chunks, k, 0, to); }
    if k :| 0 <= k < |chunks| && CutAt(chunks, k, 0, to) { assert CutAt(chunks, k, from, to); }
  }

  lemma AlignedFirst(chunks: seq<seq<byte>>)
    requires chunks != []
    ensures Aligned(chunks) <==> (chunks[0] != [] ==> !Continues(chunks[0][0])) && Aligned(chunks[1..])
  {
    if Aligned(chunks[1..]) {
      assert forall k | 0 < k < |chunks| :: chunks[k] == chunks[1..][k - 1];
    }
  }

  // ----- chunks of a part of the text -----

  /** The chunks up to a byte, and those behind it. */
  function Before(chunks: seq<seq<byte>>, n: nat): seq<seq<byte>> {
    if chunks == [] then []
    else if n <= |chunks[0]| then [chunks[0][..n]]
    else [chunks[0]] + Before(chunks[1..], n - |chunks[0]|)
  }

  function After(chunks: seq<seq<byte>>, n: nat): seq<seq<byte>> {
    if chunks == [] then []
    else if n <= |chunks[0]| then [chunks[0][n..]] + chunks[1..]
    else After(chunks[1..], n - |chunks[0]|)
  }

  ghost predicate Begins(b: seq<byte>, n: nat) {
    n <= |b| && (n < |b| ==> !Continues(b[n]))
  }

  lemma {:induction false} SplitBytes(chunks: seq<seq<byte>>, n: nat)
    requires n <= |Joined(chunks)|
    ensures Joined(Before(chunks, n)) == Joined(chunks)[..n] && Joined(After(chunks, n)) == Joined(chunks)[n..]
  {
    if chunks != [] {
      var first, rest := chunks[0], Joined(chunks[1..]);
      assert Joined(chunks) == first + rest;
      if n <= |first| {
        OneChunk([first[..n]]);
        assert (first + rest)[..n] == first[..n];
        var behind := [first[n..]] + chunks[1..];
        assert behind[1..] == chunks[1..];
        assert (first + rest)[n..] == first[n..] + rest;
      } else {
        SplitBytes(chunks[1..], n - |first|);
        var before := [first] + Before(chunks[1..], n - |first|);
        assert before[1..] == Before(chunks[1..], n - |first|);
        assert (first + rest)[..n] == first + rest[..n - |first|];
        assert (first + rest)[n..] == rest[n - |first|..];
      }
    }
  }

  lemma {:induction false} SplitText(chunks: seq<seq<byte>>, n: nat)
    requires Begins(Joined(chunks), n)
    ensures JoinedText(chunks) == JoinedText(Before(chunks, n)) + JoinedText(After(chunks, n))
  {
    hide Lossy;
    if chunks != [] {
      var first, rest := chunks[0], chunks[1..];
      assert Joined(chunks) == first + Joined(rest);
      if n <= |first| {
        OneChunk([first[..n]]);
        var behind := [first[n..]] + rest;
        assert behind[1..] == rest;
        assert n < |first| ==> first[n..][0] == Joined(chunks)[n];
        LossyJoined(first[..n], first[n..]);
        assert first == first[..n] + first[n..];
        assert Lossy(first[..n]) + (Lossy(first[n..]) + JoinedText(rest)) == Lossy(first) + JoinedText(rest);
      } else {
        var m := n - |first|;
        assert m < |Joined(rest)| ==> Joined(rest)[m] == Joined(chunks)[n];
        SplitText(rest, m);
        var before := [first] + Before(rest, m);
        assert before[1..] == Before(rest, m);
        assert Lossy(first) + (JoinedText(Before(rest, m)) + JoinedText(After(rest, m)))
            == (Lossy(first) + JoinedText(Before(rest, m))) + JoinedText(After(rest, m));
      }
    }
  }

  lemma {:induction false} CutsBefore(chunks: seq<seq<byte>>, n: nat, from: int, to: int)
    requires to <= n <= |Joined(chunks)|
    ensures CutIn(Before(chunks, n), from, to) <==> CutIn(chunks, from, to)
  {
    hide CutIn;
    if chunks == [] {
    } else {
      var first, rest := chunks[0], chunks[1..];
      CutFirst(chunks, from, to);
      if n <= |first| {
        var before := [first[..n]];
        CutFirst(before, from, to);
        NoCutBefore(rest, from - |first|, to - |first|);
        NoCutBefore(before[1..], from - n, to - n);
      } else {
        var before := [first] + Before(rest, n - |first|);
        CutFirst(before, from, to);
        assert before[1..] == Before(rest, n - |first|);
        CutsBefore(rest, n - |first|, from - |first|, to - |first|);
      }
    }
  }

  lemma {:induction false} CutsBehind(chunks: seq<seq<byte>>, n: nat, from: int, to: int)
    requires Begins(Joined(chunks), n) && n <= from
    ensures CutIn(After(chunks, n), from - n, to - n) <==> CutIn(chunks, from, to)
  {
    hide CutIn;
    if chunks == [] {
      NoChunks(from, to);
      NoChunks(from - n, to - n);
    } else {
      var first, rest := chunks[0], chunks[1..];
      assert Joined(chunks) == first + Joined(rest);
      CutFirst(chunks, from, to);
      if n <= |first| {
        var behind := [first[n..]] + rest;
        CutFirst(behind, from - n, to - n);
        assert behind[1..] == rest;
        assert n < |first| ==> first[n..][0] == Joined(chunks)[n];
      } else {
        var m := n - |first|;
        assert m < |Joined(rest)| ==> Joined(rest)[m] == Joined(chunks)[n];
        CutsBehind(rest, m, from - |first|, to - |first|);
      }
    }
  }

  lemma NoChunks(from: int, to: int)
    ensures !CutIn([], from, to)
  {
  }

  /** The end of one text in front of another is where a character begins. */
  lemma TextBegins(s: string, t: string)
    ensures Begins(Encode(s + t), |Encode(s)|)
    ensures Encode(s + t)[..|Encode(s)|] == Encode(s) && Encode(s + t)[|Encode(s)|..] == Encode(t)
  {
    hide EncodeChar;
    EncodeJoined(s, t);
    assert (Encode(s) + Encode(t))[..|Encode(s)|] == Encode(s);
    assert (Encode(s) + Encode(t))[|Encode(s)|..] == Encode(t);
    if t != "" {
      CharBytes(t[0]);
      assert Encode(t)[0] == EncodeChar(t[0])[0];
    }
  }

  /** What chunks of two texts read as is what the chunks of each read as. */
  lemma TwoTexts(s: string, t: string, chunks: seq<seq<byte>>) returns (a: seq<seq<byte>>, b: seq<seq<byte>>)
    requires Joined(chunks) == Encode(s + t)
    ensures Joined(a) == Encode(s) && Joined(b) == Encode(t) && JoinedText(chunks) == JoinedText(a) + JoinedText(b)
    ensures forall from, to | to <= |Encode(s)| :: CutIn(chunks, from, to) <==> CutIn(a, from, to)
    ensures forall from, to | |Encode(s)| <= from ::
      CutIn(chunks, from, to) <==> CutIn(b, from - |Encode(s)|, to - |Encode(s)|)
  {
    hide Encode, Joined, JoinedText, CutIn, Before, After;
    var n := |Encode(s)|;
    TextBegins(s, t);
    SplitBytes(chunks, n);
    SplitText(chunks, n);
    a, b := Before(chunks, n), After(chunks, n);
    forall from, to | to <= n ensures CutIn(chunks, from, to) <==> CutIn(a, from, to) {
      CutsBefore(chunks, n, from, to);
    }
    forall from, to | n <= from ensures CutIn(chunks, from, to) <==> CutIn(b, from - n, to - n) {
      CutsBehind(chunks, n, from, to);
    }
  }

  // ----- ASCII -----

  predicate Ascii(s: string) {
    forall c | c in s :: c as int < 0x80
  }

  lemma {:induction false} AsciiBytes(s: string)
    requires Ascii(s)
    ensures forall k | 0 <= k < |Encode(s)| :: !Continues(Encode(s)[k])
  {
    if s != "" {
      assert s[0] in s && forall c | c in s[1..] :: c in s;
      AsciiBytes(s[1..]);
    }
  }

  /** ASCII is read as it was written, however it is cut. */
  lemma {:induction false} AsciiReads(s: string, chunks: seq<seq<byte>>)
    requires Ascii(s) && Joined(chunks) == Encode(s)
    ensures JoinedText(chunks) == s
  {
    hide Ascii, Lossy;
    AsciiBytes(s);
    AllAligned(chunks);
    ChunksIff(s, chunks);
  }

  lemma {:induction false} AllAligned(chunks: seq<seq<byte>>)
    requires forall k | 0 <= k < |Joined(chunks)| :: !Continues(Joined(chunks)[k])
    ensures Aligned(chunks)
  {
    if chunks != [] {
      var first, rest := chunks[0], Joined(chunks[1..]);
      assert Joined(chunks) == first + rest;
      assert forall k | 0 <= k < |rest| :: rest[k] == Joined(chunks)[|first| + k];
      assert first != [] ==> first[0] == Joined(chunks)[0];
      AllAligned(chunks[1..]);
      AlignedFirst(chunks);
    }
  }

  /** No ASCII character is read that was not written. */
  lemma {:induction false} LossyAscii(b: seq<byte>, c: char)
    requires c as int < 0x80 && c in Lossy(b)
    ensures c as int in b
    decreases |b|
  {
    var n := Taken(b);
    if First(b) == c {
      FirstAscii(b);
      assert b[0] in b;
    } else {
      assert c in Lossy(b[n..]);
      LossyAscii(b[n..], c);
      assert forall x | x in b[n..] :: x in b;
    }
  }

  lemma FirstAscii(b: seq<byte>)
    requires b != [] && First(b) as int < 0x80
    ensures b[0] == First(b) as int
  {
  }

  lemma {:induction false} EncodeAscii(s: string, b: byte)
    requires b < 0x80 && b in Encode(s)
    ensures b as char in s
  {
    var e := EncodeChar(s[0]);
    if b in e {
      CharAscii(s[0], b);
    } else {
      EncodeAscii(s[1..], b);
    }
  }

  lemma CharAscii(c: char, b: byte)
    requires b < 0x80 && b in EncodeChar(c)
    ensures b as char == c
  {
  }

  lemma {:induction false} ReadsNoMore(s: string, chunks: seq<seq<byte>>, c: char)
    requires Joined(chunks) == Encode(s) && c as int < 0x80 && c !in s
    ensures c !in JoinedText(chunks)
  {
    if c in JoinedText(chunks) {
      InJoined(chunks, c);
      EncodeAscii(s, c as int);
    }
  }

  lemma {:induction false} InJoined(chunks: seq<seq<byte>>, c: char)
    requires c as int < 0x80 && c in JoinedText(chunks)
    ensures c as int in Joined(chunks)
  {
    hide Lossy;
    if c in Lossy(chunks[0]) {
      LossyAscii(chunks[0], c);
    } else {
      InJoined(chunks[1..], c);
    }
  }
}
