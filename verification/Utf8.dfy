/** UTF-8 and `String::from_utf8_lossy` of the standard library (sections 3 and 4
    of RFC 3629). What is not UTF-8 becomes replacement characters, one for each
    longest run of bytes with which a character could begin. */
module Utf8 {
  import opened Bytes

  const REPLACEMENT := '\U{FFFD}'

  /** Bytes that only go on with a character. */
  predicate Continues(b: byte) {
    0x80 <= b < 0xC0
  }

  function EncodeChar(c: char): seq<byte> {
    var n := c as int;
    var high := n / 0x40;
    var higher := high / 0x40;
    if n < 0x80 then [n]
    else if n < 0x800 then [0xC0 + high, 0x80 + n % 0x40]
    else if n < 0x1_0000 then [0xE0 + higher, 0x80 + high % 0x40, 0x80 + n % 0x40]
    else [0xF0 + higher / 0x40, 0x80 + higher % 0x40, 0x80 + high % 0x40, 0x80 + n % 0x40]
  }

  function Encode(s: string): seq<byte> {
    if s == "" then [] else EncodeChar(s[0]) + Encode(s[1..])
  }

  /** How many bytes a character has that begins with this one. Zero if none does. */
  function Width(b: byte): nat {
    if b < 0x80 then 1
    else if 0xC2 <= b < 0xE0 then 2
    else if 0xE0 <= b < 0xF0 then 3
    else if 0xF0 <= b < 0xF5 then 4
    else 0
  }

  /** Whether a character that begins with `a` may go on with `b`: no overlong
      forms, no surrogates, nothing beyond the last code point. */
  predicate Second(a: byte, b: byte) {
    if a == 0xE0 then 0xA0 <= b < 0xC0
    else if a == 0xED then 0x80 <= b < 0xA0
    else if a == 0xF0 then 0x90 <= b < 0xC0
    else if a == 0xF4 then 0x80 <= b < 0x90
    else Continues(b)
  }

  /** The bytes taken for one character, or for one replacement character. */
  function Taken(b: seq<byte>): (n: nat)
    requires b != []
    ensures 1 <= n <= |b| && n <= 4
    ensures forall k | 1 <= k < n :: Continues(b[k])
  {
    var w := Width(b[0]);
    if w < 2 || |b| < 2 || !Second(b[0], b[1]) then 1
    else if w < 3 || |b| < 3 || !Continues(b[2]) then 2
    else if w < 4 || |b| < 4 || !Continues(b[3]) then 3
    else 4
  }

  /** Whether they are a character. */
  predicate Whole(b: seq<byte>)
    requires b != []
  {
    Taken(b) == Width(b[0])
  }

  /** The six bits of a byte that goes on with a character. */
  function Bits(b: byte): int {
    b - 0x80
  }

  function DecodeChar(b: seq<byte>): char
    requires b != [] && Whole(b)
  {
    var first: int := b[0];
    match Width(b[0])
    case 1 => first as char
    case 2 => ((first - 0xC0) * 0x40 + Bits(b[1])) as char
    case 3 => ((first - 0xE0) * 0x1000 + Bits(b[1]) * 0x40 + Bits(b[2])) as char
    case _ => ((first - 0xF0) * 0x4_0000 + Bits(b[1]) * 0x1000 + Bits(b[2]) * 0x40 + Bits(b[3])) as char
  }

  function First(b: seq<byte>): char
    requires b != []
  {
    if Whole(b) then DecodeChar(b) else REPLACEMENT
  }

  function Lossy(b: seq<byte>): string
    decreases |b|
  {
    if b == [] then "" else [First(b)] + Lossy(b[Taken(b)..])
  }

  // ----- text survives -----

  lemma CharIsWhole(c: char, rest: seq<byte>)
    ensures var e := EncodeChar(c);
      Width(e[0]) == |e| && Taken(e + rest) == |e| && Whole(e + rest)
  {
  }

  lemma SameFirst(a: seq<byte>, b: seq<byte>)
    requires a != [] && Whole(a) && Taken(a) == |a| && a <= b && Whole(b) && Taken(b) == |a|
    ensures DecodeChar(a) == DecodeChar(b)
  {
    assert forall k | 0 <= k < |a| :: a[k] == b[k];
  }

  lemma DecodesChar(c: char)
    ensures Whole(EncodeChar(c)) && DecodeChar(EncodeChar(c)) == c
  {
    CharIsWhole(c, []);
    var e, n := EncodeChar(c), c as int;
    assert e + [] == e;
    hide Taken, Second, Whole;
    var first, high := e[0] as int, n / 0x40;
    var higher := high / 0x40;
    if n < 0x80 {
      assert first == n;
    } else if n < 0x800 {
      assert first - 0xC0 == high && Bits(e[1]) == n % 0x40;
    } else if n < 0x1_0000 {
      assert first - 0xE0 == higher && Bits(e[1]) == high % 0x40 && Bits(e[2]) == n % 0x40;
    } else {
      assert first - 0xF0 == higher / 0x40 && Bits(e[1]) == higher % 0x40;
      assert Bits(e[2]) == high % 0x40 && Bits(e[3]) == n % 0x40;
    }
  }

  lemma CharRoundTrip(c: char, rest: seq<byte>)
    ensures var e := EncodeChar(c);
      Taken(e + rest) == |e| && Whole(e + rest) && DecodeChar(e + rest) == c
  {
    var e := EncodeChar(c);
    hide EncodeChar, Taken, Whole, DecodeChar;
    CharIsWhole(c, rest);
    CharIsWhole(c, []);
    assert e + [] == e;
    DecodesChar(c);
    SameFirst(e, e + rest);
  }

  lemma CharBytes(c: char)
    ensures var e := EncodeChar(c);
      e != [] && !Continues(e[0]) && forall k | 1 <= k < |e| :: Continues(e[k])
  {
  }

  lemma ReadsChar(c: char, rest: seq<byte>)
    ensures Lossy(EncodeChar(c) + rest) == [c] + Lossy(rest)
  {
    var e := EncodeChar(c);
    hide EncodeChar, DecodeChar, Whole, Taken;
    CharRoundTrip(c, rest);
    CharBytes(c);
    assert (e + rest)[|e|..] == rest;
  }

  /** Text in front of any bytes is read as it was written. */
  lemma {:induction false} TextFirst(s: string, rest: seq<byte>)
    ensures Lossy(Encode(s) + rest) == s + Lossy(rest)
  {
    hide EncodeChar, Lossy;
    if s == "" {
      assert Encode(s) + rest == rest && s + Lossy(rest) == Lossy(rest);
    } else {
      TextFirst(s[1..], rest);
      ReadsChar(s[0], Encode(s[1..]) + rest);
      assert Encode(s) + rest == EncodeChar(s[0]) + (Encode(s[1..]) + rest);
      assert [s[0]] + (s[1..] + Lossy(rest)) == s + Lossy(rest);
    }
  }

  lemma RoundTrip(s: string)
    ensures Lossy(Encode(s)) == s
  {
    TextFirst(s, []);
    assert Encode(s) + [] == Encode(s) && s + "" == s;
  }

  lemma {:induction false} EncodeJoined(s: string, t: string)
    ensures Encode(s + t) == Encode(s) + Encode(t)
  {
    hide EncodeChar;
    if s == "" {
      assert s + t == t;
    } else {
      assert (s + t)[1..] == s[1..] + t;
      EncodeJoined(s[1..], t);
    }
  }

  // ----- text in pieces -----

  function Joined(chunks: seq<seq<byte>>): seq<byte> {
    if chunks == [] then [] else chunks[0] + Joined(chunks[1..])
  }

  /** Each chunk read by itself. */
  function JoinedText(chunks: seq<seq<byte>>): string {
    if chunks == [] then "" else Lossy(chunks[0]) + JoinedText(chunks[1..])
  }

  /** No chunk begins inside a character. */
  predicate Aligned(chunks: seq<seq<byte>>) {
    forall k | 0 <= k < |chunks| && chunks[k] != [] :: !Continues(chunks[k][0])
  }

  /** How many characters begin among some bytes. */
  function Starts(b: seq<byte>): nat {
    if b == [] then 0 else Starts(b[..|b| - 1]) + if Continues(b[|b| - 1]) then 0 else 1
  }

  lemma {:induction false} StartsJoined(a: seq<byte>, b: seq<byte>)
    ensures Starts(a + b) == Starts(a) + Starts(b)
  {
    if b == [] {
      assert a + b == a;
    } else {
      StartsJoined(a, b[..|b| - 1]);
      assert (a + b)[..|a + b| - 1] == a + b[..|b| - 1];
    }
  }

  lemma {:induction false} StartsInOne(b: seq<byte>)
    requires b != [] && forall k | 1 <= k < |b| :: Continues(b[k])
    ensures Starts(b) == if Continues(b[0]) then 0 else 1
  {
    if |b| > 1 { StartsInOne(b[..|b| - 1]); }
  }

  lemma {:induction false} StartsInText(s: string)
    ensures Starts(Encode(s)) == |s|
  {
    if s != "" {
      CharBytes(s[0]);
      StartsInOne(EncodeChar(s[0]));
      StartsJoined(EncodeChar(s[0]), Encode(s[1..]));
      StartsInText(s[1..]);
    }
  }

  /** Whatever is read, no character gets lost, and bytes that begin inside one
      add another. */
  lemma {:induction false} NoneLost(b: seq<byte>)
    ensures |Lossy(b)| >= Starts(b)
    ensures b != [] && Continues(b[0]) ==> |Lossy(b)| > Starts(b)
    decreases |b|
  {
    if b != [] {
      var n := Taken(b);
      assert b == b[..n] + b[n..];
      StartsJoined(b[..n], b[n..]);
      StartsInOne(b[..n]);
      NoneLost(b[n..]);
    }
  }

  lemma {:induction false} ChunksLong(chunks: seq<seq<byte>>)
    ensures |JoinedText(chunks)| >= Starts(Joined(chunks))
    ensures !Aligned(chunks) ==> |JoinedText(chunks)| > Starts(Joined(chunks))
  {
    if chunks != [] {
      NoneLost(chunks[0]);
      StartsJoined(chunks[0], Joined(chunks[1..]));
      ChunksLong(chunks[1..]);
      if Aligned(chunks[1..]) && !Aligned(chunks) {
        var k :| 0 <= k < |chunks| && chunks[k] != [] && Continues(chunks[k][0]);
        assert k > 0 ==> chunks[1..][k - 1] == chunks[k];
      }
    }
  }

  lemma Between(a: seq<byte>, b: seq<byte>, e: seq<byte>, rest: seq<byte>)
    requires a + b == e + rest && a != [] && (b != [] ==> !Continues(b[0]))
    requires forall k | 1 <= k < |e| :: Continues(e[k])
    ensures |a| >= |e|
  {
    assert b != [] ==> (a + b)[|a|] == b[0];
  }

  /** A cut of a text that is not inside a character is between two of them. */
  lemma {:induction false} CutBetween(s: string, a: seq<byte>, b: seq<byte>) returns (k: nat)
    requires a + b == Encode(s) && (b != [] ==> !Continues(b[0]))
    ensures k <= |s| && a == Encode(s[..k]) && b == Encode(s[k..])
  {
    hide EncodeChar;
    if a == [] {
      k := 0;
      assert s[..0] == "" && s[0..] == s && a + b == b;
    } else {
      var e := EncodeChar(s[0]);
      CharBytes(s[0]);
      Between(a, b, e, Encode(s[1..]));
      Behind(a, b, e, Encode(s[1..]));
      k := CutBetween(s[1..], a[|e|..], b);
      OneMore(s, k);
      k := k + 1;
    }
  }

  lemma Behind(a: seq<byte>, b: seq<byte>, e: seq<byte>, rest: seq<byte>)
    requires a + b == e + rest && |a| >= |e|
    ensures a == e + a[|e|..] && a[|e|..] + b == rest
  {
    assert a[..|e|] == (a + b)[..|e|] == e;
    assert a[|e|..] + b == (a + b)[|e|..] == rest;
  }

  lemma OneMore(s: string, k: nat)
    requires s != "" && k < |s|
    ensures Encode(s[..k + 1]) == EncodeChar(s[0]) + Encode(s[1..][..k]) && s[k + 1..] == s[1..][k..]
  {
    hide EncodeChar;
    assert s[..k + 1][1..] == s[1..][..k];
  }

  lemma FirstBehind(chunks: seq<seq<byte>>)
    requires Aligned(chunks) && Joined(chunks) != []
    ensures !Continues(Joined(chunks)[0])
  {
    if chunks[0] == [] {
      assert Joined(chunks) == Joined(chunks[1..]);
      FirstBehind(chunks[1..]);
    }
  }

  lemma {:induction false} AlignedText(s: string, chunks: seq<seq<byte>>)
    requires Joined(chunks) == Encode(s) && Aligned(chunks)
    ensures JoinedText(chunks) == s
  {
    hide EncodeChar, Lossy;
    if chunks == [] {
      NothingEncoded(s);
    } else {
      var rest := Joined(chunks[1..]);
      if rest != [] { FirstBehind(chunks[1..]); }
      var k := CutBetween(s, chunks[0], rest);
      RoundTrip(s[..k]);
      AlignedText(s[k..], chunks[1..]);
      assert s[..k] + s[k..] == s;
    }
  }

  lemma NothingEncoded(s: string)
    requires Encode(s) == []
    ensures s == ""
  {
    if s != "" { CharBytes(s[0]); }
  }

  /** A text that comes in chunks, each read by itself, is read as it was written
      exactly when no chunk begins inside a character. */
  lemma ChunksIff(s: string, chunks: seq<seq<byte>>)
    requires Joined(chunks) == Encode(s)
    ensures JoinedText(chunks) == s <==> Aligned(chunks)
  {
    if Aligned(chunks) {
      AlignedText(s, chunks);
    } else {
      StartsInText(s);
      ChunksLong(chunks);
    }
  }

  /** The beginning of a character reads as one replacement character. */
  lemma ReadsBeginning(c: char, n: nat)
    requires 0 < n < |EncodeChar(c)|
    ensures Lossy(EncodeChar(c)[..n]) == [REPLACEMENT]
  {
    var b := EncodeChar(c)[..n];
    CharIsWhole(c, []);
    assert EncodeChar(c) + [] == EncodeChar(c);
    assert Taken(b) == n && !Whole(b) by { BeginningTaken(EncodeChar(c), n); }
    hide Taken, Whole, EncodeChar;
    assert b[n..] == [];
  }

  lemma BeginningTaken(e: seq<byte>, n: nat)
    requires e != [] && Taken(e) == |e| == Width(e[0]) && 0 < n < |e|
    ensures Taken(e[..n]) == n && !Whole(e[..n])
  {
  }

  /** A text that breaks off reads as its first characters and at most one
      replacement character. */
  lemma {:induction false} ReadsCutOff(s: string, b: seq<byte>) returns (k: nat, tail: string)
    requires b <= Encode(s)
    ensures k <= |s| && Lossy(b) == s[..k] + tail && tail in {"", [REPLACEMENT]}
  {
    hide EncodeChar, Lossy;
    if b == [] {
      k, tail := 0, "";
      assert Lossy([]) == "" by { RoundTrip(""); }
    } else {
      var e := EncodeChar(s[0]);
      if |b| < |e| {
        assert b == Encode(s)[..|b|] == e[..|b|];
        ReadsBeginning(s[0], |b|);
        k, tail := 0, [REPLACEMENT];
        assert "" + tail == tail;
      } else {
        assert b[..|e|] == Encode(s)[..|e|] == e && b[|e|..] <= Encode(s)[|e|..] == Encode(s[1..]);
        k, tail := ReadsCutOff(s[1..], b[|e|..]);
        ReadsChar(s[0], b[|e|..]);
        assert b == e + b[|e|..];
        assert [s[0]] + (s[1..][..k] + tail) == s[..k + 1] + tail;
        k := k + 1;
      }
    }
  }

  lemma CutMore(s: string, a: seq<byte>, b: seq<byte>) returns (k: nat)
    requires a + b <= Encode(s) && b != [] && !Continues(b[0])
    ensures k <= |s| && a == Encode(s[..k]) && b <= Encode(s[k..])
  {
    hide Encode;
    var behind := Encode(s)[|a|..];
    assert a + behind == Encode(s) && behind[0] == (a + b)[|a|] == b[0];
    k := CutBetween(s, a, behind);
    assert b == behind[..|b|];
  }

  /** Chunks of a text that breaks off, none of which begins inside a character,
      read as the whole of them. */
  lemma {:induction false} AlignedCutOff(s: string, chunks: seq<seq<byte>>)
    requires Joined(chunks) <= Encode(s) && Aligned(chunks)
    ensures JoinedText(chunks) == Lossy(Joined(chunks))
  {
    hide EncodeChar, Lossy;
    if chunks == [] {
      assert Lossy([]) == "" by { RoundTrip(""); }
    } else {
      var first, rest := chunks[0], Joined(chunks[1..]);
      if rest == [] {
        AlignedCutOff(s, chunks[1..]);
        assert Lossy([]) == "" by { RoundTrip(""); }
        assert first + [] == first && Lossy(first) + "" == Lossy(first);
      } else {
        FirstBehind(chunks[1..]);
        var k := CutMore(s, first, rest);
        AlignedCutOff(s[k..], chunks[1..]);
        TextFirst(s[..k], rest);
        RoundTrip(s[..k]);
      }
    }
  }

  /** A byte that goes on with no character stands for itself. */
  lemma LoneByte(b: byte, rest: seq<byte>)
    requires Continues(b)
    ensures Lossy([b] + rest) == [REPLACEMENT] + Lossy(rest)
  {
    assert ([b] + rest)[1..] == rest;
  }

  /** For example the two bytes of one letter, in whatever text. */
  lemma CutLetter(head: string, tail: string)
    ensures var chunks := [Encode(head) + [0xC3], [0xA9] + Encode(tail)];
      && Joined(chunks) == Encode(head + "\U{E9}" + tail)
      && JoinedText(chunks) == head + [REPLACEMENT, REPLACEMENT] + tail
  {
    Letter();
    hide Encode, Lossy, Joined, JoinedText;
    var h, t := Encode(head), Encode(tail);
    EncodeJoined(head, "\U{E9}");
    EncodeJoined(head + "\U{E9}", tail);
    TwoChunks(h + [0xC3], [0xA9] + t);
    assert h + [0xC3] + ([0xA9] + t) == h + [0xC3, 0xA9] + t;
    TextFirst(head, [0xC3]);
    LoneByte(0xA9, t);
    RoundTrip(tail);
    assert (head + [REPLACEMENT]) + ([REPLACEMENT] + tail) == head + [REPLACEMENT, REPLACEMENT] + tail;
  }

  lemma OneChunk(chunks: seq<seq<byte>>)
    requires |chunks| == 1
    ensures Joined(chunks) == chunks[0] && JoinedText(chunks) == Lossy(chunks[0])
  {
    hide Lossy;
    assert chunks[1..] == [];
    assert chunks[0] + [] == chunks[0] && Lossy(chunks[0]) + "" == Lossy(chunks[0]);
  }

  lemma TwoChunks(a: seq<byte>, b: seq<byte>)
    ensures Joined([a, b]) == a + b && JoinedText([a, b]) == Lossy(a) + Lossy(b)
  {
    hide Lossy;
    var chunks: seq<seq<byte>> := [a, b];
    OneChunk(chunks[1..]);
  }

  lemma Letter()
    ensures Encode("\U{E9}") == [0xC3, 0xA9] && Lossy([0xC3]) == [REPLACEMENT]
  {
    var b: seq<byte> := [0xC3];
    assert b[1..] == [] && "\U{E9}"[1..] == "";
  }

  // ----- what is replaced -----

  /** The bytes begin as a character does. */
  ghost predicate Begins(b: seq<byte>, n: nat) {
    n <= |b| && exists c :: b[..n] <= EncodeChar(c)
  }

  /** Bytes that are a character are that of its code point. */
  lemma EncodesAgain(b: seq<byte>)
    requires b != [] && Whole(b)
    ensures EncodeChar(DecodeChar(b)) == b[..Taken(b)]
  {
    var w, n, first: int := Width(b[0]), DecodeChar(b) as int, b[0];
    if w == 1 {
      assert n == first;
    } else if w == 2 {
      assert n == (first - 0xC0) * 0x40 + Bits(b[1]);
      assert n / 0x40 == first - 0xC0 && n % 0x40 == Bits(b[1]);
    } else if w == 3 {
      ThreeBytes(first - 0xE0, Bits(b[1]), Bits(b[2]), n);
    } else {
      FourBytes(first - 0xF0, Bits(b[1]), Bits(b[2]), Bits(b[3]), n);
    }
  }

  lemma ThreeBytes(x: nat, y: nat, z: nat, n: nat)
    requires y < 0x40 && z < 0x40 && n == x * 0x1000 + y * 0x40 + z
    ensures n % 0x40 == z && n / 0x40 % 0x40 == y && n / 0x40 / 0x40 == x
  {
    assert n == (x * 0x40 + y) * 0x40 + z;
    assert n / 0x40 == x * 0x40 + y;
  }

  lemma FourBytes(w: nat, x: nat, y: nat, z: nat, n: nat)
    requires x < 0x40 && y < 0x40 && z < 0x40 && n == w * 0x4_0000 + x * 0x1000 + y * 0x40 + z
    ensures n % 0x40 == z && n / 0x40 % 0x40 == y && n / 0x40 / 0x40 % 0x40 == x && n / 0x40 / 0x40 / 0x40 == w
  {
    assert n == (w * 0x1000 + x * 0x40 + y) * 0x40 + z;
    assert n / 0x40 == w * 0x1000 + x * 0x40 + y;
    ThreeBytes(w, x, y, n / 0x40);
  }

  /** As long as the bytes begin as a character, they are taken. */
  lemma TakesBeginning(b: seq<byte>, n: nat, c: char)
    requires 1 <= n <= |b| && b[..n] <= EncodeChar(c)
    ensures Taken(b) >= n && Width(b[0]) == |EncodeChar(c)|
  {
    CharIsWhole(c, []);
    var e := EncodeChar(c);
    assert e + [] == e;
    assert forall k | 0 <= k < n :: b[k] == b[..n][k] == e[k];
    hide EncodeChar;
  }

  /** What is taken for one replacement could have become a character, unless it is
      a single byte. */
  lemma BeginsSome(b: seq<byte>)
    requires b != [] && !Whole(b) && Taken(b) > 1
    ensures Begins(b, Taken(b))
  {
    var n := Taken(b);
    var some := b[..n] + if Width(b[0]) == 4 && n == 2 then [0x80, 0x80] else [0x80];
    assert forall k | 0 <= k < n :: some[k] == b[k];
    EncodesAgain(some);
    assert b[..n] <= some == some[..|some|];
  }

  /** Reading bytes as text takes the character they begin with, if they begin with
      one, and otherwise replaces as many bytes as some character could begin with,
      at least one. */
  lemma TakenIff(b: seq<byte>)
    requires b != []
    ensures Whole(b) <==> exists c :: EncodeChar(c) <= b
    ensures forall c | EncodeChar(c) <= b :: Lossy(b) == [c] + Lossy(b[|EncodeChar(c)|..])
    ensures (forall c :: !(EncodeChar(c) <= b)) ==>
      && Lossy(b) == ['\U{FFFD}'] + Lossy(b[Taken(b)..])
      && (Taken(b) == 1 || Begins(b, Taken(b)))
      && forall n | Taken(b) < n <= |b| :: !Begins(b, n)
  {
    hide EncodeChar, Taken, DecodeChar, Lossy;
    if Whole(b) {
      EncodesAgain(b);
      assert EncodeChar(DecodeChar(b)) <= b;
    } else {
      LossyFirst(b);
      if Taken(b) > 1 { BeginsSome(b); }
      forall n | Taken(b) < n <= |b| ensures !Begins(b, n) {
        if c: char :| b[..n] <= EncodeChar(c) { TakesBeginning(b, n, c); }
      }
    }
    forall c | EncodeChar(c) <= b
      ensures Whole(b) && Lossy(b) == [c] + Lossy(b[|EncodeChar(c)|..])
    {
      var e := EncodeChar(c);
      assert b == e + b[|e|..];
      CharIsWhole(c, b[|e|..]);
      ReadsChar(c, b[|e|..]);
    }
  }

  lemma LossyFirst(b: seq<byte>)
    requires b != [] && !Whole(b)
    ensures Lossy(b) == ['\U{FFFD}'] + Lossy(b[Taken(b)..])
  {
    hide Taken;
  }
}
