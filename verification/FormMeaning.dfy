/** What an encoded form is, byte by byte, and what the decoder makes of any bytes
    (src/oidc.rs, src/relay/ui.rs). Bytes are written as numbers: 37 is `%`, 38
    `&`, 43 `+` and 61 `=`. */
module FormMeanings {
  import opened Bytes
  import opened Wrappers
  import opened Text
  import opened Form
  import Utf8

  // ----- encoding -----

  /** A letter, a digit, or one of `-`, `.`, `_` and `~`. */
  predicate Plain(b: byte) {
    48 <= b <= 57 || 65 <= b <= 90 || 97 <= b <= 122 || b == 45 || b == 46 || b == 95 || b == 126
  }

  /** A hexadecimal digit, in upper or lower case. */
  predicate Digit(b: byte, d: nat) {
    if d < 10 then b == 48 + d else d < 16 && (b == 55 + d || b == 87 + d)
  }

  /** A plain byte stands for itself, any other is a percent sign and two digits in
      upper case. */
  ghost predicate EncodedAs(b: byte, e: seq<byte>) {
    if Plain(b) then e == [b]
    else
      && |e| == 3 && e[0] == 37 && e[1] < 71 && e[2] < 71
      && exists h: nat, l: nat :: Digit(e[1], h) && Digit(e[2], l) && b == h * 16 + l
  }

  lemma ByteEncoded(b: byte)
    ensures EncodedAs(b, EncodeByte(b))
  {
    if !Plain(b) {
      var h: nat, l: nat := b / 16, b % 16;
      assert Digit(HexDigit(h), h) && Digit(HexDigit(l), l) && b == h * 16 + l;
    }
  }

  /** `at` cuts an encoding into that of each byte. */
  ghost predicate Cut(s: seq<byte>, e: seq<byte>, at: seq<nat>) {
    && |at| == |s| + 1 && at[0] == 0 && at[|s|] == |e|
    && forall k | 0 <= k < |s| :: PieceOf(s, e, at, k)
  }

  ghost predicate PieceOf(s: seq<byte>, e: seq<byte>, at: seq<nat>, k: nat)
    requires k < |s| && |at| == |s| + 1
  {
    at[k] <= at[k + 1] <= |e| && EncodedAs(s[k], e[at[k]..at[k + 1]])
  }

  lemma CutMore(s: seq<byte>, e: seq<byte>, at: seq<nat>, b: byte, more: seq<byte>)
    requires Cut(s, e, at) && EncodedAs(b, more)
    ensures Cut(s + [b], e + more, at + [|e| + |more|])
  {
    hide EncodedAs;
    var all, places := e + more, at + [|e| + |more|];
    forall k | 0 <= k < |s| ensures PieceOf(s + [b], all, places, k) {
      assert PieceOf(s, e, at, k);
      assert all[places[k]..places[k + 1]] == e[at[k]..at[k + 1]];
    }
    assert all[|e|..|e| + |more|] == more;
    assert PieceOf(s + [b], all, places, |s|);
  }

  lemma {:induction false} TextEncoded(s: seq<byte>) returns (at: seq<nat>)
    ensures Cut(s, EncodeText(s), at)
  {
    if s == [] {
      at := [0];
    } else {
      var front, b := s[..|s| - 1], s[|s| - 1];
      at := TextEncoded(front);
      ByteEncoded(b);
      hide EncodedAs, EncodeByte;
      CutMore(front, EncodeText(front), at, b, EncodeByte(b));
      assert s == front + [b];
      at := at + [|EncodeText(s)|];
    }
  }

  /** A form is its fields joined by `&`, each a name, `=` and a value. */
  lemma FieldsEncoded(fields: seq<Field>, k: nat)
    requires k < |fields|
    ensures |Split(EncodeFields(fields), 38)| == |fields|
    ensures Split(EncodeFields(fields), 38)[k] == EncodeText(fields[k].0) + [61] + EncodeText(fields[k].1)
  {
    SplitFields(fields);
    hide Split, EncodeFields, EncodeText;
  }

  // ----- decoding -----

  /** Two bytes that are read as a number: two digits, or `+` and one digit. */
  ghost predicate Hex(hi: byte, lo: byte, v: nat) {
    || (exists h: nat, l: nat :: Digit(hi, h) && Digit(lo, l) && v == h * 16 + l)
    || (hi == 43 && Digit(lo, v))
  }

  ghost predicate AnyHex(hi: byte, lo: byte) {
    exists v: nat :: Hex(hi, lo, v)
  }

  /** The bytes of `b` from `i` to `j` are read as `v`. */
  ghost predicate ReadAs(b: seq<byte>, i: nat, j: nat, v: byte) {
    && i < j <= |b|
    && if b[i] == 43 then j == i + 1 && v == 32
       else if b[i] == 37 && j == i + 3 then Hex(b[i + 1], b[i + 2], v)
       else j == i + 1 && v == b[i] && (b[i] == 37 && i + 2 < |b| ==> !AnyHex(b[i + 1], b[i + 2]))
  }

  /** `at` cuts the bytes into the pieces that are read as `out`. */
  ghost predicate Spells(b: seq<byte>, at: seq<nat>, out: seq<byte>) {
    && |at| == |out| + 1 && at[0] == 0 && at[|out|] == |b|
    && forall k | 0 <= k < |out| :: ReadAs(b, at[k], at[k + 1], out[k])
  }

  lemma DigitIff(b: byte, d: nat)
    ensures Digit(b, d) <==> DigitValue(b) == Some(d)
  {
  }

  lemma HexIff(hi: byte, lo: byte, v: nat)
    ensures Hex(hi, lo, v) <==> FromHex(hi, lo).Some? && FromHex(hi, lo).value == v
  {
    forall b, d: nat ensures Digit(b, d) <==> DigitValue(b) == Some(d) {
      DigitIff(b, d);
    }
    PlusIsNoDigit();
    hide Digit, DigitValue;
    if FromHex(hi, lo).Some? && DigitValue(hi).Some? {
      var h, l: nat := DigitValue(hi).value, DigitValue(lo).value;
      assert Digit(hi, h) && Digit(lo, l) && FromHex(hi, lo).value == h * 16 + l;
    }
  }

  lemma PlusIsNoDigit()
    ensures DigitValue(43).None?
  {
  }

  /** The first byte decoded, and how many it takes. */
  lemma FirstRead(b: seq<byte>) returns (n: nat, v: byte)
    requires b != [] && Decode(b).Some?
    ensures 1 <= n <= |b| && ReadAs(b, 0, n, v) && Decode(b) == Prepend(v, Decode(b[n..]))
  {
    if b[0] == 37 && |b| > 2 {
      forall x: nat ensures Hex(b[1], b[2], x) <==> FromHex(b[1], b[2]).Some? && FromHex(b[1], b[2]).value == x {
        HexIff(b[1], b[2], x);
      }
      hide Hex, FromHex;
      var hex := FromHex(b[1], b[2]);
      n, v := if hex.Some? then 3 else 1, if hex.Some? then hex.value else 37;
    } else {
      n, v := 1, if b[0] == 43 then 32 else b[0];
    }
  }

  lemma ReadBehind(b: seq<byte>, n: nat, i: nat, j: nat, v: byte)
    requires n <= |b|
    ensures ReadAs(b[n..], i, j, v) <==> ReadAs(b, n + i, n + j, v)
  {
    hide Hex;
    if i < j <= |b| - n {
      assert b[n..][i] == b[n + i];
      if i + 2 < |b| - n { assert b[n..][i + 1] == b[n + i + 1] && b[n..][i + 2] == b[n + i + 2]; }
    }
  }

  lemma SpellsMore(b: seq<byte>, n: nat, v: byte, at: seq<nat>, out: seq<byte>)
    requires 1 <= n <= |b| && ReadAs(b, 0, n, v) && Spells(b[n..], at, out)
    ensures Spells(b, [0] + seq(|at|, k requires 0 <= k < |at| => n + at[k]), [v] + out)
  {
    hide ReadAs;
    var all := [0] + seq(|at|, k requires 0 <= k < |at| => n + at[k]);
    forall k | 0 <= k < |out| ensures ReadAs(b, all[k + 1], all[k + 2], out[k]) {
      ReadBehind(b, n, at[k], at[k + 1], out[k]);
    }
    forall k | 0 <= k < |out| + 1 ensures ReadAs(b, all[k], all[k + 1], ([v] + out)[k]) {
      if k > 0 { assert all[k] == all[(k - 1) + 1]; }
    }
  }

  /** Whatever is decoded is spelled by its bytes, piece by piece. */
  lemma {:induction false} Decoded(b: seq<byte>) returns (at: seq<nat>)
    requires Decode(b).Some?
    ensures Spells(b, at, Decode(b).value)
    decreases |b|
  {
    if b == [] {
      at := [0];
    } else {
      var n, v := FirstRead(b);
      hide ReadAs, Decode, Spells;
      var rest := Decoded(b[n..]);
      SpellsMore(b, n, v, rest, Decode(b[n..]).value);
      at := [0] + seq(|rest|, k requires 0 <= k < |rest| => n + rest[k]);
    }
  }

  lemma OnlyOne(b: seq<byte>, i: nat, j: nat, v: byte, j': nat, v': byte)
    requires ReadAs(b, i, j, v) && ReadAs(b, i, j', v')
    ensures j == j' && v == v'
  {
    if b[i] == 37 && i + 2 < |b| {
      HexIff(b[i + 1], b[i + 2], v);
      HexIff(b[i + 1], b[i + 2], v');
      hide Hex, FromHex;
    }
  }

  /** The places behind the first piece, counted from there. */
  ghost function Behind(at: seq<nat>, n: nat): seq<nat>
    requires |at| == n + 1 > 1
  {
    seq(n, k requires 0 <= k < n => if at[k + 1] >= at[1] then at[k + 1] - at[1] else 0)
  }

  lemma SpellsLater(b: seq<byte>, at: seq<nat>, out: seq<byte>)
    requires b != [] && Spells(b, at, out)
    ensures out != [] && ReadAs(b, 0, at[1], out[0]) && 0 < at[1] <= |b|
    ensures Spells(b[at[1]..], Behind(at, |out|), out[1..])
  {
    hide Hex;
    assert ReadAs(b, at[0], at[1], out[0]);
    var n := at[1];
    Rising(b, at, out);
    var rest := Behind(at, |out|);
    hide ReadAs;
    forall k | 0 <= k < |out| - 1 ensures ReadAs(b[n..], rest[k], rest[k + 1], out[1..][k]) {
      assert ReadAs(b, at[k + 1], at[k + 2], out[k + 1]);
      ReadBehind(b, n, rest[k], rest[k + 1], out[k + 1]);
    }
  }

  lemma {:induction false} Rising(b: seq<byte>, at: seq<nat>, out: seq<byte>)
    requires Spells(b, at, out) && out != []
    ensures forall k | 1 <= k <= |out| :: at[k] >= at[1]
  {
    hide Hex;
    var k := 1;
    while k < |out|
      invariant 1 <= k <= |out| && forall j | 1 <= j <= k :: at[1] <= at[j] <= at[k]
    {
      assert ReadAs(b, at[k], at[k + 1], out[k]);
      k := k + 1;
    }
  }

  /** And what the bytes spell is what is decoded, unless a percent sign stops it. */
  lemma {:induction false} DecodedIff(b: seq<byte>, out: seq<byte>)
    ensures Decode(b) == Some(out) <==> !Cuts(b) && exists at :: Spells(b, at, out)
    decreases |b|
  {
    StopsIffCuts(b);
    if Decode(b).Some? {
      var at := Decoded(b);
      if at' :| Spells(b, at', out) { SpelledOnce(b, at, Decode(b).value, at', out); }
    }
  }

  lemma {:induction false} SpelledOnce(b: seq<byte>, at: seq<nat>, out: seq<byte>, at': seq<nat>, out': seq<byte>)
    requires Spells(b, at, out) && Spells(b, at', out')
    ensures out == out'
    decreases |b|
  {
    hide ReadAs, Cuts, Decode;
    if b == [] {
      NothingSpelled(at, out);
      NothingSpelled(at', out');
    } else {
      SpellsLater(b, at, out);
      SpellsLater(b, at', out');
      OnlyOne(b, 0, at[1], out[0], at'[1], out'[0]);
      var n := at[1];
      SpelledOnce(b[n..], Behind(at, |out|), out[1..], Behind(at', |out'|), out'[1..]);
    }
  }

  lemma NothingSpelled(at: seq<nat>, out: seq<byte>)
    requires Spells([], at, out)
    ensures out == []
  {
    assert out != [] ==> ReadAs([], at[0], at[1], out[0]);
  }

  // ----- the lookup -----

  /** The first piece between `&` that is the key, `=` and a value. */
  ghost predicate FirstOf(pieces: seq<seq<byte>>, key: seq<byte>, k: nat, value: seq<byte>) {
    && k < |pieces| && pieces[k] == key + [61] + value
    && forall j, other | 0 <= j < k :: pieces[j] != key + [61] + other
  }

  /** A lookup by a name without `=` gives the value in the first piece with that
      name, decoded, and nothing if there is none. */
  lemma QueryIff(q: seq<byte>, key: seq<byte>)
    requires 61 !in key
    ensures Query(q, key).None? <==>
      forall k, value | 0 <= k < |Split(q, 38)| :: Split(q, 38)[k] != key + [61] + value
    ensures forall k: nat, value | FirstOf(Split(q, 38), key, k, value) :: Query(q, key) == Some(DecodeText(value))
  {
    hide Split, DecodeText, Find;
    QueryIs(q, key);
    assert AMPERSAND == 38;
    FindIff(Split(q, 38), key);
  }

  lemma PieceIff(piece: seq<byte>, key: seq<byte>, value: seq<byte>)
    requires 61 !in key
    ensures SplitOnce(piece, 61) == Some((key, value)) <==> piece == key + [61] + value
  {
    SplitsAtFirst(key, 61, value);
  }

  lemma {:induction false} FindIff(pieces: seq<seq<byte>>, key: seq<byte>)
    requires 61 !in key
    ensures Find(pieces, key).None? <==>
      forall k, value | 0 <= k < |pieces| :: pieces[k] != key + [61] + value
    ensures forall k: nat, value | FirstOf(pieces, key, k, value) :: Find(pieces, key) == Some(DecodeText(value))
    decreases |pieces|
  {
    hide DecodeText, SplitOnce;
    if pieces != [] {
      var first, rest := pieces[0], pieces[1..];
      forall value ensures SplitOnce(first, 61) == Some((key, value)) <==> first == key + [61] + value {
        PieceIff(first, key, value);
      }
      FindIff(rest, key);
      assert forall k | 0 < k < |pieces| :: pieces[k] == rest[k - 1];
      forall k: nat, value | FirstOf(pieces, key, k, value) ensures Find(pieces, key) == Some(DecodeText(value)) {
        if k > 0 {
          assert FirstOf(rest, key, k - 1, value);
          assert forall other :: first != key + [61] + other;
        }
      }
      if SplitOnce(first, 61).Some? && SplitOnce(first, 61).value.0 == key {
        assert pieces[0] == key + [61] + SplitOnce(first, 61).value.1;
      }
    }
  }
}
