/** `application/x-www-form-urlencoded`: the encoder of src/oidc.rs and the
    decoder and query lookup of src/relay/ui.rs (sections 2.1 and 2.3 of
    RFC 3986). Both work on the bytes of UTF-8 text. */
module Form {
  import opened Bytes
  import opened Text
  import opened Wrappers
  import Utf8

  const AMPERSAND: byte := '&' as int
  const EQUALS: byte := '=' as int
  const PERCENT: byte := '%' as int
  const PLUS: byte := '+' as int
  const SPACE: byte := ' ' as int

  type Field = (seq<byte>, seq<byte>)

  predicate Within(b: byte, lo: char, hi: char) {
    lo as int <= b <= hi as int
  }

  predicate Unreserved(b: byte) {
    || Within(b, '0', '9') || Within(b, 'A', 'Z') || Within(b, 'a', 'z')
    || b in ['-' as int, '.' as int, '_' as int, '~' as int]
  }

  function HexDigit(d: nat): byte
    requires d < 16
  {
    if d < 10 then '0' as int + d else 'A' as int + (d - 10)
  }

  function EncodeByte(b: byte): seq<byte> {
    if Unreserved(b) then [b] else [PERCENT, HexDigit(b / 16), HexDigit(b % 16)]
  }

  function EncodeText(s: seq<byte>): seq<byte> {
    if s == [] then [] else EncodeText(s[..|s| - 1]) + EncodeByte(s[|s| - 1])
  }

  function EncodePair(f: Field): seq<byte> {
    EncodeText(f.0) + [EQUALS] + EncodeText(f.1)
  }

  function EncodeFields(fields: seq<Field>): seq<byte> {
    if fields == [] then []
    else if |fields| == 1 then EncodePair(fields[0])
    else EncodeFields(fields[..|fields| - 1]) + [AMPERSAND] + EncodePair(fields[|fields| - 1])
  }

  /** The fields of a form, encoded one by one. */
  function EncodedPairs(fields: seq<Field>): (pieces: seq<seq<byte>>)
    ensures |pieces| == |fields|
    ensures forall i | 0 <= i < |fields| :: pieces[i] == EncodePair(fields[i])
  {
    seq(|fields|, i requires 0 <= i < |fields| => EncodePair(fields[i]))
  }

  lemma EncodeOneByteMore(s: seq<byte>, k: nat)
    requires k < |s|
    ensures EncodeText(s[..k + 1]) == EncodeText(s[..k]) + EncodeByte(s[k])
  {
    assert s[..k + 1][..k] == s[..k];
  }

  /** The byte loop of the encoder. */
  method PushEncoded(before: seq<byte>, s: seq<byte>) returns (out: seq<byte>)
    ensures out == before + EncodeText(s)
  {
    out := before;
    assert EncodeText(s[..0]) == [];
    hide EncodeText;
    for k := 0 to |s|
      invariant out == before + EncodeText(s[..k])
    {
      var b := s[k];
      EncodeOneByteMore(s, k);
      if Unreserved(b) {
        out := out + [b];
      } else {
        out := out + [PERCENT, HexDigit(b / 16), HexDigit(b % 16)];
      }
    }
    assert s[..|s|] == s;
  }

  method FormEncode(fields: seq<Field>) returns (out: seq<byte>)
    ensures out == EncodeFields(fields)
  {
    out := [];
    ghost var done: seq<Field> := [];
    assert EncodeFields(done) == [];
    hide EncodeFields, EncodePair;
    for n := 0 to |fields|
      invariant done == fields[..n]
      invariant out == EncodeFields(done)
      invariant out == [] <==> n == 0
    {
      EncodeOneMore(done, fields[n]);
      if out != [] { out := out + [AMPERSAND]; }
      out := PushPair(out, fields[n]);
      done := done + [fields[n]];
    }
    assert done == fields;
  }

  method PushPair(before: seq<byte>, f: Field) returns (out: seq<byte>)
    ensures out == before + EncodePair(f)
    ensures out != []
  {
    out := PushEncoded(before, f.0);
    out := out + [EQUALS];
    out := PushEncoded(out, f.1);
    assert out == before + (EncodeText(f.0) + [EQUALS] + EncodeText(f.1));
  }

  lemma EncodeOneMore(fields: seq<Field>, field: Field)
    ensures EncodeFields(fields + [field])
         == EncodeFields(fields) + (if fields == [] then [] else [AMPERSAND]) + EncodePair(field)
  {
    assert (fields + [field])[..|fields|] == fields;
  }

  function DigitValue(b: byte): Option<nat> {
    if Within(b, '0', '9') then Some(b - '0' as int)
    else if Within(b, 'A', 'F') then Some(b - 'A' as int + 10)
    else if Within(b, 'a', 'f') then Some(b - 'a' as int + 10)
    else None
  }

  /** `u8::from_str_radix(_, 16)` on two bytes, which also takes a plus sign
      before a single digit. */
  function FromHex(hi: byte, lo: byte): Option<byte> {
    match (DigitValue(hi), DigitValue(lo))
    case (Some(h), Some(l)) => assert h < 16 && l < 16; Some(h * 16 + l)
    case (_, Some(l)) => if hi == PLUS then Some(l) else None
    case _ => None
  }

  /** Whether a text slice may begin or end before `b[k]`. */
  predicate Boundary(b: seq<byte>, k: nat)
    requires k <= |b|
  {
    k == |b| || !(0x80 <= b[k] < 0xC0)
  }

  /** The decoded bytes, or `None` where slicing the text inside a character
      stops the program. */
  function Decode(b: seq<byte>): Option<seq<byte>> {
    if b == [] then Some([])
    else if b[0] == PLUS then Prepend(SPACE, Decode(b[1..]))
    else if b[0] == PERCENT && |b| > 2 then
      if !Boundary(b, 1) || !Boundary(b, 3) then None
      else match FromHex(b[1], b[2])
        case Some(v) => Prepend(v, Decode(b[3..]))
        case None => Prepend(PERCENT, Decode(b[1..]))
    else Prepend(b[0], Decode(b[1..]))
  }

  function Prepend(b: byte, rest: Option<seq<byte>>): Option<seq<byte>> {
    match rest case None => None case Some(s) => Some([b] + s)
  }

  function PrependAll(out: seq<byte>, rest: Option<seq<byte>>): Option<seq<byte>> {
    match rest case None => None case Some(s) => Some(out + s)
  }

  lemma PrependLast(out: seq<byte>, b: byte, rest: Option<seq<byte>>)
    ensures PrependAll(out, Prepend(b, rest)) == PrependAll(out + [b], rest)
  {
    if rest.Some? {
      assert out + ([b] + rest.value) == out + [b] + rest.value;
    }
  }

  lemma PrependNothing(out: seq<byte>, rest: Option<seq<byte>>)
    ensures PrependAll([], rest) == rest
    ensures PrependAll(out, Some([])) == Some(out)
  {
    assert rest.Some? ==> [] + rest.value == rest.value;
    assert out + [] == out;
  }

  /** The decoded text. What is not UTF-8 in it is replaced. */
  function DecodeText(b: seq<byte>): Option<string> {
    match Decode(b) case None => None case Some(s) => Some(Utf8.Lossy(s))
  }

  method PercentDecode(b: seq<byte>) returns (r: Option<string>)
    ensures r == DecodeText(b)
  {
    hide Utf8.Lossy;
    var out: seq<byte>, i := [], 0;
    PrependNothing(out, Decode(b));
    assert b[0..] == b;
    while i < |b|
      invariant i <= |b|
      invariant Decode(b) == PrependAll(out, Decode(b[i..]))
    {
      ghost var at, before := b[i..], out;
      assert at[1..] == b[i + 1..];
      if b[i] == PLUS {
        out := out + [SPACE];
      } else if b[i] == PERCENT && i + 2 < |b| {
        if !Boundary(b, i + 1) || !Boundary(b, i + 3) { return None; }
        assert at[3..] == b[i + 3..];
        var v := FromHex(b[i + 1], b[i + 2]);
        if v.Some? {
          out := out + [v.value];
          i := i + 2;
        } else {
          out := out + [PERCENT];
        }
      } else {
        out := out + [b[i]];
      }
      i := i + 1;
      PrependLast(before, out[|out| - 1], Decode(b[i..]));
    }
    PrependNothing(out, None);
    return Some(Utf8.Lossy(out));
  }

  // ----- where decoding stops the program -----

  /** A percent sign with two more bytes behind it whose two digits would be cut
      out of the text inside a character. */
  predicate CutsAt(b: seq<byte>, i: nat) {
    i + 2 < |b| && b[i] == PERCENT && !(Boundary(b, i + 1) && Boundary(b, i + 3))
  }

  predicate Cuts(b: seq<byte>) {
    exists i | 0 <= i < |b| :: CutsAt(b, i)
  }

  lemma CutsBehind(b: seq<byte>, k: nat, i: nat)
    requires k <= |b|
    ensures CutsAt(b[k..], i) <==> CutsAt(b, k + i)
  {
    if i + 2 < |b[k..]| {
      assert b[k..][i] == b[k + i];
      assert Boundary(b[k..], i + 1) == Boundary(b, k + i + 1) && Boundary(b[k..], i + 3) == Boundary(b, k + i + 3);
    }
  }

  /** Looking for cuts from the left: none among the first few bytes leaves those
      behind. */
  lemma CutsLater(b: seq<byte>, k: nat)
    requires k <= |b| && forall i | 0 <= i < k :: !CutsAt(b, i)
    ensures Cuts(b) <==> Cuts(b[k..])
  {
    hide CutsAt;
    if Cuts(b) {
      var i :| 0 <= i < |b| && CutsAt(b, i);
      CutsBehind(b, k, i - k);
    } else {
      forall i | 0 <= i < |b| - k ensures !CutsAt(b[k..], i) {
        CutsBehind(b, k, i);
      }
    }
  }

  /** Hexadecimal digits and plus signs are neither percent signs nor inside a
      character. */
  lemma HexIsPlain(hi: byte, lo: byte)
    requires FromHex(hi, lo).Some?
    ensures hi != PERCENT && lo != PERCENT && hi < 0x80 && lo < 0x80
  {
  }

  /** Decoding stops the program exactly on texts with such a percent sign. */
  lemma {:induction false} StopsIffCuts(b: seq<byte>)
    ensures Decode(b).None? <==> Cuts(b)
    decreases |b|
  {
    if b != [] {
      if b[0] == PERCENT && |b| > 2 {
        if !Boundary(b, 1) || !Boundary(b, 3) {
          assert CutsAt(b, 0);
        } else if FromHex(b[1], b[2]).Some? {
          HexIsPlain(b[1], b[2]);
          CutsLater(b, 3);
          StopsIffCuts(b[3..]);
        } else {
          CutsLater(b, 1);
          StopsIffCuts(b[1..]);
        }
      } else {
        CutsLater(b, 1);
        StopsIffCuts(b[1..]);
      }
    }
  }

  /** In a text, what follows an ASCII byte begins a character. */
  lemma {:induction false} AsciiAlone(text: string, i: nat)
    requires i < |Utf8.Encode(text)| && Utf8.Encode(text)[i] < 0x80
    ensures Boundary(Utf8.Encode(text), i + 1)
  {
    hide Utf8.EncodeChar;
    var e, rest := Utf8.EncodeChar(text[0]), Utf8.Encode(text[1..]);
    Utf8.CharBytes(text[0]);
    AsciiChar(text[0]);
    if i < |e| {
      if rest != [] { Utf8.CharBytes(text[1]); }
    } else {
      AsciiAlone(text[1..], i - |e|);
    }
  }

  lemma AsciiChar(c: char)
    ensures forall k | 0 <= k < |Utf8.EncodeChar(c)| && Utf8.EncodeChar(c)[k] < 0x80 :: |Utf8.EncodeChar(c)| == 1
  {
  }

  /** So in a text a percent sign stops the program exactly when the second byte
      behind it belongs to a character that goes on. */
  lemma TextStopsIff(text: string)
    ensures var b := Utf8.Encode(text);
      DecodeText(b).None? <==> exists i | 0 <= i < |b| - 2 :: b[i] == PERCENT && !Boundary(b, i + 3)
  {
    hide Utf8.Encode, Utf8.Lossy, Decode;
    var b := Utf8.Encode(text);
    StopsIffCuts(b);
    if i :| 0 <= i < |b| - 2 && b[i] == PERCENT && !Boundary(b, i + 3) {
      assert CutsAt(b, i);
    } else if i :| 0 <= i < |b| && CutsAt(b, i) {
      AsciiAlone(text, i);
    }
  }

  /** For example on a percent sign, a letter and a letter outside ASCII. */
  lemma StopsHere()
    ensures DecodeText(Utf8.Encode("%a\U{E9}")).None?
  {
    var text := "%a\U{E9}";
    assert text[1..] == "a\U{E9}" && text[1..][1..] == "\U{E9}" && text[1..][1..][1..] == "";
    var b := Utf8.Encode(text);
    assert b == [PERCENT, 0x61, 0xC3, 0xA9];
    hide Utf8.Lossy, Utf8.Encode, Decode;
    assert CutsAt(b, 0);
    StopsIffCuts(b);
  }

  // ----- decoding undoes encoding -----

  lemma HexRoundTrip(d: nat)
    requires d < 16
    ensures DigitValue(HexDigit(d)) == Some(d)
    ensures HexDigit(d) < 0x80
  {
  }

  /** A percent sign may swallow a character that follows it, but only one
      outside ASCII, and the encoder emits none. */
  predicate StartsAscii(b: seq<byte>) {
    b != [] ==> b[0] < 0x80
  }

  lemma DecodesByte(b: byte, rest: seq<byte>)
    requires StartsAscii(rest)
    ensures Decode(EncodeByte(b) + rest) == Prepend(b, Decode(rest))
    ensures StartsAscii(EncodeByte(b) + rest)
    ensures AMPERSAND !in EncodeByte(b) && EQUALS !in EncodeByte(b)
  {
    var e := EncodeByte(b) + rest;
    if Unreserved(b) {
      assert e[1..] == rest;
    } else {
      HexRoundTrip(b / 16);
      HexRoundTrip(b % 16);
      assert e[3..] == rest;
      assert Boundary(e, 1) && Boundary(e, 3);
    }
  }

  lemma {:induction false} DecodesText(s: seq<byte>, rest: seq<byte>)
    requires StartsAscii(rest)
    ensures Decode(EncodeText(s) + rest) == PrependAll(s, Decode(rest))
    ensures AMPERSAND !in EncodeText(s) && EQUALS !in EncodeText(s)
  {
    if s == [] {
      PrependNothing(s, Decode(rest));
      assert EncodeText(s) + rest == rest;
    } else {
      var front, b := s[..|s| - 1], s[|s| - 1];
      assert EncodeText(s) == EncodeText(front) + EncodeByte(b) && s == front + [b];
      hide *;
      DecodesByte(b, rest);
      DecodesText(front, EncodeByte(b) + rest);
      PrependLast(front, b, Decode(rest));
      assert EncodeText(s) + rest == EncodeText(front) + (EncodeByte(b) + rest);
    }
  }

  /** Percent-decoding gives back every encoded text, and the encoding is free
      of both separators. */
  lemma DecodeUndoesEncode(s: seq<byte>)
    ensures Decode(EncodeText(s)) == Some(s)
    ensures AMPERSAND !in EncodeText(s) && EQUALS !in EncodeText(s)
  {
    DecodesText(s, []);
    assert EncodeText(s) + [] == EncodeText(s) && s + [] == s;
  }

  /** So does every text. */
  lemma TextRoundTrip(text: string)
    ensures DecodeText(EncodeText(Utf8.Encode(text))) == Some(text)
  {
    hide Utf8.Lossy, Utf8.Encode, EncodeText, Decode;
    DecodeUndoesEncode(Utf8.Encode(text));
    Utf8.RoundTrip(text);
  }

  function DecodePair(piece: seq<byte>): Option<(Option<seq<byte>>, Option<seq<byte>>)> {
    match SplitOnce(piece, EQUALS)
    case None => None
    case Some((k, v)) => Some((Decode(k), Decode(v)))
  }

  lemma PairRoundTrip(f: Field)
    ensures AMPERSAND !in EncodePair(f)
    ensures SplitOnce(EncodePair(f), EQUALS) == Some((EncodeText(f.0), EncodeText(f.1)))
    ensures DecodePair(EncodePair(f)) == Some((Some(f.0), Some(f.1)))
  {
    DecodeUndoesEncode(f.0);
    DecodeUndoesEncode(f.1);
    SplitsAtFirst(EncodeText(f.0), EQUALS, EncodeText(f.1));
  }

  lemma PairsButLast(fields: seq<Field>)
    requires fields != []
    ensures var n := |fields| - 1;
      EncodedPairs(fields) == EncodedPairs(fields[..n]) + [EncodePair(fields[n])]
  {
    hide EncodePair;
  }

  /** Cutting an encoded form at `&` gives the encoded fields back in order. */
  lemma {:induction false} SplitFields(fields: seq<Field>)
    requires fields != []
    ensures Split(EncodeFields(fields), AMPERSAND) == EncodedPairs(fields)
  {
    hide EncodedPairs, EncodePair, Decode;
    var n := |fields| - 1;
    PairRoundTrip(fields[n]);
    if n > 0 {
      var front := EncodeFields(fields[..n]);
      assert EncodeFields(fields) == front + [AMPERSAND] + EncodePair(fields[n]);
      hide *;
      SplitFields(fields[..n]);
      SplitLast(front, AMPERSAND, EncodePair(fields[n]));
      PairsButLast(fields);
    } else {
      OnePiece(EncodePair(fields[0]), AMPERSAND);
      PairsButLast(fields);
      assert EncodedPairs(fields[..0]) == [];
    }
  }

  /** A form of any positive number of fields survives the round trip: cut it
      at `&` and at the first `=`, decode, and every field is back in place. */
  lemma FormRoundTrip(fields: seq<Field>)
    requires fields != []
    ensures var pieces := Split(EncodeFields(fields), AMPERSAND);
      && |pieces| == |fields|
      && forall i | 0 <= i < |fields| :: DecodePair(pieces[i]) == Some((Some(fields[i].0), Some(fields[i].1)))
  {
    SplitFields(fields);
    forall i | 0 <= i < |fields| { PairRoundTrip(fields[i]); }
  }

  // ----- the query lookup -----

  /** The value of the first piece whose raw key is `key`. The inner option is
      the outcome of decoding it. */
  function Find(pieces: seq<seq<byte>>, key: seq<byte>): Option<Option<string>> {
    if pieces == [] then None else
    var kv := SplitOnce(pieces[0], EQUALS);
    if kv.Some? && kv.value.0 == key then Some(DecodeText(kv.value.1)) else Find(pieces[1..], key)
  }

  function Query(q: seq<byte>, key: seq<byte>): Option<Option<string>> {
    Find(Split(q, AMPERSAND), key)
  }

  function Lookup(fields: seq<Field>, key: seq<byte>): Option<seq<byte>> {
    if fields == [] then None
    else if fields[0].0 == key then Some(fields[0].1)
    else Lookup(fields[1..], key)
  }

  lemma {:induction false} FindEncoded(fields: seq<Field>, key: seq<byte>)
    ensures Find(EncodedPairs(fields), EncodeText(key))
         == match Lookup(fields, key) case None => None case Some(v) => Some(Some(Utf8.Lossy(v)))
  {
    if fields != [] {
      PairRoundTrip(fields[0]);
      DecodeUndoesEncode(fields[0].0);
      DecodeUndoesEncode(fields[0].1);
      DecodeUndoesEncode(key);
      FindEncoded(fields[1..], key);
      assert EncodedPairs(fields)[1..] == EncodedPairs(fields[1..]);
      hide EncodePair, EncodeText, EncodedPairs, Decode, Split, SplitOnce, Utf8.Lossy;
    }
  }

  /** The raw keys are compared without decoding, so a lookup by the encoded name
      finds the first field of that name. */
  lemma QueryFindsField(fields: seq<Field>, key: seq<byte>)
    ensures Query(EncodeFields(fields), EncodeText(key))
         == match Lookup(fields, key) case None => None case Some(v) => Some(Some(Utf8.Lossy(v)))
  {
    if fields == [] {
      assert Split<byte>([], AMPERSAND) == [[]];
      var pieces: seq<seq<byte>> := [[]];
      assert SplitOnce(pieces[0], EQUALS).None? && pieces[1..] == [];
      assert Find(pieces, EncodeText(key)) == None;
    } else {
      SplitFields(fields);
      FindEncoded(fields, key);
    }
  }

  lemma EncodedLength(b: byte)
    ensures |EncodeByte(b)| == if Unreserved(b) then 1 else 3
  {
  }

  lemma {:induction false} EncodingGrows(s: seq<byte>)
    ensures |EncodeText(s)| >= |s|
    ensures |EncodeText(s)| == |s| ==> forall b | b in s :: Unreserved(b)
  {
    if s != [] {
      var front, last := s[..|s| - 1], s[|s| - 1];
      EncodingGrows(front);
      EncodedLength(last);
      assert s == front + [last];
      hide EncodeByte, Unreserved;
    }
  }

  /** A name is its own encoding exactly when none of its bytes is reserved. */
  lemma {:induction false} PlainKey(key: seq<byte>)
    ensures EncodeText(key) == key <==> forall b | b in key :: Unreserved(b)
  {
    if forall b | b in key :: Unreserved(b) {
      PlainText(key);
    } else {
      EncodingGrows(key);
    }
  }

  lemma {:induction false} PlainText(key: seq<byte>)
    requires forall b | b in key :: Unreserved(b)
    ensures EncodeText(key) == key
  {
    if key != [] {
      PlainText(key[..|key| - 1]);
      assert key == key[..|key| - 1] + [key[|key| - 1]];
    }
  }

  /** A lookup by the plain name finds every field of that name exactly when none
      of its bytes is reserved. */
  lemma PlainLookupIff(key: seq<byte>)
    ensures (forall b | b in key :: Unreserved(b)) <==>
      forall fields :: (Query(EncodeFields(fields), key)
        == match Lookup(fields, key) case None => None case Some(v) => Some(Some(Utf8.Lossy(v))))
  {
    PlainKey(key);
    if EncodeText(key) == key {
      forall fields ensures Query(EncodeFields(fields), key)
        == match Lookup(fields, key) case None => None case Some(v) => Some(Some(Utf8.Lossy(v)))
      {
        QueryFindsField(fields, key);
      }
    } else {
      OneFieldMissed(key);
      assert Lookup([(key, [])], key) == Some([]);
      hide *;
    }
  }

  lemma OneFieldMissed(key: seq<byte>)
    requires EncodeText(key) != key
    ensures Query(EncodeFields([(key, [])]), key) == None
  {
    var f: Field := (key, []);
    hide *;
    PairRoundTrip(f);
    SplitFields([f]);
    OnePair(f);
    FindOne(EncodePair(f), key);
    QueryIs(EncodeFields([f]), key);
  }

  lemma OnePair(f: Field)
    ensures EncodedPairs([f]) == [EncodePair(f)]
  {
  }

  lemma FindOne(piece: seq<byte>, key: seq<byte>)
    requires SplitOnce(piece, EQUALS).Some? && SplitOnce(piece, EQUALS).value.0 != key
    ensures Find([piece], key) == None
  {
    hide Decode, SplitOnce;
    assert [piece][1..] == [];
  }

  lemma QueryIs(q: seq<byte>, key: seq<byte>)
    ensures Query(q, key) == Find(Split(q, AMPERSAND), key)
  {
  }
}
