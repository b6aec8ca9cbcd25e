/** Writing names as messages carry them, plain or compressed (sections 3.1 and
    4.1.4 of RFC 1035), and reading them back. */
module SrvWire {
  import opened Wrappers
  import opened Bytes
  import opened Srv
  import Utf8

  predicate LabelOk(text: seq<byte>) {
    1 <= |text| < 0xC0
  }

  /** Labels on the wire, each after its length. */
  function Wire(labels: seq<seq<byte>>): seq<byte>
    requires forall l | l in labels :: LabelOk(l)
  {
    if labels == [] then [] else
    var last := labels[|labels| - 1];
    assert last in labels && LabelOk(last) && forall l | l in labels[..|labels| - 1] :: l in labels;
    Wire(labels[..|labels| - 1]) + [|last| as byte] + last
  }

  function WirePointer(target: nat): seq<byte>
    requires target < 0x4000
  {
    [0xC0 + target / 256, target % 256]
  }

  /** The labels of a name as text, with a dot between any two. */
  function Join(labels: seq<seq<byte>>): string {
    if labels == [] then "" else
    WithLabel(Join(labels[..|labels| - 1]), labels[|labels| - 1])
  }

  function Parts(labels: seq<seq<byte>>): seq<Part> {
    seq(|labels|, k requires 0 <= k < |labels| => Label(labels[k]))
  }

  ghost predicate LiesAt(msg: seq<byte>, pos: nat, bytes: seq<byte>) {
    pos + |bytes| <= |msg| && msg[pos..pos + |bytes|] == bytes
  }

  /** Whatever surrounds them, labels on the wire are read as they were
      written. */
  lemma {:induction false} LabelsRead(msg: seq<byte>, pos: nat, labels: seq<seq<byte>>)
    requires (forall l | l in labels :: LabelOk(l)) && LiesAt(msg, pos, Wire(labels))
    ensures var parts := Parts(labels);
      && Chain(msg, pos, parts, |parts|) && Follow(pos, parts, |parts|) == pos + |Wire(labels)|
      && !HasPointer(parts, |parts|) && NameText(parts) == Join(labels)
  {
    hide *;
    if labels == [] {
      NoLabels(msg, pos);
    } else {
      var front, last := labels[..|labels| - 1], labels[|labels| - 1];
      OneLabelMore(front, last, labels);
      var bytes := [|last| as byte] + last;
      LiesFirst(msg, pos, Wire(front), bytes);
      LiesLast(msg, pos, Wire(front), bytes);
      LabelsRead(msg, pos, front);
      LabelLies(msg, pos + |Wire(front)|, last);
      OnePartMore(msg, pos, Parts(front), Label(last));
    }
  }

  lemma NoLabels(msg: seq<byte>, pos: nat)
    ensures Wire([]) == [] && Parts([]) == [] && Join([]) == ""
    ensures Chain(msg, pos, [], 0) && Follow(pos, [], 0) == pos && !HasPointer([], 0) && NameText([]) == ""
  {
  }

  lemma OneLabelMore(front: seq<seq<byte>>, last: seq<byte>, labels: seq<seq<byte>>)
    requires labels != [] && front == labels[..|labels| - 1] && last == labels[|labels| - 1]
    requires forall l | l in labels :: LabelOk(l)
    ensures LabelOk(last) && 0 <= |last| < 256 && forall l | l in front :: LabelOk(l)
    ensures Wire(labels) == Wire(front) + ([|last| as byte] + last)
    ensures Parts(labels) == Parts(front) + [Label(last)] && |Parts(front)| == |front|
    ensures Join(labels) == WithLabel(Join(front), last)
  {
    hide WithLabel;
    assert last in labels && forall l | l in front :: l in labels;
  }

  lemma LiesFirst(msg: seq<byte>, pos: nat, a: seq<byte>, b: seq<byte>)
    requires LiesAt(msg, pos, a + b)
    ensures LiesAt(msg, pos, a)
  {
    assert a == (a + b)[..|a|];
  }

  lemma LiesLast(msg: seq<byte>, pos: nat, a: seq<byte>, b: seq<byte>)
    requires LiesAt(msg, pos, a + b)
    ensures LiesAt(msg, pos + |a|, b)
  {
    assert b == (a + b)[|a|..];
  }

  lemma LabelLies(msg: seq<byte>, pos: nat, text: seq<byte>)
    requires LabelOk(text) && LiesAt(msg, pos, [|text| as byte] + text)
    ensures PartAt(msg, pos, Label(text))
  {
    var bytes := [|text| as byte] + text;
    assert msg[pos] == bytes[0];
    LiesLast(msg, pos, [|text| as byte], text);
  }

  /** A name written with its zero byte reads back, with the position behind
      it. */
  lemma PlainNameRoundTrip(before: seq<byte>, labels: seq<seq<byte>>, after: seq<byte>)
    requires (forall l | l in labels :: LabelOk(l)) && |labels| < 128
    ensures var msg := before + Wire(labels) + [0] + after;
      && NameAt(msg, |before|, Parts(labels))
      && NameText(Parts(labels)) == Join(labels)
      && NameEnd(|before|, Parts(labels)) == |before| + |Wire(labels)| + 1
  {
    var msg := before + Wire(labels) + [0] + after;
    assert msg[|before|..|before| + |Wire(labels)|] == Wire(labels);
    LabelsRead(msg, |before|, labels);
    PlainEnd(|before|, Parts(labels), |labels|);
  }

  lemma {:induction false} PlainEnd(pos: nat, parts: seq<Part>, k: nat)
    requires k <= |parts| && !HasPointer(parts, k)
    ensures Resume(pos, parts, k) == Follow(pos, parts, k) + 1
  {
    if k > 0 { PlainEnd(pos, parts, k - 1); }
  }

  // ----- compressed names -----

  lemma {:induction false} FirstParts(msg: seq<byte>, pos: nat, a: seq<Part>, b: seq<Part>, k: nat)
    requires k <= |a|
    ensures Chain(msg, pos, a + b, k) == Chain(msg, pos, a, k) && Follow(pos, a + b, k) == Follow(pos, a, k)
    ensures HasPointer(a + b, k) == HasPointer(a, k) && Resume(pos, a + b, k) == Resume(pos, a, k)
    ensures Dotted(a + b, k) == Dotted(a, k)
  {
    if k > 0 { FirstParts(msg, pos, a, b, k - 1); }
  }

  /** Two runs of text with a dot between them unless one is empty. */
  function Dot(a: string, b: string): string {
    a + (if a == "" || b == "" then "" else ".") + b
  }

  /** Parts may go on anywhere: the rest of a name lies where a pointer leads. */
  lemma {:induction false} PartsJoined(msg: seq<byte>, pos: nat, a: seq<Part>, b: seq<Part>, k: nat)
    requires k <= |b| && Chain(msg, pos, a, |a|) && Chain(msg, Follow(pos, a, |a|), b, k)
    requires a != [] && a[|a| - 1].Pointer?
    ensures Chain(msg, pos, a + b, |a| + k)
    ensures Follow(pos, a + b, |a| + k) == Follow(Follow(pos, a, |a|), b, k)
    ensures HasPointer(a + b, |a| + k) && Resume(pos, a + b, |a| + k) == Resume(pos, a, |a|)
    ensures Dotted(a + b, |a| + k) == Dot(Dotted(a, |a|), Dotted(b, k))
  {
    hide Utf8.Lossy;
    FirstParts(msg, pos, a, b, |a|);
    if k > 0 {
      PartsJoined(msg, pos, a, b, k - 1);
      assert (a + b)[|a| + k - 1] == b[k - 1];
      ChainNonEmpty(msg, Follow(pos, a, |a|), b, k);
      if b[k - 1].Label? {
        SomeText(b[k - 1].text);
        DotMore(Dotted(a, |a|), Dotted(b, k - 1), Utf8.Lossy(b[k - 1].text));
      }
    }
  }

  lemma ChainNonEmpty(msg: seq<byte>, pos: nat, parts: seq<Part>, k: nat)
    requires 0 < k <= |parts| && Chain(msg, pos, parts, k)
    ensures parts[k - 1].Label? ==> parts[k - 1].text != []
  {
  }

  lemma SomeText(b: seq<byte>)
    requires b != []
    ensures Utf8.Lossy(b) != ""
  {
  }

  lemma DotMore(a: string, b: string, text: string)
    requires text != ""
    ensures var ab := Dot(a, b);
      ab + (if ab == "" then "" else ".") + text == Dot(a, b + (if b == "" then "" else ".") + text)
  {
  }

  /** A compressed name, some labels and a pointer to a name anywhere else in
      the message, reads as all of its labels, and the position behind it does
      not depend on where the pointer leads. */
  lemma CompressedNameRoundTrip(before: seq<byte>, labels: seq<seq<byte>>, target: nat, after: seq<byte>,
                                rest: seq<Part>)
    requires (forall l | l in labels :: LabelOk(l)) && target < 0x4000 && |labels| + 1 + |rest| < 128
    requires NameAt(before + Wire(labels) + WirePointer(target) + after, target, rest)
    ensures var msg, name := before + Wire(labels) + WirePointer(target) + after,
      Parts(labels) + [Pointer(target)] + rest;
      && NameAt(msg, |before|, name)
      && NameText(name) == Dot(Join(labels), NameText(rest))
      && NameEnd(|before|, name) == |before| + |Wire(labels)| + 2
  {
    hide Wire, Join, Parts, Chain, Follow, Resume, Dotted, HasPointer;
    var msg := before + Wire(labels) + WirePointer(target) + after;
    assert msg[|before|..|before| + |Wire(labels)|] == Wire(labels);
    LabelsRead(msg, |before|, labels);
    var plain, at := Parts(labels), |before| + |Wire(labels)|;
    var a := plain + [Pointer(target)];
    assert |plain| == |labels| by { PartsLength(labels); }
    PointerLies(msg, at, target);
    OnePartMore(msg, |before|, plain, Pointer(target));
    PartsJoined(msg, |before|, a, rest, |rest|);
  }

  lemma PartsLength(labels: seq<seq<byte>>)
    ensures |Parts(labels)| == |labels|
  {
  }

  lemma PointerLies(msg: seq<byte>, pos: nat, target: nat)
    requires target < 0x4000 && pos + 2 <= |msg| && msg[pos] == 0xC0 + target / 256 && msg[pos + 1] == target % 256
    ensures PartAt(msg, pos, Pointer(target))
  {
  }
}
