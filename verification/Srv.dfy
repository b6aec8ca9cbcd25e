/** The SRV answer decoder (src/srv.rs).

    A name on the wire is a chain of labels and compression pointers that ends
    at a zero byte (sections 3.1 and 4.1.4 of RFC 1035). The layout predicates
    below say where such a chain, a question or an answer lies in a message,
    without decoding anything. The decoder is proved to accept exactly the
    messages that are laid out that way. */
module Srv {
  import opened Bytes
  import opened Wrappers
  import Utf8

  /** Labels and pointers one name may take, the closing zero byte included. */
  const MAX_STEPS := 128

  datatype Part = Label(text: seq<byte>) | Pointer(target: nat)

  datatype Record = Record(priority: nat, weight: nat, port: nat, target: string, ttl: nat)

  datatype Service = Service(priority: nat, weight: nat, port: nat, target: seq<Part>)

  /** A resource record. Only one of type SRV has its data decoded. */
  datatype Answer = Answer(name: seq<Part>, rtype: nat, ttl: nat, rdlen: nat, service: Option<Service>)

  datatype DnsError =
    | ShortResponse | NotResponse | NxDomain | Rcode(code: nat) | Truncated
    | TruncatedName | TruncatedPointer | TruncatedLabel | NameTooLong

  /** Two bytes, most significant first. */
  function Be(hi: nat, lo: nat): nat {
    hi * 256 + lo
  }

  // ----- layout of names -----

  /** A part as it lies at `pos`. The program treats every length byte below
      0xC0 as a label length. */
  ghost predicate PartAt(msg: seq<byte>, pos: nat, part: Part) {
    match part
    case Label(text) =>
      1 <= |text| < 0xC0 && pos + 1 + |text| <= |msg| && msg[pos] == |text| && msg[pos + 1..pos + 1 + |text|] == text
    case Pointer(target) =>
      pos + 2 <= |msg| && msg[pos] >= 0xC0 && target == Be(msg[pos] - 0xC0, msg[pos + 1])
  }

  /** Where reading goes on after the first `k` parts. */
  ghost function Follow(pos: nat, parts: seq<Part>, k: nat): nat
    requires k <= |parts|
  {
    if k == 0 then pos else
    match parts[k - 1]
    case Label(text) => Follow(pos, parts, k - 1) + 1 + |text|
    case Pointer(target) => target
  }

  /** The first `k` parts lie where following them leads. */
  ghost predicate Chain(msg: seq<byte>, pos: nat, parts: seq<Part>, k: nat)
    requires k <= |parts|
  {
    k > 0 ==> Chain(msg, pos, parts, k - 1) && PartAt(msg, Follow(pos, parts, k - 1), parts[k - 1])
  }

  ghost predicate HasPointer(parts: seq<Part>, k: nat)
    requires k <= |parts|
  {
    k > 0 && (HasPointer(parts, k - 1) || parts[k - 1].Pointer?)
  }

  /** The position after the name in the stream it started in: two bytes after
      the first pointer, wherever that leads, or else after the zero byte. */
  ghost function Resume(pos: nat, parts: seq<Part>, k: nat): nat
    requires k <= |parts|
  {
    if k == 0 then pos + 1
    else if HasPointer(parts, k - 1) then Resume(pos, parts, k - 1)
    else if parts[k - 1].Pointer? then Follow(pos, parts, k - 1) + 2
    else Follow(pos, parts, k) + 1
  }

  ghost function NameEnd(pos: nat, name: seq<Part>): nat {
    Resume(pos, name, |name|)
  }

  ghost predicate NameAt(msg: seq<byte>, pos: nat, name: seq<Part>) {
    && Chain(msg, pos, name, |name|)
    && Follow(pos, name, |name|) < |msg| && msg[Follow(pos, name, |name|)] == 0
    && |name| < MAX_STEPS
  }

  /** One label more, as text, behind a dot unless it is the first. */
  function WithLabel(out: string, text: seq<byte>): string {
    out + (if out == "" then "" else ".") + Utf8.Lossy(text)
  }

  /** The labels among the first `k` parts in order, as text, joined with dots. */
  ghost function Dotted(parts: seq<Part>, k: nat): string
    requires k <= |parts|
  {
    if k == 0 then "" else
    var front := Dotted(parts, k - 1);
    match parts[k - 1]
    case Pointer(_) => front
    case Label(text) => WithLabel(front, text)
  }

  ghost function NameText(name: seq<Part>): string {
    Dotted(name, |name|)
  }

  lemma {:induction false} ChainUpTo(msg: seq<byte>, pos: nat, parts: seq<Part>, j: nat, k: nat)
    requires j <= k <= |parts| && Chain(msg, pos, parts, k)
    ensures Chain(msg, pos, parts, j)
    ensures j < k ==> PartAt(msg, Follow(pos, parts, j), parts[j])
  {
    if j < k - 1 { ChainUpTo(msg, pos, parts, j, k - 1); }
  }

  /** The bytes leave no choice: two chains at one position agree as far as
      both go. */
  lemma {:induction false} ChainsAgree(msg: seq<byte>, pos: nat, a: seq<Part>, b: seq<Part>, k: nat)
    requires k <= |a| && k <= |b| && Chain(msg, pos, a, k) && Chain(msg, pos, b, k)
    ensures Follow(pos, a, k) == Follow(pos, b, k)
    ensures forall j | 0 <= j < k :: a[j] == b[j]
  {
    if k > 0 {
      ChainsAgree(msg, pos, a, b, k - 1);
      assert a[k - 1] == b[k - 1];
    }
  }

  /** What any name at `start` says about the byte after its first parts. */
  lemma Ahead(msg: seq<byte>, start: nat, parts: seq<Part>, name: seq<Part>)
    requires Chain(msg, start, parts, |parts|) && NameAt(msg, start, name)
    ensures |parts| <= |name|
    ensures var next := Follow(start, parts, |parts|);
      && next < |msg|
      && (msg[next] == 0 <==> parts == name)
      && (parts != name ==> exists part :: PartAt(msg, next, part))
  {
    var a, b := |parts|, |name|;
    var m := if a < b then a else b;
    ChainUpTo(msg, start, parts, m, a);
    ChainUpTo(msg, start, name, m, b);
    ChainsAgree(msg, start, parts, name, m);
  }

  /** A name is the only one at its position. */
  lemma NameIsUnique(msg: seq<byte>, pos: nat, name: seq<Part>)
    requires NameAt(msg, pos, name)
    ensures pos < |msg|
    ensures forall other | NameAt(msg, pos, other) :: other == name
  {
    Ahead(msg, pos, [], name);
    forall other | NameAt(msg, pos, other) ensures other == name {
      Ahead(msg, pos, name, other);
    }
  }

  lemma {:induction false} Unextended(msg: seq<byte>, pos: nat, parts: seq<Part>, part: Part, k: nat)
    requires k <= |parts|
    ensures var more := parts + [part];
      && Chain(msg, pos, more, k) == Chain(msg, pos, parts, k)
      && Follow(pos, more, k) == Follow(pos, parts, k)
      && HasPointer(more, k) == HasPointer(parts, k)
      && Resume(pos, more, k) == Resume(pos, parts, k)
      && Dotted(more, k) == Dotted(parts, k)
  {
    hide WithLabel;
    if k > 0 {
      Unextended(msg, pos, parts, part, k - 1);
    }
  }

  lemma OnePartMore(msg: seq<byte>, start: nat, parts: seq<Part>, part: Part)
    requires Chain(msg, start, parts, |parts|) && PartAt(msg, Follow(start, parts, |parts|), part)
    ensures var more, n := parts + [part], |parts|;
      && Chain(msg, start, more, n + 1)
      && Follow(start, more, n + 1) == (if part.Label? then Follow(start, parts, n) + 1 + |part.text| else part.target)
      && HasPointer(more, n + 1) == (HasPointer(parts, n) || part.Pointer?)
      && NameEnd(start, more) == (if HasPointer(parts, n) then NameEnd(start, parts)
                                  else if part.Pointer? then Follow(start, parts, n) + 2
                                  else Follow(start, more, n + 1) + 1)
      && NameText(more) == (if part.Pointer? then NameText(parts)
                            else WithLabel(NameText(parts), part.text))
  {
    hide WithLabel;
    Unextended(msg, start, parts, part, |parts|);
  }

  /** The parts read so far are the first of any name here, and the byte after
      them tells whether they are all of it. */
  ghost predicate Leads(msg: seq<byte>, start: nat, parts: seq<Part>, pos: nat) {
    && Chain(msg, start, parts, |parts|) && Follow(start, parts, |parts|) == pos
    && (forall name | NameAt(msg, start, name) ::
          pos < |msg| && (msg[pos] == 0 <==> parts == name) &&
          (parts != name ==> exists part :: PartAt(msg, pos, part)))
  }

  lemma LeadsOn(msg: seq<byte>, start: nat, parts: seq<Part>, pos: nat)
    requires Chain(msg, start, parts, |parts|) && Follow(start, parts, |parts|) == pos
    ensures Leads(msg, start, parts, pos)
  {
    hide Chain, Follow, PartAt;
    forall name | NameAt(msg, start, name)
      ensures pos < |msg| && (msg[pos] == 0 <==> parts == name) &&
        (parts != name ==> exists part :: PartAt(msg, pos, part))
    {
      Ahead(msg, start, parts, name);
    }
  }

  /** How far reading has come: the text so far and, once a pointer was
      followed, the position after the name. */
  ghost predicate ReadSoFar(msg: seq<byte>, start: nat, parts: seq<Part>, pos: nat, out: string, end: Option<nat>) {
    && Leads(msg, start, parts, pos) && out == NameText(parts)
    && (end.Some? <==> HasPointer(parts, |parts|))
    && NameEnd(start, parts) == if end.Some? then end.value else pos + 1
  }

  lemma NothingRead(msg: seq<byte>, start: nat)
    ensures ReadSoFar(msg, start, [], start, [], None)
  {
    LeadsOn(msg, start, [], start);
    hide Leads;
  }

  lemma PointerRead(msg: seq<byte>, start: nat, parts: seq<Part>, pos: nat, out: string, end: Option<nat>,
                    target: nat)
    requires ReadSoFar(msg, start, parts, pos, out, end) && PartAt(msg, pos, Pointer(target))
    ensures ReadSoFar(msg, start, parts + [Pointer(target)], target, out, if end.None? then Some(pos + 2) else end)
  {
    hide PartAt, NameText, NameEnd, HasPointer, Chain, Follow;
    var part := Pointer(target);
    assert Chain(msg, start, parts, |parts|) && Follow(start, parts, |parts|) == pos;
    OnePartMore(msg, start, parts, part);
    LeadsOn(msg, start, parts + [part], target);
    hide Leads;
  }

  lemma LabelRead(msg: seq<byte>, start: nat, parts: seq<Part>, pos: nat, out: string, end: Option<nat>,
                  text: seq<byte>)
    requires ReadSoFar(msg, start, parts, pos, out, end) && PartAt(msg, pos, Label(text))
    ensures ReadSoFar(msg, start, parts + [Label(text)], pos + 1 + |text|, WithLabel(out, text), end)
  {
    hide WithLabel, PartAt, NameText, NameEnd, HasPointer, Chain, Follow;
    var part := Label(text);
    assert Chain(msg, start, parts, |parts|) && Follow(start, parts, |parts|) == pos;
    OnePartMore(msg, start, parts, part);
    LeadsOn(msg, start, parts + [part], pos + 1 + |text|);
    hide Leads;
  }

  lemma AllRead(msg: seq<byte>, start: nat, parts: seq<Part>, pos: nat, out: string, end: Option<nat>)
    requires ReadSoFar(msg, start, parts, pos, out, end)
    requires pos < |msg| && msg[pos] == 0 && |parts| < MAX_STEPS
    ensures NameAt(msg, start, parts)
    ensures forall name | NameAt(msg, start, name) :: name == parts
    ensures out == NameText(parts) && NameEnd(start, parts) == if end.Some? then end.value else pos + 1
  {
    hide PartAt, NameText, NameEnd, HasPointer, Chain, Follow;
  }

  /** Where no part can lie, no name goes on. */
  lemma Broken(msg: seq<byte>, start: nat, parts: seq<Part>, pos: nat, out: string, end: Option<nat>)
    requires ReadSoFar(msg, start, parts, pos, out, end)
    requires |parts| >= MAX_STEPS || pos >= |msg| || (msg[pos] != 0 && forall part :: !PartAt(msg, pos, part))
    ensures forall name :: !NameAt(msg, start, name)
  {
    hide PartAt, NameText, NameEnd, HasPointer, Chain, Follow;
    forall name | NameAt(msg, start, name) ensures false {
      assert |parts| >= MAX_STEPS;
      Longer(msg, start, parts, name);
    }
  }

  lemma Longer(msg: seq<byte>, start: nat, parts: seq<Part>, name: seq<Part>)
    requires Chain(msg, start, parts, |parts|) && NameAt(msg, start, name)
    ensures |parts| < MAX_STEPS
  {
    Ahead(msg, start, parts, name);
  }

  /** Why no name can be read: after some parts the message ends, or ends within
      the next pointer or label, or there are 128 of them. */
  ghost predicate StuckAfter(msg: seq<byte>, start: nat, parts: seq<Part>, e: DnsError) {
    && Chain(msg, start, parts, |parts|)
    && var p := Follow(start, parts, |parts|);
       if e.NameTooLong? then |parts| == 128 else
       && |parts| < 128
       && if e.TruncatedName? then p >= |msg|
          else if e.TruncatedPointer? then p + 1 == |msg| && msg[p] >= 0xC0
          else e.TruncatedLabel? && p < |msg| && 0 < msg[p] < 0xC0 && p + 1 + msg[p] > |msg|
  }

  ghost predicate Stuck(msg: seq<byte>, start: nat, e: DnsError) {
    exists parts :: StuckAfter(msg, start, parts, e)
  }

  lemma IsStuck(msg: seq<byte>, start: nat, parts: seq<Part>, pos: nat, out: string, end: Option<nat>, e: DnsError)
    requires ReadSoFar(msg, start, parts, pos, out, end)
    requires match e
      case NameTooLong => |parts| == 128
      case TruncatedName => |parts| < 128 && pos >= |msg|
      case TruncatedPointer => |parts| < 128 && pos + 1 == |msg| && msg[pos] >= 0xC0
      case TruncatedLabel => |parts| < 128 && pos < |msg| && 0 < msg[pos] < 0xC0 && pos + 1 + msg[pos] > |msg|
      case _ => false
    ensures Stuck(msg, start, e)
  {
    hide PartAt, NameText, NameEnd, HasPointer, Chain, Follow;
    assert StuckAfter(msg, start, parts, e);
  }

  /** Reads the name at `start`, following pointers. It succeeds exactly when a
      name of less than 128 parts lies there, and returns its labels and the
      position after it. Otherwise it says what is in the way. */
  method ReadName(msg: seq<byte>, start: nat) returns (r: Result<(string, nat), DnsError>)
    ensures forall name | NameAt(msg, start, name) :: r == Ok((NameText(name), NameEnd(start, name)))
    ensures r.Ok? ==> exists name :: NameAt(msg, start, name)
    ensures r.Err? ==> r.error in {TruncatedName, TruncatedPointer, TruncatedLabel, NameTooLong}
    ensures r.Err? ==> Stuck(msg, start, r.error)
  {
    hide Utf8.Lossy, NameAt, NameText, NameEnd, ReadSoFar, Stuck, Chain, Follow;
    var pos: nat, out: string, end: Option<nat> := start, "", None;
    ghost var parts: seq<Part> := [];
    NothingRead(msg, start);
    for i := 0 to MAX_STEPS
      invariant |parts| == i && ReadSoFar(msg, start, parts, pos, out, end)
    {
      if pos >= |msg| {
        Broken(msg, start, parts, pos, out, end);
        IsStuck(msg, start, parts, pos, out, end, TruncatedName);
        return Err(TruncatedName);
      }
      var len := msg[pos];
      if len == 0 {
        AllRead(msg, start, parts, pos, out, end);
        return Ok((out, if end.Some? then end.value else pos + 1));
      }
      if len >= 0xC0 {
        if pos + 1 >= |msg| {
          Broken(msg, start, parts, pos, out, end);
          IsStuck(msg, start, parts, pos, out, end, TruncatedPointer);
          return Err(TruncatedPointer);
        }
        var lo := msg[pos + 1];
        PointerRead(msg, start, parts, pos, out, end, Be(len - 0xC0, lo));
        if end.None? { end := Some(pos + 2); }
        parts := parts + [Pointer(Be(len - 0xC0, lo))];
        pos := Be(len - 0xC0, lo);
      } else {
        if pos + 1 + len > |msg| {
          Broken(msg, start, parts, pos, out, end);
          IsStuck(msg, start, parts, pos, out, end, TruncatedLabel);
          return Err(TruncatedLabel);
        }
        var text := msg[pos + 1..pos + 1 + len];
        LabelRead(msg, start, parts, pos, out, end, text);
        out := out + (if out == "" then "" else ".") + Utf8.Lossy(text);
        parts := parts + [Label(text)];
        pos := pos + 1 + len;
      }
    }
    Broken(msg, start, parts, pos, out, end);
    IsStuck(msg, start, parts, pos, out, end, NameTooLong);
    return Err(NameTooLong);
  }

  // ----- layout of responses -----

  function Word(msg: seq<byte>, pos: nat): nat
    requires pos + 2 <= |msg|
  {
    Be(msg[pos], msg[pos + 1])
  }

  function LongWord(msg: seq<byte>, pos: nat): nat
    requires pos + 4 <= |msg|
  {
    Word(msg, pos) * 0x1_0000 + Word(msg, pos + 2)
  }

  /** The position after the first `k` questions: each is a name, a type and a
      class. */
  ghost function QuestionsEnd(pos: nat, qs: seq<seq<Part>>, k: nat): nat
    requires k <= |qs|
  {
    if k == 0 then pos else NameEnd(QuestionsEnd(pos, qs, k - 1), qs[k - 1]) + 4
  }

  ghost predicate QuestionsAt(msg: seq<byte>, pos: nat, qs: seq<seq<Part>>, k: nat)
    requires k <= |qs|
  {
    k > 0 ==> QuestionsAt(msg, pos, qs, k - 1) && NameAt(msg, QuestionsEnd(pos, qs, k - 1), qs[k - 1])
  }

  ghost predicate ServiceAt(msg: seq<byte>, pos: nat, s: Service) {
    && pos + 6 <= |msg|
    && s.priority == Word(msg, pos) && s.weight == Word(msg, pos + 2) && s.port == Word(msg, pos + 4)
    && NameAt(msg, pos + 6, s.target)
  }

  const TYPE_SRV := 33

  ghost predicate AnswerAt(msg: seq<byte>, pos: nat, a: Answer) {
    var p := NameEnd(pos, a.name);
    && NameAt(msg, pos, a.name)
    && p + 10 <= |msg|
    && a.rtype == Word(msg, p) && a.ttl == LongWord(msg, p + 4) && a.rdlen == Word(msg, p + 8)
    && (a.service.Some? <==> a.rtype == TYPE_SRV)
    && (a.service.Some? ==> ServiceAt(msg, p + 10, a.service.value))
  }

  ghost function AnswerEnd(pos: nat, a: Answer): nat {
    NameEnd(pos, a.name) + 10 + a.rdlen
  }

  ghost function AnswersEnd(pos: nat, answers: seq<Answer>, k: nat): nat
    requires k <= |answers|
  {
    if k == 0 then pos else AnswerEnd(AnswersEnd(pos, answers, k - 1), answers[k - 1])
  }

  ghost predicate AnswersAt(msg: seq<byte>, pos: nat, answers: seq<Answer>, k: nat)
    requires k <= |answers|
  {
    k > 0 ==> AnswersAt(msg, pos, answers, k - 1) && AnswerAt(msg, AnswersEnd(pos, answers, k - 1), answers[k - 1])
  }

  /** The header, the questions and the answers of a successful response. */
  ghost predicate Response(msg: seq<byte>, qs: seq<seq<Part>>, answers: seq<Answer>) {
    && |msg| >= 12
    && Word(msg, 2) >= 0x8000 && Word(msg, 2) % 16 == 0
    && |qs| == Word(msg, 4) && |answers| == Word(msg, 6)
    && QuestionsAt(msg, 12, qs, |qs|)
    && AnswersAt(msg, QuestionsEnd(12, qs, |qs|), answers, |answers|)
  }

  ghost function RecordOf(a: Answer): seq<Record> {
    match a.service
    case None => []
    case Some(s) => [Record(s.priority, s.weight, s.port, NameText(s.target), a.ttl)]
  }

  /** The SRV records among the first `k` answers, in order. */
  ghost function Records(answers: seq<Answer>, k: nat): seq<Record>
    requires k <= |answers|
  {
    if k == 0 then [] else Records(answers, k - 1) + RecordOf(answers[k - 1])
  }

  lemma AnswerIsUnique(msg: seq<byte>, pos: nat, a: Answer)
    requires AnswerAt(msg, pos, a)
    ensures forall other | AnswerAt(msg, pos, other) :: other == a
  {
    NameIsUnique(msg, pos, a.name);
    if a.service.Some? {
      NameIsUnique(msg, NameEnd(pos, a.name) + 16, a.service.value.target);
    }
  }

  lemma {:induction false} QuestionsUpTo(msg: seq<byte>, pos: nat, qs: seq<seq<Part>>, j: nat, k: nat)
    requires j <= k <= |qs| && QuestionsAt(msg, pos, qs, k)
    ensures QuestionsAt(msg, pos, qs, j)
    ensures j < k ==> NameAt(msg, QuestionsEnd(pos, qs, j), qs[j])
  {
    if j < k - 1 { QuestionsUpTo(msg, pos, qs, j, k - 1); }
  }

  lemma {:induction false} AnswersUpTo(msg: seq<byte>, pos: nat, answers: seq<Answer>, j: nat, k: nat)
    requires j <= k <= |answers| && AnswersAt(msg, pos, answers, k)
    ensures AnswersAt(msg, pos, answers, j)
    ensures j < k ==> AnswerAt(msg, AnswersEnd(pos, answers, j), answers[j])
  {
    if j < k - 1 { AnswersUpTo(msg, pos, answers, j, k - 1); }
  }

  lemma {:induction false} QuestionsAgree(msg: seq<byte>, pos: nat, a: seq<seq<Part>>, b: seq<seq<Part>>, k: nat)
    requires k <= |a| && k <= |b| && QuestionsAt(msg, pos, a, k) && QuestionsAt(msg, pos, b, k)
    ensures QuestionsEnd(pos, a, k) == QuestionsEnd(pos, b, k)
    ensures forall j | 0 <= j < k :: a[j] == b[j]
  {
    if k > 0 {
      QuestionsAgree(msg, pos, a, b, k - 1);
      NameIsUnique(msg, QuestionsEnd(pos, a, k - 1), a[k - 1]);
    }
  }

  lemma {:induction false} AnswersAgree(msg: seq<byte>, pos: nat, a: seq<Answer>, b: seq<Answer>, k: nat)
    requires k <= |a| && k <= |b| && AnswersAt(msg, pos, a, k) && AnswersAt(msg, pos, b, k)
    ensures AnswersEnd(pos, a, k) == AnswersEnd(pos, b, k)
    ensures forall j | 0 <= j < k :: a[j] == b[j]
  {
    if k > 0 {
      AnswersAgree(msg, pos, a, b, k - 1);
      AnswerIsUnique(msg, AnswersEnd(pos, a, k - 1), a[k - 1]);
    }
  }

  /** A message has at most one reading. */
  lemma ResponseIsUnique(msg: seq<byte>, qs: seq<seq<Part>>, answers: seq<Answer>)
    requires Response(msg, qs, answers)
    ensures forall qs', answers' | Response(msg, qs', answers') :: qs' == qs && answers' == answers
  {
    forall qs', answers' | Response(msg, qs', answers') ensures qs' == qs && answers' == answers {
      QuestionsAgree(msg, 12, qs, qs', |qs|);
      AnswersAgree(msg, QuestionsEnd(12, qs, |qs|), answers, answers', |answers|);
    }
  }

  lemma {:induction false} QuestionsUnextended(msg: seq<byte>, pos: nat, qs: seq<seq<Part>>, q: seq<Part>, k: nat)
    requires k <= |qs|
    ensures QuestionsEnd(pos, qs + [q], k) == QuestionsEnd(pos, qs, k)
    ensures QuestionsAt(msg, pos, qs + [q], k) == QuestionsAt(msg, pos, qs, k)
  {
    if k > 0 { QuestionsUnextended(msg, pos, qs, q, k - 1); }
  }

  lemma {:induction false} AnswersUnextended(msg: seq<byte>, pos: nat, answers: seq<Answer>, a: Answer, k: nat)
    requires k <= |answers|
    ensures AnswersEnd(pos, answers + [a], k) == AnswersEnd(pos, answers, k)
    ensures AnswersAt(msg, pos, answers + [a], k) == AnswersAt(msg, pos, answers, k)
    ensures Records(answers + [a], k) == Records(answers, k)
  {
    if k > 0 { AnswersUnextended(msg, pos, answers, a, k - 1); }
  }

  /** The question any reading has after the ones read so far. */
  lemma NextQuestion(msg: seq<byte>, read: seq<seq<Part>>)
    requires QuestionsAt(msg, 12, read, |read|)
    ensures forall qs, answers | Response(msg, qs, answers) && |read| < |qs| ::
      NameAt(msg, QuestionsEnd(12, read, |read|), qs[|read|])
  {
    forall qs, answers | Response(msg, qs, answers) && |read| < |qs|
      ensures NameAt(msg, QuestionsEnd(12, read, |read|), qs[|read|])
    {
      QuestionsUpTo(msg, 12, qs, |read|, |qs|);
      QuestionsAgree(msg, 12, read, qs, |read|);
    }
  }

  lemma NextAnswer(msg: seq<byte>, asked: seq<seq<Part>>, read: seq<Answer>)
    requires QuestionsAt(msg, 12, asked, |asked|)
    requires AnswersAt(msg, QuestionsEnd(12, asked, |asked|), read, |read|)
    ensures forall qs, answers | Response(msg, qs, answers) && |qs| == |asked| && |read| < |answers| ::
      AnswerAt(msg, AnswersEnd(QuestionsEnd(12, asked, |asked|), read, |read|), answers[|read|])
  {
    forall qs, answers | Response(msg, qs, answers) && |qs| == |asked| && |read| < |answers|
      ensures AnswerAt(msg, AnswersEnd(QuestionsEnd(12, asked, |asked|), read, |read|), answers[|read|])
    {
      QuestionsAgree(msg, 12, asked, qs, |asked|);
      AnswersUpTo(msg, QuestionsEnd(12, qs, |qs|), answers, |read|, |answers|);
      AnswersAgree(msg, QuestionsEnd(12, qs, |qs|), read, answers, |read|);
    }
  }

  lemma NoName(msg: seq<byte>, pos: nat, r: Result<(string, nat), DnsError>)
    requires r.Err? && forall name | NameAt(msg, pos, name) :: r == Ok((NameText(name), NameEnd(pos, name)))
    ensures forall a :: !AnswerAt(msg, pos, a)
  {
    hide NameAt, NameText, NameEnd;
  }

  lemma NameWithin(msg: seq<byte>, pos: nat, name: seq<Part>)
    requires NameAt(msg, pos, name)
    ensures pos < |msg|
  {
    NameIsUnique(msg, pos, name);
  }

  ghost predicate HasName(msg: seq<byte>, pos: nat) {
    exists name :: NameAt(msg, pos, name)
  }

  /** What any answer behind this owner name must be like. */
  lemma AnswerLaidOut(msg: seq<byte>, pos: nat, owner: seq<Part>)
    requires NameAt(msg, pos, owner)
    ensures forall a | AnswerAt(msg, pos, a) ::
      var p := NameEnd(pos, owner);
      p + 10 <= |msg| && (Word(msg, p) == TYPE_SRV ==> HasName(msg, p + 16))
  {
    NameIsUnique(msg, pos, owner);
    hide NameAt, NameEnd;
    forall a | AnswerAt(msg, pos, a)
      ensures var p := NameEnd(pos, owner);
        p + 10 <= |msg| && (Word(msg, p) == TYPE_SRV ==> HasName(msg, p + 16))
    {
      assert a.name == owner;
      if a.service.Some? { assert NameAt(msg, NameEnd(pos, owner) + 16, a.service.value.target); }
    }
  }

  lemma AnswerRead(msg: seq<byte>, pos: nat, a: Answer)
    requires NameAt(msg, pos, a.name)
    requires var p := NameEnd(pos, a.name);
      && p + 10 <= |msg|
      && a.rtype == Word(msg, p) && a.ttl == LongWord(msg, p + 4) && a.rdlen == Word(msg, p + 8)
      && (a.service.Some? <==> a.rtype == TYPE_SRV)
      && (a.service.Some? ==> ServiceAt(msg, p + 10, a.service.value))
    ensures AnswerAt(msg, pos, a)
    ensures AnswerEnd(pos, a) == NameEnd(pos, a.name) + 10 + a.rdlen
    ensures RecordOf(a) == match a.service
      case None => []
      case Some(s) => [Record(s.priority, s.weight, s.port, NameText(s.target), a.ttl)]
  {
    hide NameAt, NameEnd, NameText, ServiceAt;
  }

  /** Why no answer can be read: its owner's name, its fixed part or the name in
      its data is cut off or too long. */
  ghost predicate AnswerStuck(msg: seq<byte>, pos: nat, e: DnsError) {
    || Stuck(msg, pos, e)
    || exists owner :: NameAt(msg, pos, owner) && BehindStuck(msg, NameEnd(pos, owner), e)
  }

  ghost predicate BehindStuck(msg: seq<byte>, p: nat, e: DnsError) {
    if p + 10 > |msg| then e == Truncated
    else msg[p] == 0 && msg[p + 1] == 33 && Stuck(msg, p + 16, e)
  }

  /** Decodes one answer at `pos`: the record if it is one, and the position
      of the next answer. Or it says why there is none. */
  method ReadAnswer(msg: seq<byte>, pos: nat) returns (r: Result<(seq<Record>, nat), DnsError>)
    ensures forall a | AnswerAt(msg, pos, a) :: r == Ok((RecordOf(a), AnswerEnd(pos, a)))
    ensures r.Ok? ==> exists a :: AnswerAt(msg, pos, a)
    ensures r.Err? ==> r.error in {Truncated, TruncatedName, TruncatedPointer, TruncatedLabel, NameTooLong}
    ensures r.Err? ==> AnswerStuck(msg, pos, r.error)
  {
    hide NameAt, NameEnd, NameText, AnswerAt, AnswerEnd, RecordOf, Stuck;
    var name := ReadName(msg, pos);
    if name.Err? {
      NoName(msg, pos, name);
      return Err(name.error);
    }
    ghost var owner :| NameAt(msg, pos, owner);
    var p := name.value.1;
    AnswerLaidOut(msg, pos, owner);
    if p + 10 > |msg| { return Err(Truncated); }
    var rtype, ttl, rdlen := Word(msg, p), LongWord(msg, p + 4), Word(msg, p + 8);
    var rdata := p + 10;
    ghost var answer := Answer(owner, rtype, ttl, rdlen, None);
    var records := [];
    if rtype == TYPE_SRV {
      var target := ReadName(msg, rdata + 6);
      if target.Err? { return Err(target.error); }
      ghost var parts :| NameAt(msg, rdata + 6, parts);
      NameWithin(msg, rdata + 6, parts);
      var priority, weight, port := Word(msg, rdata), Word(msg, rdata + 2), Word(msg, rdata + 4);
      answer := answer.(service := Some(Service(priority, weight, port, parts)));
      records := [Record(priority, weight, port, target.value.0, ttl)];
    }
    AnswerRead(msg, pos, answer);
    AnswerIsUnique(msg, pos, answer);
    return Ok((records, rdata + rdlen));
  }

  /** The message breaks off in a question or in an answer. */
  ghost predicate Breaks(msg: seq<byte>, e: DnsError)
    requires |msg| >= 12
  {
    || (exists qs :: BreaksBehind(msg, qs, e))
    || exists qs, answers :: BreaksWithin(msg, qs, answers, e)
  }

  ghost predicate BreaksBehind(msg: seq<byte>, qs: seq<seq<Part>>, e: DnsError)
    requires |msg| >= 12
  {
    && |qs| < Be(msg[4], msg[5]) && QuestionsAt(msg, 12, qs, |qs|)
    && Stuck(msg, QuestionsEnd(12, qs, |qs|), e)
  }

  ghost predicate BreaksWithin(msg: seq<byte>, qs: seq<seq<Part>>, answers: seq<Answer>, e: DnsError)
    requires |msg| >= 12
  {
    var begin := QuestionsEnd(12, qs, |qs|);
    && |qs| == Be(msg[4], msg[5]) && QuestionsAt(msg, 12, qs, |qs|)
    && |answers| < Be(msg[6], msg[7]) && AnswersAt(msg, begin, answers, |answers|)
    && AnswerStuck(msg, AnswersEnd(begin, answers, |answers|), e)
  }

  lemma BytesOfWord(msg: seq<byte>, pos: nat)
    requires pos + 2 <= |msg|
    ensures Word(msg, pos) >= 0x8000 <==> msg[pos] >= 128
    ensures Word(msg, pos) % 16 == msg[pos + 1] % 16
    ensures Word(msg, pos) == Be(msg[pos], msg[pos + 1])
  {
  }

  /** Total on every byte string. On a message that is laid out as a response
      it returns exactly the encoded SRV records in order, and it succeeds on
      no other message. Otherwise it says what kept it from doing so. */
  method ParseResponse(msg: seq<byte>) returns (r: Result<seq<Record>, DnsError>)
    ensures forall qs, answers | Response(msg, qs, answers) :: r == Ok(Records(answers, |answers|))
    ensures r.Ok? ==> exists qs, answers :: Response(msg, qs, answers)
    ensures r == Err(ShortResponse) <==> |msg| < 12
    ensures r == Err(NotResponse) <==> |msg| >= 12 && msg[2] < 128
    ensures r == Err(NxDomain) <==> |msg| >= 12 && msg[2] >= 128 && msg[3] % 16 == 3
    ensures r.Err? && r.error.Rcode? <==> |msg| >= 12 && msg[2] >= 128 && msg[3] % 16 !in {0, 3}
    ensures r.Err? && r.error.Rcode? ==> r.error.code == msg[3] % 16
    ensures r.Err? && |msg| >= 12 && msg[2] >= 128 && msg[3] % 16 == 0 ==> Breaks(msg, r.error)
  {
    hide Follow, Chain, NameAt, NameEnd, AnswerAt, AnswerEnd, RecordOf, Stuck, AnswerStuck, Word;
    if |msg| < 12 { return Err(ShortResponse); }
    var flags := Word(msg, 2);
    BytesOfWord(msg, 2);
    BytesOfWord(msg, 4);
    BytesOfWord(msg, 6);
    if flags < 0x8000 { return Err(NotResponse); }
    if flags % 16 == 3 { return Err(NxDomain); }
    if flags % 16 != 0 { return Err(Rcode(flags % 16)); }
    var qd, an := Word(msg, 4), Word(msg, 6);
    var pos := 12;
    ghost var asked: seq<seq<Part>> := [];
    for i := 0 to qd
      invariant |asked| == i && QuestionsAt(msg, 12, asked, i) && pos == QuestionsEnd(12, asked, i)
    {
      NextQuestion(msg, asked);
      var name := ReadName(msg, pos);
      if name.Err? {
        assert BreaksBehind(msg, asked, name.error);
        return Err(name.error);
      }
      ghost var parts :| NameAt(msg, pos, parts);
      QuestionsUnextended(msg, 12, asked, parts, i);
      asked := asked + [parts];
      pos := name.value.1 + 4;
    }
    var out := [];
    ghost var begin := pos;
    ghost var read: seq<Answer> := [];
    for i := 0 to an
      invariant |read| == i && AnswersAt(msg, begin, read, i) && pos == AnswersEnd(begin, read, i)
      invariant out == Records(read, i)
    {
      NextAnswer(msg, asked, read);
      var answer := ReadAnswer(msg, pos);
      if answer.Err? {
        assert BreaksWithin(msg, asked, read, answer.error);
        return Err(answer.error);
      }
      ghost var a :| AnswerAt(msg, pos, a);
      AnswersUnextended(msg, begin, read, a, i);
      read := read + [a];
      out := out + answer.value.0;
      pos := answer.value.1;
    }
    assert Response(msg, asked, read);
    ResponseIsUnique(msg, asked, read);
    return Ok(out);
  }
}
