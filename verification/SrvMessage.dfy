/** Writing whole responses to SRV queries, with questions and answers of any type
    and compressed names (section 4.1 of RFC 1035, RFC 2782), and reading them
    back. */
module SrvMessages {
  import opened Wrappers
  import opened Bytes
  import opened Srv
  import opened SrvWire

  /** A name written out, or some labels and a pointer to the name of the first
      question, which begins at byte 12. */
  datatype Wired = Whole(labels: seq<seq<byte>>) | Abridged(labels: seq<seq<byte>>)

  datatype Question = Question(name: Wired, qtype: nat, qclass: nat)

  datatype Data = Service(priority: nat, weight: nat, port: nat, target: Wired) | Other(rtype: nat, bytes: seq<byte>)

  datatype Reply = Reply(owner: Wired, qclass: nat, ttl: nat, data: Data)

  /** The rest of the message, authority and additional sections, is not read. */
  datatype Message = Message(id: nat, flags: nat, questions: seq<Question>, answers: seq<Reply>, authority: nat,
                             additional: nat, rest: seq<byte>)

  const AT_FIRST := 12

  // ----- bytes -----

  function Two(n: nat): seq<byte>
    requires n < 0x1_0000
  {
    [n / 256, n % 256]
  }

  function Four(n: nat): seq<byte>
    requires n < 0x1_0000_0000
  {
    Two(n / 0x1_0000) + Two(n % 0x1_0000)
  }

  predicate LabelsOk(labels: seq<seq<byte>>) {
    forall l | l in labels :: LabelOk(l)
  }

  /** What can be written, if the first question asks for `first`. */
  predicate WiredOk(w: Wired, first: seq<seq<byte>>) {
    LabelsOk(w.labels) && |w.labels| + (if w.Whole? then 0 else 1 + |first|) < 128
  }

  function NameBytes(w: Wired): seq<byte>
    requires LabelsOk(w.labels)
  {
    Wire(w.labels) + if w.Whole? then [0] else WirePointer(AT_FIRST)
  }

  predicate QuestionOk(q: Question, first: seq<seq<byte>>) {
    WiredOk(q.name, first) && q.qtype < 0x1_0000 && q.qclass < 0x1_0000
  }

  function QuestionBytes(q: Question): seq<byte>
    requires LabelsOk(q.name.labels) && q.qtype < 0x1_0000 && q.qclass < 0x1_0000
  {
    NameBytes(q.name) + (Two(q.qtype) + Two(q.qclass))
  }

  predicate DataOk(d: Data, first: seq<seq<byte>>) {
    match d
    case Service(priority, weight, port, target) =>
      priority < 0x1_0000 && weight < 0x1_0000 && port < 0x1_0000 && WiredOk(target, first)
    case Other(rtype, _) => rtype < 0x1_0000 && rtype != 33
  }

  function DataBytes(d: Data, first: seq<seq<byte>>): seq<byte>
    requires DataOk(d, first)
  {
    match d
    case Service(priority, weight, port, target) =>
      Two(priority) + (Two(weight) + (Two(port) + NameBytes(target)))
    case Other(_, bytes) => bytes
  }

  function TypeOf(d: Data): nat {
    match d case Service(_, _, _, _) => 33 case Other(rtype, _) => rtype
  }

  predicate ReplyOk(a: Reply, first: seq<seq<byte>>) {
    && WiredOk(a.owner, first) && a.qclass < 0x1_0000 && a.ttl < 0x1_0000_0000
    && DataOk(a.data, first) && |DataBytes(a.data, first)| < 0x1_0000
  }

  /** Type, class, time to live, length and data behind the owner. */
  function Fixed(a: Reply, first: seq<seq<byte>>): seq<byte>
    requires ReplyOk(a, first)
  {
    Two(TypeOf(a.data)) + (Two(a.qclass) + (Four(a.ttl) + Two(|DataBytes(a.data, first)|)))
  }

  function ReplyBytes(a: Reply, first: seq<seq<byte>>): seq<byte>
    requires ReplyOk(a, first)
  {
    NameBytes(a.owner) + (Fixed(a, first) + DataBytes(a.data, first))
  }

  predicate QuestionsOk(qs: seq<Question>, first: seq<seq<byte>>) {
    forall k | 0 <= k < |qs| :: QuestionOk(qs[k], first)
  }

  predicate RepliesOk(answers: seq<Reply>, first: seq<seq<byte>>) {
    forall k | 0 <= k < |answers| :: ReplyOk(answers[k], first)
  }

  function QuestionsBytes(qs: seq<Question>, first: seq<seq<byte>>): seq<byte>
    requires QuestionsOk(qs, first)
  {
    if qs == [] then [] else QuestionsBytes(qs[..|qs| - 1], first) + QuestionBytes(qs[|qs| - 1])
  }

  function RepliesBytes(answers: seq<Reply>, first: seq<seq<byte>>): seq<byte>
    requires RepliesOk(answers, first)
  {
    if answers == [] then [] else
    RepliesBytes(answers[..|answers| - 1], first) + ReplyBytes(answers[|answers| - 1], first)
  }

  /** The labels of the first question, which names may end in. */
  function FirstOf(m: Message): seq<seq<byte>> {
    if m.questions == [] then [] else m.questions[0].name.labels
  }

  /** A successful response: names are abridged only if there is a first question
      whose name is written out. */
  predicate MessageOk(m: Message) {
    && m.id < 0x1_0000 && m.authority < 0x1_0000 && m.additional < 0x1_0000
    && 0x8000 <= m.flags < 0x1_0000 && m.flags % 16 == 0
    && |m.questions| < 0x1_0000 && |m.answers| < 0x1_0000
    && QuestionsOk(m.questions, FirstOf(m)) && RepliesOk(m.answers, FirstOf(m))
    && ((m.questions != [] && m.questions[0].name.Whole?) || Unabridged(m))
  }

  predicate Unabridged(m: Message) {
    && (forall k | 0 <= k < |m.questions| :: m.questions[k].name.Whole?)
    && forall k | 0 <= k < |m.answers| ::
         m.answers[k].owner.Whole? && (m.answers[k].data.Service? ==> m.answers[k].data.target.Whole?)
  }

  function Header(m: Message): seq<byte>
    requires MessageOk(m)
  {
    Two(m.id) + (Two(m.flags) + (Two(|m.questions|) + (Two(|m.answers|) + (Two(m.authority) + Two(m.additional)))))
  }

  function MessageBytes(m: Message): seq<byte>
    requires MessageOk(m)
  {
    Header(m) + (QuestionsBytes(m.questions, FirstOf(m)) + (RepliesBytes(m.answers, FirstOf(m)) + m.rest))
  }

  // ----- what they mean -----

  function PartsOf(w: Wired, first: seq<seq<byte>>): seq<Part> {
    Parts(w.labels) + if w.Whole? then [] else [Pointer(AT_FIRST)] + Parts(first)
  }

  /** The name as text. */
  function TextOf(w: Wired, first: seq<seq<byte>>): string {
    if w.Whole? then Join(w.labels) else Dot(Join(w.labels), Join(first))
  }

  function Asked(qs: seq<Question>, first: seq<seq<byte>>): seq<seq<Part>> {
    if qs == [] then [] else Asked(qs[..|qs| - 1], first) + [PartsOf(qs[|qs| - 1].name, first)]
  }

  function AnswerOf(a: Reply, first: seq<seq<byte>>): Answer
    requires ReplyOk(a, first)
  {
    Answer(PartsOf(a.owner, first), TypeOf(a.data), a.ttl, |DataBytes(a.data, first)|,
           match a.data
           case Service(priority, weight, port, target) =>
             Some(Srv.Service(priority, weight, port, PartsOf(target, first)))
           case Other(_, _) => None)
  }

  function Answered(answers: seq<Reply>, first: seq<seq<byte>>): seq<Answer>
    requires RepliesOk(answers, first)
  {
    if answers == [] then [] else
    Answered(answers[..|answers| - 1], first) + [AnswerOf(answers[|answers| - 1], first)]
  }

  /** The SRV records that were written. */
  function Written(answers: seq<Reply>, first: seq<seq<byte>>): seq<Record> {
    if answers == [] then [] else
    var a := answers[|answers| - 1];
    Written(answers[..|answers| - 1], first) +
    match a.data
    case Service(priority, weight, port, target) => [Record(priority, weight, port, TextOf(target, first), a.ttl)]
    case Other(_, _) => []
  }

  // ----- reading -----

  lemma LiesBoth(msg: seq<byte>, pos: nat, a: seq<byte>, b: seq<byte>)
    requires LiesAt(msg, pos, a + b)
    ensures LiesAt(msg, pos, a) && LiesAt(msg, pos + |a|, b)
  {
    LiesFirst(msg, pos, a, b);
    LiesLast(msg, pos, a, b);
  }

  lemma TwoRead(msg: seq<byte>, pos: nat, n: nat)
    requires n < 0x1_0000 && LiesAt(msg, pos, Two(n))
    ensures pos + 2 <= |msg| && Word(msg, pos) == n && |Two(n)| == 2
  {
    var bytes := msg[pos..pos + 2];
    assert bytes[0] == msg[pos] && bytes[1] == msg[pos + 1];
  }

  lemma FourRead(msg: seq<byte>, pos: nat, n: nat)
    requires n < 0x1_0000_0000 && LiesAt(msg, pos, Four(n))
    ensures pos + 4 <= |msg| && LongWord(msg, pos) == n && |Four(n)| == 4
  {
    LiesBoth(msg, pos, Two(n / 0x1_0000), Two(n % 0x1_0000));
    TwoRead(msg, pos, n / 0x1_0000);
    TwoRead(msg, pos + 2, n % 0x1_0000);
  }

  /** A name is read where it was written. */
  lemma NameRead(msg: seq<byte>, pos: nat, w: Wired, first: seq<seq<byte>>)
    requires WiredOk(w, first) && LiesAt(msg, pos, NameBytes(w))
    requires w.Abridged? ==> NameAt(msg, AT_FIRST, Parts(first)) && NameText(Parts(first)) == Join(first)
    ensures NameAt(msg, pos, PartsOf(w, first)) && NameText(PartsOf(w, first)) == TextOf(w, first)
    ensures NameEnd(pos, PartsOf(w, first)) == pos + |NameBytes(w)|
  {
    hide NameAt, NameText, NameEnd, Wire, Join, Parts, Dot;
    var bytes := NameBytes(w);
    var before, after := msg[..pos], msg[pos + |bytes|..];
    assert msg == before + bytes + after;
    if w.Whole? {
      assert msg == before + Wire(w.labels) + [0] + after;
      PlainNameRoundTrip(before, w.labels, after);
      assert Parts(w.labels) + [] == Parts(w.labels);
    } else {
      assert msg == before + Wire(w.labels) + WirePointer(AT_FIRST) + after;
      PartsLength(first);
      CompressedNameRoundTrip(before, w.labels, AT_FIRST, after, Parts(first));
      assert Parts(w.labels) + [Pointer(AT_FIRST)] + Parts(first) == PartsOf(w, first);
    }
  }

  /** Where the first question's name is written out, pointers to it lead to it. */
  ghost predicate Anchored(msg: seq<byte>, first: seq<seq<byte>>) {
    NameAt(msg, AT_FIRST, Parts(first)) && NameText(Parts(first)) == Join(first)
  }

  lemma QuestionRead(msg: seq<byte>, pos: nat, q: Question, first: seq<seq<byte>>)
    requires QuestionOk(q, first) && LiesAt(msg, pos, QuestionBytes(q)) && (q.name.Abridged? ==> Anchored(msg, first))
    ensures NameAt(msg, pos, PartsOf(q.name, first))
    ensures NameEnd(pos, PartsOf(q.name, first)) + 4 == pos + |QuestionBytes(q)|
  {
    hide NameAt, NameText, NameEnd, PartsOf, NameBytes;
    LiesBoth(msg, pos, NameBytes(q.name), Two(q.qtype) + Two(q.qclass));
    NameRead(msg, pos, q.name, first);
  }

  lemma {:induction false} QuestionsRead(msg: seq<byte>, pos: nat, qs: seq<Question>, first: seq<seq<byte>>)
    requires QuestionsOk(qs, first) && LiesAt(msg, pos, QuestionsBytes(qs, first))
    requires Anchored(msg, first) || forall k | 0 <= k < |qs| :: qs[k].name.Whole?
    ensures var asked := Asked(qs, first);
      && |asked| == |qs| && QuestionsAt(msg, pos, asked, |asked|)
      && QuestionsEnd(pos, asked, |asked|) == pos + |QuestionsBytes(qs, first)|
  {
    hide NameAt, NameEnd, PartsOf, QuestionBytes, Anchored, LiesAt;
    if qs != [] {
      var front, last := qs[..|qs| - 1], qs[|qs| - 1];
      LiesBoth(msg, pos, QuestionsBytes(front, first), QuestionBytes(last));
      QuestionsRead(msg, pos, front, first);
      QuestionRead(msg, pos + |QuestionsBytes(front, first)|, last, first);
      QuestionsUnextended(msg, pos, Asked(front, first), PartsOf(last.name, first), |front|);
    }
  }

  lemma ServiceRead(msg: seq<byte>, pos: nat, d: Data, first: seq<seq<byte>>)
    requires d.Service? && DataOk(d, first) && LiesAt(msg, pos, DataBytes(d, first))
    requires d.target.Abridged? ==> Anchored(msg, first)
    ensures ServiceAt(msg, pos, Srv.Service(d.priority, d.weight, d.port, PartsOf(d.target, first)))
    ensures NameText(PartsOf(d.target, first)) == TextOf(d.target, first)
  {
    hide NameAt, NameText, NameEnd, PartsOf, NameBytes, TextOf, LiesAt, Two;
    var name := NameBytes(d.target);
    LiesBoth(msg, pos, Two(d.priority), Two(d.weight) + (Two(d.port) + name));
    TwoRead(msg, pos, d.priority);
    LiesBoth(msg, pos + 2, Two(d.weight), Two(d.port) + name);
    TwoRead(msg, pos + 2, d.weight);
    LiesBoth(msg, pos + 4, Two(d.port), name);
    TwoRead(msg, pos + 4, d.port);
    NameRead(msg, pos + 6, d.target, first);
  }

  lemma FixedRead(msg: seq<byte>, pos: nat, a: Reply, first: seq<seq<byte>>)
    requires ReplyOk(a, first) && TypeOf(a.data) < 0x1_0000 && LiesAt(msg, pos, Fixed(a, first))
    ensures |Fixed(a, first)| == 10 && pos + 10 <= |msg| && Word(msg, pos) == TypeOf(a.data)
    ensures LongWord(msg, pos + 4) == a.ttl && Word(msg, pos + 8) == |DataBytes(a.data, first)|
  {
    hide DataBytes, LiesAt, Two, Four, TypeOf, WiredOk, DataOk, Word, LongWord;
    var n := |DataBytes(a.data, first)|;
    LiesBoth(msg, pos, Two(TypeOf(a.data)), Two(a.qclass) + (Four(a.ttl) + Two(n)));
    TwoRead(msg, pos, TypeOf(a.data));
    LiesBoth(msg, pos + 2, Two(a.qclass), Four(a.ttl) + Two(n));
    TwoRead(msg, pos + 2, a.qclass);
    LiesBoth(msg, pos + 4, Four(a.ttl), Two(n));
    FourRead(msg, pos + 4, a.ttl);
    TwoRead(msg, pos + 8, n);
  }

  lemma ReplyRead(msg: seq<byte>, pos: nat, a: Reply, first: seq<seq<byte>>)
    requires ReplyOk(a, first) && LiesAt(msg, pos, ReplyBytes(a, first))
    requires Anchored(msg, first) || (a.owner.Whole? && (a.data.Service? ==> a.data.target.Whole?))
    ensures AnswerAt(msg, pos, AnswerOf(a, first))
    ensures AnswerEnd(pos, AnswerOf(a, first)) == pos + |ReplyBytes(a, first)|
    ensures RecordOf(AnswerOf(a, first)) == Written([a], first)
  {
    hide NameAt, NameText, NameEnd, PartsOf, NameBytes, TextOf, LiesAt, Fixed, DataBytes, ServiceAt, Word, LongWord;
    hide LabelsOk, Anchored;
    var name, fixed, data := NameBytes(a.owner), Fixed(a, first), DataBytes(a.data, first);
    LiesBoth(msg, pos, name, fixed + data);
    AnchoredFacts(msg, first);
    NameRead(msg, pos, a.owner, first);
    LiesBoth(msg, pos + |name|, fixed, data);
    FixedRead(msg, pos + |name|, a, first);
    if a.data.Service? { ServiceRead(msg, pos + |name| + 10, a.data, first); }
    assert [a][..0] == [];
    AnswerRead(msg, pos, AnswerOf(a, first));
  }

  lemma AnchoredFacts(msg: seq<byte>, first: seq<seq<byte>>)
    ensures Anchored(msg, first) ==> NameAt(msg, AT_FIRST, Parts(first)) && NameText(Parts(first)) == Join(first)
  {
    hide NameAt, NameText, Join;
  }

  lemma {:induction false} RepliesRead(msg: seq<byte>, pos: nat, answers: seq<Reply>, first: seq<seq<byte>>)
    requires RepliesOk(answers, first) && LiesAt(msg, pos, RepliesBytes(answers, first))
    requires Anchored(msg, first) || forall k | 0 <= k < |answers| ::
      answers[k].owner.Whole? && (answers[k].data.Service? ==> answers[k].data.target.Whole?)
    ensures var read := Answered(answers, first);
      && |read| == |answers| && AnswersAt(msg, pos, read, |read|)
      && AnswersEnd(pos, read, |read|) == pos + |RepliesBytes(answers, first)|
      && Records(read, |read|) == Written(answers, first)
  {
    hide AnswerAt, AnswerEnd, AnswerOf, RecordOf, ReplyBytes, ReplyOk, Anchored, LiesAt;
    if answers != [] {
      var front, last := answers[..|answers| - 1], answers[|answers| - 1];
      LiesBoth(msg, pos, RepliesBytes(front, first), ReplyBytes(last, first));
      RepliesRead(msg, pos, front, first);
      ReplyRead(msg, pos + |RepliesBytes(front, first)|, last, first);
      AnswersUnextended(msg, pos, Answered(front, first), AnswerOf(last, first), |front|);
      WrittenMore(front, last, first);
      assert answers == front + [last];
    }
  }

  lemma WrittenMore(front: seq<Reply>, last: Reply, first: seq<seq<byte>>)
    ensures Written(front + [last], first) == Written(front, first) + Written([last], first)
  {
    hide TextOf;
    assert (front + [last])[..|front|] == front && [last][..0] == [];
  }

  lemma HeaderRead(msg: seq<byte>, m: Message)
    requires MessageOk(m) && LiesAt(msg, 0, Header(m))
    ensures |Header(m)| == 12 <= |msg|
    ensures Word(msg, 2) == m.flags && Word(msg, 4) == |m.questions| && Word(msg, 6) == |m.answers|
  {
    hide Two, LiesAt, Word, QuestionsOk, RepliesOk, Unabridged;
    var last := Two(m.authority) + Two(m.additional);
    LiesBoth(msg, 0, Two(m.id), Two(m.flags) + (Two(|m.questions|) + (Two(|m.answers|) + last)));
    TwoRead(msg, 0, m.id);
    LiesBoth(msg, 2, Two(m.flags), Two(|m.questions|) + (Two(|m.answers|) + last));
    TwoRead(msg, 2, m.flags);
    LiesBoth(msg, 4, Two(|m.questions|), Two(|m.answers|) + last);
    TwoRead(msg, 4, |m.questions|);
    LiesBoth(msg, 6, Two(|m.answers|), last);
    TwoRead(msg, 6, |m.answers|);
    LiesBoth(msg, 8, Two(m.authority), Two(m.additional));
    TwoRead(msg, 8, m.authority);
    TwoRead(msg, 10, m.additional);
  }

  /** The first question's name begins behind the header. */
  lemma {:induction false} FirstLies(msg: seq<byte>, qs: seq<Question>, first: seq<seq<byte>>)
    requires QuestionsOk(qs, first) && qs != [] && LiesAt(msg, AT_FIRST, QuestionsBytes(qs, first))
    ensures LiesAt(msg, AT_FIRST, NameBytes(qs[0].name))
  {
    hide LiesAt, NameBytes;
    var front, last := qs[..|qs| - 1], qs[|qs| - 1];
    var before := QuestionsBytes(front, first);
    LiesBoth(msg, AT_FIRST, before, QuestionBytes(last));
    if front == [] {
      assert before + QuestionBytes(last) == QuestionBytes(last);
      LiesBoth(msg, AT_FIRST, NameBytes(last.name), Two(last.qtype) + Two(last.qclass));
    } else {
      FirstLies(msg, front, first);
    }
  }

  lemma FirstAnchors(msg: seq<byte>, m: Message)
    requires MessageOk(m) && m.questions != [] && m.questions[0].name.Whole?
    requires LiesAt(msg, AT_FIRST, QuestionsBytes(m.questions, FirstOf(m)))
    ensures Anchored(msg, FirstOf(m))
  {
    hide NameAt, NameText, NameEnd, QuestionsBytes, LiesAt, NameBytes, RepliesOk, Unabridged, Join;
    var first := FirstOf(m);
    FirstLies(msg, m.questions, first);
    assert QuestionOk(m.questions[0], first);
    NameRead(msg, AT_FIRST, m.questions[0].name, first);
    assert Parts(first) + [] == Parts(first);
  }

  /** Every response is laid out as it was written, and its records are those
      written. So the decoder, which is exact on what is laid out, returns exactly
      them. */
  lemma ResponseRoundTrip(m: Message)
    requires MessageOk(m)
    ensures var first := FirstOf(m);
      var answers := Answered(m.answers, first);
      && Response(MessageBytes(m), Asked(m.questions, first), answers)
      && Records(answers, |answers|) == Written(m.answers, first)
  {
    hide QuestionsBytes, RepliesBytes, LiesAt, Header, Word, QuestionsAt, QuestionsEnd, AnswersAt, Records, Written;
    hide Asked, Answered, Anchored, QuestionsOk, RepliesOk;
    var msg, first := MessageBytes(m), FirstOf(m);
    var qs, answers := QuestionsBytes(m.questions, first), RepliesBytes(m.answers, first);
    LiesWhole(msg);
    LiesBoth(msg, 0, Header(m), qs + (answers + m.rest));
    HeaderRead(msg, m);
    LiesBoth(msg, 12, qs, answers + m.rest);
    LiesBoth(msg, 12 + |qs|, answers, m.rest);
    if !Unabridged(m) { FirstAnchors(msg, m); }
    QuestionsRead(msg, 12, m.questions, first);
    RepliesRead(msg, 12 + |qs|, m.answers, first);
  }

  /** Writing a response and reading it. */
  method ParseWritten(m: Message) returns (r: Result<seq<Record>, DnsError>)
    requires MessageOk(m)
    ensures r == Ok(Written(m.answers, FirstOf(m)))
  {
    hide MessageOk, Response, Records, Written, Asked, Answered;
    ResponseRoundTrip(m);
    r := ParseResponse(MessageBytes(m));
  }

  lemma LiesWhole(msg: seq<byte>)
    ensures LiesAt(msg, 0, msg)
  {
  }
}
