/** What a client is told of one target and of a whole wave, as a function of
    the frames that arrived (src/relay/api.rs, Wave::stream). */
module Telling {
  import opened Wrappers
  import opened Proto

  datatype Planned = Planned(target: string, host: string, flakelet: string, rule: string, offline: bool)

  /** A frame and the index in the wave of the target it belongs to. */
  type Tagged = (nat, Frame)

  const REFUSED := "agent refused: "

  // ----- one target -----

  /** How a frame ends its target, if it does. */
  function Ending(f: Frame): Option<DoneBody> {
    match f
    case Done(_, body) => Some(body)
    case Ack(_, accepted, _) => if accepted then None else Some(FAILED)
    case _ => None
  }

  ghost predicate Ended(fs: seq<Frame>) {
    exists j :: 0 <= j < |fs| && Ending(fs[j]).Some?
  }

  /** The highest number of any line so far. */
  function Top(fs: seq<Frame>): nat {
    if fs == [] then 0 else
    var top, f := Top(fs[..|fs| - 1]), fs[|fs| - 1];
    if f.Log? && f.seqno > top then f.seqno else top
  }

  /** What one more frame of a target that has not ended is worth. */
  function Says(target: string, top: nat, f: Frame): seq<Event> {
    match f
    case Log(_, seqno, line) => if seqno > top then [Event.Log(target, seqno, line)] else []
    case Progress(_) => [Event.Progress(target)]
    case Done(_, body) => [Event.Done(target, body)]
    case Ack(_, accepted, reason) =>
      if accepted then [] else [Event.Log(target, 0, REFUSED + reason), Event.Done(target, FAILED)]
    case _ => []
  }

  ghost function Tell(target: string, fs: seq<Frame>): seq<Event> {
    if fs == [] then [] else
    var before := fs[..|fs| - 1];
    Tell(target, before) + if Ended(before) then [] else Says(target, Top(before), fs[|fs| - 1])
  }

  // ----- a wave -----

  /** The frames of one target, in order. */
  function Of(fs: seq<Tagged>, i: nat): seq<Frame> {
    if fs == [] then [] else
    var last := fs[|fs| - 1];
    Of(fs[..|fs| - 1], i) + if last.0 == i then [last.1] else []
  }

  predicate Indexed(fs: seq<Tagged>, n: nat) {
    forall j | 0 <= j < |fs| :: fs[j].0 < n
  }

  /** Whether a target has its result. */
  ghost predicate Over(finished: seq<bool>, fs: seq<Tagged>, i: nat)
    requires i < |finished|
  {
    finished[i] || Ended(Of(fs, i))
  }

  ghost predicate AllOver(finished: seq<bool>, fs: seq<Tagged>) {
    forall i | 0 <= i < |finished| :: Over(finished, fs, i)
  }

  ghost function Told(targets: seq<Planned>, finished: seq<bool>, fs: seq<Tagged>): seq<Event>
    requires |finished| == |targets| && Indexed(fs, |targets|)
  {
    if fs == [] then [] else
    var before, (i, f) := fs[..|fs| - 1], fs[|fs| - 1];
    Told(targets, finished, before)
    + if Over(finished, before, i) then [] else Says(targets[i].target, Top(Of(before, i)), f)
  }

  /** The results, in the order in which they came. */
  ghost function Statuses(targets: seq<Planned>, finished: seq<bool>, fs: seq<Tagged>): seq<TargetStatus>
    requires |finished| == |targets| && Indexed(fs, |targets|)
  {
    if fs == [] then [] else
    var before, (i, f) := fs[..|fs| - 1], fs[|fs| - 1];
    Statuses(targets, finished, before)
    + if !Over(finished, before, i) && Ending(f).Some?
      then [TargetStatus(targets[i].target, Ending(f).value.status)] else []
  }

  // ----- one frame more -----

  lemma EndedMore(fs: seq<Frame>, f: Frame)
    ensures Ended(fs + [f]) <==> Ended(fs) || Ending(f).Some?
  {
    var more := fs + [f];
    assert more[|fs|] == f;
    if Ended(fs) {
      var j :| 0 <= j < |fs| && Ending(fs[j]).Some?;
      assert more[j] == fs[j];
    }
  }

  lemma TellMore(target: string, fs: seq<Frame>, f: Frame)
    ensures Tell(target, fs + [f]) == Tell(target, fs) + if Ended(fs) then [] else Says(target, Top(fs), f)
    ensures Top(fs + [f]) == if f.Log? && f.seqno > Top(fs) then f.seqno else Top(fs)
  {
    assert (fs + [f])[..|fs|] == fs;
  }

  lemma OfMore(fs: seq<Tagged>, x: Tagged, i: nat)
    ensures Of(fs + [x], i) == Of(fs, i) + if x.0 == i then [x.1] else []
  {
    assert (fs + [x])[..|fs|] == fs;
  }

  lemma OverMore(finished: seq<bool>, fs: seq<Tagged>, x: Tagged, i: nat)
    requires i < |finished|
    ensures Over(finished, fs + [x], i) <==> Over(finished, fs, i) || (x.0 == i && Ending(x.1).Some?)
  {
    hide Ending, Ended;
    OfMore(fs, x, i);
    EndedMore(Of(fs, i), x.1);
    assert Of(fs, i) + [] == Of(fs, i);
  }

  lemma ToldMore(targets: seq<Planned>, finished: seq<bool>, fs: seq<Tagged>, x: Tagged)
    requires |finished| == |targets| && Indexed(fs, |targets|) && x.0 < |targets|
    ensures Indexed(fs + [x], |targets|)
    ensures Told(targets, finished, fs + [x]) == Told(targets, finished, fs)
      + if Over(finished, fs, x.0) then [] else Says(targets[x.0].target, Top(Of(fs, x.0)), x.1)
    ensures Statuses(targets, finished, fs + [x]) == Statuses(targets, finished, fs)
      + if !Over(finished, fs, x.0) && Ending(x.1).Some?
        then [TargetStatus(targets[x.0].target, Ending(x.1).value.status)] else []
  {
    hide Says, Top, Ending, Over, Of;
    assert (fs + [x])[..|fs|] == fs;
  }

  // ----- what a client is told of one target -----

  predicate About(e: Event, target: string) {
    match e
    case Log(t, _, _) => t == target
    case Progress(t) => t == target
    case Done(t, _) => t == target
    case _ => false
  }

  /** Lines come in order and once each, and nothing follows the result. A line
      numbered zero, a refusal, is only ever followed by the result. */
  ghost predicate Tidy(es: seq<Event>) {
    && (forall a | 0 <= a < |es| - 1 :: !es[a].Done?)
    && (forall a, b | 0 <= a < b < |es| && es[a].Log? && es[b].Log? :: es[a].seqno < es[b].seqno || es[b].seqno == 0)
    && (forall a | 0 <= a < |es| && es[a].Log? && es[a].seqno == 0 :: a == |es| - 2 && es[|es| - 1].Done?)
  }

  ghost predicate UpTo(es: seq<Event>, target: string, top: nat, ended: bool) {
    && (forall e | e in es :: About(e, target) && (e.Log? ==> e.seqno <= top))
    && (if ended then es != [] && es[|es| - 1].Done?
        else forall e | e in es :: !e.Done? && (e.Log? ==> e.seqno > 0))
  }

  /** Every event of a target that has not ended, by its place. */
  lemma Open(es: seq<Event>, target: string, top: nat)
    requires UpTo(es, target, top, false)
    ensures forall k | 0 <= k < |es| :: About(es[k], target) && !es[k].Done? && (es[k].Log? ==> 0 < es[k].seqno <= top)
  {
    forall k | 0 <= k < |es| ensures About(es[k], target) && !es[k].Done? && (es[k].Log? ==> 0 < es[k].seqno <= top) {
      assert es[k] in es;
    }
  }

  lemma OneEventFits(es: seq<Event>, target: string, top: nat, e: Event, top': nat)
    requires Tidy(es) && UpTo(es, target, top, false) && About(e, target) && top <= top'
    requires e.Log? ==> top < e.seqno <= top'
    ensures Tidy(es + [e]) && UpTo(es + [e], target, top', e.Done?)
  {
    Open(es, target, top);
    hide About;
  }

  lemma RefusalFits(es: seq<Event>, target: string, top: nat, line: string, body: DoneBody)
    requires Tidy(es) && UpTo(es, target, top, false)
    ensures var more := es + [Event.Log(target, 0, line), Event.Done(target, body)];
      Tidy(more) && UpTo(more, target, top, true)
  {
    Open(es, target, top);
    var more := es + [Event.Log(target, 0, line), Event.Done(target, body)];
    assert forall k | 0 <= k < |es| :: more[k] == es[k];
  }

  lemma SaysFits(es: seq<Event>, target: string, top: nat, f: Frame)
    requires Tidy(es) && UpTo(es, target, top, false)
    ensures var more := es + Says(target, top, f);
      && Tidy(more)
      && UpTo(more, target, if f.Log? && f.seqno > top then f.seqno else top, Ending(f).Some?)
  {
    hide Tidy, UpTo;
    match f {
      case Log(_, seqno, line) =>
        if seqno > top { OneEventFits(es, target, top, Event.Log(target, seqno, line), seqno); }
      case Progress(_) => OneEventFits(es, target, top, Event.Progress(target), top);
      case Done(_, body) => OneEventFits(es, target, top, Event.Done(target, body), top);
      case Ack(_, accepted, reason) =>
        if !accepted { RefusalFits(es, target, top, REFUSED + reason, FAILED); }
      case _ =>
    }
    assert es + [] == es;
  }

  /** Whatever a connection sends for a target, repeated, out of order or after
      the end, the client sees lines in order, once, and at most one result,
      which comes last. */
  lemma {:induction false} TellIsTidy(target: string, fs: seq<Frame>)
    ensures Tidy(Tell(target, fs)) && UpTo(Tell(target, fs), target, Top(fs), Ended(fs))
  {
    if fs != [] {
      var before, f := fs[..|fs| - 1], fs[|fs| - 1];
      assert fs == before + [f];
      TellIsTidy(target, before);
      TellMore(target, before, f);
      EndedMore(before, f);
      hide Tidy, Ended, Says, Tell, Top, Ending;
      if !Ended(before) {
        hide UpTo;
        SaysFits(Tell(target, before), target, Top(before), f);
      } else {
        assert Tell(target, fs) == Tell(target, before);
      }
    }
  }

  // ----- the result that is told -----

  /** The first frame that brings a target's result: the agent's own, or its
      refusal. */
  ghost predicate Closes(fs: seq<Frame>, j: nat) {
    && j < |fs| && (fs[j].Done? || (fs[j].Ack? && !fs[j].accepted))
    && forall i | 0 <= i < j :: !fs[i].Done? && !(fs[i].Ack? && !fs[i].accepted)
  }

  /** What the result frame makes of a target: the body the agent reported, or a
      failure. */
  ghost predicate ResultIs(f: Frame, body: DoneBody) {
    if f.Done? then body == f.body else body == DoneBody(Status.Failed, None, None, [])
  }

  lemma EndingIs(f: Frame)
    ensures Ending(f).Some? <==> f.Done? || (f.Ack? && !f.accepted)
    ensures Ending(f).Some? ==> ResultIs(f, Ending(f).value)
  {
  }

  lemma NotClosed(fs: seq<Frame>, j: nat)
    requires Closes(fs, j)
    ensures !Ended(fs[..j])
  {
    forall i | 0 <= i < j ensures Ending(fs[..j][i]).None? {
      EndingIs(fs[i]);
    }
  }

  /** What the client is told last of a target is the first result that arrived,
      the body just as the agent reported it. A refusal is told as a line numbered
      zero with the agent's reason and a failure. */
  lemma {:induction false} TellsResult(target: string, fs: seq<Frame>, j: nat)
    requires Closes(fs, j)
    ensures var told := Tell(target, fs);
      && told != [] && told[|told| - 1].Done? && told[|told| - 1].target == target
      && ResultIs(fs[j], told[|told| - 1].body)
      && (fs[j].Ack? ==> |told| > 1 && told[|told| - 2] == Event.Log(target, 0, "agent refused: " + fs[j].reason))
      && told[..|told| - (if fs[j].Ack? then 2 else 1)] == Tell(target, fs[..j])
    decreases |fs|
  {
    var before, f := fs[..|fs| - 1], fs[|fs| - 1];
    assert fs == before + [f];
    TellMore(target, before, f);
    if j == |before| {
      NotClosed(fs, j);
      assert before == fs[..j];
    } else {
      assert before[..j] == fs[..j];
      TellsResult(target, before, j);
      EndingIs(fs[j]);
      assert Ending(before[j]).Some?;
      assert Tell(target, before) + [] == Tell(target, before);
    }
  }

  /** Until a result arrives, none is told, and the client is told of every sign of
      life. */
  lemma {:induction false} TellsOpen(target: string, fs: seq<Frame>)
    requires forall i | 0 <= i < |fs| :: !fs[i].Done? && !(fs[i].Ack? && !fs[i].accepted)
    ensures !Ended(fs) && forall e | e in Tell(target, fs) :: !e.Done? && (e.Log? || e == Event.Progress(target))
    ensures SignsOfLife(Tell(target, fs)) == Count(fs)
  {
    if fs != [] {
      var before, f := fs[..|fs| - 1], fs[|fs| - 1];
      assert fs == before + [f];
      TellsOpen(target, before);
      TellMore(target, before, f);
      EndedMore(before, f);
      var told := Tell(target, before);
      assert told + [] == told;
      if f.Progress? { assert (told + [Event.Progress(target)])[..|told|] == told; }
      if f.Log? && f.seqno > Top(before) {
        assert (told + [Event.Log(target, f.seqno, f.line)])[..|told|] == told;
      }
    }
  }

  function SignsOfLife(es: seq<Event>): nat {
    if es == [] then 0 else SignsOfLife(es[..|es| - 1]) + if es[|es| - 1].Progress? then 1 else 0
  }

  function Count(fs: seq<Frame>): nat {
    if fs == [] then 0 else Count(fs[..|fs| - 1]) + if fs[|fs| - 1].Progress? then 1 else 0
  }

  /** The status of a target is that of the first result that arrived for it. */
  lemma {:induction false} StatusIsReported(targets: seq<Planned>, finished: seq<bool>, fs: seq<Tagged>, i: nat, j: nat)
    requires |finished| == |targets| && Indexed(fs, |targets|) && i < |targets| && !finished[i]
    requires Closes(Of(fs, i), j)
    ensures exists s | s in Statuses(targets, finished, fs) ::
      && s.target == targets[i].target
      && s.status == if Of(fs, i)[j].Done? then Of(fs, i)[j].body.status else Status.Failed
  {
    var before, x := fs[..|fs| - 1], fs[|fs| - 1];
    assert fs == before + [x];
    OfMore(before, x, i);
    ToldMore(targets, finished, before, x);
    hide Of, Statuses;
    var own := Of(before, i);
    assert own + [] == own;
    assert own <= Of(fs, i);
    if j < |own| {
      assert forall k | 0 <= k < |own| :: own[k] == Of(fs, i)[k];
      assert Closes(own, j);
      StatusIsReported(targets, finished, before, i, j);
    } else {
      assert x.0 == i && j == |own| && Of(fs, i)[j] == x.1;
      NotClosed(Of(fs, i), j);
      assert Of(fs, i)[..j] == own;
      EndingIs(x.1);
      assert !Over(finished, before, i);
      var s := TargetStatus(targets[i].target, Ending(x.1).value.status);
      assert Statuses(targets, finished, fs) == Statuses(targets, finished, before) + [s];
      assert s in Statuses(targets, finished, fs);
    }
  }

  /** And every status is that of some target, and was reported so. */
  lemma {:induction false} StatusWasReported(targets: seq<Planned>, finished: seq<bool>, fs: seq<Tagged>,
                                             s: TargetStatus)
    returns (i: nat, j: nat)
    requires |finished| == |targets| && Indexed(fs, |targets|) && s in Statuses(targets, finished, fs)
    ensures i < |targets| && !finished[i] && s.target == targets[i].target && Closes(Of(fs, i), j)
    ensures s.status == if Of(fs, i)[j].Done? then Of(fs, i)[j].body.status else Status.Failed
  {
    var before, x := fs[..|fs| - 1], fs[|fs| - 1];
    assert fs == before + [x];
    ToldMore(targets, finished, before, x);
    if s in Statuses(targets, finished, before) {
      i, j := StatusWasReported(targets, finished, before, s);
      OfMore(before, x, i);
      ClosesMore(Of(before, i), Of(fs, i), j);
    } else {
      i := x.0;
      OfMore(before, x, i);
      j := |Of(before, i)|;
      EndingIs(x.1);
      OpenBefore(Of(before, i), x.1);
    }
  }

  lemma ClosesMore(fs: seq<Frame>, more: seq<Frame>, j: nat)
    requires Closes(fs, j) && fs <= more
    ensures Closes(more, j) && more[j] == fs[j]
  {
  }

  lemma OpenBefore(fs: seq<Frame>, f: Frame)
    requires !Ended(fs) && Ending(f).Some?
    ensures Closes(fs + [f], |fs|)
  {
    EndingIs(f);
    forall i | 0 <= i < |fs| ensures !fs[i].Done? && !(fs[i].Ack? && !fs[i].accepted) {
      EndingIs(fs[i]);
    }
  }

  // ----- waves are told target by target -----

  function OfTarget(es: seq<Event>, target: string): seq<Event> {
    if es == [] then [] else
    OfTarget(es[..|es| - 1], target) + if About(es[|es| - 1], target) then [es[|es| - 1]] else []
  }

  lemma {:induction false} OfTargetJoined(es: seq<Event>, more: seq<Event>, target: string)
    ensures OfTarget(es + more, target) == OfTarget(es, target) + OfTarget(more, target)
  {
    hide About;
    if more == [] {
      assert es + more == es;
    } else {
      var front, last := more[..|more| - 1], more[|more| - 1];
      OfTargetJoined(es, front, target);
      assert (es + more)[..|es + more| - 1] == es + front;
    }
  }

  lemma {:induction false} OfTargetAll(es: seq<Event>, target: string, other: string)
    requires forall e | e in es :: About(e, target)
    ensures OfTarget(es, other) == if other == target then es else []
  {
    if es != [] {
      var front := es[..|es| - 1];
      assert es == front + [es[|es| - 1]];
      assert es[|es| - 1] in es;
      OfTargetAll(front, target, other);
    }
  }

  ghost predicate Distinct(targets: seq<Planned>) {
    forall i, j | 0 <= i < j < |targets| :: targets[i].target != targets[j].target
  }

  /** However the frames of the targets are interleaved, the client is told of
      each target exactly what its own frames say. */
  lemma {:induction false} ToldSeparately(targets: seq<Planned>, finished: seq<bool>, fs: seq<Tagged>, i: nat)
    requires |finished| == |targets| && Indexed(fs, |targets|) && Distinct(targets) && i < |targets|
    ensures OfTarget(Told(targets, finished, fs), targets[i].target)
         == if finished[i] then [] else Tell(targets[i].target, Of(fs, i))
  {
    hide Says, Top, Ended, Tell, Distinct;
    if fs == [] {
      assert Tell(targets[i].target, []) == [] by { TellNothing(targets[i].target); }
    } else {
      var before, x := fs[..|fs| - 1], fs[|fs| - 1];
      assert fs == before + [x];
      ToldSeparately(targets, finished, before, i);
      ToldMore(targets, finished, before, x);
      OfMore(before, x, i);
      TellMore(targets[i].target, Of(before, i), x.1);
      hide Told, Of, OfTarget;
      var told := Told(targets, finished, before);
      if Over(finished, before, x.0) {
        assert told + [] == told;
      } else {
        var says := Says(targets[x.0].target, Top(Of(before, x.0)), x.1);
        OfTargetJoined(told, says, targets[i].target);
        SaysAbout(targets[x.0].target, Top(Of(before, x.0)), x.1);
        OfTargetAll(says, targets[x.0].target, targets[i].target);
        DistinctNames(targets, x.0, i);
      }
      assert x.0 != i ==> Of(fs, i) == Of(before, i);
    }
  }

  lemma TellNothing(target: string)
    ensures Tell(target, []) == []
  {
  }

  lemma DistinctNames(targets: seq<Planned>, i: nat, j: nat)
    requires Distinct(targets) && i < |targets| && j < |targets|
    ensures targets[i].target == targets[j].target ==> i == j
  {
  }

  lemma SaysAbout(target: string, top: nat, f: Frame)
    ensures forall e | e in Says(target, top, f) :: About(e, target)
  {
  }

  // ----- one result each -----

  function Names(statuses: seq<TargetStatus>): seq<string> {
    seq(|statuses|, k requires 0 <= k < |statuses| => statuses[k].target)
  }

  /** The results a client can read off the events it was sent. */
  function Results(es: seq<Event>): seq<TargetStatus> {
    if es == [] then [] else
    var e := es[|es| - 1];
    Results(es[..|es| - 1]) + if e.Done? then [TargetStatus(e.target, e.body.status)] else []
  }

  lemma {:induction false} ResultsJoined(es: seq<Event>, more: seq<Event>)
    ensures Results(es + more) == Results(es) + Results(more)
  {
    if more == [] {
      assert es + more == es;
    } else {
      var front := more[..|more| - 1];
      ResultsJoined(es, front);
      assert (es + more)[..|es + more| - 1] == es + front;
    }
  }

  lemma SaysResult(target: string, top: nat, f: Frame)
    ensures Results(Says(target, top, f)) ==
      if Ending(f).Some? then [TargetStatus(target, Ending(f).value.status)] else []
  {
    match f {
      case Ack(_, accepted, reason) =>
        if !accepted { ResultsJoined([Event.Log(target, 0, REFUSED + reason)], [Event.Done(target, FAILED)]); }
      case _ =>
    }
  }

  /** The statuses a wave returns are those of the results it sent. */
  lemma {:induction false} StatusesAreResults(targets: seq<Planned>, finished: seq<bool>, fs: seq<Tagged>)
    requires |finished| == |targets| && Indexed(fs, |targets|)
    ensures Statuses(targets, finished, fs) == Results(Told(targets, finished, fs))
  {
    hide Says, Ending, Over, Top, Of;
    if fs != [] {
      var before, i, f := fs[..|fs| - 1], fs[|fs| - 1].0, fs[|fs| - 1].1;
      StatusesAreResults(targets, finished, before);
      SaysResult(targets[i].target, Top(Of(before, i)), f);
      ResultsJoined(Told(targets, finished, before), Says(targets[i].target, Top(Of(before, i)), f));
      assert Told(targets, finished, before) + [] == Told(targets, finished, before);
    }
  }

  /** The first n targets that have no result yet. */
  ghost function Left(targets: seq<Planned>, finished: seq<bool>, fs: seq<Tagged>, n: nat): multiset<string>
    requires |finished| == |targets| && n <= |targets|
  {
    if n == 0 then multiset{} else
    Left(targets, finished, fs, n - 1) +
    if Over(finished, fs, n - 1) then multiset{} else multiset{targets[n - 1].target}
  }

  lemma {:induction false} LeftMore(targets: seq<Planned>, finished: seq<bool>, fs: seq<Tagged>, x: Tagged, n: nat)
    requires |finished| == |targets| && n <= |targets| && x.0 < |targets|
    ensures Left(targets, finished, fs, n) == Left(targets, finished, fs + [x], n) +
      if x.0 < n && !Over(finished, fs, x.0) && Ending(x.1).Some? then multiset{targets[x.0].target} else multiset{}
  {
    hide Over, Ending;
    if n > 0 {
      LeftMore(targets, finished, fs, x, n - 1);
      OverMore(finished, fs, x, n - 1);
    }
  }

  lemma NamesMore(statuses: seq<TargetStatus>, more: seq<TargetStatus>)
    ensures multiset(Names(statuses + more)) == multiset(Names(statuses)) + multiset(Names(more))
  {
    assert Names(statuses + more) == Names(statuses) + Names(more);
  }

  /** Nothing is lost: the targets with a result and those still to come are
      those the wave began with, each once. */
  lemma {:induction false} OneResultEach(targets: seq<Planned>, finished: seq<bool>, fs: seq<Tagged>)
    requires |finished| == |targets| && Indexed(fs, |targets|)
    ensures multiset(Names(Statuses(targets, finished, fs))) + Left(targets, finished, fs, |targets|)
         == Left(targets, finished, [], |targets|)
  {
    hide Over, Ending, Left, Names;
    if fs == [] {
      NoNames();
    } else {
      var before, x := fs[..|fs| - 1], fs[|fs| - 1];
      assert fs == before + [x];
      OneResultEach(targets, finished, before);
      LeftMore(targets, finished, before, x, |targets|);
      if !Over(finished, before, x.0) && Ending(x.1).Some? {
        var s := TargetStatus(targets[x.0].target, Ending(x.1).value.status);
        NamesMore(Statuses(targets, finished, before), [s]);
        OneName(s);
      } else {
        assert Statuses(targets, finished, fs) == Statuses(targets, finished, before);
      }
    }
  }

  lemma NoNames()
    ensures Names([]) == []
  {
  }

  lemma OneName(s: TargetStatus)
    ensures Names([s]) == [s.target]
  {
  }

  lemma {:induction false} NothingLeft(targets: seq<Planned>, finished: seq<bool>, fs: seq<Tagged>, n: nat)
    requires |finished| == |targets| && n <= |targets|
    requires forall i | 0 <= i < n :: Over(finished, fs, i)
    ensures Left(targets, finished, fs, n) == multiset{}
  {
    if n > 0 { NothingLeft(targets, finished, fs, n - 1); }
  }

  function TargetNames(targets: seq<Planned>): seq<string> {
    if targets == [] then [] else TargetNames(targets[..|targets| - 1]) + [targets[|targets| - 1].target]
  }

  lemma NothingEnded(i: nat)
    ensures !Ended(Of([], i))
  {
  }

  lemma {:induction false} AllLeft(targets: seq<Planned>, finished: seq<bool>, n: nat)
    requires |finished| == |targets| && n <= |targets| && forall i | 0 <= i < |targets| :: !finished[i]
    ensures Left(targets, finished, [], n) == multiset(TargetNames(targets[..n]))
  {
    if n > 0 {
      AllLeft(targets, finished, n - 1);
      assert targets[..n][..n - 1] == targets[..n - 1];
      NothingEnded(n - 1);
      hide Ended, Of;
    }
  }

  /** A wave that began with every target open and ended has one result for
      each of them. */
  lemma EveryTargetOnce(targets: seq<Planned>, finished: seq<bool>, fs: seq<Tagged>)
    requires |finished| == |targets| && Indexed(fs, |targets|) && forall i | 0 <= i < |targets| :: !finished[i]
    requires AllOver(finished, fs)
    ensures multiset(Names(Statuses(targets, finished, fs))) == multiset(TargetNames(targets))
  {
    OneResultEach(targets, finished, fs);
    NothingLeft(targets, finished, fs, |targets|);
    AllLeft(targets, finished, |targets|);
    assert targets[..|targets|] == targets;
  }

  /** Once every target has its result, further frames say nothing. */
  lemma {:induction false} NothingFollows(targets: seq<Planned>, finished: seq<bool>, fs: seq<Tagged>,
                                          more: seq<Tagged>)
    requires |finished| == |targets| && Indexed(fs, |targets|) && Indexed(more, |targets|) && AllOver(finished, fs)
    ensures Indexed(fs + more, |targets|) && AllOver(finished, fs + more)
    ensures Told(targets, finished, fs + more) == Told(targets, finished, fs)
    ensures Statuses(targets, finished, fs + more) == Statuses(targets, finished, fs)
  {
    hide Ended, Ending, Says, Top, Of;
    if more == [] {
      assert fs + more == fs;
    } else {
      var front, x := more[..|more| - 1], more[|more| - 1];
      NothingFollows(targets, finished, fs, front);
      assert fs + more == (fs + front) + [x];
      ToldMore(targets, finished, fs + front, x);
      forall i | 0 <= i < |finished| ensures Over(finished, fs + more, i) {
        OverMore(finished, fs + front, x, i);
      }
    }
  }

  // ----- probing -----

  /** Frames that only answer a query. */
  predicate Answers(f: Frame) {
    f.Error? || (f.Ack? && f.accepted)
  }

  /** What probing leaves for the stream. */
  function Rest(fs: seq<Tagged>): seq<Tagged> {
    if fs == [] then [] else Rest(fs[..|fs| - 1]) + if Answers(fs[|fs| - 1].1) then [] else [fs[|fs| - 1]]
  }

  lemma RestMore(fs: seq<Tagged>, x: Tagged)
    ensures Rest(fs + [x]) == Rest(fs) + if Answers(x.1) then [] else [x]
  {
    assert (fs + [x])[..|fs|] == fs;
  }

  /** What is known of a target from the answers so far. */
  function Known(fs: seq<Tagged>, i: nat): Option<bool> {
    if fs == [] then None else
    var known, x := Known(fs[..|fs| - 1], i), fs[|fs| - 1];
    if x.0 != i then known
    else if x.1.Error? then Some(false)
    else if Answers(x.1) || known.None? then Some(true)
    else known
  }

  lemma KnownMore(fs: seq<Tagged>, x: Tagged, i: nat)
    ensures Known(fs + [x], i) ==
      if x.0 != i then Known(fs, i)
      else if x.1.Error? then Some(false)
      else if Answers(x.1) || Known(fs, i).None? then Some(true)
      else Known(fs, i)
  {
    assert (fs + [x])[..|fs|] == fs;
  }

  /** The last answer to a query among a target's frames. */
  function LastAnswer(own: seq<Frame>): Option<Frame> {
    if own == [] then None
    else if Answers(own[|own| - 1]) then Some(own[|own| - 1])
    else LastAnswer(own[..|own| - 1])
  }

  /** Whether a target's frames vouch for it: there are some, and the last answer
      among them, if there is one, is not an error. */
  predicate Vouched(own: seq<Frame>) {
    own != [] && match LastAnswer(own) case None => true case Some(f) => !f.Error?
  }

  lemma LastAnswerMore(own: seq<Frame>, f: Frame)
    ensures LastAnswer(own + [f]) == if Answers(f) then Some(f) else LastAnswer(own)
  {
    assert (own + [f])[..|own|] == own;
  }

  /** A target's own frames decide: its last answer counts, and without any
      answer any other frame vouches for it. */
  lemma {:induction false} KnownByLastAnswer(fs: seq<Tagged>, i: nat)
    ensures Known(fs, i) == if Of(fs, i) == [] then None else Some(Vouched(Of(fs, i)))
  {
    if fs != [] {
      var before, x := fs[..|fs| - 1], fs[|fs| - 1];
      assert fs == before + [x];
      KnownByLastAnswer(before, i);
      OfMore(before, x, i);
      KnownMore(before, x, i);
      LastAnswerMore(Of(before, i), x.1);
      hide Known, Of, LastAnswer;
      if x.0 != i {
        assert Of(fs, i) == Of(before, i);
      } else if Of(before, i) == [] {
        assert LastAnswer([]) == None by { NoAnswer(); }
      }
    }
  }

  /** In terms of the frames themselves: something arrived, and every error is
      followed by an acceptance. */
  lemma {:induction false} VouchedIff(own: seq<Frame>)
    ensures Vouched(own) <==> own != [] && forall j | 0 <= j < |own| && own[j].Error? ::
      exists k | j < k < |own| :: own[k].Ack? && own[k].accepted
  {
    LastAnswerIff(own);
  }

  lemma {:induction false} LastAnswerIff(own: seq<Frame>)
    ensures (LastAnswer(own) == None || !LastAnswer(own).value.Error?) <==>
      forall j | 0 <= j < |own| && own[j].Error? :: exists k | j < k < |own| :: own[k].Ack? && own[k].accepted
  {
    if own != [] {
      var front, n := own[..|own| - 1], |own| - 1;
      LastAnswerIff(front);
      assert forall k | 0 <= k < n :: front[k] == own[k];
      if own[n].Ack? && own[n].accepted {
        assert forall j | 0 <= j < |own| && own[j].Error? :: j < n;
      } else if !own[n].Error? {
        forall j | 0 <= j < n && own[j].Error?
          ensures (exists k | j < k < |own| :: own[k].Ack? && own[k].accepted)
             <==> exists k | j < k < n :: front[k].Ack? && front[k].accepted
        {
        }
      }
    }
  }

  lemma NoAnswer()
    ensures LastAnswer([]) == None
  {
  }

  /** The same lines, results and highest numbers. */
  ghost predicate Alike(targets: seq<Planned>, finished: seq<bool>, a: seq<Tagged>, b: seq<Tagged>)
    requires |finished| == |targets|
  {
    && Indexed(a, |targets|) && Indexed(b, |targets|)
    && Told(targets, finished, a) == Told(targets, finished, b)
    && Statuses(targets, finished, a) == Statuses(targets, finished, b)
    && (forall i | 0 <= i < |targets| :: Over(finished, a, i) == Over(finished, b, i))
    && (forall i | 0 <= i < |targets| :: Top(Of(a, i)) == Top(Of(b, i)))
  }

  lemma AlikeMore(targets: seq<Planned>, finished: seq<bool>, a: seq<Tagged>, b: seq<Tagged>, x: Tagged)
    requires |finished| == |targets| && Alike(targets, finished, a, b) && x.0 < |targets|
    ensures Alike(targets, finished, a + [x], b + [x])
  {
    hide Told, Statuses, Says, Ending, Over, Top, Of;
    ToldMore(targets, finished, a, x);
    ToldMore(targets, finished, b, x);
    forall i | 0 <= i < |targets|
      ensures Over(finished, a + [x], i) == Over(finished, b + [x], i) && Top(Of(a + [x], i)) == Top(Of(b + [x], i))
    {
      OverMore(finished, a, x, i);
      OverMore(finished, b, x, i);
      TopMore(a, x, i);
      TopMore(b, x, i);
    }
  }

  lemma TopMore(fs: seq<Tagged>, x: Tagged, i: nat)
    ensures Top(Of(fs + [x], i)) ==
      if x.0 == i && x.1.Log? && x.1.seqno > Top(Of(fs, i)) then x.1.seqno else Top(Of(fs, i))
  {
    OfMore(fs, x, i);
    TellMore("", Of(fs, i), x.1);
    assert Of(fs, i) + [] == Of(fs, i);
  }

  lemma AnswerSaysNothing(targets: seq<Planned>, finished: seq<bool>, a: seq<Tagged>, b: seq<Tagged>, x: Tagged)
    requires |finished| == |targets| && Alike(targets, finished, a, b) && x.0 < |targets| && Answers(x.1)
    ensures Alike(targets, finished, a, b + [x])
  {
    hide Told, Statuses, Over, Top, Of;
    ToldMore(targets, finished, b, x);
    forall i | 0 <= i < |targets|
      ensures Over(finished, a, i) == Over(finished, b + [x], i) && Top(Of(a, i)) == Top(Of(b + [x], i))
    {
      OverMore(finished, b, x, i);
      TopMore(b, x, i);
    }
  }

  lemma {:induction false} RestIsAlike(targets: seq<Planned>, finished: seq<bool>, fs: seq<Tagged>)
    requires |finished| == |targets| && Indexed(fs, |targets|)
    ensures Alike(targets, finished, Rest(fs), fs)
  {
    hide Alike, Answers;
    if fs == [] {
      assert Alike(targets, finished, [], []) by { AlikeSelf(targets, finished, []); }
    } else {
      var before, x := fs[..|fs| - 1], fs[|fs| - 1];
      assert fs == before + [x];
      RestIsAlike(targets, finished, before);
      RestMore(before, x);
      if Answers(x.1) {
        AnswerSaysNothing(targets, finished, Rest(before), before, x);
        assert Rest(before) + [] == Rest(before);
      } else {
        AlikeMore(targets, finished, Rest(before), before, x);
      }
    }
  }

  lemma AlikeSelf(targets: seq<Planned>, finished: seq<bool>, fs: seq<Tagged>)
    requires |finished| == |targets| && Indexed(fs, |targets|)
    ensures Alike(targets, finished, fs, fs)
  {
  }

  /** Probing first and streaming what it left, with what came after, is the
      same as streaming all of it. */
  lemma {:induction false} ProbeThenStream(targets: seq<Planned>, finished: seq<bool>, probed: seq<Tagged>,
                                           later: seq<Tagged>)
    requires |finished| == |targets| && Indexed(probed, |targets|) && Indexed(later, |targets|)
    ensures Alike(targets, finished, Rest(probed) + later, probed + later)
  {
    hide Alike;
    if later == [] {
      RestIsAlike(targets, finished, probed);
      assert Rest(probed) + later == Rest(probed) && probed + later == probed;
    } else {
      var front, x := later[..|later| - 1], later[|later| - 1];
      ProbeThenStream(targets, finished, probed, front);
      AlikeMore(targets, finished, Rest(probed) + front, probed + front, x);
      assert Rest(probed) + later == (Rest(probed) + front) + [x];
      assert probed + later == (probed + front) + [x];
    }
  }
}
