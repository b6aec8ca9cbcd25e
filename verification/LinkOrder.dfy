/** When every connection carries its replay before any live frame, nothing is
    missing: the client sees the unit's whole log, then the result. */
module LinkOrder {
  import opened Wrappers
  import opened Proto
  import opened JobTable
  import opened Telling
  import opened Links
  import Inv = JobInvariants

  /** The assumption: live frames are written only once a replay was, and the
      relay neither drops nor is refused anything for this target. */
  predicate Orderly(l: Link, s: Move) {
    match s
    case Pump(c) => c in l.conns && l.conns[c].replayed
    case Refuse(_, _) => false
    case Ignore(_) => false
    case _ => true
  }

  ghost predicate LeadsOrderly(u: Unit, from: Link, steps: seq<Move>, to: Link)
    decreases |steps|
  {
    if steps == [] then from == to
    else CanMove(u, from, steps[0]) && Orderly(from, steps[0]) &&
         LeadsOrderly(u, Moved(u, from, steps[0]), steps[1..], to)
  }

  // ----- climbing streams -----

  /** A frame may come next after line `top`: no line is skipped, and the result
      comes after all `n` lines. */
  predicate Fits(n: nat, top: nat, f: Frame) {
    && (f.Log? ==> f.seqno <= top + 1)
    && (f.Done? ==> top >= n)
    && !(f.Ack? && !f.accepted)
  }

  function Reach(top: nat, fs: seq<Frame>): nat
    decreases |fs|
  {
    if fs == [] then top else Reach(Raise(top, fs[0]), fs[1..])
  }

  predicate Climb(n: nat, top: nat, fs: seq<Frame>)
    decreases |fs|
  {
    fs == [] || (Fits(n, top, fs[0]) && Climb(n, Raise(top, fs[0]), fs[1..]))
  }

  lemma {:induction false} ClimbJoin(n: nat, top: nat, a: seq<Frame>, b: seq<Frame>)
    ensures Climb(n, top, a + b) <==> Climb(n, top, a) && Climb(n, Reach(top, a), b)
    ensures Reach(top, a + b) == Reach(Reach(top, a), b)
    decreases |a|
  {
    hide Fits, Raise;
    if a == [] {
      assert a + b == b;
    } else {
      ClimbJoin(n, Raise(top, a[0]), a[1..], b);
      assert (a + b)[1..] == a[1..] + b;
    }
  }

  lemma ClimbOne(n: nat, top: nat, a: seq<Frame>, f: Frame)
    ensures Climb(n, top, a + [f]) <==> Climb(n, top, a) && Fits(n, Reach(top, a), f)
    ensures Reach(top, a + [f]) == Raise(Reach(top, a), f)
  {
    ClimbJoin(n, top, a, [f]);
    hide Fits;
    assert [f][1..] == [];
  }

  /** Frames that only repeat lines up to `k`, and a result only if `k` lines
      are all there are. */
  predicate Known(n: nat, k: nat, f: Frame) {
    && (f.Log? ==> f.seqno <= k)
    && (f.Done? ==> k >= n)
    && !(f.Ack? && !f.accepted)
  }

  lemma {:induction false} KnownClimb(n: nat, k: nat, top: nat, fs: seq<Frame>)
    requires k <= top && forall f | f in fs :: Known(n, k, f)
    ensures Climb(n, top, fs) && Reach(top, fs) == top
    decreases |fs|
  {
    if fs != [] {
      assert Known(n, k, fs[0]);
      assert forall f | f in fs[1..] :: f in fs;
      KnownClimb(n, k, top, fs[1..]);
    }
  }

  lemma {:induction false} LogsClimb(n: nat, id: Id, logs: seq<(nat, string)>, top: nat)
    requires Inv.Numbered(logs)
    ensures Climb(n, top, LogFrames(id, logs))
    ensures Reach(top, LogFrames(id, logs)) == if top > |logs| then top else |logs|
  {
    if logs != [] {
      var front, last := logs[..|logs| - 1], logs[|logs| - 1];
      LogsClimb(n, id, front, top);
      ClimbOne(n, top, LogFrames(id, front), Frame.Log(id, last.0, last.1));
    }
  }

  /** A replay climbs from anywhere, up to the lines recorded so far. */
  lemma FramesClimb(n: nat, id: Id, j: Job, top: nat)
    requires Inv.Numbered(j.logs) && (j.done.Some? ==> |j.logs| >= n)
    ensures Climb(n, top, Frames(id, j))
    ensures Reach(top, Frames(id, j)) == if top > |j.logs| then top else |j.logs|
  {
    LogsClimb(n, id, j.logs, top);
    var ack, logs := [Frame.Ack(id, true, "")], LogFrames(id, j.logs);
    assert ack[1..] == [] && Reach(top, ack) == top && Climb(n, top, ack);
    ClimbJoin(n, top, ack, logs);
    if j.done.Some? {
      ClimbOne(n, top, ack + logs, Frame.Done(id, j.done.value));
    } else {
      assert ack + logs + [] == ack + logs;
    }
  }

  // ----- the invariant -----

  function LogLength(l: Link): nat {
    if l.job.Some? then |l.job.value.logs| else 0
  }

  ghost predicate ConnOk(n: nat, k: nat, reached: nat, c: Conn) {
    && (!c.replayed ==> c.wire == [] && c.top == 0)
    && (!c.open ==> c.queue == [])
    && (forall f | f in c.queue :: Known(n, k, f))
    && Climb(n, c.top, c.wire)
    && (c.replayed ==> Climb(n, c.top, c.wire + c.queue))
    && (c.replayed && c.open ==> Reach(c.top, c.wire + c.queue) >= k)
    && c.top <= reached
  }

  ghost predicate InOrder(u: Unit, l: Link) {
    var n := |Full(u)|;
    && JobFits(u, l) && Climb(n, 0, l.got)
    && forall c | c in l.conns :: ConnOk(n, LogLength(l), Reach(0, l.got), l.conns[c])
  }

  // ----- steps on one connection -----

  lemma CutOk(n: nat, k: nat, k': nat, reached: nat, c: Conn)
    requires ConnOk(n, k, reached, c)
    ensures ConnOk(n, k', reached, c.(open := false, queue := []))
  {
    assert c.wire + [] == c.wire;
  }

  lemma ReplayOk(n: nat, k: nat, reached: nat, c: Conn, fs: seq<Frame>)
    requires ConnOk(n, k, reached, c)
    requires forall top: nat :: Climb(n, top, fs) && Reach(top, fs) == if top > k then top else k
    ensures ConnOk(n, k, reached, c.(wire := c.wire + fs, replayed := true))
  {
    hide Known;
    var top := Reach(c.top, c.wire);
    ClimbJoin(n, c.top, c.wire, fs);
    assert Climb(n, top, fs);
    ClimbJoin(n, c.top, c.wire + fs, c.queue);
    KnownClimb(n, k, Reach(c.top, c.wire + fs), c.queue);
  }

  lemma PumpOk(n: nat, k: nat, reached: nat, c: Conn)
    requires ConnOk(n, k, reached, c) && c.replayed && c.queue != []
    ensures ConnOk(n, k, reached, c.(wire := c.wire + [c.queue[0]], queue := c.queue[1..]))
  {
    hide Known;
    assert (c.wire + [c.queue[0]]) + c.queue[1..] == c.wire + c.queue;
    ClimbJoin(n, c.top, c.wire + [c.queue[0]], c.queue[1..]);
    assert forall f | f in c.queue[1..] :: f in c.queue;
  }

  lemma DeliverOk(n: nat, k: nat, reached: nat, c: Conn)
    requires ConnOk(n, k, reached, c) && c.wire != []
    ensures Fits(n, reached, c.wire[0])
    ensures ConnOk(n, k, Raise(reached, c.wire[0]), c.(wire := c.wire[1..], top := Raise(c.top, c.wire[0])))
  {
    hide Known;
    assert (c.wire + c.queue)[1..] == c.wire[1..] + c.queue;
  }

  lemma HigherOk(n: nat, k: nat, reached: nat, c: Conn, reached': nat)
    requires ConnOk(n, k, reached, c) && reached <= reached'
    ensures ConnOk(n, k, reached', c)
  {
  }

  /** A live frame about line `k'`, the next one or the last. */
  lemma LiveOk(n: nat, k: nat, reached: nat, c: Conn, f: Frame, k': nat)
    requires ConnOk(n, k, reached, c) && c.open && k <= k' <= k + 1
    requires Known(n, k', f) && (k' > k ==> f.Log? && f.seqno == k')
    ensures ConnOk(n, k', reached, c.(queue := c.queue + [f]))
  {
    if c.replayed {
      ClimbOne(n, c.top, c.wire + c.queue, f);
      assert (c.wire + c.queue) + [f] == c.wire + (c.queue + [f]);
    }
    hide Climb, Reach;
    forall g | g in c.queue + [f] ensures Known(n, k', g) {
      assert g in c.queue ==> Known(n, k, g);
    }
  }

  // ----- every step -----

  lemma BroadcastInOrder(u: Unit, l: Link, f: Frame, k: nat)
    requires InOrder(u, l) && LogLength(l) <= k <= LogLength(l) + 1
    requires Known(|Full(u)|, k, f) && (k > LogLength(l) ==> f.Log? && f.seqno == k)
    ensures forall c | c in Broadcast(l, [f]) :: ConnOk(|Full(u)|, k, Reach(0, l.got), Broadcast(l, [f])[c])
  {
    hide Full, Known, JobFits;
    forall c | c in Broadcast(l, [f]) ensures ConnOk(|Full(u)|, k, Reach(0, l.got), Broadcast(l, [f])[c]) {
      var conn := l.conns[c];
      assert ConnOk(|Full(u)|, LogLength(l), Reach(0, l.got), conn);
      if conn.open {
        LiveOk(|Full(u)|, LogLength(l), Reach(0, l.got), conn, f, k);
      } else {
        ClosedOk(|Full(u)|, LogLength(l), Reach(0, l.got), conn, k);
      }
    }
  }

  lemma ClosedOk(n: nat, k: nat, reached: nat, c: Conn, k': nat)
    requires ConnOk(n, k, reached, c) && !c.open
    ensures ConnOk(n, k', reached, c)
  {
  }

  lemma ReplayInOrder(u: Unit, l: Link, id: Id, top: nat)
    requires JobFits(u, l) && l.job.Some?
    ensures Climb(|Full(u)|, top, Frames(id, l.job.value))
    ensures Reach(top, Frames(id, l.job.value)) == if top > LogLength(l) then top else LogLength(l)
  {
    RecordedNumbered(u, l.lines);
    FramesClimb(|Full(u)|, id, l.job.value, top);
  }

  lemma AckInOrder(n: nat, id: Id, top: nat)
    ensures Climb(n, top, [Frame.Ack(id, true, "")]) && Reach(top, [Frame.Ack(id, true, "")]) == top
  {
    assert [Frame.Ack(id, true, "")][1..] == [];
  }

  lemma StartInOrder(u: Unit, l: Link, s: Move)
    requires InOrder(u, l) && CanMove(u, l, s) && s.HandleStart?
    ensures InOrder(u, Moved(u, l, s))
  {
    hide Full, JobFits, ConnOk, Climb, Reach, Frames;
    StepKeepsJob(u, l, s);
    var n, k, reached, b := |Full(u)|, LogLength(l), Reach(0, l.got), Moved(u, l, s);
    assert LogLength(b) == k;
    var frames := if l.job.Some? then Frames(u.id, l.job.value) else [Frame.Ack(u.id, true, "")];
    forall top: nat ensures Climb(n, top, frames) && Reach(top, frames) == if top > k then top else k {
      if l.job.Some? { ReplayInOrder(u, l, u.id, top); } else { AckInOrder(n, u.id, top); }
    }
    ReplayOk(n, k, reached, l.conns[s.conn], frames);
  }

  lemma LineInOrder(u: Unit, l: Link)
    requires InOrder(u, l) && CanMove(u, l, Move.Line)
    ensures InOrder(u, Moved(u, l, Move.Line))
  {
    hide Full, JobFits, ConnOk, Climb, Reach, LineFrames, RecordLine, Broadcast, Recorded, Own, Inv.Numbered;
    StepKeepsJob(u, l, Move.Line);
    NextLine(u, l);
    var n, line := l.lines + 1, u.output[l.lines];
    var j, fs := RecordLine(l.job.value, n, line), LineFrames(map[u.id := l.job.value], [u.id], n, line);
    if fs == [] {
      NothingBroadcast(u, l);
    } else {
      BroadcastInOrder(u, l, fs[0], |j.logs|);
    }
  }

  lemma NothingBroadcast(u: Unit, l: Link)
    requires InOrder(u, l)
    ensures forall c | c in Broadcast(l, []) :: ConnOk(|Full(u)|, LogLength(l), Reach(0, l.got), Broadcast(l, [])[c])
  {
    hide Full, JobFits, ConnOk, Climb, Reach;
    forall c | c in l.conns ensures Broadcast(l, [])[c] == l.conns[c] {
      assert l.conns[c].queue + [] == l.conns[c].queue;
    }
  }

  lemma FinishInOrder(u: Unit, l: Link, s: Move)
    requires InOrder(u, l) && CanMove(u, l, s) && (s.Finish? || s.Tick?)
    ensures InOrder(u, Moved(u, l, s))
  {
    StepKeepsJob(u, l, s);
    FinishedLog(u, l);
    var f := if s.Finish? then Frame.Done(u.id, s.body) else Frame.Progress(u.id);
    hide Full, JobFits, ConnOk, Climb, Reach, Broadcast;
    BroadcastInOrder(u, l, f, LogLength(l));
  }

  lemma FinishedLog(u: Unit, l: Link)
    requires JobFits(u, l)
    ensures l.job.Some? && l.lines == |u.output| ==> LogLength(l) == |Full(u)|
  {
  }

  lemma DeliverInOrder(u: Unit, l: Link, s: Move)
    requires InOrder(u, l) && CanMove(u, l, s) && s.Deliver?
    ensures InOrder(u, Moved(u, l, s))
  {
    hide Full, JobFits, ConnOk, Climb, Reach, Fits;
    StepKeepsJob(u, l, s);
    var n, k, reached, b := |Full(u)|, LogLength(l), Reach(0, l.got), Moved(u, l, s);
    var conn := l.conns[s.conn];
    DeliverOk(n, k, reached, conn);
    ClimbOne(n, 0, l.got, conn.wire[0]);
    forall c | c in b.conns ensures ConnOk(n, k, Reach(0, b.got), b.conns[c]) {
      if c != s.conn { HigherOk(n, k, reached, l.conns[c], Reach(0, b.got)); }
    }
  }

  lemma StepKeepsOrder(u: Unit, l: Link, s: Move)
    requires InOrder(u, l) && CanMove(u, l, s) && Orderly(l, s)
    ensures InOrder(u, Moved(u, l, s))
  {
    hide Full, JobFits, ConnOk, Climb, Reach, InOrder;
    match s {
      case HandleStart(_, _, _, _) => StartInOrder(u, l, s);
      case Line => LineInOrder(u, l);
      case Tick => FinishInOrder(u, l, s);
      case Finish(_, _) => FinishInOrder(u, l, s);
      case Deliver(_) => DeliverInOrder(u, l, s);
      case Crash(_) => CrashInOrder(u, l, s);
      case Launch(_) => LaunchInOrder(u, l, s);
      case _ => ConnInOrder(u, l, s);
    }
  }

  lemma LaunchInOrder(u: Unit, l: Link, s: Move)
    requires InOrder(u, l) && CanMove(u, l, s) && s.Launch?
    ensures InOrder(u, Moved(u, l, s))
  {
    hide Full, JobFits, ConnOk, Climb, Reach;
    StepKeepsJob(u, l, s);
  }

  lemma CrashInOrder(u: Unit, l: Link, s: Move)
    requires InOrder(u, l) && s.Crash?
    ensures InOrder(u, Moved(u, l, s))
  {
    hide Full, JobFits, ConnOk, Climb, Reach, AfterCrash;
    StepKeepsJob(u, l, s);
    var b := Moved(u, l, s);
    forall c | c in b.conns ensures ConnOk(|Full(u)|, LogLength(b), Reach(0, l.got), b.conns[c]) {
      CutOk(|Full(u)|, LogLength(l), LogLength(b), Reach(0, l.got), l.conns[c]);
    }
  }

  lemma ConnInOrder(u: Unit, l: Link, s: Move)
    requires InOrder(u, l) && CanMove(u, l, s) && Orderly(l, s) && (s.Connect? || s.Cut? || s.Pump?)
    ensures InOrder(u, Moved(u, l, s))
  {
    hide Full, JobFits, ConnOk, Climb, Reach;
    StepKeepsJob(u, l, s);
    var n, k, reached := |Full(u)|, LogLength(l), Reach(0, l.got);
    match s {
      case Connect(_) => NewConnOk(n, k, reached);
      case Cut(c) => CutOk(n, k, k, reached, l.conns[c]);
      case Pump(c) => PumpOk(n, k, reached, l.conns[c]);
    }
  }

  lemma NewConnOk(n: nat, k: nat, reached: nat)
    ensures ConnOk(n, k, reached, Conn(true, [], [], false, 0))
  {
  }

  lemma {:induction false} RunKeepsOrder(u: Unit, from: Link, steps: seq<Move>, to: Link)
    requires InOrder(u, from) && Genuine(u, from) && LeadsOrderly(u, from, steps, to)
    ensures InOrder(u, to) && Genuine(u, to)
    decreases |steps|
  {
    hide InOrder, Genuine, CanMove, Orderly, Moved;
    if steps != [] {
      StepKeepsOrder(u, from, steps[0]);
      StepKeepsGenuine(u, from, steps[0]);
      RunKeepsOrder(u, Moved(u, from, steps[0]), steps[1..], to);
    }
  }

  // ----- what the client gets -----

  /** The lines among the events. */
  function Lines(es: seq<Event>): seq<(nat, string)> {
    if es == [] then [] else
    var e := es[|es| - 1];
    Lines(es[..|es| - 1]) + if e.Log? then [(e.seqno, e.line)] else []
  }

  lemma LinesMore(es: seq<Event>, e: Event)
    ensures Lines(es + [e]) == Lines(es) + if e.Log? then [(e.seqno, e.line)] else []
  {
    assert (es + [e])[..|es|] == es;
  }

  lemma {:induction false} TellsInOrder(target: string, full: seq<(nat, string)>, fs: seq<Frame>)
    requires Climb(|full|, 0, fs) && AllOwn(full, fs)
    ensures Reach(0, fs) == Top(fs) <= |full|
    ensures Lines(Tell(target, fs)) == if Ended(fs) then full else full[..Top(fs)]
  {
    if fs != [] {
      var before, f := fs[..|fs| - 1], fs[|fs| - 1];
      assert fs == before + [f];
      assert Own(full, f);
      ClimbOne(|full|, 0, before, f);
      TellsInOrder(target, full, before);
      TellMore(target, before, f);
      EndedMore(before, f);
      OneTold(target, full, before, f);
    }
  }

  lemma OneTold(target: string, full: seq<(nat, string)>, fs: seq<Frame>, f: Frame)
    requires Own(full, f) && Top(fs) <= |full| && Fits(|full|, Top(fs), f)
    requires Lines(Tell(target, fs)) == if Ended(fs) then full else full[..Top(fs)]
    ensures Lines(Tell(target, fs + [f])) == if Ended(fs + [f]) then full else full[..Top(fs + [f])]
  {
    hide Ended, Top, Tell, Own, Fits, Lines;
    TellMore(target, fs, f);
    EndedMore(fs, f);
    var told := Tell(target, fs);
    assert told + [] == told;
    if !Ended(fs) {
      SaysLines(target, full, told, Top(fs), f);
    }
  }

  lemma SaysLines(target: string, full: seq<(nat, string)>, told: seq<Event>, top: nat, f: Frame)
    requires Own(full, f) && top <= |full| && Fits(|full|, top, f) && Lines(told) == full[..top]
    ensures Lines(told + Says(target, top, f)) ==
      if Ending(f).Some? then full else full[..if f.Log? && f.seqno > top then f.seqno else top]
    ensures f.Log? ==> f.seqno <= |full|
  {
    hide Lines;
    assert told + [] == told;
    match f {
      case Log(_, seqno, line) => LinesMore(told, Event.Log(target, seqno, line));
      case Progress(_) => LinesMore(told, Event.Progress(target));
      case Done(_, body) => LinesMore(told, Event.Done(target, body));
      case _ =>
    }
  }

  /** If on every connection the replay precedes live frames, no line is
      missing however often connections are cut and the agent crashes: the
      client has the first lines of the unit's log, and all of it before the
      result. */
  lemma LinkIsComplete(u: Unit, from: Link, steps: seq<Move>, to: Link)
    requires Initial(u, from) && LeadsOrderly(u, from, steps, to)
    ensures Lines(Tell(u.target, to.got)) <= Full(u)
    ensures Ended(to.got) ==> Lines(Tell(u.target, to.got)) == Full(u)
  {
    hide JobFits, LeadsOrderly, Full, Own, Tell, Lines, Top, Ended;
    RunKeepsOrder(u, from, steps, to);
    TellsInOrder(u.target, Full(u), to.got);
  }

  // ----- without the assumption -----

  /** The numbered lines among the events: refusals aside. */
  function NumberedLines(es: seq<Event>): seq<(nat, string)> {
    if es == [] then [] else
    var e := es[|es| - 1];
    NumberedLines(es[..|es| - 1]) + if e.Log? && e.seqno > 0 then [(e.seqno, e.line)] else []
  }

  lemma NumberedMore(es: seq<Event>, e: Event)
    ensures NumberedLines(es + [e]) == NumberedLines(es) + if e.Log? && e.seqno > 0 then [(e.seqno, e.line)] else []
  {
    assert (es + [e])[..|es|] == es;
  }

  /** Whenever a line above all earlier ones arrives, it is the very next one. */
  ghost predicate NoJump(fs: seq<Frame>) {
    fs == [] || (var before, f := fs[..|fs| - 1], fs[|fs| - 1];
                 NoJump(before) && (!Ended(before) && f.Log? ==> f.seqno <= Top(before) + 1))
  }

  /** Nor does what ends the target, a result or a refusal, arrive before line
      `n`. */
  ghost predicate NoGap(n: nat, fs: seq<Frame>) {
    fs == [] || (var before, f := fs[..|fs| - 1], fs[|fs| - 1];
                 && NoGap(n, before)
                 && (!Ended(before) && f.Log? ==> f.seqno <= Top(before) + 1)
                 && (!Ended(before) && Ending(f).Some? ==> Top(before) >= n))
  }

  /** There is no hole among the lines a client sees if and only if no line
      arrives that jumps over one the relay has not seen. */
  lemma {:induction false} NoHoleIff(target: string, full: seq<(nat, string)>, fs: seq<Frame>)
    requires Inv.Numbered(full) && AllOwn(full, fs)
    ensures NumberedLines(Tell(target, fs)) <= full <==> NoJump(fs)
    ensures NoJump(fs) && !Ended(fs) ==> Top(fs) <= |full| && NumberedLines(Tell(target, fs)) == full[..Top(fs)]
  {
    if fs == [] {
      assert NumberedLines(Tell(target, fs)) == [];
    } else {
      var before, f := fs[..|fs| - 1], fs[|fs| - 1];
      assert fs == before + [f] && f in fs && Own(full, f);
      NoHoleIff(target, full, before);
      TellMore(target, before, f);
      EndedMore(before, f);
      assert NoJump(fs) <==> NoJump(before) && (!Ended(before) && f.Log? ==> f.seqno <= Top(before) + 1);
      hide NoJump, Tell, Ended, Top, Own;
      var told := Tell(target, before);
      assert told + [] == told;
      if !Ended(before) { JumpOrNext(target, full, told, Top(before), f); }
    }
  }

  lemma JumpOrNext(target: string, full: seq<(nat, string)>, told: seq<Event>, top: nat, f: Frame)
    requires Inv.Numbered(full) && Own(full, f)
    requires NumberedLines(told) <= full ==> top <= |full| && NumberedLines(told) == full[..top]
    ensures NumberedLines(told + Says(target, top, f)) <= full
       <==> NumberedLines(told) <= full && (f.Log? ==> f.seqno <= top + 1)
    ensures NumberedLines(told + Says(target, top, f)) <= full && Ending(f).None? ==>
      var top' := if f.Log? && f.seqno > top then f.seqno else top;
      top' <= |full| && NumberedLines(told + Says(target, top, f)) == full[..top']
    ensures Ending(f).Some? ==> NumberedLines(told + Says(target, top, f)) == NumberedLines(told)
  {
    hide NumberedLines;
    assert told + [] == told;
    match f {
      case Log(_, seqno, line) =>
        NumberedMore(told, Event.Log(target, seqno, line));
        if seqno > top { NextIs(full, NumberedLines(told), top, seqno, line); }
      case Progress(_) => NumberedMore(told, Event.Progress(target));
      case Done(_, body) => NumberedMore(told, Event.Done(target, body));
      case Ack(_, accepted, reason) =>
        var refusal, done := Event.Log(target, 0, REFUSED + reason), Event.Done(target, FAILED);
        NumberedMore(told, refusal);
        NumberedMore(told + [refusal], done);
        assert told + [refusal, done] == (told + [refusal]) + [done];
      case _ =>
    }
  }

  lemma NextIs(full: seq<(nat, string)>, lines: seq<(nat, string)>, top: nat, seqno: nat, line: string)
    requires Inv.Numbered(full) && top < seqno <= |full| && full[seqno - 1] == (seqno, line)
    requires lines <= full ==> top <= |full| && lines == full[..top]
    ensures lines + [(seqno, line)] <= full <==> lines <= full && seqno == top + 1
    ensures lines <= full && seqno == top + 1 ==> lines + [(seqno, line)] == full[..seqno]
  {
    var more := lines + [(seqno, line)];
    if more <= full {
      assert lines == more[..|lines|] == full[..|lines|];
      assert full[top] == more[top] == (seqno, line);
    }
  }

  /** The exact condition: a client is shown the beginning of the log at any time
      and all of it once the target has ended, if and only if no line arrives
      that jumps over one the relay has not seen, and nothing that ends the
      target arrives before the last line. */
  lemma {:induction false} NothingMissingIff(target: string, full: seq<(nat, string)>, fs: seq<Frame>)
    requires Inv.Numbered(full) && AllOwn(full, fs)
    ensures NoGap(|full|, fs) <==>
      && NumberedLines(Tell(target, fs)) <= full
      && (Ended(fs) ==> NumberedLines(Tell(target, fs)) == full)
  {
    if fs == [] {
      assert NumberedLines(Tell(target, fs)) == [];
    } else {
      var before, f := fs[..|fs| - 1], fs[|fs| - 1];
      assert fs == before + [f] && f in fs && Own(full, f);
      NothingMissingIff(target, full, before);
      NoHoleIff(target, full, before);
      TellMore(target, before, f);
      EndedMore(before, f);
      GapStep(|full|, before, f);
      hide NoGap, NoJump, Tell, Ended, Top, Own;
      var told := Tell(target, before);
      assert told + [] == told;
      if !Ended(before) { JumpOrNext(target, full, told, Top(before), f); }
    }
  }

  lemma GapStep(n: nat, fs: seq<Frame>, f: Frame)
    ensures NoGap(n, fs + [f]) <==>
      && NoGap(n, fs)
      && (!Ended(fs) && f.Log? ==> f.seqno <= Top(fs) + 1)
      && (!Ended(fs) && Ending(f).Some? ==> Top(fs) >= n)
  {
    assert (fs + [f])[..|fs|] == fs;
  }

  /** The same for every run of the link: reconnects, re-sent starts, refusals,
      crashes and all. */
  lemma RunMissesNothingIff(u: Unit, from: Link, steps: seq<Move>, to: Link)
    requires Initial(u, from) && Leads(u, from, steps, to)
    ensures NoGap(|Full(u)|, to.got) <==>
      && NumberedLines(Tell(u.target, to.got)) <= Full(u)
      && (Ended(to.got) ==> NumberedLines(Tell(u.target, to.got)) == Full(u))
  {
    hide JobFits, Leads, Full, Own, Tell, NumberedLines, NoGap, Ended, Inv.Numbered;
    RunKeepsGenuine(u, from, steps, to);
    FullIsNumbered(u);
    NothingMissingIff(u.target, Full(u), to.got);
  }

  lemma FullIsNumbered(u: Unit)
    ensures Inv.Numbered(Full(u))
  {
    RecordedNumbered(u, |u.output|);
  }

  lemma OneStep(u: Unit, from: Link, s: Move, steps: seq<Move>, to: Link)
    requires CanMove(u, from, s) && Leads(u, Moved(u, from, s), steps, to)
    ensures Leads(u, from, [s] + steps, to)
  {
    hide CanMove, Moved;
    assert ([s] + steps)[1..] == steps;
  }

  /** The assumption is needed. An agent that reconnects while its unit writes
      subscribes before it handles the re-sent start, so line two may reach the
      relay before the replay, and line one is then taken for a repetition. */
  lemma LiveFrameFirst(u: Unit, from: Link) returns (steps: seq<Move>, to: Link)
    requires u == Unit(7, "eve/web", ["a", "b"], {})
    requires var j := Recorded(u, 1); from == Link(Some(j.(run := Some(Run(None, None)))), 1, map[], [])
    ensures Initial(u, from) && Leads(u, from, steps, to)
    ensures Full(u) == [(1, "a"), (2, "b")] && Lines(Tell(u.target, to.got)) == [(2, "b")]
  {
    hide Recorded, RecordLine, LineFrames, Full, Tell, Lines;
    TwoLines(u);
    var c, line := 0, Frame.Log(7, 2, "b");
    var s1 := Moved(u, from, Connect(c));
    NextLine(u, s1);
    var s2 := Moved(u, s1, Move.Line);
    assert s2.conns[c] == Conn(true, [line], [], false, 0) by { FirstFrame(line); }
    var s3 := Moved(u, s2, Pump(c));
    assert s3.conns[c].wire == [line];
    to := Moved(u, s3, Deliver(c));
    assert to.got == [line];
    hide Moved;
    OneStep(u, s3, Deliver(c), [], to);
    OneStep(u, s2, Pump(c), [Deliver(c)] + [], to);
    OneStep(u, s1, Move.Line, [Pump(c)] + ([Deliver(c)] + []), to);
    OneStep(u, from, Connect(c), [Move.Line] + ([Pump(c)] + ([Deliver(c)] + [])), to);
    steps := [Connect(c)] + ([Move.Line] + ([Pump(c)] + ([Deliver(c)] + [])));
    TellLine(u.target, line);
  }

  /** Nor is a live result harmless. An agent that reconnects as its unit ends
      may write the result before it handles the re-sent start, and the relay
      takes none of the lines that follow. */
  lemma LiveResultFirst(u: Unit, from: Link, body: DoneBody) returns (steps: seq<Move>, to: Link)
    requires u == Unit(7, "eve/web", ["a"], {body})
    requires var j := Recorded(u, 1); from == Link(Some(j.(run := Some(Run(None, None)))), 1, map[], [])
    ensures Initial(u, from) && Leads(u, from, steps, to)
    ensures Full(u) == [(1, "a")] && Ended(to.got) && NumberedLines(Tell(u.target, to.got)) == []
  {
    hide Recorded, RecordLine, LineFrames, Full, Tell, NumberedLines, Ended;
    OneLine(u);
    var c, done := 0, Frame.Done(7, body);
    var s1 := Moved(u, from, Connect(c));
    var s2 := Moved(u, s1, Finish(body, 0));
    assert s2.conns[c] == Conn(true, [done], [], false, 0) by { FirstFrame(done); }
    var s3 := Moved(u, s2, Pump(c));
    assert s3.conns[c].wire == [done];
    to := Moved(u, s3, Deliver(c));
    assert to.got == [done];
    hide Moved;
    OneStep(u, s3, Deliver(c), [], to);
    OneStep(u, s2, Pump(c), [Deliver(c)] + [], to);
    OneStep(u, s1, Finish(body, 0), [Pump(c)] + ([Deliver(c)] + []), to);
    OneStep(u, from, Connect(c), [Finish(body, 0)] + ([Pump(c)] + ([Deliver(c)] + [])), to);
    steps := [Connect(c)] + ([Finish(body, 0)] + ([Pump(c)] + ([Deliver(c)] + [])));
    TellDone(u.target, done);
  }

  lemma OneLine(u: Unit)
    requires u.output == ["a"]
    ensures Full(u) == [(1, "a")] && !Recorded(u, 1).truncated
    ensures Recorded(u, 1).state.Running? && Recorded(u, 1).done.None?
  {
    assert Recorded(u, 0) == BLANK;
    assert Recorded(u, 1) == RecordLine(BLANK, 1, "a");
  }

  lemma TellDone(target: string, f: Frame)
    requires f.Done?
    ensures Ended([f]) && NumberedLines(Tell(target, [f])) == []
  {
    hide Tell, Top, Ended, NumberedLines;
    NoneTold(target);
    TellMore(target, [], f);
    EndedMore([], f);
    var e := Event.Done(target, f.body);
    NumberedMore([], e);
    assert [] + [f] == [f] && [] + [e] == [e];
  }

  lemma TwoLines(u: Unit)
    requires u == Unit(7, "eve/web", ["a", "b"], {})
    ensures Full(u) == [(1, "a"), (2, "b")] && Recorded(u, 1).logs == [(1, "a")]
    ensures !Recorded(u, 1).truncated && Recorded(u, 1).state.Running? && Recorded(u, 1).done.None?
  {
    assert Recorded(u, 0) == BLANK;
    assert Recorded(u, 1) == RecordLine(BLANK, 1, "a");
    assert Recorded(u, 2) == RecordLine(Recorded(u, 1), 2, "b");
  }

  lemma FirstFrame(f: Frame)
    ensures [] + [f] == [f]
  {
  }

  lemma TellLine(target: string, f: Frame)
    requires f.Log? && f.seqno > 0
    ensures Lines(Tell(target, [f])) == [(f.seqno, f.line)]
  {
    hide Tell, Top, Ended, Lines;
    NoneTold(target);
    TellMore(target, [], f);
    var e := Event.Log(target, f.seqno, f.line);
    LinesMore([], e);
    assert [] + [f] == [f] && [] + [e] == [e];
  }

  lemma NoneTold(target: string)
    ensures Tell(target, []) == [] && Top([]) == 0 && !Ended([]) && Lines([]) == [] && NumberedLines([]) == []
  {
  }
}
