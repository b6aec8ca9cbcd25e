/** One deploy target from the agent's job to the client, over any number of
    connections (src/agent/conn.rs, src/agent/jobs.rs, src/relay/agent_conn.rs,
    src/relay/api.rs). Each connection first carries a replay of the job, taken
    under the lock when the re-sent start is handled, and live frames from the
    moment it subscribed. Connections come and go, several may be open at once,
    and the agent may crash and read the unit's output again. */
module Links {
  import opened Wrappers
  import opened Proto
  import opened JobTable
  import opened Telling
  import Inv = JobInvariants

  /** A connection: live frames waiting to be written, frames on their way to
      the relay, whether a replay was sent, and the highest line delivered. */
  datatype Conn = Conn(open: bool, queue: seq<Frame>, wire: seq<Frame>, replayed: bool, top: nat)

  /** The job as the agent knows it, the lines recorded since the agent started,
      the connections, and what reached the wave's channel. */
  datatype Link = Link(job: Option<Job>, lines: nat, conns: map<nat, Conn>, got: seq<Frame>)

  /** The job's id, what its unit writes in all, and the results it may end with:
      one of them each time it is run. The unit's journal can be read again from
      the start. */
  datatype Unit = Unit(id: Id, target: string, output: seq<string>, results: set<DoneBody>)

  // ----- the log of the unit -----

  const BLANK := Job.Job("", JobState.Running, 0, None, Caller("", "", ""), None, [], 0, false, None)

  /** A blank job with the first `n` lines recorded. */
  function Recorded(u: Unit, n: nat): Job
    requires n <= |u.output|
  {
    if n == 0 then BLANK else RecordLine(Recorded(u, n - 1), n, u.output[n - 1])
  }

  /** The whole log. */
  function Full(u: Unit): seq<(nat, string)> {
    Recorded(u, |u.output|).logs
  }

  lemma {:induction false} RecordedGrows(u: Unit, k: nat, n: nat)
    requires k <= n <= |u.output|
    ensures Recorded(u, k).logs <= Recorded(u, n).logs
  {
    if k < n { RecordedGrows(u, k, n - 1); }
  }

  lemma {:induction false} RecordedNumbered(u: Unit, n: nat)
    requires n <= |u.output|
    ensures Inv.Numbered(Recorded(u, n).logs)
    ensures |Recorded(u, n).logs| <= n && (!Recorded(u, n).truncated ==> |Recorded(u, n).logs| == n)
  {
    if n > 0 { RecordedNumbered(u, n - 1); }
  }

  /** The size of the first `n` lines, in bytes. */
  function Total(lines: seq<string>, n: nat): nat
    requires n <= |lines|
  {
    if n == 0 then 0 else Total(lines, n - 1) + Length(lines[n - 1])
  }

  /** Of the first `n` lines, as many as fit the cap are recorded as they are, and
      if they are not all, the marker behind them. */
  ghost predicate IsCut(u: Unit, n: nat, marker: string)
    requires n <= |u.output|
  {
    var r := Recorded(u, n);
    && (r.truncated <==> Total(u.output, n) > 0x10_0000)
    && var m := if r.truncated then |r.logs| - 1 else n;
    && 0 <= m <= n && |r.logs| == (if r.truncated then m + 1 else m)
    && (forall k | 0 <= k < m :: r.logs[k] == (k + 1, u.output[k]))
    && Total(u.output, m) <= 0x10_0000
    && (r.truncated ==> m < n && r.logs[m] == (m + 1, marker) && Total(u.output, m + 1) > 0x10_0000)
    && (!r.truncated ==> r.logBytes == Total(u.output, n))
  }

  lemma {:induction false} LogIsCut(u: Unit, n: nat)
    requires n <= |u.output|
    ensures IsCut(u, n, MARKER)
  {
    hide Length;
    if n > 0 { LogIsCut(u, n - 1); }
  }

  /** The log is the output line by line, complete as long as that fits the cap,
      and otherwise as much of it as fits and the marker. */
  lemma LogIsOutput(u: Unit, n: nat)
    requires n <= |u.output|
    ensures IsCut(u, n, "[flakelet-agent: log limit reached, further output dropped]")
  {
    hide IsCut;
    LogIsCut(u, n);
    assert MARKER == "[flakelet-agent: log limit reached, further output dropped]";
  }

  // ----- steps -----

  datatype Move =
    | Connect(conn: nat)
    | Cut(conn: nat)
    | HandleStart(conn: nat, flakelet: string, who: Caller, now: nat)
    | Refuse(conn: nat, reason: string)
    | Launch(run: Run)
    | Line
    | Tick
    | Finish(body: DoneBody, now: nat)
    | Pump(conn: nat)
    | Deliver(conn: nat)
    | Ignore(conn: nat)
    | Crash(lost: bool)

  predicate IsOpen(l: Link, c: nat) {
    c in l.conns && l.conns[c].open
  }

  predicate IsRunning(l: Link) {
    l.job.Some? && l.job.value.state.Running?
  }

  ghost predicate CanMove(u: Unit, l: Link, s: Move) {
    match s
    case Connect(c) => c !in l.conns
    case Cut(c) => IsOpen(l, c)
    case HandleStart(c, f, _, _) => IsOpen(l, c) && (l.job.Some? ==> l.job.value.flakelet == f)
    case Refuse(c, _) => IsOpen(l, c)
    case Launch(_) => l.job.Some? && l.job.value.state.Pending?
    case Line => IsRunning(l) && l.lines < |u.output|
    case Tick => IsRunning(l)
    case Finish(body, _) => IsRunning(l) && l.lines == |u.output| && body in u.results
    case Pump(c) => IsOpen(l, c) && l.conns[c].queue != []
    case Deliver(c) => c in l.conns && l.conns[c].wire != []
    case Ignore(c) => c in l.conns && l.conns[c].wire != []
    case Crash(_) => true
  }

  /** A frame for every subscriber. */
  function Broadcast(l: Link, fs: seq<Frame>): map<nat, Conn> {
    map c | c in l.conns ::
      if l.conns[c].open then l.conns[c].(queue := l.conns[c].queue + fs) else l.conns[c]
  }

  function Closed(l: Link): map<nat, Conn> {
    map c | c in l.conns :: l.conns[c].(open := false, queue := [])
  }

  /** What a crash leaves of a job: its file. If the end was not saved yet, the
      file is the one saved when the unit was launched. */
  function AfterCrash(j: Job, lost: bool): Job {
    if j.state.Done? && !lost then Serialized(j)
    else if j.state.Pending? || j.state.Unknown? then Serialized(j)
    else Serialized(j).(state := JobState.Running, logs := [], done := None,
                        finished := if j.state.Done? then None else j.finished)
  }

  function Raise(top: nat, f: Frame): nat {
    if f.Log? && f.seqno > top then f.seqno else top
  }

  ghost function Moved(u: Unit, l: Link, s: Move): Link
    requires CanMove(u, l, s)
  {
    match s
    case Connect(c) => l.(conns := l.conns[c := Conn(true, [], [], false, 0)])
    case Cut(c) => l.(conns := l.conns[c := l.conns[c].(open := false, queue := [])])
    case HandleStart(c, f, who, now) =>
      var frames := if l.job.Some? then Frames(u.id, l.job.value) else [Frame.Ack(u.id, true, "")];
      var conn := l.conns[c];
      l.(job := if l.job.Some? then l.job else Some(NewJob(f, who, now)),
         conns := l.conns[c := conn.(wire := conn.wire + frames, replayed := true)])
    case Refuse(c, reason) =>
      l.(conns := l.conns[c := l.conns[c].(wire := l.conns[c].wire + [Frame.Ack(u.id, false, reason)])])
    case Launch(run) => l.(job := Some(MarkRunning(l.job.value, run)), lines := 0)
    case Line =>
      var n, line := l.lines + 1, u.output[l.lines];
      l.(job := Some(RecordLine(l.job.value, n, line)), lines := n,
         conns := Broadcast(l, LineFrames(map[u.id := l.job.value], [u.id], n, line)))
    case Tick => l.(conns := Broadcast(l, [Frame.Progress(u.id)]))
    case Finish(body, now) =>
      l.(job := Some(MarkDone(l.job.value, body, now)), conns := Broadcast(l, [Frame.Done(u.id, body)]))
    case Pump(c) =>
      var conn := l.conns[c];
      l.(conns := l.conns[c := conn.(wire := conn.wire + [conn.queue[0]], queue := conn.queue[1..])])
    case Deliver(c) =>
      var conn := l.conns[c];
      l.(conns := l.conns[c := conn.(wire := conn.wire[1..], top := Raise(conn.top, conn.wire[0]))],
         got := l.got + [conn.wire[0]])
    case Ignore(c) => l.(conns := l.conns[c := l.conns[c].(wire := l.conns[c].wire[1..])])
    case Crash(lost) =>
      var kept := l.job.Some? && l.job.value.state.Done? && !lost;
      l.(job := if l.job.Some? then Some(AfterCrash(l.job.value, lost)) else None,
         lines := if kept then l.lines else 0, conns := Closed(l))
  }

  ghost predicate Leads(u: Unit, from: Link, steps: seq<Move>, to: Link)
    decreases |steps|
  {
    if steps == [] then from == to
    else CanMove(u, from, steps[0]) && Leads(u, Moved(u, from, steps[0]), steps[1..], to)
  }

  // ----- every line is the agent's own -----

  ghost predicate JobFits(u: Unit, l: Link) {
    && l.lines <= |u.output|
    && match l.job
       case None => l.lines == 0
       case Some(j) =>
         var r := Recorded(u, l.lines);
         && j.logs == r.logs && !j.state.Unknown?
         && (j.state.Pending? ==> l.lines == 0)
         && (j.state.Done? <==> j.done.Some?) && (j.done.Some? ==> j.done.value in u.results)
         && (j.state.Done? ==> l.lines == |u.output|)
         && (!j.state.Done? ==> j.logBytes == r.logBytes && j.truncated == r.truncated)
  }

  /** A line is one of the full log. */
  predicate Own(full: seq<(nat, string)>, f: Frame) {
    f.Log? ==> 1 <= f.seqno <= |full| && full[f.seqno - 1] == (f.seqno, f.line)
  }

  predicate AllOwn(full: seq<(nat, string)>, fs: seq<Frame>) {
    forall f | f in fs :: Own(full, f)
  }

  ghost predicate Genuine(u: Unit, l: Link) {
    && JobFits(u, l) && AllOwn(Full(u), l.got)
    && forall c | c in l.conns :: AllOwn(Full(u), l.conns[c].queue) && AllOwn(Full(u), l.conns[c].wire)
  }

  lemma {:induction false} LogFramesOwn(full: seq<(nat, string)>, id: Id, logs: seq<(nat, string)>)
    requires logs <= full && Inv.Numbered(full)
    ensures AllOwn(full, LogFrames(id, logs))
  {
    if logs != [] {
      var front, last := logs[..|logs| - 1], logs[|logs| - 1];
      LogFramesOwn(full, id, front);
      assert last == full[|logs| - 1];
      assert LogFrames(id, logs) == LogFrames(id, front) + [Frame.Log(id, last.0, last.1)];
    }
  }

  lemma FramesOwn(full: seq<(nat, string)>, id: Id, j: Job)
    requires j.logs <= full && Inv.Numbered(full)
    ensures AllOwn(full, Frames(id, j))
  {
    LogFramesOwn(full, id, j.logs);
  }

  /** What recording the next line broadcasts. */
  lemma NextLine(u: Unit, l: Link)
    requires JobFits(u, l) && IsRunning(l) && l.lines < |u.output|
    ensures var n, line, full := l.lines + 1, u.output[l.lines], Full(u);
      var j, fs := RecordLine(l.job.value, n, line), LineFrames(map[u.id := l.job.value], [u.id], n, line);
      && j.logs == Recorded(u, n).logs <= full && AllOwn(full, fs)
      && j.logBytes == Recorded(u, n).logBytes && j.truncated == Recorded(u, n).truncated
      && (if l.job.value.truncated then fs == [] && j.logs == l.job.value.logs
          else |j.logs| == |l.job.value.logs| + 1
               && fs == [Frame.Log(u.id, |j.logs|, j.logs[|j.logs| - 1].1)])
  {
    hide Length;
    var n, line := l.lines + 1, u.output[l.lines];
    RecordedGrows(u, n, |u.output|);
    RecordedNumbered(u, |u.output|);
    RecordedNumbered(u, n);
    RecordedNumbered(u, l.lines);
    assert [u.id][..0] == [];
    assert LineFrames(map[u.id := l.job.value], [], n, line) == [];
  }

  lemma CopyOwn(u: Unit, l: Link)
    requires Genuine(u, l)
    ensures l.job.Some? ==> AllOwn(Full(u), Frames(u.id, l.job.value))
  {
    if l.job.Some? {
      RecordedGrows(u, l.lines, |u.output|);
      RecordedNumbered(u, |u.output|);
      FramesOwn(Full(u), u.id, l.job.value);
    }
  }

  lemma BroadcastOwn(u: Unit, l: Link, fs: seq<Frame>)
    requires Genuine(u, l) && AllOwn(Full(u), fs)
    ensures forall c | c in Broadcast(l, fs) ::
      AllOwn(Full(u), Broadcast(l, fs)[c].queue) && AllOwn(Full(u), Broadcast(l, fs)[c].wire)
  {
    hide Full, Own, JobFits;
  }

  lemma StepKeepsJob(u: Unit, l: Link, s: Move)
    requires JobFits(u, l) && CanMove(u, l, s)
    ensures JobFits(u, Moved(u, l, s))
  {
    if s.Line? { NextLine(u, l); }
    hide RecordLine, LineFrames, Frames, Broadcast, Full;
  }

  lemma StepKeepsGenuine(u: Unit, l: Link, s: Move)
    requires Genuine(u, l) && CanMove(u, l, s)
    ensures Genuine(u, Moved(u, l, s))
  {
    hide Full, Own, JobFits, Frames, LineFrames, RecordLine, Broadcast;
    StepKeepsJob(u, l, s);
    CopyOwn(u, l);
    if s.Line? {
      NextLine(u, l);
      BroadcastOwn(u, l, LineFrames(map[u.id := l.job.value], [u.id], l.lines + 1, u.output[l.lines]));
    }
    PlainOwn(Full(u), u.id);
    if s.Tick? { BroadcastOwn(u, l, [Frame.Progress(u.id)]); }
    if s.Finish? { BroadcastOwn(u, l, [Frame.Done(u.id, s.body)]); }
  }

  lemma PlainOwn(full: seq<(nat, string)>, id: Id)
    ensures Own(full, Frame.Progress(id))
    ensures forall body :: Own(full, Frame.Done(id, body))
    ensures forall ok, reason :: Own(full, Frame.Ack(id, ok, reason))
  {
  }

  lemma {:induction false} RunKeepsGenuine(u: Unit, from: Link, steps: seq<Move>, to: Link)
    requires Genuine(u, from) && Leads(u, from, steps, to)
    ensures Genuine(u, to)
    decreases |steps|
  {
    hide Genuine, CanMove, Moved;
    if steps != [] {
      StepKeepsGenuine(u, from, steps[0]);
      RunKeepsGenuine(u, Moved(u, from, steps[0]), steps[1..], to);
    }
  }

  /** Before anything is subscribed: no connection, and the job unknown or in
      any state it can be in. */
  ghost predicate Initial(u: Unit, l: Link) {
    JobFits(u, l) && l.conns == map[] && l.got == []
  }

  lemma {:induction false} ToldOwn(target: string, full: seq<(nat, string)>, fs: seq<Frame>)
    requires AllOwn(full, fs)
    ensures forall e | e in Tell(target, fs) && e.Log? && e.seqno > 0 ::
      e.seqno <= |full| && full[e.seqno - 1] == (e.seqno, e.line)
  {
    if fs != [] {
      var before := fs[..|fs| - 1];
      assert fs == before + [fs[|fs| - 1]];
      ToldOwn(target, full, before);
      assert Own(full, fs[|fs| - 1]);
      hide Ended, Top;
    }
  }

  /** Safety over every run of recording, cutting, reconnecting, re-sent starts,
      refusals, replays and crashes: the client sees lines with strictly
      increasing numbers, each the agent's own line of that number, and nothing
      after the result. */
  lemma LinkIsSafe(u: Unit, from: Link, steps: seq<Move>, to: Link)
    requires Initial(u, from) && Leads(u, from, steps, to)
    ensures Tidy(Tell(u.target, to.got))
    ensures forall e | e in Tell(u.target, to.got) && e.Log? && e.seqno > 0 ::
      e.seqno <= |Full(u)| && Full(u)[e.seqno - 1] == (e.seqno, e.line)
  {
    hide JobFits, Leads, Full, Own, Tell, Tidy;
    RunKeepsGenuine(u, from, steps, to);
    TellIsTidy(u.target, to.got);
    ToldOwn(u.target, Full(u), to.got);
  }
}
