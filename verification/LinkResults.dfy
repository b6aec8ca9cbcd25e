/** The result a link delivers is one its unit ended with (src/agent/conn.rs,
    src/agent/jobs.rs). */
module LinkResults {
  import opened Wrappers
  import opened Proto
  import opened JobTable
  import opened Telling
  import opened Links
  import R = JobResults

  /** Every result among the frames is the job's, and one its unit ended with. */
  predicate Within(u: Unit, fs: seq<Frame>) {
    forall f | f in fs && f.Done? :: f.id == u.id && f.body in u.results
  }

  ghost predicate AllWithin(u: Unit, l: Link) {
    && JobFits(u, l) && Within(u, l.got)
    && forall c | c in l.conns :: Within(u, l.conns[c].queue) && Within(u, l.conns[c].wire)
  }

  lemma ReplayWithin(u: Unit, j: Job)
    requires j.done.Some? ==> j.done.value in u.results
    ensures Within(u, Frames(u.id, j))
  {
    hide Frames;
    R.FramesAre(u.id, j);
    var fs, n := Frames(u.id, j), |j.logs|;
    forall k | 1 <= k <= n ensures fs[k].Log? {
      assert fs[(k - 1) + 1] == Frame.Log(u.id, j.logs[k - 1].0, j.logs[k - 1].1);
    }
  }

  lemma LineWithin(u: Unit, j: Job, n: nat, line: string)
    ensures Within(u, LineFrames(map[u.id := j], [u.id], n, line))
  {
    assert [u.id][..0] == [];
  }

  lemma BroadcastWithin(u: Unit, l: Link, fs: seq<Frame>)
    requires AllWithin(u, l) && Within(u, fs)
    ensures forall c | c in Broadcast(l, fs) ::
      Within(u, Broadcast(l, fs)[c].queue) && Within(u, Broadcast(l, fs)[c].wire)
  {
    hide JobFits;
  }

  lemma CopyWithin(u: Unit, l: Link)
    requires JobFits(u, l)
    ensures l.job.Some? ==> Within(u, Frames(u.id, l.job.value))
  {
    if l.job.Some? { ReplayWithin(u, l.job.value); }
  }

  lemma QueueWithin(u: Unit)
    ensures Within(u, []) && Within(u, [Frame.Progress(u.id)])
    ensures forall body | body in u.results :: Within(u, [Frame.Done(u.id, body)])
    ensures forall ok, reason :: Within(u, [Frame.Ack(u.id, ok, reason)])
    ensures forall fs, more | Within(u, fs) && Within(u, more) :: Within(u, fs + more)
    ensures forall fs: seq<Frame> | Within(u, fs) && fs != [] :: Within(u, fs[1..]) && Within(u, [fs[0]])
  {
  }

  lemma StepWithin(u: Unit, l: Link, s: Move)
    requires AllWithin(u, l) && CanMove(u, l, s)
    ensures AllWithin(u, Moved(u, l, s))
  {
    hide Frames, LineFrames, RecordLine, MarkRunning, MarkDone, Broadcast, JobFits, Within;
    StepKeepsJob(u, l, s);
    CopyWithin(u, l);
    QueueWithin(u);
    match s {
      case Line =>
        var n, line := l.lines + 1, u.output[l.lines];
        LineWithin(u, l.job.value, n, line);
        BroadcastWithin(u, l, LineFrames(map[u.id := l.job.value], [u.id], n, line));
      case Tick => BroadcastWithin(u, l, [Frame.Progress(u.id)]);
      case Finish(body, _) => BroadcastWithin(u, l, [Frame.Done(u.id, body)]);
      case _ =>
    }
  }

  lemma {:induction false} RunWithin(u: Unit, from: Link, steps: seq<Move>, to: Link)
    requires AllWithin(u, from) && Leads(u, from, steps, to)
    ensures AllWithin(u, to)
    decreases |steps|
  {
    hide AllWithin, CanMove, Moved;
    if steps != [] {
      StepWithin(u, from, steps[0]);
      RunWithin(u, Moved(u, from, steps[0]), steps[1..], to);
    }
  }

  /** A run is also one of a unit with fewer results, as long as those it ended
      with are among them. */
  lemma {:induction false} FewerResults(u: Unit, from: Link, steps: seq<Move>, to: Link, some: set<DoneBody>)
    requires Leads(u, from, steps, to)
    requires forall s | s in steps && s.Finish? :: s.body in some
    ensures Leads(u.(results := some), from, steps, to)
    decreases |steps|
  {
    if steps != [] {
      var s, v := steps[0], u.(results := some);
      assert s in steps;
      assert CanMove(v, from, s) && Moved(v, from, s) == Moved(u, from, s);
      hide CanMove, Moved;
      FewerResults(u, Moved(u, from, s), steps[1..], to, some);
    }
  }

  /** Over every run of the link, every result that is delivered is one the unit
      ended with in that run, or the one the job had at its beginning. */
  lemma DeliversResult(u: Unit, from: Link, steps: seq<Move>, to: Link, f: Frame)
    requires Initial(u, from) && Leads(u, from, steps, to) && f in to.got && f.Done?
    ensures f.id == u.id && f.body in u.results
    ensures (from.job.Some? && from.job.value.done == Some(f.body)) ||
      exists k :: 0 <= k < |steps| && steps[k].Finish? && steps[k].body == f.body
  {
    hide Leads;
    var had := if from.job.Some? && from.job.value.done.Some? then {from.job.value.done.value} else {};
    var ended := set s | s in steps && s.Finish? :: s.body;
    var v := u.(results := ended + had);
    forall s | s in steps && s.Finish? ensures s.body in v.results {
      assert s.body in ended;
    }
    FewerResults(u, from, steps, to, v.results);
    SameLog(u, v, from.lines);
    RunWithin(v, from, steps, to);
    if f.body in ended {
      var s :| s in steps && s.Finish? && s.body == f.body;
    }
    hide Initial;
    RunWithin(u, from, steps, to);
  }

  lemma {:induction false} SameLog(u: Unit, v: Unit, n: nat)
    requires n <= |u.output| && v.output == u.output
    ensures Recorded(v, n) == Recorded(u, n)
  {
    hide RecordLine;
    if n > 0 { SameLog(u, v, n - 1); }
  }

  /** The frame that closed a target that has a result. */
  lemma {:induction false} ClosedBy(fs: seq<Frame>) returns (j: nat)
    requires Ended(fs)
    ensures Closes(fs, j)
  {
    var before, f := fs[..|fs| - 1], fs[|fs| - 1];
    assert fs == before + [f];
    EndedMore(before, f);
    if Ended(before) {
      j := ClosedBy(before);
    } else {
      j := |before|;
      EndingIs(f);
      OpenBefore(before, f);
    }
  }

  /** The refusal that comes with a failure in place of a result. */
  predicate Refuses(es: seq<Event>, e: Event) {
    e.Done? && e.body.status.Failed? && exists x :: x in es && x.Log? && x.seqno == 0
  }

  /** And so is every result a client is told, unless the target was refused. */
  lemma TellsWhatEnded(u: Unit, from: Link, steps: seq<Move>, to: Link, e: Event)
    requires Initial(u, from) && Leads(u, from, steps, to) && e in Tell(u.target, to.got) && e.Done?
    ensures e.body in u.results || Refuses(Tell(u.target, to.got), e)
  {
    hide Leads, Tell, Initial, Ended;
    var told := Tell(u.target, to.got);
    TellIsTidy(u.target, to.got);
    var j := ClosedBy(to.got);
    TellsResult(u.target, to.got, j);
    var k :| 0 <= k < |told| && told[k] == e;
    assert k == |told| - 1;
    if to.got[j].Done? {
      assert to.got[j] in to.got;
      DeliversResult(u, from, steps, to, to.got[j]);
    } else {
      assert told[|told| - 2] in told;
    }
  }
}
