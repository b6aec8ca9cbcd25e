/** The link's job is the agent's: every locked section of the agent, seen from
    one job, is a move of the link or none (src/agent/jobs.rs). */
module LinkAgents {
  import opened Wrappers
  import opened Proto
  import opened JobTable
  import opened JobInvariants
  import I = JobInvariants
  import opened JobRecovery
  import opened Links
  import R = JobRuns

  function Entry(jobs: map<Id, Job>, id: Id): Option<Job> {
    if id in jobs then Some(jobs[id]) else None
  }

  /** The link has the agent's job, and has recorded as many lines as the live
      run the job is in. */
  ghost predicate Sees(u: Unit, a: Agent, l: Link) {
    && l.job == Entry(a.jobs, u.id)
    && forall key | key in a.live && u.id in a.live[key].ids :: a.live[key].lines == l.lines
  }

  predicate Concerns(a: Agent, id: Id, key: RunKey) {
    key in a.live && id in a.live[key].ids
  }

  /** What a step of the agent is for the link. A start comes over connection `c`. */
  function MoveOf(u: Unit, a: Agent, s: Step, c: nat): Option<Move> {
    match s
    case Start(id, f, who, now) =>
      if id != u.id then None
      else if f !in a.described then Some(Refuse(c, "no such flakelet on this host"))
      else if id in a.jobs && a.jobs[id].flakelet != f then Some(Refuse(c, "id already used for another flakelet"))
      else Some(HandleStart(c, f, who, now))
    case Launch(key, run) => if Concerns(a, u.id, key) then Some(Move.Launch(run)) else None
    case Line(key, _) => if Concerns(a, u.id, key) then Some(Move.Line) else None
    case Complete(key, body, now) => if Concerns(a, u.id, key) then Some(Finish(body, now)) else None
    case _ => None
  }

  /** The link after a move, if there is one. */
  ghost function Then(u: Unit, l: Link, m: Option<Move>): Link
    requires m.Some? ==> CanMove(u, l, m.value)
  {
    if m.None? then l else Moved(u, l, m.value)
  }

  /** The move can be made and leads to a link that sees the agent. */
  ghost predicate Keeps(u: Unit, a: Agent, l: Link, m: Option<Move>) {
    (m.Some? ==> CanMove(u, l, m.value)) && Sees(u, a, Then(u, l, m))
  }

  /** Some frames were written to a connection. */
  ghost predicate Answered(l: Link, l': Link, c: nat, fs: seq<Frame>) {
    c in l.conns && c in l'.conns && l'.conns[c].wire == l.conns[c].wire + fs
  }

  /** The unit writes its lines in order and ends after the last, with one of its
      results; the job stays in the table with its log; its id is not that of a local switch. */
  ghost predicate Follows(u: Unit, a: Agent, s: Step) {
    match s
    case Line(key, line) =>
      Concerns(a, u.id, key) ==> a.live[key].lines < |u.output| && line == u.output[a.live[key].lines]
    case Complete(key, body, _) =>
      Concerns(a, u.id, key) ==> a.live[key].lines == |u.output| && body in u.results
    case Prune(now, r, order) => u.id in a.jobs ==> Entry(Kept(a.jobs, now, r, order), u.id) == Some(a.jobs[u.id])
    case Local(_, id, _, _, _, _) => id != u.id || u.id in a.jobs
    case _ => true
  }

  /** A job in a live run is not finished, and in no other. */
  lemma InOneRun(u: Unit, a: Agent, key: RunKey)
    requires I.Inv(a) && Concerns(a, u.id, key)
    ensures u.id in a.jobs
    ensures a.jobs[u.id].state == if a.live[key].run.None? then JobState.Pending else JobState.Running
    ensures a.live[key].run.None? ==> a.live[key].lines == 0
    ensures forall k | Concerns(a, u.id, k) :: k == key
    ensures forall f | f in a.slots :: u.id !in a.slots[f].followup
  {
    LiveRunOk(a, key);
    OnePlace(a, key);
    hide LogOk, Distinct, LiveOk, SlotsOk, Covered;
  }

  lemma RunOfJob(a: Agent, id: Id)
    requires I.Inv(a)
    ensures id !in a.jobs ==> forall k :: !Concerns(a, id, k)
    ensures forall f | f in a.slots && id in a.slots[f].followup :: id in a.jobs && a.jobs[id].state.Pending?
  {
    hide LogOk, Distinct, Covered, JobsOk, DiskMatches;
    forall k | Concerns(a, id, k) ensures id in a.jobs {
      LiveRunOk(a, k);
    }
    forall f | f in a.slots && id in a.slots[f].followup ensures id in a.jobs && a.jobs[id].state.Pending? {
      assert SlotOk(a, f);
    }
  }

  lemma StartIsMove(u: Unit, a: Agent, s: Step, l: Link, c: nat)
    requires I.Inv(a) && s.Start? && Sees(u, a, l) && JobFits(u, l)
    requires s.id == u.id ==> IsOpen(l, c)
    ensures Keeps(u, Do(a, s), l, MoveOf(u, a, s, c))
    ensures s.id == u.id ==> Answered(l, Then(u, l, MoveOf(u, a, s, c)), c, Reply(a, s.id, s.flakelet))
  {
    hide I.Inv, Frames, NewJob, Serialized, Recorded;
    RunOfJob(a, u.id);
  }

  lemma LaunchIsMove(u: Unit, a: Agent, s: Step, l: Link, c: nat)
    requires I.Inv(a) && s.Launch? && Enabled(a, s) && Sees(u, a, l) && JobFits(u, l)
    ensures Keeps(u, Do(a, s), l, MoveOf(u, a, s, c))
  {
    hide I.Inv, Apply, Saves, MarkRunning, Recorded;
    if Concerns(a, u.id, s.key) { InOneRun(u, a, s.key); }
  }

  lemma LineIsMove(u: Unit, a: Agent, s: Step, l: Link, c: nat)
    requires I.Inv(a) && s.Line? && Enabled(a, s) && Sees(u, a, l) && JobFits(u, l) && Follows(u, a, s)
    ensures Keeps(u, Do(a, s), l, MoveOf(u, a, s, c))
  {
    hide I.Inv, RecordLine, LineFrames, Broadcast, Recorded;
    if Concerns(a, u.id, s.key) {
      InOneRun(u, a, s.key);
      assert CanMove(u, l, Move.Line);
      var b, m := Do(a, s), Moved(u, l, Move.Line);
      assert Entry(b.jobs, u.id) == Some(RecordLine(a.jobs[u.id], l.lines + 1, s.line));
      assert m.job == Entry(b.jobs, u.id);
      assert forall k | k in b.live && u.id in b.live[k].ids :: Concerns(a, u.id, k);
    }
  }

  lemma CompleteIsMove(u: Unit, a: Agent, s: Step, l: Link, c: nat)
    requires I.Inv(a) && s.Complete? && Enabled(a, s) && Sees(u, a, l) && JobFits(u, l) && Follows(u, a, s)
    ensures Keeps(u, Do(a, s), l, MoveOf(u, a, s, c))
  {
    hide I.Inv, Apply, Saves, MarkDone, Broadcast, Recorded;
    RunOfJob(a, u.id);
    if Concerns(a, u.id, s.key) { InOneRun(u, a, s.key); }
  }

  /** Every step of the agent is one move of the link, or none. A start is
      answered with what the agent answers. */
  lemma StepIsMove(u: Unit, a: Agent, s: Step, l: Link, c: nat)
    requires I.Inv(a) && Enabled(a, s) && Sees(u, a, l) && JobFits(u, l) && Follows(u, a, s)
    requires s.Start? && s.id == u.id ==> IsOpen(l, c)
    ensures Keeps(u, Do(a, s), l, MoveOf(u, a, s, c))
    ensures s.Start? && s.id == u.id ==>
      Answered(l, Then(u, l, MoveOf(u, a, s, c)), c, Reply(a, s.id, s.flakelet))
  {
    hide I.Inv, JobFits, Reply, CanMove, Moved, Started, Launched, Logged, Completed, Apply, PruneWrites, Gone;
    match s {
      case Start(_, _, _, _) => StartIsMove(u, a, s, l, c);
      case Launch(_, _) => LaunchIsMove(u, a, s, l, c);
      case Line(_, _) => LineIsMove(u, a, s, l, c);
      case Complete(_, _, _) => CompleteIsMove(u, a, s, l, c);
      case _ =>
    }
  }

  // ----- what is broadcast -----

  /** The frames of a broadcast that belong to one job's log. */
  function FramesFor(fs: seq<Frame>, id: Id): seq<Frame> {
    if fs == [] then [] else
    var f := fs[|fs| - 1];
    FramesFor(fs[..|fs| - 1], id) + if (f.Log? || f.Done?) && f.id == id then [f] else []
  }

  lemma {:induction false} FramesForJoined(fs: seq<Frame>, more: seq<Frame>, id: Id)
    ensures FramesFor(fs + more, id) == FramesFor(fs, id) + FramesFor(more, id)
  {
    if more == [] {
      assert fs + more == fs;
    } else {
      var front := more[..|more| - 1];
      FramesForJoined(fs, front, id);
      assert (fs + more)[..|fs + more| - 1] == fs + front;
    }
  }

  lemma OneFrameFor(f: Frame, id: Id)
    ensures FramesFor([f], id) == if (f.Log? || f.Done?) && f.id == id then [f] else []
  {
    assert [f][..0] == [];
  }

  /** Of what recording a line broadcasts for a run, a job's connections get what
      the link says. */
  lemma {:induction false} LineIsHeard(jobs: map<Id, Job>, ids: seq<Id>, number: nat, line: string, id: Id)
    requires Distinct(ids)
    ensures FramesFor(LineFrames(jobs, ids, number, line), id) ==
      if id in ids && id in jobs then LineFrames(map[id := jobs[id]], [id], number, line) else []
  {
    hide FramesFor, Length;
    if ids == [] {
      NoFramesFor(id);
    } else {
      var front, last := ids[..|ids| - 1], ids[|ids| - 1];
      assert ids == front + [last];
      LineIsHeard(jobs, front, number, line, id);
      var more := if last in jobs && !jobs[last].truncated then
        [Frame.Log(last, number, if jobs[last].logBytes + Length(line) > LOG_CAP then MARKER else line)] else [];
      FramesForJoined(LineFrames(jobs, front, number, line), more, id);
      if more == [] { NoFramesFor(id); } else { OneFrameFor(more[0], id); }
      assert [id][..0] == [];
    }
  }

  lemma NoFramesFor(id: Id)
    ensures FramesFor([], id) == []
  {
  }

  /** The end of a run is broadcast once for each of its jobs. */
  lemma {:induction false} DoneIsHeard(jobs: map<Id, Job>, ids: seq<Id>, body: DoneBody, id: Id)
    requires Distinct(ids)
    ensures FramesFor(SaveFrames(jobs, ids, Some(body)), id) == if id in ids then [Frame.Done(id, body)] else []
  {
    hide FramesFor, Summary;
    if ids == [] {
      NoFramesFor(id);
    } else {
      var front, last := ids[..|ids| - 1], ids[|ids| - 1];
      assert ids == front + [last];
      DoneIsHeard(jobs, front, body, id);
      var before, job := SaveFrames(jobs, front, Some(body)),
        if last in jobs then [Frame.Job(Summary(last, jobs[last]))] else [];
      FramesForJoined(before, [Frame.Done(last, body)], id);
      OneFrameFor(Frame.Done(last, body), id);
      FramesForJoined(before + [Frame.Done(last, body)], job, id);
      if job == [] { NoFramesFor(id); } else { OneFrameFor(job[0], id); }
    }
  }

  // ----- crashes -----

  predicate Touches(ws: seq<Write>, id: Id) {
    exists k :: 0 <= k < |ws| && ws[k].id == id
  }

  /** All writes about one job write the same. */
  ghost predicate OneFile(ws: seq<Write>, id: Id, job: Job) {
    forall k | 0 <= k < |ws| && ws[k].id == id :: ws[k] == Put(id, job)
  }

  lemma {:induction false} FileIs(disk: map<Id, Job>, ws: seq<Write>, id: Id, job: Job)
    requires OneFile(ws, id, job)
    ensures Entry(Apply(disk, ws), id) == if Touches(ws, id) then Some(job) else Entry(disk, id)
  {
    if ws != [] {
      var front := ws[..|ws| - 1];
      FileIs(disk, front, id, job);
      assert Touches(ws, id) <==> Touches(front, id) || ws[|ws| - 1].id == id by {
        if Touches(front, id) {
          var k :| 0 <= k < |front| && front[k].id == id;
          assert ws[k].id == id;
        }
      }
    }
  }

  /** A prefix of the writes leaves the old file or the new one. */
  lemma OldOrNew(disk: map<Id, Job>, ws: seq<Write>, id: Id, job: Job, k: nat)
    requires OneFile(ws, id, job) && k <= |ws|
    ensures Entry(Apply(disk, ws[..k]), id) in {Entry(disk, id), Entry(Apply(disk, ws), id)}
  {
    hide Apply;
    FileIs(disk, ws, id, job);
    FileIs(disk, ws[..k], id, job);
    TouchesFirst(ws, id, k);
  }

  lemma TouchesFirst(ws: seq<Write>, id: Id, k: nat)
    requires k <= |ws|
    ensures Touches(ws[..k], id) ==> Touches(ws, id)
  {
    if j :| 0 <= j < k && ws[..k][j].id == id {
      assert ws[j].id == id;
    }
  }

  lemma {:induction false} SavesOne(jobs: map<Id, Job>, ids: seq<Id>, id: Id)
    ensures OneFile(Saves(jobs, ids), id, if id in jobs then Serialized(jobs[id]) else BLANK)
  {
    hide Serialized;
    if ids != [] {
      SavesOne(jobs, ids[..|ids| - 1], id);
    }
  }

  lemma {:induction false} PruneSpares(jobs: map<Id, Job>, now: nat, r: Retention, order: seq<Id>, k: nat, id: Id)
    requires DoneOrder(jobs, order) && k <= |order|
    requires id in jobs ==> Entry(Kept(jobs, now, r, order), id) == Some(jobs[id])
    ensures !Touches(PruneWrites(jobs, now, r, order, k), id)
  {
    hide Serialized, Drops;
    if k > 0 {
      PruneSpares(jobs, now, r, order, k - 1, id);
      assert order[k - 1] == id && Drops(jobs, now, r, order, k - 1) ==> id in Gone(jobs, now, r, order);
    }
  }

  lemma OneApplied(disk: map<Id, Job>, id: Id, job: Job)
    ensures Apply(disk, [Put(id, job)]) == disk[id := job]
  {
    assert [Put(id, job)][..0] == [];
  }

  /** A step writes the file of a job that stays at most once. */
  lemma WritesOnce(u: Unit, a: Agent, s: Step) returns (job: Job)
    requires Enabled(a, s) && Follows(u, a, s)
    ensures OneFile(Writes(a, s), u.id, job) && Do(a, s).disk == Apply(a.disk, Writes(a, s))
  {
    hide Saves, PruneWrites, Serialized, NewJob, LocalJob, DoneOrder, Kept, MarkedRunning, MarkedDone, Apply;
    job := BLANK;
    NothingApplied(a.disk);
    match s {
      case Start(id, f, who, now) =>
        job := Serialized(NewJob(f, who, now));
        OneApplied(a.disk, id, job);
      case Launch(key, run) =>
        var jobs := MarkedRunning(a, key, run);
        if u.id in jobs { job := Serialized(jobs[u.id]); }
        SavesOne(jobs, a.live[key].ids, u.id);
      case Complete(key, body, now) =>
        var jobs := MarkedDone(a, key, body, now);
        if u.id in jobs { job := Serialized(jobs[u.id]); }
        SavesOne(jobs, a.live[key].ids, u.id);
      case Prune(now, r, order) => PruneSpares(a.jobs, now, r, order, |order|, u.id);
      case Local(_, id, f, at, who, body) => OneApplied(a.disk, id, Serialized(LocalJob(f, at, who, body)));
      case _ =>
    }
  }

  /** What is on disk about a job between saves. */
  ghost function OnDisk(a: Agent, s: Step, k: nat, id: Id): Option<Job>
    requires Enabled(a, s) && k <= |Writes(a, s)|
  {
    Entry(Apply(a.disk, Writes(a, s)[..k]), id)
  }

  /** The job as a crash leaves it. */
  function Crashed(job: Option<Job>): Option<Job> {
    if job.None? then None else Some(AfterCrash(job.value, false))
  }

  lemma FileIsCrashed(a: Agent, id: Id)
    requires I.Inv(a)
    ensures Entry(a.disk, id) == Crashed(Entry(a.jobs, id))
  {
    hide LiveOk, SlotsOk, Covered, HistoryOk, Numbered, Capped;
    if id in a.jobs { assert JobOk(a.jobs[id]); }
  }

  /** The job as a crash leaves it that comes before the move, or after. */
  ghost predicate AsCrashed(u: Unit, l: Link, m: Option<Move>, job: Option<Job>) {
    || job == Crashed(l.job)
    || (m.Some? && CanMove(u, l, m.value) && job == Crashed(Moved(u, l, m.value).job))
  }

  /** A crash during a step leaves of the job what a crash before the step's move
      leaves, or one after it. */
  lemma CrashIsMove(u: Unit, a: Agent, s: Step, l: Link, c: nat, k: nat)
    requires I.Inv(a) && Enabled(a, s) && Sees(u, a, l) && JobFits(u, l) && Follows(u, a, s)
    requires s.Start? && s.id == u.id ==> IsOpen(l, c)
    requires k <= |Writes(a, s)|
    ensures AsCrashed(u, l, MoveOf(u, a, s, c), OnDisk(a, s, k, u.id))
  {
    hide I.Inv, Do, Writes, Enabled, Follows, JobFits, Apply, AfterCrash, Entry, MoveOf, CanMove, IsOpen;
    StepIsMove(u, a, s, l, c);
    var job := WritesOnce(u, a, s);
    OldOrNew(a.disk, Writes(a, s), u.id, job, k);
    FileIsCrashed(a, u.id);
    StepKeeps(a, s);
    FileIsCrashed(Do(a, s), u.id);
    hide Moved, OnDisk;
    assert OnDisk(a, s, k, u.id) in {Entry(a.disk, u.id), Entry(Do(a, s).disk, u.id)} by { OnDiskIs(a, s, k, u.id); }
  }

  lemma OnDiskIs(a: Agent, s: Step, k: nat, id: Id)
    requires Enabled(a, s) && k <= |Writes(a, s)|
    ensures OnDisk(a, s, k, id) == Entry(Apply(a.disk, Writes(a, s)[..k]), id)
  {
  }

  lemma CrashedJob(u: Unit, l: Link)
    ensures Moved(u, l, Move.Crash(false)).job == Crashed(l.job)
  {
  }

  /** A restart that keeps the job is no move. */
  lemma BootIsNoMove(u: Unit, disk: map<Id, Job>, now: nat, r: Retention, done: seq<Id>, order: seq<Id>, l: Link)
    requires DiskOk(disk) && DoneOrder(disk, done) && Lists(order, Kept(disk, now, r, done).Keys)
    requires l.job == Entry(disk, u.id) == Entry(Kept(disk, now, r, done), u.id)
    requires l.job.Some? && !l.job.value.state.Done? ==> l.lines == 0
    ensures Sees(u, Booted(disk, now, r, done, order), l)
  {
    hide DiskOk, DoneOrder, Lists, Kept, I.Inv;
    Recovers(disk, now, r, done, order);
    var b := Booted(disk, now, r, done, order);
    forall key | key in b.live && u.id in b.live[key].ids ensures b.live[key].lines == l.lines {
      InOneRun(u, b, key);
    }
  }

  // ----- whole runs -----

  /** The link and the agent agree, or the link and the state directory while the
      agent is down. */
  ghost predicate SeesWorld(u: Unit, w: R.World, l: Link) {
    match w
    case Up(a) => Sees(u, a, l)
    case Down(disk) =>
      l.job == Entry(disk, u.id) && (l.job.Some? && !l.job.value.state.Done? ==> l.lines == 0)
  }

  ghost predicate FollowsEvent(u: Unit, w: R.World, e: R.Event)
    requires R.Possible(w, e)
  {
    match e
    case Does(s) => Follows(u, w.agent, s)
    case Crashes(s, _) => Follows(u, w.agent, s)
    case Boots(now, r, done, _) => Entry(Kept(w.disk, now, r, done), u.id) == Entry(w.disk, u.id)
    case CrashesBooting(now, r, done, _) => Entry(Kept(w.disk, now, r, done), u.id) == Entry(w.disk, u.id)
  }

  ghost predicate LeadsFollowing(u: Unit, from: R.World, events: seq<R.Event>, to: R.World)
    decreases |events|
  {
    if events == [] then from == to
    else R.Possible(from, events[0]) && FollowsEvent(u, from, events[0])
         && LeadsFollowing(u, R.After(from, events[0]), events[1..], to)
  }

  lemma {:induction false} LeadsJoin(u: Unit, from: Link, steps: seq<Move>, mid: Link, more: seq<Move>, to: Link)
    requires Leads(u, from, steps, mid) && Leads(u, mid, more, to)
    ensures Leads(u, from, steps + more, to)
    decreases |steps|
  {
    hide CanMove, Moved;
    if steps == [] {
      assert steps + more == more;
    } else {
      LeadsJoin(u, Moved(u, from, steps[0]), steps[1..], mid, more, to);
      assert (steps + more)[1..] == steps[1..] + more;
    }
  }

  lemma LeadsOne(u: Unit, l: Link, m: Move)
    requires CanMove(u, l, m)
    ensures Leads(u, l, [m], Moved(u, l, m))
  {
    hide CanMove, Moved;
    assert [m][1..] == [];
  }

  lemma {:induction false} Unused(used: set<nat>) returns (c: nat)
    ensures forall x | x in used :: x < c
    decreases |used|
  {
    c := 0;
    if used != {} {
      var x :| x in used;
      c := Unused(used - {x});
      assert used == (used - {x}) + {x};
      if c <= x { c := x + 1; }
    }
  }

  /** A connection over which a start can come. */
  lemma Connected(u: Unit, a: Agent, l: Link) returns (c: nat, l': Link)
    requires Sees(u, a, l) && JobFits(u, l)
    ensures Leads(u, l, [Connect(c)], l') && Sees(u, a, l') && JobFits(u, l') && IsOpen(l', c)
  {
    hide JobFits;
    c := Unused(l.conns.Keys);
    var m := Connect(c);
    assert CanMove(u, l, m);
    l' := Moved(u, l, m);
    StepKeepsJob(u, l, m);
    LeadsOne(u, l, m);
  }

  lemma StepMoves(u: Unit, a: Agent, s: Step, l: Link) returns (moves: seq<Move>, l': Link)
    requires I.Inv(a) && Enabled(a, s) && Sees(u, a, l) && JobFits(u, l) && Follows(u, a, s)
    ensures Leads(u, l, moves, l') && Sees(u, Do(a, s), l') && JobFits(u, l')
  {
    hide I.Inv, Do, Enabled, Follows, JobFits, Sees, Leads, CanMove, Moved, MoveOf, IsOpen;
    var c, start, before := 0, l, [];
    NoMoves(u, l);
    if s.Start? { c, start := Connected(u, a, l); before := [Connect(c)]; }
    StepIsMove(u, a, s, start, c);
    var m := MoveOf(u, a, s, c);
    moves, l' := before, start;
    if m.Some? {
      l' := Moved(u, start, m.value);
      moves := before + [m.value];
      StepKeepsJob(u, start, m.value);
      LeadsOne(u, start, m.value);
      LeadsJoin(u, l, before, start, [m.value], l');
    }
  }

  lemma NoMoves(u: Unit, l: Link)
    ensures Leads(u, l, [], l)
  {
  }

  lemma CrashMoves(u: Unit, a: Agent, s: Step, l: Link, k: nat) returns (moves: seq<Move>, l': Link)
    requires I.Inv(a) && Enabled(a, s) && Sees(u, a, l) && JobFits(u, l) && Follows(u, a, s) && k <= |Writes(a, s)|
    ensures Leads(u, l, moves, l') && SeesWorld(u, R.Down(Apply(a.disk, Writes(a, s)[..k])), l') && JobFits(u, l')
  {
    hide I.Inv, Do, Writes, Apply, Enabled, Follows, JobFits, Sees, Leads, CanMove, Moved,
      MoveOf, IsOpen, OnDisk, Entry;
    var c, start, before := 0, l, [];
    NoMoves(u, l);
    if s.Start? { c, start := Connected(u, a, l); before := [Connect(c)]; }
    StepIsMove(u, a, s, start, c);
    CrashIsMove(u, a, s, start, c, k);
    OnDiskIs(a, s, k, u.id);
    var m, crash := MoveOf(u, a, s, c), Move.Crash(false);
    CanCrash(u, start);
    CrashedJob(u, start);
    if OnDisk(a, s, k, u.id) != Moved(u, start, crash).job {
      var next := Moved(u, start, m.value);
      StepKeepsJob(u, start, m.value);
      LeadsOne(u, start, m.value);
      LeadsJoin(u, l, before, start, [m.value], next);
      before, start := before + [m.value], next;
      CrashedJob(u, start);
      CanCrash(u, start);
    }
    l', moves := Moved(u, start, crash), before + [crash];
    StepKeepsJob(u, start, crash);
    LeadsOne(u, start, crash);
    LeadsJoin(u, l, before, start, [crash], l');
  }

  lemma CanCrash(u: Unit, l: Link)
    ensures CanMove(u, l, Move.Crash(false))
    ensures var l' := Moved(u, l, Move.Crash(false)); l'.job.Some? && !l'.job.value.state.Done? ==> l'.lines == 0
  {
  }

  lemma BootCrash(u: Unit, disk: map<Id, Job>, now: nat, r: Retention, done: seq<Id>, saved: nat)
    requires DoneOrder(disk, done) && saved <= |PruneWrites(disk, now, r, done, |done|)|
    requires Entry(Kept(disk, now, r, done), u.id) == Entry(disk, u.id)
    ensures Entry(Apply(disk, PruneWrites(disk, now, r, done, |done|)[..saved]), u.id) == Entry(disk, u.id)
  {
    hide Kept, PruneWrites, Apply, DoneOrder;
    PruneSpares(disk, now, r, done, |done|, u.id);
    var ws := PruneWrites(disk, now, r, done, |done|);
    TouchesFirst(ws, u.id, saved);
    FileIs(disk, ws[..saved], u.id, BLANK);
  }

  lemma EventMoves(u: Unit, w: R.World, e: R.Event, l: Link) returns (moves: seq<Move>, l': Link)
    requires R.WorldOk(w) && R.Possible(w, e) && FollowsEvent(u, w, e) && SeesWorld(u, w, l) && JobFits(u, l)
    ensures Leads(u, l, moves, l') && SeesWorld(u, R.After(w, e), l') && JobFits(u, l')
  {
    hide I.Inv, DiskOk, Do, Writes, Apply, Enabled, Follows, JobFits, Sees, Leads, Entry,
      Kept, PruneWrites, DoneOrder, Lists, Booted;
    moves, l' := [], l;
    NoMoves(u, l);
    match e {
      case Does(s) => moves, l' := StepMoves(u, w.agent, s, l);
      case Crashes(s, saved) => moves, l' := CrashMoves(u, w.agent, s, l, saved);
      case Boots(now, r, done, order) => BootIsNoMove(u, w.disk, now, r, done, order, l);
      case CrashesBooting(now, r, done, saved) => BootCrash(u, w.disk, now, r, done, saved);
    }
  }

  /** Every run of the agent, with crashes anywhere, is a run of the link. */
  lemma {:induction false} AgentRunIsLinkRun(u: Unit, from: R.World, events: seq<R.Event>, to: R.World, l: Link)
    returns (moves: seq<Move>, l': Link)
    requires R.WorldOk(from) && LeadsFollowing(u, from, events, to) && SeesWorld(u, from, l) && JobFits(u, l)
    ensures Leads(u, l, moves, l') && SeesWorld(u, to, l') && JobFits(u, l')
    decreases |events|
  {
    hide R.WorldOk, R.Possible, R.After, FollowsEvent, SeesWorld, JobFits, Leads;
    if events == [] {
      moves, l' := [], l;
      NoMoves(u, l);
    } else {
      var first, mid := EventMoves(u, from, events[0], l);
      R.EventKeeps(from, events[0]);
      var rest;
      rest, l' := AgentRunIsLinkRun(u, R.After(from, events[0]), events[1..], to, mid);
      LeadsJoin(u, l, first, mid, rest, l');
      moves := first + rest;
    }
  }

  /** So whatever the agent goes through from an empty directory on, the log of a
      job is what its unit has printed so far, cut off as it must be, and all of
      it once the job is done; its result is one the unit ended with. */
  lemma LogsAreOutput(u: Unit, events: seq<R.Event>, a: Agent)
    requires LeadsFollowing(u, R.Down(map[]), events, R.Up(a)) && u.id in a.jobs
    ensures exists n | 0 <= n <= |u.output| ::
      && a.jobs[u.id].logs == Recorded(u, n).logs
      && (forall key | Concerns(a, u.id, key) :: a.live[key].lines == n)
      && (a.jobs[u.id].state.Pending? ==> n == 0)
      && (a.jobs[u.id].state.Done? ==> a.jobs[u.id].logs == Full(u))
      && (a.jobs[u.id].done.Some? ==> a.jobs[u.id].done.value in u.results)
  {
    hide R.WorldOk, Leads, LeadsFollowing;
    var l := Link(None, 0, map[], []);
    assert R.WorldOk(R.Down(map[])) by { EmptyIsOk(); }
    var moves, l' := AgentRunIsLinkRun(u, R.Down(map[]), events, R.Up(a), l);
    hide Recorded;
    assert l'.lines <= |u.output|;
  }

  lemma EmptyIsOk()
    ensures R.WorldOk(R.Down(map[]))
  {
  }
}
