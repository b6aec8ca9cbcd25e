/** Whole runs of the agent, with crashes anywhere (src/agent/jobs.rs). */
module JobRuns {
  import opened Wrappers
  import opened Proto
  import opened JobTable
  import opened JobInvariants
  import opened JobRecovery

  // ----- every reachable state -----

  /** The agent process is up, or only its state directory is there. */
  datatype World = Up(agent: Agent) | Down(disk: map<Id, Job>)

  datatype Event =
    | Does(s: Step)
    | Crashes(s: Step, saved: nat)
    | Boots(now: nat, r: Retention, done: seq<Id>, order: seq<Id>)
    | CrashesBooting(now: nat, r: Retention, done: seq<Id>, saved: nat)

  ghost predicate Possible(w: World, e: Event) {
    match e
    case Does(s) => w.Up? && Enabled(w.agent, s)
    case Crashes(s, saved) => w.Up? && Enabled(w.agent, s) && saved <= |Writes(w.agent, s)|
    case Boots(now, r, done, order) =>
      w.Down? && DoneOrder(w.disk, done) && Lists(order, Kept(w.disk, now, r, done).Keys)
    case CrashesBooting(now, r, done, saved) =>
      w.Down? && DoneOrder(w.disk, done) && saved <= |PruneWrites(w.disk, now, r, done, |done|)|
  }

  ghost function After(w: World, e: Event): World
    requires Possible(w, e)
  {
    match e
    case Does(s) => Up(Do(w.agent, s))
    case Crashes(s, saved) => Down(Apply(w.agent.disk, Writes(w.agent, s)[..saved]))
    case Boots(now, r, done, order) => Up(Booted(w.disk, now, r, done, order))
    case CrashesBooting(now, r, done, saved) =>
      Down(Apply(w.disk, PruneWrites(w.disk, now, r, done, |done|)[..saved]))
  }

  /** The events lead from the one state to the other. */
  ghost predicate Leads(from: World, events: seq<Event>, to: World)
    decreases |events|
  {
    if events == [] then from == to
    else Possible(from, events[0]) && Leads(After(from, events[0]), events[1..], to)
  }

  ghost predicate WorldOk(w: World) {
    match w case Up(a) => Inv(a) case Down(disk) => DiskOk(disk)
  }

  lemma EventKeeps(w: World, e: Event)
    requires WorldOk(w) && Possible(w, e)
    ensures WorldOk(After(w, e))
  {
    hide Inv, DiskOk, Do, Apply, PruneWrites, DoneOrder, Lists, Kept, Booted, Writes;
    match e {
      case Does(s) => StepKeeps(w.agent, s);
      case Crashes(s, saved) => CrashConsistent(w.agent, s, saved);
      case Boots(now, r, done, order) => Recovers(w.disk, now, r, done, order);
      case CrashesBooting(now, r, done, saved) =>
        var j := PrunePrefix(w.disk, now, r, done, |done|, saved);
        LoadedJobs(w.disk);
        PruneCrash(w.disk, w.disk, now, r, done, j);
    }
  }

  /** The invariant holds in every state the agent can reach from an empty
      state directory, with crashes between any two saves. */
  lemma {:induction false} EveryReachableState(w: World, events: seq<Event>, to: World)
    requires WorldOk(w) && Leads(w, events, to)
    ensures WorldOk(to)
    decreases |events|
  {
    hide WorldOk, Possible, After;
    if events != [] {
      EventKeeps(w, events[0]);
      EveryReachableState(After(w, events[0]), events[1..], to);
    }
  }

  /** In particular: no job is stranded or in two lists, a flakelet's slot is
      busy exactly when one run of it is live, and when that run ends the slot
      is there. */
  lemma ReachableAgent(events: seq<Event>, a: Agent)
    requires Leads(Down(map[]), events, Up(a))
    ensures forall id | id in a.jobs && a.jobs[id].state.Live() :: InRun(a, id) != InFollowup(a, id)
    ensures forall k | k in a.live ::
      k.flakelet in a.slots && a.slots[k.flakelet].running && Distinct(a.live[k].ids)
    ensures forall k, k' | k in a.live && k' in a.live && k.flakelet == k'.flakelet :: k == k'
    ensures forall f | f in a.slots && a.slots[f].running :: exists k :: k in a.live && k.flakelet == f
    ensures forall f | f in a.slots && a.slots[f].followup != [] :: a.slots[f].running
    ensures DiskOk(a.disk)
  {
    EveryReachableState(Down(map[]), events, Up(a));
    DiskIsOk(a);
    forall id | id in a.jobs && a.jobs[id].state.Live() ensures InRun(a, id) != InFollowup(a, id) {
      OnePlaceEach(a, id);
    }
    assert LiveOk(a) && SlotsOk(a);
    hide Leads, Inv, DiskOk, InRun, InFollowup, SlotsOk, LiveOk;
    forall k | k in a.live
      ensures k.number == Begun(a, k.flakelet) && k.flakelet in a.slots &&
        a.slots[k.flakelet].running && Distinct(a.live[k].ids)
    {
      LiveRunOk(a, k);
      SlotFacts(a, k.flakelet);
    }
    forall f | f in a.slots
      ensures a.slots[f].running ==> exists k :: k in a.live && k.flakelet == f
      ensures a.slots[f].followup != [] ==> a.slots[f].running
    {
      SlotFacts(a, f);
      assert RunKey(f, Begun(a, f)).flakelet == f;
    }
  }

  /** All jobs of a live run hold the same log: numbered from one without gaps,
      as long as the run has recorded lines unless it is cut off, at most the
      cap in all and after that only the marker. */
  lemma LogsOfARun(a: Agent, key: RunKey, x: Id, y: Id)
    requires Inv(a) && key in a.live && x in a.live[key].ids && y in a.live[key].ids
    ensures x in a.jobs && y in a.jobs && a.jobs[x].logs == a.jobs[y].logs
    ensures Numbered(a.jobs[x].logs) && Capped(a.jobs[x].logs)
    ensures if a.jobs[x].truncated then EndsInMarker(a.jobs[x].logs) else |a.jobs[x].logs| == a.live[key].lines
  {
    assert RunOk(a, key) && JobOk(a.jobs[x]);
  }

  // ----- which run finishes a job -----

  /** The runs of a flakelet that have ended. */
  function Ended(a: Agent, f: string): int {
    Begun(a, f) - if SlotOf(a, f).running then 1 else 0
  }

  predicate Ends(s: Step, f: string) {
    s.Complete? && s.key.flakelet == f
  }

  lemma CountsEndedRuns(a: Agent, s: Step, f: string)
    requires Inv(a) && Enabled(a, s)
    ensures Ended(Do(a, s), f) == Ended(a, f) + if Ends(s, f) then 1 else 0
  {
    hide Inv;
    if s.Complete? {
      CompleteFacts(a, s.key);
    }
    hide Apply, Saves, MarkedDone, MarkedRunning, PruneWrites, Kept, DoneOrder, RecordLine;
  }

  lemma CompleteFacts(a: Agent, key: RunKey)
    requires Inv(a) && key in a.live
    ensures key.flakelet in a.slots && a.slots[key.flakelet].running && key.number == Begun(a, key.flakelet)
  {
    LiveRunOk(a, key);
    assert SlotsOk(a);
    hide Inv, RunOk, SlotsOk;
    SlotFacts(a, key.flakelet);
  }

  /** Steps without a crash, none of which adds the id anew. */
  ghost predicate Runs(a: Agent, steps: seq<Step>, id: Id, b: Agent)
    decreases |steps|
  {
    if steps == [] then a == b
    else
      && Enabled(a, steps[0])
      && !(steps[0].Start? && steps[0].id == id && Adds(a, id, steps[0].flakelet))
      && Runs(Do(a, steps[0]), steps[1..], id, b)
  }

  function EndedIn(steps: seq<Step>, f: string): nat {
    if steps == [] then 0 else (if Ends(steps[0], f) then 1 else 0) + EndedIn(steps[1..], f)
  }

  /** A job that arrived when `n` runs of its flakelet had begun is waiting, or
      was finished by run `n + 1`. */
  ghost predicate Awaits(a: Agent, id: Id, f: string, n: nat) {
    && id in a.arrived && a.arrived[id] == n
    && (id in a.finishedBy || (id in a.jobs && a.jobs[id].flakelet == f && a.jobs[id].state.Live()))
  }

  lemma StepAwaits(a: Agent, s: Step, id: Id, f: string, n: nat)
    requires Inv(a) && Enabled(a, s) && Awaits(a, id, f, n)
    requires !(s.Start? && s.id == id && Adds(a, id, s.flakelet))
    ensures Awaits(Do(a, s), id, f, n)
  {
    hide Inv, Apply, Saves, PruneWrites;
    if s.Prune? { UnfinishedStay(a, s.now, s.r, s.order); }
    hide Kept, DoneOrder;
  }

  lemma {:induction false} RunsAwait(a: Agent, steps: seq<Step>, b: Agent, id: Id, f: string, n: nat)
    requires Inv(a) && Awaits(a, id, f, n) && Runs(a, steps, id, b)
    ensures Inv(b) && Awaits(b, id, f, n) && Ended(b, f) == Ended(a, f) + EndedIn(steps, f)
    decreases |steps|
  {
    hide Inv, Do, Enabled, Awaits, Ended;
    if steps != [] {
      StepKeeps(a, steps[0]);
      StepAwaits(a, steps[0], id, f, n);
      CountsEndedRuns(a, steps[0], f);
      RunsAwait(Do(a, steps[0]), steps[1..], b, id, f, n);
    }
  }

  /** A waiting job's run has begun, or will when the current one ends. */
  lemma WaitingBound(a: Agent, id: Id, f: string, n: nat)
    requires Inv(a) && Awaits(a, id, f, n)
    ensures if id in a.finishedBy then a.finishedBy[id] == n + 1 else Ended(a, f) <= n
  {
    if id !in a.finishedBy {
      OnePlaceEach(a, id);
      var key := RunKey(f, Begun(a, f));
      assert LiveOk(a) && SlotsOk(a);
      if InRun(a, id) { LiveRunOk(a, key); RunIds(a, key); }
      if InFollowup(a, id) { assert SlotOk(a, f); FollowupIds(a, f); }
      hide Inv, RunOk, SlotOk, LiveOk, SlotsOk;
    }
  }

  lemma StartAwaits(a: Agent, start: Step)
    requires start.Start? && Adds(a, start.id, start.flakelet)
    ensures Awaits(Do(a, start), start.id, start.flakelet, Begun(a, start.flakelet))
  {
    hide Serialized;
  }

  /** Absent a crash, however many starts pile up, a job is finished only by a
      run that begins after it arrived, indeed by the first one, and at the
      latest when a run of its flakelet ends for the second time. Then it is done,
      unless retention dropped it since, and is part of no later run: it is never
      finished again. */
  lemma FinishedByFirstRunAfterArrival(a: Agent, start: Step, steps: seq<Step>, b: Agent)
    requires Inv(a) && start.Start? && Adds(a, start.id, start.flakelet)
    requires Runs(Do(a, start), steps, start.id, b)
    ensures start.id in b.finishedBy ==>
      && b.finishedBy[start.id] == Begun(a, start.flakelet) + 1
      && (start.id in b.jobs ==> b.jobs[start.id].state.Done?)
      && forall k | k in b.live :: start.id !in b.live[k].ids
    ensures start.id !in b.finishedBy ==> start.id in b.jobs && b.jobs[start.id].state.Live()
    ensures EndedIn(steps, start.flakelet) >= 2 ==> start.id in b.finishedBy
  {
    var id, f := start.id, start.flakelet;
    var n, c := Begun(a, f), Do(a, start);
    hide Inv, Do, Awaits, Runs, Started;
    StartAwaits(a, start);
    StepKeeps(a, start);
    CountsEndedRuns(a, start, f);
    RunsAwait(c, steps, b, id, f, n);
    WaitingBound(b, id, f, n);
    AwaitsOrDone(b, id, f, n);
    if id in b.finishedBy { FinishedOnce(b, id); }
  }

  lemma AwaitsOrDone(a: Agent, id: Id, f: string, n: nat)
    requires Awaits(a, id, f, n)
    ensures id !in a.finishedBy ==> id in a.jobs && a.jobs[id].state.Live()
  {
  }

  /** What a run has finished is done, and no run has it among its jobs. */
  lemma FinishedOnce(a: Agent, id: Id)
    requires Inv(a) && id in a.finishedBy
    ensures id in a.jobs ==> a.jobs[id].state.Done?
    ensures forall k | k in a.live :: id !in a.live[k].ids
  {
    assert LiveOk(a) && HistoryOk(a);
    hide Inv, RunOk, LiveOk;
    forall k | k in a.live ensures id !in a.live[k].ids {
      LiveRunOk(a, k);
      RunIds(a, k);
    }
  }

  // ----- retention -----

  lemma {:induction false} SizeOfDistinct(ids: seq<Id>, s: set<Id>)
    requires Distinct(ids) && forall id :: id in s <==> id in ids
    ensures |s| == |ids|
  {
    if ids == [] {
      assert s == {};
    } else {
      var front, id := ids[..|ids| - 1], ids[|ids| - 1];
      assert ids == front + [id];
      SizeOfDistinct(front, s - {id});
    }
  }

  lemma OlderDropsToo(jobs: map<Id, Job>, now: nat, r: Retention, order: seq<Id>, i: nat, j: nat)
    requires DoneOrder(jobs, order) && i <= j < |order| && Drops(jobs, now, r, order, j)
    ensures Drops(jobs, now, r, order, i)
  {
    assert i < j ==> Before(jobs, order[i], order[j]);
  }

  lemma {:induction false} DropsPrefix(jobs: map<Id, Job>, now: nat, r: Retention, order: seq<Id>, k: nat)
    returns (n: nat)
    requires DoneOrder(jobs, order) && k <= |order|
    requires forall i | k <= i < |order| :: !Drops(jobs, now, r, order, i)
    ensures n <= k
    ensures forall i | 0 <= i < |order| :: Drops(jobs, now, r, order, i) <==> i < n
  {
    if k == 0 || Drops(jobs, now, r, order, k - 1) {
      n := k;
      forall i | 0 <= i < k ensures Drops(jobs, now, r, order, i) { OlderDropsToo(jobs, now, r, order, i, k - 1); }
    } else {
      n := DropsPrefix(jobs, now, r, order, k - 1);
    }
  }

  function Unfinished(jobs: map<Id, Job>): set<Id> {
    set id | id in jobs && !jobs[id].state.Done?
  }

  /** Retention removes exactly the oldest `n` finished jobs and no other.
      Afterwards the table is within its limit unless unfinished jobs alone
      exceed it, every finished job is young enough to be kept, and those too
      old for logs have none. */
  lemma PruneDropsOldest(jobs: map<Id, Job>, now: nat, r: Retention, order: seq<Id>) returns (n: nat)
    requires DoneOrder(jobs, order)
    ensures n <= |order|
    ensures forall id :: id in Kept(jobs, now, r, order) <==> id in jobs && id !in order[..n]
    ensures var kept, unfinished := Kept(jobs, now, r, order), Unfinished(jobs);
      && |kept| == |jobs| - n
      && (|kept| <= r.maxJobs || |kept| == |unfinished|)
      && unfinished <= kept.Keys
    ensures OldestGo(jobs, Kept(jobs, now, r, order))
    ensures DropsForCause(jobs, Kept(jobs, now, r, order), now, r)
    ensures StripsOldLogs(jobs, Kept(jobs, now, r, order), now, r)
  {
    hide Drops, Kept, Gone, DoneOrder;
    n := DropsPrefix(jobs, now, r, order, |order|);
    GoneIsPrefix(jobs, now, r, order, n);
    SizeAfterPrune(jobs, now, r, order, n);
    KeptAre(jobs, now, r, order, n);
    DroppedAreOldest(jobs, now, r, order, n);
    DroppedForCause(jobs, now, r, order, n);
    StrippedAre(jobs, now, r, order);
  }

  lemma KeptAre(jobs: map<Id, Job>, now: nat, r: Retention, order: seq<Id>, n: nat)
    requires n <= |order| && forall id :: id in Gone(jobs, now, r, order) <==> id in order[..n]
    ensures forall id :: id in Kept(jobs, now, r, order) <==> id in jobs && id !in order[..n]
  {
    hide Gone;
  }

  /** Only finished jobs go, and none before an older one. */
  predicate OldestGo(jobs: map<Id, Job>, kept: map<Id, Job>) {
    && (forall id | id in jobs && id !in kept :: jobs[id].state == JobState.Done)
    && forall x, y | x in jobs && x !in kept && y in kept && y in jobs && jobs[y].state == JobState.Done ::
         jobs[x].created < jobs[y].created || (jobs[x].created == jobs[y].created && x < y)
  }

  /** A finished job goes when its days are over, and none stays longer. A younger
      one goes only as long as there are more than may be kept. */
  predicate DropsForCause(jobs: map<Id, Job>, kept: map<Id, Job>, now: nat, r: Retention) {
    && (forall id | id in jobs && id !in kept ::
          jobs[id].created + 86400 * r.keepJobsDays <= now || |kept| >= r.maxJobs)
    && (|jobs| <= r.maxJobs ==>
          forall id | id in jobs && id !in kept :: jobs[id].created + 86400 * r.keepJobsDays <= now)
    && forall id | id in kept && id in jobs && jobs[id].state == JobState.Done ::
         now < jobs[id].created + 86400 * r.keepJobsDays
  }

  /** A kept job is as it was, but for the log of a finished one that is old. */
  predicate StripsOldLogs(jobs: map<Id, Job>, kept: map<Id, Job>, now: nat, r: Retention) {
    forall id | id in kept :: id in jobs &&
      if jobs[id].state == JobState.Done && jobs[id].created + 86400 * r.keepLogsDays <= now && jobs[id].logs != []
      then kept[id] == jobs[id].(logs := [], truncated := true)
      else kept[id] == jobs[id]
  }

  lemma DroppedAreOldest(jobs: map<Id, Job>, now: nat, r: Retention, order: seq<Id>, n: nat)
    requires DoneOrder(jobs, order) && n <= |order|
    requires forall id :: id in Kept(jobs, now, r, order) <==> id in jobs && id !in order[..n]
    ensures OldestGo(jobs, Kept(jobs, now, r, order))
  {
    hide Kept;
    var kept := Kept(jobs, now, r, order);
    assert forall i | 0 <= i < n :: order[i] in order[..n];
    forall x, y | x in jobs && x !in kept && y in kept && y in jobs && jobs[y].state == JobState.Done
      ensures jobs[x].created < jobs[y].created || (jobs[x].created == jobs[y].created && x < y)
    {
      var i :| 0 <= i < n && order[i] == x;
      var j :| 0 <= j < |order| && order[j] == y;
      assert Before(jobs, order[i], order[j]);
    }
  }

  lemma DropsAre(jobs: map<Id, Job>, now: nat, r: Retention, order: seq<Id>, i: nat)
    requires i < |order| && order[i] in jobs
    ensures Drops(jobs, now, r, order, i) <==>
      i + r.maxJobs < |jobs| || jobs[order[i]].created + 86400 * r.keepJobsDays <= now
  {
  }

  lemma DroppedForCause(jobs: map<Id, Job>, now: nat, r: Retention, order: seq<Id>, n: nat)
    requires DoneOrder(jobs, order) && n <= |order| && |Kept(jobs, now, r, order)| == |jobs| - n
    requires forall i | 0 <= i < |order| :: Drops(jobs, now, r, order, i) <==> i < n
    requires forall id :: id in Kept(jobs, now, r, order) <==> id in jobs && id !in order[..n]
    ensures DropsForCause(jobs, Kept(jobs, now, r, order), now, r)
  {
    hide Kept, Drops;
    var kept := Kept(jobs, now, r, order);
    assert forall i | 0 <= i < n :: order[i] in order[..n];
    forall id | id in jobs && id !in kept
      ensures jobs[id].created + 86400 * r.keepJobsDays <= now || (|kept| >= r.maxJobs && |jobs| > r.maxJobs)
    {
      var i :| 0 <= i < n && order[i] == id;
      DropsAre(jobs, now, r, order, i);
      DropsAre(jobs, now, r, order, n - 1);
      if i < n - 1 { assert Before(jobs, order[i], order[n - 1]); }
    }
    forall id | id in kept && id in jobs && jobs[id].state == JobState.Done
      ensures now < jobs[id].created + 86400 * r.keepJobsDays
    {
      var i :| 0 <= i < |order| && order[i] == id;
      DropsAre(jobs, now, r, order, i);
    }
  }

  lemma StrippedAre(jobs: map<Id, Job>, now: nat, r: Retention, order: seq<Id>)
    ensures StripsOldLogs(jobs, Kept(jobs, now, r, order), now, r)
  {
    hide Gone;
  }

  lemma GoneIsPrefix(jobs: map<Id, Job>, now: nat, r: Retention, order: seq<Id>, n: nat)
    requires n <= |order| && forall i | 0 <= i < |order| :: Drops(jobs, now, r, order, i) <==> i < n
    ensures forall id :: id in Gone(jobs, now, r, order) <==> id in order[..n]
  {
    hide Drops;
    forall id ensures id in Gone(jobs, now, r, order) <==> id in order[..n] {
      if id in order[..n] {
        var i :| 0 <= i < n && order[i] == id;
        assert Drops(jobs, now, r, order, i);
      }
    }
  }

  lemma SizeAfterPrune(jobs: map<Id, Job>, now: nat, r: Retention, order: seq<Id>, n: nat)
    requires DoneOrder(jobs, order) && n <= |order|
    requires forall i | 0 <= i < |order| :: Drops(jobs, now, r, order, i) <==> i < n
    ensures var kept, unfinished := Kept(jobs, now, r, order), Unfinished(jobs);
      && |kept| == |jobs| - n
      && (|kept| <= r.maxJobs || |kept| == |unfinished|)
      && unfinished <= kept.Keys
  {
    hide Drops, Expired, Gone, DoneOrder, Kept;
    if n < |order| { Undropped(jobs, now, r, order, n); }
    KeptSize(jobs, now, r, order, n);
    UnfinishedSize(jobs, order);
    UnfinishedKept(jobs, now, r, order);
  }

  lemma UnfinishedKept(jobs: map<Id, Job>, now: nat, r: Retention, order: seq<Id>)
    requires DoneOrder(jobs, order)
    ensures Unfinished(jobs) <= Kept(jobs, now, r, order).Keys
  {
    hide Kept, DoneOrder;
    assert Loaded(jobs).jobs == jobs;
    UnfinishedStay(Loaded(jobs), now, r, order);
  }

  lemma KeptSize(jobs: map<Id, Job>, now: nat, r: Retention, order: seq<Id>, n: nat)
    requires DoneOrder(jobs, order) && n <= |order|
    requires forall i | 0 <= i < |order| :: Drops(jobs, now, r, order, i) <==> i < n
    ensures |Kept(jobs, now, r, order)| == |jobs| - n
  {
    hide Drops, Expired, Gone, DoneOrder, Distinct;
    GoneIsPrefix(jobs, now, r, order, n);
    OrderIsDistinct(jobs, order);
    PrefixIsDistinct(order, n);
    UnfinishedAre(jobs, order);
    var kept, gone := Kept(jobs, now, r, order), Gone(jobs, now, r, order);
    SizeOfDistinct(order[..n], gone);
    assert kept.Keys == jobs.Keys - gone;
  }

  lemma UnfinishedSize(jobs: map<Id, Job>, order: seq<Id>)
    requires DoneOrder(jobs, order)
    ensures |Unfinished(jobs)| == |jobs| - |order|
  {
    hide DoneOrder, Distinct, Unfinished;
    OrderIsDistinct(jobs, order);
    UnfinishedRest(jobs, order);
    SizeOfDistinct(order, jobs.Keys - Unfinished(jobs));
  }

  lemma UnfinishedRest(jobs: map<Id, Job>, order: seq<Id>)
    requires DoneOrder(jobs, order)
    ensures Unfinished(jobs) <= jobs.Keys
    ensures forall id :: id in jobs.Keys - Unfinished(jobs) <==> id in order
  {
    UnfinishedAre(jobs, order);
    hide DoneOrder;
  }

  lemma Undropped(jobs: map<Id, Job>, now: nat, r: Retention, order: seq<Id>, n: nat)
    requires n < |order| && !Drops(jobs, now, r, order, n)
    ensures |jobs| <= n + r.maxJobs
  {
  }

  lemma PrefixIsDistinct(order: seq<Id>, n: nat)
    requires Distinct(order) && n <= |order|
    ensures Distinct(order[..n])
  {
  }

  lemma UnfinishedAre(jobs: map<Id, Job>, order: seq<Id>)
    requires DoneOrder(jobs, order)
    ensures forall id :: id in jobs && jobs[id].state.Done? <==> id in order
  {
  }
}
