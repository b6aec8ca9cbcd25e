/** A deploy of several waves, and following one by its id
    (src/relay/api.rs, run_job and open_job). */
module Deploys {
  import opened Wrappers
  import opened Proto
  import opened Telling
  import opened Waves
  import Policies
  import Text
  import Summaries

  const LOST := "agent connection lost"

  /** What the agents do while a wave is open: whether each live target's first
      frame could be handed to its connection, the frames that arrive before
      the next target is begun, and those that arrive later. */
  datatype Channel = Channel(reached: seq<bool>, early: seq<seq<Tagged>>, later: seq<Tagged>)

  ghost predicate Serves(c: Channel, n: nat) {
    && |c.reached| == |c.early| == n && Indexed(c.later, n)
    && forall i | 0 <= i < n :: Indexed(c.early[i], i + 1)
  }

  function LiveIn(wave: seq<Planned>): seq<Planned> {
    if wave == [] then [] else
    LiveIn(wave[..|wave| - 1]) + if wave[|wave| - 1].offline then [] else [wave[|wave| - 1]]
  }

  function OfflineIn(wave: seq<Planned>): seq<TargetStatus> {
    if wave == [] then [] else
    OfflineIn(wave[..|wave| - 1]) +
    if wave[|wave| - 1].offline then [TargetStatus(wave[|wave| - 1].target, Offline)] else []
  }

  predicate AllOk(statuses: seq<TargetStatus>) {
    forall s | s in statuses :: s.status.Ok()
  }

  /** The verdict of a deploy, target by target. */
  lemma AllOkIff(statuses: seq<TargetStatus>)
    ensures AllOk(statuses) <==> forall s | s in statuses :: s.status == Status.Updated || s.status == Status.Unchanged
  {
  }

  /** A status for each target, once. */
  ghost predicate Settles(wave: seq<Planned>, statuses: seq<TargetStatus>) {
    multiset(Names(statuses)) == multiset(TargetNames(wave))
  }

  /** The targets of several waves, in order. */
  function Flat(waves: seq<seq<Planned>>): seq<string> {
    if waves == [] then [] else Flat(waves[..|waves| - 1]) + TargetNames(waves[|waves| - 1])
  }

  function Concat(done: seq<seq<TargetStatus>>): seq<TargetStatus> {
    if done == [] then [] else Concat(done[..|done| - 1]) + done[|done| - 1]
  }

  // ----- one wave -----

  /** What arrives before later frames once the first `n` targets are open: each
      that could not be reached refuses by itself. */
  function Arrivals(targets: seq<Planned>, c: Channel, id: string -> Id, n: nat): seq<Tagged>
    requires n <= |targets| == |c.reached| == |c.early|
  {
    if n == 0 then [] else
    Arrivals(targets, c, id, n - 1)
    + (if c.reached[n - 1] then [] else [(n - 1, Frame.Ack(id(targets[n - 1].target), false, LOST))])
    + c.early[n - 1]
  }

  function AllOpen(n: nat): seq<bool> {
    seq(n, _ => false)
  }

  /** Some of what arrives for a wave, as far as it was read. */
  ghost predicate ReadOf(wave: seq<Planned>, c: Channel, id: string -> Id, read: seq<Tagged>) {
    var live := LiveIn(wave);
    && |c.reached| == |c.early| == |live| && Indexed(read, |live|)
    && read <= Arrivals(live, c, id, |live|) + c.later
  }

  /** What it amounts to for the client. */
  ghost function Says(wave: seq<Planned>, read: seq<Tagged>): seq<Event>
    requires Indexed(read, |LiveIn(wave)|)
  {
    Told(LiveIn(wave), AllOpen(|LiveIn(wave)|), read)
  }

  /** A wave that ran to its end: what was read was enough for every live target,
      and the statuses are those of the offline targets and then the results. */
  ghost predicate RanAs(wave: seq<Planned>, c: Channel, id: string -> Id, statuses: seq<TargetStatus>,
                        read: seq<Tagged>)
  {
    var live := LiveIn(wave);
    && ReadOf(wave, c, id, read) && AllOver(AllOpen(|live|), read)
    && statuses == OfflineIn(wave) + Statuses(live, AllOpen(|live|), read)
  }

  /** The targets whose connection took their first frame. */
  function Handed(targets: seq<Planned>, reached: seq<bool>): seq<string> {
    if targets == [] then [] else
    var k := |targets| - 1;
    Handed(targets[..k], reached) + if k < |reached| && reached[k] then [targets[k].target] else []
  }

  /** Subscribes every target and sends it its first frame, if its host has a
      connection. A target that cannot be reached refuses by itself. */
  method Open(targets: seq<Planned>, c: Channel, id: string -> Id) returns (wave: Wave, sent: seq<string>)
    requires Serves(c, |targets|)
    ensures fresh(wave) && wave.Valid() && wave.targets == targets && wave.backlog == []
    ensures wave.finished == AllOpen(|targets|) && wave.rx == Arrivals(targets, c, id, |targets|) + c.later
    ensures sent == Handed(targets, c.reached)
  {
    var rx: seq<Tagged> := [];
    sent := [];
    for i := 0 to |targets|
      invariant sent == Handed(targets[..i], c.reached)
      invariant Indexed(rx, i) && rx == Arrivals(targets, c, id, i)
    {
      assert targets[..i + 1][..i] == targets[..i];
      if c.reached[i] {
        sent := sent + [targets[i].target];
      } else {
        rx := rx + [(i, Frame.Ack(id(targets[i].target), false, LOST))];
      }
      rx := rx + c.early[i];
    }
    assert targets[..|targets|] == targets;
    wave := new Wave(targets, rx + c.later);
    assert wave.finished == AllOpen(|targets|);
  }

  /** What the agents themselves send while the first `n` targets are opened. */
  function FromAgents(c: Channel, n: nat): seq<Tagged>
    requires n <= |c.early|
  {
    if n == 0 then [] else FromAgents(c, n - 1) + c.early[n - 1]
  }

  lemma {:induction false} OfJoined(fs: seq<Tagged>, more: seq<Tagged>, i: nat)
    ensures Of(fs + more, i) == Of(fs, i) + Of(more, i)
  {
    if more == [] {
      assert fs + more == fs;
    } else {
      var front, x := more[..|more| - 1], more[|more| - 1];
      OfJoined(fs, front, i);
      assert more == front + [x] && fs + more == (fs + front) + [x];
      OfMore(front, x, i);
      OfMore(fs + front, x, i);
    }
  }

  lemma {:induction false} OfOthers(fs: seq<Tagged>, n: nat, i: nat)
    requires Indexed(fs, n) && n <= i
    ensures Of(fs, i) == []
  {
    if fs != [] {
      OfOthers(fs[..|fs| - 1], n, i);
    }
  }

  lemma {:induction false} OfFirst(fs: seq<Tagged>, more: seq<Tagged>, i: nat)
    requires fs <= more
    ensures Of(fs, i) <= Of(more, i)
  {
    assert more == fs + more[|fs|..];
    OfJoined(fs, more[|fs|..], i);
  }

  lemma OfOne(x: Tagged, i: nat)
    ensures Of([x], i) == if x.0 == i then [x.1] else []
  {
    assert [x][..0] == [];
  }

  function Refusal(target: Planned, id: string -> Id): Frame {
    Frame.Ack(id(target.target), false, LOST)
  }

  /** A target hears from its agent, and before that from the relay itself if it
      could not be reached. */
  lemma {:induction false} RefusalFirst(targets: seq<Planned>, c: Channel, id: string -> Id, n: nat, i: nat)
    requires n <= |targets| && Serves(c, |targets|)
    ensures Of(Arrivals(targets, c, id, n), i) ==
      (if i < n && !c.reached[i] then [Refusal(targets[i], id)] else []) + Of(FromAgents(c, n), i)
  {
    hide Of, Refusal, Arrivals;
    if n == 0 {
      NoArrivals(targets, c, id);
      OfNothing(i);
    } else {
      var k := n - 1;
      RefusalFirst(targets, c, id, k, i);
      var before, own, early := Arrivals(targets, c, id, k), Of(FromAgents(c, k), i), Of(c.early[k], i);
      OfJoined(FromAgents(c, k), c.early[k], i);
      if k == i { NotYet(c, k, i); }
      ArrivalsMore(targets, c, id, k);
      var refused := if i < k && !c.reached[i] then [Refusal(targets[i], id)] else [];
      if c.reached[k] {
        OfThree(before, [], c.early[k], i);
        OfNothing(i);
        assert (refused + own) + [] + early == refused + (own + early);
      } else {
        var one: Tagged := (k, Refusal(targets[k], id));
        OfThree(before, [one], c.early[k], i);
        OfOne(one, i);
        assert (refused + own) + [] + early == refused + (own + early);
        assert k == i ==> (refused + own) + [one.1] + early == [one.1] + (own + early);
      }
    }
  }

  lemma OfThree(a: seq<Tagged>, b: seq<Tagged>, d: seq<Tagged>, i: nat)
    ensures Of(a + b + d, i) == Of(a, i) + Of(b, i) + Of(d, i)
  {
    hide Of;
    OfJoined(a, b, i);
    OfJoined(a + b, d, i);
  }

  lemma NoArrivals(targets: seq<Planned>, c: Channel, id: string -> Id)
    requires |targets| == |c.reached| == |c.early|
    ensures Arrivals(targets, c, id, 0) == []
  {
  }

  lemma ArrivalsMore(targets: seq<Planned>, c: Channel, id: string -> Id, k: nat)
    requires k < |targets| == |c.reached| == |c.early|
    ensures Arrivals(targets, c, id, k + 1) == Arrivals(targets, c, id, k)
      + (if c.reached[k] then [] else [(k, Refusal(targets[k], id))]) + c.early[k]
  {
  }

  lemma OfNothing(i: nat)
    ensures Of([], i) == []
  {
  }

  /** Nothing comes from an agent before its target is opened. */
  lemma {:induction false} NotYet(c: Channel, n: nat, i: nat)
    requires n <= i < |c.early| && Serves(c, |c.early|)
    ensures Of(FromAgents(c, n), i) == []
  {
    if n > 0 {
      NotYet(c, n - 1, i);
      OfJoined(FromAgents(c, n - 1), c.early[n - 1], i);
      OfOthers(c.early[n - 1], n, i);
    }
  }

  method Partition(wave: seq<Planned>) returns (offline: seq<TargetStatus>, live: seq<Planned>)
    ensures offline == OfflineIn(wave) && live == LiveIn(wave)
  {
    offline, live := [], [];
    for k := 0 to |wave|
      invariant offline == OfflineIn(wave[..k]) && live == LiveIn(wave[..k])
    {
      assert wave[..k + 1][..k] == wave[..k];
      if wave[k].offline {
        offline := offline + [TargetStatus(wave[k].target, Offline)];
      } else {
        live := live + [wave[k]];
      }
    }
    assert wave[..|wave|] == wave;
  }

  /** Runs one wave to its end, unless the client leaves or a target never
      answers. */
  method RunWave(index: nat, wave: seq<Planned>, c: Channel, id: string -> Id, out: Client)
    returns (r: Outcome, begun: bool, starts: seq<string>, ghost read: seq<Tagged>)
    requires Serves(c, |LiveIn(wave)|)
    modifies out
    ensures r.Gone? ==> out.IsGone()
    ensures !r.Gone? ==> begun
    ensures starts == if begun then Handed(LiveIn(wave), c.reached) else []
    ensures begun ==> ReadOf(wave, c, id, read)
    ensures begun ==> out.got <= old(out.got) + [Event.Wave(index)] + Says(wave, read)
    ensures !begun ==> out.got == old(out.got)
    ensures r.Complete? ==> RanAs(wave, c, id, r.statuses, read) && Settles(wave, r.statuses)
    ensures r.Complete? ==> out.got == old(out.got) + [Event.Wave(index)] + Says(wave, read)
  {
    hide Told, Statuses, Settles, AllOver, Arrivals;
    var ok := out.Send(Event.Wave(index));
    if !ok { return Gone, false, [], []; }
    var offline, live := Partition(wave);
    begun := true;
    var w;
    w, starts := Open(live, c, id);
    ghost var finished := w.finished;
    r, read := w.Stream(out);
    if r.Complete? {
      WaveSettled(wave, finished, read, r.statuses);
      r := Complete(offline + r.statuses);
    }
  }

  lemma {:induction false} Partitioned(wave: seq<Planned>)
    ensures multiset(Names(OfflineIn(wave))) + multiset(TargetNames(LiveIn(wave))) == multiset(TargetNames(wave))
  {
    hide Names, TargetNames;
    if wave == [] {
      NoNames();
      NoTargets();
    } else {
      var front, p := wave[..|wave| - 1], wave[|wave| - 1];
      Partitioned(front);
      assert wave == front + [p];
      TargetNamesMore(front, p);
      if p.offline {
        NamesMore(OfflineIn(front), [TargetStatus(p.target, Offline)]);
        OneName(TargetStatus(p.target, Offline));
        assert LiveIn(wave) == LiveIn(front);
      } else {
        assert OfflineIn(wave) == OfflineIn(front);
        TargetNamesMore(LiveIn(front), p);
      }
    }
  }

  lemma NoTargets()
    ensures TargetNames([]) == []
  {
  }

  lemma TargetNamesMore(targets: seq<Planned>, p: Planned)
    ensures TargetNames(targets + [p]) == TargetNames(targets) + [p.target]
  {
    assert (targets + [p])[..|targets|] == targets;
  }

  lemma WaveSettled(wave: seq<Planned>, finished: seq<bool>, read: seq<Tagged>, statuses: seq<TargetStatus>)
    requires var live := LiveIn(wave);
      && |finished| == |live| && Indexed(read, |live|) && (forall i | 0 <= i < |live| :: !finished[i])
      && AllOver(finished, read) && statuses == Statuses(live, finished, read)
    ensures Settles(wave, OfflineIn(wave) + statuses)
  {
    hide AllOver, Statuses, LiveIn, OfflineIn, Names, TargetNames;
    EveryTargetOnce(LiveIn(wave), finished, read);
    Partitioned(wave);
    NamesMore(OfflineIn(wave), statuses);
  }

  // ----- the whole deploy -----

  lemma {:induction false} OfflineReported(wave: seq<Planned>, p: Planned)
    requires p in wave && p.offline
    ensures TargetStatus(p.target, Status.Offline) in OfflineIn(wave)
  {
    var front, last := wave[..|wave| - 1], wave[|wave| - 1];
    assert wave == front + [last];
    if p in front { OfflineReported(front, p); }
  }

  lemma {:induction false} LiveAt(wave: seq<Planned>, p: Planned) returns (i: nat)
    requires p in wave && !p.offline
    ensures i < |LiveIn(wave)| && LiveIn(wave)[i] == p
  {
    var front, last := wave[..|wave| - 1], wave[|wave| - 1];
    assert wave == front + [last];
    if p in front { i := LiveAt(front, p); } else { i := |LiveIn(front)|; }
  }

  /** What a wave reports of a planned target: offline if it was, and else what its
      agent reported first, or a failure if it was refused. */
  ghost predicate Reports(wave: seq<Planned>, read: seq<Tagged>, p: Planned, status: Status) {
    if p.offline then status == Status.Offline
    else exists i, j | 0 <= i < |LiveIn(wave)| && LiveIn(wave)[i] == p && 0 <= j < |Of(read, i)| ::
      Closes(Of(read, i), j) && status == if Of(read, i)[j].Done? then Of(read, i)[j].body.status else Status.Failed
  }

  ghost predicate Reported(wave: seq<Planned>, read: seq<Tagged>, p: Planned, statuses: seq<TargetStatus>) {
    exists s | s in statuses :: s.target == p.target && Reports(wave, read, p, s.status)
  }

  lemma WaveReports(wave: seq<Planned>, c: Channel, id: string -> Id, statuses: seq<TargetStatus>, read: seq<Tagged>)
    requires RanAs(wave, c, id, statuses, read)
    ensures forall p | p in wave :: Reported(wave, read, p, statuses)
  {
    hide LiveIn, OfflineIn, Statuses, Of, Closes, Over;
    var live := LiveIn(wave);
    forall p | p in wave ensures Reported(wave, read, p, statuses) {
      if p.offline {
        OfflineReported(wave, p);
        assert TargetStatus(p.target, Status.Offline) in statuses;
      } else {
        var i := LiveAt(wave, p);
        assert Over(AllOpen(|live|), read, i);
        var j := FirstResult(AllOpen(|live|), read, i);
        StatusIsReported(live, AllOpen(|live|), read, i, j);
        var s :| s in Statuses(live, AllOpen(|live|), read) && s.target == p.target
          && s.status == if Of(read, i)[j].Done? then Of(read, i)[j].body.status else Status.Failed;
        assert s in statuses;
      }
    }
  }

  lemma FirstResult(finished: seq<bool>, read: seq<Tagged>, i: nat) returns (j: nat)
    requires i < |finished| && !finished[i] && Over(finished, read, i)
    ensures Closes(Of(read, i), j)
  {
    j := FirstClose(Of(read, i));
  }

  lemma {:induction false} FirstClose(fs: seq<Frame>) returns (j: nat)
    requires Ended(fs)
    ensures Closes(fs, j)
  {
    var front, f := fs[..|fs| - 1], fs[|fs| - 1];
    assert fs == front + [f];
    EndedMore(front, f);
    if Ended(front) {
      j := FirstClose(front);
    } else {
      j := |front|;
      OpenBefore(front, f);
    }
  }

  /** The statuses of a deploy are what its waves report, so it went well only if
      no target of a wave that ran was offline, and no wave is begun after one that
      had such a target or one that did not end well. */
  lemma DeployReports(waves: seq<seq<Planned>>, channels: seq<Channel>, id: string -> Id,
                      done: seq<seq<TargetStatus>>, inputs: seq<seq<Tagged>>, k: nat, p: Planned)
    requires AllRanAs(waves, channels, id, done, inputs) && k < |done| && p in waves[k]
    ensures Reported(waves[k], inputs[k], p, Concat(done))
    ensures p.offline ==> TargetStatus(p.target, Status.Offline) in Concat(done) && !AllOk(done[k])
  {
    hide RanAs, ReadOf, Reports, Concat, AllOk;
    WaveReports(waves[k], channels[k], id, done[k], inputs[k]);
    var s :| s in done[k] && s.target == p.target && Reports(waves[k], inputs[k], p, s.status);
    ConcatMembers(done, s);
    AllOkIff(done[k]);
    if p.offline { OfflineStatus(waves[k], inputs[k], p, s); }
  }

  /** No target planned in the first `n` waves was offline. */
  ghost predicate NoneOffline(waves: seq<seq<Planned>>, n: int) {
    forall k, p | 0 <= k < |waves| && k < n && p in waves[k] :: !p.offline
  }

  /** Every target planned in the first `n` waves has the status it should. */
  ghost predicate AllTold(waves: seq<seq<Planned>>, inputs: seq<seq<Tagged>>, n: nat, statuses: seq<TargetStatus>)
    requires n <= |waves| && n <= |inputs|
  {
    forall k, p | 0 <= k < n && p in waves[k] :: Reported(waves[k], inputs[k], p, statuses)
  }

  lemma WentOn(waves: seq<seq<Planned>>, channels: seq<Channel>, id: string -> Id,
               done: seq<seq<TargetStatus>>, inputs: seq<seq<Tagged>>, n: int)
    requires AllRanAs(waves, channels, id, done, inputs) && n <= |done|
    requires forall k | 0 <= k < n :: AllOk(done[k])
    ensures NoneOffline(waves, n) && AllTold(waves, inputs, |done|, Concat(done))
  {
    hide AllRanAs, Reported, Concat, AllOk;
    RanSizes(waves, channels, id, done, inputs);
    forall k, p | 0 <= k < |done| && p in waves[k]
      ensures Reported(waves[k], inputs[k], p, Concat(done))
    {
      DeployReports(waves, channels, id, done, inputs, k, p);
    }
    forall k, p | 0 <= k < n && p in waves[k] ensures !p.offline {
      DeployReports(waves, channels, id, done, inputs, k, p);
    }
  }

  lemma RanSizes(waves: seq<seq<Planned>>, channels: seq<Channel>, id: string -> Id,
                 done: seq<seq<TargetStatus>>, inputs: seq<seq<Tagged>>)
    requires AllRanAs(waves, channels, id, done, inputs)
    ensures |done| <= |inputs| <= |waves|
  {
    hide RanAs, ReadOf;
  }

  lemma OfflineStatus(wave: seq<Planned>, read: seq<Tagged>, p: Planned, s: TargetStatus)
    requires p.offline && s.target == p.target && Reports(wave, read, p, s.status)
    ensures s == TargetStatus(p.target, Status.Offline)
  {
  }

  datatype Finish = Left | Stuck | Finished(ok: bool, targets: seq<TargetStatus>, skipped: seq<string>)

  /** The verdict, if the deploy came to its end. */
  function Closing(r: Finish): seq<Event> {
    if r.Finished? then [Event.Result(r.ok, r.targets, r.skipped)] else []
  }

  /** The waves that have a result for every target: all but the last of them
      went well. */
  ghost predicate WentWell(waves: seq<seq<Planned>>, done: seq<seq<TargetStatus>>) {
    && |done| <= |waves|
    && (forall k | 0 <= k < |done| :: Settles(waves[k], done[k]))
    && (forall k | 0 <= k < |done| - 1 :: AllOk(done[k]))
  }

  /** The waves that were begun and what was read of them: all but the last ran
      to their end, and the last did if it has statuses. */
  ghost predicate AllRanAs(waves: seq<seq<Planned>>, channels: seq<Channel>, id: string -> Id,
                           done: seq<seq<TargetStatus>>, inputs: seq<seq<Tagged>>)
  {
    && |done| <= |inputs| <= |done| + 1 && |inputs| <= |waves| == |channels|
    && (forall k | 0 <= k < |inputs| :: ReadOf(waves[k], channels[k], id, inputs[k]))
    && (forall k | 0 <= k < |done| :: RanAs(waves[k], channels[k], id, done[k], inputs[k]))
  }

  /** What was read of each wave is of its live targets. */
  ghost predicate Fit(waves: seq<seq<Planned>>, inputs: seq<seq<Tagged>>) {
    |inputs| <= |waves| && forall k | 0 <= k < |inputs| :: Indexed(inputs[k], |LiveIn(waves[k])|)
  }

  /** What a client is told of the waves that were begun. */
  ghost function Transcript(waves: seq<seq<Planned>>, inputs: seq<seq<Tagged>>): seq<Event>
    requires Fit(waves, inputs)
  {
    if inputs == [] then [] else
    var k := |inputs| - 1;
    Transcript(waves, inputs[..k]) + [Event.Wave(k)] + Says(waves[k], inputs[k])
  }

  /** The starts handed to connections in the first `n` waves, in order. */
  function Starts(waves: seq<seq<Planned>>, channels: seq<Channel>, n: nat): seq<string>
    requires n <= |waves| == |channels|
  {
    if n == 0 then [] else Starts(waves, channels, n - 1) + Handed(LiveIn(waves[n - 1]), channels[n - 1].reached)
  }

  /** The target is a live one of the first `n` waves, and a connection took its
      start. */
  ghost predicate IsSent(waves: seq<seq<Planned>>, channels: seq<Channel>, n: nat, name: string)
    requires n <= |waves| == |channels|
  {
    exists k, i | 0 <= k < n && 0 <= i < |LiveIn(waves[k])| && i < |channels[k].reached| ::
      channels[k].reached[i] && LiveIn(waves[k])[i].target == name
  }

  lemma {:induction false} HandedAre(targets: seq<Planned>, reached: seq<bool>, name: string)
    ensures name in Handed(targets, reached) <==>
      exists i | 0 <= i < |targets| && i < |reached| :: reached[i] && targets[i].target == name
  {
    if targets != [] { HandedAre(targets[..|targets| - 1], reached, name); }
  }

  lemma {:induction false} StartsAre(waves: seq<seq<Planned>>, channels: seq<Channel>, n: nat, name: string)
    requires n <= |waves| == |channels|
    ensures name in Starts(waves, channels, n) <==> IsSent(waves, channels, n, name)
  {
    hide LiveIn, Handed;
    if n > 0 {
      StartsAre(waves, channels, n - 1, name);
      HandedAre(LiveIn(waves[n - 1]), channels[n - 1].reached, name);
    }
  }

  lemma {:induction false} FlatAre(waves: seq<seq<Planned>>, name: string)
    ensures name in Flat(waves) <==> exists k, p :: 0 <= k < |waves| && p in waves[k] && p.target == name
  {
    if waves != [] {
      var front, last := waves[..|waves| - 1], waves[|waves| - 1];
      FlatAre(front, name);
      NamesAre(last, name);
      hide TargetNames;
    }
  }

  lemma {:induction false} NamesAre(targets: seq<Planned>, name: string)
    ensures name in TargetNames(targets) <==> exists p :: p in targets && p.target == name
  {
    if targets != [] {
      var front, last := targets[..|targets| - 1], targets[|targets| - 1];
      assert targets == front + [last];
      NamesAre(front, name);
      TargetNamesMore(front, last);
    }
  }

  lemma SkippedAre(waves: seq<seq<Planned>>, n: nat)
    requires n <= |waves|
    ensures forall name :: name in Flat(waves[n..]) <==> exists k, p ::
      n <= k < |waves| && p in waves[k] && p.target == name
  {
    hide Flat;
    forall name ensures name in Flat(waves[n..]) <==> exists k, p ::
      n <= k < |waves| && p in waves[k] && p.target == name
    {
      FlatAre(waves[n..], name);
      assert forall k | n <= k < |waves| :: waves[n..][k - n] == waves[k];
    }
  }

  /** Each wave that was begun is announced by its number before anything is told
      of its targets, and after all that is told of those before. */
  lemma {:induction false} TranscriptAt(waves: seq<seq<Planned>>, inputs: seq<seq<Tagged>>, k: nat)
    requires Fit(waves, inputs) && k < |inputs|
    ensures Fit(waves, inputs[..k])
    ensures Transcript(waves, inputs[..k]) + [Event.Wave(k)] + Says(waves[k], inputs[k]) <= Transcript(waves, inputs)
  {
    hide Says, LiveIn;
    var n := |inputs| - 1;
    if k < n {
      var front := inputs[..n];
      assert front[..k] == inputs[..k] && front[k] == inputs[k];
      TranscriptAt(waves, front, k);
    }
  }

  /** Runs the waves one after the other until one does not go well. The starts
      go to the live targets of the waves that were begun, and to no target of
      a wave unless every target of every earlier wave ended well. */
  method RunJob(job: string, waves: seq<seq<Planned>>, channels: seq<Channel>, id: string -> Id, out: Client)
    returns (r: Finish, starts: seq<string>, ghost done: seq<seq<TargetStatus>>, ghost inputs: seq<seq<Tagged>>)
    requires |channels| == |waves| && forall k | 0 <= k < |waves| :: Serves(channels[k], |LiveIn(waves[k])|)
    modifies out
    ensures WentWell(waves, done) && AllRanAs(waves, channels, id, done, inputs) && Fit(waves, inputs)
    ensures starts == Starts(waves, channels, |inputs|)
    ensures forall k | 0 <= k < |inputs| - 1 :: AllOk(done[k])
    ensures NoneOffline(waves, |inputs| - 1)
    ensures forall name :: name in starts <==> IsSent(waves, channels, |inputs|, name)
    ensures r.Finished? ==>
      && AllTold(waves, inputs, |done|, r.targets)
      && (forall name :: name in r.skipped <==> exists k, p ::
            |done| <= k < |waves| && p in waves[k] && p.target == name)
      && (r.ok ==> NoneOffline(waves, |waves|))
      && (r.ok <==> forall s | s in r.targets :: s.status == Status.Updated || s.status == Status.Unchanged)
    ensures r.Left? ==> out.IsGone()
    ensures out.got <= old(out.got) + [Event.Accepted(job)] + Transcript(waves, inputs)
                       + Closing(r)
    ensures r.Finished? ==>
      && (r.ok <==> AllOk(r.targets)) && r.targets == Concat(done)
      && (r.ok ==> |done| == |waves|)
      && (!r.ok ==> done != [] && !AllOk(done[|done| - 1]))
      && r.skipped == Flat(waves[|done|..])
      && multiset(Names(r.targets)) + multiset(r.skipped) == multiset(Flat(waves))
      && |inputs| == |done|
      && var before := old(out.got) + [Event.Accepted(job)] + Transcript(waves, inputs);
      out.got == before + [Event.Result(r.ok, r.targets, r.skipped)] || (out.IsGone() && out.got == before)
  {
    hide Settles, AllOk, Flat, Concat, Serves, Starts, Handed, TargetNames, Names, LiveIn, OfflineIn, WentWell;
    hide RanAs, AllRanAs, ReadOf, Fit, Says, Transcript, Going, NoneOffline, AllTold, IsSent;
    forall n, name | 0 <= n <= |waves|
      ensures name in Starts(waves, channels, n) <==> IsSent(waves, channels, n, name)
    {
      StartsAre(waves, channels, n, name);
    }
    starts, done, inputs := [], [], [];
    GoingFirst(waves, channels, id);
    var sent := out.Send(Event.Accepted(job));
    if !sent { return Left, starts, done, inputs; }
    var results, skipped, ok := [], [], true;
    for index := 0 to |waves|
      invariant Going(waves, channels, id, done, inputs, starts, results, skipped, ok, index) && Fit(waves, inputs)
      invariant out.got == old(out.got) + [Event.Accepted(job)] + Transcript(waves, inputs)
    {
      if !ok {
        GoingSkips(waves, channels, id, done, inputs, starts, results, skipped, index);
        skipped := skipped + TargetNames(waves[index]);
        continue;
      }
      GoingFacts(waves, channels, id, done, inputs, starts, results, skipped, ok, index);
      var wave, ran, more;
      ghost var read;
      wave, ran, more, read := RunWave(index, waves[index], channels[index], id, out);
      if ran {
        GoingStops(waves, channels, id, done, inputs, starts, results, skipped, index, read);
        if wave.Complete? {
          GoingOn(waves, channels, id, done, inputs, starts, results, skipped, index, read, wave.statuses);
        }
        inputs := inputs + [read];
      }
      starts := starts + more;
      if wave.Gone? { return Left, starts, done, inputs; }
      if wave.Waiting? { return Stuck, starts, done, inputs; }
      ok := AllOk(wave.statuses);
      results := results + wave.statuses;
      done := done + [wave.statuses];
    }
    GoingFacts(waves, channels, id, done, inputs, starts, results, skipped, ok, |waves|);
    GoingLast(waves, channels, id, done, inputs, starts, results, skipped, ok);
    SkippedAre(waves, |done|);
    r := Finished(ok, results, skipped);
    sent := out.Send(Event.Result(ok, results, skipped));
  }

  /** Between two waves: what ran, what it came to and what was skipped. */
  ghost predicate Going(waves: seq<seq<Planned>>, channels: seq<Channel>, id: string -> Id,
                        done: seq<seq<TargetStatus>>, inputs: seq<seq<Tagged>>, starts: seq<string>,
                        results: seq<TargetStatus>, skipped: seq<string>, ok: bool, index: nat)
  {
    && WentWell(waves, done) && AllRanAs(waves, channels, id, done, inputs) && Fit(waves, inputs)
    && |inputs| == |done| <= index <= |waves| == |channels|
    && starts == Starts(waves, channels, |inputs|) && (forall k | 0 <= k < |done| - 1 :: AllOk(done[k]))
    && results == Concat(done) && skipped == Flat(waves[|done|..index])
    && (ok ==> |done| == index && forall k | 0 <= k < |done| :: AllOk(done[k]))
    && (!ok ==> done != [] && !AllOk(done[|done| - 1]))
  }

  lemma GoingFirst(waves: seq<seq<Planned>>, channels: seq<Channel>, id: string -> Id)
    requires |channels| == |waves|
    ensures Going(waves, channels, id, [], [], [], [], [], true, 0) && Fit(waves, []) && Transcript(waves, []) == []
    ensures WentWell(waves, []) && AllRanAs(waves, channels, id, [], []) && Starts(waves, channels, 0) == []
    ensures NoneOffline(waves, -1)
  {
    NothingDone(waves, channels, id);
    SkippedNone(waves, 0);
  }

  lemma GoingSkips(waves: seq<seq<Planned>>, channels: seq<Channel>, id: string -> Id,
                   done: seq<seq<TargetStatus>>, inputs: seq<seq<Tagged>>, starts: seq<string>,
                   results: seq<TargetStatus>, skipped: seq<string>, index: nat)
    requires Going(waves, channels, id, done, inputs, starts, results, skipped, false, index) && index < |waves|
    ensures Going(waves, channels, id, done, inputs, starts, results, skipped + TargetNames(waves[index]), false,
                  index + 1)
  {
    hide WentWell, AllRanAs, Fit, Starts, AllOk, Concat, Flat, TargetNames;
    SkippedMore(waves, |done|, index);
  }

  lemma GoingFacts(waves: seq<seq<Planned>>, channels: seq<Channel>, id: string -> Id,
                   done: seq<seq<TargetStatus>>, inputs: seq<seq<Tagged>>, starts: seq<string>,
                   results: seq<TargetStatus>, skipped: seq<string>, ok: bool, index: nat)
    requires Going(waves, channels, id, done, inputs, starts, results, skipped, ok, index)
    ensures WentWell(waves, done) && AllRanAs(waves, channels, id, done, inputs) && Fit(waves, inputs)
    ensures |channels| == |waves| && |inputs| == |done| <= |waves| && starts == Starts(waves, channels, |inputs|)
    ensures (forall k | 0 <= k < |done| - 1 :: AllOk(done[k])) && (ok ==> |done| == index)
    ensures NoneOffline(waves, |inputs| - 1)
  {
    hide WentWell, AllRanAs, Fit, Starts, AllOk, Concat, Flat, NoneOffline;
    WentOn(waves, channels, id, done, inputs, |done| - 1);
  }

  /** A wave was begun, however it goes on. */
  lemma GoingStops(waves: seq<seq<Planned>>, channels: seq<Channel>, id: string -> Id,
                   done: seq<seq<TargetStatus>>, inputs: seq<seq<Tagged>>, starts: seq<string>,
                   results: seq<TargetStatus>, skipped: seq<string>, index: nat, read: seq<Tagged>)
    requires Going(waves, channels, id, done, inputs, starts, results, skipped, true, index) && index < |waves|
    requires ReadOf(waves[index], channels[index], id, read)
    ensures |inputs| == index && AllRanAs(waves, channels, id, done, inputs + [read])
    ensures Fit(waves, inputs) && Fit(waves, inputs + [read]) && Indexed(read, |LiveIn(waves[index])|)
    ensures Transcript(waves, inputs + [read])
         == Transcript(waves, inputs) + [Event.Wave(index)] + Says(waves[index], read)
    ensures starts + Handed(LiveIn(waves[index]), channels[index].reached)
         == Starts(waves, channels, |inputs + [read]|)
    ensures forall k | 0 <= k < |inputs + [read]| - 1 :: AllOk(done[k])
    ensures NoneOffline(waves, |inputs + [read]| - 1)
  {
    hide WentWell, AllRanAs, ReadOf, Fit, Starts, AllOk, Concat, Flat, Transcript, Says, LiveIn, Handed, NoneOffline;
    WentOn(waves, channels, id, done, inputs, |done|);
    ReadMore(waves, channels, id, done, inputs, read);
    StartsMore(waves, channels, index);
  }

  /** A wave ran to its end. */
  lemma GoingOn(waves: seq<seq<Planned>>, channels: seq<Channel>, id: string -> Id,
                done: seq<seq<TargetStatus>>, inputs: seq<seq<Tagged>>, starts: seq<string>,
                results: seq<TargetStatus>, skipped: seq<string>, index: nat, read: seq<Tagged>,
                statuses: seq<TargetStatus>)
    requires Going(waves, channels, id, done, inputs, starts, results, skipped, true, index) && index < |waves|
    requires RanAs(waves[index], channels[index], id, statuses, read) && Settles(waves[index], statuses)
    ensures Going(waves, channels, id, done + [statuses], inputs + [read],
                  starts + Handed(LiveIn(waves[index]), channels[index].reached), results + statuses, skipped,
                  AllOk(statuses), index + 1)
  {
    hide WentWell, AllRanAs, RanAs, ReadOf, Fit, Starts, AllOk, Concat, Flat, LiveIn, Handed, Settles, Going;
    GoingFacts(waves, channels, id, done, inputs, starts, results, skipped, true, index);
    RanIsRead(waves[index], channels[index], id, statuses, read);
    GoingStops(waves, channels, id, done, inputs, starts, results, skipped, index, read);
    RanMore(waves, channels, id, done, inputs + [read], statuses);
    GoingResults(waves, channels, id, done, inputs, starts, results, skipped, index, statuses);
    GoingIs(waves, channels, id, done + [statuses], inputs + [read],
            starts + Handed(LiveIn(waves[index]), channels[index].reached), results + statuses, skipped,
            AllOk(statuses), index + 1);
  }

  lemma RanIsRead(wave: seq<Planned>, c: Channel, id: string -> Id, statuses: seq<TargetStatus>, read: seq<Tagged>)
    requires RanAs(wave, c, id, statuses, read)
    ensures ReadOf(wave, c, id, read)
  {
    hide ReadOf;
  }

  lemma GoingResults(waves: seq<seq<Planned>>, channels: seq<Channel>, id: string -> Id,
                     done: seq<seq<TargetStatus>>, inputs: seq<seq<Tagged>>, starts: seq<string>,
                     results: seq<TargetStatus>, skipped: seq<string>, index: nat, statuses: seq<TargetStatus>)
    requires Going(waves, channels, id, done, inputs, starts, results, skipped, true, index) && index < |waves|
    requires Settles(waves[index], statuses)
    ensures var more := done + [statuses];
      && |done| == index && WentWell(waves, more) && results + statuses == Concat(more)
      && skipped == Flat(waves[|more|..index + 1])
      && (forall k | 0 <= k < |done| :: AllOk(more[k])) && more[|done|] == statuses
  {
    hide AllRanAs, Fit, Starts, AllOk, Concat, Flat, Settles;
    ConcatMore(done, statuses);
    WellMore(waves, done, statuses);
    SkippedNone(waves, index);
    SkippedNone(waves, index + 1);
  }

  lemma GoingIs(waves: seq<seq<Planned>>, channels: seq<Channel>, id: string -> Id,
                done: seq<seq<TargetStatus>>, inputs: seq<seq<Tagged>>, starts: seq<string>,
                results: seq<TargetStatus>, skipped: seq<string>, ok: bool, index: nat)
    requires WentWell(waves, done) && AllRanAs(waves, channels, id, done, inputs) && Fit(waves, inputs)
    requires |inputs| == |done| == index <= |waves| == |channels| && done != []
    requires starts == Starts(waves, channels, |inputs|) && (forall k | 0 <= k < |done| - 1 :: AllOk(done[k]))
    requires results == Concat(done) && skipped == Flat(waves[|done|..index])
    requires ok <==> AllOk(done[|done| - 1])
    ensures Going(waves, channels, id, done, inputs, starts, results, skipped, ok, index)
  {
    hide WentWell, AllRanAs, Fit, Starts, AllOk, Concat, Flat;
  }

  lemma GoingLast(waves: seq<seq<Planned>>, channels: seq<Channel>, id: string -> Id,
                  done: seq<seq<TargetStatus>>, inputs: seq<seq<Tagged>>, starts: seq<string>,
                  results: seq<TargetStatus>, skipped: seq<string>, ok: bool)
    requires Going(waves, channels, id, done, inputs, starts, results, skipped, ok, |waves|)
    ensures |done| <= |waves| && results == Concat(done) && skipped == Flat(waves[|done|..])
    ensures (ok <==> AllOk(results)) && (ok ==> |done| == |waves|) && (!ok ==> done != [] && !AllOk(done[|done| - 1]))
    ensures multiset(Names(results)) + multiset(skipped) == multiset(Flat(waves))
    ensures |done| <= |inputs| && AllTold(waves, inputs, |done|, results) && (ok ==> NoneOffline(waves, |waves|))
    ensures ok <==> forall s | s in results :: s.status == Status.Updated || s.status == Status.Unchanged
  {
    hide WentWell, AllRanAs, Fit, Starts, AllOk, Concat, Flat, Names, NoneOffline, AllTold;
    assert |done| <= |waves|;
    WentOn(waves, channels, id, done, inputs, if ok then |done| else |done| - 1);
    AllOkIff(results);
    AllOkConcat(done, ok);
    assert waves[|done|..|waves|] == waves[|done|..];
    EachTargetOnce(waves, done);
  }

  /** One more wave is begun. */
  lemma ReadMore(waves: seq<seq<Planned>>, channels: seq<Channel>, id: string -> Id, done: seq<seq<TargetStatus>>,
                 inputs: seq<seq<Tagged>>, read: seq<Tagged>)
    requires AllRanAs(waves, channels, id, done, inputs) && Fit(waves, inputs) && |inputs| == |done| < |waves|
    requires ReadOf(waves[|inputs|], channels[|inputs|], id, read)
    ensures AllRanAs(waves, channels, id, done, inputs + [read]) && Fit(waves, inputs + [read])
    ensures Indexed(read, |LiveIn(waves[|inputs|])|)
    ensures Transcript(waves, inputs + [read])
         == Transcript(waves, inputs) + [Event.Wave(|inputs|)] + Says(waves[|inputs|], read)
  {
    hide RanAs, LiveIn, Says;
    assert (inputs + [read])[..|inputs|] == inputs;
  }

  lemma RanMore(waves: seq<seq<Planned>>, channels: seq<Channel>, id: string -> Id, done: seq<seq<TargetStatus>>,
                inputs: seq<seq<Tagged>>, statuses: seq<TargetStatus>)
    requires AllRanAs(waves, channels, id, done, inputs) && |done| + 1 == |inputs|
    requires RanAs(waves[|done|], channels[|done|], id, statuses, inputs[|done|])
    ensures AllRanAs(waves, channels, id, done + [statuses], inputs)
  {
    hide RanAs, ReadOf;
  }

  lemma StartsMore(waves: seq<seq<Planned>>, channels: seq<Channel>, k: nat)
    requires k < |waves| == |channels|
    ensures Starts(waves, channels, k + 1)
         == Starts(waves, channels, k) + Handed(LiveIn(waves[k]), channels[k].reached)
  {
  }

  lemma WellMore(waves: seq<seq<Planned>>, done: seq<seq<TargetStatus>>, more: seq<TargetStatus>)
    requires WentWell(waves, done) && |done| < |waves| && Settles(waves[|done|], more)
    requires forall k | 0 <= k < |done| :: AllOk(done[k])
    ensures WentWell(waves, done + [more])
  {
    hide Settles, AllOk;
  }

  lemma NothingDone(waves: seq<seq<Planned>>, channels: seq<Channel>, id: string -> Id)
    requires |channels| == |waves|
    ensures WentWell(waves, []) && AllRanAs(waves, channels, id, [], []) && Fit(waves, [])
    ensures Concat([]) == [] && Flat([]) == [] && Starts(waves, channels, 0) == [] && Transcript(waves, []) == []
  {
  }

  lemma SkippedNone(waves: seq<seq<Planned>>, k: nat)
    requires k <= |waves|
    ensures Flat(waves[k..k]) == []
  {
  }

  lemma SkippedMore(waves: seq<seq<Planned>>, a: nat, k: nat)
    requires a <= k < |waves|
    ensures Flat(waves[a..k + 1]) == Flat(waves[a..k]) + TargetNames(waves[k])
  {
    assert waves[a..k + 1][..k - a] == waves[a..k];
  }

  lemma ConcatMore(done: seq<seq<TargetStatus>>, more: seq<TargetStatus>)
    ensures Concat(done + [more]) == Concat(done) + more
  {
    assert (done + [more])[..|done|] == done;
  }

  lemma {:induction false} ConcatMembers(done: seq<seq<TargetStatus>>, s: TargetStatus)
    ensures s in Concat(done) <==> exists k :: 0 <= k < |done| && s in done[k]
  {
    if done != [] {
      ConcatMembers(done[..|done| - 1], s);
    }
  }

  lemma AllOkConcat(done: seq<seq<TargetStatus>>, ok: bool)
    requires ok ==> forall k | 0 <= k < |done| :: AllOk(done[k])
    requires !ok ==> done != [] && !AllOk(done[|done| - 1])
    ensures ok <==> AllOk(Concat(done))
  {
    if ok {
      forall s | s in Concat(done) ensures s.status.Ok() {
        ConcatMembers(done, s);
      }
    } else {
      var s :| s in done[|done| - 1] && !s.status.Ok();
      ConcatMembers(done, s);
    }
  }

  lemma {:induction false} SettledNames(waves: seq<seq<Planned>>, done: seq<seq<TargetStatus>>)
    requires |done| <= |waves| && forall k | 0 <= k < |done| :: Settles(waves[k], done[k])
    ensures multiset(Names(Concat(done))) == multiset(Flat(waves[..|done|]))
  {
    hide Names, TargetNames;
    if done == [] {
      NoNames();
    } else {
      var front, n := done[..|done| - 1], |done|;
      SettledNames(waves, front);
      NamesMore(Concat(front), done[n - 1]);
      assert waves[..n][..n - 1] == waves[..n - 1];
      assert Settles(waves[n - 1], done[n - 1]);
    }
  }

  lemma {:induction false} FlatJoined(waves: seq<seq<Planned>>, k: nat, n: nat)
    requires k <= n <= |waves|
    ensures Flat(waves[..n]) == Flat(waves[..k]) + Flat(waves[k..n])
  {
    hide Flat;
    if n == k {
      SkippedNone(waves, k);
    } else {
      FlatJoined(waves, k, n - 1);
      SkippedMore(waves, k, n - 1);
      SkippedMore(waves, 0, n - 1);
      assert waves[0..n] == waves[..n] && waves[0..n - 1] == waves[..n - 1];
    }
  }

  /** The reported and the skipped targets are the planned ones, each once. */
  lemma EachTargetOnce(waves: seq<seq<Planned>>, done: seq<seq<TargetStatus>>)
    requires WentWell(waves, done)
    ensures multiset(Names(Concat(done))) + multiset(Flat(waves[|done|..])) == multiset(Flat(waves))
  {
    hide Names, Flat, Concat, Settles;
    SettledNames(waves, done);
    FlatJoined(waves, |done|, |waves|);
    assert waves[|done|..|waves|] == waves[|done|..] && waves[..|waves|] == waves;
  }

  // ----- following a deploy -----

  datatype Followed = UnknownJob | Following(finish: Finish)

  /** A connected agent and the flakelets it advertises. */
  type Agent = (string, seq<string>)

  function TargetOf(host: string, flakelet: string): string {
    host + "/" + flakelet
  }

  /** The flakelets of one agent, and of all of them, that the caller may read. */
  function Readable(p: Policies.Policy, principals: seq<string>, host: string, flakelets: seq<string>): seq<Planned> {
    if flakelets == [] then [] else
    var f := flakelets[|flakelets| - 1];
    Readable(p, principals, host, flakelets[..|flakelets| - 1]) +
    match Policies.RuleFor(p, principals, host, f)
    case None => []
    case Some(rule) => [Planned(TargetOf(host, f), host, f, rule, false)]
  }

  function Candidates(p: Policies.Policy, principals: seq<string>, agents: seq<Agent>): seq<Planned> {
    if agents == [] then [] else
    var (host, flakelets) := agents[|agents| - 1];
    Candidates(p, principals, agents[..|agents| - 1]) + Readable(p, principals, host, flakelets)
  }

  method FindCandidates(p: Policies.Policy, principals: seq<string>, agents: seq<Agent>)
    returns (candidates: seq<Planned>)
    ensures candidates == Candidates(p, principals, agents)
  {
    hide Policies.RuleFor, Candidates, Readable;
    candidates := [];
    NoCandidates(p, principals);
    for k := 0 to |agents|
      invariant candidates == Candidates(p, principals, agents[..k])
    {
      CandidatesMore(p, principals, agents, k);
      var (host, flakelets) := agents[k];
      NoneReadable(p, principals, host);
      ghost var before := candidates;
      assert before + [] == before;
      for n := 0 to |flakelets|
        invariant candidates == before + Readable(p, principals, host, flakelets[..n])
      {
        ReadableMore(p, principals, host, flakelets, n);
        var rule := Policies.RuleFor(p, principals, host, flakelets[n]);
        if rule.Some? {
          candidates := candidates + [Planned(TargetOf(host, flakelets[n]), host, flakelets[n], rule.value, false)];
        }
      }
      assert flakelets[..|flakelets|] == flakelets;
    }
    assert agents[..|agents|] == agents;
  }

  lemma NoCandidates(p: Policies.Policy, principals: seq<string>)
    ensures Candidates(p, principals, []) == []
  {
  }

  lemma NoneReadable(p: Policies.Policy, principals: seq<string>, host: string)
    ensures Readable(p, principals, host, []) == []
  {
  }

  lemma CandidatesMore(p: Policies.Policy, principals: seq<string>, agents: seq<Agent>, k: nat)
    requires k < |agents|
    ensures Candidates(p, principals, agents[..k + 1])
         == Candidates(p, principals, agents[..k]) + Readable(p, principals, agents[k].0, agents[k].1)
  {
    assert agents[..k + 1][..k] == agents[..k];
  }

  lemma ReadableMore(p: Policies.Policy, principals: seq<string>, host: string, flakelets: seq<string>, k: nat)
    requires k < |flakelets|
    ensures var f, before := flakelets[k], Readable(p, principals, host, flakelets[..k]);
      Readable(p, principals, host, flakelets[..k + 1]) == match Policies.RuleFor(p, principals, host, f)
        case None => before
        case Some(rule) => before + [Planned(TargetOf(host, f), host, f, rule, false)]
  {
    hide Policies.RuleFor, TargetOf;
    assert flakelets[..k + 1][..k] == flakelets[..k];
  }

  /** The candidates are the advertised flakelets the caller has a rule for. */
  lemma {:induction false} CandidatesAre(p: Policies.Policy, principals: seq<string>, agents: seq<Agent>, t: Planned)
    ensures t in Candidates(p, principals, agents) <==>
      && !t.offline && t.target == TargetOf(t.host, t.flakelet)
      && Policies.RuleFor(p, principals, t.host, t.flakelet) == Some(t.rule)
      && exists a | a in agents :: a.0 == t.host && t.flakelet in a.1
  {
    hide Policies.RuleFor, TargetOf, Readable;
    if agents != [] {
      var front, last := agents[..|agents| - 1], agents[|agents| - 1];
      CandidatesAre(p, principals, front, t);
      ReadableAre(p, principals, last.0, last.1, t);
      assert Candidates(p, principals, agents)
          == Candidates(p, principals, front) + Readable(p, principals, last.0, last.1);
      hide Candidates;
      assert forall a :: a in agents <==> a in front || a == last by { LastApart(agents); }
    }
  }

  lemma {:induction false} ReadableAre(p: Policies.Policy, principals: seq<string>, host: string,
                                       flakelets: seq<string>, t: Planned)
    ensures t in Readable(p, principals, host, flakelets) <==>
      && !t.offline && t.host == host && t.target == TargetOf(host, t.flakelet)
      && Policies.RuleFor(p, principals, host, t.flakelet) == Some(t.rule) && t.flakelet in flakelets
  {
    hide Policies.RuleFor, TargetOf;
    if flakelets != [] {
      var front, f := flakelets[..|flakelets| - 1], flakelets[|flakelets| - 1];
      ReadableAre(p, principals, host, front, t);
      var rule := Policies.RuleFor(p, principals, host, f);
      assert Readable(p, principals, host, flakelets) == Readable(p, principals, host, front) +
        if rule.None? then [] else [Planned(TargetOf(host, f), host, f, rule.value, false)];
      hide Readable;
      LastApart(flakelets);
    }
  }

  /** As the relay keeps them: no two agents have the same host, host names have
      no slash, and no agent advertises a flakelet twice. */
  ghost predicate Proper(agents: seq<Agent>) {
    && (forall i, j | 0 <= i < j < |agents| :: agents[i].0 != agents[j].0)
    && (forall i | 0 <= i < |agents| :: '/' !in agents[i].0)
    && (forall i, m, n | 0 <= i < |agents| && 0 <= m < n < |agents[i].1| :: agents[i].1[m] != agents[i].1[n])
  }

  lemma SameTarget(host: string, flakelet: string, host': string, flakelet': string)
    requires '/' !in host && '/' !in host' && TargetOf(host, flakelet) == TargetOf(host', flakelet')
    ensures host == host' && flakelet == flakelet'
  {
    Text.SplitsAtFirst(host, '/', flakelet);
    Text.SplitsAtFirst(host', '/', flakelet');
    assert host + ['/'] + flakelet == TargetOf(host, flakelet);
    assert host' + ['/'] + flakelet' == TargetOf(host', flakelet');
  }

  lemma DistinctJoined(a: seq<Planned>, b: seq<Planned>)
    requires Distinct(a) && Distinct(b) && forall x, y | x in a && y in b :: x.target != y.target
    ensures Distinct(a + b)
  {
    var all := a + b;
    forall i, j | 0 <= i < j < |all| ensures all[i].target != all[j].target {
      if i < |a| <= j { assert all[i] in a && all[j] in b; }
    }
  }

  lemma {:induction false} ReadableDistinct(p: Policies.Policy, principals: seq<string>, host: string,
                                            flakelets: seq<string>)
    requires '/' !in host && forall m, n | 0 <= m < n < |flakelets| :: flakelets[m] != flakelets[n]
    ensures Distinct(Readable(p, principals, host, flakelets))
  {
    hide Policies.RuleFor, TargetOf, Distinct;
    if flakelets == [] {
      assert Distinct([]) by { NoneDistinct(); }
    } else {
      var front, f := flakelets[..|flakelets| - 1], flakelets[|flakelets| - 1];
      ReadableDistinct(p, principals, host, front);
      ReadableMore(p, principals, host, flakelets, |front|);
      assert flakelets[..|front| + 1] == flakelets;
      var before, rule := Readable(p, principals, host, front), Policies.RuleFor(p, principals, host, f);
      if rule.Some? {
        var t := Planned(TargetOf(host, f), host, f, rule.value, false);
        hide Readable;
        forall x | x in before ensures x.target != t.target {
          ReadableAre(p, principals, host, front, x);
          if x.target == t.target { SameTarget(host, x.flakelet, host, f); }
        }
        OneDistinct(t);
        DistinctJoined(before, [t]);
      }
    }
  }

  lemma NoneDistinct()
    ensures Distinct([])
  {
  }

  lemma OneDistinct(t: Planned)
    ensures Distinct([t])
  {
  }

  /** No candidate is named twice. */
  lemma {:induction false} CandidatesDistinct(p: Policies.Policy, principals: seq<string>, agents: seq<Agent>)
    requires Proper(agents)
    ensures Distinct(Candidates(p, principals, agents))
  {
    hide Policies.RuleFor, TargetOf, Distinct, Readable;
    if agents == [] {
      assert Distinct([]) by { NoneDistinct(); }
    } else {
      var front, last := agents[..|agents| - 1], agents[|agents| - 1];
      CandidatesDistinct(p, principals, front);
      ReadableDistinct(p, principals, last.0, last.1);
      var a, b := Candidates(p, principals, front), Readable(p, principals, last.0, last.1);
      forall x, y | x in a && y in b ensures x.target != y.target {
        CandidatesAre(p, principals, front, x);
        ReadableAre(p, principals, last.0, last.1, y);
        if x.target == y.target { SameTarget(x.host, x.flakelet, y.host, y.flakelet); }
      }
      DistinctJoined(a, b);
    }
  }

  lemma LastApart<T>(s: seq<T>)
    requires s != []
    ensures forall x :: x in s <==> x in s[..|s| - 1] || x == s[|s| - 1]
  {
    assert s == s[..|s| - 1] + [s[|s| - 1]];
  }

  /** The targets a probe drops. */
  function Dropped(probed: seq<Tagged>, n: nat): seq<bool> {
    seq(n, i requires 0 <= i < n => !Vouched(Of(probed, i)))
  }

  /** Principals one to a line. */
  function Lines(principals: seq<string>): string {
    if principals == [] then ""
    else if |principals| == 1 then principals[0]
    else Lines(principals[..|principals| - 1]) + "\n" + principals[|principals| - 1]
  }

  /** Whose deploy is followed: somebody's whom a readable job recorded under the
      client id, or else the requester's. */
  ghost predicate IsCaller(p: Policies.Policy, principals: seq<string>, clientId: string, rows: seq<Summaries.Row>,
                           caller: string)
  {
    if forall row | row in rows && row.job.who.clientId == clientId :: !Summaries.MayRead(p, principals, row)
    then caller == Lines(principals)
    else exists row | row in rows ::
      row.job.who.clientId == clientId && Summaries.MayRead(p, principals, row) && row.job.who.caller == caller
  }

  /** The first principal, and the others below it. */
  lemma {:induction false} LinesAre(principals: seq<string>)
    ensures |principals| == 1 ==> Lines(principals) == principals[0]
    ensures |principals| > 1 ==> Lines(principals) == principals[0] + "\n" + Lines(principals[1..])
    ensures principals == [] ==> Lines(principals) == ""
  {
    if |principals| > 2 {
      var n := |principals| - 1;
      LinesAre(principals[..n]);
      assert principals[..n][1..] == principals[1..][..n - 1];
    }
  }

  method FindCaller(p: Policies.Policy, principals: seq<string>, clientId: string, rows: seq<Summaries.Row>)
    returns (caller: string)
    ensures IsCaller(p, principals, clientId, rows, caller)
  {
    hide Lines, Summaries.Tells, Summaries.MayRead;
    var recorded := Summaries.JobCaller(p, principals, clientId, rows);
    return if recorded.Some? then recorded.value else Lines(principals);
  }

  /** Attaches to a deploy by its id: asks every candidate, and follows those that
      what was read before the deadline vouches for. The client is told what it
      would be told if nothing had been read before. */
  method OpenJob(clientId: string, p: Policies.Policy, principals: seq<string>, rows: seq<Summaries.Row>,
                 agents: seq<Agent>, jobId: (string, string) -> string, ids: string -> string -> Id, c: Channel,
                 deadline: nat, out: Client)
    returns (r: Followed, ghost caller: string, ghost job: string, ghost id: string -> Id,
             ghost candidates: seq<Planned>, ghost probed: seq<Tagged>, ghost read: seq<Tagged>)
    requires Serves(c, |Candidates(p, principals, agents)|)
    modifies out
    ensures IsCaller(p, principals, clientId, rows, caller)
    ensures job == jobId(caller, clientId) && id == ids(job)
    ensures candidates == Candidates(p, principals, agents)
    ensures |probed| <= deadline && Indexed(probed, |candidates|)
    ensures probed <= Arrivals(candidates, c, id, |candidates|) + c.later
    ensures r.UnknownJob? <==> forall i | 0 <= i < |candidates| :: !Vouched(Of(probed, i))
    ensures r.UnknownJob? <==> forall i | 0 <= i < |candidates| ::
      !Vouched(ByAgent(c.reached[i], Of(probed, i))) && !OnlyRefused(c.reached[i], Of(probed, i))
    ensures r.UnknownJob? ==> out.got == old(out.got)
    ensures r.Following? ==>
      && Indexed(read, |candidates|) && probed <= read <= Arrivals(candidates, c, id, |candidates|) + c.later
      && out.got <= old(out.got) + [Event.Accepted(job), Event.Wave(0)]
                    + Told(candidates, Dropped(probed, |candidates|), read)
                    + Closing(r.finish)
    ensures r.Following? && r.finish.Finished? ==>
      && var finished := Dropped(probed, |candidates|);
      && AllOver(finished, read)
      && r.finish.targets == Statuses(candidates, finished, read)
      && multiset(Names(r.finish.targets)) == Telling.Left(candidates, finished, [], |candidates|)
      && (r.finish.ok <==> AllOk(r.finish.targets)) && r.finish.skipped == []
      && (r.finish.ok <==>
            forall s | s in r.finish.targets :: s.status == Status.Updated || s.status == Status.Unchanged)
      && (forall i | 0 <= i < |candidates| && !finished[i] :: IsReported(candidates, read, i, r.finish.targets))
      && (!out.IsGone() ==> out.got == old(out.got) + [Event.Accepted(job), Event.Wave(0)]
                            + Told(candidates, finished, read) + [Event.Result(r.finish.ok, r.finish.targets, [])])
  {
    hide Told, Statuses, AllOver, Vouched, Rest, Names, Telling.Left, AllOk, Over, Of, Arrivals, Candidates, ByAgent;
    hide OnlyRefused, IsCaller, IsReported;
    var who := FindCaller(p, principals, clientId, rows);
    var name := jobId(who, clientId);
    var found := FindCandidates(p, principals, agents);
    caller, job, id, candidates, read := who, name, ids(name), found, [];
    var w, asked := Open(found, c, ids(name));
    probed := w.Probe(deadline);
    ghost var later := w.rx;
    assert w.finished == Dropped(probed, |candidates|);
    DroppedAll(probed, w.finished);
    NobodyFollowedIff(found, c, id, probed);
    if forall i | 0 <= i < |w.finished| :: w.finished[i] {
      return UnknownJob, caller, job, id, candidates, probed, read;
    }
    var finish;
    ghost var rest;
    ghost var finished := w.finished;
    finish, rest := Attach(name, w, out);
    read := AsIfStreamed(candidates, finished, probed, later, rest);
    SentFirst([Event.Accepted(job), Event.Wave(0)], Told(candidates, finished, rest), Told(candidates, finished, read),
              Closing(finish), old(out.got), out.got, finish.Finished?);
    if finish.Finished? {
      AllOverEach(finished, read);
      OneResultEach(candidates, finished, read);
      NothingLeft(candidates, finished, read, |candidates|);
      AllOkIff(finish.targets);
      AllReported(candidates, finished, read);
    }
    r := Following(finish);
  }

  /** The status of a target is what its agent reported first, or a failure if it
      was refused. */
  ghost predicate IsReported(targets: seq<Planned>, read: seq<Tagged>, i: nat, statuses: seq<TargetStatus>)
    requires i < |targets|
  {
    exists s, j: nat :: s in statuses && s.target == targets[i].target && Closes(Of(read, i), j)
      && s.status == if Of(read, i)[j].Done? then Of(read, i)[j].body.status else Status.Failed
  }

  lemma AllReported(targets: seq<Planned>, finished: seq<bool>, read: seq<Tagged>)
    requires |finished| == |targets| && Indexed(read, |targets|) && AllOver(finished, read)
    ensures forall i | 0 <= i < |targets| && !finished[i] ::
      IsReported(targets, read, i, Statuses(targets, finished, read))
  {
    hide Over, Statuses, Of, Closes;
    forall i: nat | i < |targets| && !finished[i]
      ensures IsReported(targets, read, i, Statuses(targets, finished, read))
    {
      assert Over(finished, read, i);
      var j := FirstResult(finished, read, i);
      StatusIsReported(targets, finished, read, i, j);
      var s :| s in Statuses(targets, finished, read) && s.target == targets[i].target
        && s.status == if Of(read, i)[j].Done? then Of(read, i)[j].body.status else Status.Failed;
    }
  }

  /** What a candidate whose connection took the query goes by is what its agent
      sends. */
  lemma ReachedByAgent(targets: seq<Planned>, c: Channel, id: string -> Id, read: seq<Tagged>, i: nat)
    requires Serves(c, |targets|) && i < |targets| && c.reached[i]
    requires read <= Arrivals(targets, c, id, |targets|) + c.later
    ensures Of(read, i) <= Of(FromAgents(c, |targets|) + c.later, i)
  {
    hide Of, Arrivals, FromAgents;
    var n := |targets|;
    OfFirst(read, Arrivals(targets, c, id, n) + c.later, i);
    OfJoined(Arrivals(targets, c, id, n), c.later, i);
    OfJoined(FromAgents(c, n), c.later, i);
    RefusalFirst(targets, c, id, n, i);
    assert [] + Of(FromAgents(c, n), i) == Of(FromAgents(c, n), i);
  }

  /** A candidate whose connection was lost hears the relay's own refusal first.
      If its agent says nothing, that refusal vouches for it as soon as it is
      read. */
  lemma LostIsFollowed(targets: seq<Planned>, c: Channel, id: string -> Id, read: seq<Tagged>, i: nat)
    requires Serves(c, |targets|) && i < |targets| && !c.reached[i]
    requires read <= Arrivals(targets, c, id, |targets|) + c.later
    ensures Of(read, i) <= [Refusal(targets[i], id)] + Of(FromAgents(c, |targets|) + c.later, i)
    ensures Of(FromAgents(c, |targets|) + c.later, i) == [] ==> (Vouched(Of(read, i)) <==> Of(read, i) != [])
  {
    hide Of, Arrivals, FromAgents, Vouched, Refusal;
    var n := |targets|;
    OfFirst(read, Arrivals(targets, c, id, n) + c.later, i);
    OfJoined(Arrivals(targets, c, id, n), c.later, i);
    OfJoined(FromAgents(c, n), c.later, i);
    RefusalFirst(targets, c, id, n, i);
    var own, refusal, later := Of(read, i), [Refusal(targets[i], id)], Of(FromAgents(c, n), i);
    assert (refusal + later) + Of(c.later, i) == refusal + (later + Of(c.later, i));
    if Of(FromAgents(c, n) + c.later, i) == [] && own != [] {
      assert own == refusal;
    }
    NothingVouches();
    RefusalVouches(targets[i], id);
  }

  lemma RefusalVouches(target: Planned, id: string -> Id)
    ensures Vouched([Refusal(target, id)])
  {
    NoAnswer();
    LastAnswerMore([], Refusal(target, id));
    assert [] + [Refusal(target, id)] == [Refusal(target, id)];
  }

  /** Of what was heard for a candidate, what its agent sent. */
  function ByAgent(reached: bool, heard: seq<Frame>): seq<Frame> {
    if reached || heard == [] then heard else heard[1..]
  }

  /** Nothing but the relay's own refusal was heard. */
  predicate OnlyRefused(reached: bool, heard: seq<Frame>) {
    !reached && |heard| == 1
  }

  lemma {:induction false} RefusalAnswersNothing(refusal: Frame, own: seq<Frame>)
    requires !Answers(refusal)
    ensures LastAnswer([refusal] + own) == LastAnswer(own)
  {
    hide Answers;
    var all := [refusal] + own;
    if own == [] {
      assert all == [refusal] && all[..0] == [];
    } else {
      assert all[..|all| - 1] == [refusal] + own[..|own| - 1];
      RefusalAnswersNothing(refusal, own[..|own| - 1]);
    }
  }

  /** Whom a probe follows. It is meant to follow the candidates that their agents
      vouch for, and does so for a candidate exactly unless nothing but the
      relay's own refusal was heard for it: an agent that reconnects in time and
      does not know the job has the last word. */
  lemma FollowedIff(targets: seq<Planned>, c: Channel, id: string -> Id, read: seq<Tagged>, i: nat)
    requires Serves(c, |targets|) && i < |targets|
    requires read <= Arrivals(targets, c, id, |targets|) + c.later
    ensures var heard := Of(read, i);
      var own := ByAgent(c.reached[i], heard);
      && own <= Of(FromAgents(c, |targets|) + c.later, i)
      && (Vouched(heard) <==> Vouched(own) || OnlyRefused(c.reached[i], heard))
      && ((Vouched(heard) <==> Vouched(own)) <==> c.reached[i] || heard == [] || own != [])
  {
    hide Of, Arrivals, FromAgents, Vouched, Refusal;
    NothingVouches();
    if c.reached[i] {
      ReachedByAgent(targets, c, id, read, i);
    } else {
      LostIsFollowed(targets, c, id, read, i);
      if Of(read, i) != [] {
        RefusalVouches(targets[i], id);
        NotAnAnswer(targets[i], id);
        BehindRefusal(Refusal(targets[i], id), Of(read, i), Of(FromAgents(c, |targets|) + c.later, i));
      }
    }
  }

  lemma BehindRefusal(refusal: Frame, heard: seq<Frame>, agent: seq<Frame>)
    requires !Answers(refusal) && Vouched([refusal]) && heard != [] && heard <= [refusal] + agent
    ensures heard[1..] <= agent
    ensures Vouched(heard) <==> Vouched(heard[1..]) || heard[1..] == []
  {
    hide Answers, LastAnswer;
    assert heard[1..] <= ([refusal] + agent)[1..] == agent;
    assert heard == [refusal] + heard[1..];
    RefusalAnswersNothing(refusal, heard[1..]);
    if heard[1..] == [] { assert heard == [refusal]; }
  }

  lemma NotAnAnswer(target: Planned, id: string -> Id)
    ensures !Answers(Refusal(target, id))
  {
  }

  /** Nobody is followed exactly if no agent vouches for its candidate and none
      was only refused. */
  lemma NobodyFollowedIff(targets: seq<Planned>, c: Channel, id: string -> Id, read: seq<Tagged>)
    requires Serves(c, |targets|) && read <= Arrivals(targets, c, id, |targets|) + c.later
    ensures (forall i | 0 <= i < |targets| :: !Vouched(Of(read, i))) <==>
      forall i | 0 <= i < |targets| ::
        !Vouched(ByAgent(c.reached[i], Of(read, i))) && !OnlyRefused(c.reached[i], Of(read, i))
  {
    hide Vouched, Of, Arrivals, ByAgent, OnlyRefused;
    forall i: nat | i < |targets|
      ensures Vouched(Of(read, i)) <==>
        Vouched(ByAgent(c.reached[i], Of(read, i))) || OnlyRefused(c.reached[i], Of(read, i))
    {
      FollowedIff(targets, c, id, read, i);
    }
  }

  /** It is reported failed, so following the deploy ends with a verdict of
      failure, whatever the agents that know the job say. */
  lemma LostFails(targets: seq<Planned>, c: Channel, id: string -> Id, finished: seq<bool>, read: seq<Tagged>, i: nat)
    requires Serves(c, |targets|) && i < |targets| == |finished| && !c.reached[i] && !finished[i]
    requires read <= Arrivals(targets, c, id, |targets|) + c.later && Indexed(read, |targets|)
    requires AllOver(finished, read)
    ensures TargetStatus(targets[i].target, Failed) in Statuses(targets, finished, read)
    ensures !AllOk(Statuses(targets, finished, read))
  {
    hide Arrivals, FromAgents, Statuses, Vouched;
    LostIsFollowed(targets, c, id, read, i);
    assert Over(finished, read, i) && Of(read, i) != [];
    StatusIsReported(targets, finished, read, i, 0);
  }

  /** One candidate, whose connection is gone, and no agent says anything: the
      deploy counts as known, and as failed. */
  lemma LostConnection(target: Planned, id: string -> Id)
    ensures var c, targets := Channel([false], [[]], []), [target];
      && Serves(c, 1) && FromAgents(c, 1) + c.later == []
      && var read := Arrivals(targets, c, id, 1);
      && Dropped(read, 1) == [false] && AllOver(Dropped(read, 1), read) && Indexed(read, 1)
      && Statuses(targets, Dropped(read, 1), read) == [TargetStatus(target.target, Failed)]
  {
    hide Vouched, Refusal;
    var c, targets := Channel([false], [[]], []), [target];
    NoArrivals(targets, c, id);
    ArrivalsMore(targets, c, id, 0);
    var x: Tagged := (0, Refusal(target, id));
    var read := Arrivals(targets, c, id, 1);
    assert read == [x];
    OfOne(x, 0);
    RefusalVouches(target, id);
    assert Ending(x.1) == Some(FAILED) by { RefusalEnds(target, id); }
    OverMore([false], [], x, 0);
    OfNothing(0);
    assert [] + [x] == [x];
    Telling.ToldMore(targets, [false], [], x);
  }

  /** One candidate whose connection is gone, but whose agent reconnects in time
      and answers that it does not know the job, and another that says nothing:
      although the refusal was read, neither is followed. */
  lemma Reconnected(target: Planned, other: Planned, id: string -> Id, e: Frame)
    requires e.Error?
    ensures var c, targets := Channel([false, true], [[], []], [(0, e)]), [target, other];
      && Serves(c, 2)
      && var read := Arrivals(targets, c, id, 2) + c.later;
      && Of(read, 0) == [Refusal(target, id), e] && Dropped(read, 2) == [true, true]
  {
    hide Vouched, Refusal;
    var c, targets := Channel([false, true], [[], []], [(0, e)]), [target, other];
    NoArrivals(targets, c, id);
    ArrivalsMore(targets, c, id, 0);
    ArrivalsMore(targets, c, id, 1);
    var refusal, answer: Tagged := (0, Refusal(target, id)), (0, e);
    var read := Arrivals(targets, c, id, 2) + c.later;
    assert read == [refusal] + [answer];
    forall i: nat ensures Of(read, i) == if i == 0 then [Refusal(target, id), e] else [] {
      OfMore([refusal], answer, i);
      OfOne(refusal, i);
    }
    hide Of;
    ErrorDrops(Refusal(target, id), e);
    NothingVouches();
  }

  lemma ErrorDrops(f: Frame, e: Frame)
    requires e.Error?
    ensures !Vouched([f, e])
  {
  }

  lemma RefusalEnds(target: Planned, id: string -> Id)
    ensures Ending(Refusal(target, id)) == Some(FAILED)
  {
  }

  lemma AllOverEach(finished: seq<bool>, read: seq<Tagged>)
    requires AllOver(finished, read)
    ensures forall i | 0 <= i < |finished| :: Over(finished, read, i)
  {
    hide Over;
  }

  /** Less may have been told so far than what was read amounts to. */
  lemma SentFirst(first: seq<Event>, told: seq<Event>, more: seq<Event>, closing: seq<Event>, was: seq<Event>,
                  got: seq<Event>, over: bool)
    requires got <= was + first + told + closing && told <= more
    requires if over then told == more else closing == []
    ensures got <= was + first + more + closing
  {
    if !over {
      assert was + first + told + [] == was + first + told <= was + first + more + [];
    }
  }

  lemma DroppedAll(probed: seq<Tagged>, finished: seq<bool>)
    requires finished == Dropped(probed, |finished|)
    ensures (forall i | 0 <= i < |finished| :: finished[i])
       <==> forall i | 0 <= i < |finished| :: !Vouched(Of(probed, i))
  {
    hide Vouched, Of;
    if i: nat :| i < |finished| && !finished[i] {
      assert Vouched(Of(probed, i));
    } else {
      forall i | 0 <= i < |finished| ensures !Vouched(Of(probed, i)) {
        assert finished[i];
      }
    }
  }

  /** Streams an open wave as a deploy of its own. */
  method Attach(job: string, w: Wave, out: Client) returns (r: Finish, ghost read: seq<Tagged>)
    requires w.Valid()
    modifies w, out
    ensures Indexed(read, |w.targets|) && read <= old(w.backlog + w.rx)
    ensures out.got <= old(out.got) + [Event.Accepted(job), Event.Wave(0)] + Told(w.targets, old(w.finished), read)
                       + Closing(r)
    ensures r.Finished? ==>
      && AllOver(old(w.finished), read)
      && r.targets == Statuses(w.targets, old(w.finished), read)
      && (r.ok <==> AllOk(r.targets)) && r.skipped == []
      && (!out.IsGone() ==> out.got == old(out.got) + [Event.Accepted(job), Event.Wave(0)]
                            + Told(w.targets, old(w.finished), read) + [Event.Result(r.ok, r.targets, [])])
  {
    hide Told, Statuses, AllOver, AllOk;
    read := [];
    var sent := out.Send(Event.Accepted(job));
    if sent { sent := out.Send(Event.Wave(0)); }
    if !sent { return Left, read; }
    assert out.got == old(out.got) + [Event.Accepted(job), Event.Wave(0)];
    var s;
    s, read := w.Stream(out);
    if s.Gone? { return Left, read; }
    if s.Waiting? { return Stuck, read; }
    var ok := AllOk(s.statuses);
    r := Finished(ok, s.statuses, []);
    sent := out.Send(Event.Result(ok, s.statuses, []));
  }

  lemma {:induction false} ToldFirst(targets: seq<Planned>, finished: seq<bool>, fs: seq<Tagged>, more: seq<Tagged>)
    requires |finished| == |targets| && fs <= more && Indexed(more, |targets|)
    ensures Indexed(fs, |targets|) && Told(targets, finished, fs) <= Told(targets, finished, more)
  {
    hide Over, Telling.Says, Top, Of;
    if fs != more {
      assert fs <= more[..|more| - 1];
      ToldFirst(targets, finished, fs, more[..|more| - 1]);
    } else {
      assert forall j | 0 <= j < |fs| :: fs[j] == more[j];
    }
  }

  /** Frames read by the probe and then by the stream are as good as all of
      them read by the stream. */
  lemma AsIfStreamed(targets: seq<Planned>, finished: seq<bool>, probed: seq<Tagged>, later: seq<Tagged>,
                     rest: seq<Tagged>)
    returns (read: seq<Tagged>)
    requires |finished| == |targets| && Indexed(probed, |targets|) && Indexed(later, |targets|)
    requires rest <= Rest(probed) + later && Indexed(rest, |targets|)
    ensures probed <= read <= probed + later && Indexed(read, |targets|)
    ensures Told(targets, finished, rest) <= Told(targets, finished, read)
    ensures AllOver(finished, rest) ==>
      && AllOver(finished, read)
      && Told(targets, finished, read) == Told(targets, finished, rest)
      && Statuses(targets, finished, read) == Statuses(targets, finished, rest)
  {
    hide Told, Statuses, AllOver, Rest, Alike;
    RestIsAlike(targets, finished, probed);
    var n := |Rest(probed)|;
    if |rest| <= n {
      read := probed;
      var more := Rest(probed)[|rest|..];
      RestIndexed(targets, finished, probed);
      assert rest + more == Rest(probed);
      ToldFirst(targets, finished, rest, Rest(probed));
      AlikeTold(targets, finished, Rest(probed), read);
      if AllOver(finished, rest) {
        NothingFollows(targets, finished, rest, more);
        AlikeOver(targets, finished, Rest(probed), read);
      }
    } else {
      var l := rest[n..];
      assert rest == Rest(probed) + l && l <= later;
      read := probed + l;
      ProbeThenStream(targets, finished, probed, l);
      AlikeTold(targets, finished, rest, read);
      if AllOver(finished, rest) { AlikeOver(targets, finished, rest, read); }
    }
  }

  lemma AlikeTold(targets: seq<Planned>, finished: seq<bool>, a: seq<Tagged>, b: seq<Tagged>)
    requires |finished| == |targets| && Alike(targets, finished, a, b)
    ensures Indexed(a, |targets|) && Indexed(b, |targets|)
    ensures Told(targets, finished, a) == Told(targets, finished, b)
  {
    hide Told, Statuses, Over;
  }

  lemma RestIndexed(targets: seq<Planned>, finished: seq<bool>, fs: seq<Tagged>)
    requires |finished| == |targets| && Indexed(fs, |targets|)
    ensures Indexed(Rest(fs), |targets|)
  {
    RestIsAlike(targets, finished, fs);
  }

  lemma AlikeOver(targets: seq<Planned>, finished: seq<bool>, a: seq<Tagged>, b: seq<Tagged>)
    requires |finished| == |targets| && Alike(targets, finished, a, b) && AllOver(finished, a)
    ensures Indexed(b, |targets|) && AllOver(finished, b)
    ensures Told(targets, finished, a) == Told(targets, finished, b)
    ensures Statuses(targets, finished, a) == Statuses(targets, finished, b)
  {
    hide Told, Statuses, Over;
  }
}
