/** From the unit's output to the client's terminal: the link, the wave, the
    deploy and the printer together. */
module EndToEnd {
  import opened Wrappers
  import opened Proto
  import opened Telling
  import opened Links
  import opened LinkOrder
  import D = Deploys
  import P = Printers
  import Plans
  import opened Policies
  import opened LinkResults

  // ----- what one stream shows of the target -----

  /** What the relay itself says of a target it could not reach. */
  function Refused(target: string): seq<Event> {
    [Event.Log(target, 0, "agent refused: agent connection lost"), Event.Done(target, FAILED)]
  }

  /** Nothing, the relay's own refusal, or what some orderly link told the relay,
      as far as it was told. Each stream may come from another relay, with
      connections of its own. */
  ghost predicate Shows(u: Unit, own: seq<Event>) {
    || own == []
    || own <= Refused(u.target)
    || exists from, steps, to :: Initial(u, from) && LeadsOrderly(u, from, steps, to) && own <= Tell(u.target, to.got)
  }

  /** What the agent's connections deliver for a target comes from an orderly
      link. */
  ghost predicate Delivered(u: Unit, fs: seq<Frame>) {
    exists from, steps, to :: Initial(u, from) && LeadsOrderly(u, from, steps, to) && fs <= to.got
  }

  /** If the unit is among the targets of an open wave and its host could be
      reached, an orderly link delivers its frames. */
  ghost predicate Delivers(u: Unit, targets: seq<Planned>, c: D.Channel) {
    && D.Serves(c, |targets|)
    && forall i | 0 <= i < |targets| && targets[i].target == u.target && c.reached[i] ::
         Delivered(u, Of(D.FromAgents(c, |targets|) + c.later, i))
  }

  ghost predicate Carries(u: Unit, targets: seq<Planned>, c: D.Channel) {
    Delivers(u, targets, c) && Distinct(targets)
  }

  predicate IsTarget(targets: seq<Planned>, target: string) {
    exists i | 0 <= i < |targets| :: targets[i].target == target
  }

  lemma {:induction false} TellFirst(target: string, fs: seq<Frame>, more: seq<Frame>)
    requires fs <= more
    ensures Tell(target, fs) <= Tell(target, more)
  {
    hide Says, Ended, Top;
    if fs != more {
      assert fs <= more[..|more| - 1];
      TellFirst(target, fs, more[..|more| - 1]);
    }
  }

  lemma ShowsDelivered(u: Unit, fs: seq<Frame>, more: seq<Frame>)
    requires Delivered(u, more) && fs <= more
    ensures Shows(u, Tell(u.target, fs))
  {
    hide LeadsOrderly, Initial, Tell;
    var from, steps, to :| Initial(u, from) && LeadsOrderly(u, from, steps, to) && more <= to.got;
    TellFirst(u.target, fs, to.got);
  }

  lemma RefusedIs(target: string)
    ensures Refused(target) == [Event.Log(target, 0, REFUSED + D.LOST), Event.Done(target, FAILED)]
  {
    assert REFUSED + D.LOST == "agent refused: agent connection lost";
  }

  /** A target that could not be reached has its result before anything its agent
      may say. */
  lemma {:induction false} RefusedTells(target: Planned, id: string -> Id, fs: seq<Frame>)
    requires fs != [] && fs[0] == D.Refusal(target, id)
    ensures Tell(target.target, fs) == Refused(target.target) && Ended(fs)
  {
    hide Refused;
    RefusedIs(target.target);
    var before, f := fs[..|fs| - 1], fs[|fs| - 1];
    assert fs == before + [f];
    TellMore(target.target, before, f);
    EndedMore(before, f);
    if before == [] {
      assert Tell(target.target, []) == [] by { TellNothing(target.target); }
    } else {
      RefusedTells(target, id, before);
    }
  }

  lemma {:induction false} ToldOthers(targets: seq<Planned>, finished: seq<bool>, fs: seq<Tagged>, target: string)
    requires |finished| == |targets| && Indexed(fs, |targets|) && !IsTarget(targets, target)
    ensures OfTarget(Told(targets, finished, fs), target) == []
  {
    hide Says, Over, Top, Of;
    if fs != [] {
      var before, x := fs[..|fs| - 1], fs[|fs| - 1];
      assert fs == before + [x];
      ToldOthers(targets, finished, before, target);
      ToldMore(targets, finished, before, x);
      var told, says := Told(targets, finished, before), Says(targets[x.0].target, Top(Of(before, x.0)), x.1);
      assert told + [] == told;
      OfTargetJoined(told, says, target);
      SaysAbout(targets[x.0].target, Top(Of(before, x.0)), x.1);
      OfTargetAll(says, targets[x.0].target, target);
    }
  }

  /** A wave tells of the target what it should. */
  lemma WaveShows(u: Unit, targets: seq<Planned>, c: D.Channel, id: string -> Id, finished: seq<bool>,
                  read: seq<Tagged>)
    requires Carries(u, targets, c) && |finished| == |targets| && Indexed(read, |targets|)
    requires read <= D.Arrivals(targets, c, id, |targets|) + c.later
    ensures Shows(u, OfTarget(Told(targets, finished, read), u.target))
    ensures !IsTarget(targets, u.target) ==> OfTarget(Told(targets, finished, read), u.target) == []
  {
    hide Told, OfTarget, Of, Tell, Delivered, D.Arrivals, D.FromAgents, Shows, Distinct, Ended, Refused;
    if i: nat :| i < |targets| && targets[i].target == u.target {
      ToldSeparately(targets, finished, read, i);
      var own := Of(read, i);
      if finished[i] {
        ShowsNothing(u);
      } else if c.reached[i] {
        D.ReachedByAgent(targets, c, id, read, i);
        ShowsDelivered(u, own, Of(D.FromAgents(c, |targets|) + c.later, i));
      } else {
        D.LostIsFollowed(targets, c, id, read, i);
        if own == [] {
          TellNothing(u.target);
          ShowsNothing(u);
        } else {
          RefusedTells(targets[i], id, own);
          ShowsRefusal(u);
        }
      }
    } else {
      ToldOthers(targets, finished, read, u.target);
      ShowsNothing(u);
    }
  }

  lemma ShowsNothing(u: Unit)
    ensures Shows(u, [])
  {
  }

  lemma ShowsRefusal(u: Unit)
    ensures Shows(u, Refused(u.target))
  {
  }

  lemma OfTargetFirst(es: seq<Event>, more: seq<Event>, target: string)
    requires es <= more
    ensures OfTarget(es, target) <= OfTarget(more, target)
  {
    assert more == es + more[|es|..];
    OfTargetJoined(es, more[|es|..], target);
  }

  lemma ShowsFirst(u: Unit, own: seq<Event>, more: seq<Event>)
    requires Shows(u, more) && own <= more
    ensures Shows(u, own)
  {
    hide LeadsOrderly, Initial, Tell, Refused;
  }

  // ----- where a stream comes from -----

  /** What surrounds what is told of targets. */
  predicate Plain(es: seq<Event>) {
    forall e | e in es :: e.Accepted? || e.Wave? || e.Result?
  }

  lemma {:induction false} PlainTells(es: seq<Event>, target: string)
    requires Plain(es)
    ensures OfTarget(es, target) == []
  {
    if es != [] {
      var front := es[..|es| - 1];
      assert es == front + [es[|es| - 1]];
      PlainTells(front, target);
      assert es[|es| - 1] in es;
    }
  }

  /** The stream of a deploy: some of what the client of `RunJob` is sent. The
      target is planned at most once. */
  ghost predicate FromDeploy(u: Unit, es: seq<Event>, waves: seq<seq<Planned>>, channels: seq<D.Channel>,
                             id: string -> Id, inputs: seq<seq<Tagged>>, first: seq<Event>, last: seq<Event>)
  {
    && D.Fit(waves, inputs) && |channels| == |waves| && Plain(first) && Plain(last)
    && (forall k | 0 <= k < |inputs| ::
          Carries(u, D.LiveIn(waves[k]), channels[k]) && D.ReadOf(waves[k], channels[k], id, inputs[k]))
    && (forall j, k | 0 <= j < k < |waves| ::
          !(IsTarget(D.LiveIn(waves[j]), u.target) && IsTarget(D.LiveIn(waves[k]), u.target)))
    && es <= first + D.Transcript(waves, inputs) + last
  }

  /** The stream of a deploy that is followed by its id: some of what the client
      of `OpenJob` is sent. */
  ghost predicate FromFollowing(u: Unit, es: seq<Event>, targets: seq<Planned>, c: D.Channel, id: string -> Id,
                                finished: seq<bool>, read: seq<Tagged>, first: seq<Event>, last: seq<Event>)
  {
    && Carries(u, targets, c) && |finished| == |targets| && Indexed(read, |targets|) && Plain(first) && Plain(last)
    && read <= D.Arrivals(targets, c, id, |targets|) + c.later
    && es <= first + Told(targets, finished, read) + last
  }

  ghost predicate FromRelay(u: Unit, es: seq<Event>) {
    || (exists waves, channels, id, inputs, first, last :: FromDeploy(u, es, waves, channels, id, inputs, first, last))
    || (exists targets, c, id, finished, read, first, last ::
          FromFollowing(u, es, targets, c, id, finished, read, first, last))
  }

  /** What `RunJob` leaves its client with is such a stream. */
  lemma DeployIsStream(u: Unit, job: string, waves: seq<seq<Planned>>, channels: seq<D.Channel>, id: string -> Id,
                       r: D.Finish, done: seq<seq<TargetStatus>>, inputs: seq<seq<Tagged>>, got: seq<Event>)
    requires D.AllRanAs(waves, channels, id, done, inputs) && D.Fit(waves, inputs)
    requires got <= [Event.Accepted(job)] + D.Transcript(waves, inputs) + D.Closing(r)
    requires forall k | 0 <= k < |waves| :: Carries(u, D.LiveIn(waves[k]), channels[k])
    requires forall j, k | 0 <= j < k < |waves| ::
      !(IsTarget(D.LiveIn(waves[j]), u.target) && IsTarget(D.LiveIn(waves[k]), u.target))
    ensures FromRelay(u, got)
  {
    hide Carries, IsTarget, D.LiveIn, D.Transcript, D.ReadOf, D.RanAs, D.Fit;
    assert FromDeploy(u, got, waves, channels, id, inputs, [Event.Accepted(job)], D.Closing(r));
  }

  /** The stream of every accepted request is such a stream: its plan has no
      target twice. */
  lemma RequestIsStream(u: Unit, v: Plans.View, principals: seq<string>, request: Plans.Request, job: string,
                        waves: seq<seq<Planned>>, channels: seq<D.Channel>, id: string -> Id, r: D.Finish,
                        done: seq<seq<TargetStatus>>, inputs: seq<seq<Tagged>>, got: seq<Event>)
    requires Plans.Answer(v, principals, request) == Ok(waves)
    requires D.AllRanAs(waves, channels, id, done, inputs) && D.Fit(waves, inputs)
    requires got <= [Event.Accepted(job)] + D.Transcript(waves, inputs) + D.Closing(r)
    requires forall k | 0 <= k < |waves| :: Delivers(u, D.LiveIn(waves[k]), channels[k])
    ensures FromRelay(u, got)
  {
    hide Delivers, IsTarget, Distinct, D.LiveIn, D.Transcript, D.ReadOf, D.RanAs, D.Fit, Plans.Answer, FromRelay;
    PlannedOnce(v, principals, request, waves, u.target);
    DeployIsStream(u, job, waves, channels, id, r, done, inputs, got);
  }

  lemma PlannedOnce(v: Plans.View, principals: seq<string>, request: Plans.Request, waves: seq<seq<Planned>>,
                    name: string)
    requires Plans.Answer(v, principals, request) == Ok(waves)
    ensures forall k | 0 <= k < |waves| :: Distinct(D.LiveIn(waves[k]))
    ensures forall j, k | 0 <= j < k < |waves| ::
      !(IsTarget(D.LiveIn(waves[j]), name) && IsTarget(D.LiveIn(waves[k]), name))
  {
    hide IsTarget, Distinct, D.LiveIn, Plans.Expanded, Plans.NaiveWave, Plans.NamesOf;
    var asked := request.waves;
    assert waves == Plans.Expanded(v, principals, asked);
    hide Plans.Answer;
    forall k: nat | k < |waves|
      ensures k < |asked| && Distinct(D.LiveIn(waves[k]))
      ensures IsTarget(D.LiveIn(waves[k]), name) ==>
        && name in Plans.NamesOf(Plans.NaiveWave(v, principals, asked[k]))
        && forall j | 0 <= j < k :: name !in Plans.NamesOf(Plans.NaiveWave(v, principals, asked[j]))
    {
      Plans.ExpandedLength(v, principals, asked);
      Plans.EarliestWaveOnly(v, principals, asked, k, name);
      LiveDistinct(waves[k]);
      LiveNames(waves[k], name);
    }
  }

  lemma {:induction false} LiveAre(wave: seq<Planned>, t: Planned)
    ensures t in D.LiveIn(wave) ==> t in wave
  {
    if wave != [] {
      LiveAre(wave[..|wave| - 1], t);
    }
  }

  lemma LiveNames(wave: seq<Planned>, name: string)
    ensures IsTarget(D.LiveIn(wave), name) ==> name in Plans.NamesOf(wave)
  {
    if i :| 0 <= i < |D.LiveIn(wave)| && D.LiveIn(wave)[i].target == name {
      LiveAre(wave, D.LiveIn(wave)[i]);
    }
  }

  lemma {:induction false} LiveDistinct(wave: seq<Planned>)
    requires Distinct(wave)
    ensures Distinct(D.LiveIn(wave))
  {
    if wave != [] {
      var front, last := wave[..|wave| - 1], wave[|wave| - 1];
      assert forall i | 0 <= i < |front| :: front[i] == wave[i];
      LiveDistinct(front);
      forall i | 0 <= i < |D.LiveIn(front)| ensures D.LiveIn(front)[i].target != last.target {
        LiveAre(front, D.LiveIn(front)[i]);
      }
    }
  }

  /** So is what `OpenJob` leaves its client with. */
  lemma FollowingIsStream(u: Unit, p: Policy, principals: seq<string>, agents: seq<D.Agent>, job: string,
                          c: D.Channel, id: string -> Id, probed: seq<Tagged>, read: seq<Tagged>, r: D.Finish,
                          got: seq<Event>)
    requires D.Proper(agents)
    requires var candidates := D.Candidates(p, principals, agents);
      && Delivers(u, candidates, c) && Indexed(read, |candidates|)
      && read <= D.Arrivals(candidates, c, id, |candidates|) + c.later
      && got <= [Event.Accepted(job), Event.Wave(0)]
                + Told(candidates, D.Dropped(probed, |candidates|), read) + D.Closing(r)
    ensures FromRelay(u, got)
  {
    hide Delivers, Distinct, Told, D.Arrivals, D.Candidates, D.Proper, Vouched;
    var candidates := D.Candidates(p, principals, agents);
    D.CandidatesDistinct(p, principals, agents);
    assert FromFollowing(u, got, candidates, c, id, D.Dropped(probed, |candidates|), read,
                         [Event.Accepted(job), Event.Wave(0)], D.Closing(r));
  }

  lemma {:induction false} TranscriptShows(u: Unit, waves: seq<seq<Planned>>, channels: seq<D.Channel>,
                                           id: string -> Id, inputs: seq<seq<Tagged>>)
    requires D.Fit(waves, inputs) && |channels| == |waves|
    requires forall k | 0 <= k < |inputs| ::
      Carries(u, D.LiveIn(waves[k]), channels[k]) && D.ReadOf(waves[k], channels[k], id, inputs[k])
    requires forall j, k | 0 <= j < k < |waves| ::
      !(IsTarget(D.LiveIn(waves[j]), u.target) && IsTarget(D.LiveIn(waves[k]), u.target))
    ensures Shows(u, OfTarget(D.Transcript(waves, inputs), u.target))
    ensures (forall k | 0 <= k < |inputs| :: !IsTarget(D.LiveIn(waves[k]), u.target)) ==>
      OfTarget(D.Transcript(waves, inputs), u.target) == []
  {
    hide Shows, Carries, IsTarget, D.LiveIn, OfTarget, Told;
    if inputs == [] {
      assert OfTarget([], u.target) == [] by { PlainTells([], u.target); }
      ShowsNothing(u);
    } else {
      var k := |inputs| - 1;
      var front, live := inputs[..k], D.LiveIn(waves[k]);
      TranscriptShows(u, waves, channels, id, front);
      WaveShows(u, live, channels[k], id, D.AllOpen(|live|), inputs[k]);
      var before, wave, told := D.Transcript(waves, front), [Event.Wave(k)], D.Says(waves[k], inputs[k]);
      OfTargetJoined(before, wave, u.target);
      OfTargetJoined(before + wave, told, u.target);
      PlainTells(wave, u.target);
      var a, b := OfTarget(before, u.target), OfTarget(told, u.target);
      assert OfTarget(D.Transcript(waves, inputs), u.target) == a + [] + b;
      if IsTarget(live, u.target) {
        assert a == [];
        assert [] + [] + b == b;
      } else {
        assert b == [];
        assert a + [] + [] == a;
      }
    }
  }

  lemma Surrounded(first: seq<Event>, es: seq<Event>, last: seq<Event>, target: string)
    requires Plain(first) && Plain(last)
    ensures OfTarget(first + es + last, target) == OfTarget(es, target)
  {
    hide OfTarget, Plain;
    OfTargetJoined(first, es, target);
    OfTargetJoined(first + es, last, target);
    PlainTells(first, target);
    PlainTells(last, target);
    assert [] + OfTarget(es, target) + [] == OfTarget(es, target);
  }

  /** Whatever a relay sends shows of the target what an orderly link told it, if
      anything. */
  lemma RelayShows(u: Unit, es: seq<Event>)
    requires FromRelay(u, es)
    ensures Shows(u, OfTarget(es, u.target))
  {
    hide Shows, OfTarget, Told, D.Transcript, D.Fit, Carries, Plain, D.Arrivals, D.LiveIn, D.ReadOf, IsTarget;
    if waves, channels, id, inputs, first, last :| FromDeploy(u, es, waves, channels, id, inputs, first, last) {
      TranscriptShows(u, waves, channels, id, inputs);
      var told := D.Transcript(waves, inputs);
      Surrounded(first, told, last, u.target);
      OfTargetFirst(es, first + told + last, u.target);
      ShowsFirst(u, OfTarget(es, u.target), OfTarget(told, u.target));
    } else {
      var targets, c, id, finished, read, first, last :|
        FromFollowing(u, es, targets, c, id, finished, read, first, last);
      WaveShows(u, targets, c, id, finished, read);
      var told := Told(targets, finished, read);
      Surrounded(first, told, last, u.target);
      OfTargetFirst(es, first + told + last, u.target);
      ShowsFirst(u, OfTarget(es, u.target), OfTarget(told, u.target));
    }
  }

  // ----- lines -----

  lemma {:induction false} NumberedFirst(a: seq<Event>, b: seq<Event>)
    requires a <= b
    ensures NumberedLines(a) <= NumberedLines(b)
  {
    if a != b {
      assert a <= b[..|b| - 1];
      NumberedFirst(a, b[..|b| - 1]);
    }
  }

  lemma {:induction false} AllNumbered(es: seq<Event>)
    requires forall l | l in Lines(es) :: l.0 > 0
    ensures NumberedLines(es) == Lines(es)
  {
    if es != [] {
      var front := es[..|es| - 1];
      assert forall l | l in Lines(front) :: l in Lines(es);
      AllNumbered(front);
      var e := es[|es| - 1];
      if e.Log? { assert (e.seqno, e.line) in Lines(es); }
    }
  }

  /** The numbered lines of a target among all events are those of its own. */
  lemma {:induction false} LinesOfTarget(es: seq<Event>, target: string)
    ensures P.LinesOf(es, target) == NumberedLines(OfTarget(es, target))
  {
    if es != [] {
      var front, e := es[..|es| - 1], es[|es| - 1];
      LinesOfTarget(front, target);
      var own := OfTarget(front, target);
      NumberedMore(own, e);
      assert own + [] == own;
    }
  }

  /** A stream has the beginning of the unit's log, and all of it once it shows a
      result that is not a refusal. */
  lemma ShownLines(u: Unit, own: seq<Event>)
    requires Shows(u, own)
    ensures NumberedLines(own) <= Full(u)
    ensures (exists e :: e in own && e.Done?) && (forall e | e in own && e.Log? :: e.seqno > 0) ==>
      NumberedLines(own) == Full(u)
  {
    hide LeadsOrderly, Full, Tell, Lines, NumberedLines, Initial, Ended;
    if own <= Refused(u.target) {
      RefusalLines(u.target, own);
    } else {
      var from, steps, to :| Initial(u, from) && LeadsOrderly(u, from, steps, to) && own <= Tell(u.target, to.got);
      var all := Tell(u.target, to.got);
      LinkIsComplete(u, from, steps, to);
      OwnLines(u, all);
      NumberedFirst(own, all);
      TellIsTidy(u.target, to.got);
      if e :| e in own && e.Done? {
        DoneLast(u.target, to.got, own, e);
      }
    }
  }

  lemma OwnLines(u: Unit, es: seq<Event>)
    requires Lines(es) <= Full(u)
    ensures NumberedLines(es) == Lines(es)
  {
    hide Full, Lines, NumberedLines;
    FullIsNumbered(u);
    var lines, full := Lines(es), Full(u);
    forall l | l in lines ensures l.0 > 0 {
      var k :| 0 <= k < |lines| && lines[k] == l;
      assert full[k] == l;
    }
    AllNumbered(es);
  }

  lemma RefusalLines(target: string, own: seq<Event>)
    requires own <= Refused(target)
    ensures NumberedLines(own) == []
    ensures (exists e :: e in own && e.Done?) ==> exists e :: e in own && e.Log? && e.seqno == 0
  {
    var log, done := Refused(target)[0], Refused(target)[1];
    NumberedMore([], log);
    NumberedMore([log], done);
    assert [] + [log] == [log] && [log] + [done] == [log, done];
    assert NumberedLines([]) == [];
    assert own == [] || own == [log] || own == [log, done];
    if own != [] { assert log in own; }
  }

  lemma DoneLast(target: string, fs: seq<Frame>, own: seq<Event>, e: Event)
    requires own <= Tell(target, fs) && e in own && e.Done?
    ensures own == Tell(target, fs) && Ended(fs)
  {
    hide Tell, Ended;
    TellIsTidy(target, fs);
    var all := Tell(target, fs);
    var k :| 0 <= k < |own| && own[k] == e;
    assert all[k] == e && e in all;
    assert k == |all| - 1;
  }

  // ----- the terminal -----

  /** What was printed of the streams is what some of their events are, stream by
      stream. */
  lemma {:induction false} CutOff(streams: seq<P.Stream>, es: seq<Event>) returns (cut: seq<P.Stream>)
    requires es <= P.Joined(streams)
    ensures |cut| == |streams| && P.Joined(cut) == es
    ensures forall k | 0 <= k < |cut| :: cut[k].events <= streams[k].events
  {
    if streams == [] {
      cut := [];
    } else {
      var front, last := streams[..|streams| - 1], streams[|streams| - 1];
      var before := P.Joined(front);
      assert P.Joined(streams) == before + last.events;
      hide P.Joined;
      var n := if |es| <= |before| then |es| else |before|;
      assert es[..n] <= before && es[n..] <= last.events;
      var s := P.Stream(es[n..], false);
      cut := CutOff(front, es[..n]);
      JoinedOne(cut, s);
      cut := cut + [s];
      assert es == es[..n] + es[n..];
    }
  }

  lemma JoinedOne(streams: seq<P.Stream>, s: P.Stream)
    ensures P.Joined(streams + [s]) == P.Joined(streams) + s.events
  {
    assert (streams + [s])[..|streams|] == streams;
  }

  lemma {:induction false} InOneStream(streams: seq<P.Stream>, e: Event) returns (k: nat)
    requires e in P.Joined(streams)
    ensures k < |streams| && e in streams[k].events
  {
    var front := streams[..|streams| - 1];
    if e in P.Joined(front) { k := InOneStream(front, e); } else { k := |streams| - 1; }
  }

  lemma {:induction false} JoinedHas(streams: seq<P.Stream>, k: nat)
    requires k < |streams|
    ensures forall e | e in streams[k].events :: e in P.Joined(streams)
  {
    if k < |streams| - 1 { JoinedHas(streams[..|streams| - 1], k); }
  }

  lemma {:induction false} InOfTarget(es: seq<Event>, target: string, e: Event)
    ensures e in OfTarget(es, target) <==> e in es && About(e, target)
  {
    if es != [] {
      InOfTarget(es[..|es| - 1], target, e);
      assert es == es[..|es| - 1] + [es[|es| - 1]];
    }
  }

  /** The result of a target is on the terminal, and it was not refused. */
  ghost predicate HasResult(printed: seq<Event>, target: string) {
    && (exists e :: e in printed && e.Done? && e.target == target)
    && (forall e | e in printed && e.Log? && e.target == target :: e.seqno > 0)
  }

  lemma StreamOf(u: Unit, s: P.Stream, cut: P.Stream)
    requires FromRelay(u, s.events) && cut.events <= s.events
    ensures P.LinesOf(cut.events, u.target) <= Full(u)
    ensures HasResult(cut.events, u.target) ==> P.LinesOf(cut.events, u.target) == Full(u)
  {
    hide FromRelay, Shows, Full, OfTarget, P.LinesOf, NumberedLines;
    RelayShows(u, s.events);
    var own := OfTarget(cut.events, u.target);
    OfTargetFirst(cut.events, s.events, u.target);
    ShowsFirst(u, own, OfTarget(s.events, u.target));
    ShownLines(u, own);
    LinesOfTarget(cut.events, u.target);
    if HasResult(cut.events, u.target) {
      var e :| e in cut.events && e.Done? && e.target == u.target;
      InOfTarget(cut.events, u.target, e);
      forall x | x in own && x.Log? ensures x.seqno > 0 {
        InOfTarget(cut.events, u.target, x);
      }
    }
  }

  /** However often connections between agent and relays are cut, agents crash,
      hosts cannot be reached, and the client resumes on another stream, the
      terminal shows the unit's log from its first line without a gap or a
      repetition, and all of it once it shows a result that is not a refusal.
      `Printers.Deploy` leaves its printer as required here. */
  lemma TerminalShowsLog(u: Unit, printer: P.Printer, streams: seq<P.Stream>)
    requires printer.Valid() && printer.printed <= P.Joined(streams)
    requires forall k | 0 <= k < |streams| :: FromRelay(u, streams[k].events)
    ensures P.Once(printer.out)
    ensures var n := P.Highest(printer.printed, u.target);
      n <= |Full(u)| && P.RowLines(printer.out, u.target) == Full(u)[..n]
    ensures HasResult(printer.printed, u.target) ==> P.RowLines(printer.out, u.target) == Full(u)
  {
    hide FromRelay, Full, P.LinesOf, P.Rows, P.Once, P.RowLines, P.Joined, P.Highest, P.Remembers, P.DoneIn;
    var printed := printer.printed;
    P.PrintsOnce(printer.detach, printed);
    var cut := CutOff(streams, printed);
    forall k | 0 <= k < |cut|
      ensures P.LinesOf(cut[k].events, u.target) <= Full(u)
      ensures HasResult(cut[k].events, u.target) ==> P.LinesOf(cut[k].events, u.target) == Full(u)
    {
      StreamOf(u, streams[k], cut[k]);
    }
    FullIsNumbered(u);
    P.StreamsComplete(printer.detach, cut, u.target, Full(u));
    if HasResult(printed, u.target) {
      var e :| e in printed && e.Done? && e.target == u.target;
      var k := InOneStream(cut, e);
      JoinedHas(cut, k);
      assert HasResult(cut[k].events, u.target);
    }
  }

  // ----- the result -----

  /** What a stream shows as the target's result is what its unit ended with, or
      the failure that comes with a refusal. */
  lemma ShownResult(u: Unit, own: seq<Event>, e: Event)
    requires Shows(u, own) && e in own && e.Done?
    ensures e.body in u.results || Refuses(own, e)
  {
    hide LeadsOrderly, Tell, Initial, Leads, Ended;
    if own <= Refused(u.target) {
      var log, done := Refused(u.target)[0], Refused(u.target)[1];
      assert own == [log] || own == [log, done];
      assert own[0] == log && log in own;
    } else {
      var from, steps, to :| Initial(u, from) && LeadsOrderly(u, from, steps, to) && own <= Tell(u.target, to.got);
      OrderlyLeads(u, from, steps, to);
      DoneLast(u.target, to.got, own, e);
      TellsWhatEnded(u, from, steps, to, e);
    }
  }

  lemma {:induction false} OrderlyLeads(u: Unit, from: Link, steps: seq<Move>, to: Link)
    requires LeadsOrderly(u, from, steps, to)
    ensures Leads(u, from, steps, to)
    decreases |steps|
  {
    hide CanMove, Moved, Orderly;
    if steps != [] {
      OrderlyLeads(u, Moved(u, from, steps[0]), steps[1..], to);
    }
  }

  lemma StreamResult(u: Unit, es: seq<Event>, e: Event)
    requires FromRelay(u, es) && e in es && e.Done? && e.target == u.target
    ensures e.body in u.results || Refuses(OfTarget(es, u.target), e)
  {
    hide FromRelay, Shows, OfTarget;
    RelayShows(u, es);
    InOfTarget(es, u.target, e);
    ShownResult(u, OfTarget(es, u.target), e);
  }

  /** The result the terminal shows for a target is one its unit ended with, just
      as its agent reported it, however the connections and the streams went. Else
      some stream refused the target. */
  lemma TerminalShowsResult(u: Unit, printer: P.Printer, streams: seq<P.Stream>, body: DoneBody)
    returns (k: nat)
    requires printer.Valid() && printer.printed <= P.Joined(streams)
    requires forall k | 0 <= k < |streams| :: FromRelay(u, streams[k].events)
    requires P.DoneRow(u.target, body) in printer.out
    ensures k < |streams| && Event.Done(u.target, body) in streams[k].events
    ensures body in u.results ||
      (body.status.Failed? && exists x :: x in streams[k].events && x.Log? && x.target == u.target && x.seqno == 0)
  {
    hide FromRelay, OfTarget, P.Rows, P.Joined, P.Remembers, P.DoneIn;
    var printed, e := printer.printed, Event.Done(u.target, body);
    P.RowsMean(printer.detach, printed, P.DoneRow(u.target, body));
    k := InOneStream(streams, e);
    StreamResult(u, streams[k].events, e);
    if body !in u.results {
      var x :| x in OfTarget(streams[k].events, u.target) && x.Log? && x.seqno == 0;
      InOfTarget(streams[k].events, u.target, x);
    }
  }
}
