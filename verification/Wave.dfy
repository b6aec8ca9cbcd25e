/** The targets of one wave on a shared channel (src/relay/api.rs, Wave). */
module Waves {
  import opened Wrappers
  import opened Proto
  import opened Telling

  /** The receiving end of a deploy. It may go away at any time: a patient
      client never does, another takes so many events and no more. */
  class Client {
    var got: seq<Event>
    const patience: Option<nat>

    constructor (patience: Option<nat>)
      ensures got == [] && this.patience == patience
    {
      got := [];
      this.patience := patience;
    }

    predicate IsGone()
      reads this
    {
      patience.Some? && |got| >= patience.value
    }

    method Send(e: Event) returns (ok: bool)
      modifies this
      ensures ok <==> !old(IsGone())
      ensures got == old(got) + if ok then [e] else []
    {
      ok := !IsGone();
      if ok { got := got + [e]; }
    }
  }

  method SendAll(out: Client, events: seq<Event>) returns (ok: bool)
    modifies out
    ensures if ok then out.got == old(out.got) + events
            else out.IsGone() && old(out.got) <= out.got <= old(out.got) + events
  {
    for k := 0 to |events|
      invariant out.got == old(out.got) + events[..k]
    {
      ok := out.Send(events[k]);
      if !ok { return; }
    }
    return true;
  }

  /** The client went away, or every frame so far is read and some target has
      no result yet, or each has one. */
  datatype Outcome = Gone | Waiting | Complete(statuses: seq<TargetStatus>)

  ghost predicate SeenSoFar(finished: seq<bool>, read: seq<Tagged>, now: seq<bool>, seen: seq<nat>) {
    && |now| == |seen| == |finished|
    && (forall i | 0 <= i < |now| :: now[i] <==> Over(finished, read, i))
    && (forall i | 0 <= i < |now| && !now[i] :: seen[i] == Top(Of(read, i)))
  }

  class Wave {
    const targets: seq<Planned>
    var finished: seq<bool>
    /** Frames read while probing that the stream still has to handle. */
    var backlog: seq<Tagged>
    /** What arrives on the channel, in order. */
    var rx: seq<Tagged>

    ghost predicate Valid()
      reads this
    {
      |finished| == |targets| && Indexed(backlog, |targets|) && Indexed(rx, |targets|)
    }

    constructor (targets: seq<Planned>, rx: seq<Tagged>)
      requires Indexed(rx, |targets|)
      ensures Valid() && this.targets == targets && this.rx == rx && backlog == []
      ensures forall i | 0 <= i < |finished| :: !finished[i]
    {
      this.targets := targets;
      this.rx := rx;
      finished := seq(|targets|, _ => false);
      backlog := [];
    }

    /** After a query, drops the targets whose agent does not know the job or
        did not answer among the first frames, those before the deadline. */
    method Probe(deadline: nat) returns (ghost read: seq<Tagged>)
      requires Valid()
      modifies this
      ensures Valid() && |read| <= deadline && old(rx) == read + rx && Indexed(read, |targets|)
      ensures backlog == old(backlog) + Rest(read)
      ensures forall i | 0 <= i < |targets| :: finished[i] <==> !Vouched(Of(read, i))
      ensures |read| == deadline || rx == [] || AllHeard(read, |targets|)
      ensures NoneTooMany(read, |targets|)
    {
      hide Rest, Known, Answers, Of, AnyUnknown, AllHeard, Vouched, NoneTooMany, Probing;
      ghost var was, input := backlog, rx;
      read := [];
      var known: seq<Option<bool>> := seq(|targets|, _ => None);
      NothingProbed(input, was, known);
      var left := deadline;
      while left > 0 && rx != [] && AnyUnknown(known)
        invariant 0 <= left == deadline - |read| && |known| == |targets| && finished == old(finished)
        invariant Probing(input, was, read, rx, backlog, known)
      {
        ProbeMore(input, was, read, rx, backlog, known);
        var next := rx[0];
        rx, left := rx[1..], left - 1;
        var keep;
        known, keep := Learn(known, next.0, next.1);
        if keep { backlog := backlog + [next]; }
        read := read + [next];
      }
      Probed(input, was, read, rx, backlog, known);
      finished := seq(|targets|, i requires 0 <= i < |targets| => known[i] != Some(true));
      KnownMeansHeard(read, known, finished);
    }

    /** The next frame: first those left over from probing, then new ones. */
    method Next(queue: seq<Tagged>) returns (next: Option<Tagged>, rest: seq<Tagged>)
      requires Indexed(queue, |targets|) && Indexed(rx, |targets|)
      modifies this`rx
      ensures Indexed(rest, |targets|) && Indexed(rx, |targets|)
      ensures match next
        case None => queue + old(rx) == [] && rest + rx == []
        case Some(x) => x.0 < |targets| && queue + old(rx) == [x] + (rest + rx)
    {
      if queue != [] {
        return Some(queue[0]), queue[1..];
      }
      if rx == [] {
        return None, [];
      }
      next, rest := Some(rx[0]), [];
      rx := rx[1..];
    }

    /** Forwards frames as events until each target has a result. */
    method Stream(out: Client) returns (r: Outcome, ghost read: seq<Tagged>)
      requires Valid()
      modifies this, out
      ensures Valid() && Indexed(read, |targets|) && read <= old(backlog + rx)
      ensures if r.Gone? then
          out.IsGone() && old(out.got) <= out.got <= old(out.got) + Told(targets, old(finished), read)
        else
          out.got == old(out.got) + Told(targets, old(finished), read)
      ensures !r.Gone? ==> (r.Complete? <==> AllOver(old(finished), read))
      ensures NoneInVain(old(finished), read)
      ensures r.Complete? ==> r.statuses == Statuses(targets, old(finished), read)
      ensures r.Waiting? ==> read == old(backlog + rx)
    {
      hide Told, Statuses, Top, Over, Of, Says, Ending, AllOver, NoneInVain;
      ghost var was, input := finished, backlog + rx;
      var statuses, seen: seq<nat>, queue := [], seq(|targets|, _ => 0), backlog;
      backlog, read := [], [];
      NothingRead(targets, finished, seen);
      while AnyOpen(finished)
        invariant Valid() && Indexed(queue, |targets|) && Indexed(read, |targets|)
        invariant input == read + (queue + rx)
        invariant SeenSoFar(was, read, finished, seen) && |was| == |targets|
        invariant out.got == old(out.got) + Told(targets, was, read)
        invariant statuses == Statuses(targets, was, read)
        invariant NoneInVain(was, read)
        decreases |input| - |read|
      {
        var next;
        next, queue := Next(queue);
        StillOpen(was, read, finished, seen);
        if next.None? { return Waiting, read; }
        InVainMore(was, read, next.value);
        var i, frame := next.value.0, next.value.1;
        Reassociate(read, next.value, queue + rx);
        ToldMore(targets, was, read, next.value);
        SeenMore(was, read, finished, seen, next.value);
        read := read + [next.value];
        if finished[i] { continue; }
        var target := targets[i].target;
        var events, done, top := Translate(target, seen[i], frame);
        seen := seen[i := top];
        if done.Some? {
          finished := finished[i := true];
          statuses := statuses + [TargetStatus(target, done.value.status)];
          events := events + [Event.Done(target, done.value)];
        }
        var ok := SendAll(out, events);
        if !ok { return Gone, read; }
      }
      NoneOpen(was, read, finished, seen);
      return Complete(statuses), read;
    }
  }

  /** What a frame tells a probe, and whether the stream is to have it. */
  method Learn(known: seq<Option<bool>>, i: nat, frame: Frame) returns (more: seq<Option<bool>>, keep: bool)
    requires i < |known|
    ensures keep <==> !Answers(frame)
    ensures more == known[i :=
      if frame.Error? then Some(false)
      else if Answers(frame) || known[i].None? then Some(true)
      else known[i]]
  {
    more, keep := known, false;
    match frame {
      case Error(_, _) => more := known[i := Some(false)];
      case Ack(_, accepted, _) =>
        if accepted {
          more := known[i := Some(true)];
        } else {
          if known[i].None? { more := known[i := Some(true)]; }
          keep := true;
        }
      case _ =>
        if known[i].None? { more := known[i := Some(true)]; }
        keep := true;
    }
  }

  /** The events of one frame, without the result it may bring. */
  method Translate(target: string, seen: nat, frame: Frame)
    returns (events: seq<Event>, done: Option<DoneBody>, top: nat)
    ensures events + (if done.Some? then [Event.Done(target, done.value)] else []) == Says(target, seen, frame)
    ensures done == Ending(frame)
    ensures top == if frame.Log? && frame.seqno > seen then frame.seqno else seen
  {
    events, done, top := [], None, seen;
    match frame {
      case Log(_, seqno, line) =>
        if seqno > seen {
          top := seqno;
          events := [Event.Log(target, seqno, line)];
        }
      case Progress(_) => events := [Event.Progress(target)];
      case Done(_, body) => done := Some(body);
      case Ack(_, accepted, reason) =>
        if !accepted {
          events := [Event.Log(target, 0, REFUSED + reason)];
          done := Some(FAILED);
        }
      case _ =>
    }
  }

  // ----- steps of the loops -----

  /** Something arrived from each of the first `n` targets. */
  predicate AllHeard(read: seq<Tagged>, n: nat) {
    forall i | 0 <= i < n :: Of(read, i) != []
  }

  /** The last frame was read while some target had not been heard from. */
  predicate NoneTooMany(read: seq<Tagged>, n: nat) {
    read != [] ==> !AllHeard(read[..|read| - 1], n)
  }

  predicate AnyUnknown(known: seq<Option<bool>>) {
    exists i | 0 <= i < |known| :: known[i].None?
  }

  predicate AnyOpen(finished: seq<bool>) {
    exists i | 0 <= i < |finished| :: !finished[i]
  }

  lemma Reassociate(read: seq<Tagged>, x: Tagged, rest: seq<Tagged>)
    ensures read + ([x] + rest) == (read + [x]) + rest
  {
  }

  ghost predicate KnownSoFar(read: seq<Tagged>, known: seq<Option<bool>>, n: nat) {
    |known| == n && forall i | 0 <= i < n :: known[i] == Known(read, i)
  }

  /** Midway through a probe: what was read, what is kept and what is known. */
  ghost predicate Probing(input: seq<Tagged>, was: seq<Tagged>, read: seq<Tagged>, rx: seq<Tagged>,
                          backlog: seq<Tagged>, known: seq<Option<bool>>)
  {
    && input == read + rx && Indexed(rx, |known|) && Indexed(read, |known|)
    && backlog == was + Rest(read) && Indexed(backlog, |known|)
    && KnownSoFar(read, known, |known|) && NoneTooMany(read, |known|)
  }

  lemma NothingProbed(input: seq<Tagged>, was: seq<Tagged>, known: seq<Option<bool>>)
    requires Indexed(input, |known|) && Indexed(was, |known|) && forall i | 0 <= i < |known| :: known[i].None?
    ensures Probing(input, was, [], input, was, known)
  {
    assert [] + input == input && was + [] == was;
  }

  lemma ProbeMore(input: seq<Tagged>, was: seq<Tagged>, read: seq<Tagged>, rx: seq<Tagged>, backlog: seq<Tagged>,
                  known: seq<Option<bool>>)
    requires Probing(input, was, read, rx, backlog, known) && rx != [] && AnyUnknown(known)
    ensures var i, f := rx[0].0, rx[0].1;
      && i < |known|
      && Probing(input, was, read + [rx[0]], rx[1..], if Answers(f) then backlog else backlog + [rx[0]],
           known[i :=
             if f.Error? then Some(false) else if Answers(f) || known[i].None? then Some(true) else known[i]])
  {
    hide Rest, Known, Answers, Of, KnownSoFar, AnyUnknown, AllHeard, NoneTooMany;
    assert rx == [rx[0]] + rx[1..];
    Reassociate(read, rx[0], rx[1..]);
    UnknownUnheard(read, known, rx[0]);
    RestMore(read, rx[0]);
    KnownAfter(read, known, rx[0], |known|);
    assert was + (Rest(read) + [rx[0]]) == backlog + [rx[0]];
  }

  lemma Probed(input: seq<Tagged>, was: seq<Tagged>, read: seq<Tagged>, rx: seq<Tagged>, backlog: seq<Tagged>,
               known: seq<Option<bool>>)
    requires Probing(input, was, read, rx, backlog, known)
    ensures input == read + rx && Indexed(rx, |known|) && Indexed(read, |known|)
    ensures backlog == was + Rest(read) && Indexed(backlog, |known|)
    ensures KnownSoFar(read, known, |known|) && NoneTooMany(read, |known|)
  {
  }

  lemma KnownAfter(read: seq<Tagged>, known: seq<Option<bool>>, next: Tagged, n: nat)
    requires KnownSoFar(read, known, n) && next.0 < n
    ensures Answers(next.1) <==> next.1.Error? || (next.1.Ack? && next.1.accepted)
    ensures KnownSoFar(read + [next], known[next.0 :=
      if next.1.Error? then Some(false)
      else if Answers(next.1) || known[next.0].None? then Some(true)
      else known[next.0]], n)
  {
    hide Known;
    forall i: nat | i < n ensures Known(read + [next], i) ==
      if next.0 != i then Known(read, i)
      else if next.1.Error? then Some(false)
      else if Answers(next.1) || Known(read, i).None? then Some(true)
      else Known(read, i)
    {
      KnownMore(read, next, i);
    }
  }

  lemma KnownMeansHeard(read: seq<Tagged>, known: seq<Option<bool>>, finished: seq<bool>)
    requires KnownSoFar(read, known, |finished|)
    requires forall i | 0 <= i < |finished| :: finished[i] <==> known[i] != Some(true)
    ensures !AnyUnknown(known) ==> AllHeard(read, |finished|)
    ensures forall i | 0 <= i < |finished| :: finished[i] <==> !Vouched(Of(read, i))
  {
    hide Known, Of, Vouched;
    forall i: nat | i < |finished|
      ensures Known(read, i) == if Of(read, i) == [] then None else Some(Vouched(Of(read, i)))
    {
      KnownByLastAnswer(read, i);
      NothingVouches();
    }
    NothingVouches();
  }

  lemma NothingVouches()
    ensures !Vouched([])
  {
  }

  lemma UnknownUnheard(read: seq<Tagged>, known: seq<Option<bool>>, next: Tagged)
    requires KnownSoFar(read, known, |known|) && AnyUnknown(known)
    ensures NoneTooMany(read + [next], |known|)
  {
    hide Known, Of, Vouched;
    assert (read + [next])[..|read|] == read;
    var i :| 0 <= i < |known| && known[i].None?;
    KnownByLastAnswer(read, i);
  }

  lemma NothingRead(targets: seq<Planned>, finished: seq<bool>, seen: seq<nat>)
    requires |finished| == |targets| == |seen| && forall i | 0 <= i < |seen| :: seen[i] == 0
    ensures SeenSoFar(finished, [], finished, seen) && NoneInVain(finished, [])
    ensures Told(targets, finished, []) == [] && Statuses(targets, finished, []) == []
  {
  }

  lemma StillOpen(was: seq<bool>, read: seq<Tagged>, now: seq<bool>, seen: seq<nat>)
    requires SeenSoFar(was, read, now, seen) && AnyOpen(now)
    ensures !AllOver(was, read)
  {
    hide Over;
  }

  /** The last frame was read while some target had no result. */
  ghost predicate NoneInVain(finished: seq<bool>, read: seq<Tagged>) {
    read != [] ==> !AllOver(finished, read[..|read| - 1])
  }

  lemma InVainMore(finished: seq<bool>, read: seq<Tagged>, next: Tagged)
    requires !AllOver(finished, read)
    ensures NoneInVain(finished, read + [next])
  {
    hide AllOver;
    assert (read + [next])[..|read|] == read;
  }

  lemma NoneOpen(was: seq<bool>, read: seq<Tagged>, now: seq<bool>, seen: seq<nat>)
    requires SeenSoFar(was, read, now, seen) && !AnyOpen(now)
    ensures AllOver(was, read)
  {
    hide Over;
  }

  lemma SeenMore(finished: seq<bool>, read: seq<Tagged>, now: seq<bool>, seen: seq<nat>, x: Tagged)
    requires SeenSoFar(finished, read, now, seen) && x.0 < |finished|
    ensures var i, f := x.0, x.1;
      if now[i] then SeenSoFar(finished, read + [x], now, seen)
      else SeenSoFar(finished, read + [x], if Ending(f).Some? then now[i := true] else now,
                     seen[i := if f.Log? && f.seqno > seen[i] then f.seqno else seen[i]])
  {
    hide Ending, Over, Top, Of;
    forall i | 0 <= i < |finished|
      ensures Over(finished, read + [x], i) <==> Over(finished, read, i) || (x.0 == i && Ending(x.1).Some?)
      ensures Top(Of(read + [x], i)) ==
        if x.0 == i && x.1.Log? && x.1.seqno > Top(Of(read, i)) then x.1.seqno else Top(Of(read, i))
    {
      OverMore(finished, read, x, i);
      TopMore(read, x, i);
    }
  }
}
