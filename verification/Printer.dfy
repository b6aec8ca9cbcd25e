/** Following a deploy from the client's side (src/bin/flakelet-push.rs):
    events of one stream after the other, each shown once. */
module Printers {
  import opened Wrappers
  import opened Proto
  import Inv = JobInvariants

  /** What appears on the terminal, before formatting. */
  datatype Row =
    | JobRow(job: string)
    | WaveRow(index: nat)
    | DetachedRow
    | LogRow(target: string, seqno: nat, line: string)
    | DoneRow(target: string, body: DoneBody)
    | OfflineRow(targets: seq<string>)
    | SkippedRow(targets: seq<string>)
    | VerdictRow(ok: bool)

  /** What ends a deploy, if the event does. */
  function Ends(detach: bool, e: Event): Option<bool> {
    match e
    case Wave(_) => if detach then Some(true) else None
    case Result(ok, _, _) => Some(ok)
    case _ => None
  }

  lemma EndsIff(detach: bool, e: Event)
    ensures Ends(detach, e).Some? <==> e.Result? || (detach && e.Wave?)
    ensures Ends(detach, e).Some? ==> Ends(detach, e).value == (e.Result? ==> e.ok)
  {
  }

  // ----- what the events so far amount to -----

  /** The highest line of a target. */
  function Highest(es: seq<Event>, target: string): nat {
    if es == [] then 0 else
    var top, e := Highest(es[..|es| - 1], target), es[|es| - 1];
    if e.Log? && e.target == target && e.seqno > top then e.seqno else top
  }

  function DoneIn(es: seq<Event>): set<string> {
    if es == [] then {} else
    var e := es[|es| - 1];
    DoneIn(es[..|es| - 1]) + if e.Done? then {e.target} else {}
  }

  function OfflineOf(targets: seq<TargetStatus>): seq<string> {
    if targets == [] then [] else
    var last := targets[|targets| - 1];
    OfflineOf(targets[..|targets| - 1]) + if last.status.Offline? then [last.target] else []
  }

  function RowsOf(detach: bool, before: seq<Event>, e: Event): seq<Row> {
    match e
    case Accepted(job) => [JobRow(job)]
    case Wave(index) => [WaveRow(index)] + if detach then [DetachedRow] else []
    case Log(target, seqno, line) =>
      if seqno == 0 || seqno > Highest(before, target) then [LogRow(target, seqno, line)] else []
    case Progress(_) => []
    case Done(target, body) => if target in DoneIn(before) then [] else [DoneRow(target, body)]
    case Result(ok, targets, skipped) =>
      (if OfflineOf(targets) == [] then [] else [OfflineRow(OfflineOf(targets))])
      + (if skipped == [] then [] else [SkippedRow(skipped)])
      + [VerdictRow(ok)]
  }

  function Rows(detach: bool, es: seq<Event>): seq<Row> {
    if es == [] then [] else
    Rows(detach, es[..|es| - 1]) + RowsOf(detach, es[..|es| - 1], es[|es| - 1])
  }

  lemma OneMore(detach: bool, es: seq<Event>, e: Event)
    ensures Rows(detach, es + [e]) == Rows(detach, es) + RowsOf(detach, es, e)
    ensures DoneIn(es + [e]) == DoneIn(es) + if e.Done? then {e.target} else {}
    ensures forall t :: (Highest(es + [e], t) ==
      if e.Log? && e.target == t && e.seqno > Highest(es, t) then e.seqno else Highest(es, t))
  {
    assert (es + [e])[..|es|] == es;
  }

  // ----- the printer -----

  ghost predicate Remembers(seen: map<string, nat>, es: seq<Event>) {
    forall t :: (if t in seen then seen[t] else 0) == Highest(es, t)
  }

  lemma NothingSeen()
    ensures Remembers(map[], []) && DoneIn([]) == {} && forall detach :: Rows(detach, []) == []
  {
  }

  lemma SeesMore(detach: bool, seen: map<string, nat>, es: seq<Event>, e: Event)
    requires Remembers(seen, es)
    ensures Remembers(
      if !e.Log? then seen else
      var top := if e.target in seen then seen[e.target] else 0;
      seen[e.target := if e.seqno > top then e.seqno else top], es + [e])
    ensures e.Log? ==> Highest(es, e.target) == if e.target in seen then seen[e.target] else 0
    ensures Rows(detach, es + [e]) == Rows(detach, es) + RowsOf(detach, es, e)
    ensures DoneIn(es + [e]) == DoneIn(es) + if e.Done? then {e.target} else {}
  {
    hide Rows, RowsOf, DoneIn, Highest;
    OneMore(detach, es, e);
  }

  datatype Followed = Verdict(ok: bool) | Lost | Idle

  /** The events of one connection, and whether it then falls silent instead of
      breaking. */
  datatype Stream = Stream(events: seq<Event>, silent: bool)

  class Printer {
    const detach: bool
    var seen: map<string, nat>
    var done: set<string>
    var out: seq<Row>
    ghost var printed: seq<Event>

    ghost predicate Valid()
      reads this
    {
      Remembers(seen, printed) && done == DoneIn(printed) && out == Rows(detach, printed)
    }

    constructor (detach: bool)
      ensures Valid() && printed == [] && this.detach == detach
    {
      this.detach := detach;
      seen, done, out, printed := map[], {}, [], [];
      new;
      NothingSeen();
    }

    /** Shows one event. The verdict, once it is there. */
    method Print(e: Event) returns (r: Option<bool>)
      requires Valid()
      modifies this
      ensures Valid() && printed == old(printed) + [e]
      ensures r == Ends(detach, e)
    {
      hide Remembers, Rows, DoneIn, Highest;
      SeesMore(detach, seen, printed, e);
      printed := printed + [e];
      match e {
        case Accepted(job) => out := out + [JobRow(job)];
        case Wave(index) =>
          out := out + [WaveRow(index)];
          if detach {
            out := out + [DetachedRow];
            return Some(true);
          }
        case Log(target, seqno, line) =>
          var top := if target in seen then seen[target] else 0;
          seen := seen[target := if seqno > top then seqno else top];
          if seqno == 0 || seqno > top { out := out + [LogRow(target, seqno, line)]; }
        case Progress(_) =>
        case Done(target, body) =>
          if target !in done {
            done := done + {target};
            out := out + [DoneRow(target, body)];
          }
        case Result(ok, targets, skipped) =>
          var offline := OfflineOf(targets);
          if offline != [] { out := out + [OfflineRow(offline)]; }
          if skipped != [] { out := out + [SkippedRow(skipped)]; }
          out := out + [VerdictRow(ok)];
          return Some(ok);
      }
      return None;
    }

    /** Shows a stream up to its verdict. */
    method Follow(s: Stream) returns (r: Followed, ghost n: nat)
      requires Valid()
      modifies this
      ensures Valid() && n <= |s.events| && printed == old(printed) + s.events[..n]
      ensures forall k | 0 <= k < n - (if r.Verdict? then 1 else 0) :: Ends(detach, s.events[k]).None?
      ensures r.Verdict? ==> n > 0 && Ends(detach, s.events[n - 1]) == Some(r.ok)
      ensures !r.Verdict? ==> n == |s.events| && (r.Idle? <==> s.silent)
    {
      hide Remembers, Rows, DoneIn, Ends;
      n := 0;
      for k := 0 to |s.events|
        invariant Valid() && printed == old(printed) + s.events[..k]
        invariant forall j | 0 <= j < k :: Ends(detach, s.events[j]).None?
      {
        var verdict := Print(s.events[k]);
        assert s.events[..k + 1] == s.events[..k] + [s.events[k]];
        if verdict.Some? { return Verdict(verdict.value), k + 1; }
      }
      return if s.silent then Idle else Lost, |s.events|;
    }
  }

  function Joined(streams: seq<Stream>): seq<Event> {
    if streams == [] then [] else Joined(streams[..|streams| - 1]) + streams[|streams| - 1].events
  }

  /** Follows a deploy, on a new connection whenever one breaks, as long as a
      relay answers. What was printed is a prefix of the streams joined
      together, and ends with the verdict if there is one. */
  method Deploy(detach: bool, streams: seq<Stream>) returns (r: Option<bool>, printer: Printer)
    ensures fresh(printer) && printer.Valid() && printer.detach == detach
    ensures printer.printed <= Joined(streams)
    ensures forall k | 0 <= k < |printer.printed| - 1 :: Ends(detach, printer.printed[k]).None?
    ensures r.Some? ==> printer.printed != [] && Ends(detach, printer.printed[|printer.printed| - 1]) == r
    ensures r.None? ==> forall k | 0 <= k < |printer.printed| :: Ends(detach, printer.printed[k]).None?
    ensures r.Some? ==> var last := printer.printed[|printer.printed| - 1];
      (last.Result? && r.value == last.ok) || (detach && last.Wave? && r.value)
    ensures r.None? ==> printer.printed == Joined(streams) || exists s :: s in streams && s.silent
  {
    hide Ends, Joined;
    printer := new Printer(detach);
    assert Joined([]) == [] by { NothingJoined(); }
    for k := 0 to |streams|
      invariant fresh(printer) && printer.Valid() && printer.detach == detach
      invariant printer.printed == Joined(streams[..k])
      invariant forall j | 0 <= j < |printer.printed| :: Ends(detach, printer.printed[j]).None?
    {
      JoinedMore(streams, k);
      var followed;
      ghost var n;
      ghost var before := printer.printed;
      followed, n := printer.Follow(streams[k]);
      assert printer.printed <= before + streams[k].events;
      match followed {
        case Verdict(ok) =>
          EndsIff(detach, printer.printed[|printer.printed| - 1]);
          return Some(ok), printer;
        case Idle => return None, printer;
        case Lost =>
      }
      assert streams[k].events[..n] == streams[k].events;
    }
    assert streams[..|streams|] == streams;
    return None, printer;
  }

  lemma NothingJoined()
    ensures Joined([]) == []
  {
  }

  lemma JoinedMore(streams: seq<Stream>, k: nat)
    requires k < |streams|
    ensures Joined(streams[..k + 1]) == Joined(streams[..k]) + streams[k].events
    ensures Joined(streams[..k + 1]) <= Joined(streams)
  {
    assert streams[..k + 1][..k] == streams[..k];
    JoinedUpTo(streams, k + 1);
  }

  lemma {:induction false} JoinedUpTo(streams: seq<Stream>, k: nat)
    requires k <= |streams|
    ensures Joined(streams[..k]) <= Joined(streams)
  {
    if k == |streams| {
      assert streams[..k] == streams;
    } else {
      var front := streams[..|streams| - 1];
      JoinedUpTo(front, k);
      assert front[..k] == streams[..k];
    }
  }

  // ----- nothing twice -----

  /** The numbers of the rows of one target rise, refusals aside, and it is
      reported done once. */
  ghost predicate Once(rows: seq<Row>) {
    && (forall i, j | 0 <= i < j < |rows| && rows[i].LogRow? && rows[j].LogRow? ::
          rows[i].target == rows[j].target ==>
            rows[i].seqno < rows[j].seqno || rows[i].seqno == 0 || rows[j].seqno == 0)
    && (forall i, j | 0 <= i < j < |rows| && rows[i].DoneRow? && rows[j].DoneRow? :: rows[i].target != rows[j].target)
  }

  ghost predicate Within(rows: seq<Row>, es: seq<Event>) {
    && (forall r | r in rows && r.LogRow? :: r.seqno <= Highest(es, r.target))
    && (forall r | r in rows && r.DoneRow? :: r.target in DoneIn(es))
  }

  /** However many streams are resumed, and however often they repeat
      themselves, no numbered line and no result is shown twice. */
  lemma {:induction false} PrintsOnce(detach: bool, es: seq<Event>)
    ensures Once(Rows(detach, es)) && Within(Rows(detach, es), es)
  {
    if es != [] {
      var before, e := es[..|es| - 1], es[|es| - 1];
      assert es == before + [e];
      PrintsOnce(detach, before);
      OneMore(detach, before, e);
      RowsFit(detach, before, e, Rows(detach, before));
    }
  }

  lemma RowsFit(detach: bool, es: seq<Event>, e: Event, rows: seq<Row>)
    requires Once(rows) && Within(rows, es)
    ensures Once(rows + RowsOf(detach, es, e)) && Within(rows + RowsOf(detach, es, e), es + [e])
  {
    hide Highest, DoneIn;
    OneMore(detach, es, e);
    hide Once, Within, Rows;
    StillWithin(rows, es, e);
    match e {
      case Log(target, seqno, line) =>
        if seqno == 0 || seqno > Highest(es, target) { LogFits(rows, es, e); }
      case Done(target, body) =>
        if target !in DoneIn(es) { DoneFits(rows, es, e); }
      case _ => OthersFit(rows, RowsOf(detach, es, e), es + [e]);
    }
    assert rows + [] == rows;
  }

  lemma StillWithin(rows: seq<Row>, es: seq<Event>, e: Event)
    requires Within(rows, es)
    ensures Within(rows, es + [e])
  {
    hide Highest, DoneIn;
    OneMore(false, es, e);
  }

  lemma LogFits(rows: seq<Row>, es: seq<Event>, e: Event)
    requires Once(rows) && Within(rows, es) && Within(rows, es + [e]) && e.Log?
    requires e.seqno == 0 || e.seqno > Highest(es, e.target)
    ensures var more := rows + [LogRow(e.target, e.seqno, e.line)]; Once(more) && Within(more, es + [e])
  {
    OneMore(false, es, e);
    hide Highest, DoneIn, Rows;
    var more := rows + [LogRow(e.target, e.seqno, e.line)];
    forall i | 0 <= i < |rows| && rows[i].LogRow? && rows[i].target == e.target
      ensures rows[i].seqno <= Highest(es, e.target) {
      assert rows[i] in rows;
    }
  }

  lemma DoneFits(rows: seq<Row>, es: seq<Event>, e: Event)
    requires Once(rows) && Within(rows, es) && Within(rows, es + [e]) && e.Done? && e.target !in DoneIn(es)
    ensures var more := rows + [DoneRow(e.target, e.body)]; Once(more) && Within(more, es + [e])
  {
    OneMore(false, es, e);
    hide Highest, DoneIn, Rows;
    var more := rows + [DoneRow(e.target, e.body)];
    forall i | 0 <= i < |rows| && rows[i].DoneRow? ensures rows[i].target != e.target {
      assert rows[i] in rows;
    }
  }

  lemma OthersFit(rows: seq<Row>, others: seq<Row>, es: seq<Event>)
    requires Once(rows) && Within(rows, es) && forall r | r in others :: !r.LogRow? && !r.DoneRow?
    ensures Once(rows + others) && Within(rows + others, es)
  {
    hide Highest, DoneIn;
    var more := rows + others;
    forall i | |rows| <= i < |more| ensures !more[i].LogRow? && !more[i].DoneRow? {
      assert more[i] in others;
    }
  }

  // ----- what a row says -----

  /** The first result of the target. */
  ghost predicate FirstDone(es: seq<Event>, k: nat, target: string) {
    && k < |es| && es[k].Done? && es[k].target == target
    && forall j | 0 <= j < k :: !(es[j].Done? && es[j].target == target)
  }

  /** These hosts, and no others, were reported offline. */
  predicate AreOffline(names: seq<string>, targets: seq<TargetStatus>) {
    && (forall t | t in targets && t.status == Status.Offline :: t.target in names)
    && (forall n | n in names :: TargetStatus(n, Status.Offline) in targets)
  }

  /** What a row on the terminal means. */
  ghost predicate Means(detach: bool, es: seq<Event>, r: Row) {
    match r
    case JobRow(job) => Event.Accepted(job) in es
    case WaveRow(index) => Event.Wave(index) in es
    case DetachedRow => detach && exists e :: e in es && e.Wave?
    case LogRow(target, seqno, line) => Event.Log(target, seqno, line) in es
    case DoneRow(target, body) => exists k: nat :: FirstDone(es, k, target) && es[k] == Event.Done(target, body)
    case OfflineRow(names) => names != [] && exists e :: e in es && e.Result? && AreOffline(names, e.targets)
    case SkippedRow(names) => names != [] && exists e :: e in es && e.Result? && e.skipped == names
    case VerdictRow(ok) => exists e :: e in es && e.Result? && e.ok == ok
  }

  /** Whether the event left its mark. */
  ghost predicate Marked(detach: bool, rows: seq<Row>, e: Event) {
    match e
    case Accepted(job) => JobRow(job) in rows
    case Wave(index) => WaveRow(index) in rows && (detach ==> DetachedRow in rows)
    case Log(target, seqno, line) =>
      if seqno == 0 then LogRow(target, 0, line) in rows
      else exists r :: r in rows && r.LogRow? && r.target == target && r.seqno >= seqno
    case Done(target, _) => exists r :: r in rows && r.DoneRow? && r.target == target
    case Result(ok, targets, skipped) =>
      && VerdictRow(ok) in rows && (skipped != [] ==> SkippedRow(skipped) in rows)
      && ((exists t :: t in targets && t.status == Status.Offline) ==>
            exists r :: r in rows && r.OfflineRow? && AreOffline(r.targets, targets))
    case Progress(_) => true
  }

  lemma {:induction false} OfflineAre(targets: seq<TargetStatus>)
    ensures AreOffline(OfflineOf(targets), targets)
  {
    if targets != [] {
      var front, last := targets[..|targets| - 1], targets[|targets| - 1];
      assert targets == front + [last];
      OfflineAre(front);
    }
  }

  lemma StillMeans(detach: bool, es: seq<Event>, e: Event, r: Row)
    requires Means(detach, es, r)
    ensures Means(detach, es + [e], r)
  {
    hide AreOffline;
    if r.DoneRow? {
      var k: nat :| FirstDone(es, k, r.target) && es[k] == Event.Done(r.target, r.body);
      assert FirstDone(es + [e], k, r.target);
    }
  }

  lemma {:induction false} DoneBefore(es: seq<Event>, target: string) returns (k: nat)
    requires target in DoneIn(es)
    ensures FirstDone(es, k, target)
  {
    var front, e := es[..|es| - 1], es[|es| - 1];
    if target in DoneIn(front) {
      k := DoneBefore(front, target);
    } else {
      k := |front|;
      NotDone(front, target);
    }
  }

  lemma {:induction false} NotDone(es: seq<Event>, target: string)
    ensures (forall j | 0 <= j < |es| :: !(es[j].Done? && es[j].target == target)) <==> target !in DoneIn(es)
  {
    if es != [] {
      var front, e := es[..|es| - 1], es[|es| - 1];
      assert es == front + [e];
      NotDone(front, target);
      assert forall j | 0 <= j < |front| :: front[j] == es[j];
    }
  }

  lemma NewMeans(detach: bool, es: seq<Event>, e: Event, r: Row)
    requires r in RowsOf(detach, es, e)
    ensures Means(detach, es + [e], r)
  {
    hide DoneIn, Highest, AreOffline, OfflineOf;
    var more := es + [e];
    assert e in more;
    match e {
      case Done(target, body) =>
        NotDone(es, target);
        assert FirstDone(more, |es|, target);
      case Result(_, targets, _) => OfflineAre(targets);
      case _ =>
    }
  }

  /** Every row on the terminal says what some event said: of the results of a
      target, the first, and of the hosts, those that were reported offline. */
  lemma {:induction false} RowsMean(detach: bool, es: seq<Event>, r: Row)
    requires r in Rows(detach, es)
    ensures Means(detach, es, r)
  {
    hide Means, RowsOf;
    var front, e := es[..|es| - 1], es[|es| - 1];
    assert es == front + [e];
    if r in Rows(detach, front) {
      RowsMean(detach, front, r);
      StillMeans(detach, front, e, r);
    } else {
      NewMeans(detach, front, e, r);
    }
  }

  /** And every event but a sign of life leaves its row, or finds it there. */
  lemma {:induction false} EventsMarked(detach: bool, es: seq<Event>, e: Event)
    requires e in es
    ensures Marked(detach, Rows(detach, es), e)
  {
    var front, last := es[..|es| - 1], es[|es| - 1];
    assert es == front + [last];
    OneMore(detach, front, last);
    hide Rows, Highest, DoneIn, OfflineOf, AreOffline;
    if e in front {
      hide RowsOf;
      EventsMarked(detach, front, e);
      StillMarked(detach, Rows(detach, front), RowsOf(detach, front, last), e);
    } else {
      match e {
        case Log(target, seqno, _) =>
          if 0 < seqno <= Highest(front, target) {
            TopShown(detach, front, target);
          } else {
            assert LogRow(target, seqno, e.line) in RowsOf(detach, front, e);
          }
        case Done(target, body) =>
          if target in DoneIn(front) {
            DoneShown(detach, front, target);
          } else {
            assert DoneRow(target, body) in RowsOf(detach, front, e);
          }
        case Result(_, targets, _) => OfflineAre(targets);
        case _ =>
      }
    }
  }

  lemma StillMarked(detach: bool, rows: seq<Row>, more: seq<Row>, e: Event)
    requires Marked(detach, rows, e)
    ensures Marked(detach, rows + more, e)
  {
    hide AreOffline;
  }

  /** What follows is shown below what came before, and the verdict last. */
  lemma {:induction false} ShownInOrder(detach: bool, es: seq<Event>, k: nat)
    requires k <= |es|
    ensures Rows(detach, es[..k]) <= Rows(detach, es)
    ensures es != [] && es[|es| - 1].Result? ==>
      var rows := Rows(detach, es); rows != [] && rows[|rows| - 1] == VerdictRow(es[|es| - 1].ok)
  {
    if k == |es| {
      assert es[..k] == es;
    } else {
      var front := es[..|es| - 1];
      assert front[..k] == es[..k];
      ShownInOrder(detach, front, k);
    }
  }

  lemma {:induction false} TopShown(detach: bool, es: seq<Event>, target: string)
    requires Highest(es, target) > 0
    ensures exists r :: r in Rows(detach, es) && r.LogRow? && r.target == target && r.seqno == Highest(es, target)
  {
    var front, e := es[..|es| - 1], es[|es| - 1];
    if e.Log? && e.target == target && e.seqno > Highest(front, target) {
      assert LogRow(target, e.seqno, e.line) in RowsOf(detach, front, e);
    } else {
      TopShown(detach, front, target);
    }
  }

  lemma {:induction false} DoneShown(detach: bool, es: seq<Event>, target: string)
    requires target in DoneIn(es)
    ensures exists r :: r in Rows(detach, es) && r.DoneRow? && r.target == target
  {
    var front, e := es[..|es| - 1], es[|es| - 1];
    if target in DoneIn(front) {
      DoneShown(detach, front, target);
    } else {
      assert DoneRow(target, e.body) in RowsOf(detach, front, e);
    }
  }

  // ----- nothing missing -----

  /** The numbered lines of one target among events, and among rows. */
  function LinesOf(es: seq<Event>, target: string): seq<(nat, string)> {
    if es == [] then [] else
    var e := es[|es| - 1];
    LinesOf(es[..|es| - 1], target) + if e.Log? && e.target == target && e.seqno > 0 then [(e.seqno, e.line)] else []
  }

  function RowLines(rows: seq<Row>, target: string): seq<(nat, string)> {
    if rows == [] then [] else
    var r := rows[|rows| - 1];
    RowLines(rows[..|rows| - 1], target) +
    if r.LogRow? && r.target == target && r.seqno > 0 then [(r.seqno, r.line)] else []
  }

  lemma {:induction false} RowLinesJoined(rows: seq<Row>, more: seq<Row>, target: string)
    ensures RowLines(rows + more, target) == RowLines(rows, target) + RowLines(more, target)
  {
    if more == [] {
      assert rows + more == rows;
    } else {
      var front := more[..|more| - 1];
      RowLinesJoined(rows, front, target);
      assert (rows + more)[..|rows + more| - 1] == rows + front;
    }
  }

  lemma RowsLine(detach: bool, es: seq<Event>, e: Event, target: string)
    ensures RowLines(RowsOf(detach, es, e), target) ==
      if e.Log? && e.target == target && e.seqno > Highest(es, target) then [(e.seqno, e.line)] else []
  {
    hide Highest, DoneIn;
    var rows := RowsOf(detach, es, e);
    if !e.Log? { NoLogRows(rows, target); }
  }

  lemma {:induction false} NoLogRows(rows: seq<Row>, target: string)
    requires forall r | r in rows :: !r.LogRow?
    ensures RowLines(rows, target) == []
  {
    if rows != [] {
      assert rows[|rows| - 1] in rows;
      assert forall r | r in rows[..|rows| - 1] :: r in rows;
      NoLogRows(rows[..|rows| - 1], target);
    }
  }

  lemma LinesMore(es: seq<Event>, e: Event, target: string)
    ensures LinesOf(es + [e], target) == LinesOf(es, target) +
      if e.Log? && e.target == target && e.seqno > 0 then [(e.seqno, e.line)] else []
  {
    assert (es + [e])[..|es|] == es;
  }

  /** One more stream that shows the first lines of a log, after events that
      left the first lines of it on the terminal. */
  lemma {:induction false} StreamAdds(detach: bool, before: seq<Event>, more: seq<Event>, target: string,
                                      log: seq<(nat, string)>)
    requires Inv.Numbered(log) && Highest(before, target) <= |log|
    requires RowLines(Rows(detach, before), target) == log[..Highest(before, target)]
    requires LinesOf(more, target) <= log
    ensures var k, n := Highest(before, target), |LinesOf(more, target)|;
      && Highest(before + more, target) == (if k > n then k else n) <= |log|
      && RowLines(Rows(detach, before + more), target) == log[..Highest(before + more, target)]
    decreases |more|
  {
    hide Rows, RowLines, Highest;
    if more == [] {
      assert before + more == before;
    } else {
      var front, e := more[..|more| - 1], more[|more| - 1];
      assert more == front + [e];
      LinesMore(front, e, target);
      hide LinesOf;
      StreamAdds(detach, before, front, target, log);
      assert before + more == (before + front) + [e];
      OneMore(detach, before + front, e);
      RowsLine(detach, before + front, e, target);
      RowLinesJoined(Rows(detach, before + front), RowsOf(detach, before + front, e), target);
      hide RowsOf;
      LineAdds(log, Highest(before + front, target), LinesOf(front, target), LinesOf(more, target), e, target);
    }
  }

  lemma LineAdds(log: seq<(nat, string)>, top: nat, front: seq<(nat, string)>, more: seq<(nat, string)>, e: Event,
                 target: string)
    requires Inv.Numbered(log) && more <= log && |front| <= top <= |log|
    requires more == front + if e.Log? && e.target == target && e.seqno > 0 then [(e.seqno, e.line)] else []
    ensures front <= log
    ensures e.Log? && e.target == target && e.seqno > 0 ==> e.seqno == |more|
    ensures e.Log? && e.target == target && e.seqno > top ==>
      e.seqno == top + 1 <= |log| && log[..top] + [(e.seqno, e.line)] == log[..top + 1]
  {
    if e.Log? && e.target == target && e.seqno > 0 {
      assert more[|front|] == (e.seqno, e.line) == log[|front|];
    }
  }

  /** If every stream shows the beginning of a target's log, as it does when
      the relay misses nothing, the terminal shows it as far as the longest of
      them, each line once. */
  lemma {:induction false} StreamsComplete(detach: bool, streams: seq<Stream>, target: string, log: seq<(nat, string)>)
    requires Inv.Numbered(log) && forall s | s in streams :: LinesOf(s.events, target) <= log
    ensures Highest(Joined(streams), target) <= |log|
    ensures RowLines(Rows(detach, Joined(streams)), target) == log[..Highest(Joined(streams), target)]
    ensures forall s | s in streams :: |LinesOf(s.events, target)| <= Highest(Joined(streams), target)
  {
    hide Rows, RowLines, Highest, LinesOf;
    if streams == [] {
      NothingShown(detach, target);
    } else {
      var front, s := streams[..|streams| - 1], streams[|streams| - 1];
      assert streams == front + [s];
      StreamsComplete(detach, front, target, log);
      StreamAdds(detach, Joined(front), s.events, target, log);
    }
  }

  lemma NothingShown(detach: bool, target: string)
    ensures Rows(detach, []) == [] && RowLines([], target) == [] && Highest([], target) == 0
  {
  }
}
