/** What holds over every run of the event pump. */
module PumpRuns {
  import opened Common
  import opened SessionEvents
  import opened PumpHistory
  import opened EventPump

  // ----- counting frames -----

  predicate IsBoundary(f: Frame) {
    f.Finish? || f.ErrorFrame? || f.SegmentBreak?
  }

  predicate IsCanceled(f: Frame) {
    f.ToolFrame? && f.status == Canceled
  }

  predicate IsCodedTip(f: Frame) {
    f.Tips? && f.code.Some?
  }

  datatype FrameQuery = Boundary | CanceledOf(id: string)

  predicate Hits(q: FrameQuery, f: Frame) {
    match q
    case Boundary => IsBoundary(f)
    case CanceledOf(id) => IsCanceled(f) && f.callId == id
  }

  function Count(frames: seq<Frame>, q: FrameQuery): nat {
    if frames == [] then 0
    else Count(frames[..|frames| - 1], q) + (if Hits(q, frames[|frames| - 1]) then 1 else 0)
  }

  lemma {:induction false} CountConcat(a: seq<Frame>, b: seq<Frame>, q: FrameQuery)
    ensures Count(a + b, q) == Count(a, q) + Count(b, q)
  {
    if b == [] {
      assert a + b == a;
    } else {
      assert (a + b)[..|a + b| - 1] == a + b[..|b| - 1];
      CountConcat(a, b[..|b| - 1], q);
    }
  }

  lemma {:induction false} CountNone(frames: seq<Frame>, q: FrameQuery)
    requires forall k :: 0 <= k < |frames| ==> !Hits(q, frames[k])
    ensures Count(frames, q) == 0
  {
    if frames != [] {
      CountNone(frames[..|frames| - 1], q);
    }
  }

  // ----- the shape of one answer -----

  /** The cancellations an answer begins with. */
  lemma Drained(h: seq<Event>, e: Event, frames: seq<Frame>) returns (order: seq<string>, cancels: seq<Frame>)
    requires Answers(h, e, frames) && EndsTurn(h, e)
    ensures ListsOpen(Turn(h), order) && CancelsFor(Turn(h), order, cancels) && frames == cancels + Closing(h, e)
  {
    order, cancels :| ListsOpen(Turn(h), order) && CancelsFor(Turn(h), order, cancels)
      && frames == cancels + Closing(h, e);
  }

  /** A turn closes with one Finish or Error, preceded by a tip exactly for a blank reply. */
  lemma ClosingShape(h: seq<Event>, e: Event)
    requires IsTerminal(e)
    ensures var c := Closing(h, e);
            && 1 <= |c| <= 2
            && (c[|c| - 1].Finish? || c[|c| - 1].ErrorFrame?)
            && (c[|c| - 1].Finish? ==> c[|c| - 1] == Finish(BoundId(h)))
            && (|c| == 2 <==> BlankReply(h, e))
            && (|c| == 2 ==> IsCodedTip(c[0]) && c[1] == Finish(BoundId(h)))
  {
  }

  /**
    An event that leaves the turn open is answered by a SegmentBreak exactly if it is a (suppressed) result, and
    never by a coded tip or a cancellation.
   */
  lemma OrdinaryShape(h: seq<Event>, e: Event)
    requires !EndsTurn(h, e)
    ensures var o := Ordinary(h, e);
            && (IsTerminal(e) ==> o == [SegmentBreak])
            && (forall k :: 0 <= k < |o| ==>
                !IsCodedTip(o[k]) && !IsCanceled(o[k]) && (IsBoundary(o[k]) ==> IsTerminal(e)))
  {
  }

  // ----- conservation of turn boundaries -----

  function TerminalCount(h: seq<Event>): nat {
    if h == [] then 0 else TerminalCount(h[..|h| - 1]) + (if IsTerminal(h[|h| - 1]) then 1 else 0)
  }

  lemma ClosingBoundaries(h: seq<Event>, e: Event)
    requires IsTerminal(e)
    ensures Count(Closing(h, e), Boundary) == 1
  {
    var c := Closing(h, e);
    ClosingShape(h, e);
    CountNone(c[..|c| - 1], Boundary);
  }

  lemma OrdinaryBoundaries(h: seq<Event>, e: Event)
    requires !EndsTurn(h, e)
    ensures Count(Ordinary(h, e), Boundary) == if IsTerminal(e) then 1 else 0
  {
    var o := Ordinary(h, e);
    OrdinaryShape(h, e);
    if IsTerminal(e) {
      assert o[..0] == [];
    } else {
      CountNone(o, Boundary);
    }
  }

  lemma AnswerBoundaries(h: seq<Event>, e: Event, frames: seq<Frame>)
    requires Answers(h, e, frames)
    ensures Count(frames, Boundary) == if IsTerminal(e) then 1 else 0
  {
    if EndsTurn(h, e) {
      var order, cancels := Drained(h, e, frames);
      CountNone(cancels, Boundary);
      ClosingBoundaries(h, e);
      CountConcat(cancels, Closing(h, e), Boundary);
    } else {
      OrdinaryBoundaries(h, e);
    }
  }

  /** Every TurnResult and Detached is answered by exactly one Finish, Error or SegmentBreak, and nothing else is. */
  lemma {:induction false} BoundariesConserved(events: seq<Event>, logs: seq<seq<Frame>>)
    requires IsRun(events, logs)
    ensures Count(Flatten(logs), Boundary) == TerminalCount(events)
  {
    if events != [] {
      var n := |events| - 1;
      BoundariesConserved(events[..n], logs[..n]);
      AnswerBoundaries(events[..n], events[n], logs[n]);
      CountConcat(Flatten(logs[..n]), logs[n], Boundary);
    }
  }

  /** The update at `j` leaves its subagent running and is the last about it before `i`. */
  predicate LeftRunning(events: seq<Event>, j: nat, i: nat)
    requires j < i <= |events|
  {
    && events[j].SubagentUpdate?
    && (events[j].status == PendingInit || events[j].status == Active)
    && forall k :: j < k < i ==> !(events[k].SubagentUpdate? && events[k].ref == events[j].ref)
  }

  lemma BusyExactly(events: seq<Event>, i: nat)
    requires i <= |events|
    ensures Busy(events[..i]) <==> exists j: nat :: j < i && LeftRunning(events, j, i)
  {
    var h := events[..i];
    if ref :| InFlight(h, ref) {
      var j := LastIndex(h, UpdateOf(ref));
      forall k | j < k < i ensures !(events[k].SubagentUpdate? && events[k].ref == ref) {
        LastIndexIsLatest(h, UpdateOf(ref), k);
        assert h[k] == events[k];
      }
      assert LeftRunning(events, j, i);
    }
    if j: nat :| j < i && LeftRunning(events, j, i) {
      var q := UpdateOf(events[j].ref);
      var l := LastIndex(h, q);
      if l < j {
        LastIndexIsLatest(h, q, j);
      }
      assert h[j] == events[j] && (l >= 0 ==> h[l] == events[l]);
      assert InFlight(h, events[j].ref);
    }
  }

  /** A SegmentBreak stands in for the Finish exactly when a clean, uncancelled result meets running background work. */
  lemma SegmentBreakExactly(events: seq<Event>, logs: seq<seq<Frame>>, i: nat)
    requires IsRun(events, logs) && i < |events|
    ensures SegmentBreak in logs[i]
            <==> && events[i].TurnResult? && !events[i].isError && !events[i].outcome.Cancelled?
                 && exists j: nat :: j < i && LeftRunning(events, j, i)
    ensures SegmentBreak in logs[i] ==> logs[i] == [SegmentBreak]
  {
    BusyExactly(events, i);
    var h, e := events[..i], events[i];
    AnswerAt(events, logs, i);
    if EndsTurn(h, e) {
      var order, cancels := Drained(h, e, logs[i]);
      ClosingShape(h, e);
    } else {
      OrdinaryShape(h, e);
    }
  }

  // ----- open tool calls -----

  lemma {:induction false} CancelsCount(t: seq<Event>, order: seq<string>, cancels: seq<Frame>, id: string)
    requires NoDuplicates(order) && CancelsFor(t, order, cancels)
    ensures Count(cancels, CanceledOf(id)) == if id in order then 1 else 0
  {
    if order != [] {
      var n := |order| - 1;
      CancelsCount(t, order[..n], cancels[..n], id);
      assert order == order[..n] + [order[n]];
    }
  }

  /** Exactly one Canceled frame per open call at a turn's end and none at any other time. */
  lemma CanceledExactly(events: seq<Event>, logs: seq<seq<Frame>>, i: nat, id: string)
    requires IsRun(events, logs) && i < |events|
    ensures Count(logs[i], CanceledOf(id))
            == if EndsTurn(events[..i], events[i]) && IsOpen(Turn(events[..i]), id) then 1 else 0
  {
    var h, e, q := events[..i], events[i], CanceledOf(id);
    AnswerAt(events, logs, i);
    if EndsTurn(h, e) {
      var order, cancels := Drained(h, e, logs[i]);
      CancelsCount(Turn(h), order, cancels, id);
      ClosingShape(h, e);
      CountNone(Closing(h, e), q);
      CountConcat(cancels, Closing(h, e), q);
    } else {
      OrdinaryShape(h, e);
      CountNone(logs[i], q);
    }
  }

  /** The Finish or Error comes after every cancellation of its step. */
  lemma CanceledFirst(events: seq<Event>, logs: seq<seq<Frame>>, i: nat, a: nat, b: nat)
    requires IsRun(events, logs) && i < |events| && a < |logs[i]| && b < |logs[i]|
    requires IsCanceled(logs[i][a]) && IsBoundary(logs[i][b])
    ensures a < b
  {
    var h, e := events[..i], events[i];
    AnswerAt(events, logs, i);
    if EndsTurn(h, e) {
      var order, cancels := Drained(h, e, logs[i]);
      ClosingShape(h, e);
      assert a < |cancels| <= b;
    } else {
      OrdinaryShape(h, e);
    }
  }

  /** Every tool frame carries the latest name given to its call in this turn. */
  lemma NamesExactly(events: seq<Event>, logs: seq<seq<Frame>>, i: nat, k: nat)
    requires IsRun(events, logs) && i < |events| && k < |logs[i]| && logs[i][k].ToolFrame?
    ensures logs[i][k].name == NameOf(Turn(events[..i]) + [events[i]], logs[i][k].callId)
  {
    var h, e, f := events[..i], events[i], logs[i][k];
    AnswerAt(events, logs, i);
    assert NameOf(Turn(h) + [e], f.callId) == if Matches(CallOf(f.callId), e) then e.name
           else NameOf(Turn(h), f.callId) by {
      ToolFactsExtend(Turn(h), e, f.callId);
    }
    if EndsTurn(h, e) {
      var order, cancels := Drained(h, e, logs[i]);
      ClosingShape(h, e);
      assert f == CancelFrame(Turn(h), order[k]);
    } else {
      OrdinaryName(h, e, k);
    }
  }

  lemma OrdinaryName(h: seq<Event>, e: Event, k: nat)
    requires !EndsTurn(h, e) && k < |Ordinary(h, e)| && Ordinary(h, e)[k].ToolFrame?
    ensures var f := Ordinary(h, e)[k];
            f.name == if Matches(CallOf(f.callId), e) then e.name else NameOf(Turn(h), f.callId)
  {
  }

  /** Every live-output frame carries all the output of its call in this turn. */
  lemma OutputExactly(events: seq<Event>, logs: seq<seq<Frame>>, i: nat)
    requires IsRun(events, logs) && i < |events| && events[i].ToolOutputDelta?
    ensures var id := events[i].id;
            logs[i] == [ToolFrame(id, NameOf(Turn(events[..i]), id), Running, None,
                                  Some(LiveOutput(Turn(events[..i]) + [events[i]], id)))]
  {
    AnswerAt(events, logs, i);
    ToolFactsExtend(Turn(events[..i]), events[i], events[i].id);
  }

  /** A result is answered by one frame with its outcome and the joined text, if there is any. */
  lemma ResultExactly(events: seq<Event>, logs: seq<seq<Frame>>, i: nat)
    requires IsRun(events, logs) && i < |events| && events[i].ToolResult?
    ensures var e := events[i];
            var text := ResultText(e.content);
            logs[i] == [ToolFrame(e.id, NameOf(Turn(events[..i]), e.id), if e.failed then Error else Succeeded, None,
                                  if text != "" then Some(text) else None)]
  {
    AnswerAt(events, logs, i);
  }

  // ----- blank replies -----

  lemma OpenImpliesVisible(t: seq<Event>, id: string)
    requires IsOpen(t, id)
    ensures Visible(t)
  {
    assert Shows(t[LastIndex(t, LifecycleOf(id))]);
  }

  /** Something visible was sent in answer to an event. */
  predicate Displayed(frames: seq<Frame>) {
    exists k :: 0 <= k < |frames| && UserVisible(frames[k])
  }

  lemma ShowsMeansDisplayed(h: seq<Event>, e: Event)
    requires !EndsTurn(h, e)
    ensures Shows(e) <==> Displayed(Ordinary(h, e))
  {
    if Shows(e) {
      assert UserVisible(Ordinary(h, e)[0]);
    }
  }

  lemma ShowsInRun(events: seq<Event>, logs: seq<seq<Frame>>, j: nat)
    requires IsRun(events, logs) && TurnStart(events) <= j < |events|
    ensures Shows(events[j]) <==> Displayed(logs[j])
  {
    TurnStartIsLatest(events);
    AnswerAt(events, logs, j);
    ShowsMeansDisplayed(events[..j], events[j]);
  }

  lemma VisibleIsDisplayed(events: seq<Event>, logs: seq<seq<Frame>>)
    requires IsRun(events, logs) && Visible(Turn(events))
    ensures exists j :: TurnStart(events) <= j < |events| && Displayed(logs[j])
  {
    var n, t := TurnStart(events), Turn(events);
    var k :| 0 <= k < |t| && Shows(t[k]);
    ShowsInRun(events, logs, n + k);
  }

  lemma DisplayedIsVisible(events: seq<Event>, logs: seq<seq<Frame>>, j: nat)
    requires IsRun(events, logs) && TurnStart(events) <= j < |events| && Displayed(logs[j])
    ensures Visible(Turn(events))
  {
    ShowsInRun(events, logs, j);
    assert Shows(Turn(events)[j - TurnStart(events)]);
  }

  /** Within a turn, "something visible was sent" and "something visible happened" are the same. */
  lemma VisibleMeansDisplayed(events: seq<Event>, logs: seq<seq<Frame>>)
    requires IsRun(events, logs)
    ensures Visible(Turn(events)) <==> exists j :: TurnStart(events) <= j < |events| && Displayed(logs[j])
  {
    if Visible(Turn(events)) {
      VisibleIsDisplayed(events, logs);
    }
    if j :| TurnStart(events) <= j < |events| && Displayed(logs[j]) {
      DisplayedIsVisible(events, logs, j);
    }
  }

  /**
    The blank-reply tip goes out exactly for a clean, uncancelled result of a silent turn, right before its Finish
    and with no cancellation.
   */
  lemma TipExactly(events: seq<Event>, logs: seq<seq<Frame>>, i: nat)
    requires IsRun(events, logs) && i < |events|
    ensures var h, e := events[..i], events[i];
            (exists k :: 0 <= k < |logs[i]| && IsCodedTip(logs[i][k]))
            <==> EndsTurn(h, e) && e.TurnResult? && !e.isError && !e.outcome.Cancelled? && !Visible(Turn(h))
    ensures (exists k :: 0 <= k < |logs[i]| && IsCodedTip(logs[i][k])) ==>
              EmptyTurnTip(events[i].outcome).Some?
                && logs[i] == [EmptyTurnTip(events[i].outcome).value, Finish(BoundId(events[..i]))]
  {
    var h, e := events[..i], events[i];
    AnswerAt(events, logs, i);
    if EndsTurn(h, e) {
      var order, cancels := Drained(h, e, logs[i]);
      ClosingShape(h, e);
      if BlankReply(h, e) {
        if order != [] {
          OpenImpliesVisible(Turn(h), order[0]);
        }
        assert logs[i] == Closing(h, e);
      }
    } else {
      OrdinaryShape(h, e);
    }
  }

  // ----- errors -----

  lemma ResultClosing(h: seq<Event>, e: Event, frames: seq<Frame>)
    requires Answers(h, e, frames) && e.TurnResult?
    ensures var error := e.isError && !e.outcome.Cancelled? && Trim(e.text) != "";
            && frames != []
            && ((exists k :: 0 <= k < |frames| && frames[k].ErrorFrame?) <==> error)
            && (error ==> frames[|frames| - 1] == ErrorFrame(Upstream(e.text)))
  {
    if EndsTurn(h, e) {
      var order, cancels := Drained(h, e, frames);
      var c := Closing(h, e);
      ClosingShape(h, e);
      assert frames[|frames| - 1] == c[|c| - 1];
    } else {
      OrdinaryShape(h, e);
    }
  }

  /**
    A result is reported as an error exactly if it is one, was not asked for, and says something; the report says it.
   */
  lemma ErrorExactly(events: seq<Event>, logs: seq<seq<Frame>>, i: nat)
    requires IsRun(events, logs) && i < |events| && events[i].TurnResult?
    ensures var e := events[i];
            var error := e.isError && !e.outcome.Cancelled? && HasText(e.text);
            && logs[i] != []
            && ((exists k :: 0 <= k < |logs[i]| && logs[i][k].ErrorFrame?) <==> error)
            && (error ==> logs[i][|logs[i]| - 1] == ErrorFrame(Upstream(e.text)))
  {
    AnswerAt(events, logs, i);
    ResultClosing(events[..i], events[i], logs[i]);
    BlankExactly(events[i].text);
  }

  // ----- crashes -----

  lemma CrashClosing(h: seq<Event>, e: Event, frames: seq<Frame>)
    requires Answers(h, e, frames) && e.Detached?
    ensures (exists k :: 0 <= k < |frames| && frames[k].ErrorFrame?) <==> !ResultSeen(h) && !CleanZero(e.exit)
  {
    var order, cancels := Drained(h, e, frames);
    var c := Closing(h, e);
    assert |c| == 1 && frames[|cancels|] == c[0];
  }

  lemma ResultSeenBefore(events: seq<Event>, i: nat)
    requires i < |events|
    ensures ResultSeen(events[..i])
            <==> exists j: nat :: LastIndex(events[..i], Started) < j < i && ResultAt(events, j)
  {
    forall j: nat | j < i ensures ResultAt(events[..i], j) <==> ResultAt(events, j) {
      assert events[..i][..j] == events[..j];
    }
  }

  /**
    A process exit is reported as an error exactly when no result ended a turn since the latest start and the exit is
    not a clean zero.
   */
  lemma CrashExactly(events: seq<Event>, logs: seq<seq<Frame>>, i: nat)
    requires IsRun(events, logs) && i < |events| && events[i].Detached?
    ensures (exists k :: 0 <= k < |logs[i]| && logs[i][k].ErrorFrame?)
            <==> && !CleanZero(events[i].exit)
                 && !exists j: nat :: LastIndex(events[..i], Started) < j < i && ResultAt(events, j)
  {
    AnswerAt(events, logs, i);
    CrashClosing(events[..i], events[i], logs[i]);
    ResultSeenBefore(events, i);
  }

  /** The report of a crash carries the exit and, unless it is blank, the summary. */
  lemma CrashReport(events: seq<Event>, logs: seq<seq<Frame>>, i: nat, k: nat)
    requires IsRun(events, logs) && i < |events| && events[i].Detached?
    requires k < |logs[i]| && logs[i][k].ErrorFrame?
    ensures var e := events[i];
            logs[i][k].data
            == Disconnected(e.exit, if e.summary.Some? && HasText(e.summary.value) then e.summary else None)
  {
    var h, e := events[..i], events[i];
    AnswerAt(events, logs, i);
    var order, cancels := Drained(h, e, logs[i]);
    assert |Closing(h, e)| == 1 && k == |cancels|;
    if e.summary.Some? {
      BlankExactly(e.summary.value);
    }
  }

  lemma LaunchResultGoesOn(events: seq<Event>, logs: seq<seq<Frame>>, j: nat)
    requires IsRun(events, logs) && j < |events| && SegmentBreak in logs[j]
    ensures !EndsTurn(events[..j], events[j])
  {
    AnswerAt(events, logs, j);
    if EndsTurn(events[..j], events[j]) {
      var order, cancels := Drained(events[..j], events[j], logs[j]);
      ClosingShape(events[..j], events[j]);
    }
  }

  /** A workflow-launch result does not hide a later crash. */
  lemma CrashAfterLaunchResult(events: seq<Event>, logs: seq<seq<Frame>>, i: nat)
    requires IsRun(events, logs) && i < |events| && events[i].Detached? && !CleanZero(events[i].exit)
    requires forall j :: LastIndex(events[..i], Started) < j < i && events[j].TurnResult? ==> SegmentBreak in logs[j]
    ensures exists k :: 0 <= k < |logs[i]| && logs[i][k].ErrorFrame?
  {
    forall j | LastIndex(events[..i], Started) < j < i && events[j].TurnResult?
      ensures !EndsTurn(events[..j], events[j]) {
      LaunchResultGoesOn(events, logs, j);
    }
    CrashExactly(events, logs, i);
  }

  // ----- does every tool row leave "running" when the turn ends? -----

  /** Frames with a blank call id are not persisted. */
  predicate Persisted(id: string) {
    Trim(id) != ""
  }

  /** The persisted row of `id`: the status of the latest frame for it (rows are upserted by call id). */
  function Row(frames: seq<Frame>, id: string): Option<ToolStatus> {
    if frames == [] then None
    else
      var f := frames[|frames| - 1];
      if f.ToolFrame? && f.callId == id && Persisted(id) then Some(f.status) else Row(frames[..|frames| - 1], id)
  }

  lemma {:induction false} RowConcat(a: seq<Frame>, b: seq<Frame>, id: string)
    ensures Row(a + b, id) == if Row(b, id).Some? then Row(b, id) else Row(a, id)
  {
    if b == [] {
      assert a + b == a;
    } else {
      assert (a + b)[..|a + b| - 1] == a + b[..|b| - 1];
      RowConcat(a, b[..|b| - 1], id);
    }
  }

  /** The turn's last word on `id` is output that arrived while no call of that id was open. */
  predicate Stray(t: seq<Event>, id: string) {
    var i := LastIndex(t, MentionOf(id));
    i >= 0 && t[i].ToolOutputDelta? && !IsOpen(t, id)
  }

  function RowOf(e: Event): ToolStatus {
    if e.ToolResult? then (if e.failed then Error else Succeeded) else Running
  }

  lemma {:induction false} RowNone(frames: seq<Frame>, id: string)
    requires forall k :: 0 <= k < |frames| ==> !frames[k].ToolFrame?
    ensures Row(frames, id).None?
  {
    if frames != [] {
      RowNone(frames[..|frames| - 1], id);
    }
  }

  lemma {:induction false} BlankHasNoRow(frames: seq<Frame>, id: string)
    requires !Persisted(id)
    ensures Row(frames, id).None?
  {
    if frames != [] {
      BlankHasNoRow(frames[..|frames| - 1], id);
    }
  }

  lemma OrdinaryRow(h: seq<Event>, e: Event, id: string)
    requires !EndsTurn(h, e)
    ensures Row(Ordinary(h, e), id) == if Matches(MentionOf(id), e) && Persisted(id) then Some(RowOf(e)) else None
  {
    var o := Ordinary(h, e);
    if |o| == 1 {
      assert o[..0] == [];
    } else {
      RowNone(o, id);
    }
  }

  /** One event of an open turn moves the row of a call it mentions and no other. */
  lemma RowStep(h: seq<Event>, e: Event, before: seq<Frame>, frames: seq<Frame>, id: string)
    requires !EndsTurn(h, e) && Answers(h, e, frames)
    ensures Row(before + frames, id)
            == if Matches(MentionOf(id), e) && Persisted(id) then Some(RowOf(e)) else Row(before, id)
  {
    OrdinaryRow(h, e, id);
    RowConcat(before, frames, id);
  }

  /** The row a turn's latest event about `id` calls for. */
  function MentionRow(t: seq<Event>, id: string): Option<ToolStatus> {
    var i := LastIndex(t, MentionOf(id));
    if i < 0 || !Persisted(id) then None else Some(RowOf(t[i]))
  }

  lemma MentionRowExtend(t: seq<Event>, e: Event, id: string)
    ensures MentionRow(t + [e], id)
            == if Matches(MentionOf(id), e) && Persisted(id) then Some(RowOf(e)) else MentionRow(t, id)
  {
    LastIndexExtend(t, e);
  }

  lemma TurnGoesOn(events: seq<Event>)
    requires Turn(events) != []
    ensures events != []
    ensures var n := |events| - 1;
            !EndsTurn(events[..n], events[n]) && Turn(events) == Turn(events[..n]) + [events[n]]
  {
    var n := |events| - 1;
    assert events == events[..n] + [events[n]];
    TurnExtend(events[..n], events[n]);
  }

  /** While a turn is open, the row of a mentioned call follows its latest event. */
  lemma {:induction false} RowDuringTurn(events: seq<Event>, logs: seq<seq<Frame>>, id: string)
    requires IsRun(events, logs) && MentionRow(Turn(events), id).Some?
    ensures Row(Flatten(logs), id) == MentionRow(Turn(events), id)
  {
    TurnGoesOn(events);
    var n := |events| - 1;
    MentionRowExtend(Turn(events[..n]), events[n], id);
    RowStep(events[..n], events[n], Flatten(logs[..n]), logs[n], id);
    if !Matches(MentionOf(id), events[n]) {
      RowDuringTurn(events[..n], logs[..n], id);
    }
  }

  lemma {:induction false} CancelsRow(t: seq<Event>, order: seq<string>, cancels: seq<Frame>, id: string)
    requires CancelsFor(t, order, cancels)
    ensures Row(cancels, id) == if id in order && Persisted(id) then Some(Canceled) else None
  {
    if order != [] {
      var n := |order| - 1;
      CancelsRow(t, order[..n], cancels[..n], id);
      assert order == order[..n] + [order[n]];
    }
  }

  lemma ClosingRow(h: seq<Event>, e: Event, id: string)
    requires IsTerminal(e)
    ensures Row(Closing(h, e), id).None?
  {
    RowNone(Closing(h, e), id);
  }

  lemma RowAtTurnEnd(h: seq<Event>, e: Event, before: seq<Frame>, frames: seq<Frame>, id: string)
    requires EndsTurn(h, e) && Answers(h, e, frames)
    ensures Row(before + frames, id)
            == if IsOpen(Turn(h), id) && Persisted(id) then Some(Canceled) else Row(before, id)
  {
    var order, cancels := Drained(h, e, frames);
    var closing := Closing(h, e);
    ClosingRow(h, e, id);
    CancelsRow(Turn(h), order, cancels, id);
    RowConcat(cancels, closing, id);
    RowConcat(before, frames, id);
  }

  lemma MentionedWhenClosed(t: seq<Event>, id: string)
    requires LastIndex(t, MentionOf(id)) >= 0 && !IsOpen(t, id)
    ensures RowOf(t[LastIndex(t, MentionOf(id))]) == Running <==> Stray(t, id)
  {
    var m, l := LastIndex(t, MentionOf(id)), LastIndex(t, LifecycleOf(id));
    if t[m].ToolCall? {
      if l < m {
        LastIndexIsLatest(t, LifecycleOf(id), m);
      } else if l > m {
        LastIndexIsLatest(t, MentionOf(id), l);
      }
    }
  }

  /**
    After the frames that end a turn, the row of a call the turn mentioned is still running exactly when its last
    output was stray.
   */
  lemma RunningAfterTurnExactly(h: seq<Event>, logs: seq<seq<Frame>>, e: Event, frames: seq<Frame>, id: string)
    requires IsRun(h, logs) && Answers(h, e, frames) && EndsTurn(h, e)
    requires LastIndex(Turn(h), MentionOf(id)) >= 0
    ensures IsRun(h + [e], logs + [frames])
    ensures Row(Flatten(logs + [frames]), id) == Some(Running) <==> Stray(Turn(h), id) && Persisted(id)
  {
    RunExtend(h, logs, e, frames);
    if Persisted(id) {
      RowDuringTurn(h, logs, id);
    } else {
      BlankHasNoRow(Flatten(logs), id);
    }
    RowAtTurnEnd(h, e, Flatten(logs), frames, id);
    if !IsOpen(Turn(h), id) {
      MentionedWhenClosed(Turn(h), id);
    }
  }

  /** Such runs exist: output after the result leaves the row running although the turn finished cleanly. */
  lemma StrayOutputStaysRunning()
    ensures var events := [ToolCall("c", "Bash", "{}"), ToolResult("c", false, []), ToolOutputDelta("c", "late"),
                           TurnResult(false, "", EndTurn)];
            exists logs :: IsRun(events, logs) && Row(Flatten(logs), "c") == Some(Running)
  {
    var a, b := ToolCall("c", "Bash", "{}"), ToolResult("c", false, []);
    var c, d := ToolOutputDelta("c", "late"), TurnResult(false, "", EndTurn);
    var h := [a, b, c];
    var logs := AnyRun(h);
    var frames := AnyAnswer(h, d);
    StrayTurn(a, b, c);
    RunningAfterTurnExactly(h, logs, d, frames, "c");
    assert h + [d] == [a, b, c, d];
  }

  lemma StrayTurn(a: Event, b: Event, c: Event)
    requires a.ToolCall? && b.ToolResult? && c.ToolOutputDelta? && a.id == b.id == c.id
    ensures Turn([a, b, c]) == [a, b, c] && Stray([a, b, c], a.id) && !Busy([a, b, c])
  {
    assert [a, b, c][..2] == [a, b] && [a, b][..1] == [a] && [a][..0] == [];
    assert TurnStart([a, b, c]) == TurnStart([a, b]) == TurnStart([a]) == TurnStart([]);
    forall q ensures LastIndex([a, b, c], q) == if Matches(q, c) then 2 else if Matches(q, b) then 1
      else if Matches(q, a) then 0 else -1 {
      assert LastIndex([a], q) == if Matches(q, a) then 0 else -1;
      assert LastIndex([a, b], q) == if Matches(q, b) then 1 else LastIndex([a], q);
    }
  }

  /** The pump can answer every event sequence. */
  lemma {:induction false} AnyRun(events: seq<Event>) returns (logs: seq<seq<Frame>>)
    ensures IsRun(events, logs)
  {
    if events == [] {
      logs := [];
    } else {
      var n := |events| - 1;
      var h, e := events[..n], events[n];
      var before := AnyRun(h);
      var frames := AnyAnswer(h, e);
      RunExtend(h, before, e, frames);
      assert h + [e] == events;
      logs := before + [frames];
    }
  }

  lemma AnyAnswer(h: seq<Event>, e: Event) returns (frames: seq<Frame>)
    ensures Answers(h, e, frames)
  {
    if EndsTurn(h, e) {
      var order, cancels := AnyDrain(Turn(h));
      frames := cancels + Closing(h, e);
    } else {
      frames := Ordinary(h, e);
    }
  }

  lemma {:induction false} AnyDrain(t: seq<Event>) returns (order: seq<string>, cancels: seq<Frame>)
    ensures ListsOpen(t, order) && CancelsFor(t, order, cancels)
  {
    order := EnumerateSet(Opens(t).Keys);
    cancels := seq(|order|, i requires 0 <= i < |order| => CancelFrame(t, order[i]));
    forall id ensures id in order <==> IsOpen(t, id) {
      NamesTracked(t, id);
    }
  }

  lemma {:induction false} EnumerateSet(s: set<string>) returns (order: seq<string>)
    ensures NoDuplicates(order) && forall id :: id in order <==> id in s
    decreases s
  {
    if s == {} {
      order := [];
    } else {
      var x :| x in s;
      var rest := EnumerateSet(s - {x});
      order := rest + [x];
    }
  }
}
