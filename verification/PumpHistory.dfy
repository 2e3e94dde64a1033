/**
  What the event pump should send, said about the plain event history: no accumulators, only
  "the latest such event" and "the events since the turn began".
 */
module PumpHistory {
  import opened Common
  import opened CatalogOptions
  import opened SessionEvents

  /** The kinds of event a history is searched for. */
  datatype Query =
    | CallOf(id: string)      // a ToolCall
    | LifecycleOf(id: string) // a ToolCall or ToolResult
    | MentionOf(id: string)   // a ToolCall, ToolResult or ToolOutputDelta
    | UpdateOf(ref: string)
    | Started
    | Bound

  predicate Matches(q: Query, e: Event) {
    match q
    case CallOf(id) => e.ToolCall? && e.id == id
    case LifecycleOf(id) => (e.ToolCall? || e.ToolResult?) && e.id == id
    case MentionOf(id) => (e.ToolCall? || e.ToolResult? || e.ToolOutputDelta?) && e.id == id
    case UpdateOf(ref) => e.SubagentUpdate? && e.ref == ref
    case Started => e.TurnStarted?
    case Bound => e.BackendBound? && e.backendId.Some?
  }

  /** Position of the latest matching event, or -1. */
  function LastIndex(h: seq<Event>, q: Query): (i: int)
    ensures -1 <= i < |h|
    ensures i >= 0 ==> Matches(q, h[i])
  {
    if h == [] then -1
    else if Matches(q, h[|h| - 1]) then |h| - 1
    else LastIndex(h[..|h| - 1], q)
  }

  lemma {:induction false} LastIndexIsLatest(h: seq<Event>, q: Query, j: nat)
    requires LastIndex(h, q) < j < |h|
    ensures !Matches(q, h[j])
  {
    if j < |h| - 1 {
      LastIndexIsLatest(h[..|h| - 1], q, j);
    }
  }

  lemma LastIndexExtend(h: seq<Event>, e: Event)
    ensures forall q :: LastIndex(h + [e], q) == if Matches(q, e) then |h| else LastIndex(h, q)
  {
    assert (h + [e])[..|h|] == h;
  }

  // ----- background work and turn boundaries -----

  /** Some update named `ref` and the latest one left it running. */
  predicate InFlight(h: seq<Event>, ref: string) {
    var i := LastIndex(h, UpdateOf(ref));
    i >= 0 && NonTerminal(h[i].status)
  }

  ghost predicate Busy(h: seq<Event>) {
    exists ref :: InFlight(h, ref)
  }

  /** A clean result that only announces background work still running. */
  ghost predicate Suppressed(h: seq<Event>, e: Event) {
    e.TurnResult? && !e.isError && !e.outcome.Cancelled? && Busy(h)
  }

  /** `e`, arriving after `h`, really ends the turn. */
  ghost predicate EndsTurn(h: seq<Event>, e: Event) {
    (e.TurnResult? || e.Detached?) && !Suppressed(h, e)
  }

  /** Where the current turn's events begin: just after the latest event that ended a turn. */
  ghost function TurnStart(h: seq<Event>): (n: nat)
    ensures n <= |h|
  {
    if h == [] then 0
    else if EndsTurn(h[..|h| - 1], h[|h| - 1]) then |h|
    else TurnStart(h[..|h| - 1])
  }

  lemma {:induction false} TurnStartIsLatest(h: seq<Event>)
    ensures var n := TurnStart(h); n > 0 ==> EndsTurn(h[..n - 1], h[n - 1])
    ensures forall i :: TurnStart(h) <= i < |h| ==> !EndsTurn(h[..i], h[i])
  {
    if h != [] {
      var p, n := h[..|h| - 1], TurnStart(h);
      TurnStartIsLatest(p);
      assert 0 < n < |h| ==> p[..n - 1] == h[..n - 1];
      forall i | n <= i < |h| ensures !EndsTurn(h[..i], h[i]) {
        assert p[..i] == h[..i];
      }
    }
  }

  ghost function Turn(h: seq<Event>): seq<Event> {
    h[TurnStart(h)..]
  }

  lemma TurnExtend(h: seq<Event>, e: Event)
    ensures Turn(h + [e]) == if EndsTurn(h, e) then [] else Turn(h) + [e]
  {
    assert (h + [e])[..|h|] == h;
  }

  // ----- what the turn so far says about tools and output -----

  /** Name given by the turn's latest ToolCall for `id`; empty if there is none. */
  function NameOf(turn: seq<Event>, id: string): string {
    var i := LastIndex(turn, CallOf(id));
    if i < 0 then "" else turn[i].name
  }

  /** The latest of the turn's ToolCall/ToolResult events for `id` is a ToolCall. */
  predicate IsOpen(turn: seq<Event>, id: string) {
    var i := LastIndex(turn, LifecycleOf(id));
    i >= 0 && turn[i].ToolCall?
  }

  /** All output deltas of `id` in the turn, joined in order. */
  function LiveOutput(turn: seq<Event>, id: string): string {
    if turn == [] then ""
    else
      var e := turn[|turn| - 1];
      LiveOutput(turn[..|turn| - 1], id) + (if e.ToolOutputDelta? && e.id == id then e.text else "")
  }

  /** The events that put something in front of the user. */
  predicate Shows(e: Event) {
    || e.MessageDelta? || e.ThoughtDelta? || e.ToolCall? || e.ToolResult? || e.ToolOutputDelta?
    || e.Permission? || e.Plan?
  }

  predicate Visible(turn: seq<Event>) {
    exists i :: 0 <= i < |turn| && Shows(turn[i])
  }

  /** The event at `i` is a result that ended a turn. */
  ghost predicate ResultAt(h: seq<Event>, i: nat) {
    i < |h| && h[i].TurnResult? && EndsTurn(h[..i], h[i])
  }

  /** A result ended a turn after the latest TurnStarted (or, without one, since the beginning). */
  ghost predicate ResultSeen(h: seq<Event>) {
    exists i: nat :: LastIndex(h, Started) < i && ResultAt(h, i)
  }

  /** The session id of the latest binding that carried one. */
  function BoundId(h: seq<Event>): Option<string> {
    var i := LastIndex(h, Bound);
    if i < 0 then None else h[i].backendId
  }

  // ----- frames owed for one event -----

  function CancelFrame(turn: seq<Event>, id: string): Frame {
    ToolFrame(id, NameOf(turn, id), Canceled, None, None)
  }

  /** `order` lists every open call exactly once; the pump drains them in an arbitrary order. */
  ghost predicate ListsOpen(turn: seq<Event>, order: seq<string>) {
    NoDuplicates(order) && forall id :: id in order <==> IsOpen(turn, id)
  }

  ghost predicate CancelsFor(turn: seq<Event>, order: seq<string>, frames: seq<Frame>) {
    |frames| == |order| && forall i :: 0 <= i < |order| ==> frames[i] == CancelFrame(turn, order[i])
  }

  ghost predicate BlankReply(h: seq<Event>, e: Event) {
    e.TurnResult? && !e.isError && !e.outcome.Cancelled? && !Visible(Turn(h))
  }

  /** The frames that close a turn, after its open calls were cancelled. */
  ghost function Closing(h: seq<Event>, e: Event): seq<Frame>
    requires e.TurnResult? || e.Detached?
  {
    if e.TurnResult? then
      if GenuineError(e) then [ErrorFrame(Upstream(e.text))]
      else (if BlankReply(h, e) then [EmptyTurnTip(e.outcome).value] else []) + [Finish(BoundId(h))]
    else if !ResultSeen(h) && !CleanZero(e.exit) then [ErrorFrame(Disconnected(e.exit, NonBlank(e.summary)))]
    else [Finish(BoundId(h))]
  }

  /** The frames of an event that leaves the turn open. */
  ghost function Ordinary(h: seq<Event>, e: Event): seq<Frame> {
    match e
    case ToolOutputDelta(id, text) =>
      [ToolFrame(id, NameOf(Turn(h), id), Running, None, Some(LiveOutput(Turn(h), id) + text))]
    case CatalogUpdated(models, modes, commands, picks) =>
      (if modes != [] || models != [] then [ConfigOptions(Options(models, modes, picks))] else [])
      + (if commands != [] then [AvailableCommands(commands)] else [])
    case ToolResult(id, failed, content) =>
      [ToolFrame(id, NameOf(Turn(h), id), if failed then Error else Succeeded, None, NonEmpty(ResultText(content)))]
    case TurnResult(_, _, _) => [SegmentBreak]
    case ToolCall(id, name, input) => [ToolFrame(id, name, Running, Some(input), None)]
    case MessageDelta(text) => [Text(text)]
    case ThoughtDelta(text) => [Thinking(text)]
    case Permission(request) => [PermissionCard(request)]
    case Plan(entries) => [PlanCard(entries)]
    case UsageDelta(total) => [ContextUsage(total)]
    case Notice(warning, message) => [Tips(if warning then Warning else Info, message, None)]
    case _ => []
  }

  /** `frames` is an answer the pump may give to `e` after `h`. */
  ghost predicate Answers(h: seq<Event>, e: Event, frames: seq<Frame>) {
    if EndsTurn(h, e) then
      exists order, cancels ::
        && ListsOpen(Turn(h), order)
        && CancelsFor(Turn(h), order, cancels)
        && frames == cancels + Closing(h, e)
    else frames == Ordinary(h, e)
  }

  /** A whole run: the answer to each event, given everything before it. */
  ghost predicate IsRun(events: seq<Event>, logs: seq<seq<Frame>>) {
    && |events| == |logs|
    && (events != [] ==>
          var n := |events| - 1;
          IsRun(events[..n], logs[..n]) && Answers(events[..n], events[n], logs[n]))
  }

  lemma {:induction false} AnswerAt(events: seq<Event>, logs: seq<seq<Frame>>, i: nat)
    requires IsRun(events, logs) && i < |events|
    ensures Answers(events[..i], events[i], logs[i])
  {
    var n := |events| - 1;
    if i < n {
      AnswerAt(events[..n], logs[..n], i);
      assert events[..n][..i] == events[..i];
    }
  }

  function Flatten(logs: seq<seq<Frame>>): seq<Frame> {
    if logs == [] then [] else Flatten(logs[..|logs| - 1]) + logs[|logs| - 1]
  }

  lemma RunExtend(events: seq<Event>, logs: seq<seq<Frame>>, e: Event, frames: seq<Frame>)
    requires IsRun(events, logs) && Answers(events, e, frames)
    ensures IsRun(events + [e], logs + [frames])
    ensures Flatten(logs + [frames]) == Flatten(logs) + frames
  {
    assert (events + [e])[..|events|] == events && (logs + [frames])[..|logs|] == logs;
  }
}
