/**
  The session event pump as the source runs it: six accumulators updated event by event and an
  append-only log of frames. `Valid` says that the accumulators agree with the plain history and
  that the log is a run of `PumpHistory`.
 */
module EventPump {
  import opened Common
  import opened CatalogOptions
  import opened SessionEvents
  import opened PumpHistory

  /** The accumulators that live for one turn. */
  datatype TurnState = TurnState(
    toolName: map<string, string>,
    toolOutput: map<string, string>,
    openTools: map<string, string>,
    sawVisibleOutput: bool)
  {
    function Next(e: Event): TurnState {
      TurnState(
        if e.ToolCall? then toolName[e.id := e.name] else toolName,
        if e.ToolOutputDelta? then toolOutput[e.id := Lookup(toolOutput, e.id) + e.text] else toolOutput,
        if e.ToolCall? then openTools[e.id := e.name] else if e.ToolResult? then openTools - {e.id} else openTools,
        sawVisibleOutput || Shows(e))
    }

    /** The effect of forwarding at most one translated frame. */
    function Seen(frames: seq<Frame>): TurnState {
      this.(toolName := Learn(frames, toolName),
            sawVisibleOutput := sawVisibleOutput || (frames != [] && UserVisible(frames[0])))
    }
  }

  function CalledIds(t: seq<Event>): set<string> {
    set e | e in t && e.ToolCall? :: e.id
  }

  function StreamedIds(t: seq<Event>): set<string> {
    set e | e in t && e.ToolOutputDelta? :: e.id
  }

  /** What those accumulators should hold after the turn's events `t`. */
  function TurnOf(t: seq<Event>): TurnState {
    TurnState(Names(t), Outputs(t), Opens(t), Visible(t))
  }

  function Names(t: seq<Event>): map<string, string> {
    map id | id in CalledIds(t) :: NameOf(t, id)
  }

  function Outputs(t: seq<Event>): map<string, string> {
    map id | id in StreamedIds(t) :: LiveOutput(t, id)
  }

  function Opens(t: seq<Event>): map<string, string> {
    map id | id in CalledIds(t) && IsOpen(t, id) :: NameOf(t, id)
  }

  const FRESH_TURN := TurnState(map[], map[], map[], false)

  /** The accumulators that outlive a turn. */
  datatype SessionState = SessionState(workflowInflight: set<string>, terminalResultSeen: bool,
                                       sessionId: Option<string>) {
    function Next(e: Event, ends: bool): SessionState {
      SessionState(
        if e.SubagentUpdate? then
          if NonTerminal(e.status) then workflowInflight + {e.ref} else workflowInflight - {e.ref}
        else workflowInflight,
        !e.TurnStarted? && (terminalResultSeen || (e.TurnResult? && ends)),
        if Matches(Bound, e) then e.backendId else sessionId)
    }

    predicate Suppresses(e: Event) {
      e.TurnResult? && workflowInflight != {} && !e.isError && !e.outcome.Cancelled?
    }

    predicate Ends(e: Event) {
      IsTerminal(e) && !Suppresses(e)
    }
  }

  function UpdatedRefs(h: seq<Event>): set<string> {
    set e | e in h && e.SubagentUpdate? :: e.ref
  }

  /** What they should hold after the whole history `h`. */
  ghost function SessionOf(h: seq<Event>): SessionState {
    SessionState((set r | r in UpdatedRefs(h) && InFlight(h, r)), ResultSeen(h), BoundId(h))
  }

  predicate IsTerminal(e: Event) {
    e.TurnResult? || e.Detached?
  }

  /** The accumulators and the frames sent are what the history calls for. */
  ghost predicate Agrees(turn: TurnState, session: SessionState, h: seq<Event>, logs: seq<seq<Frame>>,
                         sent: seq<Frame>) {
    turn == TurnOf(Turn(h)) && session == SessionOf(h) && IsRun(h, logs) && sent == Flatten(logs)
  }

  /** `frames` cancels each call of `open` once, in the order `order`. */
  ghost predicate ListsClosed(open: map<string, string>, order: seq<string>, frames: seq<Frame>) {
    && NoDuplicates(order)
    && (forall id :: id in order <==> id in open)
    && |frames| == |order|
    && (forall i :: 0 <= i < |order| ==> frames[i] == ToolFrame(order[i], open[order[i]], Canceled, None, None))
  }

  ghost predicate ClosesAll(open: map<string, string>, frames: seq<Frame>) {
    exists order :: ListsClosed(open, order, frames)
  }

  function CatalogFrames(e: Event): seq<Frame>
    requires e.CatalogUpdated?
  {
    (if e.modes != [] || e.models != [] then [ConfigOptions(Options(e.models, e.modes, e.picks))] else [])
    + (if e.commands != [] then [AvailableCommands(e.commands)] else [])
  }

  /** Names learned from at most one translated frame. */
  function Learn(frames: seq<Frame>, names: map<string, string>): map<string, string> {
    if frames != [] && frames[0].ToolFrame? && frames[0].name != "" then names[frames[0].callId := frames[0].name]
    else names
  }

  /** What the translate loop sends for at most one translated frame. */
  function Route(frames: seq<Frame>, names: map<string, string>, suppress: bool, tip: Option<Frame>,
                 sid: Option<string>)
    : seq<Frame>
  {
    if frames == [] then []
    else
      var f := frames[0];
      if f.Finish? then
        (if tip.Some? then [tip.value] else []) + [if suppress then SegmentBreak else Finish(sid)]
      else if f.ToolFrame? && f.name == "" then [f.(name := Lookup(names, f.callId))]
      else [f]
  }

  /** What the translate loop sends for `e`, in terms of the accumulators before the event. */
  function Routed(turn: TurnState, session: SessionState, e: Event): seq<Frame> {
    Route(Translate(e, session.terminalResultSeen), turn.Next(e).toolName, session.Suppresses(e),
          BlankTip(turn, session, e), session.sessionId)
  }

  function BlankTip(turn: TurnState, session: SessionState, e: Event): Option<Frame> {
    if session.Ends(e) && e.TurnResult? && !e.isError && !turn.sawVisibleOutput then EmptyTurnTip(e.outcome) else None
  }

  /** What one step sends. */
  ghost predicate Sends(turn: TurnState, session: SessionState, e: Event, frames: seq<Frame>) {
    if e.ToolOutputDelta? then
      frames == [ToolFrame(e.id, Lookup(turn.toolName, e.id), Running, None,
                           Some(Lookup(turn.toolOutput, e.id) + e.text))]
    else if e.CatalogUpdated? then frames == CatalogFrames(e)
    else if session.Ends(e) then
      exists cancels :: ClosesAll(turn.openTools, cancels) && frames == cancels + Routed(turn, session, e)
    else frames == Routed(turn, session, e)
  }

  /** One step, from the accumulators before it to those after it. */
  ghost predicate Moves(turn: TurnState, session: SessionState, e: Event, frames: seq<Frame>, turn': TurnState,
                        session': SessionState) {
    && turn' == (if session.Ends(e) then FRESH_TURN else turn.Next(e))
    && session' == session.Next(e, session.Ends(e))
    && Sends(turn, session, e, frames)
  }

  /** The bookkeeping half of a step: everything but the translated frame. */
  ghost predicate Booked(turn: TurnState, session: SessionState, e: Event, suppress: bool, tip: Option<Frame>,
                         cancels: seq<Frame>, kept: TurnState, after: SessionState)
  {
    && suppress == session.Suppresses(e)
    && tip == BlankTip(turn, session, e)
    && kept == (if session.Ends(e) then FRESH_TURN else turn.Next(e).(sawVisibleOutput := turn.sawVisibleOutput))
    && after == session.Next(e, session.Ends(e))
    && (if session.Ends(e) then ClosesAll(turn.openTools, cancels) else cancels == [])
  }

  /** The other half: the translated frame, if any, as the translate loop sends it. */
  ghost predicate Forwards(kept: TurnState, after: SessionState, e: Event, suppress: bool, tip: Option<Frame>,
                           out: seq<Frame>, turn': TurnState) {
    var frames := Translate(e, after.terminalResultSeen);
    out == Route(frames, kept.toolName, suppress, tip, after.sessionId) && turn' == kept.Seen(frames)
  }

  lemma InFlightExtend(h: seq<Event>, e: Event, r: string)
    ensures InFlight(h + [e], r) == if Matches(UpdateOf(r), e) then NonTerminal(e.status) else InFlight(h, r)
  {
    LastIndexExtend(h, e);
  }

  lemma ResultAtExtend(h: seq<Event>, e: Event, i: nat)
    ensures ResultAt(h + [e], i) <==> if i == |h| then e.TurnResult? && EndsTurn(h, e) else ResultAt(h, i)
  {
    if i <= |h| {
      assert (h + [e])[..i] == h[..i] && h[..|h|] == h;
    }
  }

  lemma ResultSeenExtend(h: seq<Event>, e: Event)
    ensures ResultSeen(h + [e]) <==> (e.TurnResult? && EndsTurn(h, e)) || (!e.TurnStarted? && ResultSeen(h))
  {
    LastIndexExtend(h, e);
    forall i: nat
      ensures ResultAt(h + [e], i) <==> if i == |h| then e.TurnResult? && EndsTurn(h, e) else ResultAt(h, i)
    {
      ResultAtExtend(h, e, i);
    }
    assert e.TurnResult? && EndsTurn(h, e) ==> ResultAt(h + [e], |h|);
    if i: nat :| LastIndex(h, Started) < i && ResultAt(h, i) {
      assert ResultAt(h + [e], i);
    }
  }

  lemma ToolFactsExtend(t: seq<Event>, e: Event, id: string)
    ensures NameOf(t + [e], id) == if Matches(CallOf(id), e) then e.name else NameOf(t, id)
    ensures IsOpen(t + [e], id) == if Matches(LifecycleOf(id), e) then e.ToolCall? else IsOpen(t, id)
    ensures LiveOutput(t + [e], id) == LiveOutput(t, id) + (if e.ToolOutputDelta? && e.id == id then e.text else "")
  {
    LastIndexExtend(t, e);
    assert (t + [e])[..|t|] == t;
  }

  lemma VisibleExtend(t: seq<Event>, e: Event)
    ensures Visible(t + [e]) <==> Visible(t) || Shows(e)
  {
    var u := t + [e];
    assert forall i :: 0 <= i < |t| ==> u[i] == t[i];
    if Visible(t) {
      var i :| 0 <= i < |t| && Shows(t[i]);
      assert Shows(u[i]);
    }
    assert Shows(u[|t|]) == Shows(e);
  }

  class Pump {
    var toolOutput: map<string, string>
    var workflowInflight: set<string>
    var toolName: map<string, string>
    var openTools: map<string, string>
    var sawVisibleOutput: bool
    var terminalResultSeen: bool
    var sessionId: Option<string>
    var sent: seq<Frame>

    ghost var history: seq<Event>
    ghost var logs: seq<seq<Frame>>

    ghost function PerTurn(): TurnState
      reads `toolName, `toolOutput, `openTools, `sawVisibleOutput
    {
      TurnState(toolName, toolOutput, openTools, sawVisibleOutput)
    }

    ghost function PerSession(): SessionState
      reads `workflowInflight, `terminalResultSeen, `sessionId
    {
      SessionState(workflowInflight, terminalResultSeen, sessionId)
    }

    ghost predicate Valid()
      reads this
    {
      Agrees(PerTurn(), PerSession(), history, logs, sent)
    }

    constructor ()
      ensures Valid() && history == [] && sent == []
    {
      toolOutput, toolName, openTools := map[], map[], map[];
      workflowInflight := {};
      sawVisibleOutput, terminalResultSeen := false, false;
      sessionId := None;
      sent, history, logs := [], [], [];
    }

    /** One backend event. */
    method Handle(e: Event)
      requires Valid()
      modifies this
      ensures Valid()
      ensures history == old(history) + [e]
      ensures |logs| == |history| && logs[..|old(logs)|] == old(logs)
      ensures sent == old(sent) + logs[|old(logs)|]
    {
      ghost var turn, session, before := PerTurn(), PerSession(), sent;
      ghost var frames := Step(e);
      Record(turn, session, before, e, frames);
    }

    /** Extend the history by `e` and its answer, once the accumulators have moved. */
    ghost method Record(turn: TurnState, session: SessionState, before: seq<Frame>, e: Event, frames: seq<Frame>)
      requires Agrees(turn, session, history, logs, before)
      requires Moves(turn, session, e, frames, PerTurn(), PerSession()) && sent == before + frames
      modifies `history, `logs
      ensures Valid() && history == old(history) + [e] && logs == old(logs) + [frames]
    {
      RunStep(turn, session, history, logs, before, e, frames, PerTurn(), PerSession());
      history, logs := history + [e], logs + [frames];
    }

    /** The loop body of the pump, in terms of its own accumulators. */
    method Step(e: Event) returns (ghost frames: seq<Frame>)
      modifies `toolOutput, `workflowInflight, `toolName, `openTools, `sawVisibleOutput, `terminalResultSeen,
               `sessionId, `sent
      ensures Moves(old(PerTurn()), old(PerSession()), e, frames, PerTurn(), PerSession())
      ensures sent == old(sent) + frames
    {
      if e.ToolOutputDelta? {
        frames := AppendOutput(e.id, e.text);
      } else if e.CatalogUpdated? {
        frames := PublishCatalog(e);
      } else {
        frames := Dispatch(e);
      }
    }

    /** Live tool output is accumulated and sent whole. */
    method AppendOutput(id: string, text: string) returns (ghost frames: seq<Frame>)
      modifies `sawVisibleOutput, `toolOutput, `sent
      ensures Moves(old(PerTurn()), old(PerSession()), ToolOutputDelta(id, text), frames, PerTurn(), PerSession())
      ensures sent == old(sent) + frames
    {
      sawVisibleOutput := true;
      var acc := Lookup(toolOutput, id) + text;
      toolOutput := toolOutput[id := acc];
      var frame := ToolFrame(id, Lookup(toolName, id), Running, None, Some(acc));
      sent := sent + [frame];
      frames := [frame];
    }

    method PublishCatalog(e: Event) returns (ghost frames: seq<Frame>)
      requires e.CatalogUpdated?
      modifies `sent
      ensures Moves(old(PerTurn()), old(PerSession()), e, frames, PerTurn(), PerSession())
      ensures sent == old(sent) + frames
    {
      frames := CatalogFrames(e);
      var options := CollectOptions(e.models, e.modes, e.picks);
      OptionsExactly(e.models, e.modes, e.picks);
      if options != [] {
        sent := sent + [ConfigOptions(options)];
      }
      if e.commands != [] {
        sent := sent + [AvailableCommands(e.commands)];
      }
    }

    static method CollectOptions(models: seq<ModelInfo>, modes: seq<string>, picks: Picks)
      returns (options: seq<ConfigOption>)
      ensures options == Options(models, modes, picks)
    {
      options := [];
      if modes != [] {
        options := options + [ConfigOption("mode", picks.mode, modes)];
      }
      if models != [] {
        options := options + [ConfigOption("model", picks.model, ModelIds(models))];
      }
      var efforts := CurrentEfforts(models, picks.model);
      if efforts != [] {
        options := options + [ConfigOption("reasoning_effort", picks.effort, efforts)];
      }
    }

    /** Every other event: bookkeeping, then the translated frame. */
    method Dispatch(e: Event) returns (ghost frames: seq<Frame>)
      requires !e.ToolOutputDelta? && !e.CatalogUpdated?
      modifies `toolOutput, `workflowInflight, `toolName, `openTools, `sawVisibleOutput, `terminalResultSeen,
               `sessionId, `sent
      ensures Moves(old(PerTurn()), old(PerSession()), e, frames, PerTurn(), PerSession())
      ensures sent == old(sent) + frames
    {
      ghost var turn, session := PerTurn(), PerSession();
      ghost var cancels;
      var suppress, tip;
      suppress, tip, cancels := Bookkeep(e);
      ghost var kept, after := PerTurn(), PerSession();
      ghost var out := Forward(e, suppress, tip);
      frames := cancels + out;
      assert sent == old(sent) + frames && PerSession() == after;
      DispatchMoves(turn, session, e, suppress, tip, cancels, kept, after, out, PerTurn());
    }

    /** Everything an event changes before its translation is sent. */
    method Bookkeep(e: Event) returns (suppress: bool, tip: Option<Frame>, ghost cancels: seq<Frame>)
      requires !e.ToolOutputDelta? && !e.CatalogUpdated?
      modifies `toolOutput, `workflowInflight, `toolName, `openTools, `sawVisibleOutput, `terminalResultSeen,
               `sessionId, `sent
      ensures Booked(old(PerTurn()), old(PerSession()), e, suppress, tip, cancels, PerTurn(), PerSession())
      ensures sent == old(sent) + cancels
    {
      TrackSubagent(e);
      suppress := e.TurnResult? && workflowInflight != {} && !e.isError && !e.outcome.Cancelled?;
      tip, cancels := TurnBoundary(e, suppress);
    }

    method TrackSubagent(e: Event)
      modifies `workflowInflight
      ensures PerSession() == old(PerSession()).(workflowInflight := old(PerSession()).Next(e, false).workflowInflight)
    {
      if e.SubagentUpdate? {
        if NonTerminal(e.status) {
          workflowInflight := workflowInflight + {e.ref};
        } else {
          workflowInflight := workflowInflight - {e.ref};
        }
      }
    }

    /** Close every call the turn left open, in whatever order the table yields them. */
    method DrainOpenTools() returns (ghost frames: seq<Frame>)
      modifies `openTools, `sent
      ensures openTools == map[]
      ensures ClosesAll(old(openTools), frames)
      ensures sent == old(sent) + frames
    {
      frames := [];
      ghost var order: seq<string> := [];
      while openTools != map[]
        invariant openTools.Keys <= old(openTools).Keys
        invariant forall id :: id in openTools ==> openTools[id] == old(openTools)[id]
        invariant NoDuplicates(order)
        invariant forall id :: id in order <==> id in old(openTools) && id !in openTools
        invariant |frames| == |order|
        invariant forall i :: 0 <= i < |order| ==>
                    frames[i] == ToolFrame(order[i], old(openTools)[order[i]], Canceled, None, None)
        invariant sent == old(sent) + frames
        decreases openTools.Keys
      {
        var id :| id in openTools;
        var frame := ToolFrame(id, openTools[id], Canceled, None, None);
        sent := sent + [frame];
        openTools := openTools - {id};
        order, frames := order + [id], frames + [frame];
      }
      assert ListsClosed(old(openTools), order, frames);
    }

    /** The status match: turn boundaries, tool lifecycle and the session id. */
    method TurnBoundary(e: Event, suppress: bool) returns (tip: Option<Frame>, ghost cancels: seq<Frame>)
      requires !e.ToolOutputDelta?
      modifies `terminalResultSeen, `toolName, `openTools, `toolOutput, `sawVisibleOutput, `sessionId, `sent
      ensures var ends := IsTerminal(e) && !suppress;
              && terminalResultSeen == old(PerSession()).Next(e, ends).terminalResultSeen
              && sessionId == old(PerSession()).Next(e, ends).sessionId
              && PerTurn() == (if ends then FRESH_TURN
                               else old(PerTurn()).Next(e).(sawVisibleOutput := old(sawVisibleOutput)))
              && tip == (if ends && e.TurnResult? && !e.isError && !old(sawVisibleOutput) then EmptyTurnTip(e.outcome)
                         else None)
              && (if ends then ClosesAll(old(openTools), cancels) else cancels == [])
              && sent == old(sent) + cancels
    {
      tip, cancels := None, [];
      match e {
        case TurnStarted =>
          terminalResultSeen := false;
        case ToolCall(id, name, _) =>
          toolName := toolName[id := name];
          openTools := openTools[id := name];
        case ToolResult(id, _, _) =>
          openTools := openTools - {id};
        case TurnResult(isError, _, outcome) =>
          if !suppress {
            cancels := DrainOpenTools();
            terminalResultSeen := true;
            if !isError && !sawVisibleOutput {
              tip := EmptyTurnTip(outcome);
            }
            toolOutput, toolName := map[], map[];
            sawVisibleOutput := false;
          }
        case Detached(_, _) =>
          if !suppress {
            cancels := DrainOpenTools();
            toolOutput, toolName := map[], map[];
            sawVisibleOutput := false;
          }
        case BackendBound(Some(id)) =>
          sessionId := Some(id);
        case _ =>
      }
    }

    /** Give a nameless tool frame the remembered name; learn the name of a named one. */
    method StampToolName(f: Frame) returns (g: Frame)
      modifies `toolName
      ensures g == if f.ToolFrame? && f.name == "" then f.(name := Lookup(old(toolName), f.callId)) else f
      ensures toolName == if f.ToolFrame? && f.name != "" then old(toolName)[f.callId := f.name] else old(toolName)
    {
      g := f;
      if f.ToolFrame? {
        if f.name == "" {
          if f.callId in toolName {
            g := f.(name := toolName[f.callId]);
          }
        } else {
          toolName := toolName[f.callId := f.name];
        }
      }
    }

    /** The translate loop: at most one frame, then nothing. */
    method Forward(e: Event, suppress: bool, tip: Option<Frame>) returns (ghost out: seq<Frame>)
      modifies `toolName, `sawVisibleOutput, `sent
      ensures Forwards(old(PerTurn()), PerSession(), e, suppress, tip, out, PerTurn())
      ensures sent == old(sent) + out
    {
      var frames := Translate(e, terminalResultSeen);
      var pending := tip;
      var i := 0;
      while i < |frames|
        invariant 0 <= i <= |frames|
        invariant i == 0 ==> pending == tip && PerTurn() == old(PerTurn()) && sent == old(sent)
        invariant i == 1 ==> PerTurn() == old(PerTurn()).Seen(frames)
                             && sent == old(sent) + Route(frames, old(toolName), suppress, tip, sessionId)
      {
        assert frames == [frames[0]];
        pending := ForwardOne(frames[i], suppress, pending);
        i := i + 1;
      }
      out := Route(frames, old(toolName), suppress, tip, sessionId);
    }

    /** One frame: stamp, tip, suppression and the session id on Finish. */
    method ForwardOne(frame: Frame, suppress: bool, tip: Option<Frame>) returns (pending: Option<Frame>)
      requires frame.Finish? ==> frame.sessionId.None?
      modifies `toolName, `sawVisibleOutput, `sent
      ensures PerTurn() == old(PerTurn()).Seen([frame])
      ensures sent == old(sent) + Route([frame], old(toolName), suppress, tip, sessionId)
      ensures pending == if frame.Finish? then None else tip
    {
      pending := tip;
      var f := StampToolName(frame);
      if UserVisible(f) {
        sawVisibleOutput := true;
      }
      if f.Finish? && pending.Some? {
        sent := sent + [pending.value];
        pending := None;
      }
      if f.Finish? && suppress {
        sent := sent + [SegmentBreak];
        return;
      }
      if f.Finish? && f.sessionId.None? {
        f := Finish(sessionId);
      }
      sent := sent + [f];
    }
  }

  // ----- the accumulators are folds of the history -----

  lemma InFlightIsTracked(h: seq<Event>, r: string)
    ensures r in SessionOf(h).workflowInflight <==> InFlight(h, r)
  {
  }

  lemma SuppressesAgrees(h: seq<Event>, e: Event)
    ensures SessionOf(h).Suppresses(e) == Suppressed(h, e) && SessionOf(h).Ends(e) == EndsTurn(h, e)
  {
    if r :| r in SessionOf(h).workflowInflight {
      InFlightIsTracked(h, r);
    }
    if r :| InFlight(h, r) {
      InFlightIsTracked(h, r);
    }
  }

  lemma InFlightSetExtend(h: seq<Event>, e: Event)
    ensures SessionOf(h + [e]).workflowInflight == SessionOf(h).Next(e, false).workflowInflight
  {
    var was, now := SessionOf(h).Next(e, false).workflowInflight, SessionOf(h + [e]).workflowInflight;
    forall r ensures r in now <==> r in was {
      InFlightExtend(h, e, r);
      InFlightIsTracked(h, r);
      InFlightIsTracked(h + [e], r);
    }
  }

  lemma BoundIdExtend(h: seq<Event>, e: Event)
    ensures BoundId(h + [e]) == if Matches(Bound, e) then e.backendId else BoundId(h)
  {
    LastIndexExtend(h, e);
  }

  lemma SessionOfExtend(h: seq<Event>, e: Event)
    ensures SessionOf(h + [e]) == SessionOf(h).Next(e, EndsTurn(h, e))
  {
    InFlightSetExtend(h, e);
    ResultSeenExtend(h, e);
    BoundIdExtend(h, e);
  }

  lemma NamesTracked(t: seq<Event>, id: string)
    ensures id in CalledIds(t) <==> LastIndex(t, CallOf(id)) >= 0
    ensures Lookup(Names(t), id) == NameOf(t, id)
    ensures IsOpen(t, id) ==> id in CalledIds(t)
  {
    if id in CalledIds(t) {
      var e :| e in t && e.ToolCall? && e.id == id;
      assert Matches(CallOf(id), e);
    }
  }

  lemma OutputTracked(t: seq<Event>, id: string)
    ensures Lookup(Outputs(t), id) == LiveOutput(t, id)
  {
    if id !in StreamedIds(t) {
      NoDeltas(t, id);
    }
  }

  lemma {:induction false} NoDeltas(t: seq<Event>, id: string)
    requires id !in StreamedIds(t)
    ensures LiveOutput(t, id) == ""
  {
    if t != [] {
      var p := t[..|t| - 1];
      assert StreamedIds(p) <= StreamedIds(t);
      assert t[|t| - 1] in t;
      NoDeltas(p, id);
    }
  }

  lemma IdsExtend(t: seq<Event>, e: Event)
    ensures CalledIds(t + [e]) == CalledIds(t) + (if e.ToolCall? then {e.id} else {})
    ensures StreamedIds(t + [e]) == StreamedIds(t) + (if e.ToolOutputDelta? then {e.id} else {})
  {
    assert forall x :: x in t + [e] <==> x in t || x == e;
  }

  lemma NamesExtend(t: seq<Event>, e: Event)
    ensures Names(t + [e]) == if e.ToolCall? then Names(t)[e.id := e.name] else Names(t)
  {
    IdsExtend(t, e);
    forall id | id in CalledIds(t + [e])
      ensures NameOf(t + [e], id) == if Matches(CallOf(id), e) then e.name else NameOf(t, id)
    {
      ToolFactsExtend(t, e, id);
    }
  }

  lemma OutputsExtend(t: seq<Event>, e: Event)
    ensures Outputs(t + [e]) == if e.ToolOutputDelta? then Outputs(t)[e.id := Lookup(Outputs(t), e.id) + e.text]
            else Outputs(t)
  {
    var want := if e.ToolOutputDelta? then Outputs(t)[e.id := Lookup(Outputs(t), e.id) + e.text] else Outputs(t);
    forall id
      ensures id in Outputs(t + [e]) <==> id in want
      ensures id in want ==> Outputs(t + [e])[id] == want[id]
    {
      OutputExtend(t, e, id);
    }
    SameMap(Outputs(t + [e]), want);
  }

  lemma OutputExtend(t: seq<Event>, e: Event, id: string)
    ensures id in Outputs(t + [e]) <==> id in Outputs(t) || (e.ToolOutputDelta? && e.id == id)
    ensures id in Outputs(t + [e]) ==>
              Outputs(t + [e])[id] == if e.ToolOutputDelta? && e.id == id then Lookup(Outputs(t), id) + e.text
                else Outputs(t)[id]
  {
    IdsExtend(t, e);
    ToolFactsExtend(t, e, id);
    OutputTracked(t, id);
    assert LiveOutput(t, id) + "" == LiveOutput(t, id);
  }

  lemma OpensExtend(t: seq<Event>, e: Event)
    ensures Opens(t + [e])
            == if e.ToolCall? then Opens(t)[e.id := e.name] else if e.ToolResult? then Opens(t) - {e.id} else Opens(t)
  {
    var want := if e.ToolCall? then Opens(t)[e.id := e.name] else if e.ToolResult? then Opens(t) - {e.id} else Opens(t);
    forall id
      ensures id in Opens(t + [e]) <==> id in want
      ensures id in want ==> Opens(t + [e])[id] == want[id]
    {
      OpenExtend(t, e, id);
    }
    SameMap(Opens(t + [e]), want);
  }

  lemma SameMap(a: map<string, string>, b: map<string, string>)
    requires forall k :: k in a <==> k in b
    requires forall k :: k in b ==> a[k] == b[k]
    ensures a == b
  {
  }

  lemma OpenExtend(t: seq<Event>, e: Event, id: string)
    ensures id in Opens(t + [e]) <==> if Matches(LifecycleOf(id), e) then e.ToolCall? else id in Opens(t)
    ensures id in Opens(t + [e]) ==>
              Opens(t + [e])[id] == if Matches(CallOf(id), e) then e.name else Opens(t)[id]
  {
    IdsExtend(t, e);
    ToolFactsExtend(t, e, id);
    NamesTracked(t, id);
  }

  lemma TurnOfExtend(t: seq<Event>, e: Event)
    ensures TurnOf(t + [e]) == TurnOf(t).Next(e)
  {
    NamesExtend(t, e);
    OutputsExtend(t, e);
    OpensExtend(t, e);
    VisibleExtend(t, e);
  }

  // ----- the accumulator-level answer is the one the history calls for -----

  lemma ClosingIsOwed(h: seq<Event>, e: Event)
    requires EndsTurn(h, e) && SessionOf(h).Ends(e)
    ensures Routed(TurnOf(Turn(h)), SessionOf(h), e) == Closing(h, e)
  {
  }

  lemma OrdinaryIsOwed(h: seq<Event>, e: Event, frames: seq<Frame>)
    requires !EndsTurn(h, e) && !SessionOf(h).Ends(e)
    requires Sends(TurnOf(Turn(h)), SessionOf(h), e, frames)
    ensures frames == Ordinary(h, e)
  {
    var turn, session := TurnOf(Turn(h)), SessionOf(h);
    if e.ToolOutputDelta? {
      NamesTracked(Turn(h), e.id);
      OutputTracked(Turn(h), e.id);
    } else if e.ToolResult? {
      NamesTracked(Turn(h), e.id);
      ResultRoutes(turn, session, e);
    } else if !e.CatalogUpdated? {
      OtherRoutes(turn, session, e);
    }
  }

  lemma ResultRoutes(turn: TurnState, session: SessionState, e: Event)
    requires e.ToolResult?
    ensures Routed(turn, session, e)
            == [ToolFrame(e.id, Lookup(turn.toolName, e.id), if e.failed then Error else Succeeded, None,
                          NonEmpty(ResultText(e.content)))]
  {
  }

  lemma OtherRoutes(turn: TurnState, session: SessionState, e: Event)
    requires !e.ToolOutputDelta? && !e.CatalogUpdated? && !e.ToolResult? && !session.Ends(e)
    ensures Routed(turn, session, e) == if e.TurnResult? then [SegmentBreak] else Translate(e, false)
  {
  }

  lemma CancelsAreOwed(t: seq<Event>, order: seq<string>, cancels: seq<Frame>)
    requires ListsClosed(Opens(t), order, cancels)
    ensures ListsOpen(t, order) && CancelsFor(t, order, cancels)
  {
    forall id ensures id in order <==> IsOpen(t, id) {
      NamesTracked(t, id);
    }
  }

  lemma AnswerIsOwed(h: seq<Event>, e: Event, frames: seq<Frame>)
    requires Sends(TurnOf(Turn(h)), SessionOf(h), e, frames)
    ensures Answers(h, e, frames)
  {
    var turn, session := TurnOf(Turn(h)), SessionOf(h);
    SuppressesAgrees(h, e);
    if session.Ends(e) {
      var cancels :| ClosesAll(turn.openTools, cancels) && frames == cancels + Routed(turn, session, e);
      var order :| ListsClosed(turn.openTools, order, cancels);
      CancelsAreOwed(Turn(h), order, cancels);
      ClosingIsOwed(h, e);
    } else {
      OrdinaryIsOwed(h, e, frames);
    }
  }

  lemma RoutedAgrees(turn: TurnState, session: SessionState, e: Event, suppress: bool, tip: Option<Frame>,
                     cancels: seq<Frame>, kept: TurnState, after: SessionState)
    requires !e.ToolOutputDelta? && Booked(turn, session, e, suppress, tip, cancels, kept, after)
    ensures var frames := Translate(e, after.terminalResultSeen);
            && Route(frames, kept.toolName, suppress, tip, after.sessionId) == Routed(turn, session, e)
            && kept.Seen(frames) == if session.Ends(e) then FRESH_TURN else turn.Next(e)
  {
  }

  /** The translate loop runs after the bookkeeping; what it reads from it is the same. */
  lemma DispatchMoves(turn: TurnState, session: SessionState, e: Event, suppress: bool, tip: Option<Frame>,
                      cancels: seq<Frame>, kept: TurnState, after: SessionState, out: seq<Frame>, turn': TurnState)
    requires !e.ToolOutputDelta? && !e.CatalogUpdated? && Booked(turn, session, e, suppress, tip, cancels, kept, after)
    requires Forwards(kept, after, e, suppress, tip, out, turn')
    ensures Moves(turn, session, e, cancels + out, turn', after)
  {
    RoutedAgrees(turn, session, e, suppress, tip, cancels, kept, after);
    assert cancels == [] ==> cancels + out == out;
  }

  /** One step of the accumulators extends the run. */
  lemma RunStep(turn: TurnState, session: SessionState, h: seq<Event>, logs: seq<seq<Frame>>, sent: seq<Frame>,
                e: Event, frames: seq<Frame>, turn': TurnState, session': SessionState)
    requires Agrees(turn, session, h, logs, sent) && Moves(turn, session, e, frames, turn', session')
    ensures Agrees(turn', session', h + [e], logs + [frames], sent + frames)
  {
    SuppressesAgrees(h, e);
    SessionOfExtend(h, e);
    TurnExtend(h, e);
    if EndsTurn(h, e) {
      assert TurnOf([]) == FRESH_TURN;
    } else {
      TurnOfExtend(Turn(h), e);
    }
    AnswerIsOwed(h, e, frames);
    RunExtend(h, logs, e, frames);
  }
}
