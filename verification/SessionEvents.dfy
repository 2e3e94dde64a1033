/** The backend event vocabulary, the frames sent to the relay, and the stateless translation. */
module SessionEvents {
  import opened Common
  import opened CatalogOptions

  datatype SubagentStatus = PendingInit | Active | Interrupted | Done | Errored | Shutdown

  datatype TruncationKind = MaxTokens | ContextWindow | MaxTurns | Budget | WireEnd

  datatype StopReason = Ended | Truncated(kind: TruncationKind) | Refused(category: Option<string>)

  datatype CancelReason = UserCancel | BargeIn | SocketAbort | ToolDenyChain

  datatype TurnOutcome = Completed(stop: StopReason) | Cancelled(reason: CancelReason) | Failed | EndTurn

  datatype ExitStatus = ExitStatus(code: Option<int>, signal: Option<int>)

  datatype ResultPart = TextPart(text: string) | OtherPart

  datatype Event =
    | TurnStarted
    | MessageDelta(text: string)
    | ThoughtDelta(text: string)
    | ToolCall(id: string, name: string, input: string)
    | ToolResult(id: string, failed: bool, content: seq<ResultPart>)
    | ToolOutputDelta(id: string, text: string)
    | SubagentUpdate(ref: string, status: SubagentStatus)
    | TurnResult(isError: bool, text: string, outcome: TurnOutcome)
    | Detached(exit: Option<ExitStatus>, summary: Option<string>)
    | BackendBound(backendId: Option<string>)
    | CatalogUpdated(models: seq<ModelInfo>, modes: seq<string>, commands: seq<string>, picks: Picks)
    | Permission(request: string)
    | Plan(entries: seq<string>)
    | UsageDelta(total: nat)
    | Notice(warning: bool, message: string)
    | ConfigChanged(mode: Option<string>, model: Option<string>)
    | OtherEvent

  datatype ToolStatus = Running | Succeeded | Error | Canceled

  datatype TipLevel = Info | Warning

  datatype ErrorData = Upstream(detail: string) | Disconnected(exit: Option<ExitStatus>, summary: Option<string>)

  datatype Frame =
    | Text(content: string)
    | Thinking(content: string)
    | ToolFrame(callId: string, name: string, status: ToolStatus, input: Option<string>, output: Option<string>)
    | PermissionCard(request: string)
    | PlanCard(entries: seq<string>)
    | ContextUsage(total: nat)
    | ConfigOptions(options: seq<ConfigOption>)
    | AvailableCommands(commands: seq<string>)
    | Tips(level: TipLevel, content: string, code: Option<string>)
    | Finish(sessionId: Option<string>)
    | ErrorFrame(data: ErrorData)
    | SegmentBreak

  predicate NonTerminal(s: SubagentStatus) {
    s.PendingInit? || s.Active?
  }

  /** Exit code 0 without a signal. */
  predicate CleanZero(exit: Option<ExitStatus>) {
    exit == Some(ExitStatus(Some(0), None))
  }

  datatype CrashVerdict = Crashed | CleanNoResult | FollowResult

  function CrashOutcome(terminalResultSeen: bool, exit: Option<ExitStatus>): CrashVerdict {
    if terminalResultSeen then FollowResult
    else match exit
      case Some(ExitStatus(Some(code), None)) => if code == 0 then CleanNoResult else Crashed
      case _ => Crashed
  }

  /** An error result that the user did not ask for and that says something. */
  predicate GenuineError(e: Event)
    requires e.TurnResult?
  {
    e.isError && !e.outcome.Cancelled? && Trim(e.text) != ""
  }

  function ResultText(content: seq<ResultPart>): string {
    if content == [] then ""
    else
      var rest := ResultText(content[..|content| - 1]);
      match content[|content| - 1]
      case TextPart(t) => (if rest != "" then rest + "\n" else rest) + t
      case OtherPart => rest
  }

  /** Texts are joined by line breaks, none before the first; other parts are left out. */
  lemma ResultTextExtend(content: seq<ResultPart>, text: string)
    ensures ResultText([]) == ""
    ensures ResultText(content + [OtherPart]) == ResultText(content)
    ensures ResultText(content + [TextPart(text)])
            == if ResultText(content) == "" then text else ResultText(content) + "\n" + text
  {
    assert (content + [OtherPart])[..|content|] == content && (content + [TextPart(text)])[..|content|] == content;
    assert "" + text == text;
  }

  function NonEmpty(s: string): Option<string> {
    if s == "" then None else Some(s)
  }

  function NonBlank(s: Option<string>): Option<string> {
    if s.Some? && Trim(s.value) == "" then None else s
  }

  /** Every ending but a cancellation has a coded tip; a normal ending's is informational. */
  function EmptyTurnTip(outcome: TurnOutcome): (tip: Option<Frame>)
    ensures tip.Some? <==> !outcome.Cancelled?
    ensures tip.Some? ==> tip.value.Tips? && tip.value.code.Some?
    ensures tip.Some? ==> (tip.value.level == Info <==> outcome.EndTurn? || outcome == Completed(Ended))
  {
    match outcome
    case EndTurn => Some(Tips(Info, "", Some("ACP_EMPTY_TURN")))
    case Completed(Ended) => Some(Tips(Info, "", Some("ACP_EMPTY_TURN")))
    case Completed(Truncated(MaxTokens)) => Some(Tips(Warning, "", Some("ACP_EMPTY_TURN_MAX_TOKENS")))
    case Completed(Truncated(MaxTurns)) => Some(Tips(Warning, "", Some("ACP_EMPTY_TURN_MAX_TURN_REQUESTS")))
    case Completed(Refused(_)) => Some(Tips(Warning, "", Some("ACP_EMPTY_TURN_REFUSAL")))
    case Completed(_) => Some(Tips(Warning, "", Some("ACP_EMPTY_TURN")))
    case Failed => Some(Tips(Warning, "", Some("ACP_EMPTY_TURN")))
    case Cancelled(_) => None
  }

  /** The cause is named by the code where there is one for it. */
  lemma EmptyTurnTipCode(outcome: TurnOutcome)
    requires !outcome.Cancelled?
    ensures EmptyTurnTip(outcome).value.code
            == Some(if outcome.Completed? && outcome.stop.Refused? then "ACP_EMPTY_TURN_REFUSAL"
                    else if outcome == Completed(Truncated(MaxTokens)) then "ACP_EMPTY_TURN_MAX_TOKENS"
                    else if outcome == Completed(Truncated(MaxTurns)) then "ACP_EMPTY_TURN_MAX_TURN_REQUESTS"
                    else "ACP_EMPTY_TURN")
  {
  }

  predicate UserVisible(f: Frame) {
    f.Text? || f.Thinking? || f.ToolFrame? || f.PlanCard? || f.PermissionCard?
  }

  /** The stateless projection of one event; at most one frame. */
  function Translate(e: Event, terminalResultSeen: bool): (frames: seq<Frame>)
    ensures |frames| <= 1
    ensures e.TurnResult? || e.Detached? <==> exists f :: f in frames && (f.Finish? || f.ErrorFrame?)
  {
    match e
    case MessageDelta(text) => [Text(text)]
    case ThoughtDelta(text) => [Thinking(text)]
    case ToolCall(id, name, input) => [ToolFrame(id, name, Running, Some(input), None)]
    case ToolResult(id, failed, content) =>
      [ToolFrame(id, "", if failed then Error else Succeeded, None, NonEmpty(ResultText(content)))]
    case TurnResult(_, text, _) =>
      var f := if GenuineError(e) then ErrorFrame(Upstream(text)) else Finish(None);
      assert f in [f];
      [f]
    case Detached(exit, summary) =>
      var f := if CrashOutcome(terminalResultSeen, exit).Crashed? then ErrorFrame(Disconnected(exit, NonBlank(summary)))
               else Finish(None);
      assert f in [f];
      [f]
    case Permission(request) => [PermissionCard(request)]
    case Plan(entries) => [PlanCard(entries)]
    case UsageDelta(total) => [ContextUsage(total)]
    case Notice(warning, message) => [Tips(if warning then Warning else Info, message, None)]
    case _ => []
  }
}
