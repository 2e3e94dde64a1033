/** Catalog rows of the agent registry and the rules that decide whether a row is available. */
module AgentRows {
  import opened Common
  import opened AgentTypes

  datatype Source = Internal | Builtin | Extension | Custom
  datatype CheckStatus = Online | Offline
  datatype CheckKind = Startup | Scheduled | Manual | Session

  /** The persisted result of the latest health check. */
  datatype Snapshot = Snapshot(
    status: Option<CheckStatus>, kind: Option<CheckKind>, code: Option<string>, message: Option<string>,
    guidance: Option<string>, latency: Option<int>, at: Option<int>, successAt: Option<int>, failureAt: Option<int>)

  datatype Meta = Meta(
    enabled: bool, agentType: AgentType, source: Source, backend: Option<string>,
    command: Option<string>, overridden: bool, binary: Option<string>, bridge: Option<string>,
    handshake: string, snapshot: Snapshot, available: bool, resolved: Option<string>)

  /** A stored row; one whose type or source is unknown cannot be decoded. */
  datatype Row = Row(decodable: bool, meta: Meta)

  datatype Reason =
    | Disabled | NoCommand | BridgeMissing(bridge: string) | PrimaryMissing(binary: string)
    | PrimaryUnusable(binary: string, detail: string) | CommandMissing(command: string)
    | RuntimeUnavailable(resource: string, detail: string)

  datatype Failure =
    | NothingToProbe | NotFound(command: string) | LookupFailed(detail: string)
    | VersionFailed(detail: string, duration: string) | VersionTimeout(budget: string)
  {
    function Code(): string {
      match this
      case NothingToProbe => "command_not_found"
      case NotFound(_) => "command_not_found"
      case LookupFailed(_) => "package_lock_invalid"
      case VersionFailed(_, _) => "version_probe_failed"
      case VersionTimeout(_) => "version_probe_timeout"
    }

    function Detail(): string {
      match this
      case NothingToProbe => "agent has no CLI command to probe"
      case NotFound(command) => "`" + command + "` not found on PATH"
      case LookupFailed(detail) => detail
      case VersionFailed(detail, duration) => "version_probe_failed (" + duration + "ms): " + detail
      case VersionTimeout(budget) =>
        "version_probe_timeout@" + budget
        + "ms: `--version` timed out (slow load, not proof of corruption)"
    }
  }

  datatype Probe = Passed | Failed(failure: Failure)

  datatype Outcome = NotProbed | Settled | PendingRecheck

  /** What one candidate turned into. */
  datatype Verdict = Verdict(meta: Meta, reason: Option<Reason>, outcome: Outcome)

  datatype ManagementStatus = MissingAgent | Unchecked | OnlineAgent | OfflineAgent

  function OrElse(a: Option<string>, b: Option<string>): Option<string> {
    if a.Some? then a else b
  }

  predicate Blank(s: Option<string>) {
    s.None? || s.value == ""
  }

  function CommandName(m: Meta): Option<string> {
    if m.overridden && !Blank(m.command) then m.command else OrElse(m.binary, m.command)
  }

  predicate InternalCommandless(m: Meta) {
    m.enabled && m.command.None? && (m.source == Internal || m.agentType == A2a)
  }

  predicate ManagedBuiltin(m: Meta) {
    m.source == Builtin && (m.backend == Some("claude") || m.backend == Some("codex"))
  }

  /** Resolve the spawn command; the first missing piece is the reason. `path` is the PATH lookup. */
  function Resolve(m: Meta, path: string -> Option<string>): (Option<string>, Option<Reason>) {
    if !m.enabled then (None, Some(Disabled))
    else if ManagedBuiltin(m) then
      match CommandName(m)
      case None => (None, Some(NoCommand))
      case Some(primary) => if path(primary).Some? then (path(primary), None) else (None, Some(PrimaryMissing(primary)))
    else if Blank(m.command) then (None, Some(NoCommand))
    else if m.bridge.Some? && m.bridge != m.command && path(m.bridge.value).None?
    then (None, Some(BridgeMissing(m.bridge.value)))
    else if m.binary.Some? && m.binary != m.command && m.bridge != m.binary && path(m.binary.value).None?
    then (None, Some(PrimaryMissing(m.binary.value)))
    else if path(m.command.value).Some? then (path(m.command.value), None)
    else (None, Some(CommandMissing(m.command.value)))
  }

  /** Builtin claude and codex rows run the vendor's program itself. */
  predicate RunsVendor(m: Meta) {
    m.source.Builtin? && m.backend in {Some("claude"), Some("codex")}
  }

  /** That program: an overriding command first, then the recorded binary, then the command. */
  function Vendor(m: Meta): Option<string> {
    match (m.overridden, m.command, m.binary)
    case (true, Some(command), _) => if command != "" then Some(command) else if m.binary.Some? then m.binary
      else Some("")
    case (_, _, Some(binary)) => Some(binary)
    case (_, command, None) => command
  }

  /** The program a row is started with, if it names one. */
  function Program(m: Meta): Option<string> {
    if RunsVendor(m) then Vendor(m) else if m.command == Some("") then None else m.command
  }

  /** Every program a row cannot run without. */
  function Needed(m: Meta): set<string> {
    if RunsVendor(m) then AsSet(Vendor(m))
    else AsSet(m.command) + AsSet(m.bridge) + AsSet(m.binary)
  }

  function AsSet(s: Option<string>): set<string> {
    if s.Some? then {s.value} else {}
  }

  /**
    A row resolves exactly if it is enabled, names a program and everything it needs is on the PATH; else there is a
    reason.
   */
  lemma ResolveExactly(m: Meta, path: string -> Option<string>)
    ensures var (found, reason) := Resolve(m, path);
            && (found.Some? <==> m.enabled && Program(m).Some? && forall c :: c in Needed(m) ==> path(c).Some?)
            && (found.Some? ==> found == path(Program(m).value))
            && (found.Some? <==> reason.None?)
  {
    assert RunsVendor(m) <==> ManagedBuiltin(m);
    assert m.bridge.Some? && !RunsVendor(m) ==> m.bridge.value in Needed(m);
    assert m.binary.Some? && !RunsVendor(m) ==> m.binary.value in Needed(m);
    assert Program(m).Some? ==> Program(m).value in Needed(m);
  }

  /** The reason names what is missing: nothing else that comes before it is. */
  lemma ReasonExactly(m: Meta, path: string -> Option<string>)
    requires Resolve(m, path).1.Some?
    ensures var reason := Resolve(m, path).1.value;
            && (reason.Disabled? <==> !m.enabled)
            && (reason.NoCommand? <==> m.enabled && Program(m).None?)
            && (reason.BridgeMissing? ==> m.bridge == Some(reason.bridge) && path(reason.bridge).None?)
            && (reason.PrimaryMissing? ==>
                  && path(reason.binary).None?
                  && (RunsVendor(m) ==> Vendor(m) == Some(reason.binary))
                  && (!RunsVendor(m) ==>
                        && m.binary == Some(reason.binary)
                        && (m.bridge.Some? && m.bridge != m.command ==> path(m.bridge.value).Some?)))
            && (reason.CommandMissing? ==>
                  && m.command == Some(reason.command) && path(reason.command).None?
                  && (m.bridge.Some? && m.bridge != m.command ==> path(m.bridge.value).Some?)
                  && (m.binary.Some? && m.binary != m.command ==> path(m.binary.value).Some?))
            && !reason.PrimaryUnusable? && !reason.RuntimeUnavailable?
  {
  }

  /** Availability from a live lookup, with the reason if there is none. */
  function Located(m: Meta, path: string -> Option<string>): (Meta, Option<Reason>) {
    var (found, reason) := Resolve(m, path);
    var available := found.Some? || InternalCommandless(m);
    (m.(resolved := found, available := available), if available then None else reason)
  }

  /** The stored history says the version probe is too slow to run inline. */
  predicate SlowHistory(s: Snapshot, threshold: int) {
    || s.code == Some("version_probe_timeout")
    || (s.kind == Some(Startup) && s.latency.Some? && s.latency.value > threshold)
  }

  /** The inline version probe applies to this candidate. */
  predicate Probeable(m: Meta) {
    m.available && m.source == Builtin && CommandName(m).Some?
  }

  predicate ProbesInline(m: Meta, threshold: int) {
    Probeable(m) && !SlowHistory(m.snapshot, threshold)
  }

  /** Refine a located candidate by its inline version probe. */
  function Validate(m: Meta, reason: Option<Reason>, threshold: int, probe: Probe): Verdict {
    if !Probeable(m) then Verdict(m, reason, NotProbed)
    else if SlowHistory(m.snapshot, threshold) then Verdict(m, None, PendingRecheck)
    else
      match probe
      case Passed => Verdict(m, None, Settled)
      case Failed(VersionTimeout(_)) => Verdict(m, None, PendingRecheck)
      case Failed(VersionFailed(detail, duration)) =>
        var failure := VersionFailed(detail, duration);
        Verdict(m.(snapshot := m.snapshot.(status := Some(Offline), kind := Some(Startup),
                                           code := Some(failure.Code()), message := Some(failure.Detail()))),
                None, Settled)
      case Failed(failure) =>
        Verdict(m.(available := false, resolved := None),
                Some(PrimaryUnusable(CommandName(m).value, failure.Detail())), Settled)
  }

  /** A row fresh from the database: nothing resolved yet. */
  function Decode(row: Row): Meta {
    row.meta.(available := false, resolved := None)
  }

  /** Hydrating one row. */
  function Probed(row: Row, path: string -> Option<string>, threshold: int, probe: Probe): Verdict {
    var (m, reason) := Located(Decode(row), path);
    Validate(m, reason, threshold, probe)
  }

  /** Refreshing one cached row. */
  function Reprobed(m: Meta, path: string -> Option<string>, threshold: int, probe: Probe): Verdict {
    var (n, reason) := Located(m, path);
    Validate(n, reason, threshold, probe)
  }

  /** The outcome of the version probe matters exactly for the rows that are probed inline. */
  lemma InlineProbeMattersExactly(row: Row, path: string -> Option<string>, threshold: int)
    ensures ProbesInline(Located(Decode(row), path).0, threshold)
            <==> exists p, q :: Probed(row, path, threshold, p) != Probed(row, path, threshold, q)
  {
    if ProbesInline(Located(Decode(row), path).0, threshold) {
      assert Probed(row, path, threshold, Passed).outcome == Settled;
      assert Probed(row, path, threshold, Failed(VersionTimeout(""))).outcome == PendingRecheck;
    }
  }

  predicate HasSnapshot(s: Snapshot) {
    s.status.Some? || s.kind.Some? || s.code.Some? || s.at.Some? || s.successAt.Some? || s.failureAt.Some?
  }

  predicate SaysMissing(s: Snapshot) {
    s.code.Some? && s.code.value in {"command_not_found", "command_missing", "primary_missing", "bridge_missing",
                                     "managed_runtime_unavailable", "no_command", "disabled"}
  }

  function CachedReason(m: Meta): Option<Reason> {
    if m.snapshot.code.None? then None
    else
      var code := m.snapshot.code.value;
      if code == "disabled" then Some(Disabled)
      else if code == "no_command" then Some(NoCommand)
      else if code == "bridge_missing" then (if m.bridge.Some? then Some(BridgeMissing(m.bridge.value)) else None)
      else if code == "primary_missing" then (if m.binary.Some? then Some(PrimaryMissing(m.binary.value)) else None)
      else if code == "command_not_found" || code == "command_missing" then
        Some(CommandMissing(OrElse(m.binary, m.command).GetOr("command")))
      else if code == "managed_runtime_unavailable" then
        Some(RuntimeUnavailable(m.backend.GetOr("runtime"),
                                m.snapshot.message.GetOr("上次健康检查时托管运行时不可用")))
      else None
  }

  /** Availability from the stored snapshot only. */
  function Remembered(m: Meta): (Meta, Option<Reason>) {
    if !m.enabled then (m.(available := false), Some(Disabled))
    else if InternalCommandless(m) then (m.(available := true), None)
    else if SaysMissing(m.snapshot) then (m.(available := false), CachedReason(m))
    else if !HasSnapshot(m.snapshot) then
      (m.(available := false), if !ManagedBuiltin(m) && Blank(m.command) then Some(NoCommand) else None)
    else (m.(available := true), None)
  }

  function StatusOf(m: Meta, reason: Option<Reason>): ManagementStatus {
    if !m.available then (if reason.Some? || HasSnapshot(m.snapshot) then MissingAgent else Unchecked)
    else if InternalCommandless(m) then OnlineAgent
    else
      match m.snapshot.status
      case Some(Offline) => OfflineAgent
      case Some(Online) => OnlineAgent
      case None => Unchecked
  }

  /**
    A reason comes only with an unavailable row, an unavailable row always with a reason, a resolved command only
    with an available row.
   */
  predicate Coherent(v: Verdict) {
    && (v.meta.available <==> v.reason.None?)
    && (v.meta.resolved.Some? ==> v.meta.available)
    && (v.outcome == PendingRecheck ==> v.meta.available)
  }

  lemma ReprobedCoherent(m: Meta, path: string -> Option<string>, threshold: int, probe: Probe)
    ensures Coherent(Reprobed(m, path, threshold, probe))
  {
  }

  /** Everything the row needs is there. */
  predicate Installed(m: Meta, path: string -> Option<string>) {
    m.enabled && Program(m).Some? && forall c :: c in Needed(m) ==> path(c).Some?
  }

  /** A probe result that proves the program unusable. */
  predicate Unusable(probe: Probe) {
    probe.Failed? && !probe.failure.VersionFailed? && !probe.failure.VersionTimeout?
  }

  /** Some enabled rows need no program: internal ones and A2A ones that name none. */
  predicate NeedsNoProgram(m: Meta) {
    m.enabled && m.command == None && (m.source.Internal? || m.agentType.A2a?)
  }

  /**
    The version probe runs for an available builtin row that names a program, unless the last startup check of the row
    took longer than the threshold or any check reported a probe timeout.
   */
  predicate IsProbedInline(m: Meta, path: string -> Option<string>, threshold: int) {
    && (NeedsNoProgram(m) || Installed(m, path))
    && m.source.Builtin?
    && (m.command.Some? || m.binary.Some?)
    && m.snapshot.code != Some("version_probe_timeout")
    && !(m.snapshot.kind == Some(Startup) && m.snapshot.latency.Some? && m.snapshot.latency.value > threshold)
  }

  /**
    Hydrating makes a row available exactly if it needs no program or is installed, and no inline probe refutes it; an
    installed row that is available gets the path of its program.
   */
  lemma ProbedExactly(row: Row, path: string -> Option<string>, threshold: int, probe: Probe)
    ensures var m, v := Decode(row), Probed(row, path, threshold, probe);
            && (v.meta.available
                <==> && (NeedsNoProgram(row.meta) || Installed(row.meta, path))
                     && !(IsProbedInline(row.meta, path, threshold) && Unusable(probe)))
            && (v.meta.available && Installed(row.meta, path) ==> v.meta.resolved == path(Program(row.meta).value))
            && (v.meta.available && !Installed(row.meta, path) ==> v.meta.resolved == None)
            && (IsProbedInline(row.meta, path, threshold) <==> ProbesInline(Located(m, path).0, threshold))
  {
    ResolveExactly(Decode(row), path);
  }

  /** What the outcome of a probe does to a row that is probed inline. */
  lemma InlineProbeExactly(row: Row, path: string -> Option<string>, threshold: int, probe: Probe)
    requires IsProbedInline(row.meta, path, threshold)
    ensures var v := Probed(row, path, threshold, probe);
            match probe
            case Passed => v.outcome == Settled && v.meta.snapshot == row.meta.snapshot
            case Failed(VersionTimeout(_)) => v.outcome == PendingRecheck && v.meta.snapshot == row.meta.snapshot
            case Failed(VersionFailed(detail, duration)) =>
              && v.outcome == Settled
              && v.meta.snapshot == row.meta.snapshot.(status := Some(Offline), kind := Some(Startup),
                                                       code := Some("version_probe_failed"),
                                                       message := Some("version_probe_failed (" + duration + "ms): "
                                                                       + detail))
              && StatusOf(v.meta, v.reason) == (if NeedsNoProgram(row.meta) then OnlineAgent else OfflineAgent)
            case Failed(failure) =>
              && v.outcome == Settled && v.meta.snapshot == row.meta.snapshot
              && v.reason.Some? && v.reason.value.PrimaryUnusable? && v.reason.value.detail == failure.Detail()
              && StatusOf(v.meta, v.reason) == MissingAgent
  {
    ProbedExactly(row, path, threshold, probe);
    ResolveExactly(Decode(row), path);
  }

  /**
    A row that is not probed inline keeps its snapshot; it is queued exactly if only its slow history kept it from
    being probed.
   */
  lemma UnprobedExactly(row: Row, path: string -> Option<string>, threshold: int, probe: Probe)
    requires !IsProbedInline(row.meta, path, threshold)
    ensures var v := Probed(row, path, threshold, probe);
            && v.meta.snapshot == row.meta.snapshot
            && (v.outcome == PendingRecheck
                <==> && (NeedsNoProgram(row.meta) || Installed(row.meta, path))
                     && row.meta.source.Builtin? && (row.meta.command.Some? || row.meta.binary.Some?))
  {
    ResolveExactly(Decode(row), path);
  }

  /** The codes of checks that found a piece missing or the row switched off. */
  const MISSING_CODES := {"command_not_found", "command_missing", "primary_missing", "bridge_missing",
                          "managed_runtime_unavailable", "no_command", "disabled"}

  /** Some check has left something: more than texts and a latency. */
  predicate WasChecked(s: Snapshot) {
    s != Snapshot(None, None, None, s.message, s.guidance, s.latency, None, None, None)
  }

  /** What the stored snapshot alone says. */
  lemma SnapshotSaysExactly(m: Meta)
    ensures Remembered(m).0.available
            <==> || NeedsNoProgram(m)
                 || (m.enabled && WasChecked(m.snapshot)
                     && (m.snapshot.code == None || m.snapshot.code.value !in MISSING_CODES))
  {
  }

  /**
    A hydrate and the stored snapshot agree on the availability of an enabled row with a program exactly if the row is
    installed and not refuted by an inline probe just when it was checked before and not found missing.
   */
  lemma HydrateAgreesExactly(row: Row, path: string -> Option<string>, threshold: int, probe: Probe)
    requires row.meta.enabled && !NeedsNoProgram(row.meta)
    ensures var m := row.meta;
            Probed(row, path, threshold, probe).meta.available == Remembered(Decode(row)).0.available
            <==> (Installed(m, path) && !(IsProbedInline(m, path, threshold) && Unusable(probe))
                  <==> WasChecked(m.snapshot) && (m.snapshot.code == None || m.snapshot.code.value !in MISSING_CODES))
  {
    ProbedExactly(row, path, threshold, probe);
    SnapshotSaysExactly(Decode(row));
  }

  /** The code under which a check records a reason. */
  function ReasonCode(reason: Reason): string {
    match reason
    case Disabled => "disabled"
    case NoCommand => "no_command"
    case BridgeMissing(_) => "bridge_missing"
    case PrimaryMissing(_) => "primary_missing"
    case PrimaryUnusable(_, _) => "primary_unusable"
    case CommandMissing(_) => "command_missing"
    case RuntimeUnavailable(_, _) => "managed_runtime_unavailable"
  }

  /**
    A reason recorded by its code is remembered: the stored snapshot gives it back, but for a missing command, which it
    blames on the recorded binary if there is one.
   */
  lemma ReasonIsRemembered(m: Meta, path: string -> Option<string>)
    requires Resolve(m, path).1.Some? && !InternalCommandless(m)
             && m.snapshot.code == Some(ReasonCode(Resolve(m, path).1.value))
    requires RunsVendor(m) && Resolve(m, path).1.value.PrimaryMissing? ==> m.binary == Vendor(m)
    ensures var reason := Resolve(m, path).1.value;
            Remembered(m) == (m.(available := false),
                              Some(if reason.CommandMissing? && m.binary.Some? then CommandMissing(m.binary.value)
                                   else reason))
  {
    ReasonExactly(m, path);
  }

  /** Two codes name nothing, and are remembered with what the row offers instead. */
  lemma NamelessReason(m: Meta)
    requires m.enabled && !NeedsNoProgram(m)
    ensures m.snapshot.code == Some("command_not_found") ==>
              Remembered(m).1 == Some(CommandMissing(if m.binary.Some? then m.binary.value
                                                     else if m.command.Some? then m.command.value else "command"))
    ensures m.snapshot.code == Some("managed_runtime_unavailable") ==>
              Remembered(m).1 == Some(RuntimeUnavailable(
                                        if m.backend.Some? then m.backend.value else "runtime",
                                        if m.snapshot.message.Some? then m.snapshot.message.value
                                        else "上次健康检查时托管运行时不可用"))
  {
  }

  /** How a failed probe is recorded. */
  lemma FailureTexts(s: string, d: string)
    ensures NothingToProbe.Code() == NotFound(s).Code() == "command_not_found"
    ensures LookupFailed(s).Code() == "package_lock_invalid" && LookupFailed(s).Detail() == s
    ensures VersionFailed(s, d).Code() == "version_probe_failed"
    ensures VersionTimeout(s).Code() == "version_probe_timeout"
    ensures NothingToProbe.Detail() == "agent has no CLI command to probe"
    ensures NotFound(s).Detail() == "`" + s + "` not found on PATH"
    ensures VersionFailed(s, d).Detail() == "version_probe_failed (" + d + "ms): " + s
    ensures VersionTimeout(s).Detail()
            == "version_probe_timeout@" + s + "ms: `--version` timed out (slow load, not proof of corruption)"
  {
  }

  /** Which management status a row is shown with. */
  lemma StatusExactly(m: Meta, reason: Option<Reason>)
    ensures StatusOf(m, reason) == MissingAgent <==> !m.available && (reason != None || WasChecked(m.snapshot))
    ensures StatusOf(m, reason) == OnlineAgent
            <==> m.available && (NeedsNoProgram(m) || m.snapshot.status == Some(Online))
    ensures StatusOf(m, reason) == OfflineAgent
            <==> m.available && !NeedsNoProgram(m) && m.snapshot.status == Some(Offline)
  {
  }

  /** The snapshot a slow-probe recheck writes to the database: every column is replaced. */
  function Rechecked(probe: Probe, latency: int, at: int): Snapshot {
    var ok := probe.Passed?;
    Snapshot(Some(if ok then Online else Offline), Some(Startup),
             if ok then None else Some(probe.failure.Code()), if ok then None else Some(probe.failure.Detail()),
             None, Some(latency), Some(at), if ok then Some(at) else None, if ok then None else Some(at))
  }

  /** The cached copy keeps the guidance and the other timestamp it had. */
  function RecheckedInCache(s: Snapshot, probe: Probe, latency: int, at: int): Snapshot {
    var r := Rechecked(probe, latency, at);
    r.(guidance := s.guidance,
       successAt := if probe.Passed? then Some(at) else s.successAt,
       failureAt := if probe.Passed? then s.failureAt else Some(at))
  }

  /**
    After a recheck the cache shows what the database says exactly if it held no guidance and no timestamp of the
    opposite outcome.
   */
  lemma CacheAgreesExactly(s: Snapshot, probe: Probe, latency: int, at: int)
    ensures RecheckedInCache(s, probe, latency, at) == Rechecked(probe, latency, at)
            <==> s.guidance.None? && (if probe.Passed? then s.failureAt.None? else s.successAt.None?)
  {
  }

  /** A recheck is remembered as slow exactly if it timed out or took longer than the threshold. */
  lemma SlowRecheckIsRemembered(probe: Probe, latency: int, at: int, threshold: int)
    ensures SlowHistory(Rechecked(probe, latency, at), threshold)
            <==> latency > threshold || (probe.Failed? && probe.failure.VersionTimeout?)
  {
  }

  /** Checks that were not run at startup measure something else: their latency counts for nothing. */
  lemma OnlyStartupIsSlow(s: Snapshot, threshold: int)
    requires s.kind != Some(Startup)
    ensures SlowHistory(s, threshold) <==> s.code == Some("version_probe_timeout")
  {
  }

  /** What a recheck records of its outcome, in the table and in the cache. */
  lemma RecheckRecords(s: Snapshot, probe: Probe, latency: int, at: int)
    ensures var stored, cached := Rechecked(probe, latency, at), RecheckedInCache(s, probe, latency, at);
            && stored.status == cached.status == Some(if probe.Passed? then Online else Offline)
            && stored.kind == cached.kind == Some(Startup)
            && stored.latency == cached.latency == Some(latency) && stored.at == cached.at == Some(at)
            && stored.code == cached.code && stored.message == cached.message
            && (stored.code.None? <==> probe.Passed?) && (stored.message.None? <==> probe.Passed?)
            && (probe.Failed? ==> stored.message == Some(probe.failure.Detail()))
            && (if probe.Passed? then stored.successAt == cached.successAt == Some(at)
                else stored.failureAt == cached.failureAt == Some(at))
  {
  }

  /**
    What the stored snapshot says after a recheck: missing exactly if the program was not found, else available and
    online or offline as the recheck found it.
   */
  lemma RecheckIsRemembered(m: Meta, probe: Probe, latency: int, at: int)
    requires m.enabled && !NeedsNoProgram(m) && m.snapshot == Rechecked(probe, latency, at)
    ensures var (n, reason) := Remembered(m);
            StatusOf(n, reason)
            == if probe.Passed? then OnlineAgent
               else if probe.failure.NothingToProbe? || probe.failure.NotFound? then MissingAgent
               else OfflineAgent
  {
  }
}
