/** The persisted session row: which backend session, mode and model the next open of a conversation asks for. */
module SessionAnchor {
  import opened Common
  import opened SessionEvents

  datatype DispatchResult = Accepted | SessionNotFound | OtherFailure

  /** What happened to a conversation: a backend event was observed, or a message was dispatched. */
  datatype Op = Observed(conv: string, event: Event) | Dispatched(conv: string, result: DispatchResult)

  datatype SessionSpec = Fresh(conv: string) | Resume(conv: string, backendId: string)

  /** The backend no longer knows the session it was asked to resume. */
  predicate UnrecoverableResume(message: string) {
    || Contains(message, "No conversation found")
    || Contains(message, "error_during_execution")
    || Contains(message, "no rollout found for thread id")
    || Contains(message, "thread not found:")
  }

  predicate IsDeadAnchor(e: Event) {
    e.TurnResult? && e.isError && !e.outcome.Cancelled? && UnrecoverableResume(e.text)
  }

  predicate Binds(op: Op) {
    op.Observed? && op.event.BackendBound? && op.event.backendId.Some?
  }

  predicate Clears(op: Op) {
    (op.Observed? && IsDeadAnchor(op.event)) || (op.Dispatched? && op.result == SessionNotFound)
  }

  // ----- what the history says about a stored column -----

  datatype Column = Anchor | Mode | Model

  datatype SessionRow = SessionRow(anchor: Option<string>, mode: Option<string>, model: Option<string>) {
    function Get(col: Column): Option<string> {
      match col
      case Anchor => anchor
      case Mode => mode
      case Model => model
    }
  }

  predicate Writes(op: Op, col: Column) {
    match col
    case Anchor => Binds(op) || Clears(op)
    case Mode => op.Observed? && op.event.ConfigChanged? && op.event.mode.Some?
    case Model => op.Observed? && op.event.ConfigChanged? && op.event.model.Some?
  }

  function Written(op: Op, col: Column): Option<string>
    requires Writes(op, col)
  {
    match col
    case Anchor => if Binds(op) then op.event.backendId else None
    case Mode => op.event.mode
    case Model => op.event.model
  }

  /** Position of the latest operation on `conv` that wrote the column, or -1. */
  function LatestWrite(h: seq<Op>, conv: string, col: Column): (i: int)
    ensures -1 <= i < |h|
    ensures i >= 0 ==> h[i].conv == conv && Writes(h[i], col)
  {
    if h == [] then -1
    else
      var op := h[|h| - 1];
      if op.conv == conv && Writes(op, col) then |h| - 1 else LatestWrite(h[..|h| - 1], conv, col)
  }

  lemma {:induction false} LatestWriteIsLatest(h: seq<Op>, conv: string, col: Column, j: nat)
    requires LatestWrite(h, conv, col) < j < |h|
    ensures !(h[j].conv == conv && Writes(h[j], col))
  {
    if j < |h| - 1 {
      LatestWriteIsLatest(h[..|h| - 1], conv, col, j);
    }
  }

  /** The value the history calls for, given the row stored at its beginning. */
  function Stored(h: seq<Op>, conv: string, col: Column, initial: SessionRow): Option<string> {
    var i := LatestWrite(h, conv, col);
    if i < 0 then initial.Get(col) else Written(h[i], col)
  }

  lemma StoredExtend(h: seq<Op>, op: Op, conv: string, col: Column, initial: SessionRow)
    ensures Stored(h + [op], conv, col, initial)
            == if op.conv == conv && Writes(op, col) then Written(op, col) else Stored(h, conv, col, initial)
  {
    assert (h + [op])[..|h|] == h;
  }

  /** Nothing from position `i` on writes the column. */
  predicate Unwritten(h: seq<Op>, i: nat, conv: string, col: Column) {
    forall j :: i <= j < |h| ==> !(h[j].conv == conv && Writes(h[j], col))
  }

  /** The last value the column got is `value`: it was written, or there from the start, and nothing wrote it since. */
  ghost predicate LastChoice(h: seq<Op>, conv: string, col: Column, initial: SessionRow, value: string) {
    || (initial.Get(col) == Some(value) && Unwritten(h, 0, conv, col))
    || exists i :: 0 <= i < |h| && h[i].conv == conv && Writes(h[i], col)
                   && Written(h[i], col) == Some(value) && Unwritten(h, i + 1, conv, col)
  }

  /** A column holds `value` exactly if that was written (or there from the start) and nothing was written since. */
  lemma StoredExactly(h: seq<Op>, conv: string, col: Column, initial: SessionRow, value: string)
    ensures Stored(h, conv, col, initial) == Some(value) <==> LastChoice(h, conv, col, initial, value)
  {
    var i := LatestWrite(h, conv, col);
    forall j | i < j < |h| ensures !(h[j].conv == conv && Writes(h[j], col)) {
      LatestWriteIsLatest(h, conv, col, j);
    }
    if i >= 0 && Stored(h, conv, col, initial) == Some(value) {
      assert Written(h[i], col) == Some(value) && Unwritten(h, i + 1, conv, col);
    }
  }

  /** The anchor is `id` exactly when it was bound (or there from the start) and nothing bound or cleared it since. */
  lemma AnchoredExactly(h: seq<Op>, conv: string, initial: SessionRow, id: string)
    ensures Stored(h, conv, Anchor, initial) == Some(id)
            <==> || (initial.anchor == Some(id) && Unwritten(h, 0, conv, Anchor))
                 || exists i :: 0 <= i < |h| && h[i] == Observed(conv, BackendBound(Some(id)))
                                && Unwritten(h, i + 1, conv, Anchor)
  {
    StoredExactly(h, conv, Anchor, initial, id);
    if i :| 0 <= i < |h| && h[i].conv == conv && Writes(h[i], Anchor) && Written(h[i], Anchor) == Some(id)
            && Unwritten(h, i + 1, conv, Anchor)
    {
      assert h[i] == Observed(conv, BackendBound(Some(id)));
    }
    if i :| 0 <= i < |h| && h[i] == Observed(conv, BackendBound(Some(id))) && Unwritten(h, i + 1, conv, Anchor) {
      assert Writes(h[i], Anchor) && Written(h[i], Anchor) == Some(id);
    }
  }

  /** Cancelled turns, clean turns, exits and an unbound backend never move anything. */
  lemma HarmlessEvents(h: seq<Op>, conv: string, col: Column, initial: SessionRow, e: Event)
    requires e == BackendBound(None) || (e.TurnResult? && (e.outcome.Cancelled? || !e.isError)) || e.Detached?
    ensures Stored(h + [Observed(conv, e)], conv, col, initial) == Stored(h, conv, col, initial)
  {
    StoredExtend(h, Observed(conv, e), conv, col, initial);
  }

  /** The words by which a backend says that it does not know the session. */
  const LOST_SESSION := {"No conversation found", "error_during_execution", "no rollout found for thread id",
                         "thread not found:"}

  lemma UnrecoverableExactly(message: string)
    ensures UnrecoverableResume(message) <==> exists a, words, b :: words in LOST_SESSION && message == a + words + b
  {
    forall words ensures Contains(message, words) <==> exists a, b :: message == a + words + b {
      ContainsExactly(message, words);
    }
    if words :| words in LOST_SESSION && Contains(message, words) {
      assert exists a, b :: message == a + words + b;
    }
  }

  /** A failed turn clears the anchor exactly if it was not cancelled and its text says that the session is lost. */
  lemma FailedTurnExactly(h: seq<Op>, conv: string, initial: SessionRow, text: string, outcome: TurnOutcome)
    ensures Stored(h + [Observed(conv, TurnResult(true, text, outcome))], conv, Anchor, initial)
            == if !outcome.Cancelled? && UnrecoverableResume(text) then None else Stored(h, conv, Anchor, initial)
  {
    StoredExtend(h, Observed(conv, TurnResult(true, text, outcome)), conv, Anchor, initial);
  }

  /** A dispatch clears it exactly if the session was not found. */
  lemma DispatchExactly(h: seq<Op>, conv: string, initial: SessionRow, result: DispatchResult)
    ensures Stored(h + [Dispatched(conv, result)], conv, Anchor, initial)
            == if result.SessionNotFound? then None else Stored(h, conv, Anchor, initial)
  {
    StoredExtend(h, Dispatched(conv, result), conv, Anchor, initial);
  }

  /** Operations on other conversations never move anything. */
  lemma OthersKeep(h: seq<Op>, op: Op, conv: string, col: Column, initial: SessionRow)
    requires op.conv != conv
    ensures Stored(h + [op], conv, col, initial) == Stored(h, conv, col, initial)
  {
    StoredExtend(h, op, conv, col, initial);
  }

  // ----- what the next open asks for -----

  /** The stored choice wins over the configured one, but it is only read if there is an anchor. */
  function Requested(h: seq<Op>, conv: string, col: Column, initial: SessionRow,
                     configured: Option<string>): Option<string> {
    var stored := Stored(h, conv, col, initial);
    if Stored(h, conv, Anchor, initial).Some? && stored.Some? then stored else configured
  }

  function NonEmptyOnly(v: Option<string>): Option<string> {
    if v == Some("") then None else v
  }

  function Mapped(v: Option<string>, f: string -> string): Option<string> {
    if v.None? then None else Some(f(v.value))
  }

  /** The mode the next open asks for: an alias is replaced by the backend's own id, an empty one dropped. */
  function AskedMode(h: seq<Op>, conv: string, initial: SessionRow, configured: Option<string>,
                     normalize: string -> string): Option<string> {
    NonEmptyOnly(Mapped(Requested(h, conv, Mode, initial, configured), normalize))
  }

  /** The model it asks for. */
  function AskedModel(h: seq<Op>, conv: string, initial: SessionRow, configured: Option<string>): Option<string> {
    NonEmptyOnly(Requested(h, conv, Model, initial, configured))
  }

  /** Some backend session was bound, or there from the start, and nothing bound another or cleared it since. */
  ghost predicate AnchorKept(h: seq<Op>, conv: string, initial: SessionRow) {
    || (initial.anchor.Some? && Unwritten(h, 0, conv, Anchor))
    || exists i :: 0 <= i < |h| && h[i].conv == conv && Binds(h[i]) && Unwritten(h, i + 1, conv, Anchor)
  }

  lemma AnchorKeptExactly(h: seq<Op>, conv: string, initial: SessionRow)
    ensures AnchorKept(h, conv, initial) <==> Stored(h, conv, Anchor, initial).Some?
  {
    var last := LatestWrite(h, conv, Anchor);
    forall j | last < j < |h| ensures !(h[j].conv == conv && Writes(h[j], Anchor)) {
      LatestWriteIsLatest(h, conv, Anchor, j);
    }
    if Stored(h, conv, Anchor, initial).Some? && last >= 0 {
      assert Binds(h[last]) && Unwritten(h, last + 1, conv, Anchor);
    }
    if i :| 0 <= i < |h| && h[i].conv == conv && Binds(h[i]) && Unwritten(h, i + 1, conv, Anchor) {
      assert Writes(h[i], Anchor);
    }
  }

  /**
    The next open asks for the mode that was last chosen exactly if that mode has a name for the backend and either
    the anchor was kept or the configured mode comes to the same.
   */
  lemma ModeKeptExactly(h: seq<Op>, conv: string, initial: SessionRow, configured: Option<string>,
                        normalize: string -> string, chosen: string)
    requires LastChoice(h, conv, Mode, initial, chosen)
    ensures AskedMode(h, conv, initial, configured, normalize) == Some(normalize(chosen))
            <==> && normalize(chosen) != ""
                 && (AnchorKept(h, conv, initial) || Mapped(configured, normalize) == Some(normalize(chosen)))
  {
    StoredExactly(h, conv, Mode, initial, chosen);
    AnchorKeptExactly(h, conv, initial);
  }

  /** The same for the model, which has no aliases. */
  lemma ModelKeptExactly(h: seq<Op>, conv: string, initial: SessionRow, configured: Option<string>, chosen: string)
    requires LastChoice(h, conv, Model, initial, chosen)
    ensures AskedModel(h, conv, initial, configured) == Some(chosen)
            <==> chosen != "" && (AnchorKept(h, conv, initial) || configured == Some(chosen))
  {
    StoredExactly(h, conv, Model, initial, chosen);
    AnchorKeptExactly(h, conv, initial);
  }

  /** Losing the anchor loses a confirmed mode switch that is still stored: the next open asks for no mode. */
  lemma ClearedAnchorHidesMode(conv: string, normalize: string -> string)
    ensures var h := [Observed(conv, BackendBound(Some("s"))), Observed(conv, ConfigChanged(Some("plan"), None)),
                      Dispatched(conv, SessionNotFound)];
            var empty := SessionRow(None, None, None);
            Stored(h, conv, Mode, empty) == Some("plan") && AskedMode(h, conv, empty, None, normalize) == None
  {
    var empty := SessionRow(None, None, None);
    var bound, switched := Observed(conv, BackendBound(Some("s"))), Observed(conv, ConfigChanged(Some("plan"), None));
    var lost := Dispatched(conv, SessionNotFound);
    StoredExtend([bound], switched, conv, Mode, empty);
    StoredExtend([bound, switched], lost, conv, Mode, empty);
    StoredExtend([bound, switched], lost, conv, Anchor, empty);
    assert [bound] + [switched] == [bound, switched] && [bound, switched] + [lost] == [bound, switched, lost];
  }

  /** The table after one operation: a row that is not there is not written. */
  function Updated(rows: map<string, SessionRow>, op: Op): map<string, SessionRow> {
    if op.conv !in rows then rows else rows[op.conv := UpdatedRow(rows[op.conv], op)]
  }

  function UpdatedRow(row: SessionRow, op: Op): SessionRow {
    SessionRow(if Writes(op, Anchor) then Written(op, Anchor) else row.anchor,
               if Writes(op, Mode) then Written(op, Mode) else row.mode,
               if Writes(op, Model) then Written(op, Model) else row.model)
  }

  /** The rows are what the history made of the initial ones. */
  ghost predicate Agrees(rows: map<string, SessionRow>, initial: map<string, SessionRow>, h: seq<Op>) {
    && rows.Keys == initial.Keys
    && forall conv, col :: conv in rows ==> rows[conv].Get(col) == Stored(h, conv, col, initial[conv])
  }

  lemma AgreesExtend(rows: map<string, SessionRow>, initial: map<string, SessionRow>, h: seq<Op>, op: Op)
    requires Agrees(rows, initial, h)
    ensures Agrees(Updated(rows, op), initial, h + [op])
  {
    var now := Updated(rows, op);
    forall conv, col | conv in now ensures now[conv].Get(col) == Stored(h + [op], conv, col, initial[conv]) {
      assert rows[conv].Get(col) == Stored(h, conv, col, initial[conv]);
      StoredExtend(h, op, conv, col, initial[conv]);
    }
  }

  class SessionStore {
    var rows: map<string, SessionRow>
    ghost const initial: map<string, SessionRow>
    ghost var history: seq<Op>

    ghost predicate Valid()
      reads this
    {
      Agrees(rows, initial, history)
    }

    constructor (rows: map<string, SessionRow>)
      ensures Valid() && history == [] && initial == rows
    {
      this.rows := rows;
      initial, history := rows, [];
    }

    /** Updating a conversation without a row changes nothing. */
    method UpdateSessionId(conv: string, id: Option<string>)
      modifies `rows
      ensures rows == if conv in old(rows) then old(rows)[conv := old(rows)[conv].(anchor := id)] else old(rows)
    {
      if conv in rows {
        rows := rows[conv := rows[conv].(anchor := id)];
      }
    }

    /** A partial update: an absent value leaves the stored one. */
    method SaveRuntimeState(conv: string, mode: Option<string>, model: Option<string>)
      modifies `rows
      ensures rows.Keys == old(rows).Keys
      ensures forall c :: c in rows && c != conv ==> rows[c] == old(rows)[c]
      ensures conv in rows ==>
                && rows[conv].anchor == old(rows)[conv].anchor
                && rows[conv].mode == (if mode.Some? then mode else old(rows)[conv].mode)
                && rows[conv].model == (if model.Some? then model else old(rows)[conv].model)
    {
      if conv in rows {
        var row := rows[conv];
        if mode.Some? {
          row := row.(mode := mode);
        }
        if model.Some? {
          row := row.(model := model);
        }
        rows := rows[conv := row];
      }
    }

    /** What the event pump stores for one backend event. */
    method PersistSideEffects(conv: string, e: Event)
      requires Valid()
      modifies this
      ensures Valid() && history == old(history) + [Observed(conv, e)]
    {
      ghost var was := rows;
      if IsDeadAnchor(e) {
        UpdateSessionId(conv, None);
      }
      if e.BackendBound? && e.backendId.Some? {
        UpdateSessionId(conv, e.backendId);
      } else if e.ConfigChanged? && (e.mode.Some? || e.model.Some?) {
        SaveRuntimeState(conv, e.mode, e.model);
      }
      assert rows == Updated(was, Observed(conv, e));
      AgreesExtend(was, initial, history, Observed(conv, e));
      history := history + [Observed(conv, e)];
    }

    /** What sending a message stores when its dispatch returns. */
    method AfterDispatch(conv: string, result: DispatchResult)
      requires Valid()
      modifies this
      ensures Valid() && history == old(history) + [Dispatched(conv, result)]
    {
      ghost var was := rows;
      if result == SessionNotFound {
        UpdateSessionId(conv, None);
      }
      assert rows == Updated(was, Dispatched(conv, result));
      AgreesExtend(was, initial, history, Dispatched(conv, result));
      history := history + [Dispatched(conv, result)];
    }

    /** How the next session of the conversation is opened; `normalize` maps mode aliases to the backend's own ids. */
    method Open(conv: string, configMode: Option<string>, configModel: Option<string>, normalize: string -> string)
      returns (spec: SessionSpec, mode: Option<string>, model: Option<string>)
      requires Valid()
      ensures conv in initial ==>
                var row := initial[conv];
                && spec == (match Stored(history, conv, Anchor, row)
                            case Some(id) => Resume(conv, id)
                            case None => Fresh(conv))
                && mode == AskedMode(history, conv, row, configMode, normalize)
                && model == AskedModel(history, conv, row, configModel)
      ensures conv !in initial ==>
                && spec == Fresh(conv)
                && mode == NonEmptyOnly(Mapped(configMode, normalize))
                && model == NonEmptyOnly(configModel)
    {
      var row := if conv in rows then Some(rows[conv]) else None;
      var anchor := if row.Some? then row.value.anchor else None;
      // without an anchor the stored choices are not even loaded
      var snapshot := if anchor.Some? then row else None;
      match anchor {
        case Some(id) => spec := Resume(conv, id);
        case None => spec := Fresh(conv);
      }
      mode := if snapshot.Some? && snapshot.value.mode.Some? then snapshot.value.mode else configMode;
      mode := NonEmptyOnly(Mapped(mode, normalize));
      model := if snapshot.Some? && snapshot.value.model.Some? then snapshot.value.model else configModel;
      model := NonEmptyOnly(model);
      assert conv in rows ==> forall col :: rows[conv].Get(col) == Stored(history, conv, col, initial[conv]);
      assert conv in rows ==> rows[conv].Get(Anchor) == anchor;
      assert conv in rows ==> rows[conv].Get(Mode) == rows[conv].mode && rows[conv].Get(Model) == rows[conv].model;
    }
  }
}
