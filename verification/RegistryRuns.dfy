/** What holds over every run of the agent registry. */
module RegistryRuns {
  import opened Common
  import opened AgentTypes
  import opened AgentRows
  import opened SortedIds
  import opened AgentRegistry

  /** One operation with what its environment answered; `Edit` is any other writer of the table. */
  datatype Op =
    | Hydrate(path: string -> Option<string>, inline: string -> Probe)
    | Refresh(path: string -> Option<string>, inline: string -> Probe)
    | Reload(id: string, path: string -> Option<string>)
    | Handshake(id: string, payload: string)
    | Recheck(result: string -> RecheckResult)
    | Edit(rows: map<string, Row>)

  ghost predicate Next(op: Op, s: State, t: State, threshold: int) {
    match op
    case Hydrate(path, inline) => Hydrated(s, t, path, inline, threshold)
    case Refresh(path, inline) => Refreshed(s, t, path, inline, threshold)
    case Reload(id, path) => t == Reloaded(s, id, path)
    case Handshake(id, payload) => t == Handshaken(s, id, payload)
    case Recheck(result) => t == RecheckDone(s, result)
    case Edit(rows) => t == s.(rows := rows)
  }

  /** `t` is reached from `s` by the operations `ops`, through the states `via` (one after each operation). */
  ghost predicate Reaches(s: State, ops: seq<Op>, via: seq<State>, threshold: int) {
    && |via| == |ops|
    && (ops != [] ==>
          var n := |ops| - 1;
          Reaches(s, ops[..n], via[..n], threshold) && Next(ops[n], Last(s, via[..n]), via[n], threshold))
  }

  function Last(s: State, via: seq<State>): State {
    if via == [] then s else via[|via| - 1]
  }

  // ----- consistency of the two caches -----

  /** A stored reason belongs to a cached, unavailable row; a resolved command to an available one. */
  ghost predicate Consistent(s: State) {
    && (forall id :: id in s.reasons ==> id in s.byId && !s.byId[id].available)
    && (forall id :: id in s.byId && s.byId[id].resolved.Some? ==> s.byId[id].available)
  }

  /** The same about one row. */
  predicate Fine(s: State, id: string) {
    && (id in s.reasons ==> id in s.byId && !s.byId[id].available)
    && Sound(s, id)
  }

  predicate Sound(s: State, id: string) {
    id in s.byId && s.byId[id].resolved.Some? ==> s.byId[id].available
  }

  /** Every unavailable row has a reason. */
  ghost predicate Explained(s: State) {
    forall id :: id in s.byId && !s.byId[id].available ==> id in s.reasons
  }

  lemma HydrateExplains(s: State, t: State, path: string -> Option<string>, inline: string -> Probe, threshold: int)
    requires Hydrated(s, t, path, inline, threshold)
    ensures Consistent(t) && Explained(t)
  {
    var v := RowVerdicts(s.rows, path, inline, threshold);
    forall id | id in v ensures Coherent(v[id]) {
      ReprobedCoherent(Decode(s.rows[id]), path, threshold, inline(id));
    }
  }

  lemma RefreshExplains(s: State, t: State, path: string -> Option<string>, inline: string -> Probe, threshold: int)
    requires Refreshed(s, t, path, inline, threshold)
    ensures Consistent(t) && Explained(t)
  {
    var v := CacheVerdicts(s.byId, path, inline, threshold);
    forall id | id in v ensures Coherent(v[id]) {
      ReprobedCoherent(s.byId[id], path, threshold, inline(id));
    }
  }

  /** A recheck touches neither availability nor reasons. */
  lemma {:induction false} SettleKeepsAvailability(s: State, ids: seq<string>, result: string -> RecheckResult)
    ensures var t := SettleAll(s, ids, result);
            && t.reasons == s.reasons && t.byId.Keys == s.byId.Keys && t.rows.Keys == s.rows.Keys
            && forall id :: id in s.byId ==>
               t.byId[id].available == s.byId[id].available && t.byId[id].resolved == s.byId[id].resolved
  {
    if ids != [] {
      SettleKeepsAvailability(s, ids[..|ids| - 1], result);
    }
  }

  /** A decoded row that the stored snapshot alone would call unavailable without saying why. */
  predicate Unexplained(m: Meta) {
    && m.enabled
    && !InternalCommandless(m)
    && if SaysMissing(m.snapshot) then
         || (m.snapshot.code.value == "bridge_missing" && m.bridge.None?)
         || (m.snapshot.code.value == "primary_missing" && m.binary.None?)
       else !HasSnapshot(m.snapshot) && (ManagedBuiltin(m) || !Blank(m.command))
  }

  lemma RememberedExactly(m: Meta)
    requires m.resolved.None?
    ensures var (n, reason) := Remembered(m);
            && (reason.Some? ==> !n.available)
            && n.resolved.None?
            && (!n.available && reason.None? <==> Unexplained(m))
  {
  }

  /**
    A handshake leaves an unavailable row without a reason exactly when it is the one to cache a row whose snapshot
    gives none.
   */
  lemma HandshakeExplainsExactly(s: State, id: string, payload: string)
    requires Consistent(s) && Explained(s)
    ensures Explained(Handshaken(s, id, payload))
            <==> id in s.byId || id !in s.rows || !s.rows[id].decodable || !Unexplained(s.rows[id].meta)
  {
    if id in s.rows {
      var d := Decode(s.rows[id].(meta := s.rows[id].meta.(handshake := payload)));
      RememberedExactly(d);
      assert Unexplained(d) == Unexplained(s.rows[id].meta);
      var t := Handshaken(s, id, payload);
      assert s.rows[id].decodable ==> id in t.byId;
    }
  }

  lemma HandshakeFine(s: State, id: string, payload: string, x: string)
    ensures Sound(s, x) ==> Sound(Handshaken(s, id, payload), x)
    ensures Fine(s, x) ==> Fine(Handshaken(s, id, payload), x)
  {
    if id in s.rows {
      RememberedExactly(Decode(s.rows[id].(meta := s.rows[id].meta.(handshake := payload))));
    }
  }

  /** Every operation keeps every row fine that was, whatever it does to others. */
  lemma NextFine(op: Op, s: State, t: State, threshold: int, x: string)
    requires Next(op, s, t, threshold)
    ensures Sound(s, x) ==> Sound(t, x)
    ensures Fine(s, x) ==> Fine(t, x)
  {
    match op
    case Hydrate(path, inline) => HydrateExplains(s, t, path, inline, threshold);
    case Refresh(path, inline) => RefreshExplains(s, t, path, inline, threshold);
    case Reload(_, _) =>
    case Handshake(id, payload) => HandshakeFine(s, id, payload, x);
    case Recheck(result) => SettleKeepsAvailability(s, s.pending, result);
    case Edit(_) =>
  }

  lemma {:induction false} RunFine(s: State, ops: seq<Op>, via: seq<State>, threshold: int, x: string)
    requires Reaches(s, ops, via, threshold)
    ensures Sound(s, x) ==> Sound(Last(s, via), x)
    ensures Fine(s, x) ==> Fine(Last(s, via), x)
  {
    if ops != [] {
      var n := |ops| - 1;
      RunFine(s, ops[..n], via[..n], threshold, x);
      NextFine(ops[n], Last(s, via[..n]), via[n], threshold, x);
    }
  }

  /** Whatever the order of operations and whoever else edits the table, the caches stay consistent. */
  lemma RunConsistent(s: State, ops: seq<Op>, via: seq<State>, threshold: int)
    requires Consistent(s) && Reaches(s, ops, via, threshold)
    ensures Consistent(Last(s, via))
  {
    forall x ensures Fine(Last(s, via), x) {
      assert Fine(s, x);
      RunFine(s, ops, via, threshold, x);
    }
    AllFine(Last(s, via));
  }

  lemma AllFine(s: State)
    requires forall x :: Fine(s, x)
    ensures Consistent(s)
  {
    forall id | id in s.byId && s.byId[id].resolved.Some? ensures s.byId[id].available {
      assert Fine(s, id);
    }
    forall id | id in s.reasons ensures id in s.byId && !s.byId[id].available {
      assert Fine(s, id);
    }
  }

  /** Handshakes of the run only reach rows that are cached by then. */
  ghost predicate HandshakesCached(s: State, ops: seq<Op>, via: seq<State>)
    requires |via| == |ops|
  {
    forall i :: 0 <= i < |ops| && ops[i].Handshake? ==> ops[i].id in Last(s, via[..i]).byId
  }

  lemma NextExplained(op: Op, s: State, t: State, threshold: int)
    requires Consistent(s) && Explained(s) && Next(op, s, t, threshold)
    requires op.Handshake? ==> op.id in s.byId
    ensures Explained(t)
  {
    match op
    case Hydrate(path, inline) => HydrateExplains(s, t, path, inline, threshold);
    case Refresh(path, inline) => RefreshExplains(s, t, path, inline, threshold);
    case Reload(_, _) =>
    case Handshake(id, payload) => HandshakeExplainsExactly(s, id, payload);
    case Recheck(result) => SettleKeepsAvailability(s, s.pending, result);
    case Edit(_) =>
  }

  /**
    After a hydrate, as long as handshakes only reach cached rows, every unavailable row has a reason and is reported
    missing.
   */
  lemma {:induction false} RunExplained(s: State, ops: seq<Op>, via: seq<State>, threshold: int)
    requires Consistent(s) && Explained(s) && Reaches(s, ops, via, threshold) && HandshakesCached(s, ops, via)
    ensures Explained(Last(s, via))
    ensures var t := Last(s, via);
            forall id :: id in t.byId && !t.byId[id].available ==>
              id in t.reasons && StatusOf(t.byId[id], Some(t.reasons[id])) == MissingAgent
  {
    if ops != [] {
      var n := |ops| - 1;
      assert forall i :: 0 <= i < n ==> via[..n][..i] == via[..i];
      RunExplained(s, ops[..n], via[..n], threshold);
      RunConsistent(s, ops[..n], via[..n], threshold);
      NextExplained(ops[n], Last(s, via[..n]), via[n], threshold);
    }
  }

  /** In particular from a hydrate on, whatever state it started from. */
  lemma MissingAfterHydrate(start: State, s: State, path: string -> Option<string>, inline: string -> Probe,
                            ops: seq<Op>, via: seq<State>, threshold: int)
    requires Hydrated(start, s, path, inline, threshold) && Reaches(s, ops, via, threshold)
             && HandshakesCached(s, ops, via)
    ensures var t := Last(s, via);
            && Consistent(t)
            && forall id :: id in t.byId && !t.byId[id].available ==>
                 id in t.reasons && StatusOf(t.byId[id], Some(t.reasons[id])) == MissingAgent
  {
    HydrateExplains(start, s, path, inline, threshold);
    RunConsistent(s, ops, via, threshold);
    RunExplained(s, ops, via, threshold);
  }

  // ----- a refresh that overlaps other operations -----

  /** The second half of a refresh: verdicts taken from an earlier cache are written into the cache `s` found now. */
  ghost predicate RefreshCommits(v: map<string, Verdict>, s: State, t: State) {
    && t.rows == s.rows
    && t.byId == (map id | id in s.byId :: if id in v then Updated(s.byId[id], v[id]) else s.byId[id])
    && Summarises(v, t.reasons, t.pending)
  }

  lemma VerdictsCoherent(byId: map<string, Meta>, path: string -> Option<string>, inline: string -> Probe,
                         threshold: int)
    ensures var v := CacheVerdicts(byId, path, inline, threshold);
            forall id :: id in v ==> Coherent(v[id])
  {
    var v := CacheVerdicts(byId, path, inline, threshold);
    forall id | id in v ensures Coherent(v[id]) {
      ReprobedCoherent(byId[id], path, threshold, inline(id));
    }
  }

  lemma CommitConsistentExactly(v: map<string, Verdict>, s: State, t: State)
    requires Consistent(s) && RefreshCommits(v, s, t) && forall id :: id in v ==> Coherent(v[id])
    ensures Consistent(t) <==> forall id :: id in v && v[id].reason.Some? ==> id in s.byId
  {
    assert forall id :: id in t.reasons <==> id in v && v[id].reason.Some?;
    assert forall id :: id in t.byId <==> id in s.byId;
  }

  lemma CommitExplainedExactly(v: map<string, Verdict>, s: State, t: State)
    requires RefreshCommits(v, s, t) && forall id :: id in v ==> Coherent(v[id])
    ensures Explained(t) <==> forall id :: id in s.byId && id !in v ==> s.byId[id].available
  {
    assert forall id :: id in t.reasons <==> id in v && v[id].reason.Some?;
    assert forall id :: id in t.byId <==> id in s.byId;
  }

  /**
    A refresh reads the cache at `before` and commits after the operations `ops` ran. The caches stay consistent
    exactly if no row that got a reason was dropped meanwhile, and explained exactly if every row added meanwhile is
    available.
   */
  lemma OverlappingRefreshExactly(before: State, ops: seq<Op>, via: seq<State>, t: State,
                                  path: string -> Option<string>, inline: string -> Probe, threshold: int)
    requires Consistent(before) && Reaches(before, ops, via, threshold)
    requires RefreshCommits(CacheVerdicts(before.byId, path, inline, threshold), Last(before, via), t)
    ensures var s := Last(before, via);
            && (Consistent(t)
                <==> forall id :: id in before.byId
                                  && Reprobed(before.byId[id], path, threshold, inline(id)).reason.Some?
                                  ==> id in s.byId)
            && (Explained(t) <==> forall id :: id in s.byId && id !in before.byId ==> s.byId[id].available)
  {
    RunConsistent(before, ops, via, threshold);
    VerdictsCoherent(before.byId, path, inline, threshold);
    CommitConsistentExactly(CacheVerdicts(before.byId, path, inline, threshold), Last(before, via), t);
    CommitExplainedExactly(CacheVerdicts(before.byId, path, inline, threshold), Last(before, via), t);
  }

  // ----- operations whose two writes are split -----

  /** The reasons a set of verdicts gives. */
  function ReasonsOf(v: map<string, Verdict>): map<string, Reason> {
    map id | id in v && v[id].reason.Some? :: v[id].reason.value
  }

  /**
    A hydrate that read the rows of `start` replaces the cache at `a` and the reasons only after the operations `ops`.
    The caches are consistent exactly if every row it gave a reason is cached and unavailable by then, and explained
    exactly if it gave a reason to every row that is.
   */
  lemma SplitHydrateExactly(start: State, a: State, ops: seq<Op>, via: seq<State>, path: string -> Option<string>,
                            inline: string -> Probe, threshold: int)
    requires var v := RowVerdicts(start.rows, path, inline, threshold);
             Reaches(a.(byId := map id | id in v :: v[id].meta), ops, via, threshold)
    ensures var v := RowVerdicts(start.rows, path, inline, threshold);
            var b := Last(a.(byId := map id | id in v :: v[id].meta), via);
            var t := b.(reasons := ReasonsOf(v));
            && (Consistent(t)
                <==> forall id :: id in v && v[id].reason.Some? ==> id in b.byId && !b.byId[id].available)
            && (Explained(t)
                <==> forall id :: id in b.byId && !b.byId[id].available ==> id in v && v[id].reason.Some?)
  {
    var v := RowVerdicts(start.rows, path, inline, threshold);
    var a1 := a.(byId := map id | id in v :: v[id].meta);
    forall x ensures Sound(Last(a1, via), x) {
      if x in v {
        ReprobedCoherent(Decode(start.rows[x]), path, threshold, inline(x));
      }
      RunFine(a1, ops, via, threshold, x);
    }
    SplitReasons(v, Last(a1, via));
  }

  lemma SplitReasons(v: map<string, Verdict>, b: State)
    requires forall x :: Sound(b, x)
    ensures var t := b.(reasons := ReasonsOf(v));
            && (Consistent(t)
                <==> forall id :: id in v && v[id].reason.Some? ==> id in b.byId && !b.byId[id].available)
            && (Explained(t)
                <==> forall id :: id in b.byId && !b.byId[id].available ==> id in v && v[id].reason.Some?)
  {
    var t := b.(reasons := ReasonsOf(v));
    assert forall id :: id in t.reasons <==> id in v && v[id].reason.Some?;
    forall id | id in b.byId && b.byId[id].resolved.Some? ensures b.byId[id].available {
      assert Sound(b, id);
    }
  }

  /**
    A reload or a handshake stores the reason at `a` and the row `m` only after the operations `ops`. The caches are
    consistent exactly if no reason turned up meanwhile for a row that is available.
   */
  lemma SplitStoreExactly(a: State, id: string, m: Meta, reason: Option<Reason>, ops: seq<Op>, via: seq<State>,
                          threshold: int)
    requires Consistent(a) && (m.resolved.Some? ==> m.available)
    requires Reaches(a.(reasons := SetReason(a.reasons, id, reason)), ops, via, threshold)
    ensures var b := Last(a.(reasons := SetReason(a.reasons, id, reason)), via);
            var t := b.(byId := b.byId[id := m]);
            Consistent(t) <==> (m.available ==> id !in b.reasons)
  {
    var a1 := a.(reasons := SetReason(a.reasons, id, reason));
    var b := Last(a1, via);
    var t := b.(byId := b.byId[id := m]);
    forall x | x != id ensures Fine(t, x) {
      assert Fine(a, x) && Fine(a1, x);
      RunFine(a1, ops, via, threshold, x);
    }
    if m.available ==> id !in b.reasons {
      assert Fine(t, id);
      AllFine(t);
    }
  }

  /** A reload that drops a row forgets its reason only after `ops`: the caches are always consistent. */
  lemma SplitDropConsistent(a: State, id: string, ops: seq<Op>, via: seq<State>, threshold: int)
    requires Consistent(a) && Reaches(a.(byId := a.byId - {id}), ops, via, threshold)
    ensures var b := Last(a.(byId := a.byId - {id}), via);
            Consistent(b.(reasons := b.reasons - {id}))
  {
    var a1 := a.(byId := a.byId - {id});
    var t := Last(a1, via).(reasons := Last(a1, via).reasons - {id});
    forall x ensures Fine(t, x) {
      assert Fine(a, x) && Sound(a1, x) && (x != id ==> Fine(a1, x));
      RunFine(a1, ops, via, threshold, x);
    }
    AllFine(t);
  }

  // ----- these overlaps happen -----

  const NO_SNAPSHOT := Snapshot(None, None, None, None, None, None, None, None, None)

  /** A custom agent that was never checked. */
  const UNCHECKED :=
    Meta(true, Acp, Custom, None, Some("x"), false, None, None, "", NO_SNAPSHOT, false, None)

  const EMPTY := State(map[], map[], map[], [])

  /** The registry after a hydrate that found one row whose command is not installed. */
  const ONE_MISSING := State(map["a" := Row(true, UNCHECKED)], map["a" := UNCHECKED],
                             map["a" := CommandMissing("x")], [])

  function Nowhere(command: string): Option<string> {
    None
  }

  function Somewhere(command: string): Option<string> {
    Some("/bin/x")
  }

  function TimesOut(id: string): Probe {
    Failed(VersionTimeout(""))
  }

  lemma ReachesPush(s: State, ops: seq<Op>, via: seq<State>, op: Op, t: State, threshold: int)
    requires Reaches(s, ops, via, threshold) && Next(op, Last(s, via), t, threshold)
    ensures Reaches(s, ops + [op], via + [t], threshold)
  {
    assert (ops + [op])[..|ops|] == ops && (via + [t])[..|via|] == via;
  }

  lemma HydrateOneMissing(threshold: int)
    ensures Hydrated(EMPTY.(rows := ONE_MISSING.rows), ONE_MISSING, Nowhere, TimesOut, threshold)
  {
    var v := RowVerdicts(ONE_MISSING.rows, Nowhere, TimesOut, threshold);
    assert v == map["a" := Verdict(UNCHECKED, Some(CommandMissing("x")), NotProbed)];
  }

  lemma DropDuringRefresh(threshold: int) returns (ops: seq<Op>, via: seq<State>)
    ensures Reaches(ONE_MISSING, ops, via, threshold) && Last(ONE_MISSING, via) == EMPTY
  {
    var edited := ONE_MISSING.(rows := map[]);
    ReachesPush(ONE_MISSING, [], [], Edit(map[]), edited, threshold);
    assert Reloaded(edited, "a", Nowhere) == EMPTY;
    ReachesPush(ONE_MISSING, [] + [Edit(map[])], [] + [edited], Reload("a", Nowhere), EMPTY, threshold);
    ops, via := [] + [Edit(map[])] + [Reload("a", Nowhere)], [] + [edited] + [EMPTY];
  }

  /** A reload that drops a deleted row during a refresh leaves a reason without a row. */
  lemma RefreshOrphansReason(threshold: int)
    ensures exists start, before, ops, via, t ::
              && Hydrated(start, before, Nowhere, TimesOut, threshold)
              && Reaches(before, ops, via, threshold)
              && RefreshCommits(CacheVerdicts(before.byId, Nowhere, TimesOut, threshold), Last(before, via), t)
              && !Consistent(t)
  {
    HydrateOneMissing(threshold);
    var ops, via := DropDuringRefresh(threshold);
    CommitOrphans(threshold);
  }

  lemma CommitOrphans(threshold: int)
    ensures var t := EMPTY.(reasons := ONE_MISSING.reasons);
            && RefreshCommits(CacheVerdicts(ONE_MISSING.byId, Nowhere, TimesOut, threshold), EMPTY, t)
            && !Consistent(t)
  {
    var v := CacheVerdicts(ONE_MISSING.byId, Nowhere, TimesOut, threshold);
    assert v == map["a" := Verdict(UNCHECKED, Some(CommandMissing("x")), NotProbed)];
    assert "a" in ONE_MISSING.reasons;
  }

  /** A reload that caches a new row during a refresh loses the reason it stored for it. */
  lemma RefreshDropsReason(threshold: int)
    ensures exists ops, via, t ::
              && Reaches(EMPTY, ops, via, threshold)
              && RefreshCommits(CacheVerdicts(EMPTY.byId, Nowhere, TimesOut, threshold), Last(EMPTY, via), t)
              && Explained(Last(EMPTY, via)) && !Explained(t)
  {
    var added := EMPTY.(rows := ONE_MISSING.rows);
    ReachesPush(EMPTY, [], [], Edit(added.rows), added, threshold);
    assert Reloaded(added, "a", Nowhere) == ONE_MISSING;
    ReachesPush(EMPTY, [] + [Edit(added.rows)], [] + [added], Reload("a", Nowhere), ONE_MISSING, threshold);
    var t := ONE_MISSING.(reasons := map[]);
    var v := CacheVerdicts(EMPTY.byId, Nowhere, TimesOut, threshold);
    assert v == map[];
    assert RefreshCommits(v, ONE_MISSING, t);
    assert "a" in t.byId && "a" !in t.reasons;
    assert Last(EMPTY, [] + [added] + [ONE_MISSING]) == ONE_MISSING;
  }

  /** A reload between the two writes of a hydrate loses the reason it stored. */
  lemma SplitHydrateDropsReason(threshold: int)
    ensures exists ops, via ::
              && RowVerdicts(EMPTY.rows, Nowhere, TimesOut, threshold) == map[]
              && Reaches(EMPTY, ops, via, threshold)
              && Explained(Last(EMPTY, via)) && !Explained(Last(EMPTY, via).(reasons := map[]))
  {
    var added := EMPTY.(rows := ONE_MISSING.rows);
    ReachesPush(EMPTY, [], [], Edit(added.rows), added, threshold);
    assert Reloaded(added, "a", Nowhere) == ONE_MISSING;
    ReachesPush(EMPTY, [] + [Edit(added.rows)], [] + [added], Reload("a", Nowhere), ONE_MISSING, threshold);
    assert Last(EMPTY, [] + [added] + [ONE_MISSING]) == ONE_MISSING;
    assert "a" in ONE_MISSING.byId && "a" in ONE_MISSING.reasons;
    assert RowVerdicts(EMPTY.rows, Nowhere, TimesOut, threshold) == map[];
  }

  lemma RefreshOneMissing(threshold: int)
    ensures Refreshed(ONE_MISSING.(reasons := map[]), ONE_MISSING, Nowhere, TimesOut, threshold)
  {
    var v := CacheVerdicts(ONE_MISSING.byId, Nowhere, TimesOut, threshold);
    assert v == map["a" := Verdict(UNCHECKED, Some(CommandMissing("x")), NotProbed)];
    assert Updated(UNCHECKED, v["a"]) == UNCHECKED;
  }

  /**
    A reload finds the program and takes the reason away, a refresh that does not find it brings the reason back,
    and the reload then stores an available row: the row is available and has a reason.
   */
  lemma RefreshContradictsReload(threshold: int)
    ensures var m := Located(UNCHECKED, Somewhere).0;
            var a := ONE_MISSING.(reasons := SetReason(ONE_MISSING.reasons, "a", Located(UNCHECKED, Somewhere).1));
            && m.available
            && Reaches(a, [Refresh(Nowhere, TimesOut)], [ONE_MISSING], threshold)
            && !Consistent(ONE_MISSING.(byId := ONE_MISSING.byId["a" := m]))
  {
    var a := ONE_MISSING.(reasons := map[]);
    assert SetReason(ONE_MISSING.reasons, "a", None) == map[];
    RefreshOneMissing(threshold);
    ReachesPush(a, [], [], Refresh(Nowhere, TimesOut), ONE_MISSING, threshold);
    assert [] + [Refresh(Nowhere, TimesOut)] == [Refresh(Nowhere, TimesOut)] && [] + [ONE_MISSING] == [ONE_MISSING];
    assert "a" in ONE_MISSING.reasons;
  }

  /**
    A row that was never checked: the stored snapshot calls it unavailable, a hydrate that finds its program does
    not.
   */
  lemma HydrateOverrulesSnapshot(threshold: int, probe: Probe)
    ensures Probed(Row(true, UNCHECKED), Somewhere, threshold, probe).meta.available
    ensures !Remembered(Decode(Row(true, UNCHECKED))).0.available
  {
  }

  /** A handshake for a row nobody cached yet makes it unavailable without a reason, so it is reported unchecked. */
  lemma HandshakeHidesReason(threshold: int)
    ensures exists ops, via ::
              && Reaches(EMPTY, [Hydrate(Nowhere, TimesOut)] + ops, via, threshold)
              && var t := Last(EMPTY, via);
                 && "a" in t.byId && !t.byId["a"].available && "a" !in t.reasons
                 && StatusOf(t.byId["a"], None) == Unchecked
  {
    var row := Row(true, UNCHECKED);
    var added := EMPTY.(rows := map["a" := row]);
    var t := Handshaken(added, "a", "{}");
    assert RowVerdicts(EMPTY.rows, Nowhere, TimesOut, threshold) == map[];
    ReachesPush(EMPTY, [], [], Hydrate(Nowhere, TimesOut), EMPTY, threshold);
    var first: seq<Op> := [] + [Hydrate(Nowhere, TimesOut)];
    ReachesPush(EMPTY, first, [] + [EMPTY], Edit(added.rows), added, threshold);
    ReachesPush(EMPTY, first + [Edit(added.rows)], [] + [EMPTY] + [added], Handshake("a", "{}"), t, threshold);
    var ops := [Edit(added.rows), Handshake("a", "{}")];
    assert first + [Edit(added.rows)] + [Handshake("a", "{}")] == [Hydrate(Nowhere, TimesOut)] + ops;
    assert Last(EMPTY, [] + [EMPTY] + [added] + [t]) == t;
  }

  // ----- completion order and the probe lifecycle -----

  /** For fixed probe results hydrate has one outcome, whatever order the concurrent probes complete in. */
  lemma HydrateDetermined(s: State, t: State, u: State, path: string -> Option<string>, inline: string -> Probe,
                          threshold: int)
    requires Hydrated(s, t, path, inline, threshold) && Hydrated(s, u, path, inline, threshold)
    ensures t == u
  {
    SortedUnique(t.pending, u.pending);
  }

  lemma {:induction false} SettleWrites(s: State, ids: seq<string>, result: string -> RecheckResult, id: string)
    requires id in s.byId && id in s.rows
    ensures var t := SettleAll(s, ids, result);
            && id in t.byId && id in t.rows
            && t.rows[id] == if id in ids
                             then WithSnapshot(s.rows[id],
                                               Rechecked(result(id).probe, result(id).latency, result(id).at))
                             else s.rows[id]
  {
    if ids != [] {
      var n := |ids| - 1;
      SettleWrites(s, ids[..n], result, id);
      assert ids == ids[..n] + [ids[n]];
    }
  }

  lemma NextKeepsSnapshot(op: Op, s: State, t: State, threshold: int, id: string)
    requires Next(op, s, t, threshold) && !op.Recheck? && !op.Edit? && id in s.rows
    ensures id in t.rows && t.rows[id].meta.snapshot == s.rows[id].meta.snapshot
  {
  }

  /** The stored snapshot of a row survives everything but rechecks and other writers. */
  lemma {:induction false} SnapshotSurvives(s: State, ops: seq<Op>, via: seq<State>, threshold: int, id: string)
    requires Reaches(s, ops, via, threshold) && id in s.rows
    requires forall i :: 0 <= i < |ops| ==> !ops[i].Recheck? && !ops[i].Edit?
    ensures id in Last(s, via).rows && Last(s, via).rows[id].meta.snapshot == s.rows[id].meta.snapshot
  {
    if ops != [] {
      var n := |ops| - 1;
      SnapshotSurvives(s, ops[..n], via[..n], threshold, id);
      NextKeepsSnapshot(ops[n], Last(s, via[..n]), via[n], threshold, id);
    }
  }

  /** The two probe results differ at most for `id`. */
  ghost predicate AgreeElsewhere(a: string -> Probe, b: string -> Probe, id: string) {
    forall x :: x != id ==> a(x) == b(x)
  }

  /** A row with slow history is queued, and its inline probe has no say in the outcome. */
  lemma HydrateQueuesSlow(s: State, t: State, path: string -> Option<string>, inline: string -> Probe, threshold: int,
                          id: string)
    requires Hydrated(s, t, path, inline, threshold)
    requires id in s.rows && s.rows[id].decodable && SlowHistory(s.rows[id].meta.snapshot, threshold)
    requires Probeable(Located(Decode(s.rows[id]), path).0)
    ensures id in t.pending && id in t.byId && t.byId[id].available
    ensures forall other :: AgreeElsewhere(inline, other, id) ==> Hydrated(s, t, path, other, threshold)
  {
    var v := RowVerdicts(s.rows, path, inline, threshold);
    assert v[id] == Probed(s.rows[id], path, threshold, inline(id));
    ReprobedCoherent(Decode(s.rows[id]), path, threshold, inline(id));
    forall other | AgreeElsewhere(inline, other, id) ensures Hydrated(s, t, path, other, threshold) {
      InlineProbeMattersExactly(s.rows[id], path, threshold);
      SameVerdicts(s.rows, path, inline, other, threshold, id);
    }
  }

  lemma SameVerdicts(rows: map<string, Row>, path: string -> Option<string>, a: string -> Probe, b: string -> Probe,
                     threshold: int, id: string)
    requires AgreeElsewhere(a, b, id)
    requires id in rows ==> Probed(rows[id], path, threshold, a(id)) == Probed(rows[id], path, threshold, b(id))
    ensures RowVerdicts(rows, path, a, threshold) == RowVerdicts(rows, path, b, threshold)
  {
  }

  /**
    Once a recheck timed out or took longer than the threshold, the next hydrate queues the row again, provided the
    row still resolves, and comes out the same whatever an inline probe of it would have said; in between anything may
    happen except another recheck or another writer.
   */
  lemma SlowRowIsRequeued(s: State, result: string -> RecheckResult, ops: seq<Op>, via: seq<State>, t: State,
                          path: string -> Option<string>, inline: string -> Probe, threshold: int, id: string)
    requires id in s.pending && id in s.byId && id in s.rows
    requires result(id).latency > threshold || (result(id).probe.Failed? && result(id).probe.failure.VersionTimeout?)
    requires Reaches(RecheckDone(s, result), ops, via, threshold)
    requires forall i :: 0 <= i < |ops| ==> !ops[i].Recheck? && !ops[i].Edit?
    requires Hydrated(Last(RecheckDone(s, result), via), t, path, inline, threshold)
    requires var rows := Last(RecheckDone(s, result), via).rows;
             id in rows ==> rows[id].decodable && Probeable(Located(Decode(rows[id]), path).0)
    ensures id in t.pending && id in t.byId && t.byId[id].available
    ensures forall other :: AgreeElsewhere(inline, other, id) ==>
              Hydrated(Last(RecheckDone(s, result), via), t, path, other, threshold)
  {
    SettleWrites(s, s.pending, result, id);
    SlowRecheckIsRemembered(result(id).probe, result(id).latency, result(id).at, threshold);
    SnapshotSurvives(RecheckDone(s, result), ops, via, threshold, id);
    HydrateQueuesSlow(Last(RecheckDone(s, result), via), t, path, inline, threshold, id);
  }

  // ----- what a recheck leaves in the cache -----

  lemma {:induction false} SettleCaches(s: State, ids: seq<string>, result: string -> RecheckResult, id: string)
    requires id in s.byId
    ensures var t := SettleAll(s, ids, result);
            && id in t.byId
            && t.byId[id].snapshot
               == if id in ids
                  then RecheckedInCache(s.byId[id].snapshot, result(id).probe, result(id).latency, result(id).at)
                  else s.byId[id].snapshot
  {
    if ids != [] {
      var n := |ids| - 1;
      SettleCaches(s, ids[..n], result, id);
      assert ids == ids[..n] + [ids[n]];
    }
  }

  /**
    After a recheck, cache and table agree on a pending row exactly if the cache held no guidance for it and no
    timestamp of the opposite outcome.
   */
  lemma RecheckAgreesExactly(s: State, result: string -> RecheckResult, id: string)
    requires id in s.pending && id in s.byId && id in s.rows
    ensures var t := RecheckDone(s, result);
            var was := s.byId[id].snapshot;
            && id in t.byId && id in t.rows
            && (t.byId[id].snapshot == t.rows[id].meta.snapshot
                <==> was.guidance.None?
                     && (if result(id).probe.Passed? then was.failureAt.None? else was.successAt.None?))
  {
    SettleCaches(s, s.pending, result, id);
    SettleWrites(s, s.pending, result, id);
    CacheAgreesExactly(s.byId[id].snapshot, result(id).probe, result(id).latency, result(id).at);
  }

  /** A recheck records its outcome for every pending row, in the table and in the cache, and shows it. */
  lemma RecheckShows(s: State, result: string -> RecheckResult, id: string)
    requires id in s.pending && id in s.byId && id in s.rows
    ensures var t, r := RecheckDone(s, result), result(id);
            && id in t.byId && id in t.rows
            && (forall x :: x in {t.byId[id].snapshot, t.rows[id].meta.snapshot} ==>
                  && x.status == Some(if r.probe.Passed? then Online else Offline)
                  && (x.code.None? <==> r.probe.Passed?)
                  && x.latency == Some(r.latency) && x.at == Some(r.at)
                  && (if r.probe.Passed? then x.successAt == Some(r.at) else x.failureAt == Some(r.at)))
            && (t.byId[id].available && !NeedsNoProgram(t.byId[id]) ==>
                  StatusOf(t.byId[id], None) == if r.probe.Passed? then OnlineAgent else OfflineAgent)
  {
    SettleCaches(s, s.pending, result, id);
    SettleWrites(s, s.pending, result, id);
    RecheckRecords(s.byId[id].snapshot, result(id).probe, result(id).latency, result(id).at);
    StatusExactly(RecheckDone(s, result).byId[id], None);
  }

  /** A row that was not pending keeps its snapshot. */
  lemma RecheckLeavesOthers(s: State, result: string -> RecheckResult, id: string)
    requires id !in s.pending && id in s.byId && id in s.rows
    ensures var t := RecheckDone(s, result);
            id in t.byId && id in t.rows && t.byId[id].snapshot == s.byId[id].snapshot && t.rows[id] == s.rows[id]
  {
    SettleCaches(s, s.pending, result, id);
    SettleWrites(s, s.pending, result, id);
  }

  // ----- what a hydrate and a refresh do to one row -----

  /**
    A hydrate caches exactly the rows it can decode, and the available ones are those that are installed and not
    refuted.
   */
  lemma HydrateCaches(s: State, t: State, path: string -> Option<string>, inline: string -> Probe, threshold: int,
                      id: string)
    requires Hydrated(s, t, path, inline, threshold)
    ensures id in t.byId <==> id in s.rows && s.rows[id].decodable
    ensures id in t.byId ==>
              var m := s.rows[id].meta;
              && (t.byId[id].available
                  <==> && (NeedsNoProgram(m) || Installed(m, path))
                       && !(IsProbedInline(m, path, threshold) && Unusable(inline(id))))
              && (id in t.pending
                  <==> && (NeedsNoProgram(m) || Installed(m, path))
                       && m.source.Builtin? && (m.command.Some? || m.binary.Some?)
                       && (IsProbedInline(m, path, threshold) ==>
                           inline(id).Failed? && inline(id).failure.VersionTimeout?))
  {
    var v := RowVerdicts(s.rows, path, inline, threshold);
    if id in t.byId {
      assert v[id] == Probed(s.rows[id], path, threshold, inline(id));
      ProbedExactly(s.rows[id], path, threshold, inline(id));
      if IsProbedInline(s.rows[id].meta, path, threshold) {
        InlineProbeExactly(s.rows[id], path, threshold, inline(id));
      } else {
        UnprobedExactly(s.rows[id], path, threshold, inline(id));
      }
    }
  }

  /** A refresh keeps every cached row and changes only whether and where it was found. */
  lemma RefreshKeepsRows(s: State, t: State, path: string -> Option<string>, inline: string -> Probe, threshold: int,
                         id: string)
    requires Refreshed(s, t, path, inline, threshold)
    ensures id in t.byId <==> id in s.byId
    ensures id in t.byId ==>
              var m := s.byId[id];
              && t.byId[id] == m.(available := t.byId[id].available, resolved := t.byId[id].resolved)
              && (t.byId[id].available
                  <==> && (NeedsNoProgram(m) || Installed(m, path))
                       && !(IsProbedInline(m, path, threshold) && Unusable(inline(id))))
  {
    if id in s.byId {
      assert Reprobed(s.byId[id], path, threshold, inline(id)).meta.available
             == Probed(Row(true, s.byId[id]), path, threshold, inline(id)).meta.available by {
        ReprobedLikeProbed(s.byId[id], path, threshold, inline(id));
      }
      ProbedExactly(Row(true, s.byId[id]), path, threshold, inline(id));
    }
  }

  /** What a row was before makes no difference to a new lookup. */
  lemma ReprobedLikeProbed(m: Meta, path: string -> Option<string>, threshold: int, probe: Probe)
    ensures Reprobed(m, path, threshold, probe) == Probed(Row(true, m), path, threshold, probe)
  {
    assert Resolve(m, path) == Resolve(Decode(Row(true, m)), path);
  }

  /** A builtin agent that was online once. */
  const ONCE_ONLINE :=
    Meta(true, Acp, Builtin, None, Some("x"), false, None, None, "", NO_SNAPSHOT.(successAt := Some(1)), false, None)

  lemma HydrateOnceOnline(start: State, threshold: int) returns (s: State)
    requires start == EMPTY.(rows := map["a" := Row(true, ONCE_ONLINE)])
    ensures Hydrated(start, s, Somewhere, TimesOut, threshold) && s.pending == ["a"] && "a" in s.byId
    ensures s.byId["a"].snapshot == ONCE_ONLINE.snapshot
  {
    var m := ONCE_ONLINE.(available := true, resolved := Some("/bin/x"));
    s := start.(byId := map["a" := m], pending := ["a"]);
    assert RowVerdicts(start.rows, Somewhere, TimesOut, threshold) == map["a" := Verdict(m, None, PendingRecheck)];
  }

  /** A failing recheck of a row that was online once: the cache remembers that, the table no longer does. */
  lemma RecheckForgetsInTable(threshold: int, result: string -> RecheckResult)
    requires result("a").probe.Failed?
    ensures exists start, s ::
              && Hydrated(start, s, Somewhere, TimesOut, threshold)
              && var t := RecheckDone(s, result);
                 "a" in t.byId && "a" in t.rows && t.byId["a"].snapshot != t.rows["a"].meta.snapshot
  {
    var start := EMPTY.(rows := map["a" := Row(true, ONCE_ONLINE)]);
    var s := HydrateOnceOnline(start, threshold);
    RecheckAgreesExactly(s, result, "a");
  }
}
