/** The agent registry: the catalog cache, the reasons for missing agents and the list of probes still to settle. */
module AgentRegistry {
  import opened Common
  import opened AgentRows
  import opened SortedIds

  datatype State = State(
    rows: map<string, Row>,       // the database table
    byId: map<string, Meta>,      // the cache
    reasons: map<string, Reason>, // why a cached row is unavailable
    pending: seq<string>)         // rows whose version probe awaits the background recheck

  datatype RecheckResult = RecheckResult(probe: Probe, latency: int, at: int)

  // ----- what each operation leaves behind -----

  /** Every decodable row, located and probed. */
  function RowVerdicts(rows: map<string, Row>, path: string -> Option<string>, inline: string -> Probe,
                       threshold: int): map<string, Verdict> {
    map id | id in rows && rows[id].decodable :: Probed(rows[id], path, threshold, inline(id))
  }

  /** Every cached row, located and probed again. */
  function CacheVerdicts(byId: map<string, Meta>, path: string -> Option<string>, inline: string -> Probe,
                         threshold: int): map<string, Verdict> {
    map id | id in byId :: Reprobed(byId[id], path, threshold, inline(id))
  }

  /** Reasons and recheck list as a set of verdicts demands them, whatever order the verdicts came in. */
  ghost predicate Summarises(v: map<string, Verdict>, reasons: map<string, Reason>, pending: seq<string>) {
    && reasons == (map id | id in v && v[id].reason.Some? :: v[id].reason.value)
    && Sorted(pending)
    && (forall id :: id in pending <==> id in v && v[id].outcome == PendingRecheck)
  }

  ghost predicate Hydrated(s: State, t: State, path: string -> Option<string>, inline: string -> Probe,
                           threshold: int) {
    var v := RowVerdicts(s.rows, path, inline, threshold);
    t.rows == s.rows && t.byId == (map id | id in v :: v[id].meta) && Summarises(v, t.reasons, t.pending)
  }

  /** A cached row with the availability a verdict gave it and nothing else changed. */
  function Updated(m: Meta, v: Verdict): Meta {
    m.(available := v.meta.available, resolved := v.meta.resolved)
  }

  ghost predicate Refreshed(s: State, t: State, path: string -> Option<string>, inline: string -> Probe,
                            threshold: int) {
    var v := CacheVerdicts(s.byId, path, inline, threshold);
    && t.rows == s.rows
    && t.byId == (map id | id in s.byId :: Updated(s.byId[id], v[id]))
    && Summarises(v, t.reasons, t.pending)
  }

  function SetReason(reasons: map<string, Reason>, id: string, reason: Option<Reason>): map<string, Reason> {
    if reason.Some? then reasons[id := reason.value] else reasons - {id}
  }

  /** Refetch one row and look its command up again. */
  function Reloaded(s: State, id: string, path: string -> Option<string>): State {
    if id !in s.rows || !s.rows[id].decodable then s.(byId := s.byId - {id}, reasons := s.reasons - {id})
    else
      var (m, reason) := Located(Decode(s.rows[id]), path);
      s.(byId := s.byId[id := m], reasons := SetReason(s.reasons, id, reason))
  }

  /** Persist a handshake; a row already cached keeps its availability. */
  function Handshaken(s: State, id: string, handshake: string): State {
    if id !in s.rows then s
    else
      var row := s.rows[id].(meta := s.rows[id].meta.(handshake := handshake));
      var t := s.(rows := s.rows[id := row]);
      if !row.decodable then t
      else
        var (m, reason) := Remembered(Decode(row));
        if id in s.byId then
          var kept := m.(available := s.byId[id].available, resolved := s.byId[id].resolved);
          var why := if kept.available then None else if id in s.reasons then Some(s.reasons[id]) else reason;
          t.(byId := s.byId[id := kept], reasons := SetReason(s.reasons, id, why))
        else t.(byId := s.byId[id := m], reasons := SetReason(s.reasons, id, reason))
  }

  function WithSnapshot(row: Row, s: Snapshot): Row {
    row.(meta := row.meta.(snapshot := s))
  }

  /** Settle one pending row in the database and in the cache. */
  function SettleOne(s: State, id: string, r: RecheckResult): State {
    if id !in s.byId then s
    else
      var m := s.byId[id];
      s.(byId := s.byId[id := m.(snapshot := RecheckedInCache(m.snapshot, r.probe, r.latency, r.at))],
         rows := if id in s.rows
                 then s.rows[id := WithSnapshot(s.rows[id], Rechecked(r.probe, r.latency, r.at))]
                 else s.rows)
  }

  function SettleAll(s: State, ids: seq<string>, result: string -> RecheckResult): State {
    if ids == [] then s else SettleOne(SettleAll(s, ids[..|ids| - 1], result), ids[|ids| - 1], result(ids[|ids| - 1]))
  }

  function RecheckDone(s: State, result: string -> RecheckResult): State {
    SettleAll(s, s.pending, result).(pending := [])
  }

  class Registry {
    const threshold: int
    var rows: map<string, Row>
    var byId: map<string, Meta>
    var reasons: map<string, Reason>
    var pending: seq<string>

    ghost function Now(): State
      reads this
    {
      State(rows, byId, reasons, pending)
    }

    constructor (threshold: int, rows: map<string, Row>)
      ensures Now() == State(rows, map[], map[], []) && this.threshold == threshold
    {
      this.threshold, this.rows := threshold, rows;
      byId, reasons, pending := map[], map[], [];
    }

    /** Collect the verdicts of concurrent probes in the order they complete. */
    static method Collect(verdicts: map<string, Verdict>)
      returns (metas: map<string, Meta>, why: map<string, Reason>, queue: seq<string>)
      ensures metas == map id | id in verdicts :: verdicts[id].meta
      ensures Summarises(verdicts, why, queue)
    {
      metas, why, queue := map[], map[], [];
      var running := verdicts.Keys;
      while running != {}
        invariant running <= verdicts.Keys
        invariant metas == map id | id in verdicts && id !in running :: verdicts[id].meta
        invariant why == map id | id in verdicts && id !in running && verdicts[id].reason.Some? ::
                  verdicts[id].reason.value
        invariant NoDuplicates(queue)
        invariant forall id ::
                    id in queue <==> id in verdicts && id !in running && verdicts[id].outcome == PendingRecheck
        decreases running
      {
        var id :| id in running; // whichever probe completes next
        running := running - {id};
        var verdict := verdicts[id];
        if verdict.reason.Some? {
          why := why[id := verdict.reason.value];
        }
        if verdict.outcome == PendingRecheck {
          queue := queue + [id];
        }
        metas := metas[id := verdict.meta];
      }
      SortSorts(queue);
      queue := Sort(queue);
    }

    /** Reload every row from the database. */
    method Hydrate(path: string -> Option<string>, inline: string -> Probe)
      modifies this
      ensures Hydrated(old(Now()), Now(), path, inline, threshold)
    {
      byId, reasons, pending := Collect(RowVerdicts(rows, path, inline, threshold));
    }

    /** Copy availability and resolved command onto the cached rows. */
    static method WriteBack(cache: map<string, Meta>, verdicts: map<string, Verdict>) returns (r: map<string, Meta>)
      requires verdicts.Keys == cache.Keys
      ensures r == map id | id in cache :: Updated(cache[id], verdicts[id])
    {
      r := cache;
      var ids := verdicts.Keys;
      while ids != {}
        invariant ids <= cache.Keys
        invariant r == map id | id in cache :: if id in ids then cache[id] else Updated(cache[id], verdicts[id])
        decreases ids
      {
        var id :| id in ids;
        ids := ids - {id};
        r := r[id := r[id].(available := verdicts[id].meta.available, resolved := verdicts[id].meta.resolved)];
      }
    }

    /** Look every cached command up again without refetching the rows. */
    method RefreshAvailability(path: string -> Option<string>, inline: string -> Probe)
      modifies this
      ensures Refreshed(old(Now()), Now(), path, inline, threshold)
    {
      var verdicts := CacheVerdicts(byId, path, inline, threshold);
      var metas;
      metas, reasons, pending := Collect(verdicts);
      byId := WriteBack(byId, verdicts);
    }

    method ReloadOne(id: string, path: string -> Option<string>) returns (r: Option<Meta>)
      modifies this
      ensures Now() == Reloaded(old(Now()), id, path)
      ensures r == if id in byId then Some(byId[id]) else None
    {
      if id !in rows || !rows[id].decodable {
        byId, reasons := byId - {id}, reasons - {id};
        return None;
      }
      var (m, reason) := Located(Decode(rows[id]), path);
      reasons := SetReason(reasons, id, reason);
      byId := byId[id := m];
      return Some(m);
    }

    method ApplyHandshake(id: string, handshake: string)
      modifies this
      ensures Now() == Handshaken(old(Now()), id, handshake)
    {
      if id !in rows {
        return;
      }
      rows := rows[id := rows[id].(meta := rows[id].meta.(handshake := handshake))];
      if !rows[id].decodable {
        return;
      }
      var (m, reason) := Remembered(Decode(rows[id]));
      if id in byId {
        m := m.(available := byId[id].available, resolved := byId[id].resolved);
        if m.available {
          reason := None;
        } else if id in reasons {
          reason := Some(reasons[id]);
        }
      }
      reasons := SetReason(reasons, id, reason);
      byId := byId[id := m];
    }

    /** Settle every pending row, one after the other, with the wider budget. */
    method RunSlowProbeRecheck(result: string -> RecheckResult)
      modifies this
      ensures Now() == RecheckDone(old(Now()), result)
    {
      var ids := pending;
      pending := [];
      ghost var start := Now().(pending := ids);
      var i := 0;
      while i < |ids|
        invariant 0 <= i <= |ids| && pending == []
        invariant Now() == SettleAll(start, ids[..i], result).(pending := [])
      {
        var id, r := ids[i], result(ids[i]);
        ghost var before := SettleAll(start, ids[..i], result);
        assert ids[..i + 1][..i] == ids[..i];
        if id in byId {
          if id in rows {
            rows := rows[id := rows[id].(meta := rows[id].meta.(snapshot := Rechecked(r.probe, r.latency, r.at)))];
          }
          byId := byId[id := byId[id].(snapshot := RecheckedInCache(byId[id].snapshot, r.probe, r.latency, r.at))];
        }
        assert Now() == SettleOne(before, id, r).(pending := []);
        i := i + 1;
      }
      assert ids[..i] == ids;
    }
  }
}
