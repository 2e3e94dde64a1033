/**
  The worker task manager when calls on a conversation do not overlap, together with the token service and the lease
  registry.
 */
module TaskManager {
  import opened Common
  import opened AgentTypes
  import opened TaskTypes
  import opened RuntimeEnv
  import opened RuntimeTokens
  import opened ActiveLeases

  const TEAM_GENERATION := "default"
  const TEAM_SCOPES := {TeamContext, TeamCall}

  datatype AgentInfo = AgentInfo(agentType: AgentType, status: Option<ConversationStatus>, lastActivity: int)

  /** A new team grant. */
  function TeamGrant(user: string, conv: string, candidate: string, now: int): Grant {
    Grant(candidate, Claims(user, conv, TEAM_SCOPES, now, TEAM_GENERATION))
  }

  /**
    The grant of a task rebuilt for `conv` after the calls `h`: a new one, unless the options name another
    conversation whose live token is good enough.
   */
  function RebuildGrant(h: seq<Call>, conv: string, options: BuildOptions, candidate: string, now: int): Grant {
    var live := Live(h, options.user, options.conv);
    if options.conv != conv && live.Some?
       && Covers(live.value.claims, options.user, options.conv, TEAM_GENERATION, TEAM_SCOPES)
    then live.value
    else TeamGrant(options.user, options.conv, candidate, now)
  }

  /** What a new team task of the options gets after the calls `h`. */
  function NextGrant(h: seq<Call>, options: BuildOptions, candidate: string, now: int): Grant {
    var live := Live(h, options.user, options.conv);
    if live.Some? && Covers(live.value.claims, options.user, options.conv, TEAM_GENERATION, TEAM_SCOPES)
    then live.value
    else TeamGrant(options.user, options.conv, candidate, now)
  }

  lemma GrantAfterRevocation(h: seq<Call>, conv: string, options: BuildOptions, candidate: string, now: int)
    requires Honest(h)
    ensures NextGrant(h + [InvalidatedConversationId(conv)], options, candidate, now)
            == RebuildGrant(h, conv, options, candidate, now)
  {
    LiveExtend(h, InvalidatedConversationId(conv), options.user, options.conv);
    LiveIsHonest(h, options.user, options.conv);
  }

  /** The token validates for both team scopes. */
  ghost predicate ValidatesForTeam(h: seq<Call>, token: string, user: string, conv: string) {
    && Accepts(h, Some(token), user, conv, TeamContext, "default")
    && Accepts(h, Some(token), user, conv, TeamCall, "default")
  }

  /** Every token the conversation got in `before` is unknown after `now`. */
  ghost predicate AllRevoked(before: seq<Call>, now: seq<Call>, conv: string) {
    forall c :: c in before && c.Issued? && c.conv == conv ==> !Known(now, c.grant.token)
  }

  /** Revoking a conversation is for good, whatever follows, as long as it is issued new tokens only. */
  lemma RevokedForGood(h: seq<Call>, rest: seq<Call>, conv: string)
    requires OnePairPerToken(h + [InvalidatedConversationId(conv)] + rest) && Honest(h)
    requires forall c :: c in rest && c.Issued? && c.conv == conv ==> c.grant.token !in Granted(h)
    ensures AllRevoked(h, h + [InvalidatedConversationId(conv)] + rest, conv)
  {
    var now := h + [InvalidatedConversationId(conv)] + rest;
    forall c, u, v | c in h && c.Issued? && c.conv == conv && Live(now, u, v).Some?
      ensures Live(now, u, v).value.token != c.grant.token
    {
      var i := LatestIssue(now, u, v);
      LiveWasIssued(now, u, v);
      assert c in now && c.grant.token in Granted(h);
      assert i < |h| ==> now[i] == h[i] && h[i] in h;
      assert i > |h| ==> now[i] in rest;
      assert now[|h|] == InvalidatedConversationId(conv);
    }
  }

  /** The calls are about other conversations. */
  ghost predicate Elsewhere(calls: seq<Call>, conv: string) {
    forall c :: c in calls ==> c.conv != conv
  }

  lemma {:induction false} LiveKept(h: seq<Call>, rest: seq<Call>, user: string, conv: string)
    requires Elsewhere(rest, conv) && Live(h, user, conv).Some? && Live(h, user, conv).value.claims.conv == conv
    ensures Live(h + rest, user, conv) == Live(h, user, conv)
  {
    if rest == [] {
      assert h + rest == h;
    } else {
      var n := |rest| - 1;
      assert rest == rest[..n] + [rest[n]] && h + rest == h + rest[..n] + [rest[n]];
      LiveKept(h, rest[..n], user, conv);
      LiveExtend(h + rest[..n], rest[n], user, conv);
    }
  }

  /**
    Revoking a conversation and later issuing a token never handed out before leaves that token as the only one of the
    conversation that is known, whatever happens to other conversations in between and afterwards.
   */
  lemma RevokeThenIssue(h: seq<Call>, mid: seq<Call>, post: seq<Call>, conv: string, grant: Grant)
    requires IsToken(grant.token) && grant.token !in Granted(h)
    requires grant.claims.conv == conv && TEAM_SCOPES <= grant.claims.scopes
             && grant.claims.generation == TEAM_GENERATION
    requires Elsewhere(mid, conv) && Elsewhere(post, conv) && Honest(h)
    requires OnePairPerToken(h + [InvalidatedConversationId(conv)]
                             + (mid + [Issued(grant.claims.user, conv, grant)] + post))
    ensures var now := h + [InvalidatedConversationId(conv)] + (mid + [Issued(grant.claims.user, conv, grant)] + post);
            AllRevoked(h, now, conv) && ValidatesForTeam(now, grant.token, grant.claims.user, conv)
  {
    var issued := [Issued(grant.claims.user, conv, grant)];
    var before := h + [InvalidatedConversationId(conv)] + mid;
    RevokedForGood(h, mid + issued + post, conv);
    LiveExtend(before, issued[0], grant.claims.user, conv);
    LiveKept(before + issued, post, grant.claims.user, conv);
    assert before + issued + post == h + [InvalidatedConversationId(conv)] + (mid + issued + post);
    TokenIsTrimmed(grant.token);
  }

  /**
    A team task was rebuilt for `conv`: its environment has exactly one runtime token, which validates for both team
    scopes, and is otherwise as asked for; every token the conversation got before is unknown.
   */
  ghost predicate TeamRebuilt(h: seq<Call>, after: seq<Call>, conv: string, options: BuildOptions, env: Env,
                              candidate: string, now: int)
  {
    var grant := RebuildGrant(h, conv, options, candidate, now);
    && (forall k :: Values(env, k) == if k == TOKEN_ENV then [grant.token] else Values(options.env, k))
    && ValidatesForTeam(after, grant.token, options.user, options.conv)
    && AllRevoked(h, after, conv)
  }

  lemma IssuedValidates(h: seq<Call>, options: BuildOptions, grant: Grant)
    requires IsToken(grant.token) && TEAM_SCOPES <= grant.claims.scopes && grant.claims.generation == TEAM_GENERATION
    ensures ValidatesForTeam(h + [Issued(options.user, options.conv, grant)], grant.token, options.user, options.conv)
  {
    LiveExtend(h, Issued(options.user, options.conv, grant), options.user, options.conv);
    TokenIsTrimmed(grant.token);
  }

  /** Revoking and issuing does that, whether or not the options name the conversation that is rebuilt. */
  lemma RebuildTokens(h: seq<Call>, conv: string, options: BuildOptions, candidate: string, now: int)
    requires candidate !in Granted(h) && Honest(h)
    requires var grant := RebuildGrant(h, conv, options, candidate, now);
             && IsToken(grant.token)
             && OnePairPerToken(h + [InvalidatedConversationId(conv)] + [Issued(options.user, options.conv, grant)])
    ensures var grant := RebuildGrant(h, conv, options, candidate, now);
            var after := h + [InvalidatedConversationId(conv)] + [Issued(options.user, options.conv, grant)];
            TeamRebuilt(h, after, conv, options, Replaced(options.env, TOKEN_ENV, grant.token), candidate, now)
  {
    var grant := RebuildGrant(h, conv, options, candidate, now);
    var issued := Issued(options.user, options.conv, grant);
    forall k {
      ReplacedOnce(options.env, TOKEN_ENV, grant.token, k);
    }
    RevokedForGood(h, [issued], conv);
    IssuedValidates(h + [InvalidatedConversationId(conv)], options, grant);
  }

  class WorkerTaskManager {
    var tasks: map<string, Option<Managed>> // an empty cell is a slot whose build failed
    const leases: ActiveLeaseRegistry
    const tokenService: RuntimeTokenService?
    ghost var killed: seq<nat>

    ghost predicate Valid()
      reads this, leases, tokenService
    {
      leases.Valid() && (tokenService != null ==> tokenService.Valid())
    }

    constructor (leases: ActiveLeaseRegistry, tokenService: RuntimeTokenService?)
      requires leases.Valid() && (tokenService != null ==> tokenService.Valid())
      ensures Valid() && tasks == map[] && this.leases == leases && this.tokenService == tokenService && killed == []
    {
      this.leases, this.tokenService := leases, tokenService;
      tasks, killed := map[], [];
    }

    /** Remove the conversation's slot, revoke its tokens and ask its agent to die. */
    method Kill(conv: string, killOk: bool) returns (ok: bool)
      requires Valid()
      modifies `tasks, `killed, tokenService
      ensures Valid() && tasks == old(tasks) - {conv}
      ensures tokenService != null ==>
                tokenService.history
                == old(tokenService.history) + (if conv in old(tasks) then [InvalidatedConversationId(conv)] else [])
      ensures var agent := if conv in old(tasks) then old(tasks)[conv] else None;
              && killed == old(killed) + (if agent.Some? then [agent.value.agent] else [])
              && ok == (agent.Some? ==> killOk)
    {
      ok := true;
      if conv in tasks {
        var slot := tasks[conv];
        tasks := tasks - {conv};
        if tokenService != null {
          tokenService.InvalidateConversationId(conv);
        }
        if slot.Some? {
          killed := killed + [slot.value.agent];
          ok := killOk;
        }
      }
    }

    /** A team task that is rebuilt gets a token of its own. */
    method RefreshRuntimeToken(options: BuildOptions, candidate: string, now: int) returns (r: BuildOptions)
      requires Valid()
      requires tokenService != null ==> IsToken(candidate) && candidate !in Granted(tokenService.history)
      modifies tokenService
      ensures Valid()
      ensures !options.team || tokenService == null ==> r == options
      ensures tokenService != null && !options.team ==> tokenService.history == old(tokenService.history)
      ensures tokenService != null && options.team ==>
                var grant := NextGrant(old(tokenService.history), options, candidate, now);
                && IsToken(grant.token)
                && tokenService.history == old(tokenService.history) + [Issued(options.user, options.conv, grant)]
                && r == options.(env := Replaced(options.env, TOKEN_ENV, grant.token))
    {
      r := options;
      if options.team && tokenService != null {
        var grant := tokenService.Issue(options.user, options.conv, TEAM_GENERATION, TEAM_SCOPES, candidate, now);
        r := options.(env := Replaced(options.env, TOKEN_ENV, grant.token));
      }
    }

    /** The conversation holds an agent that is not capable enough. */
    ghost predicate NeedsRebuild(conv: string, caps: Capabilities)
      reads this
    {
      conv in tasks && tasks[conv].Some? && !tasks[conv].value.caps.Satisfies(caps)
    }

    /** `seen` is what the factory was called with, if it was. */
    method GetOrBuildTask(conv: string, options: BuildOptions, candidate: string, now: int, killOk: bool,
                          build: Option<nat>)
      returns (r: Option<nat>, seen: Option<BuildOptions>)
      requires Valid()
      requires tokenService != null ==> IsToken(candidate) && candidate !in Granted(tokenService.history)
      modifies `tasks, `killed, tokenService
      ensures Valid()
      ensures tasks - {conv} == old(tasks) - {conv}
      // the answer is stored and capable enough
      ensures r.Some? ==> conv in tasks && tasks[conv].Some? && tasks[conv].value.agent == r.value
                          && tasks[conv].value.caps.Satisfies(options.caps)
      // the factory runs unless a capable agent is there or the old one could not be killed, and its agent is the
      // answer
      ensures seen.Some? <==> if old(NeedsRebuild(conv, options.caps)) then killOk
                              else !(conv in old(tasks) && old(tasks)[conv].Some?)
      ensures seen.Some? ==> r == build && seen.value.caps == options.caps
      ensures !old(NeedsRebuild(conv, options.caps)) ==> killed == old(killed) && (seen.Some? ==> seen.value == options)
      ensures old(NeedsRebuild(conv, options.caps)) ==> killed == old(killed) + [old(tasks)[conv].value.agent]
      // a team rebuild hands the factory exactly one token, which validates for both team scopes and is new if the
      // options name this conversation; every token this conversation got before is unknown
      ensures old(NeedsRebuild(conv, options.caps)) && killOk && options.team && tokenService != null ==>
                TeamRebuilt(old(tokenService.history), tokenService.history, conv, options, seen.value.env,
                            candidate, now)
      // nothing else touches tokens or options
      ensures tokenService != null && !old(NeedsRebuild(conv, options.caps)) ==>
                tokenService.history == old(tokenService.history)
      ensures seen.Some? && !(options.team && tokenService != null) ==> seen.value == options
    {
      var opts := options;
      seen := None;
      if conv in tasks && tasks[conv].Some? && !tasks[conv].value.caps.Satisfies(options.caps) {
        opts := Rebuild(conv, options, candidate, now, killOk);
        if !killOk {
          return None, None;
        }
      }
      if conv !in tasks {
        tasks := tasks[conv := None];
      }
      if tasks[conv].Some? {
        return Some(tasks[conv].value.agent), None;
      }
      seen := Some(opts);
      r := build;
      if build.Some? {
        tasks := tasks[conv := Some(Managed(build.value, options.caps))];
      }
    }

    /** Kill the old agent; if that worked, prepare the options for its successor. */
    method Rebuild(conv: string, options: BuildOptions, candidate: string, now: int, killOk: bool)
      returns (opts: BuildOptions)
      requires Valid() && NeedsRebuild(conv, options.caps)
      requires tokenService != null ==> IsToken(candidate) && candidate !in Granted(tokenService.history)
      modifies `tasks, `killed, tokenService
      ensures Valid() && tasks == old(tasks) - {conv}
      ensures killed == old(killed) + [old(tasks)[conv].value.agent]
      ensures opts.caps == options.caps
      ensures !(options.team && tokenService != null) ==> opts == options
      ensures killOk && options.team && tokenService != null ==>
                TeamRebuilt(old(tokenService.history), tokenService.history, conv, options, opts.env, candidate, now)
    {
      opts := options;
      ghost var h := if tokenService != null then tokenService.history else [];
      var ok := Kill(conv, killOk);
      if !ok {
        return;
      }
      assert tokenService != null ==> Granted(tokenService.history) == Granted(h);
      opts := RefreshRuntimeToken(options, candidate, now);
      if options.team && tokenService != null {
        GrantAfterRevocation(h, conv, options, candidate, now);
        RebuildTokens(h, conv, options, candidate, now);
      }
    }

    /** Selected for idle cleanup by a scan that started at `now` and asked for the lease at `asked`. */
    ghost predicate Idle(conv: string, info: nat -> AgentInfo, threshold: int, now: int, asked: int)
      reads this, leases
    {
      && conv in tasks && tasks[conv].Some?
      && var agent := info(tasks[conv].value.agent);
         && agent.agentType == Acp
         && (agent.status.None? || agent.status == Some(Finished))
         && Saturate(now - agent.lastActivity) > threshold
         && !(conv in leases.unpruned && leases.unpruned[conv] > asked)
    }

    /**
      Exactly the idle conversations, each once, in whatever order the map yields them. The idle time is measured at
      `now`; the clock is read again, later and later, for every lease that is asked for.
     */
    method CollectIdle(threshold: int, now: int, clock: nat -> int, info: nat -> AgentInfo)
      returns (ids: seq<string>, ghost asked: map<string, int>)
      requires Valid() && leases.clock <= now && now <= clock(0)
      requires forall i: nat, j: nat :: i <= j ==> clock(i) <= clock(j)
      modifies leases
      ensures Valid() && leases.unpruned == old(leases.unpruned)
      ensures NoDuplicates(ids) && asked.Keys == tasks.Keys
      ensures forall conv :: conv in tasks ==> exists i: nat :: asked[conv] == clock(i)
      ensures forall conv :: conv in ids <==> conv in tasks && Idle(conv, info, threshold, now, asked[conv])
    {
      ids, asked := [], map[];
      var reading: nat := 0;
      var rest := tasks.Keys;
      while rest != {}
        invariant Valid() && leases.clock <= clock(reading) && leases.unpruned == old(leases.unpruned)
        invariant rest <= tasks.Keys && NoDuplicates(ids) && asked.Keys == tasks.Keys - rest
        invariant forall conv :: conv in asked ==> exists i: nat :: asked[conv] == clock(i)
        invariant forall conv :: conv in ids <==> conv in asked && Idle(conv, info, threshold, now, asked[conv])
        decreases rest
      {
        var conv :| conv in rest;
        rest := rest - {conv};
        asked := asked[conv := clock(reading)];
        if tasks[conv].None? {
          continue;
        }
        var agent := info(tasks[conv].value.agent);
        if agent.agentType != Acp || !(agent.status.None? || agent.status == Some(Finished))
           || Saturate(now - agent.lastActivity) <= threshold
        {
          continue;
        }
        var lease := leases.ActiveUntil(conv, clock(reading));
        reading := reading + 1;
        if lease.None? {
          ids := ids + [conv];
        }
      }
    }
  }
}
