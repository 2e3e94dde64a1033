/**
  Runtime tokens under concurrent calls. `team` says which conversations belong to a team; a call on one of them is
  issued a token when it begins and again when it has removed an agent that was not capable enough. Every removal
  of a slot revokes the conversation's token.
 */
module TaskTokens {
  import opened Common
  import opened TaskTypes
  import opened TaskProtocol
  import opened TaskRuns

  /** Tokens are numbered as they are minted; `carried` has the token each agent was started with. */
  datatype Tokens = Tokens(live: map<string, nat>, minted: nat, held: map<nat, nat>, carried: seq<Option<nat>>)

  const NO_TOKENS := Tokens(map[], 0, map[], [])

  /** The step gets a token for its call: at the beginning, or to rebuild. */
  predicate Issues(team: string -> bool, s: State, step: Step)
    requires Enabled(s, step)
  {
    || (step.Begin? && step.kind.GetOrBuild? && team(step.conv))
    || (step.Remove? && s.calls[step.call].kind.GetOrBuild? && s.calls[step.call].todo == []
        && team(s.calls[step.call].conv))
  }

  function ConversationOf(s: State, step: Step): string
    requires Enabled(s, step)
  {
    if step.Begin? then step.conv else s.calls[step.call].conv
  }

  /** The conversation's live token again, or a new one. */
  function Issue(t: Tokens, conv: string, call: nat): Tokens {
    if conv in t.live then t.(held := t.held[call := t.live[conv]])
    else t.(live := t.live[conv := t.minted], minted := t.minted + 1, held := t.held[call := t.minted])
  }

  function After(team: string -> bool, s: State, t: Tokens, step: Step): Tokens
    requires Enabled(s, step)
  {
    if Issues(team, s, step) then Issue(t, ConversationOf(s, step), step.call)
    else if step.Revoke? then t.(live := t.live - {s.slots[s.calls[step.call].phase.slot].conv})
    else if step.Built? then
      t.(carried := t.carried + [if step.call in t.held then Some(t.held[step.call]) else None])
    else t
  }

  ghost function TokensOf(team: string -> bool, steps: seq<Step>): Tokens
    requires Legal(steps)
  {
    if steps == [] then NO_TOKENS
    else
      var n := |steps| - 1;
      After(team, Exec(steps[..n]), TokensOf(team, steps[..n]), steps[n])
  }

  /** The conversation's live token is `token`. */
  predicate IsLive(t: Tokens, conv: string, token: nat) {
    conv in t.live && t.live[conv] == token
  }

  // ----- what single steps do -----

  /** Step `i` issues a token to `call`, for `conv`. */
  ghost predicate IssuesAt(team: string -> bool, steps: seq<Step>, i: nat, call: nat) {
    && i < |steps|
    && steps[i].call == call
    && Legal(steps[..i])
    && Enabled(Exec(steps[..i]), steps[i])
    && Issues(team, Exec(steps[..i]), steps[i])
  }

  /** Step `i` revokes the token of `conv`. */
  ghost predicate RevokesAt(steps: seq<Step>, i: nat, conv: string) {
    && i < |steps|
    && steps[i].Revoke?
    && Legal(steps[..i])
    && Enabled(Exec(steps[..i]), steps[i])
    && Exec(steps[..i]).slots[Exec(steps[..i]).calls[steps[i].call].phase.slot].conv == conv
  }

  predicate Minted(t: Tokens) {
    && (forall conv :: conv in t.live ==> t.live[conv] < t.minted)
    && (forall call :: call in t.held ==> t.held[call] < t.minted)
  }

  lemma MintedStep(team: string -> bool, s: State, t: Tokens, step: Step)
    requires Enabled(s, step) && Minted(t)
    ensures Minted(After(team, s, t, step))
  {
  }

  lemma CarriedGrows(team: string -> bool, s: State, t: Tokens, step: Step)
    requires Enabled(s, step) && |t.carried| == |s.homes|
    ensures |After(team, s, t, step).carried| == |Apply(s, step).homes|
  {
  }

  lemma {:induction false} AllMinted(team: string -> bool, steps: seq<Step>)
    requires Legal(steps)
    ensures Minted(TokensOf(team, steps)) && |TokensOf(team, steps).carried| == |Exec(steps).homes|
  {
    if steps != [] {
      var p, step := steps[..|steps| - 1], steps[|steps| - 1];
      AllMinted(team, p);
      MintedStep(team, Exec(p), TokensOf(team, p), step);
      CarriedGrows(team, Exec(p), TokensOf(team, p), step);
    }
  }

  /** Once a conversation's token is revoked it never comes back; until then it stays. */
  lemma LiveStep(team: string -> bool, s: State, t: Tokens, step: Step, conv: string, token: nat)
    requires Enabled(s, step) && Minted(t) && token < t.minted
    ensures var u := After(team, s, t, step);
            && token < u.minted
            && (IsLive(u, conv, token)
                <==> && IsLive(t, conv, token)
                     && !(step.Revoke? && s.slots[s.calls[step.call].phase.slot].conv == conv))
  {
  }

  /** A token live after `k` steps is live at the end exactly if its conversation was not revoked since. */
  lemma {:induction false} LiveSince(team: string -> bool, steps: seq<Step>, k: nat, conv: string, token: nat)
    requires Legal(steps) && k <= |steps| && Legal(steps[..k]) && IsLive(TokensOf(team, steps[..k]), conv, token)
    ensures IsLive(TokensOf(team, steps), conv, token) <==> !exists m: nat :: k <= m && RevokesAt(steps, m, conv)
    ensures token < TokensOf(team, steps).minted
  {
    AllMinted(team, steps[..k]);
    if k == |steps| {
      assert steps[..k] == steps;
    } else {
      var n := |steps| - 1;
      var p := steps[..n];
      assert p[..k] == steps[..k];
      LiveSince(team, p, k, conv, token);
      AllMinted(team, p);
      LiveStep(team, Exec(p), TokensOf(team, p), steps[n], conv, token);
      forall m: nat | m < n ensures RevokesAt(steps, m, conv) <==> RevokesAt(p, m, conv) {
        assert p[..m] == steps[..m];
      }
      RevokedBySteps(steps, p, k, conv);
    }
  }

  lemma RevokedBySteps(steps: seq<Step>, p: seq<Step>, k: nat, conv: string)
    requires |steps| == |p| + 1 && k <= |p|
    requires forall m: nat :: m < |p| ==> (RevokesAt(steps, m, conv) <==> RevokesAt(p, m, conv))
    ensures (exists m: nat :: k <= m && RevokesAt(steps, m, conv))
            <==> (exists m: nat :: k <= m && RevokesAt(p, m, conv)) || RevokesAt(steps, |p|, conv)
  {
    if m: nat :| k <= m && RevokesAt(p, m, conv) {
      assert RevokesAt(steps, m, conv);
    }
  }

  // ----- the token a call holds -----

  lemma HeldStep(team: string -> bool, s: State, t: Tokens, step: Step, call: nat)
    requires Enabled(s, step) && !(step.call == call && Issues(team, s, step)) && call in t.held
    ensures call in After(team, s, t, step).held && After(team, s, t, step).held[call] == t.held[call]
  {
  }

  lemma IssueStep(team: string -> bool, s: State, t: Tokens, step: Step)
    requires Enabled(s, step) && Issues(team, s, step)
    ensures var u := After(team, s, t, step);
            step.call in u.held && IsLive(u, ConversationOf(s, step), u.held[step.call])
  {
  }

  /** The latest token issued to `call` was issued at step `k`. */
  ghost predicate LatestIssue(team: string -> bool, steps: seq<Step>, k: nat, call: nat) {
    IssuesAt(team, steps, k, call) && forall m: nat :: k < m ==> !IssuesAt(team, steps, m, call)
  }

  lemma IssuesInPrefix(team: string -> bool, steps: seq<Step>, n: nat, m: nat, call: nat)
    requires n <= |steps|
    ensures IssuesAt(team, steps[..n], m, call) <==> m < n && IssuesAt(team, steps, m, call)
  {
    if m < n {
      assert steps[..n][..m] == steps[..m];
    }
  }

  lemma LatestIssueExtend(team: string -> bool, steps: seq<Step>, k: nat, call: nat)
    requires steps != [] && LatestIssue(team, steps[..|steps| - 1], k, call)
    requires !IssuesAt(team, steps, |steps| - 1, call)
    ensures LatestIssue(team, steps, k, call)
  {
    forall m: nat
      ensures IssuesAt(team, steps[..|steps| - 1], m, call) <==> m < |steps| - 1 && IssuesAt(team, steps, m, call)
    {
      IssuesInPrefix(team, steps, |steps| - 1, m, call);
    }
  }

  /** The call holds the token of its issue at `k`, which was then the live one of `conv`. */
  ghost predicate HeldSince(team: string -> bool, steps: seq<Step>, k: nat, call: nat, conv: string) {
    && k < |steps|
    && Legal(steps) && Legal(steps[..k + 1])
    && call in TokensOf(team, steps).held
    && IsLive(TokensOf(team, steps[..k + 1]), conv, TokensOf(team, steps).held[call])
  }

  lemma HeldSinceIssue(team: string -> bool, steps: seq<Step>)
    requires Legal(steps) && steps != [] && IssuesAt(team, steps, |steps| - 1, steps[|steps| - 1].call)
    ensures var step := steps[|steps| - 1];
            HeldSince(team, steps, |steps| - 1, step.call, ConversationOf(Exec(steps[..|steps| - 1]), step))
  {
    var n := |steps| - 1;
    IssueStep(team, Exec(steps[..n]), TokensOf(team, steps[..n]), steps[n]);
    assert steps[..n + 1] == steps;
  }

  lemma HeldSinceExtend(team: string -> bool, steps: seq<Step>, k: nat, call: nat, conv: string)
    requires Legal(steps) && steps != [] && HeldSince(team, steps[..|steps| - 1], k, call, conv)
    requires !IssuesAt(team, steps, |steps| - 1, call)
    ensures HeldSince(team, steps, k, call, conv)
  {
    var p := steps[..|steps| - 1];
    HeldStep(team, Exec(p), TokensOf(team, p), steps[|steps| - 1], call);
    assert p[..k + 1] == steps[..k + 1];
  }

  /** A team call that may build holds the token of its latest issue. */
  lemma {:induction false} HoldsLatest(team: string -> bool, steps: seq<Step>, call: nat) returns (k: nat)
    requires Legal(steps) && call in Exec(steps).calls && Exec(steps).calls[call].kind.GetOrBuild?
    requires team(Exec(steps).calls[call].conv)
    ensures LatestIssue(team, steps, k, call) && HeldSince(team, steps, k, call, Exec(steps).calls[call].conv)
  {
    var n := |steps| - 1;
    OwnCallOnly(Exec(steps[..n]), steps[n]);
    if IssuesAt(team, steps, n, call) {
      k := n;
      HeldSinceIssue(team, steps);
    } else {
      k := HoldsLatest(team, steps[..n], call);
      LatestIssueExtend(team, steps, k, call);
      HeldSinceExtend(team, steps, k, call, Exec(steps).calls[call].conv);
    }
  }

  // ----- the token an agent was started with -----

  lemma CarriedStep(team: string -> bool, s: State, t: Tokens, step: Step, agent: nat)
    requires Enabled(s, step) && agent < |t.carried|
    ensures agent < |After(team, s, t, step).carried| && After(team, s, t, step).carried[agent] == t.carried[agent]
  {
  }

  lemma {:induction false} CarriedForGood(team: string -> bool, steps: seq<Step>, i: nat, agent: nat)
    requires Legal(steps) && i <= |steps| && Legal(steps[..i]) && agent < |TokensOf(team, steps[..i]).carried|
    ensures agent < |TokensOf(team, steps).carried|
    ensures TokensOf(team, steps).carried[agent] == TokensOf(team, steps[..i]).carried[agent]
  {
    if i == |steps| {
      assert steps[..i] == steps;
    } else {
      var p := steps[..|steps| - 1];
      assert p[..i] == steps[..i];
      CarriedForGood(team, p, i, agent);
      CarriedStep(team, Exec(p), TokensOf(team, p), steps[|steps| - 1], agent);
    }
  }

  lemma CarriedAtBirth(team: string -> bool, steps: seq<Step>, j: nat, slot: nat)
    requires Legal(steps) && BuildsOn(steps, j, slot) && Legal(steps[..j + 1])
    ensures var agent, held := |Exec(steps[..j]).homes|, TokensOf(team, steps[..j]).held;
            && HasAgent(Exec(steps[..j + 1]), slot, agent)
            && agent < |TokensOf(team, steps[..j + 1]).carried|
            && TokensOf(team, steps[..j + 1]).carried[agent]
               == if steps[j].call in held then Some(held[steps[j].call]) else None
  {
    assert steps[..j + 1][..j] == steps[..j];
    ScheduleKeeps(steps[..j]);
    AllMinted(team, steps[..j]);
    AgentOfBuild(Exec(steps[..j]), steps[j], slot);
  }

  /** The agent built at step `j` is the next one, and carries what its builder holds. */
  lemma BuiltCarries(team: string -> bool, steps: seq<Step>, j: nat, slot: nat)
    requires Legal(steps) && BuildsOn(steps, j, slot)
    ensures var agent, held := |Exec(steps[..j]).homes|, TokensOf(team, steps[..j]).held;
            && HasAgent(Exec(steps), slot, agent)
            && agent < |TokensOf(team, steps).carried|
            && TokensOf(team, steps).carried[agent]
               == if steps[j].call in held then Some(held[steps[j].call]) else None
  {
    var agent := |Exec(steps[..j]).homes|;
    LegalPrefix(steps, j + 1);
    CarriedAtBirth(team, steps, j, slot);
    AgentStays(steps, j + 1, slot, agent);
    CarriedForGood(team, steps, j + 1, agent);
  }

  lemma AgentOfBuild(s: State, step: Step, slot: nat)
    requires Inv(s) && Enabled(s, step) && step.Built? && s.calls[step.call].phase == Building(slot)
    ensures HasAgent(Apply(s, step), slot, |s.homes|)
  {
    assert CallOk(s, step.call);
  }

  /**
    The agent a team call gets was started with a token; that token is the conversation's live one exactly if the
    conversation was not revoked since its builder's latest issue. That issue, at step `k`, and the build, at step `j`,
    may be another call's.
   */
  lemma ReturnedTokenExactly(team: string -> bool, steps: seq<Step>, id: nat) returns (j: nat, k: nat)
    requires Legal(steps) && id in Exec(steps).calls && Exec(steps).calls[id].phase.Returned?
    requires team(Exec(steps).calls[id].conv)
    ensures BuildsOn(steps, j, Exec(steps).calls[id].phase.slot)
    ensures k < j && IssuesAt(team, steps, k, steps[j].call)
    ensures forall m: nat :: k < m < j ==> !IssuesAt(team, steps, m, steps[j].call)
    ensures var c := Exec(steps).calls[id];
            var carried := TokensOf(team, steps).carried;
            && c.phase.agent < |carried| && carried[c.phase.agent].Some?
            && (IsLive(TokensOf(team, steps), c.conv, carried[c.phase.agent].value)
                <==> !exists m: nat :: k < m && RevokesAt(steps, m, c.conv))
  {
    var s := Exec(steps);
    var slot := s.calls[id].phase.slot;
    ScheduleKeeps(steps);
    assert CallOk(s, id);
    j := BuiltOnce(steps, slot);
    BuilderSharesConversation(steps, j, slot);
    k := BuilderHolds(team, steps, j, slot);
    BuiltCarries(team, steps, j, slot);
    LiveSince(team, steps, k + 1, s.calls[id].conv, TokensOf(team, steps[..j]).held[steps[j].call]);
  }

  lemma BuilderIsACaller(steps: seq<Step>, j: nat, slot: nat)
    requires Legal(steps) && BuildsOn(steps, j, slot)
    ensures slot < |Exec(steps).slots| && Exec(steps[..j]).calls[steps[j].call].kind.GetOrBuild?
    ensures Exec(steps[..j]).calls[steps[j].call].conv == Exec(steps).slots[slot].conv
  {
    ScheduleKeeps(steps[..j]);
    assert CallOk(Exec(steps[..j]), steps[j].call);
    ScheduleOnward(steps, j);
  }

  lemma BuilderHolds(team: string -> bool, steps: seq<Step>, j: nat, slot: nat) returns (k: nat)
    requires Legal(steps) && BuildsOn(steps, j, slot)
    requires slot < |Exec(steps).slots| && team(Exec(steps).slots[slot].conv)
    ensures k < j && IssuesAt(team, steps, k, steps[j].call)
    ensures forall m: nat :: k < m < j ==> !IssuesAt(team, steps, m, steps[j].call)
    ensures steps[j].call in TokensOf(team, steps[..j]).held && Legal(steps[..k + 1])
    ensures IsLive(TokensOf(team, steps[..k + 1]), Exec(steps).slots[slot].conv,
                   TokensOf(team, steps[..j]).held[steps[j].call])
  {
    var p, call := steps[..j], steps[j].call;
    BuilderIsACaller(steps, j, slot);
    k := HoldsLatest(team, p, call);
    assert p[..k + 1] == steps[..k + 1];
    forall m: nat ensures IssuesAt(team, p, m, call) <==> m < j && IssuesAt(team, steps, m, call) {
      IssuesInPrefix(team, steps, j, m, call);
    }
  }

  // ----- rebuilding -----

  /** What a get_or_build_task still has to remove: its own conversation, once. */
  predicate ShortList(c: Call) {
    && (c.kind.GetOrBuild? && c.phase.Removing? ==> |c.todo| <= 1)
    && (c.kind.GetOrBuild? && (c.phase.Revoking? || c.phase.Looking?) ==> c.todo == [])
  }

  lemma ShortListStep(s: State, step: Step, id: nat)
    requires Enabled(s, step) && (id in s.calls ==> ShortList(s.calls[id])) && id in Apply(s, step).calls
    ensures ShortList(Apply(s, step).calls[id])
  {
    OwnCallOnly(s, step);
  }

  lemma {:induction false} ShortLists(steps: seq<Step>, id: nat)
    requires Legal(steps) && id in Exec(steps).calls
    ensures ShortList(Exec(steps).calls[id])
  {
    var n := |steps| - 1;
    if id in Exec(steps[..n]).calls {
      ShortLists(steps[..n], id);
    }
    ShortListStep(Exec(steps[..n]), steps[n], id);
  }

  /** A rebuilding call that has revoked the old token and not yet been issued a new one. */
  predicate AwaitsToken(c: Call) {
    c.phase.Looking? || (c.phase.Removing? && c.todo == []) || c.phase.Finished?
  }

  lemma AwaitsStep(team: string -> bool, s: State, step: Step, id: nat)
    requires Enabled(s, step) && id in s.calls && s.calls[id].kind.GetOrBuild? && team(s.calls[id].conv)
    requires AwaitsToken(s.calls[id]) && ShortList(s.calls[id])
    ensures id in Apply(s, step).calls
    ensures AwaitsToken(Apply(s, step).calls[id]) || (step.call == id && Issues(team, s, step))
  {
    OwnCallOnly(s, step);
  }

  /** A call that revoked its conversation's token to rebuild is issued another before it fetches a slot. */
  lemma {:induction false} RebuildGetsToken(team: string -> bool, steps: seq<Step>, m: nat, id: nat)
    requires Legal(steps) && m < |steps| && steps[m] == Revoke(id) && Legal(steps[..m]) && id in Exec(steps[..m]).calls
    requires Exec(steps[..m]).calls[id].kind.GetOrBuild? && team(Exec(steps[..m]).calls[id].conv)
    ensures id in Exec(steps).calls
    ensures AwaitsToken(Exec(steps).calls[id]) || exists k: nat :: m < k && IssuesAt(team, steps, k, id)
  {
    var n := |steps| - 1;
    if m < n {
      assert steps[..n][..m] == steps[..m];
      RebuildGetsToken(team, steps[..n], m, id);
      if k: nat :| m < k && IssuesAt(team, steps[..n], k, id) {
        IssuesInPrefix(team, steps, n, k, id);
        OwnCallOnly(Exec(steps[..n]), steps[n]);
      } else {
        ScheduleKeeps(steps[..m]);
        ScheduleOnward(steps[..n], m);
        ShortLists(steps[..n], id);
        AwaitsStep(team, Exec(steps[..n]), steps[n], id);
        assert IssuesAt(team, steps, n, id) || AwaitsToken(Exec(steps).calls[id]);
      }
    }
  }

  /** So the agent it builds itself does not carry the token it revoked. */
  lemma RebuildCarriesNewToken(team: string -> bool, steps: seq<Step>, m: nat, j: nat, slot: nat) returns (k: nat)
    requires Legal(steps) && BuildsOn(steps, j, slot) && m < j && steps[m] == Revoke(steps[j].call)
    requires Legal(steps[..m]) && steps[j].call in Exec(steps[..m]).calls
    requires slot < |Exec(steps).slots| && team(Exec(steps).slots[slot].conv)
    ensures m < k < j && IssuesAt(team, steps, k, steps[j].call)
    ensures forall n: nat :: k < n < j ==> !IssuesAt(team, steps, n, steps[j].call)
  {
    var p, id := steps[..j], steps[j].call;
    BuilderIsACaller(steps, j, slot);
    assert p[..m] == steps[..m];
    ScheduleOnward(p, m);
    RebuildGetsToken(team, p, m, id);
    var i: nat :| m < i && IssuesAt(team, p, i, id);
    IssuesInPrefix(team, steps, j, i, id);
    k := BuilderHolds(team, steps, j, slot);
  }

  /**
    A kill during a build revokes the token the build was started with, and the caller gets the agent nevertheless.
   */
  lemma KillRevokesUnderBuild(team: string -> bool)
    requires team("c")
    ensures exists steps, id ::
              && Legal(steps) && id in Exec(steps).calls && Exec(steps).calls[id].phase.Returned?
              && var carried := TokensOf(team, steps).carried;
                 var agent := Exec(steps).calls[id].phase.agent;
                 && agent < |carried| && carried[agent].Some?
                 && !IsLive(TokensOf(team, steps), Exec(steps).calls[id].conv, carried[agent].value)
  {
    var steps := BuiltAfterKill();
    var j, k := ReturnedTokenExactly(team, steps, 0);
    RevokedByKill(steps);
    IssuedOnlyAtBegin(team, steps, j, k);
  }

  lemma BuiltAfterKill() returns (steps: seq<Step>)
    ensures steps == BUILD_STEPS + RemoveSteps(Kill) + [Built(0)] && Legal(steps)
    ensures 0 in Exec(steps).calls && Exec(steps).calls[0].phase == Returned(0, 0) && Exec(steps).calls[0].conv == "c"
  {
    var run := KillDuringBuild(Kill);
    steps := Go(run, Built(0));
  }

  lemma RevokedByKill(steps: seq<Step>)
    requires steps == BUILD_STEPS + RemoveSteps(Kill) + [Built(0)]
    ensures RevokesAt(steps, 6, "c")
  {
    var before := RemoveDuringBuild(Kill);
    assert steps[..6] == before && steps[6] == Revoke(1);
  }

  /** In that schedule the build is the first call's, whose one issue is the first step. */
  lemma IssuedOnlyAtBegin(team: string -> bool, steps: seq<Step>, j: nat, k: nat)
    requires steps == BUILD_STEPS + RemoveSteps(Kill) + [Built(0)]
    requires BuildsOn(steps, j, 0) && IssuesAt(team, steps, k, steps[j].call)
    ensures k == 0
  {
    assert j == 9 && steps[j].call == 0;
  }
}
