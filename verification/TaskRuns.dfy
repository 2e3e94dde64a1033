/** What holds in every interleaving of the task manager's calls. */
module TaskRuns {
  import opened Common
  import opened TaskTypes
  import opened TaskProtocol

  /** A slot of the conversation map. */
  ghost predicate InMap(s: State, slot: nat) {
    exists conv :: conv in s.tasks && s.tasks[conv] == slot
  }

  lemma MappedMeansInMap(s: State, slot: nat)
    requires Inv(s) && slot < |s.slots|
    ensures InMap(s, slot) <==> s.slots[slot].stage.Mapped?
  {
    assert SlotOk(s, slot);
  }

  predicate Filled(s: State, slot: nat) {
    slot < |s.slots| && s.slots[slot].cell.Some?
  }

  // ----- one step -----

  /** Calls keep what they were called with. */
  ghost predicate CallsOnward(s: State, t: State) {
    forall id :: id in s.calls ==>
      && id in t.calls
      && t.calls[id].kind == s.calls[id].kind
      && t.calls[id].conv == s.calls[id].conv
      && t.calls[id].caps == s.calls[id].caps
  }

  /** Cells are written once, slots leave the map for good, and a slot that was dealt with stays so. */
  ghost predicate SlotsOnward(s: State, t: State) {
    && |s.slots| <= |t.slots|
    && (forall slot: nat :: slot < |s.slots| ==>
          && t.slots[slot].conv == s.slots[slot].conv
          && (s.slots[slot].cell.Some? ==> t.slots[slot].cell == s.slots[slot].cell)
          && (!s.slots[slot].stage.Mapped? ==> !t.slots[slot].stage.Mapped?)
          && (s.slots[slot].stage.Reaped? ==> t.slots[slot].stage.Reaped?))
  }

  ghost predicate Onward(s: State, t: State) {
    CallsOnward(s, t) && SlotsOnward(s, t) && s.killed <= t.killed
  }

  /** A step moves its own call and no other. */
  lemma OwnCallOnly(s: State, step: Step)
    requires Enabled(s, step)
    ensures var t := Apply(s, step);
            && step.call in t.calls
            && t.calls == s.calls[step.call := t.calls[step.call]]
            && (step.call in s.calls ==>
                  t.calls[step.call]
                    == s.calls[step.call].(phase := t.calls[step.call].phase, todo := t.calls[step.call].todo))
  {
  }

  lemma StepSlotsOnward(s: State, step: Step)
    requires Inv(s) && Enabled(s, step)
    ensures SlotsOnward(s, Apply(s, step)) && s.killed <= Apply(s, step).killed
  {
    if !step.Begin? {
      assert CallOk(s, step.call);
    }
  }

  lemma StepOnward(s: State, step: Step)
    requires Inv(s) && Enabled(s, step)
    ensures Onward(s, Apply(s, step))
  {
    OwnCallOnly(s, step);
    StepSlotsOnward(s, step);
  }

  lemma {:induction false} ScheduleOnward(steps: seq<Step>, i: nat)
    requires Legal(steps) && i <= |steps|
    ensures Legal(steps[..i]) && Onward(Exec(steps[..i]), Exec(steps))
  {
    LegalPrefix(steps, i);
    if i == |steps| {
      assert steps[..i] == steps;
    } else {
      var n := |steps| - 1;
      ScheduleOnward(steps[..n], i);
      assert steps[..n][..i] == steps[..i];
      ScheduleKeeps(steps[..n]);
      StepOnward(Exec(steps[..n]), steps[n]);
    }
  }

  // ----- single flight -----

  /** Each slot has at most one running build. */
  lemma OneBuildPerSlot(steps: seq<Step>, a: nat, b: nat, slot: nat)
    requires Legal(steps)
    requires a in Exec(steps).calls && b in Exec(steps).calls
    requires Exec(steps).calls[a].phase == Exec(steps).calls[b].phase == Building(slot)
    ensures a == b
  {
    ScheduleKeeps(steps);
    assert CallOk(Exec(steps), a) && CallOk(Exec(steps), b);
  }

  /** A slot holds at most one agent ever. */
  lemma CellIsWriteOnce(steps: seq<Step>, i: nat, slot: nat)
    requires Legal(steps) && i <= |steps| && Legal(steps[..i])
    requires slot < |Exec(steps[..i]).slots| && Exec(steps[..i]).slots[slot].cell.Some?
    ensures slot < |Exec(steps).slots| && Exec(steps).slots[slot].cell == Exec(steps[..i]).slots[slot].cell
  {
    ScheduleOnward(steps, i);
  }

  /**
    All callers that succeed on one slot get the same agent, whenever they do; callers of different slots never share
    one.
   */
  lemma SameAgent(steps: seq<Step>, i: nat, a: nat, b: nat)
    requires Legal(steps) && i <= |steps| && Legal(steps[..i])
    requires a in Exec(steps[..i]).calls && Exec(steps[..i]).calls[a].phase.Returned?
    requires b in Exec(steps).calls && Exec(steps).calls[b].phase.Returned?
    ensures var p, q := Exec(steps[..i]).calls[a].phase, Exec(steps).calls[b].phase;
            p.slot == q.slot <==> p.agent == q.agent
  {
    var s, t := Exec(steps[..i]), Exec(steps);
    ScheduleKeeps(steps[..i]);
    ScheduleKeeps(steps);
    ScheduleOnward(steps, i);
    assert CallOk(s, a) && CallOk(t, b);
    assert SlotOk(t, t.calls[b].phase.slot) && SlotOk(t, s.calls[a].phase.slot);
  }

  /** A slot that left the map never returns to it. */
  lemma RemovedStaysOut(steps: seq<Step>, i: nat, slot: nat)
    requires Legal(steps) && i <= |steps| && Legal(steps[..i])
    requires slot < |Exec(steps[..i]).slots| && !InMap(Exec(steps[..i]), slot)
    ensures !InMap(Exec(steps), slot)
  {
    ScheduleKeeps(steps[..i]);
    ScheduleKeeps(steps);
    ScheduleOnward(steps, i);
    MappedMeansInMap(Exec(steps[..i]), slot);
    MappedMeansInMap(Exec(steps), slot);
  }

  // ----- killing -----

  /** The manager asks each agent to die at most once. */
  lemma AskedToDieOnce(steps: seq<Step>)
    requires Legal(steps)
    ensures NoDuplicates(Exec(steps).killed)
  {
    ScheduleKeeps(steps);
  }

  /** The step by which a kill_and_wait resolves. */
  lemma ResolvingStep(s: State, step: Step, id: nat, slot: nat)
    requires Inv(s) && Enabled(s, step) && id in s.calls && s.calls[id].phase != Resolved(slot)
    requires id in Apply(s, step).calls && Apply(s, step).calls[id].phase == Resolved(slot)
    ensures var t := Apply(s, step);
            && slot < |t.slots|
            && t.slots[slot].stage.Reaped?
            && (if t.slots[slot].cell.Some? then t.slots[slot].cell.value.agent in t.killed
                else t.slots[slot].permit.None?)
  {
    assert step.call == id && CallOk(s, id);
    assert step.Look? || step.Drain?;
    var t := Apply(s, step);
    assert t.slots == Reap(s, slot).slots && t.killed == Reap(s, slot).killed;
  }

  /**
    Whenever a kill_and_wait that removed a slot resolves, the slot's agent has been killed, or the slot holds no
    agent and no build is running on it.
   */
  lemma WaitResolves(steps: seq<Step>, step: Step, id: nat, slot: nat)
    requires Legal(steps) && Enabled(Exec(steps), step) && id in Exec(steps).calls
    ensures var s, t := Exec(steps), Apply(Exec(steps), step);
            s.calls[id].phase != Resolved(slot) && id in t.calls && t.calls[id].phase == Resolved(slot) ==>
              && slot < |t.slots|
              && !InMap(t, slot)
              && (if t.slots[slot].cell.Some? then t.slots[slot].cell.value.agent in t.killed
                  else t.slots[slot].permit.None?)
  {
    var s, t := Exec(steps), Apply(Exec(steps), step);
    if s.calls[id].phase != Resolved(slot) && id in t.calls && t.calls[id].phase == Resolved(slot) {
      ScheduleKeeps(steps);
      ResolvingStep(s, step, id, slot);
      StepKeeps(s, step);
      MappedMeansInMap(t, slot);
    }
  }

  /** An agent is asked to die in the slot it lives in, by the call that removed that slot. */
  lemma KilledStep(s: State, step: Step, agent: nat)
    requires Inv(s) && Enabled(s, step) && agent in Apply(s, step).killed
    ensures agent in s.killed || exists x: nat :: HasAgent(s, x, agent) && s.slots[x].stage == Removed(step.call)
  {
    if !step.Begin? {
      assert CallOk(s, step.call);
      var phase := s.calls[step.call].phase;
      assert agent !in s.killed ==> HasAgent(s, phase.slot, agent);
    }
  }

  /** Only a new agent can fill a cell. */
  lemma CellStep(s: State, step: Step, slot: nat, agent: nat)
    requires Inv(s) && Enabled(s, step) && HasAgent(Apply(s, step), slot, agent) && agent < |s.homes|
    ensures HasAgent(s, slot, agent)
  {
  }

  lemma ReapedStep(s: State, step: Step, slot: nat, agent: nat)
    requires Inv(s) && Enabled(s, step) && slot < |s.slots| && s.slots[slot].stage.Reaped?
    requires HasAgent(Apply(s, step), slot, agent) && agent in Apply(s, step).killed
    ensures HasAgent(s, slot, agent) && agent in s.killed
  {
    KilledStep(s, step, agent);
    if agent !in s.killed {
      var x: nat :| HasAgent(s, x, agent) && s.slots[x].stage == Removed(step.call);
      assert SlotOk(s, x) && s.homes[agent] == x;
    }
    CellStep(s, step, slot, agent);
    assert SlotOk(s, slot) && s.homes[agent] == slot;
  }

  /**
    Once a slot's remover is done with it, nobody will ever ask an agent of that slot to die: a build that completes
    later is left running.
   */
  lemma {:induction false} LateAgentsAreNeverKilled(steps: seq<Step>, i: nat, slot: nat, agent: nat)
    requires Legal(steps) && i <= |steps| && Legal(steps[..i])
    requires slot < |Exec(steps[..i]).slots| && Exec(steps[..i]).slots[slot].stage.Reaped?
    requires HasAgent(Exec(steps), slot, agent) && agent in Exec(steps).killed
    ensures HasAgent(Exec(steps[..i]), slot, agent) && agent in Exec(steps[..i]).killed
  {
    if i == |steps| {
      assert steps[..i] == steps;
    } else {
      var n := |steps| - 1;
      assert steps[..n][..i] == steps[..i];
      ScheduleKeeps(steps[..n]);
      ScheduleOnward(steps[..n], i);
      ReapedStep(Exec(steps[..n]), steps[n], slot, agent);
      LateAgentsAreNeverKilled(steps[..n], i, slot, agent);
    }
  }

  /** By this step the remover of `slot` is done with it: it reads the cell for the last time. */
  predicate Settles(s: State, step: Step, slot: nat) {
    && Enabled(s, step)
    && (step.Look? || step.Drain?)
    && s.calls[step.call].phase.slot == slot
    && (step.Look? && s.calls[step.call].kind.KillAndWait? ==> s.slots[slot].cell.Some?)
  }

  lemma SettlingStep(s: State, step: Step, slot: nat)
    requires Inv(s) && Settles(s, step, slot)
    ensures var t := Apply(s, step);
            && slot < |t.slots|
            && t.slots[slot].stage.Reaped?
            && t.slots[slot].cell == s.slots[slot].cell
            && (t.slots[slot].cell.Some? ==> t.slots[slot].cell.value.agent in t.killed)
  {
    assert Apply(s, step).slots == Reap(s, slot).slots && Apply(s, step).killed == Reap(s, slot).killed;
  }

  lemma SettledState(steps: seq<Step>, i: nat, slot: nat)
    requires Legal(steps) && i < |steps| && Legal(steps[..i]) && Settles(Exec(steps[..i]), steps[i], slot)
    ensures Legal(steps[..i + 1])
    ensures var s, t := Exec(steps[..i]), Exec(steps[..i + 1]);
            && slot < |s.slots| && slot < |t.slots|
            && t.slots[slot].stage.Reaped?
            && t.slots[slot].cell == s.slots[slot].cell
            && (t.slots[slot].cell.Some? ==> t.slots[slot].cell.value.agent in t.killed)
  {
    LegalPrefix(steps, i + 1);
    assert steps[..i + 1][..i] == steps[..i];
    ScheduleKeeps(steps[..i]);
    SettlingStep(Exec(steps[..i]), steps[i], slot);
  }

  lemma AgentStays(steps: seq<Step>, i: nat, slot: nat, agent: nat)
    requires Legal(steps) && i <= |steps| && Legal(steps[..i]) && HasAgent(Exec(steps[..i]), slot, agent)
    ensures HasAgent(Exec(steps), slot, agent)
    ensures agent in Exec(steps[..i]).killed ==> agent in Exec(steps).killed
  {
    ScheduleOnward(steps, i);
  }

  /**
    An agent of a removed slot is asked to die exactly if it was there when the remover read the cell for the last
    time. For `kill`, `clear` and the kill before a rebuild that is the one look at the slot; `kill_and_wait` waits
    until a build in flight has ended.
   */
  lemma AskedToDieExactly(steps: seq<Step>, i: nat, slot: nat, agent: nat)
    requires Legal(steps) && i < |steps| && Legal(steps[..i]) && Settles(Exec(steps[..i]), steps[i], slot)
    requires HasAgent(Exec(steps), slot, agent)
    ensures agent in Exec(steps).killed <==> HasAgent(Exec(steps[..i]), slot, agent)
  {
    SettledState(steps, i, slot);
    if HasAgent(Exec(steps[..i]), slot, agent) {
      AgentStays(steps, i + 1, slot, agent);
    }
    if agent in Exec(steps).killed {
      LateAgentsAreNeverKilled(steps, i + 1, slot, agent);
    }
  }

  // ----- what a removing call achieves -----

  predicate Done(phase: Phase) {
    phase.Returned? || phase.Resolved? || phase.Finished?
  }

  /** The conversations a removing call is after. */
  function Targets(step: Step): seq<string>
    requires step.Begin?
  {
    if step.kind.Clear? then step.keys else [step.conv]
  }

  /** A removing call that has nothing left to do has been through its list. */
  predicate ListDone(c: Call) {
    && !c.kind.GetOrBuild?
    && (c.phase.Finished? || c.phase.Resolved? || c.phase.Draining? ==> c.todo == [])
    && (c.kind.KillAndWait? ==> |c.todo| <= 1 && (c.phase.Revoking? || c.phase.Looking? ==> c.todo == []))
  }

  lemma ListStep(s: State, step: Step, id: nat)
    requires Inv(s) && Enabled(s, step) && id in s.calls && ListDone(s.calls[id])
    ensures id in Apply(s, step).calls && ListDone(Apply(s, step).calls[id])
  {
    OwnCallOnly(s, step);
    if step.call == id {
      assert CallOk(s, id);
    }
  }

  /** Slot `slot`, once mapped to `conv`, is still to be removed by `id`, or somebody removed it. */
  predicate Handled(s: State, id: nat, conv: string, slot: nat) {
    && id in s.calls
    && slot < |s.slots|
    && s.slots[slot].conv == conv
    && (s.slots[slot].stage.Mapped? ==> conv in s.calls[id].todo)
  }

  lemma HandledStep(s: State, step: Step, id: nat, conv: string, slot: nat)
    requires Inv(s) && Enabled(s, step) && Handled(s, id, conv, slot) && !s.calls[id].kind.GetOrBuild?
    ensures Handled(Apply(s, step), id, conv, slot)
  {
    OwnCallOnly(s, step);
    StepOnward(s, step);
    if step == Remove(id) && s.calls[id].todo != [] {
      RemoveFirst(s, id);
      assert s.calls[id].todo == [s.calls[id].todo[0]] + s.calls[id].todo[1..];
      assert SlotOk(s, slot);
    } else if step.call == id {
      TodoKept(s, step);
    }
  }

  /** Removing takes the first conversation of the list out of the map and off the list. */
  lemma RemoveFirst(s: State, id: nat)
    requires Inv(s) && Enabled(s, Remove(id)) && s.calls[id].todo != []
    ensures var t, conv := Apply(s, Remove(id)), s.calls[id].todo[0];
            && t.tasks == s.tasks - {conv}
            && t.calls[id].todo == s.calls[id].todo[1..]
            && (conv in s.tasks ==> !t.slots[s.tasks[conv]].stage.Mapped?)
  {
  }

  lemma TodoKept(s: State, step: Step)
    requires Enabled(s, step) && !step.Begin? && !step.Check? && !(step.Remove? && s.calls[step.call].todo != [])
    ensures Apply(s, step).calls[step.call].todo == s.calls[step.call].todo
  {
  }

  lemma BeginsHandled(s: State, step: Step, conv: string)
    requires Inv(s) && Enabled(s, step) && step.Begin? && !step.kind.GetOrBuild?
    requires conv in Targets(step) && conv in s.tasks
    ensures var t := Apply(s, step);
            t.tasks == s.tasks && ListDone(t.calls[step.call]) && Handled(t, step.call, conv, s.tasks[conv])
  {
  }

  lemma {:induction false} HandledRun(steps: seq<Step>, i: nat, conv: string)
    requires Legal(steps) && i < |steps| && Legal(steps[..i]) && steps[i].Begin? && !steps[i].kind.GetOrBuild?
    requires conv in Targets(steps[i]) && conv in Exec(steps[..i]).tasks
    ensures Handled(Exec(steps), steps[i].call, conv, Exec(steps[..i]).tasks[conv])
    ensures ListDone(Exec(steps).calls[steps[i].call])
  {
    var n := |steps| - 1;
    ScheduleKeeps(steps[..n]);
    if i == n {
      BeginsHandled(Exec(steps[..n]), steps[n], conv);
    } else {
      assert steps[..n][..i] == steps[..i];
      HandledRun(steps[..n], i, conv);
      HandledStep(Exec(steps[..n]), steps[n], steps[i].call, conv, Exec(steps[..i]).tasks[conv]);
      ListStep(Exec(steps[..n]), steps[n], steps[i].call);
    }
  }

  /**
    An agent that was in the map is there still, or about to be asked to die by the remover of its slot, or was
    asked.
   */
  predicate Accounted(s: State, slot: nat, agent: nat) {
    && HasAgent(s, slot, agent)
    && match s.slots[slot].stage
       case Mapped => true
       case Removed(r) => r in s.calls && (s.calls[r].phase == Revoking(slot) || s.calls[r].phase == Looking(slot))
       case Reaped => agent in s.killed
  }

  /** A slot's stage is changed by taking it out of the map and by its remover's last look, and by nobody else. */
  lemma StageStep(s: State, step: Step, slot: nat)
    requires Inv(s) && Enabled(s, step) && slot < |s.slots|
    ensures var t := Apply(s, step);
            && slot < |t.slots|
            && (t.slots[slot].stage == s.slots[slot].stage
                || (s.slots[slot].stage.Mapped? && t.slots[slot].stage == Removed(step.call)
                    && step.call in t.calls && t.calls[step.call].phase == Revoking(slot))
                || (s.slots[slot].stage == Removed(step.call) && t.slots[slot].stage.Reaped?
                    && (s.slots[slot].cell.Some? ==>
                          step.Abandon? || s.slots[slot].cell.value.agent in t.killed)))
  {
    if !step.Begin? {
      assert CallOk(s, step.call);
    }
  }

  lemma RemoverStep(s: State, step: Step, slot: nat)
    requires Inv(s) && Enabled(s, step) && !step.Begin? && slot < |s.slots| && s.slots[slot].cell.Some?
    requires s.slots[slot].stage == Removed(step.call)
    requires s.calls[step.call].phase == Revoking(slot) || s.calls[step.call].phase == Looking(slot)
    ensures var t := Apply(s, step);
            && step.call in t.calls && slot < |t.slots|
            && (if t.slots[slot].stage.Reaped? then s.slots[slot].cell.value.agent in t.killed
                else t.calls[step.call].phase == Looking(slot))
  {
  }

  lemma AccountedStep(s: State, step: Step, slot: nat, agent: nat)
    requires Inv(s) && Enabled(s, step) && Accounted(s, slot, agent)
    ensures Accounted(Apply(s, step), slot, agent)
  {
    OwnCallOnly(s, step);
    StepSlotsOnward(s, step);
    StageStep(s, step, slot);
    if s.slots[slot].stage == Removed(step.call) {
      RemoverStep(s, step, slot);
    }
  }

  lemma {:induction false} AccountedRun(steps: seq<Step>, i: nat, slot: nat, agent: nat)
    requires Legal(steps) && i <= |steps| && Legal(steps[..i]) && Accounted(Exec(steps[..i]), slot, agent)
    ensures Accounted(Exec(steps), slot, agent)
  {
    if i == |steps| {
      assert steps[..i] == steps;
    } else {
      var n := |steps| - 1;
      assert steps[..n][..i] == steps[..i];
      AccountedRun(steps[..n], i, slot, agent);
      ScheduleKeeps(steps[..n]);
      AccountedStep(Exec(steps[..n]), steps[n], slot, agent);
    }
  }

  /** Another call removed the slot and is about to ask its agent to die. */
  predicate BeingKilled(s: State, slot: nat) {
    exists r :: r in s.calls && (s.calls[r].phase == Revoking(slot) || s.calls[r].phase == Looking(slot))
  }

  /**
    When a kill, kill_and_wait or clear that began at step `i` is through, the slot each of its conversations had then
    is out of the map, and the agent it had then was asked to die, or another call that removed the slot is about to.
   */
  lemma RemoverRemoves(steps: seq<Step>, i: nat, conv: string)
    requires Legal(steps) && i < |steps| && Legal(steps[..i]) && steps[i].Begin? && !steps[i].kind.GetOrBuild?
    requires conv in Targets(steps[i]) && conv in Exec(steps[..i]).tasks
    requires steps[i].call in Exec(steps).calls && Done(Exec(steps).calls[steps[i].call].phase)
    ensures var s, t, slot := Exec(steps[..i]), Exec(steps), Exec(steps[..i]).tasks[conv];
            && !InMap(t, slot)
            && (Filled(s, slot) ==> s.slots[slot].cell.value.agent in t.killed || BeingKilled(t, slot))
  {
    HandledSlotIsOut(steps, i, conv);
    MappedSlotIsAccounted(steps, i, conv);
  }

  lemma HandledSlotIsOut(steps: seq<Step>, i: nat, conv: string)
    requires Legal(steps) && i < |steps| && Legal(steps[..i]) && steps[i].Begin? && !steps[i].kind.GetOrBuild?
    requires conv in Targets(steps[i]) && conv in Exec(steps[..i]).tasks
    requires steps[i].call in Exec(steps).calls && Done(Exec(steps).calls[steps[i].call].phase)
    ensures var slot := Exec(steps[..i]).tasks[conv];
            !InMap(Exec(steps), slot) && slot < |Exec(steps).slots| && !Exec(steps).slots[slot].stage.Mapped?
  {
    HandledRun(steps, i, conv);
    DoneListIsDone(steps, steps[i].call);
    ScheduleKeeps(steps);
    MappedMeansInMap(Exec(steps), Exec(steps[..i]).tasks[conv]);
  }

  lemma DoneListIsDone(steps: seq<Step>, id: nat)
    requires Legal(steps) && id in Exec(steps).calls && Done(Exec(steps).calls[id].phase)
    requires ListDone(Exec(steps).calls[id])
    ensures Exec(steps).calls[id].todo == []
  {
    ScheduleKeeps(steps);
    assert CallOk(Exec(steps), id);
  }

  lemma MappedSlotIsAccounted(steps: seq<Step>, i: nat, conv: string)
    requires Legal(steps) && i <= |steps| && Legal(steps[..i]) && conv in Exec(steps[..i]).tasks
    ensures var slot := Exec(steps[..i]).tasks[conv];
            Filled(Exec(steps[..i]), slot) ==>
              Accounted(Exec(steps), slot, Exec(steps[..i]).slots[slot].cell.value.agent)
  {
    var slot := Exec(steps[..i]).tasks[conv];
    ScheduleKeeps(steps[..i]);
    if Filled(Exec(steps[..i]), slot) {
      AccountedRun(steps, i, slot, Exec(steps[..i]).slots[slot].cell.value.agent);
    }
  }

  /** In particular a clear that is through has emptied the map of everything that was in it. */
  lemma ClearEmpties(steps: seq<Step>, i: nat, conv: string)
    requires Legal(steps) && i < |steps| && Legal(steps[..i]) && steps[i].Begin? && steps[i].kind.Clear?
    requires conv in Exec(steps[..i]).tasks
    requires steps[i].call in Exec(steps).calls && Done(Exec(steps).calls[steps[i].call].phase)
    ensures !InMap(Exec(steps), Exec(steps[..i]).tasks[conv])
  {
    LegalPrefix(steps, i + 1);
    assert steps[..i + 1][..i] == steps[..i];
    assert conv in (set c | c in steps[i].keys);
    RemoverRemoves(steps, i, conv);
  }

  // ----- progress -----

  /** The slot's permit is held by the call that is building on it. */
  predicate PermitHeld(s: State, slot: nat)
    requires slot < |s.slots|
  {
    var permit := s.slots[slot].permit;
    permit.Some? ==> permit.value in s.calls && s.calls[permit.value].phase == Building(slot)
  }

  /** So no permit is ever lost. */
  ghost predicate PermitsHeld(s: State) {
    forall slot: nat :: slot < |s.slots| ==> PermitHeld(s, slot)
  }

  lemma PermitSlotStep(s: State, step: Step, slot: nat)
    requires Inv(s) && Enabled(s, step) && slot < |Apply(s, step).slots|
    requires slot < |s.slots| ==> PermitHeld(s, slot)
    ensures PermitHeld(Apply(s, step), slot)
  {
    OwnCallOnly(s, step);
    if !step.Begin? {
      assert CallOk(s, step.call);
    }
  }

  lemma PermitStep(s: State, step: Step)
    requires Inv(s) && PermitsHeld(s) && Enabled(s, step)
    ensures PermitsHeld(Apply(s, step))
  {
    forall slot: nat | slot < |Apply(s, step).slots| ensures PermitHeld(Apply(s, step), slot) {
      PermitSlotStep(s, step, slot);
    }
  }

  lemma {:induction false} PermitsNeverLeak(steps: seq<Step>)
    requires Legal(steps)
    ensures PermitsHeld(Exec(steps))
  {
    if steps != [] {
      var n := |steps| - 1;
      PermitsNeverLeak(steps[..n]);
      ScheduleKeeps(steps[..n]);
      PermitStep(Exec(steps[..n]), steps[n]);
    }
  }

  /** The call can take a step of its own, without its caller giving up. */
  predicate CanStep(s: State, id: nat) {
    || Enabled(s, Check(id)) || Enabled(s, Remove(id)) || Enabled(s, Revoke(id)) || Enabled(s, Look(id, true))
    || Enabled(s, Fetch(id)) || Enabled(s, Enter(id)) || Enabled(s, Built(id)) || Enabled(s, Drain(id))
  }

  /** Another call is building on the slot this one waits for, and however that build ends this one can go on. */
  predicate WaitsForBuild(s: State, id: nat, builder: nat) {
    && builder != id
    && Enabled(s, Built(builder)) && CanStep(Apply(s, Built(builder)), id)
    && Enabled(s, BuildFailed(builder)) && CanStep(Apply(s, BuildFailed(builder)), id)
    && Enabled(s, Abandon(builder)) && CanStep(Apply(s, Abandon(builder)), id)
  }

  lemma WaiterGoesOn(s: State, id: nat)
    requires Inv(s) && PermitsHeld(s) && id in s.calls && (s.calls[id].phase.Queued? || s.calls[id].phase.Draining?)
    requires !CanStep(s, id)
    ensures exists builder :: WaitsForBuild(s, id, builder)
  {
    assert CallOk(s, id);
    var slot := s.calls[id].phase.slot;
    var builder := s.slots[slot].permit.value;
    assert PermitHeld(s, slot);
    assert s.calls[builder].phase == Building(slot);
    assert WaitsForBuild(s, id, builder);
  }

  /** No call is ever stuck: it can take a step, or it waits for one build after which it can. */
  lemma NeverStuck(steps: seq<Step>, id: nat)
    requires Legal(steps) && id in Exec(steps).calls && !Done(Exec(steps).calls[id].phase)
    ensures CanStep(Exec(steps), id) || exists builder :: WaitsForBuild(Exec(steps), id, builder)
  {
    var s := Exec(steps);
    ScheduleKeeps(steps);
    PermitsNeverLeak(steps);
    assert CallOk(s, id);
    if !CanStep(s, id) {
      WaiterGoesOn(s, id);
    }
  }

  // ----- capabilities -----

  /** The agent the slot had at `before`, if any, is capable enough. */
  predicate Fitted(before: State, slot: nat, caps: Capabilities) {
    Filled(before, slot) ==> before.slots[slot].cell.value.caps.Satisfies(caps)
  }

  /** What the capability check of a get_or_build_task at `before` has secured at each later phase. */
  predicate Secured(before: State, s: State, id: nat) {
    && |before.slots| <= |s.slots|
    && id in s.calls
    && var c := s.calls[id];
    && c.kind.GetOrBuild?
    && var next := c.conv in s.tasks ==> Fitted(before, s.tasks[c.conv], c.caps);
    match c.phase
    case Removing => c.todo == [c.conv] || (c.todo == [] && next)
    case Revoking(_) => c.todo == [] && next
    case Looking(_) => c.todo == [] && next
    case Fetching => next
    case Queued(slot) => Fitted(before, slot, c.caps)
    case Building(slot) => Fitted(before, slot, c.caps)
    case Returned(slot, _) => Fitted(before, slot, c.caps)
    case Finished => true
    case _ => false
  }

  /** The map changes by forgetting conversations and by mapping them to new slots. */
  lemma MapStep(s: State, step: Step)
    requires Enabled(s, step)
    ensures var t := Apply(s, step);
            && |s.slots| <= |t.slots|
            && forall conv :: conv in t.tasks ==>
                 (conv in s.tasks && t.tasks[conv] == s.tasks[conv]) || |s.slots| <= t.tasks[conv]
  {
  }

  lemma OwnStep(before: State, s: State, step: Step)
    requires Inv(s) && Enabled(s, step) && !step.Begin? && Secured(before, s, step.call)
    ensures Secured(before, Apply(s, step), step.call)
  {
  }

  lemma SecuredStep(before: State, s: State, step: Step, id: nat)
    requires Inv(s) && Enabled(s, step) && Secured(before, s, id)
    ensures Secured(before, Apply(s, step), id)
  {
    if step.call == id {
      OwnStep(before, s, step);
    } else {
      OwnCallOnly(s, step);
      MapStep(s, step);
    }
  }

  lemma CheckSecures(s: State, id: nat)
    requires Inv(s) && Enabled(s, Check(id))
    ensures Secured(s, Apply(s, Check(id)), id)
  {
    assert CallOk(s, id);
  }

  lemma {:induction false} SecuredRun(steps: seq<Step>, i: nat, id: nat)
    requires Legal(steps) && i < |steps| && steps[i] == Check(id) && Legal(steps[..i])
    ensures Secured(Exec(steps[..i]), Exec(steps), id)
  {
    var n := |steps| - 1;
    ScheduleKeeps(steps[..n]);
    if i == n {
      CheckSecures(Exec(steps[..n]), id);
    } else {
      assert steps[..n][..i] == steps[..i];
      SecuredRun(steps[..n], i, id);
      SecuredStep(Exec(steps[..i]), Exec(steps[..n]), steps[n], id);
    }
  }

  /** The build that step `j` completes is the one on `slot`. */
  ghost predicate BuildsOn(steps: seq<Step>, j: nat, slot: nat) {
    && j < |steps|
    && steps[j].Built?
    && Legal(steps[..j])
    && steps[j].call in Exec(steps[..j]).calls
    && Exec(steps[..j]).calls[steps[j].call].phase == Building(slot)
  }

  lemma FillingStep(s: State, step: Step, slot: nat)
    requires Inv(s) && Enabled(s, step) && !Filled(s, slot) && Filled(Apply(s, step), slot)
    ensures step.Built? && s.calls[step.call].phase == Building(slot)
    ensures Apply(s, step).slots[slot].cell.value.caps == s.calls[step.call].caps
  {
  }

  /** Every agent was built on its slot, for the capabilities its builder asked for. */
  lemma {:induction false} BuiltOnce(steps: seq<Step>, slot: nat) returns (j: nat)
    requires Legal(steps) && Filled(Exec(steps), slot)
    ensures BuildsOn(steps, j, slot) && !Filled(Exec(steps[..j]), slot)
    ensures Exec(steps).slots[slot].cell.value.caps == Exec(steps[..j]).calls[steps[j].call].caps
  {
    var n := |steps| - 1;
    var s := Exec(steps[..n]);
    ScheduleKeeps(steps[..n]);
    if Filled(s, slot) {
      j := BuiltOnce(steps[..n], slot);
      assert steps[..n][..j] == steps[..j];
      StepOnward(s, steps[n]);
    } else {
      FillingStep(s, steps[n], slot);
      j := n;
    }
  }

  lemma BuildingStep(s: State, step: Step, slot: nat)
    requires Inv(s) && Enabled(s, step) && step.Built? && s.calls[step.call].phase == Building(slot)
    ensures Filled(Apply(s, step), slot) && Apply(s, step).slots[slot].cell.value.caps == s.calls[step.call].caps
  {
  }

  /** A build that completes on a slot decides what its agent can do, for good. */
  lemma BuildDecides(steps: seq<Step>, j: nat, slot: nat)
    requires Legal(steps) && BuildsOn(steps, j, slot)
    ensures Filled(Exec(steps), slot)
    ensures Exec(steps).slots[slot].cell.value.caps == Exec(steps[..j]).calls[steps[j].call].caps
  {
    LegalPrefix(steps, j + 1);
    assert steps[..j + 1][..j] == steps[..j];
    ScheduleKeeps(steps[..j]);
    BuildingStep(Exec(steps[..j]), steps[j], slot);
    ScheduleOnward(steps, j + 1);
  }

  /** Step `j` completes another call's build on `slot`, for capabilities that are not enough for call `id`. */
  ghost predicate Spoils(steps: seq<Step>, j: nat, id: nat, slot: nat)
    requires Legal(steps) && id in Exec(steps).calls
  {
    && BuildsOn(steps, j, slot)
    && steps[j].call != id
    && !Exec(steps[..j]).calls[steps[j].call].caps.Satisfies(Exec(steps).calls[id].caps)
  }

  lemma SpoiledAfterCheck(steps: seq<Step>, i: nat, id: nat, slot: nat) returns (j: nat)
    requires Legal(steps) && i < |steps| && steps[i] == Check(id) && Legal(steps[..i]) && id in Exec(steps).calls
    requires Filled(Exec(steps), slot) && Fitted(Exec(steps[..i]), slot, Exec(steps).calls[id].caps)
    requires !Exec(steps).slots[slot].cell.value.caps.Satisfies(Exec(steps).calls[id].caps)
    ensures i < j && Spoils(steps, j, id, slot)
  {
    j := BuiltOnce(steps, slot);
    ScheduleOnward(steps, i);
    ScheduleOnward(steps, j);
    if j < i {
      LegalPrefix(steps, i);
      assert steps[..i][..j] == steps[..j];
      BuildDecides(steps[..i], j, slot);
    }
  }

  /**
    A get_or_build_task that checked capabilities at step `i` and returned gets an agent capable enough for it exactly
    if no other call's build for less completed on its slot after that check, whatever else interleaves.
   */
  lemma CapableExactly(steps: seq<Step>, i: nat, id: nat)
    requires Legal(steps) && i < |steps| && steps[i] == Check(id) && Legal(steps[..i])
    requires id in Exec(steps).calls && Exec(steps).calls[id].phase.Returned?
    ensures var s := Exec(steps);
            var slot := s.calls[id].phase.slot;
            && HasAgent(s, slot, s.calls[id].phase.agent)
            && (s.slots[slot].cell.value.caps.Satisfies(s.calls[id].caps)
                <==> !exists j :: i < j && Spoils(steps, j, id, slot))
  {
    var s := Exec(steps);
    var slot := s.calls[id].phase.slot;
    ScheduleKeeps(steps);
    assert CallOk(s, id);
    if !s.slots[slot].cell.value.caps.Satisfies(s.calls[id].caps) {
      SecuredRun(steps, i, id);
      var j := SpoiledAfterCheck(steps, i, id, slot);
    }
    if j :| i < j && Spoils(steps, j, id, slot) {
      BuildDecides(steps, j, slot);
    }
  }

  /** Builds on a slot are for the slot's own conversation. */
  lemma BuilderSharesConversation(steps: seq<Step>, j: nat, slot: nat)
    requires Legal(steps) && BuildsOn(steps, j, slot)
    ensures slot < |Exec(steps).slots| && steps[j].call in Exec(steps).calls
    ensures Exec(steps).calls[steps[j].call].conv == Exec(steps).slots[slot].conv
  {
    ScheduleKeeps(steps[..j]);
    assert CallOk(Exec(steps[..j]), steps[j].call);
    ScheduleOnward(steps, j);
  }

  /**
    In particular a call during which no other call on the same conversation completes a build gets an agent that is
    capable enough; other conversations may do as they please.
   */
  lemma CapableUnlessOverlapped(steps: seq<Step>, i: nat, id: nat)
    requires Legal(steps) && i < |steps| && steps[i] == Check(id) && Legal(steps[..i])
    requires id in Exec(steps).calls && Exec(steps).calls[id].phase.Returned?
    ensures var s := Exec(steps);
            var slot := s.calls[id].phase.slot;
            && HasAgent(s, slot, s.calls[id].phase.agent)
            && (|| s.slots[slot].cell.value.caps.Satisfies(s.calls[id].caps)
                || exists j :: i < j < |steps| && steps[j].Built? && steps[j].call != id && steps[j].call in s.calls
                               && s.calls[steps[j].call].conv == s.calls[id].conv)
  {
    var s := Exec(steps);
    CapableExactly(steps, i, id);
    ScheduleKeeps(steps);
    assert CallOk(s, id);
    if j :| i < j && Spoils(steps, j, id, s.calls[id].phase.slot) {
      BuilderSharesConversation(steps, j, s.calls[id].phase.slot);
    }
  }

  // ----- reuse -----

  /** The call is on its way to `slot`, or has given up. */
  predicate HeadedFor(s: State, id: nat, slot: nat) {
    && id in s.calls
    && slot < |s.slots|
    && s.slots[slot].conv == s.calls[id].conv
    && match s.calls[id].phase
       case Fetching => true
       case Queued(x) => x == slot
       case Building(x) => x == slot
       case Returned(x, _) => x == slot
       case Finished => true
       case _ => false
  }

  /** The conversation's slot is empty or has an agent capable enough for the call. */
  predicate Finds(s: State, id: nat, slot: nat) {
    && id in s.calls
    && s.calls[id].conv in s.tasks
    && s.tasks[s.calls[id].conv] == slot
    && Fitted(s, slot, s.calls[id].caps)
  }

  /** As long as the slot stays in the map. */
  predicate HeadedWhileMapped(s: State, id: nat, slot: nat) {
    slot < |s.slots| && (s.slots[slot].stage.Mapped? ==> HeadedFor(s, id, slot))
  }

  lemma HeadedStep(s: State, step: Step, id: nat, slot: nat)
    requires Inv(s) && Enabled(s, step) && HeadedWhileMapped(s, id, slot)
    ensures HeadedWhileMapped(Apply(s, step), id, slot)
  {
    OwnCallOnly(s, step);
    StepSlotsOnward(s, step);
    assert SlotOk(s, slot);
  }

  lemma HeadedCheck(s: State, id: nat, slot: nat)
    requires Inv(s) && Enabled(s, Check(id)) && Finds(s, id, slot)
    ensures HeadedWhileMapped(Apply(s, Check(id)), id, slot)
  {
  }

  lemma {:induction false} HeadedRun(steps: seq<Step>, i: nat, id: nat, slot: nat)
    requires Legal(steps) && i < |steps| && steps[i] == Check(id) && Legal(steps[..i])
    requires Finds(Exec(steps[..i]), id, slot)
    ensures HeadedWhileMapped(Exec(steps), id, slot)
  {
    var n := |steps| - 1;
    ScheduleKeeps(steps[..n]);
    if i < n {
      assert steps[..n][..i] == steps[..i];
      HeadedRun(steps[..n], i, id, slot);
      HeadedStep(Exec(steps[..n]), steps[n], id, slot);
    } else {
      HeadedCheck(Exec(steps[..n]), id, slot);
    }
  }

  /**
    A conversation's slot is used again: a get_or_build_task that finds it empty or with an agent capable enough
    returns from that slot and removes nothing, as long as nobody else removes it.
   */
  lemma SlotIsReused(steps: seq<Step>, i: nat, id: nat, slot: nat)
    requires Legal(steps) && i < |steps| && steps[i] == Check(id) && Legal(steps[..i])
    requires Finds(Exec(steps[..i]), id, slot)
    requires InMap(Exec(steps), slot) && id in Exec(steps).calls && Done(Exec(steps).calls[id].phase)
    ensures var phase := Exec(steps).calls[id].phase;
            phase.Finished? || (phase.Returned? && HasAgent(Exec(steps), slot, phase.agent))
    ensures Filled(Exec(steps[..i]), slot) ==>
              HasAgent(Exec(steps), slot, Exec(steps[..i]).slots[slot].cell.value.agent)
  {
    ScheduleKeeps(steps[..i]);
    ScheduleKeeps(steps);
    ScheduleOnward(steps, i);
    MappedMeansInMap(Exec(steps), slot);
    HeadedRun(steps, i, id, slot);
    assert CallOk(Exec(steps), id);
  }

  /** By this step the call comes to nothing: its factory or its kill failed, or its caller gave up. */
  predicate GivesUp(s: State, step: Step) {
    && Enabled(s, step)
    && (|| step.BuildFailed?
        || step.Abandon?
        || (step.Look? && !step.killOk && Filled(s, s.calls[step.call].phase.slot)))
  }

  ghost predicate GaveUp(steps: seq<Step>, j: nat, id: nat) {
    j < |steps| && steps[j].call == id && Legal(steps[..j]) && GivesUp(Exec(steps[..j]), steps[j])
  }

  lemma FinishingStep(s: State, step: Step, id: nat)
    requires Inv(s) && Enabled(s, step) && id in Apply(s, step).calls && Apply(s, step).calls[id].kind.GetOrBuild?
    ensures Apply(s, step).calls[id].phase == Finished
            <==> (step.call == id && GivesUp(s, step)) || (id in s.calls && s.calls[id].phase == Finished)
  {
    OwnCallOnly(s, step);
    if step.call == id && !step.Begin? {
      assert CallOk(s, id);
    }
  }

  /** A get_or_build_task ends without an agent exactly if its factory or its kill failed or its caller gave up. */
  lemma {:induction false} FailsExactly(steps: seq<Step>, id: nat)
    requires Legal(steps) && id in Exec(steps).calls && Exec(steps).calls[id].kind.GetOrBuild?
    ensures Exec(steps).calls[id].phase == Finished <==> exists j: nat :: GaveUp(steps, j, id)
  {
    var n := |steps| - 1;
    var p := steps[..n];
    ScheduleKeeps(p);
    FinishingStep(Exec(p), steps[n], id);
    forall j: nat | j < n ensures GaveUp(p, j, id) <==> GaveUp(steps, j, id) {
      assert p[..j] == steps[..j];
    }
    if id in Exec(p).calls {
      OwnCallOnly(Exec(p), steps[n]);
      FailsExactly(p, id);
      GaveUpBySteps(steps, p, id);
    } else {
      NotBegun(p, id);
      GaveUpBySteps(steps, p, id);
    }
  }

  lemma GaveUpBySteps(steps: seq<Step>, p: seq<Step>, id: nat)
    requires |steps| == |p| + 1 && forall j: nat :: j < |p| ==> (GaveUp(p, j, id) <==> GaveUp(steps, j, id))
    ensures (exists j: nat :: GaveUp(steps, j, id)) <==> (exists j: nat :: GaveUp(p, j, id)) || GaveUp(steps, |p|, id)
  {
    if j: nat :| GaveUp(p, j, id) {
      assert GaveUp(steps, j, id);
    }
  }

  /** Nobody gives up before he has begun. */
  lemma NotBegun(steps: seq<Step>, id: nat)
    requires Legal(steps) && id !in Exec(steps).calls
    ensures !exists j: nat :: GaveUp(steps, j, id)
  {
    if j: nat :| GaveUp(steps, j, id) {
      ScheduleOnward(steps, j);
    }
  }

  // ----- what the protocol does not promise -----

  lemma Go(steps: seq<Step>, step: Step) returns (more: seq<Step>)
    requires Legal(steps) && Enabled(Exec(steps), step)
    ensures more == steps + [step] && Legal(more) && Exec(more) == Apply(Exec(steps), step)
  {
    more := steps + [step];
    assert more[..|steps|] == steps;
  }

  const PLAIN := Capabilities(None)

  /** A first call is building an agent for "c". */
  const IN_BUILD := State(
    map["c" := 0], [Slot("c", None, Some(0), Mapped)],
    map[0 := Call(GetOrBuild, "c", PLAIN, Building(0), [])], [], [])

  const BUILD_STEPS := [Begin(0, GetOrBuild, "c", PLAIN, []), Check(0), Fetch(0), Enter(0)]

  /** A call that removes "c" while the first one is building. */
  function RemoveSteps(kind: Kind): seq<Step> {
    [Begin(1, kind, "c", PLAIN, ["c"]), Remove(1), Revoke(1), Look(1, true), Remove(1)]
  }

  lemma StartFetch() returns (run: seq<Step>)
    ensures run == BUILD_STEPS[..2]
    ensures Legal(run) && Exec(run) == INIT.(calls := map[0 := IN_BUILD.calls[0].(phase := Fetching)])
  {
    run := Go([], Begin(0, GetOrBuild, "c", PLAIN, []));
    run := Go(run, Check(0));
  }

  lemma StartBuild() returns (run: seq<Step>)
    ensures run == BUILD_STEPS && Legal(run) && Exec(run) == IN_BUILD
  {
    run := StartFetch();
    run := Go(run, Fetch(0));
    assert Exec(run) == State(map["c" := 0], [Slot("c", None, None, Mapped)],
                              map[0 := IN_BUILD.calls[0].(phase := Queued(0))], [], []);
    run := Go(run, Enter(0));
  }

  /** A call that is to remove "c" only. */
  function Remover(kind: Kind, phase: Phase, todo: seq<string>): Call {
    Call(kind, "c", PLAIN, phase, todo)
  }

  lemma BeginDuringBuild(kind: Kind) returns (run: seq<Step>)
    requires kind.Kill? || kind.Clear?
    ensures run == BUILD_STEPS + RemoveSteps(kind)[..1]
    ensures Legal(run) && Exec(run) == IN_BUILD.(calls := IN_BUILD.calls[1 := Remover(kind, Removing, ["c"])])
  {
    run := StartBuild();
    run := Go(run, Begin(1, kind, "c", PLAIN, ["c"]));
  }

  lemma RemoveDuringBuild(kind: Kind) returns (run: seq<Step>)
    requires kind.Kill? || kind.Clear?
    ensures run == BUILD_STEPS + RemoveSteps(kind)[..2] && Legal(run)
    ensures Exec(run) == State(map[], [Slot("c", None, Some(0), Removed(1))],
                               IN_BUILD.calls[1 := Remover(kind, Revoking(0), [])], [], [])
  {
    run := BeginDuringBuild(kind);
    run := Go(run, Remove(1));
    assert IN_BUILD.tasks - {"c"} == map[] && ["c"][1..] == [];
    assert IN_BUILD.slots[0 := IN_BUILD.slots[0].(stage := Removed(1))] == [Slot("c", None, Some(0), Removed(1))];
  }

  lemma RevokeDuringBuild(kind: Kind) returns (run: seq<Step>)
    requires kind.Kill? || kind.Clear?
    ensures run == BUILD_STEPS + RemoveSteps(kind)[..3] && Legal(run)
    ensures Exec(run) == State(map[], [Slot("c", None, Some(0), Removed(1))],
                               IN_BUILD.calls[1 := Remover(kind, Looking(0), [])], [], [])
  {
    var before := RemoveDuringBuild(kind);
    run := Go(before, Revoke(1));
    assert Exec(run) == SetPhase(Exec(before), 1, Looking(0));
  }

  lemma LookDuringBuild(kind: Kind) returns (run: seq<Step>)
    requires kind.Kill? || kind.Clear?
    ensures run == BUILD_STEPS + RemoveSteps(kind)[..4] && Legal(run)
    ensures Exec(run) == State(map[], [Slot("c", None, Some(0), Reaped)],
                               IN_BUILD.calls[1 := Remover(kind, Removing, [])], [], [])
  {
    run := RevokeDuringBuild(kind);
    run := Go(run, Look(1, true));
  }

  lemma KillDuringBuild(kind: Kind) returns (run: seq<Step>)
    requires kind.Kill? || kind.Clear?
    ensures run == BUILD_STEPS + RemoveSteps(kind) && Legal(run)
    ensures Exec(run) == State(map[], [Slot("c", None, Some(0), Reaped)],
                               IN_BUILD.calls[1 := Remover(kind, Finished, [])], [], [])
  {
    run := LookDuringBuild(kind);
    run := Go(run, Remove(1));
  }

  /**
    Neither `kill` nor `clear` waits for a build in flight: after it has returned the build can finish, answer its
    caller and leave an agent alive outside the map that nobody asked to die.
   */
  lemma KillDoesNotWait(kind: Kind)
    requires kind.Kill? || kind.Clear?
    ensures exists steps, slot, agent, builder, killer ::
              && Legal(steps)
              && HasAgent(Exec(steps), slot, agent) && agent !in Exec(steps).killed && !InMap(Exec(steps), slot)
              && builder in Exec(steps).calls && Exec(steps).calls[builder].phase == Returned(slot, agent)
              && killer in Exec(steps).calls && Exec(steps).calls[killer] == Remover(kind, Finished, [])
  {
    var run := KillDuringBuild(kind);
    run := Go(run, Built(0));
    var s := Exec(run);
    assert HasAgent(s, 0, 0) && s.killed == [] && s.tasks == map[] && s.calls[0].phase == Returned(0, 0);
    assert s.calls[1] == Remover(kind, Finished, []);
  }

  const DEMANDING := Call(GetOrBuild, "c", Capabilities(Some(2)), Checking, [])

  lemma CheckDuringBuild() returns (run: seq<Step>)
    ensures Legal(run) && Exec(run) == IN_BUILD.(calls := IN_BUILD.calls[1 := DEMANDING.(phase := Fetching)])
  {
    run := StartBuild();
    run := Go(run, Begin(1, GetOrBuild, "c", Capabilities(Some(2)), []));
    assert Exec(run) == IN_BUILD.(calls := IN_BUILD.calls[1 := DEMANDING]);
    run := Go(run, Check(1));
  }

  lemma QueueDuringBuild() returns (run: seq<Step>)
    ensures Legal(run) && Exec(run) == IN_BUILD.(calls := IN_BUILD.calls[1 := DEMANDING.(phase := Queued(0))])
  {
    run := CheckDuringBuild();
    run := Go(run, Fetch(1));
  }

  /** Overlapping calls can be handed an agent built for a less demanding one. */
  lemma OverlapIgnoresCapabilities()
    ensures exists steps, id ::
              && Legal(steps) && id in Exec(steps).calls && Exec(steps).calls[id].phase.Returned?
              && var slot := Exec(steps).calls[id].phase.slot;
                 slot < |Exec(steps).slots| && Exec(steps).slots[slot].cell.Some?
                 && !Exec(steps).slots[slot].cell.value.caps.Satisfies(Exec(steps).calls[id].caps)
  {
    var run := QueueDuringBuild();
    run := Go(run, Built(0));
    var s := Exec(run);
    assert s.slots == [Slot("c", Some(Managed(0, PLAIN)), None, Mapped)];
    assert s.calls[1] == DEMANDING.(phase := Queued(0));
    run := Go(run, Enter(1));
    assert Exec(run).slots == s.slots && Exec(run).calls[1] == DEMANDING.(phase := Returned(0, 0));
  }
}
