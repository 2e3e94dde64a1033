/**
  The worker task manager under concurrency. Each call is a little program whose atomic steps
  interleave freely with those of every other call; a slot is a write-once cell with one permit.
 */
module TaskProtocol {
  import opened Common
  import opened TaskTypes

  /** Where a slot is in its life: in the map, removed by a call that still has to deal with it, or done with. */
  datatype Stage = Mapped | Removed(remover: nat) | Reaped

  /**
    `permit` is the call running the factory. The conversation a slot was created for and its stage are
    bookkeeping for the proofs and decide nothing.
   */
  datatype Slot = Slot(conv: string, cell: Option<Managed>, permit: Option<nat>, stage: Stage)

  datatype Phase =
    | Checking                        // get_or_build_task: compare the capabilities of an initialised task
    | Removing                        // about to remove the next conversation of `todo`
    | Revoking(slot: nat)             // removed `slot`, about to revoke its conversation's tokens
    | Looking(slot: nat)              // about to read the cell of the slot it removed
    | Fetching                        // about to take or insert the conversation's slot
    | Queued(slot: nat)               // awaiting the cell's value or its permit
    | Building(slot: nat)             // holding the permit, factory running
    | Draining(slot: nat)             // kill_and_wait: awaiting the value or the permit of the slot it removed
    | Returned(slot: nat, agent: nat) // get_or_build_task answered with `agent`
    | Resolved(slot: nat)             // kill_and_wait on `slot` resolved
    | Finished                        // returned without an agent

  datatype Kind = GetOrBuild | Kill | KillAndWait | Clear

  /** `todo` lists the conversations whose slots the call still has to remove. */
  datatype Call = Call(kind: Kind, conv: string, caps: Capabilities, phase: Phase, todo: seq<string>)

  datatype State = State(
    tasks: map<string, nat>, // conversation -> slot
    slots: seq<Slot>,        // every slot ever created
    calls: map<nat, Call>,
    homes: seq<nat>,         // the slot each agent was built for; agents are numbered in order of birth
    killed: seq<nat>)        // agents asked to die, in order

  const INIT := State(map[], [], map[], [], [])

  datatype Step =
    | Begin(call: nat, kind: Kind, conv: string, caps: Capabilities, keys: seq<string>)
    | Check(call: nat)
    | Remove(call: nat)
    | Revoke(call: nat)
    | Look(call: nat, killOk: bool)
    | Fetch(call: nat)
    | Enter(call: nat)
    | Built(call: nat)
    | BuildFailed(call: nat)
    | Drain(call: nat)
    | Abandon(call: nat) // the caller dropped the future at an await point

  /** Who waits for the slot can go on: it has a value, or its permit is free. */
  predicate Ready(slot: Slot) {
    slot.cell.Some? || slot.permit.None?
  }

  predicate Enabled(s: State, step: Step) {
    if step.Begin? then step.call !in s.calls && (step.kind.Clear? ==> (set conv | conv in step.keys) == s.tasks.Keys)
    else
      && step.call in s.calls
      && var phase := s.calls[step.call].phase;
      match step
      case Check(_) => phase.Checking?
      case Remove(_) => phase.Removing?
      case Revoke(_) => phase.Revoking? && phase.slot < |s.slots|
      case Look(_, _) => phase.Looking? && phase.slot < |s.slots|
      case Fetch(_) => phase.Fetching?
      case Enter(_) => phase.Queued? && phase.slot < |s.slots| && Ready(s.slots[phase.slot])
      case Built(_) => phase.Building? && phase.slot < |s.slots|
      case BuildFailed(_) => phase.Building? && phase.slot < |s.slots|
      case Drain(_) => phase.Draining? && phase.slot < |s.slots| && Ready(s.slots[phase.slot])
      case Abandon(_) => phase.Queued? || ((phase.Building? || phase.Draining?) && phase.slot < |s.slots|)
  }

  function SetPhase(s: State, id: nat, phase: Phase): State
    requires id in s.calls
  {
    s.(calls := s.calls[id := s.calls[id].(phase := phase)])
  }

  function SetStage(s: State, slot: nat, stage: Stage): State
    requires slot < |s.slots|
  {
    s.(slots := s.slots[slot := s.slots[slot].(stage := stage)])
  }

  function Apply(s: State, step: Step): State
    requires Enabled(s, step)
  {
    match step
    case Begin(id, kind, conv, caps, keys) =>
      s.(calls := s.calls[id := match kind
                                case GetOrBuild => Call(kind, conv, caps, Checking, [])
                                case Clear => Call(kind, conv, caps, Removing, keys)
                                case _ => Call(kind, conv, caps, Removing, [conv])])
    case Check(id) => ApplyCheck(s, id)
    case Remove(id) => ApplyRemove(s, id)
    case Revoke(id) => SetPhase(s, id, Looking(s.calls[id].phase.slot))
    case Look(id, killOk) => ApplyLook(s, id, killOk)
    case Fetch(id) => ApplyFetch(s, id)
    case Enter(id) => ApplyEnter(s, id)
    case Built(id) => ApplyBuilt(s, id)
    case BuildFailed(id) => Release(s, id)
    case Drain(id) => ApplyDrain(s, id)
    case Abandon(id) => ApplyAbandon(s, id)
  }

  /** An initialised task that is not capable enough has to be killed first. */
  function ApplyCheck(s: State, id: nat): State
    requires id in s.calls
  {
    var c := s.calls[id];
    if c.conv in s.tasks && s.tasks[c.conv] < |s.slots|
       && s.slots[s.tasks[c.conv]].cell.Some? && !s.slots[s.tasks[c.conv]].cell.value.caps.Satisfies(c.caps)
    then s.(calls := s.calls[id := c.(phase := Removing, todo := [c.conv])])
    else SetPhase(s, id, Fetching)
  }

  function ApplyRemove(s: State, id: nat): State
    requires id in s.calls
  {
    var c := s.calls[id];
    if c.todo == [] then SetPhase(s, id, if c.kind.GetOrBuild? then Fetching else Finished)
    else
      var conv := c.todo[0];
      if conv in s.tasks && s.tasks[conv] < |s.slots| then
        SetStage(s, s.tasks[conv], Removed(id))
        .(tasks := s.tasks - {conv}, calls := s.calls[id := c.(phase := Revoking(s.tasks[conv]), todo := c.todo[1..])])
      else s.(calls := s.calls[id := c.(todo := c.todo[1..])])
  }

  /** The remover asks the slot's agent, if there is one by now, to die. */
  function Reap(s: State, slot: nat): State
    requires slot < |s.slots|
  {
    var t := SetStage(s, slot, Reaped);
    if s.slots[slot].cell.Some? then t.(killed := s.killed + [s.slots[slot].cell.value.agent]) else t
  }

  function ApplyLook(s: State, id: nat, killOk: bool): State
    requires id in s.calls && s.calls[id].phase.Looking? && s.calls[id].phase.slot < |s.slots|
  {
    var c := s.calls[id];
    var slot := c.phase.slot;
    if s.slots[slot].cell.None? && c.kind.KillAndWait? then SetPhase(s, id, Draining(slot))
    else
      SetPhase(Reap(s, slot), id,
               if c.kind.KillAndWait? then Resolved(slot)
               else if c.kind.GetOrBuild? && s.slots[slot].cell.Some? && !killOk then Finished
               else Removing)
  }

  function ApplyFetch(s: State, id: nat): State
    requires id in s.calls
  {
    var c := s.calls[id];
    if c.conv in s.tasks then SetPhase(s, id, Queued(s.tasks[c.conv]))
    else
      SetPhase(s.(tasks := s.tasks[c.conv := |s.slots|], slots := s.slots + [Slot(c.conv, None, None, Mapped)]),
               id, Queued(|s.slots|))
  }

  /** Take the value if it is there, else the permit. */
  function ApplyEnter(s: State, id: nat): State
    requires id in s.calls && s.calls[id].phase.Queued? && s.calls[id].phase.slot < |s.slots|
  {
    var slot := s.calls[id].phase.slot;
    match s.slots[slot].cell
    case Some(managed) => SetPhase(s, id, Returned(slot, managed.agent))
    case None => SetPhase(s.(slots := s.slots[slot := s.slots[slot].(permit := Some(id))]), id, Building(slot))
  }

  /** The factory produced a new agent: fill the cell and release the permit. */
  function ApplyBuilt(s: State, id: nat): State
    requires id in s.calls && s.calls[id].phase.Building? && s.calls[id].phase.slot < |s.slots|
  {
    var slot, agent := s.calls[id].phase.slot, |s.homes|;
    SetPhase(s.(slots := s.slots[slot := s.slots[slot].(cell := Some(Managed(agent, s.calls[id].caps)),
                                                        permit := None)],
                homes := s.homes + [slot]),
             id, Returned(slot, agent))
  }

  /** Kill the value if it is there; else take the permit, fail at once and give it back. */
  function ApplyDrain(s: State, id: nat): State
    requires id in s.calls && s.calls[id].phase.Draining? && s.calls[id].phase.slot < |s.slots|
  {
    SetPhase(Reap(s, s.calls[id].phase.slot), id, Resolved(s.calls[id].phase.slot))
  }

  /** A build that ended without an agent gives the permit back. */
  function Release(s: State, id: nat): State
    requires id in s.calls && s.calls[id].phase.Building? && s.calls[id].phase.slot < |s.slots|
  {
    var slot := s.calls[id].phase.slot;
    SetPhase(s.(slots := s.slots[slot := s.slots[slot].(permit := None)]), id, Finished)
  }

  function ApplyAbandon(s: State, id: nat): State
    requires Enabled(s, Abandon(id))
  {
    var phase := s.calls[id].phase;
    match phase
    case Building(_) => Release(s, id)
    case Draining(slot) => SetPhase(SetStage(s, slot, Reaped), id, Finished)
    case _ => SetPhase(s, id, Finished)
  }

  // ----- schedules -----

  /** Every step of the schedule could be taken when it was taken. */
  ghost predicate Legal(steps: seq<Step>)
    decreases |steps|, 0
  {
    steps != [] ==>
      var n := |steps| - 1;
      Legal(steps[..n]) && Enabled(Exec(steps[..n]), steps[n])
  }

  ghost function Exec(steps: seq<Step>): State
    requires Legal(steps)
    decreases |steps|, 1
  {
    if steps == [] then INIT
    else
      var n := |steps| - 1;
      Apply(Exec(steps[..n]), steps[n])
  }

  lemma {:induction false} LegalPrefix(steps: seq<Step>, i: nat)
    requires Legal(steps) && i <= |steps|
    ensures Legal(steps[..i])
  {
    var n := |steps| - 1;
    if i == |steps| {
      assert steps[..i] == steps;
    } else {
      LegalPrefix(steps[..n], i);
      assert steps[..n][..i] == steps[..i];
    }
  }

  // ----- the invariant -----

  predicate HasAgent(s: State, slot: nat, agent: nat) {
    slot < |s.slots| && s.slots[slot].cell.Some? && s.slots[slot].cell.value.agent == agent
  }

  /** What each phase guarantees about the slot it is about. */
  predicate CallOk(s: State, id: nat)
    requires id in s.calls
  {
    var c := s.calls[id];
    match c.phase
    case Checking => c.kind.GetOrBuild?
    case Fetching => c.kind.GetOrBuild?
    case Revoking(slot) => slot < |s.slots| && s.slots[slot].stage == Removed(id)
    case Looking(slot) => slot < |s.slots| && s.slots[slot].stage == Removed(id)
    case Draining(slot) => slot < |s.slots| && s.slots[slot].stage == Removed(id) && c.kind.KillAndWait?
    case Queued(slot) => slot < |s.slots| && s.slots[slot].conv == c.conv && c.kind.GetOrBuild?
    case Building(slot) =>
      && slot < |s.slots|
      && s.slots[slot].permit == Some(id)
      && s.slots[slot].cell.None?
      && s.slots[slot].conv == c.conv
      && c.kind.GetOrBuild?
    case Returned(slot, agent) => HasAgent(s, slot, agent) && s.slots[slot].conv == c.conv && c.kind.GetOrBuild?
    case Resolved(slot) => slot < |s.slots| && c.kind.KillAndWait?
    case _ => true
  }

  /** A slot agrees with the map, lives with its own agent, and nobody killed that agent before its remover. */
  predicate SlotOk(s: State, slot: nat)
    requires slot < |s.slots|
  {
    var x := s.slots[slot];
    && (x.stage.Mapped? ==> x.conv in s.tasks && s.tasks[x.conv] == slot)
    && (x.cell.Some? ==>
          var agent := x.cell.value.agent;
          agent < |s.homes| && s.homes[agent] == slot && (x.stage.Reaped? || agent !in s.killed))
  }

  ghost predicate MapOk(s: State) {
    forall conv :: conv in s.tasks ==>
      && s.tasks[conv] < |s.slots|
      && s.slots[s.tasks[conv]].stage.Mapped?
      && s.slots[s.tasks[conv]].conv == conv
  }

  ghost predicate KillsOk(s: State) {
    NoDuplicates(s.killed) && forall agent :: agent in s.killed ==> agent < |s.homes|
  }

  ghost predicate Inv(s: State) {
    && MapOk(s)
    && KillsOk(s)
    && (forall id :: id in s.calls ==> CallOk(s, id))
    && (forall slot: nat :: slot < |s.slots| ==> SlotOk(s, slot))
  }

  lemma BeginKeeps(s: State, step: Step)
    requires Inv(s) && Enabled(s, step) && step.Begin?
    ensures Inv(Apply(s, step))
  {
    var t := Apply(s, step);
    forall id | id in t.calls ensures CallOk(t, id) {
      assert id in s.calls ==> CallOk(s, id);
    }
    forall slot: nat | slot < |t.slots| ensures SlotOk(t, slot) {
      assert SlotOk(s, slot);
    }
  }

  lemma CheckKeeps(s: State, id: nat)
    requires Inv(s) && id in s.calls && s.calls[id].phase.Checking?
    ensures Inv(ApplyCheck(s, id))
  {
    var t := ApplyCheck(s, id);
    forall x | x in t.calls ensures CallOk(t, x) {
      assert CallOk(s, x);
    }
    forall slot: nat | slot < |t.slots| ensures SlotOk(t, slot) {
      assert SlotOk(s, slot);
    }
  }

  lemma RemoveKeeps(s: State, id: nat)
    requires Inv(s) && id in s.calls && s.calls[id].phase.Removing?
    ensures Inv(ApplyRemove(s, id))
  {
    var t := ApplyRemove(s, id);
    forall x | x in t.calls ensures CallOk(t, x) {
      assert CallOk(s, x);
    }
    forall slot: nat | slot < |t.slots| ensures SlotOk(t, slot) {
      assert SlotOk(s, slot);
    }
  }

  lemma RevokeKeeps(s: State, id: nat)
    requires Inv(s) && Enabled(s, Revoke(id))
    ensures Inv(Apply(s, Revoke(id)))
  {
    var t := Apply(s, Revoke(id));
    forall x | x in t.calls ensures CallOk(t, x) {
      assert CallOk(s, x);
    }
    forall slot: nat | slot < |t.slots| ensures SlotOk(t, slot) {
      assert SlotOk(s, slot);
    }
  }

  lemma ReapKeeps(s: State, slot: nat)
    requires Inv(s) && slot < |s.slots| && !s.slots[slot].stage.Mapped? && !s.slots[slot].stage.Reaped?
    ensures var t := Reap(s, slot);
            && MapOk(t) && KillsOk(t) && t.calls == s.calls
            && (forall id :: id in s.calls && s.slots[slot].stage != Removed(id) ==> CallOk(t, id))
            && (forall x: nat :: x < |t.slots| ==> SlotOk(t, x))
  {
    var t := Reap(s, slot);
    assert SlotOk(s, slot);
    forall id | id in s.calls && s.slots[slot].stage != Removed(id) ensures CallOk(t, id) {
      assert CallOk(s, id);
    }
    forall x: nat | x < |t.slots| ensures SlotOk(t, x) {
      assert SlotOk(s, x);
    }
  }

  lemma LookKeeps(s: State, id: nat, killOk: bool)
    requires Inv(s) && id in s.calls && s.calls[id].phase.Looking? && s.calls[id].phase.slot < |s.slots|
    ensures Inv(ApplyLook(s, id, killOk))
  {
    var t, slot := ApplyLook(s, id, killOk), s.calls[id].phase.slot;
    assert CallOk(s, id);
    ReapKeeps(s, slot);
    forall x | x in t.calls ensures CallOk(t, x) {
      assert CallOk(s, x);
      assert x != id ==> CallOk(Reap(s, slot), x);
    }
    forall x: nat | x < |t.slots| ensures SlotOk(t, x) {
      assert SlotOk(s, x) && SlotOk(Reap(s, slot), x);
    }
  }

  lemma FetchKeeps(s: State, id: nat)
    requires Inv(s) && id in s.calls && s.calls[id].phase.Fetching?
    ensures Inv(ApplyFetch(s, id))
  {
    var t := ApplyFetch(s, id);
    forall x | x in t.calls ensures CallOk(t, x) {
      assert CallOk(s, x);
    }
    forall slot: nat | slot < |t.slots| ensures SlotOk(t, slot) {
      assert slot < |s.slots| ==> SlotOk(s, slot);
    }
  }

  lemma EnterKeeps(s: State, id: nat)
    requires Inv(s) && Enabled(s, Enter(id))
    ensures Inv(ApplyEnter(s, id))
  {
    var t := ApplyEnter(s, id);
    forall x | x in t.calls ensures CallOk(t, x) {
      assert CallOk(s, x);
    }
    forall slot: nat | slot < |t.slots| ensures SlotOk(t, slot) {
      assert SlotOk(s, slot);
    }
  }

  lemma BuiltKeeps(s: State, id: nat)
    requires Inv(s) && Enabled(s, Built(id))
    ensures Inv(ApplyBuilt(s, id))
  {
    var t := ApplyBuilt(s, id);
    forall x | x in t.calls ensures CallOk(t, x) {
      assert CallOk(s, x) && CallOk(s, id);
    }
    forall slot: nat | slot < |t.slots| ensures SlotOk(t, slot) {
      assert SlotOk(s, slot);
    }
  }

  lemma ReleaseKeeps(s: State, id: nat)
    requires Inv(s) && Enabled(s, BuildFailed(id))
    ensures Inv(Release(s, id))
  {
    var t := Release(s, id);
    forall x | x in t.calls ensures CallOk(t, x) {
      assert CallOk(s, x) && CallOk(s, id);
    }
    forall slot: nat | slot < |t.slots| ensures SlotOk(t, slot) {
      assert SlotOk(s, slot);
    }
  }

  lemma DrainKeeps(s: State, id: nat)
    requires Inv(s) && Enabled(s, Drain(id))
    ensures Inv(ApplyDrain(s, id))
  {
    var t, slot := ApplyDrain(s, id), s.calls[id].phase.slot;
    assert CallOk(s, id);
    ReapKeeps(s, slot);
    forall x | x in t.calls ensures CallOk(t, x) {
      assert x != id ==> CallOk(Reap(s, slot), x);
    }
    forall x: nat | x < |t.slots| ensures SlotOk(t, x) {
      assert SlotOk(Reap(s, slot), x);
    }
  }

  lemma AbandonKeeps(s: State, id: nat)
    requires Inv(s) && Enabled(s, Abandon(id)) && !s.calls[id].phase.Building?
    ensures Inv(ApplyAbandon(s, id))
  {
    var t := ApplyAbandon(s, id);
    assert CallOk(s, id);
    forall x | x in t.calls ensures CallOk(t, x) {
      assert CallOk(s, x);
    }
    forall slot: nat | slot < |t.slots| ensures SlotOk(t, slot) {
      assert SlotOk(s, slot);
    }
  }

  lemma StepKeeps(s: State, step: Step)
    requires Inv(s) && Enabled(s, step)
    ensures Inv(Apply(s, step))
  {
    match step
    case Begin(_, _, _, _, _) => BeginKeeps(s, step);
    case Check(id) => CheckKeeps(s, id);
    case Remove(id) => RemoveKeeps(s, id);
    case Revoke(id) => RevokeKeeps(s, id);
    case Look(id, killOk) => LookKeeps(s, id, killOk);
    case Fetch(id) => FetchKeeps(s, id);
    case Enter(id) => EnterKeeps(s, id);
    case Built(id) => BuiltKeeps(s, id);
    case BuildFailed(id) => ReleaseKeeps(s, id);
    case Drain(id) => DrainKeeps(s, id);
    case Abandon(id) =>
      if s.calls[id].phase.Building? {
        ReleaseKeeps(s, id);
      } else {
        AbandonKeeps(s, id);
      }
  }

  /** Every legal schedule keeps the invariant. */
  lemma {:induction false} ScheduleKeeps(steps: seq<Step>)
    requires Legal(steps)
    ensures Inv(Exec(steps))
  {
    if steps != [] {
      var n := |steps| - 1;
      ScheduleKeeps(steps[..n]);
      StepKeeps(Exec(steps[..n]), steps[n]);
    }
  }
}
