/**
 * The skill system's vocabulary: key slots, activation results, the per-slot
 * configuration set in the editor and the per-slot runtime record.
 */
module SkillTypes {
  import opened Wrappers

  /** A spawnable skill actor class. */
  type ClassId = nat
  type ActorId = nat

  datatype Slot = Q | W | E | R | T

  datatype ActivateResult = Success | OnCooldown | NotEnoughResource | InvalidClass | NoWorld

  const AllSlots: set<Slot> := {Q, W, E, R, T}
  const AllResults: set<ActivateResult> := {Success, OnCooldown, NotEnoughResource, InvalidClass, NoWorld}

  /** Per-slot configuration; spawn placement (socket, offset) is not part of this model. */
  datatype SlotConfig = SlotConfig(
    skillObjectClass: Option<ClassId>,
    useOwnerControlRotation: bool,
    attachToOwner: bool,
    cooldownSeconds: real,
    manaCost: real)

  const DefaultSlotConfig := SlotConfig(None, true, false, 0.5, 0.0)

  /** The last activation time; Never stands for the engine's lowest float, a time no cooldown can reach. */
  datatype LastActivation = Never | At(time: real)

  datatype SlotRuntime = SlotRuntime(lastActivated: LastActivation)

  const NewRuntime := SlotRuntime(Never)

  /** There are exactly five slots and five activation results. */
  lemma EnumerationsAreClosed()
    ensures forall s: Slot :: s in AllSlots
    ensures |AllSlots| == 5
    ensures forall r: ActivateResult :: r in AllResults
    ensures |AllResults| == 5
  {
    forall s: Slot
      ensures s in AllSlots
    {
      assert s.Q? || s.W? || s.E? || s.R? || s.T?;
    }
    forall r: ActivateResult
      ensures r in AllResults
    {
      assert r.Success? || r.OnCooldown? || r.NotEnoughResource? || r.InvalidClass? || r.NoWorld?;
    }
    assert AllSlots == {Q} + {W} + {E} + {R} + {T};
    assert AllResults == {Success} + {OnCooldown} + {NotEnoughResource} + {InvalidClass} + {NoWorld};
  }

  /** The editor defaults: a half-second cooldown, no cost, no attachment, control rotation on. */
  lemma ConfigDefaults()
    ensures DefaultSlotConfig.cooldownSeconds == 0.5 && DefaultSlotConfig.manaCost == 0.0
    ensures !DefaultSlotConfig.attachToOwner && DefaultSlotConfig.useOwnerControlRotation
    ensures DefaultSlotConfig.skillObjectClass.None?
    ensures NewRuntime.lastActivated.Never?
  {
  }
}
