/**
 * The skill component's activation gate: a per-slot table of last-activation
 * times consulted and updated by ActivateSkill. The functions of this module are
 * the specification (the lookups, the read-only CanActivate check and the whole
 * effect of one activation); the class SkillComponent is proved to follow them.
 * The engine's world clock is a parameter (None when there is no world), the
 * resource hook a function parameter and the engine spawn an oracle result.
 */
module SkillSystem {
  import opened Wrappers
  import opened SkillTypes

  /** The slot's configuration, if one is set. */
  function FindConfig(configs: map<Slot, SlotConfig>, slot: Slot): (c: Option<SlotConfig>)
    ensures c.Some? <==> slot in configs
    ensures c.Some? ==> c.value == configs[slot]
  {
    if slot in configs then Some(configs[slot]) else None
  }

  /** The slot has a configuration naming a skill class. */
  predicate HasClass(configs: map<Slot, SlotConfig>, slot: Slot)
  {
    slot in configs && configs[slot].skillObjectClass.Some?
  }

  /** The last activation of a slot, Never for a slot without a runtime entry. */
  function LastOf(runtime: map<Slot, SlotRuntime>, slot: Slot): LastActivation
  {
    if slot in runtime then runtime[slot].lastActivated else Never
  }

  /** Still cooling down: less than the cooldown has passed since the last activation. */
  predicate CoolingDown(last: LastActivation, now: real, cooldownSeconds: real)
    ensures last.Never? ==> !CoolingDown(last, now, cooldownSeconds)
    ensures last.At? ==> (CoolingDown(last, now, cooldownSeconds) <==> now < last.time + cooldownSeconds)
  {
    match last
    case Never => false
    case At(t) => now - t < cooldownSeconds
  }

  /** The runtime table after looking a slot up with insertion of a fresh entry. */
  function EnsureRuntime(runtime: map<Slot, SlotRuntime>, slot: Slot): (r: map<Slot, SlotRuntime>)
    ensures slot in r && r.Keys == runtime.Keys + {slot}
    ensures slot in runtime ==> r == runtime
    ensures slot !in runtime ==> r[slot] == NewRuntime
    ensures forall s :: s in runtime ==> r[s] == runtime[s]
  {
    if slot in runtime then runtime else runtime[slot := NewRuntime]
  }

  /** The read-only check: a world, a configured class, and the cooldown elapsed. Resources are not checked. */
  predicate ActivationAllowed(configs: map<Slot, SlotConfig>, runtime: map<Slot, SlotRuntime>, slot: Slot,
                              world: Option<real>)
    ensures ActivationAllowed(configs, runtime, slot, world) ==>
      world.Some? && FindConfig(configs, slot).Some? && FindConfig(configs, slot).value.skillObjectClass.Some?
    ensures world.Some? && HasClass(configs, slot) ==>
      (ActivationAllowed(configs, runtime, slot, world) <==>
         LastOf(runtime, slot).Never? || world.value >= LastOf(runtime, slot).time + configs[slot].cooldownSeconds)
  {
    && world.Some?
    && HasClass(configs, slot)
    && !CoolingDown(LastOf(runtime, slot), world.value, configs[slot].cooldownSeconds)
  }

  /** The resource hook of the base component: there is no cost to pay. */
  function BaseConsumeResource(slot: Slot, config: SlotConfig): (ok: bool)
    ensures ok
  {
    true
  }

  datatype SkillEvent =
    | AttachedToOwner(actor: ActorId, owner: ActorId)
    | SkillSpawned(slot: Slot, actor: ActorId)

  /** The effect of one activation: the result, the new runtime table, the spawned actor and the events raised. */
  datatype Activation = Activation(
    result: ActivateResult,
    runtime: map<Slot, SlotRuntime>,
    spawned: Option<ActorId>,
    emitted: seq<SkillEvent>)

  /**
   * One activation, checking in a fixed order: the world, the configured class,
   * the cooldown, the resource hook, then the spawn. Only a successful spawn
   * stamps the slot with the current time; an earlier check that fails leaves
   * the table as it was, except that once the class check has passed the slot
   * has a runtime entry.
   */
  function Activate(configs: map<Slot, SlotConfig>, runtime: map<Slot, SlotRuntime>, slot: Slot,
                    world: Option<real>, consumeResource: (Slot, SlotConfig) -> bool,
                    spawnResult: Option<ActorId>, ownerCharacter: Option<ActorId>): (a: Activation)
    ensures a.result == NoWorld <==> world.None?
    ensures a.result == OnCooldown ==>
      world.Some? && HasClass(configs, slot) && CoolingDown(LastOf(runtime, slot), world.value, configs[slot].cooldownSeconds)
    ensures a.result == NotEnoughResource ==>
      ActivationAllowed(configs, runtime, slot, world) && !consumeResource(slot, configs[slot])
    ensures a.result == Success ==>
      && ActivationAllowed(configs, runtime, slot, world) && consumeResource(slot, configs[slot])
      && spawnResult.Some? && LastOf(a.runtime, slot) == At(world.value)
    ensures a.result == InvalidClass ==>
      world.Some? && (!HasClass(configs, slot) ||
        (ActivationAllowed(configs, runtime, slot, world) && consumeResource(slot, configs[slot]) && spawnResult.None?))
    ensures a.result == Success ==>
      var attaches := configs[slot].attachToOwner && ownerCharacter.Some?;
      && |a.emitted| == (if attaches then 2 else 1)
      && a.emitted[|a.emitted| - 1] == SkillSpawned(slot, spawnResult.value)
      && (attaches ==> a.emitted[0] == AttachedToOwner(spawnResult.value, ownerCharacter.value))
    ensures a.spawned.Some? <==> a.result == Success
    ensures a.spawned.Some? ==> a.spawned == spawnResult
    ensures a.result != Success ==> LastOf(a.runtime, slot) == LastOf(runtime, slot) && a.emitted == []
    ensures forall s :: s != slot ==> (s in a.runtime <==> s in runtime) && (s in runtime ==> a.runtime[s] == runtime[s])
  {
    if world.None? then Activation(NoWorld, runtime, None, [])
    else if !HasClass(configs, slot) then Activation(InvalidClass, runtime, None, [])
    else
      var cfg := configs[slot];
      var table := EnsureRuntime(runtime, slot);
      var now := world.value;
      if CoolingDown(table[slot].lastActivated, now, cfg.cooldownSeconds) then Activation(OnCooldown, table, None, [])
      else if !consumeResource(slot, cfg) then Activation(NotEnoughResource, table, None, [])
      else
        match spawnResult
        case None => Activation(InvalidClass, table, None, [])
        case Some(actor) =>
          var attach := if cfg.attachToOwner && ownerCharacter.Some? then [AttachedToOwner(actor, ownerCharacter.value)] else [];
          Activation(Success, table[slot := table[slot].(lastActivated := At(now))], Some(actor),
                     attach + [SkillSpawned(slot, actor)])
  }

  // ---------------------------------------------------------------- lemmas

  /** Inserting a fresh entry never changes any slot's cooldown state: a fresh entry means never activated. */
  lemma EnsureRuntimeKeepsLastActivation(runtime: map<Slot, SlotRuntime>, slot: Slot, other: Slot)
    ensures LastOf(EnsureRuntime(runtime, slot), other) == LastOf(runtime, other)
    ensures EnsureRuntime(EnsureRuntime(runtime, slot), slot) == EnsureRuntime(runtime, slot)
  {
  }

  /**
   * The read-only check agrees with activation: when it passes, activating at the
   * same moment cannot report no world or cooldown, and reports an invalid class
   * only when the engine spawn fails; when it fails, activation cannot succeed.
   */
  lemma CanActivateAgreesWithActivate(configs: map<Slot, SlotConfig>, runtime: map<Slot, SlotRuntime>, slot: Slot,
                                      world: Option<real>, consumeResource: (Slot, SlotConfig) -> bool,
                                      spawnResult: Option<ActorId>, ownerCharacter: Option<ActorId>)
    ensures var a := Activate(configs, runtime, slot, world, consumeResource, spawnResult, ownerCharacter);
      && (ActivationAllowed(configs, runtime, slot, world) ==>
            a.result != NoWorld && a.result != OnCooldown && (a.result == InvalidClass ==> spawnResult.None?))
      && (!ActivationAllowed(configs, runtime, slot, world) ==> a.result != Success && a.result != NotEnoughResource)
  {
  }

  /** With the base resource hook and a spawn that succeeds, activation succeeds exactly when the check passes. */
  lemma BaseActivationIffAllowed(configs: map<Slot, SlotConfig>, runtime: map<Slot, SlotRuntime>, slot: Slot,
                                 world: Option<real>, actor: ActorId, ownerCharacter: Option<ActorId>)
    ensures Activate(configs, runtime, slot, world, BaseConsumeResource, Some(actor), ownerCharacter).result == Success
        <==> ActivationAllowed(configs, runtime, slot, world)
  {
  }

  /** The base component never reports a lack of resources. */
  lemma BaseNeverLacksResource(configs: map<Slot, SlotConfig>, runtime: map<Slot, SlotRuntime>, slot: Slot,
                               world: Option<real>, spawnResult: Option<ActorId>, ownerCharacter: Option<ActorId>)
    ensures Activate(configs, runtime, slot, world, BaseConsumeResource, spawnResult, ownerCharacter).result
         != NotEnoughResource
  {
  }

  /** A slot never activated passes the cooldown check whatever the time and the cooldown. */
  lemma NeverActivatedIsReady(configs: map<Slot, SlotConfig>, runtime: map<Slot, SlotRuntime>, slot: Slot, now: real)
    requires HasClass(configs, slot) && slot !in runtime
    ensures ActivationAllowed(configs, runtime, slot, Some(now))
  {
  }

  /**
   * The cooldown: after a successful activation at time now, the slot is
   * refused at every later moment less than the cooldown away, and allowed
   * again from the moment the cooldown has elapsed.
   */
  lemma CooldownAfterSuccess(configs: map<Slot, SlotConfig>, runtime: map<Slot, SlotRuntime>, slot: Slot, now: real,
                             consumeResource: (Slot, SlotConfig) -> bool, actor: ActorId,
                             ownerCharacter: Option<ActorId>, later: real)
    requires Activate(configs, runtime, slot, Some(now), consumeResource, Some(actor), ownerCharacter).result == Success
    ensures var table := Activate(configs, runtime, slot, Some(now), consumeResource, Some(actor), ownerCharacter).runtime;
      && (later - now < configs[slot].cooldownSeconds ==> !ActivationAllowed(configs, table, slot, Some(later)))
      && (later - now >= configs[slot].cooldownSeconds ==> ActivationAllowed(configs, table, slot, Some(later)))
  {
  }

  /**
   * A refused activation changes no cooldown: whatever the result other than
   * success, the slot can be activated again exactly when it could before.
   */
  lemma FailureKeepsReadiness(configs: map<Slot, SlotConfig>, runtime: map<Slot, SlotRuntime>, slot: Slot,
                              world: Option<real>, consumeResource: (Slot, SlotConfig) -> bool,
                              spawnResult: Option<ActorId>, ownerCharacter: Option<ActorId>, other: Slot, later: Option<real>)
    requires Activate(configs, runtime, slot, world, consumeResource, spawnResult, ownerCharacter).result != Success
    ensures var table := Activate(configs, runtime, slot, world, consumeResource, spawnResult, ownerCharacter).runtime;
      ActivationAllowed(configs, table, other, later) <==> ActivationAllowed(configs, runtime, other, later)
  {
  }

  class SkillComponent {
    /** The owning character, if the owner is one. */
    const ownerCharacter: Option<ActorId>
    const slotConfigs: map<Slot, SlotConfig>
    var slotRuntime: map<Slot, SlotRuntime>
    /** Attachments made and spawn notifications sent, oldest first. */
    var events: seq<SkillEvent>

    constructor (ownerCharacter: Option<ActorId>, slotConfigs: map<Slot, SlotConfig>)
      ensures this.ownerCharacter == ownerCharacter && this.slotConfigs == slotConfigs
      ensures slotRuntime == map[] && events == []
    {
      this.ownerCharacter := ownerCharacter;
      this.slotConfigs := slotConfigs;
      slotRuntime := map[];
      events := [];
    }

    /** False without a world, without a configured class, or while the slot cools down. */
    predicate CanActivate(slot: Slot, world: Option<real>)
      reads this
      ensures CanActivate(slot, world) ==> world.Some? && slot in slotConfigs && slotConfigs[slot].skillObjectClass.Some?
      ensures CanActivate(slot, world) <==> ActivationAllowed(slotConfigs, slotRuntime, slot, world)
    {
      if world.None? then false
      else
        var cfg := FindConfig(slotConfigs, slot);
        if cfg.None? || cfg.value.skillObjectClass.None? then false
        else
          var last := if slot in slotRuntime then slotRuntime[slot].lastActivated else Never;
          !CoolingDown(last, world.value, cfg.value.cooldownSeconds)
    }

    /** The slot's runtime entry, inserting a fresh one if the slot has none. */
    method GetOrCreateRuntime(slot: Slot) returns (rt: SlotRuntime)
      modifies this`slotRuntime
      ensures slotRuntime == EnsureRuntime(old(slotRuntime), slot)
      ensures rt == slotRuntime[slot]
      ensures slot in old(slotRuntime) ==> rt == old(slotRuntime)[slot]
    {
      if slot !in slotRuntime {
        slotRuntime := slotRuntime[slot := NewRuntime];
      }
      rt := slotRuntime[slot];
    }

    /**
     * Activates a slot. world is the world's clock (None without a world),
     * consumeResource the resource hook, and spawnResult what the engine's
     * spawn returns for this slot's class.
     */
    method ActivateSkill(slot: Slot, world: Option<real>, consumeResource: (Slot, SlotConfig) -> bool,
                         spawnResult: Option<ActorId>)
      returns (result: ActivateResult, outSpawned: Option<ActorId>)
      modifies this`slotRuntime, this`events
      ensures var a := Activate(slotConfigs, old(slotRuntime), slot, world, consumeResource, spawnResult, ownerCharacter);
        && result == a.result && outSpawned == a.spawned
        && slotRuntime == a.runtime && events == old(events) + a.emitted
      ensures old(CanActivate(slot, world)) ==>
        result != NoWorld && result != OnCooldown && (result == InvalidClass ==> spawnResult.None?)
    {
      outSpawned := None;
      if world.None? {
        return NoWorld, None;
      }
      var cfg := FindConfig(slotConfigs, slot);
      if cfg.None? || cfg.value.skillObjectClass.None? {
        return InvalidClass, None;
      }
      var rt := GetOrCreateRuntime(slot);
      var now := world.value;
      if CoolingDown(rt.lastActivated, now, cfg.value.cooldownSeconds) {
        return OnCooldown, None;
      }
      if !consumeResource(slot, cfg.value) {
        return NotEnoughResource, None;
      }
      outSpawned := spawnResult;
      if outSpawned.Some? {
        slotRuntime := slotRuntime[slot := rt.(lastActivated := At(now))];
        if cfg.value.attachToOwner && ownerCharacter.Some? {
          events := events + [AttachedToOwner(outSpawned.value, ownerCharacter.value)];
        }
        events := events + [SkillSpawned(slot, outSpawned.value)];
        return Success, outSpawned;
      }
      CanActivateAgreesWithActivate(slotConfigs, old(slotRuntime), slot, world, consumeResource, spawnResult, ownerCharacter);
      return InvalidClass, outSpawned;
    }
  }
}
