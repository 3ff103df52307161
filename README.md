# Melee attack pipeline and skill cooldown gate — a Dafny model

This project models three parts of a combat template for an Unreal Engine game.

- **The melee hit tracer** (`UMeleeHitTracerComponent`). While its window is open, each tick it:
  - reads the blade's root and tip sockets;
  - sweeps root, blade middle and tip from their previous-frame positions to their current ones;
  - cuts each motion segment into sub-steps no longer than the larger of one unit and the configured step, so thin targets are not tunnelled through;
  - handles every hit.

  Handling a hit means skipping actors already hit in this window, requesting damage when authority allows it, recording the actor and broadcasting the hit.
- **The melee attack component** (`UMeeleAttackComponent`). It is a per-actor timeline Idle → Warmup → Active → Recovery → Idle, driven by the component tick. It has:
  - one buffered combo input, accepted late in Active or at any time in Recovery;
  - a continuation into the attack's successor at the end of Recovery;
  - per-attack sweep settings and damage pushed onto the tracer;
  - a live trace radius scaled by a curve over the Active phase.

  The tracer is open only during the Active phase.
- **The skill activation gate** (`SkillComponent`). It keeps a per-slot table of last-activation times. An activation checks, in a fixed order:
  1. that there is a world;
  2. that the slot has a configured class;
  3. the cooldown;
  4. the resource hook;

  and then spawns. Only a successful spawn stamps the slot's time.

Each stateful component is a class with the source's fields, and its methods change them in place:

- `HitTracerComponent.HitTracer`;
- `AttackComponent.MeleeAttack`, which holds a reference to a `HitTracer`;
- `SkillSystem.SkillComponent`.

Every method is proved to change the object exactly as a pure function of the old state says. These functions are in:

- `TraceModel` for the tracer;
- `AttackModel` for the attack timeline;
- `SkillSystem` for the activation.

The lemmas in those modules state what the components promise.

Modelling conventions:

- Times and distances are exact reals.
- The engine services are parameters:
  - the world clock;
  - socket positions;
  - distance;
  - the collision sweep;
  - safe normalisation and the nearly-zero test;
  - the owner's authority and forward vector;
  - the owner's first skeletal mesh;
  - the resource hook and the spawn result.
- What the components do to the outside world is recorded as an ordered event log:
  - queries issued;
  - damage requested;
  - hits broadcast;
  - phase changes;
  - attachments and spawn notifications.

Two behaviours of the code are worth noting:

- With a buffered input, an attack whose successor index is neither -1 nor a valid index does not return to Idle. At the end of Recovery, `StartAttack` rejects the index and returns. The component stays in Recovery and retries on every following tick (`MeeleAttackComponent.cpp:151-154`). `AttackModel.EndOfRecovery` states this.
- A passing `CanActivate` does not rule out an `InvalidClass` result from `ActivateSkill` at the same moment. A spawn that fails in the engine also reports `InvalidClass` (`SkillComponent.cpp:94`). `SkillSystem.CanActivateAgreesWithActivate` states the exact relation: after a passing check, `InvalidClass` is reported only when the spawn failed.

Source paths below are relative to the repository root.

## Model

| member | source | states |
|---|---|---|
| Geometry.Lerp | CombatSystem/MeeleAttackComponent/MeeleHitTracerComponent.cpp:113-115 | interpolation at fraction 0 is the first point and at fraction 1 the second, so blade samples 0 and 2 are the root and the tip |
| SweepSteps.Ceil | CombatSystem/MeeleAttackComponent/MeeleHitTracerComponent.cpp:129 | the ceiling is the least integer not below its argument |
| SweepSteps.StepLength | CombatSystem/MeeleAttackComponent/MeeleHitTracerComponent.cpp:129 | the step cap in use is the larger of one unit and the configured maximum step |
| SweepSteps.StepsByDistance | CombatSystem/MeeleAttackComponent/MeeleHitTracerComponent.cpp:129 | at least one step; that many capped steps cover the distance, and (beyond one) one step fewer would not |
| SweepSteps.TotalSteps | CombatSystem/MeeleAttackComponent/MeeleHitTracerComponent.cpp:130 | sub-steps per segment are at least the distance steps (so at least one), and equal to them when extra subdivisions are at most one |
| SweepSteps.SubStepLengthBounded | CombatSystem/MeeleAttackComponent/MeeleHitTracerComponent.cpp:128-138 | anti-tunnelling: whatever the distance, each sub-step covers at most the step cap |
| SweepSteps.DegenerateSegmentSweptOnce | CombatSystem/MeeleAttackComponent/MeeleHitTracerComponent.cpp:129-130 | a segment of zero length is still swept, once per extra subdivision |
| SweepSteps.TotalStepsExamples | CombatSystem/MeeleAttackComponent/MeeleHitTracerComponent.cpp:129-130 | 100 units at a 25-unit cap is 4 sub-steps, and 8 with two extra subdivisions |
| SweepSteps.SubStepsTile | CombatSystem/MeeleAttackComponent/MeeleHitTracerComponent.cpp:132-138 | the sub-steps tile the segment: the first starts at its start, the last ends at its end, and each starts where the previous ended |
| TraceModel.MayApplyDamage | CombatSystem/MeeleAttackComponent/MeeleHitTracerComponent.cpp:201 | damage is always allowed without server authority; with it, allowed exactly when there is an owner that has authority |
| TraceModel.DamageDirection | CombatSystem/MeeleAttackComponent/MeeleHitTracerComponent.cpp:206 | the damage direction is the sweep direction unless that is nearly zero, and then the owner's forward vector, or the world forward without an owner |
| TraceModel.QueryIgnores | CombatSystem/MeeleAttackComponent/MeeleHitTracerComponent.cpp:62-74 | the owner is ignored exactly when so configured and an owner exists, and then its weapon mesh too when one is set; otherwise nothing is ignored |
| TraceModel.BladePoints | CombatSystem/MeeleAttackComponent/MeeleHitTracerComponent.cpp:89-95 | blade points exist exactly when a weapon mesh is set, and are its root and tip socket locations |
| TraceModel.ActorsOf | CombatSystem/MeeleAttackComponent/MeeleHitTracerComponent.cpp:160-163 | the actors named by a list of hits: every named actor is in it, and only those |
| TraceModel.HandleHits | CombatSystem/MeeleAttackComponent/MeeleHitTracerComponent.cpp:158-164 | handling the hits of a query only adds to the hit set and only appends to the log |
| TraceModel.SubSteps | CombatSystem/MeeleAttackComponent/MeeleHitTracerComponent.cpp:132-187 | the sub-steps of a segment log at least one entry each, keep the earlier log as a prefix, and only add to the hit set |
| TraceModel.SweepSegment | CombatSystem/MeeleAttackComponent/MeeleHitTracerComponent.cpp:123-188 | without a world a segment changes nothing; with one it logs at least one entry; it never removes an entry or a recorded actor |
| TraceModel.FrameSweep | CombatSystem/MeeleAttackComponent/MeeleHitTracerComponent.cpp:110-117 | without a world the frame changes nothing; with one each blade sample logs at least one entry; nothing is removed |
| TraceModel.HandleHit | CombatSystem/MeeleAttackComponent/MeeleHitTracerComponent.cpp:190-212 | a hit without an actor, or on an actor already hit with per-window dedup on, changes nothing. Otherwise the actor joins the hit set, and the log gains a damage request then a notification when damage is allowed and positive, or only the notification. The damage request carries the sweep direction, falling back to the owner's forward vector |
| TraceModel.StartTraceView | CombatSystem/MeeleAttackComponent/MeeleHitTracerComponent.cpp:23-43 | opening adopts the owner's mesh when none is set and is active exactly when a mesh is set. It always drops the seed, empties the hit set only with per-window dedup on, and changes nothing else |
| TraceModel.StopTraceView | CombatSystem/MeeleAttackComponent/MeeleHitTracerComponent.cpp:45-51 | closing leaves the tracer inactive and unseeded, empties the hit set exactly when asked, and changes nothing else |
| TraceModel.TickView | CombatSystem/MeeleAttackComponent/MeeleHitTracerComponent.cpp:53-60 | a tick of a closed tracer, or one without blade points, changes nothing. A tick never opens, closes, reconfigures or re-targets the tracer: the mesh, socket names, sweep settings, damage and the dedup, authority and ignore-owner flags are unchanged, and only the stored positions, the hit set and the log may change. With blade points it stores them as the new previous positions |
| TraceModel.OncePerWindowAtOpen | CombatSystem/MeeleAttackComponent/MeeleHitTracerComponent.cpp:39-41 | emptying the hit set on opening starts a window in which nobody has been notified or asked to take damage, and nobody is recorded as hit |
| TraceModel.HandleHitKeepsOncePerWindow | CombatSystem/MeeleAttackComponent/MeeleHitTracerComponent.cpp:195-211 | with dedup on, handling a hit keeps every actor recorded as hit notified exactly once in the window and every other actor never, and every actor asked to take damage at most once, only if recorded as hit |
| TraceModel.HandleHitsKeepsOncePerWindow | CombatSystem/MeeleAttackComponent/MeeleHitTracerComponent.cpp:158-164 | the same for all the hits of one query, even when the query returns the same actor twice |
| TraceModel.QueryKeepsOncePerWindow | CombatSystem/MeeleAttackComponent/MeeleHitTracerComponent.cpp:147-150 | issuing a query notifies nobody and requests no damage |
| TraceModel.HandleHitCounts | CombatSystem/MeeleAttackComponent/MeeleHitTracerComponent.cpp:195-211 | a handled hit adds exactly one notification, and at most one damage request, for the hit actor and none for anyone else |
| TraceModel.SubStepsKeepOncePerWindow | CombatSystem/MeeleAttackComponent/MeeleHitTracerComponent.cpp:132-187 | the same across all sub-steps of a segment |
| TraceModel.FrameSweepKeepsOncePerWindow | CombatSystem/MeeleAttackComponent/MeeleHitTracerComponent.cpp:110-117 | the same across the three blade samples of a frame, even when several samples hit the same actor |
| TraceModel.TickKeepsOncePerWindow | CombatSystem/MeeleAttackComponent/MeeleHitTracerComponent.cpp:53-60 | a tick keeps the once-per-window guarantee of an open window |
| TraceModel.HandleHitsRecordsActors | CombatSystem/MeeleAttackComponent/MeeleHitTracerComponent.cpp:158-164 | after the hits of a query are handled, the hit set is the old one plus exactly the actors those hits name |
| TraceModel.SubStepsRecordBlockingHits | CombatSystem/MeeleAttackComponent/MeeleHitTracerComponent.cpp:132-187 | every actor of every blocking result among a segment's sub-steps ends up recorded as hit, and so, with dedup on, notified exactly once in the window |
| TraceModel.HandleHitIssuesNoQuery | CombatSystem/MeeleAttackComponent/MeeleHitTracerComponent.cpp:190-212 | handling one hit issues no query |
| TraceModel.HandleHitsIssueNoQuery | CombatSystem/MeeleAttackComponent/MeeleHitTracerComponent.cpp:190-212 | hit handling issues no query |
| TraceModel.SegmentQueries | CombatSystem/MeeleAttackComponent/MeeleHitTracerComponent.cpp:132-150 | k sub-steps give exactly k queries |
| TraceModel.SegmentQueriesAt | CombatSystem/MeeleAttackComponent/MeeleHitTracerComponent.cpp:132-150 | query s of a segment is the sweep of sub-step s with the configured shape, channel and ignores |
| TraceModel.SubStepsQueries | CombatSystem/MeeleAttackComponent/MeeleHitTracerComponent.cpp:132-187 | the sub-steps of a segment append exactly their own queries to the log, one each, in order |
| TraceModel.SweptQueriesTile | CombatSystem/MeeleAttackComponent/MeeleHitTracerComponent.cpp:128-150 | with a world, a segment is swept by at least one query. Every query has the configured shape and channel; the first starts at the segment's start, the last ends at its end, and consecutive queries meet |
| TraceModel.SweepSegmentQueries | CombatSystem/MeeleAttackComponent/MeeleHitTracerComponent.cpp:123-188 | a segment appends exactly its sub-step queries, and none without a world |
| TraceModel.FrameSweepQueries | CombatSystem/MeeleAttackComponent/MeeleHitTracerComponent.cpp:110-117 | a sweeping frame issues the queries of root, blade middle and tip in that order, each from its previous to its current position |
| TraceModel.FirstTickOnlySeeds | CombatSystem/MeeleAttackComponent/MeeleHitTracerComponent.cpp:102-108 | the first frame after opening only records the blade position: no query, no hit, however far the blade moved |
| TraceModel.LaterTickSweepsThreeSegments | CombatSystem/MeeleAttackComponent/MeeleHitTracerComponent.cpp:110-120 | a later frame sweeps the three segments from the stored positions to the current ones, then stores the current ones |
| TraceModel.AuthoredStepCount | CombatSystem/MeeleAttackComponent/MeeleHitTracerComponent.h:38-42 | with the editor's lower bounds the cap is the configured step and the sub-step count is the distance steps times the extra subdivisions |
| HitTracerComponent.HitTracer.constructor | CombatSystem/MeeleAttackComponent/MeeleHitTracerComponent.h:62-126 | a new tracer has the authored defaults and is closed, unseeded, with an empty hit set |
| HitTracerComponent.HitTracer.SetWeaponMesh | CombatSystem/MeeleAttackComponent/MeeleHitTracerComponent.h:100 | sets the weapon mesh and nothing else |
| HitTracerComponent.HitTracer.SetSockets | CombatSystem/MeeleAttackComponent/MeeleHitTracerComponent.h:103 | sets the two socket names and nothing else |
| HitTracerComponent.HitTracer.StartTrace | CombatSystem/MeeleAttackComponent/MeeleHitTracerComponent.cpp:23-43 | changes the tracer as opening does, and starts a window satisfying the once-per-window invariant |
| HitTracerComponent.HitTracer.StopTrace | CombatSystem/MeeleAttackComponent/MeeleHitTracerComponent.cpp:45-51 | changes the tracer as closing does, keeping the invariant; the hit set is emptied unless the caller asks otherwise |
| HitTracerComponent.HitTracer.Tick | CombatSystem/MeeleAttackComponent/MeeleHitTracerComponent.cpp:53-60 | changes the tracer as one tick does, keeping the once-per-window invariant |
| HitTracerComponent.HitTracer.DoFrameSweep | CombatSystem/MeeleAttackComponent/MeeleHitTracerComponent.cpp:97-121 | seeds on the first frame, otherwise sweeps the blade and stores the current positions, as one tick does |
| HitTracerComponent.HitTracer.SweepBlade | CombatSystem/MeeleAttackComponent/MeeleHitTracerComponent.cpp:110-117 | its loop over root, middle and tip has the effect of the three-sample frame sweep |
| HitTracerComponent.HitTracer.SweepSegment | CombatSystem/MeeleAttackComponent/MeeleHitTracerComponent.cpp:123-188 | its sub-step loop has the effect of sweeping one segment: nothing without a world, otherwise one query per sub-step followed by the hits of each blocking result |
| HitTracerComponent.HitTracer.HandleHitList | CombatSystem/MeeleAttackComponent/MeeleHitTracerComponent.cpp:158-164 | its loop over the hits of a blocking result has the effect of handling them in order |
| HitTracerComponent.HitTracer.HandleHit | CombatSystem/MeeleAttackComponent/MeeleHitTracerComponent.cpp:190-212 | has the effect of handling one hit |
| AttackModel.Fresh | CombatSystem/MeeleAttackComponent/MeeleAttackComponent.h:115-119 | a new component is not busy, has no current attack whatever the attack list, no elapsed time, no buffered input and no events, and keeps its tracer |
| AttackModel.IsBusy | CombatSystem/MeeleAttackComponent/MeeleAttackComponent.h:94 | busy exactly in Warmup, Active or Recovery |
| AttackModel.CurSpec | CombatSystem/MeeleAttackComponent/MeeleAttackComponent.cpp:93-96 | there is a current attack exactly when the index is valid |
| AttackModel.NormProgress | CombatSystem/MeeleAttackComponent/MeeleAttackComponent.cpp:111-124 | progress is the elapsed time over the phase's duration; 0 when idle or without a current attack, and 1 for a phase of zero duration |
| AttackModel.LiveRadius | CombatSystem/MeeleAttackComponent/MeeleAttackComponent.cpp:107 | the live radius is the larger of one unit and the base radius times the curve value, a non-positive curve value meaning the unscaled base radius |
| AttackModel.ApplySpecToTracer | CombatSystem/MeeleAttackComponent/MeeleAttackComponent.cpp:167-178 | the tracer takes the attack's radius, maximum step, extra subdivisions and damage, and nothing else about it changes |
| AttackModel.SetPhase | CombatSystem/MeeleAttackComponent/MeeleAttackComponent.cpp:71-91 | entering a phase restarts its timer and appends one notification with the current attack's name. The tracer opens on Active and otherwise closes, dropping its hits only on Idle, so it is open only in Active |
| AttackModel.StartAttack | CombatSystem/MeeleAttackComponent/MeeleAttackComponent.cpp:59-69 | an invalid index or a missing tracer changes nothing. Otherwise Warmup starts on that attack with the buffer cleared and the attack's radius, step, subdivisions and damage on a closed tracer; the tracer's own authority flag is untouched |
| AttackModel.RequestAttack | CombatSystem/MeeleAttackComponent/MeeleAttackComponent.cpp:31-57 | idle: starts the default attack. Busy: only the buffer can change, never back to false, and without a current attack nothing changes. Warmup ignores the input; Recovery always buffers; Active buffers exactly when the time left is at most the buffer window |
| AttackModel.UpdatePhase | CombatSystem/MeeleAttackComponent/MeeleAttackComponent.cpp:126-165 | idle: nothing. Busy without a current attack: the timer advances and the component enters Idle, closing and emptying the tracer and sending one notification. Otherwise at most one transition per tick, taken exactly when the advanced timer reaches the phase's time: Warmup to Active at the warmup time, Active to Recovery at the active time. At the recovery time it starts the successor when input is buffered and a successor is named (an out-of-range successor leaves it in Recovery), else goes Idle and forgets the index. Staying advances the timer by dt; a transition restarts it and sends one notification |
| AttackModel.Tick | CombatSystem/MeeleAttackComponent/MeeleAttackComponent.cpp:98-109 | a tick is the phase update, with at most the tracer's radius changed afterwards |
| AttackModel.FreshSatisfiesInv | CombatSystem/MeeleAttackComponent/MeeleAttackComponent.h:115-119 | a new component is idle and satisfies the timeline invariant |
| AttackModel.StartAttackKeepsInv | CombatSystem/MeeleAttackComponent/MeeleAttackComponent.cpp:59-69 | starting an attack from Idle or Recovery keeps the invariant |
| AttackModel.RequestAttackKeepsInv | CombatSystem/MeeleAttackComponent/MeeleAttackComponent.cpp:31-57 | attack input keeps the invariant |
| AttackModel.UpdatePhaseKeepsInv | CombatSystem/MeeleAttackComponent/MeeleAttackComponent.cpp:126-165 | a phase update by a non-negative dt keeps the invariant (busy exactly with a valid index, a tracer when busy, the tracer open only in Active, timers within their phase) |
| AttackModel.TickKeepsInv | CombatSystem/MeeleAttackComponent/MeeleAttackComponent.cpp:98-109 | a tick by a non-negative dt keeps the invariant |
| AttackModel.BusyIffCurrentAttack | CombatSystem/MeeleAttackComponent/MeeleAttackComponent.h:94 | under the invariant, busy exactly when there is a current attack, and then a tracer is bound |
| AttackModel.ActiveProgressInUnitInterval | CombatSystem/MeeleAttackComponent/MeeleAttackComponent.cpp:103-107 | under the invariant, Active progress lies in [0, 1], so the clamp before the curve changes nothing |
| AttackModel.TickRadius | CombatSystem/MeeleAttackComponent/MeeleAttackComponent.cpp:103-108 | after a tick ending in Active with a curve and a tracer, the radius is the base scaled by the curve at the current progress, at least one. Otherwise the tick is just the phase update |
| AttackModel.EndOfRecovery | CombatSystem/MeeleAttackComponent/MeeleAttackComponent.cpp:147-160 | at the end of Recovery, a buffered input with a valid successor starts the successor's Warmup, and with an out-of-range successor the component stays in Recovery. Otherwise it goes Idle with the finished attack's name, forgets the index and empties the tracer's hit set |
| AttackModel.FullSwingWithoutCombo | CombatSystem/MeeleAttackComponent/MeeleAttackComponent.cpp:126-165 | three long-enough ticks take a fresh Warmup through Active and Recovery back to Idle, with three notifications. The tracer opens on the first tick, closes on the second and is emptied on the third |
| AttackModel.BufferWindowExample | CombatSystem/MeeleAttackComponent/MeeleAttackComponent.cpp:43-50 | with 0.18 s of Active and a 0.08 s window, input at 0.09 s is rejected and at 0.11 s buffered |
| AttackModel.SamplesAlongBladeIgnored | CombatSystem/MeeleAttackComponent/MeeleAttackComponent.h:44-45 | the authored blade sample count has no effect on starting an attack |
| AttackComponent.MeleeAttack.constructor | CombatSystem/MeeleAttackComponent/MeeleAttackComponent.h:74-119 | a new component is idle with no current attack, no elapsed time and no buffered input, and satisfies the invariant |
| AttackComponent.MeleeAttack.IsBusy | CombatSystem/MeeleAttackComponent/MeeleAttackComponent.h:94 | under the invariant, busy exactly when there is a current attack |
| AttackComponent.MeleeAttack.SetPhase | CombatSystem/MeeleAttackComponent/MeeleAttackComponent.cpp:71-91 | changes the component and its tracer as entering a phase does |
| AttackComponent.MeleeAttack.ApplySpecToTracer | CombatSystem/MeeleAttackComponent/MeeleAttackComponent.cpp:167-178 | with a tracer, sets its radius, step, subdivisions and damage from the attack. Without one, nothing |
| AttackComponent.MeleeAttack.StartAttack | CombatSystem/MeeleAttackComponent/MeeleAttackComponent.cpp:59-69 | changes the component and its tracer as starting an attack does |
| AttackComponent.MeleeAttack.RequestAttack | CombatSystem/MeeleAttackComponent/MeeleAttackComponent.cpp:31-57 | changes them as attack input does, keeping the invariant |
| AttackComponent.MeleeAttack.UpdatePhase | CombatSystem/MeeleAttackComponent/MeeleAttackComponent.cpp:126-165 | changes them as the phase update does |
| AttackComponent.MeleeAttack.Tick | CombatSystem/MeeleAttackComponent/MeeleAttackComponent.cpp:98-109 | changes them as a component tick does, keeping the invariant for a non-negative dt |
| SkillTypes.EnumerationsAreClosed | CombatSystem/SkillSystem/SkillComponent.h:13-32 | there are exactly five slots (Q, W, E, R, T) and five activation results |
| SkillTypes.ConfigDefaults | CombatSystem/SkillSystem/SkillComponent.h:59-95 | slot defaults: no class, 0.5 s cooldown, no cost, no attachment, control rotation on. A fresh runtime entry means never activated |
| SkillSystem.FindConfig | CombatSystem/SkillSystem/SkillComponent.cpp:27-30 | the slot's config is found exactly when one is set, and is that config |
| SkillSystem.CoolingDown | CombatSystem/SkillSystem/SkillComponent.cpp:53-54 | a slot never activated is never cooling down; one activated at t cools down exactly until t plus the cooldown |
| SkillSystem.ActivationAllowed | CombatSystem/SkillSystem/SkillComponent.cpp:44-58 | allowed only with a world and a configured class; then allowed exactly when the slot was never activated or the cooldown has elapsed since its last activation |
| SkillSystem.EnsureRuntime | CombatSystem/SkillSystem/SkillComponent.cpp:32-42 | after the lookup the slot has an entry. An existing table is unchanged; a missing slot gets a fresh entry; no other slot's entry changes |
| SkillSystem.BaseConsumeResource | CombatSystem/SkillSystem/SkillComponent.cpp:181-185 | the base resource hook always succeeds |
| SkillSystem.Activate | CombatSystem/SkillSystem/SkillComponent.cpp:60-95 | NoWorld exactly without a world. Each later result implies every earlier check passed, in the order class, cooldown, resource, spawn; InvalidClass means either no class or a spawn that failed after every check, the resource hook included, passed. An actor is returned exactly on Success, which stamps the slot with the current time and raises the owner attachment, when configured and there is an owner, followed by the spawn notification. Any other result leaves every cooldown unchanged and raises no event. No other slot changes |
| SkillSystem.EnsureRuntimeKeepsLastActivation | CombatSystem/SkillSystem/SkillComponent.cpp:32-42 | inserting a fresh entry changes no slot's cooldown state, and a second lookup changes nothing |
| SkillSystem.CanActivateAgreesWithActivate | CombatSystem/SkillSystem/SkillComponent.cpp:44-95 | after a passing check, activation at the same moment reports neither NoWorld nor OnCooldown, and InvalidClass only when the spawn failed. After a failing check it can neither succeed nor report a lack of resources |
| SkillSystem.BaseActivationIffAllowed | CombatSystem/SkillSystem/SkillComponent.cpp:44-58 | with the base resource hook and a successful spawn, activation succeeds exactly when the check passes |
| SkillSystem.BaseNeverLacksResource | CombatSystem/SkillSystem/SkillComponent.cpp:181-185 | the base component never reports NotEnoughResource |
| SkillSystem.NeverActivatedIsReady | CombatSystem/SkillSystem/SkillComponent.cpp:51-54 | a configured slot with no runtime entry passes the check at any time |
| SkillSystem.CooldownAfterSuccess | CombatSystem/SkillSystem/SkillComponent.cpp:70-83 | after a success at time t the slot is refused while less than the cooldown has passed, and allowed once it has |
| SkillSystem.FailureKeepsReadiness | CombatSystem/SkillSystem/SkillComponent.cpp:60-94 | a failed activation does not change whether any slot can be activated at any time |
| SkillSystem.SkillComponent.constructor | CombatSystem/SkillSystem/SkillComponent.h:113-123 | a new component has the given owner and configs, an empty runtime table and no events |
| SkillSystem.SkillComponent.CanActivate | CombatSystem/SkillSystem/SkillComponent.cpp:44-58 | false without a world, a config or a class. Otherwise true exactly when the cooldown has elapsed, a slot without an entry counting as never activated |
| SkillSystem.SkillComponent.GetOrCreateRuntime | CombatSystem/SkillSystem/SkillComponent.cpp:32-42 | returns the slot's existing entry unchanged, or inserts and returns a fresh one. It changes the table as the lookup function says |
| SkillSystem.SkillComponent.ActivateSkill | CombatSystem/SkillSystem/SkillComponent.cpp:60-95 | returns the result and actor, and updates the table and the events, as one activation does. After a passing check it never reports NoWorld or OnCooldown |

## Left out

- Floating point. Times, distances, interpolation fractions and the progress division are exact reals. The step count is an unbounded integer, so 32-bit overflow of an enormous sub-step count is not modelled.
- SkillSystem.Activate: a slot never activated always passes the cooldown check. The engine's lowest-float sentinel would fail only an infinite cooldown, which no authored config uses.
- Engine services are inputs, not computations:
  - socket positions;
  - Euclidean distance;
  - the multi-sweep collision query;
  - safe normalisation and the nearly-zero test;
  - owner authority and forward vector;
  - the world clock.

  The tracer's contracts hold for any answers they give.
- Debug drawing (`DrawDebugBetween` and the debug spheres and boxes) is left out. It has no effect on the model's state.
- Damage details beyond target, amount and direction are left out: the damage type class, the instigator controller and the hit result passed to the engine's damage call.
- The hit set holds actor identities that never expire. The engine's set holds weak pointers to actors, which may be destroyed.
- Component lifecycle is left out:
  - tick enabling and disabling;
  - `BeginPlay`, which finds the tracer on the owner, binds the hit delegate and caches the owner character.

  The attack component's tracer is fixed at construction. The owner character is a constructor parameter. The owner's first skeletal mesh is passed to the operations that may open the tracer.
- The attack component re-broadcasts tracer hits to its own listeners (`OnTracerHit`). This is a pure relay with no state, so it is not modelled. Hit notifications appear in the tracer's log.
- Skill spawning is left out: `BuildSpawnTransform`, `PreBuildSpawnTransform`, `SpawnSkillAt`, `ConfigureSpawnedActor` and the spawn collision settings. Their rotation and transform maths and the engine spawn are represented only by the spawn's result. The attachment to the owner is recorded as an event.
- The skill component's empty tick is left out.
- CombatSystem/SwapCombaySystem (party swapping and player state) is not part of this model.
- SweepSteps.TotalSteps: its contract gives bounds (at least the distance steps, and exactly them when extra subdivisions are at most one). It does not state the product for every input. `TraceModel.AuthoredStepCount` states the product for settings within the editor's bounds.
