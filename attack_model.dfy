/**
 * The melee attack timeline as values: the authored attack list, the runtime
 * state of one component (including the state of its bound tracer), and pure
 * functions giving the effect of each operation. The class in AttackComponent is
 * proved to behave exactly like these functions. The lemmas state the timeline's
 * promises: combo buffering only late in Active or in Recovery, at most one phase
 * change per tick, the tracer open only while Active, a busy component always
 * pointing at a valid attack, and a live trace radius never below one unit.
 */
module AttackModel {
  import opened Wrappers
  import opened SweepSteps
  import opened TraceModel

  datatype Phase = Idle | Warmup | Active | Recovery

  /** The engine's "no index" marker; as a combo successor it ends the chain. */
  const IndexNone: int := -1

  /**
   * One authored attack. The radius curve maps normalised progress in [0, 1] to a
   * radius multiplier. samplesAlongBlade is authored but never read.
   */
  datatype AttackSpec = AttackSpec(
    name: string,
    warmupTime: real,
    activeTime: real,
    recoveryTime: real,
    damage: real,
    baseTraceRadius: real,
    radiusScaleCurve: Option<real -> real>,
    samplesAlongBlade: int,
    maxStepDistance: real,
    extraSubdivisions: int,
    nextIndex: int,
    inputBufferOpen: real)

  /** Phase-changed notification: the new phase and the current attack's name, if there is a current attack. */
  datatype PhaseEvent = PhaseChanged(phase: Phase, attackName: Option<string>)

  /** The runtime fields of one attack component, and the state of its tracer if one is bound. */
  datatype AttackState = AttackState(
    phase: Phase,
    currentIndex: int,
    phaseElapsed: real,
    bufferedNext: bool,
    events: seq<PhaseEvent>,
    tracer: Option<TracerView>)

  /** A component as constructed: idle, no current attack, no time elapsed, nothing buffered. */
  function Fresh(tracer: Option<TracerView>): (r: AttackState)
    ensures !IsBusy(r) && forall list: seq<AttackSpec> :: !ValidIndex(list, r.currentIndex)
    ensures r.phaseElapsed == 0.0 && !r.bufferedNext && r.events == [] && r.tracer == tracer
  {
    AttackState(Idle, IndexNone, 0.0, false, [], tracer)
  }

  predicate ValidIndex(list: seq<AttackSpec>, index: int)
  {
    0 <= index < |list|
  }

  function CurSpec(list: seq<AttackSpec>, index: int): (r: Option<AttackSpec>)
    ensures r.Some? <==> ValidIndex(list, index)
  {
    if ValidIndex(list, index) then Some(list[index]) else None
  }

  function AttackName(list: seq<AttackSpec>, index: int): Option<string>
  {
    if ValidIndex(list, index) then Some(list[index].name) else None
  }

  /** Busy in any of the three phases of an attack. */
  predicate IsBusy(s: AttackState)
    ensures IsBusy(s) <==> s.phase in {Warmup, Active, Recovery}
  {
    s.phase != Idle
  }

  function Clamp(x: real, lo: real, hi: real): real
  {
    if x < lo then lo else if x > hi then hi else x
  }

  function PhaseDuration(spec: AttackSpec, phase: Phase): real
  {
    match phase
    case Warmup => spec.warmupTime
    case Active => spec.activeTime
    case Recovery => spec.recoveryTime
    case Idle => 0.0
  }

  /**
   * Fraction of the current phase elapsed: 0 without a current attack or when
   * idle, 1 for a phase of zero duration.
   */
  function NormProgress(phase: Phase, spec: Option<AttackSpec>, elapsed: real): (t: real)
    ensures phase == Idle || spec.None? ==> t == 0.0
    ensures phase != Idle && spec.Some? && PhaseDuration(spec.value, phase) <= 0.0 ==> t == 1.0
    ensures phase != Idle && spec.Some? && PhaseDuration(spec.value, phase) > 0.0 ==>
      t * PhaseDuration(spec.value, phase) == elapsed
  {
    match spec
    case None => 0.0
    case Some(s) =>
      if phase == Idle then 0.0
      else
        var d := PhaseDuration(s, phase);
        if d > 0.0 then elapsed / d else 1.0
  }

  /** Live radius: the base radius scaled by the curve value, a non-positive value meaning no scaling, never below one. */
  function LiveRadius(baseTraceRadius: real, k: real): (r: real)
    ensures r >= 1.0
    ensures k <= 0.0 ==> r == MaxReal(1.0, baseTraceRadius)
    ensures r >= baseTraceRadius * (if k <= 0.0 then 1.0 else k)
    ensures r == 1.0 || r == baseTraceRadius * (if k <= 0.0 then 1.0 else k)
  {
    MaxReal(1.0, baseTraceRadius * (if k <= 0.0 then 1.0 else k))
  }

  // ---------------------------------------------------------------- operations

  /** Pushes one attack's sweep settings and damage onto the tracer. */
  function ApplySpecToTracer(t: TracerView, spec: AttackSpec): (r: TracerView)
    ensures r.config.radius == spec.baseTraceRadius && r.config.maxStepDistance == spec.maxStepDistance
    ensures r.config.extraSubdivisions == spec.extraSubdivisions && r.damage == spec.damage
    ensures r == t.(config := r.config, damage := r.damage)
    ensures r.config == t.config.(radius := r.config.radius, maxStepDistance := r.config.maxStepDistance,
                                  extraSubdivisions := r.config.extraSubdivisions)
  {
    t.(config := t.config.(radius := spec.baseTraceRadius,
                           maxStepDistance := spec.maxStepDistance,
                           extraSubdivisions := spec.extraSubdivisions),
       damage := spec.damage)
  }

  /**
   * Enters a phase: the timer restarts, the tracer opens on Active and closes
   * otherwise (dropping its hit set only on Idle), and one notification is sent.
   */
  function SetPhase(s: AttackState, list: seq<AttackSpec>, newPhase: Phase, ownerMesh: Option<MeshId>): (r: AttackState)
    requires s.tracer.Some?
    ensures r.phase == newPhase && r.phaseElapsed == 0.0
    ensures r.currentIndex == s.currentIndex && r.bufferedNext == s.bufferedNext
    ensures r.events == s.events + [PhaseChanged(newPhase, AttackName(list, s.currentIndex))]
    ensures r.tracer.Some? && (r.tracer.value.active ==> newPhase == Active)
    ensures newPhase == Active ==> r.tracer.value == StartTraceView(s.tracer.value, ownerMesh)
    ensures newPhase != Active ==> r.tracer.value == StopTraceView(s.tracer.value, newPhase == Idle)
  {
    var t := s.tracer.value;
    var t' := if newPhase == Active then StartTraceView(t, ownerMesh) else StopTraceView(t, newPhase == Idle);
    s.(phase := newPhase,
       phaseElapsed := 0.0,
       tracer := Some(t'),
       events := s.events + [PhaseChanged(newPhase, AttackName(list, s.currentIndex))])
  }

  /** Starts attack index, silently doing nothing for an invalid index or without a tracer. */
  function StartAttack(s: AttackState, list: seq<AttackSpec>, index: int, ownerMesh: Option<MeshId>): (r: AttackState)
    ensures !ValidIndex(list, index) || s.tracer.None? ==> r == s
    ensures ValidIndex(list, index) && s.tracer.Some? ==>
      var spec := list[index];
      var t := s.tracer.value;
      && r.phase == Warmup && r.currentIndex == index && r.phaseElapsed == 0.0 && !r.bufferedNext
      && r.events == s.events + [PhaseChanged(Warmup, Some(spec.name))]
      && r.tracer == Some(StopTraceView(ApplySpecToTracer(t, spec), false))
      && r.tracer.value.config.radius == spec.baseTraceRadius
      && r.tracer.value.config.maxStepDistance == spec.maxStepDistance
      && r.tracer.value.config.extraSubdivisions == spec.extraSubdivisions
      && r.tracer.value.damage == spec.damage
      && r.tracer.value.serverAuthoritative == t.serverAuthoritative
      && !r.tracer.value.active
  {
    if !ValidIndex(list, index) || s.tracer.None? then s
    else
      var primed := s.(currentIndex := index, bufferedNext := false,
                       tracer := Some(ApplySpecToTracer(s.tracer.value, list[index])));
      SetPhase(primed, list, Warmup, ownerMesh)
  }

  /**
   * Attack input: starts the default attack when idle; otherwise may only set
   * the combo buffer, late in Active or at any time in Recovery.
   */
  function RequestAttack(s: AttackState, list: seq<AttackSpec>, defaultIndex: int, ownerMesh: Option<MeshId>)
    : (r: AttackState)
    ensures s.phase == Idle ==> r == StartAttack(s, list, defaultIndex, ownerMesh)
    ensures s.phase != Idle ==> r == s.(bufferedNext := r.bufferedNext)
    ensures s.phase != Idle && s.bufferedNext ==> r.bufferedNext
    ensures s.phase == Warmup ==> r == s
    ensures s.phase != Idle && !ValidIndex(list, s.currentIndex) ==> r == s
    ensures s.phase == Recovery && ValidIndex(list, s.currentIndex) ==> r.bufferedNext
    ensures s.phase == Active && ValidIndex(list, s.currentIndex) ==>
      var spec := list[s.currentIndex];
      (r.bufferedNext <==> s.bufferedNext || spec.activeTime - s.phaseElapsed <= MaxReal(0.0, spec.inputBufferOpen))
  {
    if s.phase == Idle then StartAttack(s, list, defaultIndex, ownerMesh)
    else
      match CurSpec(list, s.currentIndex)
      case None => s
      case Some(spec) =>
        if s.phase == Active then
          if spec.activeTime - s.phaseElapsed <= MaxReal(0.0, spec.inputBufferOpen) then s.(bufferedNext := true) else s
        else if s.phase == Recovery then s.(bufferedNext := true)
        else s
  }

  /** The phase a completed phase leads to when no combo continues it. */
  function NextPhase(p: Phase): Phase
  {
    match p
    case Idle => Idle
    case Warmup => Active
    case Active => Recovery
    case Recovery => Idle
  }

  /** At most one transition: stay, move to the next phase, or from Recovery start the next combo step. */
  predicate OneTransition(from: Phase, to: Phase)
  {
    to == from || to == NextPhase(from) || (from == Recovery && to == Warmup)
  }

  /** Advances the timer by dt and makes at most one transition. */
  function UpdatePhase(s: AttackState, list: seq<AttackSpec>, dt: real, ownerMesh: Option<MeshId>): (r: AttackState)
    requires s.phase != Idle ==> s.tracer.Some?
    ensures s.phase == Idle ==> r == s
    ensures s.phase != Idle && !ValidIndex(list, s.currentIndex) ==> r.phase == Idle
    ensures s.phase != Idle && !ValidIndex(list, s.currentIndex) ==>
      r == SetPhase(s.(phaseElapsed := s.phaseElapsed + dt), list, Idle, ownerMesh)
    ensures s.phase != Idle && ValidIndex(list, s.currentIndex) ==> OneTransition(s.phase, r.phase)
    ensures s.phase != Idle && r.phase == s.phase ==>
      r == s.(phaseElapsed := s.phaseElapsed + dt)
    ensures r.phase != s.phase ==> r.phaseElapsed == 0.0 && |r.events| == |s.events| + 1
    ensures r.phase != Idle ==> r.tracer.Some?
    ensures s.phase != Idle && ValidIndex(list, s.currentIndex) ==>
      var spec := list[s.currentIndex];
      var e := s.(phaseElapsed := s.phaseElapsed + dt);
      && (s.phase == Warmup ==> (r.phase == Active <==> e.phaseElapsed >= spec.warmupTime))
      && (s.phase == Warmup && e.phaseElapsed >= spec.warmupTime ==> r == SetPhase(e, list, Active, ownerMesh))
      && (s.phase == Active ==> (r.phase == Recovery <==> e.phaseElapsed >= spec.activeTime))
      && (s.phase == Active && e.phaseElapsed >= spec.activeTime ==> r == SetPhase(e, list, Recovery, ownerMesh))
      && (s.phase == Recovery && e.phaseElapsed < spec.recoveryTime ==> r == e)
      && (s.phase == Recovery && e.phaseElapsed >= spec.recoveryTime && !(s.bufferedNext && spec.nextIndex != IndexNone) ==>
            r == SetPhase(e, list, Idle, ownerMesh).(currentIndex := IndexNone))
      && (s.phase == Recovery && e.phaseElapsed >= spec.recoveryTime && s.bufferedNext && spec.nextIndex != IndexNone ==>
            r == StartAttack(e, list, spec.nextIndex, ownerMesh))
  {
    if s.phase == Idle then s
    else
      var e := s.(phaseElapsed := s.phaseElapsed + dt);
      match CurSpec(list, e.currentIndex)
      case None => SetPhase(e, list, Idle, ownerMesh)
      case Some(spec) =>
        if e.phase == Warmup then
          if e.phaseElapsed >= spec.warmupTime then SetPhase(e, list, Active, ownerMesh) else e
        else if e.phase == Active then
          if e.phaseElapsed >= spec.activeTime then SetPhase(e, list, Recovery, ownerMesh) else e
        else if e.phaseElapsed >= spec.recoveryTime then
          if e.bufferedNext && spec.nextIndex != IndexNone then StartAttack(e, list, spec.nextIndex, ownerMesh)
          else SetPhase(e, list, Idle, ownerMesh).(currentIndex := IndexNone)
        else e
  }

  /** The component tick: the phase update, then the live radius while Active with a curve. */
  function Tick(s: AttackState, list: seq<AttackSpec>, dt: real, ownerMesh: Option<MeshId>): (r: AttackState)
    requires s.phase != Idle ==> s.tracer.Some?
    ensures var u := UpdatePhase(s, list, dt, ownerMesh);
      && r.(tracer := None) == u.(tracer := None)
      && (r.tracer.Some? <==> u.tracer.Some?)
      && (r.tracer.Some? ==> r.tracer.value == u.tracer.value.(config := u.tracer.value.config.(radius := r.tracer.value.config.radius)))
  {
    var u := UpdatePhase(s, list, dt, ownerMesh);
    match CurSpec(list, u.currentIndex)
    case None => u
    case Some(spec) =>
      if u.tracer.Some? && spec.radiusScaleCurve.Some? && u.phase == Active then
        var t := NormProgress(u.phase, Some(spec), u.phaseElapsed);
        var k := spec.radiusScaleCurve.value(Clamp(t, 0.0, 1.0));
        var tr := u.tracer.value;
        u.(tracer := Some(tr.(config := tr.config.(radius := LiveRadius(spec.baseTraceRadius, k)))))
      else u
  }

  // ---------------------------------------------------------------- invariant

  /**
   * The component's invariant: busy exactly when the current index is valid,
   * busy only with a tracer, the tracer open only while Active, and the Warmup
   * and Active timers never past their duration (except on the entry tick of a
   * zero-length phase).
   */
  predicate Inv(s: AttackState, list: seq<AttackSpec>)
  {
    && s.phaseElapsed >= 0.0
    && (s.phase != Idle <==> ValidIndex(list, s.currentIndex))
    && (s.phase != Idle ==> s.tracer.Some?)
    && (s.tracer.Some? && s.tracer.value.active ==> s.phase == Active)
    && (s.phase == Warmup ==> s.phaseElapsed == 0.0 || s.phaseElapsed < list[s.currentIndex].warmupTime)
    && (s.phase == Active ==> s.phaseElapsed == 0.0 || s.phaseElapsed < list[s.currentIndex].activeTime)
  }

  lemma FreshSatisfiesInv(list: seq<AttackSpec>, tracer: Option<TracerView>)
    requires tracer.Some? ==> !tracer.value.active
    ensures Inv(Fresh(tracer), list)
    ensures !IsBusy(Fresh(tracer))
  {
  }

  lemma StartAttackKeepsInv(s: AttackState, list: seq<AttackSpec>, index: int, ownerMesh: Option<MeshId>)
    requires Inv(s, list)
    requires s.phase == Idle || s.phase == Recovery
    ensures Inv(StartAttack(s, list, index, ownerMesh), list)
  {
  }

  lemma RequestAttackKeepsInv(s: AttackState, list: seq<AttackSpec>, defaultIndex: int, ownerMesh: Option<MeshId>)
    requires Inv(s, list)
    ensures Inv(RequestAttack(s, list, defaultIndex, ownerMesh), list)
  {
    if s.phase == Idle {
      StartAttackKeepsInv(s, list, defaultIndex, ownerMesh);
    }
  }

  lemma UpdatePhaseKeepsInv(s: AttackState, list: seq<AttackSpec>, dt: real, ownerMesh: Option<MeshId>)
    requires Inv(s, list) && dt >= 0.0
    ensures Inv(UpdatePhase(s, list, dt, ownerMesh), list)
  {
    if s.phase == Recovery {
      var e := s.(phaseElapsed := s.phaseElapsed + dt);
      StartAttackKeepsInv(e, list, list[s.currentIndex].nextIndex, ownerMesh);
    }
  }

  lemma TickKeepsInv(s: AttackState, list: seq<AttackSpec>, dt: real, ownerMesh: Option<MeshId>)
    requires Inv(s, list) && dt >= 0.0
    ensures Inv(Tick(s, list, dt, ownerMesh), list)
  {
    UpdatePhaseKeepsInv(s, list, dt, ownerMesh);
  }

  /** Under the invariant, busy means there is a current attack. */
  lemma BusyIffCurrentAttack(s: AttackState, list: seq<AttackSpec>)
    requires Inv(s, list)
    ensures IsBusy(s) <==> CurSpec(list, s.currentIndex).Some?
    ensures IsBusy(s) ==> s.tracer.Some?
  {
  }

  // ---------------------------------------------------------------- timeline properties

  /** Progress through Active never leaves [0, 1] under the invariant, so the clamp before sampling the curve never bites. */
  lemma ActiveProgressInUnitInterval(s: AttackState, list: seq<AttackSpec>)
    requires Inv(s, list) && s.phase == Active
    ensures var t := NormProgress(Active, CurSpec(list, s.currentIndex), s.phaseElapsed);
      0.0 <= t <= 1.0 && Clamp(t, 0.0, 1.0) == t
  {
    var d := list[s.currentIndex].activeTime;
    if d > 0.0 {
      var e := s.phaseElapsed;
      assert e <= d * 1.0;
      SweepSteps.DivideBelow(e, d, 1.0);
    }
  }

  /**
   * The live radius: after a tick that ends in Active with a curve, the tracer
   * radius is the base radius scaled by the curve at the current progress, and at
   * least one unit; in every other case the tick leaves the radius alone.
   */
  lemma TickRadius(s: AttackState, list: seq<AttackSpec>, dt: real, ownerMesh: Option<MeshId>)
    requires s.phase != Idle ==> s.tracer.Some?
    ensures var u := UpdatePhase(s, list, dt, ownerMesh);
      var r := Tick(s, list, dt, ownerMesh);
      if u.phase == Active && ValidIndex(list, u.currentIndex) && u.tracer.Some?
         && list[u.currentIndex].radiusScaleCurve.Some?
      then
        var spec := list[u.currentIndex];
        var k := spec.radiusScaleCurve.value(Clamp(NormProgress(Active, Some(spec), u.phaseElapsed), 0.0, 1.0));
        r.tracer.value.config.radius == LiveRadius(spec.baseTraceRadius, k) >= 1.0
      else r == u
  {
  }

  /**
   * End of Recovery: with a buffered input and a successor the next combo step
   * starts (or, if the successor index is out of range, the component stays in
   * Recovery and retries on the next tick); otherwise the component goes idle,
   * notifies with the finished attack's name, and forgets the current index.
   */
  lemma EndOfRecovery(s: AttackState, list: seq<AttackSpec>, dt: real, ownerMesh: Option<MeshId>)
    requires Inv(s, list) && s.phase == Recovery
    requires s.phaseElapsed + dt >= list[s.currentIndex].recoveryTime
    ensures var spec := list[s.currentIndex];
      var r := UpdatePhase(s, list, dt, ownerMesh);
      && (s.bufferedNext && spec.nextIndex != IndexNone && ValidIndex(list, spec.nextIndex) ==>
            r.phase == Warmup && r.currentIndex == spec.nextIndex && r.phaseElapsed == 0.0 && !r.bufferedNext)
      && (s.bufferedNext && spec.nextIndex != IndexNone && !ValidIndex(list, spec.nextIndex) ==>
            r == s.(phaseElapsed := s.phaseElapsed + dt))
      && (!(s.bufferedNext && spec.nextIndex != IndexNone) ==>
            && r.phase == Idle && r.currentIndex == IndexNone
            && r.events == s.events + [PhaseChanged(Idle, Some(spec.name))]
            && r.tracer.value == StopTraceView(s.tracer.value, true))
  {
  }

  /**
   * A whole attack without combo input: three ticks, each at least as long as
   * the phase it ends, take the component from the start of Warmup through
   * Active and Recovery back to Idle with no current attack; the tracer is opened
   * on the first tick, closed on the second, and its hit set emptied on the third.
   */
  lemma FullSwingWithoutCombo(s: AttackState, list: seq<AttackSpec>, d1: real, d2: real, d3: real,
                              ownerMesh: Option<MeshId>)
    requires Inv(s, list) && s.phase == Warmup && s.phaseElapsed == 0.0 && !s.bufferedNext
    requires var spec := list[s.currentIndex];
      d1 >= spec.warmupTime && d2 >= spec.activeTime && d3 >= spec.recoveryTime
    ensures var spec := list[s.currentIndex];
      var s1 := UpdatePhase(s, list, d1, ownerMesh);
      var s2 := UpdatePhase(s1, list, d2, ownerMesh);
      var s3 := UpdatePhase(s2, list, d3, ownerMesh);
      && s1.phase == Active && s1.tracer.value == StartTraceView(s.tracer.value, ownerMesh)
      && s2.phase == Recovery && !s2.tracer.value.active
      && s3.phase == Idle && s3.currentIndex == IndexNone && !s3.tracer.value.active && s3.tracer.value.alreadyHit == {}
      && s3.events == s.events + [PhaseChanged(Active, Some(spec.name)), PhaseChanged(Recovery, Some(spec.name)),
                                  PhaseChanged(Idle, Some(spec.name))]
  {
    var s1 := UpdatePhase(s, list, d1, ownerMesh);
    var s2 := UpdatePhase(s1, list, d2, ownerMesh);
    assert s2.currentIndex == s.currentIndex && !s2.bufferedNext;
  }

  /** The worked example: Active 0.18 s with a 0.08 s buffer rejects input at 0.09 s and accepts it at 0.11 s. */
  lemma BufferWindowExample(s: AttackState, list: seq<AttackSpec>, ownerMesh: Option<MeshId>)
    requires s.phase == Active && !s.bufferedNext && ValidIndex(list, s.currentIndex)
    requires list[s.currentIndex].activeTime == 0.18 && list[s.currentIndex].inputBufferOpen == 0.08
    ensures !RequestAttack(s.(phaseElapsed := 0.09), list, 0, ownerMesh).bufferedNext
    ensures RequestAttack(s.(phaseElapsed := 0.11), list, 0, ownerMesh).bufferedNext
  {
  }

  /** The authored blade sample count is never read: changing it changes nothing a start does. */
  lemma SamplesAlongBladeIgnored(s: AttackState, list: seq<AttackSpec>, index: int, samples: int,
                                 ownerMesh: Option<MeshId>)
    requires ValidIndex(list, index)
    ensures StartAttack(s, list[index := list[index].(samplesAlongBlade := samples)], index, ownerMesh)
         == StartAttack(s, list, index, ownerMesh)
  {
  }
}
