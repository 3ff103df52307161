/**
 * The melee attack component: a four-phase timeline (Idle, Warmup, Active,
 * Recovery) driven by the component tick, with one buffered combo input, that
 * opens its hit tracer only during the Active phase. Each method changes the
 * component and its tracer exactly as the matching function of AttackModel says;
 * Consistent() is the timeline invariant, kept by every operation.
 */
module AttackComponent {
  import opened Wrappers
  import opened SweepSteps
  import opened TraceModel
  import opened AttackModel
  import opened HitTracerComponent

  class MeleeAttack {
    /** The bound tracer; an attack cannot start without one. */
    const tracer: HitTracer?
    const attackList: seq<AttackSpec>
    const defaultAttackIndex: int
    /** Authored, but no operation of the component reads it; the tracer keeps its own flag. */
    const serverAuthoritative: bool

    var phase: Phase
    var currentIndex: int
    var phaseElapsed: real
    var bufferedNext: bool
    /** Phase-changed notifications, oldest first. */
    var events: seq<PhaseEvent>

    function State(): AttackState
      reads this, tracer
    {
      AttackState(phase, currentIndex, phaseElapsed, bufferedNext, events,
                   if tracer == null then None else Some(tracer.View()))
    }

    /** The tracer is in a valid state, and a busy component always has a tracer. */
    ghost predicate Valid()
      reads this, tracer
    {
      && (tracer != null ==> tracer.Valid())
      && (phase != Idle ==> tracer != null)
    }

    /** The timeline invariant of AttackModel, over this component's state. */
    ghost predicate Consistent()
      reads this, tracer
    {
      Inv(State(), attackList)
    }

    constructor (attackList: seq<AttackSpec>, defaultAttackIndex: int, serverAuthoritative: bool, tracer: HitTracer?)
      requires tracer != null ==> tracer.Valid() && !tracer.active
      ensures Valid() && Consistent()
      ensures State() == Fresh(if tracer == null then None else Some(tracer.View()))
    {
      this.tracer := tracer;
      this.attackList := attackList;
      this.defaultAttackIndex := defaultAttackIndex;
      this.serverAuthoritative := serverAuthoritative;
      phase, currentIndex, phaseElapsed, bufferedNext, events := Idle, IndexNone, 0.0, false, [];
    }

    /** Busy exactly while an attack is under way, that is, while there is a current attack. */
    predicate IsBusy()
      reads this, tracer
      ensures Inv(State(), attackList) ==>
        (IsBusy() <==> AttackModel.CurSpec(attackList, currentIndex).Some?)
    {
      phase != Idle
    }

    method SetPhase(newPhase: Phase, ownerMesh: Option<MeshId>)
      requires Valid() && tracer != null
      modifies this, tracer
      ensures Valid()
      ensures State() == AttackModel.SetPhase(old(State()), attackList, newPhase, ownerMesh)
    {
      phase := newPhase;
      phaseElapsed := 0.0;
      if phase == Active {
        tracer.StartTrace(ownerMesh);
      } else {
        tracer.StopTrace(phase == Idle);
      }
      events := events + [PhaseChanged(phase, AttackName(attackList, currentIndex))];
    }

    method ApplySpecToTracer(spec: AttackSpec)
      requires Valid()
      modifies tracer
      ensures Valid()
      ensures tracer != null ==> tracer.View() == AttackModel.ApplySpecToTracer(old(tracer.View()), spec)
    {
      if tracer == null {
        return;
      }
      tracer.config := tracer.config.(radius := spec.baseTraceRadius,
                                      maxStepDistance := spec.maxStepDistance,
                                      extraSubdivisions := spec.extraSubdivisions);
      tracer.damage := spec.damage;
    }

    method StartAttack(index: int, ownerMesh: Option<MeshId>)
      requires Valid()
      modifies this, tracer
      ensures Valid()
      ensures State() == AttackModel.StartAttack(old(State()), attackList, index, ownerMesh)
    {
      if !ValidIndex(attackList, index) || tracer == null {
        return;
      }
      currentIndex := index;
      bufferedNext := false;
      ApplySpecToTracer(AttackModel.CurSpec(attackList, currentIndex).value);
      SetPhase(Warmup, ownerMesh);
    }

    /** Attack input; ownerMesh is the owner's first skeletal mesh, used if the tracer has none. */
    method RequestAttack(ownerMesh: Option<MeshId>)
      requires Valid()
      modifies this, tracer
      ensures Valid()
      ensures State() == AttackModel.RequestAttack(old(State()), attackList, defaultAttackIndex, ownerMesh)
      ensures old(Consistent()) ==> Consistent()
    {
      if phase == Idle {
        StartAttack(defaultAttackIndex, ownerMesh);
      } else {
        var s := AttackModel.CurSpec(attackList, currentIndex);
        if s.Some? {
          if phase == Active {
            if s.value.activeTime - phaseElapsed <= MaxReal(0.0, s.value.inputBufferOpen) {
              bufferedNext := true;
            }
          } else if phase == Recovery {
            bufferedNext := true;
          }
        }
      }
      if old(Consistent()) {
        RequestAttackKeepsInv(old(State()), attackList, defaultAttackIndex, ownerMesh);
      }
    }

    method UpdatePhase(dt: real, ownerMesh: Option<MeshId>)
      requires Valid()
      modifies this, tracer
      ensures Valid()
      ensures State() == AttackModel.UpdatePhase(old(State()), attackList, dt, ownerMesh)
    {
      if phase == Idle {
        return;
      }
      phaseElapsed := phaseElapsed + dt;
      var s := AttackModel.CurSpec(attackList, currentIndex);
      if s.None? {
        SetPhase(Idle, ownerMesh);
        return;
      }
      var spec := s.value;
      if phase == Warmup {
        if phaseElapsed >= spec.warmupTime {
          SetPhase(Active, ownerMesh);
        }
      } else if phase == Active {
        if phaseElapsed >= spec.activeTime {
          SetPhase(Recovery, ownerMesh);
        }
      } else if phaseElapsed >= spec.recoveryTime {
        if bufferedNext && spec.nextIndex != IndexNone {
          StartAttack(spec.nextIndex, ownerMesh);
        } else {
          SetPhase(Idle, ownerMesh);
          currentIndex := IndexNone;
        }
      }
    }

    /** The component tick: advance the timeline by dt, then scale the live trace radius while Active. */
    method Tick(dt: real, ownerMesh: Option<MeshId>)
      requires Valid()
      modifies this, tracer
      ensures Valid()
      ensures State() == AttackModel.Tick(old(State()), attackList, dt, ownerMesh)
      ensures old(Consistent()) && dt >= 0.0 ==> Consistent()
    {
      UpdatePhase(dt, ownerMesh);
      var s := AttackModel.CurSpec(attackList, currentIndex);
      if s.Some? && tracer != null && s.value.radiusScaleCurve.Some? && phase == Active {
        var t := NormProgress(phase, s, phaseElapsed);
        var k := s.value.radiusScaleCurve.value(Clamp(t, 0.0, 1.0));
        tracer.config := tracer.config.(radius := LiveRadius(s.value.baseTraceRadius, k));
      }
      if old(Consistent()) && dt >= 0.0 {
        TickKeepsInv(old(State()), attackList, dt, ownerMesh);
      }
    }
  }
}
