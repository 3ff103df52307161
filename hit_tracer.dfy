/**
 * The melee hit tracer component: a window-based sweep tracer that, while open,
 * sweeps the blade from its previous-frame to its current-frame position every
 * tick. Each method is proved to change the tracer exactly as the matching
 * function of TraceModel says; Valid() carries the once-per-window guarantee.
 */
module HitTracerComponent {
  import opened Wrappers
  import opened Geometry
  import opened SweepSteps
  import opened TraceModel

  class HitTracer {
    var weaponMesh: Option<MeshId>
    var rootSocketName: string
    var tipSocketName: string
    var config: TraceConfig
    var damage: real
    var oncePerWindow: bool
    var serverAuthoritative: bool
    var ignoreOwner: bool

    var active: bool
    var hasPrev: bool
    var prevRoot: Vec3
    var prevTip: Vec3
    var alreadyHit: set<ActorId>
    /** Queries issued, damage requested and hits broadcast, oldest first. */
    var log: seq<TraceEvent>
    /** Length of the log when the current window opened. */
    ghost var windowStart: nat

    function View(): TracerView
      reads this
    {
      TracerView(weaponMesh, rootSocketName, tipSocketName, config, damage, oncePerWindow, serverAuthoritative,
                 ignoreOwner, active, hasPrev, prevRoot, prevTip, alreadyHit, log)
    }

    function Ledger(): HitLedger
      reads this
    {
      HitLedger(alreadyHit, log)
    }

    /** While a window with once-per-window dedup is open, each actor recorded as hit was notified exactly once in it. */
    ghost predicate Valid()
      reads this
    {
      active && oncePerWindow ==> OncePerWindow(Ledger(), windowStart)
    }

    constructor ()
      ensures Valid() && View() == NewTracer
    {
      weaponMesh, rootSocketName, tipSocketName := None, "BladeRoot", "BladeTip";
      config, damage := DefaultTraceConfig, 20.0;
      oncePerWindow, serverAuthoritative, ignoreOwner := true, true, true;
      active, hasPrev := false, false;
      prevRoot, prevTip := Zero, Zero;
      alreadyHit, log := {}, [];
      windowStart := 0;
    }

    method SetWeaponMesh(mesh: Option<MeshId>)
      requires Valid()
      modifies this`weaponMesh
      ensures Valid() && View() == old(View()).(weaponMesh := mesh)
    {
      weaponMesh := mesh;
    }

    method SetSockets(root: string, tip: string)
      requires Valid()
      modifies this`rootSocketName, this`tipSocketName
      ensures Valid() && View() == old(View()).(rootSocketName := root, tipSocketName := tip)
    {
      rootSocketName, tipSocketName := root, tip;
    }

    /** Opens a window; ownerMesh is the owner's first skeletal mesh, if any. */
    method StartTrace(ownerMesh: Option<MeshId>)
      requires Valid()
      modifies this
      ensures Valid() && View() == StartTraceView(old(View()), ownerMesh)
    {
      if weaponMesh.None? {
        weaponMesh := ownerMesh;
      }
      active := weaponMesh.Some?;
      hasPrev := false;
      if oncePerWindow {
        alreadyHit := {};
        OncePerWindowAtOpen(Ledger());
      }
      windowStart := |log|;
    }

    method StopTrace(clearHitCache: bool := true)
      requires Valid()
      modifies this
      ensures Valid() && View() == StopTraceView(old(View()), clearHitCache)
    {
      active := false;
      hasPrev := false;
      if clearHitCache {
        alreadyHit := {};
      }
    }

    method Tick(env: Engine)
      requires Valid()
      modifies this
      ensures Valid() && View() == TickView(old(View()), env)
    {
      if active {
        DoFrameSweep(env);
        if oncePerWindow {
          TickKeepsOncePerWindow(old(View()), env, windowStart);
        }
      }
    }

    function Setup(env: Engine): (w: SweepSetup)
      reads this
      ensures w == FrameSetup(View(), env)
    {
      SweepSetup(config, HitPolicy(oncePerWindow, serverAuthoritative, damage),
                 QueryIgnores(ignoreOwner, env.owner, weaponMesh))
    }

    method DoFrameSweep(env: Engine)
      requires active
      modifies this`hasPrev, this`prevRoot, this`prevTip, this`alreadyHit, this`log
      ensures View() == TickView(old(View()), env)
    {
      var points := BladePoints(View(), env);
      if points.None? {
        return;
      }
      var (currRoot, currTip) := points.value;
      if !hasPrev {
        prevRoot, prevTip := currRoot, currTip;
        hasPrev := true;
        return;
      }
      SweepBlade(env, currRoot, currTip);
      prevRoot, prevTip := currRoot, currTip;
    }

    /** Sweeps root, middle and tip from their previous to their current positions. */
    method SweepBlade(env: Engine, currRoot: Vec3, currTip: Vec3)
      modifies this`alreadyHit, this`log
      ensures Ledger() == FrameSweep(old(Ledger()), Setup(env), env, prevRoot, prevTip, currRoot, currTip, BladeSamples)
    {
      ghost var before := Ledger();
      ghost var setup := Setup(env);
      var i := 0;
      while i < BladeSamples
        invariant 0 <= i <= BladeSamples
        invariant Setup(env) == setup
        invariant Ledger() == FrameSweep(before, setup, env, prevRoot, prevTip, currRoot, currTip, i)
      {
        var t := BladeFraction(i);
        SweepSegment(env, Lerp(prevRoot, prevTip, t), Lerp(currRoot, currTip, t));
        i := i + 1;
      }
    }

    /** Sweeps one motion segment in sub-steps short enough not to tunnel through thin targets. */
    method SweepSegment(env: Engine, start: Vec3, end: Vec3)
      modifies this`alreadyHit, this`log
      ensures Ledger() == TraceModel.SweepSegment(old(Ledger()), Setup(env), env, start, end)
    {
      if !env.hasWorld {
        return;
      }
      var dist := env.distance(start, end);
      var totalSteps := TotalSteps(dist, config.maxStepDistance, config.extraSubdivisions);
      ghost var before := Ledger();
      ghost var setup := Setup(env);
      var s := 0;
      while s < totalSteps
        invariant 0 <= s <= totalSteps
        invariant Setup(env) == setup
        invariant Ledger() == SubSteps(before, setup, env, start, end, totalSteps, s)
      {
        var a := SubStepStart(start, end, s, totalSteps);
        var b := SubStepEnd(start, end, s, totalSteps);
        var dir := Sub(b, a);
        var ignores := QueryIgnores(ignoreOwner, env.owner, weaponMesh);
        var query := Query(ShapeOf(config), config.traceChannel, a, b, ignores.actor, ignores.mesh);
        assert query == SubStepQuery(setup, start, end, s, totalSteps);
        log := log + [QueryIssued(query)];
        var result := env.sweep(query);
        if result.blockingHit {
          HandleHitList(env, result.hits, env.safeNormal(dir));
        }
        s := s + 1;
      }
    }

    /** Handles the hits of one blocking query result, in order. */
    method HandleHitList(env: Engine, hits: seq<HitResult>, sweepDir: Vec3)
      modifies this`alreadyHit, this`log
      ensures Ledger() == HandleHits(old(Ledger()), Setup(env).policy, env, hits, sweepDir)
    {
      ghost var before := Ledger();
      var j := 0;
      while j < |hits|
        invariant 0 <= j <= |hits|
        invariant Ledger() == HandleHits(before, Setup(env).policy, env, hits[..j], sweepDir)
      {
        assert hits[..j + 1][..j] == hits[..j];
        HandleHit(env, hits[j], sweepDir);
        j := j + 1;
      }
      assert hits[..|hits|] == hits;
    }

    method HandleHit(env: Engine, hit: HitResult, sweepDir: Vec3)
      modifies this`alreadyHit, this`log
      ensures Ledger() == TraceModel.HandleHit(old(Ledger()), Setup(env).policy, env, hit, sweepDir)
    {
      if hit.actor.None? {
        return;
      }
      var other := hit.actor.value;
      if oncePerWindow && other in alreadyHit {
        return;
      }
      var canApplyDamage := !serverAuthoritative || (env.owner.Some? && env.owner.value.hasAuthority);
      if canApplyDamage && damage > 0.0 {
        var direction := if !env.nearlyZero(sweepDir) then sweepDir
                         else if env.owner.Some? then env.owner.value.forward
                         else WorldForward;
        log := log + [DamageRequested(other, damage, direction)];
      }
      alreadyHit := alreadyHit + {other};
      log := log + [HitNotified(hit)];
    }
  }
}
