/**
 * The hit tracer as values: its configuration, the engine services it consults,
 * the events it produces, and pure functions giving the effect of each of its
 * operations on its state. The class in HitTracerComponent is proved to behave
 * exactly like these functions; the lemmas at the end state what the tracer
 * promises: one sub-step query per step, tiling each motion segment; no query on
 * the seeding frame; in an open window, exactly one notification for each actor
 * recorded as hit and none for any other, and at most one damage request each.
 */
module TraceModel {
  import opened Wrappers
  import opened Geometry
  import opened SweepSteps

  type ActorId = nat
  type MeshId = nat
  type ChannelId = nat

  datatype TraceShape = SphereShape | BoxShape

  /** Authored and live-overridden sweep settings of one tracer. */
  datatype TraceConfig = TraceConfig(
    shape: TraceShape,
    radius: real,
    boxHalfExtents: Vec3,
    traceChannel: ChannelId,
    maxStepDistance: real,
    extraSubdivisions: int,
    debugDraw: bool,
    debugLifeTime: real)

  /** The project's first custom trace channel, the default melee channel. */
  const GameTraceChannel1: ChannelId := 1

  const DefaultTraceConfig := TraceConfig(SphereShape, 8.0, Vec3(6.0, 3.0, 3.0), GameTraceChannel1, 25.0, 1, false, 0.2)

  /** The editor's lower bounds on the authored settings. */
  predicate AuthoredRanges(c: TraceConfig)
  {
    c.radius >= 1.0 && c.maxStepDistance >= 1.0 && c.extraSubdivisions >= 1
  }

  datatype CollisionShape = Sphere(radius: real) | Box(halfExtents: Vec3)

  /** One swept-shape query: shape, channel, segment and the actor and component it ignores. */
  datatype Query = Query(
    shape: CollisionShape,
    channel: ChannelId,
    start: Vec3,
    end: Vec3,
    ignoredActor: Option<ActorId>,
    ignoredMesh: Option<MeshId>)

  datatype HitResult = HitResult(actor: Option<ActorId>, impactPoint: Vec3)

  /** What the engine's multi-sweep answers: whether a blocking hit was found, and the hits. */
  datatype SweepResult = SweepResult(blockingHit: bool, hits: seq<HitResult>)

  /** The actor owning the tracer, as far as the tracer looks at it. */
  datatype Owner = Owner(id: ActorId, hasAuthority: bool, forward: Vec3)

  /**
   * The engine services one tracer tick consults: whether a world exists, the
   * owner, socket positions, distance, the collision sweep, safe normalisation
   * and the nearly-zero test.
   */
  datatype Engine = Engine(
    hasWorld: bool,
    owner: Option<Owner>,
    socketLocation: (MeshId, string) -> Vec3,
    distance: (Vec3, Vec3) -> real,
    sweep: Query -> SweepResult,
    safeNormal: Vec3 -> Vec3,
    nearlyZero: Vec3 -> bool)

  /** What the tracer does to the world, in order: queries, damage requests, hit notifications. */
  datatype TraceEvent =
    | QueryIssued(query: Query)
    | DamageRequested(target: ActorId, amount: real, direction: Vec3)
    | HitNotified(hit: HitResult)

  /** The part of the tracer state a sweep changes: the per-window hit set and the event log. */
  datatype HitLedger = HitLedger(alreadyHit: set<ActorId>, log: seq<TraceEvent>)

  datatype HitPolicy = HitPolicy(oncePerWindow: bool, serverAuthoritative: bool, damage: real)

  /** Actor and component excluded from every query. */
  datatype IgnoreSet = IgnoreSet(actor: Option<ActorId>, mesh: Option<MeshId>)

  /** Everything that stays fixed during one frame's sweep. */
  datatype SweepSetup = SweepSetup(config: TraceConfig, policy: HitPolicy, ignores: IgnoreSet)

  /** All fields of a tracer. */
  datatype TracerView = TracerView(
    weaponMesh: Option<MeshId>,
    rootSocketName: string,
    tipSocketName: string,
    config: TraceConfig,
    damage: real,
    oncePerWindow: bool,
    serverAuthoritative: bool,
    ignoreOwner: bool,
    active: bool,
    hasPrev: bool,
    prevRoot: Vec3,
    prevTip: Vec3,
    alreadyHit: set<ActorId>,
    log: seq<TraceEvent>)
  {
    function Ledger(): HitLedger
    {
      HitLedger(alreadyHit, log)
    }

    function Policy(): HitPolicy
    {
      HitPolicy(oncePerWindow, serverAuthoritative, damage)
    }
  }

  /** A tracer as constructed: closed, unseeded, with the authored defaults. */
  const NewTracer := TracerView(None, "BladeRoot", "BladeTip", DefaultTraceConfig, 20.0,
                                true, true, true, false, false, Zero, Zero, {}, [])

  // ---------------------------------------------------------------- hits

  /** Damage may be requested without authority gating, or when the owner has authority. */
  predicate MayApplyDamage(p: HitPolicy, owner: Option<Owner>)
    ensures !p.serverAuthoritative ==> MayApplyDamage(p, owner)
    ensures p.serverAuthoritative && (owner.None? || !owner.value.hasAuthority) ==> !MayApplyDamage(p, owner)
    ensures p.serverAuthoritative && owner.Some? && owner.value.hasAuthority ==> MayApplyDamage(p, owner)
  {
    !p.serverAuthoritative || (owner.Some? && owner.value.hasAuthority)
  }

  /** The sweep direction, or the owner's forward vector when that direction is nearly zero. */
  function DamageDirection(env: Engine, sweepDir: Vec3): (d: Vec3)
    ensures !env.nearlyZero(sweepDir) ==> d == sweepDir
    ensures env.nearlyZero(sweepDir) ==> d == (if env.owner.Some? then env.owner.value.forward else WorldForward)
  {
    if !env.nearlyZero(sweepDir) then sweepDir
    else if env.owner.Some? then env.owner.value.forward
    else WorldForward
  }

  /** True when the hit is ignored before any damage decision: no actor, or an actor already hit in this window. */
  predicate SkipsHit(l: HitLedger, p: HitPolicy, hit: HitResult)
  {
    hit.actor.None? || (p.oncePerWindow && hit.actor.value in l.alreadyHit)
  }

  /** One hit: dedup, then the authority-gated damage request, then the record and the notification. */
  function HandleHit(l: HitLedger, p: HitPolicy, env: Engine, hit: HitResult, sweepDir: Vec3): (r: HitLedger)
    ensures SkipsHit(l, p, hit) ==> r == l
    ensures !SkipsHit(l, p, hit) ==>
      && r.alreadyHit == l.alreadyHit + {hit.actor.value}
      && |r.log| == |l.log| + (if MayApplyDamage(p, env.owner) && p.damage > 0.0 then 2 else 1)
      && r.log[|r.log| - 1] == HitNotified(hit)
      && r.log[..|l.log|] == l.log
    ensures !SkipsHit(l, p, hit) && MayApplyDamage(p, env.owner) && p.damage > 0.0 ==>
      r.log[|l.log|] == DamageRequested(hit.actor.value, p.damage, DamageDirection(env, sweepDir))
  {
    if SkipsHit(l, p, hit) then l
    else
      var other := hit.actor.value;
      var damage := if MayApplyDamage(p, env.owner) && p.damage > 0.0
                    then [DamageRequested(other, p.damage, DamageDirection(env, sweepDir))]
                    else [];
      HitLedger(l.alreadyHit + {other}, l.log + damage + [HitNotified(hit)])
  }

  /** The actors named by a list of hits. */
  function ActorsOf(hits: seq<HitResult>): (r: set<ActorId>)
    ensures forall i :: 0 <= i < |hits| && hits[i].actor.Some? ==> hits[i].actor.value in r
    ensures forall a :: a in r ==> exists i :: 0 <= i < |hits| && hits[i].actor == Some(a)
    decreases |hits|
  {
    if hits == [] then {}
    else
      var last := hits[|hits| - 1];
      ActorsOf(hits[..|hits| - 1]) + (if last.actor.Some? then {last.actor.value} else {})
  }

  /** The hits of one query, handled in order: the hit set and the log only grow. */
  function HandleHits(l: HitLedger, p: HitPolicy, env: Engine, hits: seq<HitResult>, sweepDir: Vec3): (r: HitLedger)
    ensures l.alreadyHit <= r.alreadyHit
    ensures |l.log| <= |r.log| && r.log[..|l.log|] == l.log
    decreases |hits|
  {
    if hits == [] then l
    else HandleHit(HandleHits(l, p, env, hits[..|hits| - 1], sweepDir), p, env, hits[|hits| - 1], sweepDir)
  }

  // ---------------------------------------------------------------- sweeps

  function ShapeOf(c: TraceConfig): CollisionShape
  {
    if c.shape == SphereShape then Sphere(c.radius) else Box(c.boxHalfExtents)
  }

  /** The owner and the weapon mesh are ignored only when so configured and an owner exists. */
  function QueryIgnores(ignoreOwner: bool, owner: Option<Owner>, weaponMesh: Option<MeshId>): (ig: IgnoreSet)
    ensures ig.actor.Some? <==> ignoreOwner && owner.Some?
    ensures ig.actor.Some? ==> ig.actor.value == owner.value.id && ig.mesh == weaponMesh
    ensures ig.actor.None? ==> ig.mesh.None?
  {
    if ignoreOwner && owner.Some? then IgnoreSet(Some(owner.value.id), weaponMesh) else IgnoreSet(None, None)
  }

  /** The query of sub-step s of n along one motion segment. */
  function SubStepQuery(w: SweepSetup, start: Vec3, end: Vec3, s: nat, n: nat): Query
    requires s < n
  {
    Query(ShapeOf(w.config), w.config.traceChannel, SubStepStart(start, end, s, n), SubStepEnd(start, end, s, n),
          w.ignores.actor, w.ignores.mesh)
  }

  /**
   * The first k of n sub-steps of one segment: query, then handle the hits of a
   * blocking result. Each sub-step logs at least its query; nothing is removed.
   */
  function SubSteps(l: HitLedger, w: SweepSetup, env: Engine, start: Vec3, end: Vec3, n: nat, k: nat): (r: HitLedger)
    requires k <= n
    ensures l.alreadyHit <= r.alreadyHit
    ensures |l.log| + k <= |r.log| && r.log[..|l.log|] == l.log
    decreases k
  {
    if k == 0 then l
    else
      var before := SubSteps(l, w, env, start, end, n, k - 1);
      var q := SubStepQuery(w, start, end, k - 1, n);
      var res := env.sweep(q);
      var queried := HitLedger(before.alreadyHit, before.log + [QueryIssued(q)]);
      if res.blockingHit then HandleHits(queried, w.policy, env, res.hits, env.safeNormal(Sub(q.end, q.start)))
      else queried
  }

  /** Sub-steps of one segment, from its oracle distance and the live step settings. */
  function SegmentSteps(w: SweepSetup, env: Engine, start: Vec3, end: Vec3): nat
  {
    TotalSteps(env.distance(start, end), w.config.maxStepDistance, w.config.extraSubdivisions)
  }

  /** One motion segment: nothing without a world, otherwise all its sub-steps, at least one. */
  function SweepSegment(l: HitLedger, w: SweepSetup, env: Engine, start: Vec3, end: Vec3): (r: HitLedger)
    ensures !env.hasWorld ==> r == l
    ensures env.hasWorld ==> |l.log| < |r.log|
    ensures l.alreadyHit <= r.alreadyHit && r.log[..|l.log|] == l.log
  {
    if !env.hasWorld then l
    else
      var n := SegmentSteps(w, env, start, end);
      SubSteps(l, w, env, start, end, n, n)
  }

  /** Root, middle and tip of the blade. */
  const BladeSamples: nat := 3

  function BladeFraction(i: nat): real
  {
    if BladeSamples == 1 then 0.0 else i as real / (BladeSamples - 1) as real
  }

  /** The first k blade samples, each swept from its previous-frame to its current-frame position. */
  function FrameSweep(l: HitLedger, w: SweepSetup, env: Engine, prevRoot: Vec3, prevTip: Vec3,
                      currRoot: Vec3, currTip: Vec3, k: nat): (r: HitLedger)
    requires k <= BladeSamples
    ensures !env.hasWorld ==> r == l
    ensures env.hasWorld ==> |l.log| + k <= |r.log|
    ensures l.alreadyHit <= r.alreadyHit && |l.log| <= |r.log| && r.log[..|l.log|] == l.log
    decreases k
  {
    if k == 0 then l
    else
      var t := BladeFraction(k - 1);
      SweepSegment(FrameSweep(l, w, env, prevRoot, prevTip, currRoot, currTip, k - 1), w, env,
                   Lerp(prevRoot, prevTip, t), Lerp(currRoot, currTip, t))
  }

  // ---------------------------------------------------------------- operations on the whole tracer

  /** The constant settings of this frame's sweep. */
  function FrameSetup(v: TracerView, env: Engine): SweepSetup
  {
    SweepSetup(v.config, v.Policy(), QueryIgnores(v.ignoreOwner, env.owner, v.weaponMesh))
  }

  /** Opening the window; ownerMesh is the owner's first skeletal mesh, if there is one. */
  function StartTraceView(v: TracerView, ownerMesh: Option<MeshId>): (r: TracerView)
    ensures r.weaponMesh == (if v.weaponMesh.Some? then v.weaponMesh else ownerMesh)
    ensures r.active <==> r.weaponMesh.Some?
    ensures !r.hasPrev
    ensures r.alreadyHit == (if v.oncePerWindow then {} else v.alreadyHit)
    ensures r == v.(weaponMesh := r.weaponMesh, active := r.active, hasPrev := false, alreadyHit := r.alreadyHit)
  {
    var mesh := if v.weaponMesh.None? then ownerMesh else v.weaponMesh;
    v.(weaponMesh := mesh,
       active := mesh.Some?,
       hasPrev := false,
       alreadyHit := if v.oncePerWindow then {} else v.alreadyHit)
  }

  /** Closing the window, emptying the hit set only when asked to. */
  function StopTraceView(v: TracerView, clearHitCache: bool): (r: TracerView)
    ensures !r.active && !r.hasPrev
    ensures r.alreadyHit == (if clearHitCache then {} else v.alreadyHit)
    ensures r == v.(active := false, hasPrev := false, alreadyHit := r.alreadyHit)
  {
    v.(active := false, hasPrev := false, alreadyHit := if clearHitCache then {} else v.alreadyHit)
  }

  /** Current root and tip, available only while a weapon mesh is set. */
  function BladePoints(v: TracerView, env: Engine): (pts: Option<(Vec3, Vec3)>)
    ensures pts.Some? <==> v.weaponMesh.Some?
    ensures pts.Some? ==>
      pts.value == (env.socketLocation(v.weaponMesh.value, v.rootSocketName),
                    env.socketLocation(v.weaponMesh.value, v.tipSocketName))
  {
    match v.weaponMesh
    case None => None
    case Some(m) => Some((env.socketLocation(m, v.rootSocketName), env.socketLocation(m, v.tipSocketName)))
  }

  /** One tick: nothing while closed or without blade points; seed on the first frame; otherwise sweep. */
  function TickView(v: TracerView, env: Engine): (r: TracerView)
    ensures !v.active || BladePoints(v, env).None? ==> r == v
    ensures r.active == v.active && r.config == v.config && r.weaponMesh == v.weaponMesh
    ensures r == v.(hasPrev := r.hasPrev, prevRoot := r.prevRoot, prevTip := r.prevTip,
                    alreadyHit := r.alreadyHit, log := r.log)
    ensures v.active && BladePoints(v, env).Some? ==>
      && r.hasPrev
      && (r.prevRoot, r.prevTip) == BladePoints(v, env).value
  {
    if !v.active then v
    else
      match BladePoints(v, env)
      case None => v
      case Some((root, tip)) =>
        if !v.hasPrev then v.(prevRoot := root, prevTip := tip, hasPrev := true)
        else
          var l := FrameSweep(v.Ledger(), FrameSetup(v, env), env, v.prevRoot, v.prevTip, root, tip, BladeSamples);
          v.(alreadyHit := l.alreadyHit, log := l.log, prevRoot := root, prevTip := tip)
  }

  // ---------------------------------------------------------------- counting events

  /** Hit notifications about actor a in a log. */
  function Notifications(log: seq<TraceEvent>, a: ActorId): nat
    decreases |log|
  {
    if log == [] then 0
    else
      var e := log[|log| - 1];
      Notifications(log[..|log| - 1], a) + (if e.HitNotified? && e.hit.actor == Some(a) then 1 else 0)
  }

  /** Damage requests against actor a in a log. */
  function DamageRequests(log: seq<TraceEvent>, a: ActorId): nat
    decreases |log|
  {
    if log == [] then 0
    else
      var e := log[|log| - 1];
      DamageRequests(log[..|log| - 1], a) + (if e.DamageRequested? && e.target == a then 1 else 0)
  }

  /** The queries of a log, in order. */
  function Queries(log: seq<TraceEvent>): seq<Query>
    decreases |log|
  {
    if log == [] then []
    else
      var e := log[|log| - 1];
      Queries(log[..|log| - 1]) + (if e.QueryIssued? then [e.query] else [])
  }

  lemma {:induction false} NotificationsAppend(xs: seq<TraceEvent>, ys: seq<TraceEvent>, a: ActorId)
    ensures Notifications(xs + ys, a) == Notifications(xs, a) + Notifications(ys, a)
    decreases |ys|
  {
    if ys == [] {
      assert xs + ys == xs;
    } else {
      var ys' := ys[..|ys| - 1];
      assert (xs + ys)[..|xs + ys| - 1] == xs + ys';
      NotificationsAppend(xs, ys', a);
    }
  }

  lemma {:induction false} DamageRequestsAppend(xs: seq<TraceEvent>, ys: seq<TraceEvent>, a: ActorId)
    ensures DamageRequests(xs + ys, a) == DamageRequests(xs, a) + DamageRequests(ys, a)
    decreases |ys|
  {
    if ys == [] {
      assert xs + ys == xs;
    } else {
      var ys' := ys[..|ys| - 1];
      assert (xs + ys)[..|xs + ys| - 1] == xs + ys';
      DamageRequestsAppend(xs, ys', a);
    }
  }

  lemma {:induction false} QueriesAppend(xs: seq<TraceEvent>, ys: seq<TraceEvent>)
    ensures Queries(xs + ys) == Queries(xs) + Queries(ys)
    decreases |ys|
  {
    if ys == [] {
      assert xs + ys == xs;
    } else {
      var ys' := ys[..|ys| - 1];
      assert (xs + ys)[..|xs + ys| - 1] == xs + ys';
      QueriesAppend(xs, ys');
    }
  }

  // ---------------------------------------------------------------- once per window

  /**
   * Since the window opened at log position windowStart, every actor recorded
   * as already hit has been notified exactly once and every other actor never,
   * and every actor has been asked to take damage at most once, and only if it
   * is recorded as already hit.
   */
  ghost predicate OncePerWindow(l: HitLedger, windowStart: nat)
  {
    && windowStart <= |l.log|
    && (forall a: ActorId :: Notifications(l.log[windowStart..], a) == (if a in l.alreadyHit then 1 else 0))
    && (forall a: ActorId :: DamageRequests(l.log[windowStart..], a) <= (if a in l.alreadyHit then 1 else 0))
  }

  lemma OncePerWindowAtOpen(l: HitLedger)
    requires l.alreadyHit == {}
    ensures OncePerWindow(l, |l.log|)
  {
    assert l.log[|l.log|..] == [];
  }

  /** The entries one handled hit appends name only the hit actor, once as a notification and at most once as damage. */
  lemma {:induction false} HitEntriesCounts(damage: seq<TraceEvent>, hit: HitResult, a: ActorId)
    requires hit.actor.Some?
    requires damage == [] || (|damage| == 1 && damage[0].DamageRequested? && damage[0].target == hit.actor.value)
    ensures Notifications(damage + [HitNotified(hit)], a) == (if a == hit.actor.value then 1 else 0)
    ensures DamageRequests(damage + [HitNotified(hit)], a) <= (if a == hit.actor.value then 1 else 0)
  {
    NotificationsAppend(damage, [HitNotified(hit)], a);
    DamageRequestsAppend(damage, [HitNotified(hit)], a);
    assert [HitNotified(hit)][..0] == [];
    if damage != [] {
      assert damage[..0] == [];
    }
  }

  /** What one handled hit adds to an actor's counts since windowStart. */
  lemma HandleHitCounts(l: HitLedger, p: HitPolicy, env: Engine, hit: HitResult, sweepDir: Vec3, windowStart: nat,
                        a: ActorId)
    requires windowStart <= |l.log| && !SkipsHit(l, p, hit)
    ensures var r := HandleHit(l, p, env, hit, sweepDir);
      && Notifications(r.log[windowStart..], a)
           == Notifications(l.log[windowStart..], a) + (if a == hit.actor.value then 1 else 0)
      && DamageRequests(r.log[windowStart..], a)
           <= DamageRequests(l.log[windowStart..], a) + (if a == hit.actor.value then 1 else 0)
  {
    var r := HandleHit(l, p, env, hit, sweepDir);
    var damage := if MayApplyDamage(p, env.owner) && p.damage > 0.0
                  then [DamageRequested(hit.actor.value, p.damage, DamageDirection(env, sweepDir))]
                  else [];
    var added := damage + [HitNotified(hit)];
    assert r.log[windowStart..] == l.log[windowStart..] + added;
    NotificationsAppend(l.log[windowStart..], added, a);
    DamageRequestsAppend(l.log[windowStart..], added, a);
    HitEntriesCounts(damage, hit, a);
  }

  lemma {:induction false} HandleHitKeepsOncePerWindow(l: HitLedger, p: HitPolicy, env: Engine, hit: HitResult,
                                                       sweepDir: Vec3, windowStart: nat)
    requires p.oncePerWindow && OncePerWindow(l, windowStart)
    ensures OncePerWindow(HandleHit(l, p, env, hit, sweepDir), windowStart)
  {
    var r := HandleHit(l, p, env, hit, sweepDir);
    if !SkipsHit(l, p, hit) {
      forall a: ActorId
        ensures Notifications(r.log[windowStart..], a) == (if a in r.alreadyHit then 1 else 0)
        ensures DamageRequests(r.log[windowStart..], a) <= (if a in r.alreadyHit then 1 else 0)
      {
        HandleHitCounts(l, p, env, hit, sweepDir, windowStart, a);
      }
    }
  }

  lemma {:induction false} HandleHitsKeepsOncePerWindow(l: HitLedger, p: HitPolicy, env: Engine, hits: seq<HitResult>,
                                                        sweepDir: Vec3, windowStart: nat)
    requires p.oncePerWindow && OncePerWindow(l, windowStart)
    ensures OncePerWindow(HandleHits(l, p, env, hits, sweepDir), windowStart)
    decreases |hits|
  {
    if hits != [] {
      HandleHitsKeepsOncePerWindow(l, p, env, hits[..|hits| - 1], sweepDir, windowStart);
      HandleHitKeepsOncePerWindow(HandleHits(l, p, env, hits[..|hits| - 1], sweepDir), p, env, hits[|hits| - 1],
                                  sweepDir, windowStart);
    }
  }

  /** Every actor named by the handled hits ends up recorded as hit, and nobody else is added. */
  lemma {:induction false} HandleHitsRecordsActors(l: HitLedger, p: HitPolicy, env: Engine, hits: seq<HitResult>,
                                                   sweepDir: Vec3)
    ensures HandleHits(l, p, env, hits, sweepDir).alreadyHit == l.alreadyHit + ActorsOf(hits)
    decreases |hits|
  {
    if hits != [] {
      HandleHitsRecordsActors(l, p, env, hits[..|hits| - 1], sweepDir);
    }
  }

  /** Every actor of every blocking result among the first k sub-steps ends up recorded as hit. */
  lemma {:induction false} SubStepsRecordBlockingHits(l: HitLedger, w: SweepSetup, env: Engine, start: Vec3, end: Vec3,
                                                      n: nat, k: nat, s: nat)
    requires s < k <= n
    requires env.sweep(SubStepQuery(w, start, end, s, n)).blockingHit
    ensures ActorsOf(env.sweep(SubStepQuery(w, start, end, s, n)).hits) <= SubSteps(l, w, env, start, end, n, k).alreadyHit
    decreases k
  {
    if s < k - 1 {
      SubStepsRecordBlockingHits(l, w, env, start, end, n, k - 1, s);
    } else {
      var before := SubSteps(l, w, env, start, end, n, k - 1);
      var q := SubStepQuery(w, start, end, s, n);
      HandleHitsRecordsActors(HitLedger(before.alreadyHit, before.log + [QueryIssued(q)]), w.policy, env,
                              env.sweep(q).hits, env.safeNormal(Sub(q.end, q.start)));
    }
  }

  /** Logging a query notifies nobody and requests no damage. */
  lemma QueryKeepsOncePerWindow(l: HitLedger, q: Query, windowStart: nat)
    requires OncePerWindow(l, windowStart)
    ensures OncePerWindow(HitLedger(l.alreadyHit, l.log + [QueryIssued(q)]), windowStart)
  {
    var log' := l.log + [QueryIssued(q)];
    assert log'[windowStart..] == l.log[windowStart..] + [QueryIssued(q)];
    forall a: ActorId
      ensures Notifications(log'[windowStart..], a) == Notifications(l.log[windowStart..], a)
      ensures DamageRequests(log'[windowStart..], a) == DamageRequests(l.log[windowStart..], a)
    {
      NotificationsAppend(l.log[windowStart..], [QueryIssued(q)], a);
      DamageRequestsAppend(l.log[windowStart..], [QueryIssued(q)], a);
      assert [QueryIssued(q)][..0] == [];
    }
  }

  lemma {:induction false} SubStepsKeepOncePerWindow(l: HitLedger, w: SweepSetup, env: Engine, start: Vec3, end: Vec3,
                                                     n: nat, k: nat, windowStart: nat)
    requires k <= n
    requires w.policy.oncePerWindow && OncePerWindow(l, windowStart)
    ensures OncePerWindow(SubSteps(l, w, env, start, end, n, k), windowStart)
    decreases k
  {
    if k > 0 {
      SubStepsKeepOncePerWindow(l, w, env, start, end, n, k - 1, windowStart);
      var before := SubSteps(l, w, env, start, end, n, k - 1);
      var q := SubStepQuery(w, start, end, k - 1, n);
      QueryKeepsOncePerWindow(before, q, windowStart);
      var queried := HitLedger(before.alreadyHit, before.log + [QueryIssued(q)]);
      HandleHitsKeepsOncePerWindow(queried, w.policy, env, env.sweep(q).hits, env.safeNormal(Sub(q.end, q.start)),
                                   windowStart);
    }
  }

  lemma {:induction false} FrameSweepKeepsOncePerWindow(l: HitLedger, w: SweepSetup, env: Engine, prevRoot: Vec3,
                                                        prevTip: Vec3, currRoot: Vec3, currTip: Vec3, k: nat,
                                                        windowStart: nat)
    requires k <= BladeSamples
    requires w.policy.oncePerWindow && OncePerWindow(l, windowStart)
    ensures OncePerWindow(FrameSweep(l, w, env, prevRoot, prevTip, currRoot, currTip, k), windowStart)
    decreases k
  {
    if k > 0 {
      FrameSweepKeepsOncePerWindow(l, w, env, prevRoot, prevTip, currRoot, currTip, k - 1, windowStart);
      var before := FrameSweep(l, w, env, prevRoot, prevTip, currRoot, currTip, k - 1);
      var t := BladeFraction(k - 1);
      if env.hasWorld {
        var start, end := Lerp(prevRoot, prevTip, t), Lerp(currRoot, currTip, t);
        var n := SegmentSteps(w, env, start, end);
        SubStepsKeepOncePerWindow(before, w, env, start, end, n, n, windowStart);
      }
    }
  }

  /** A tick keeps the once-per-window guarantee of an open window. */
  lemma TickKeepsOncePerWindow(v: TracerView, env: Engine, windowStart: nat)
    requires v.oncePerWindow && OncePerWindow(v.Ledger(), windowStart)
    ensures OncePerWindow(TickView(v, env).Ledger(), windowStart)
  {
    if v.active && v.hasPrev && BladePoints(v, env).Some? {
      var (root, tip) := BladePoints(v, env).value;
      FrameSweepKeepsOncePerWindow(v.Ledger(), FrameSetup(v, env), env, v.prevRoot, v.prevTip, root, tip,
                                   BladeSamples, windowStart);
    }
  }

  // ---------------------------------------------------------------- queries issued

  /** Handling one hit issues no query. */
  lemma HandleHitIssuesNoQuery(l: HitLedger, p: HitPolicy, env: Engine, hit: HitResult, sweepDir: Vec3)
    ensures Queries(HandleHit(l, p, env, hit, sweepDir).log) == Queries(l.log)
  {
    if !SkipsHit(l, p, hit) {
      var damage := if MayApplyDamage(p, env.owner) && p.damage > 0.0
                    then [DamageRequested(hit.actor.value, p.damage, DamageDirection(env, sweepDir))]
                    else [];
      var added := damage + [HitNotified(hit)];
      assert HandleHit(l, p, env, hit, sweepDir).log == l.log + added;
      QueriesAppend(l.log, added);
      QueriesAppend(damage, [HitNotified(hit)]);
      assert [HitNotified(hit)][..0] == [];
      if damage != [] {
        assert damage[..0] == [];
      }
    }
  }

  /** Hit handling issues no query. */
  lemma {:induction false} HandleHitsIssueNoQuery(l: HitLedger, p: HitPolicy, env: Engine, hits: seq<HitResult>,
                                                  sweepDir: Vec3)
    ensures Queries(HandleHits(l, p, env, hits, sweepDir).log) == Queries(l.log)
    decreases |hits|
  {
    if hits != [] {
      HandleHitsIssueNoQuery(l, p, env, hits[..|hits| - 1], sweepDir);
      HandleHitIssuesNoQuery(HandleHits(l, p, env, hits[..|hits| - 1], sweepDir), p, env, hits[|hits| - 1], sweepDir);
    }
  }

  /** The queries of the first k of n sub-steps of a segment. */
  function SegmentQueries(w: SweepSetup, start: Vec3, end: Vec3, n: nat, k: nat): (qs: seq<Query>)
    requires k <= n
    ensures |qs| == k
    decreases k
  {
    if k == 0 then [] else SegmentQueries(w, start, end, n, k - 1) + [SubStepQuery(w, start, end, k - 1, n)]
  }

  lemma {:induction false} SegmentQueriesAt(w: SweepSetup, start: Vec3, end: Vec3, n: nat, k: nat, s: nat)
    requires s < k <= n
    ensures SegmentQueries(w, start, end, n, k)[s] == SubStepQuery(w, start, end, s, n)
    decreases k
  {
    if s < k - 1 {
      SegmentQueriesAt(w, start, end, n, k - 1, s);
    }
  }

  /** The sub-steps of a segment issue exactly their own queries, one each, in order. */
  lemma {:induction false} SubStepsQueries(l: HitLedger, w: SweepSetup, env: Engine, start: Vec3, end: Vec3,
                                           n: nat, k: nat)
    requires k <= n
    ensures Queries(SubSteps(l, w, env, start, end, n, k).log) == Queries(l.log) + SegmentQueries(w, start, end, n, k)
    decreases k
  {
    if k > 0 {
      SubStepsQueries(l, w, env, start, end, n, k - 1);
      var before := SubSteps(l, w, env, start, end, n, k - 1);
      var q := SubStepQuery(w, start, end, k - 1, n);
      var queried := HitLedger(before.alreadyHit, before.log + [QueryIssued(q)]);
      QueriesAppend(before.log, [QueryIssued(q)]);
      assert [QueryIssued(q)][..0] == [];
      HandleHitsIssueNoQuery(queried, w.policy, env, env.sweep(q).hits, env.safeNormal(Sub(q.end, q.start)));
    }
  }

  /** The queries one motion segment issues: none without a world, otherwise one per sub-step. */
  function SweptQueries(w: SweepSetup, env: Engine, start: Vec3, end: Vec3): seq<Query>
  {
    if !env.hasWorld then []
    else
      var n := SegmentSteps(w, env, start, end);
      SegmentQueries(w, start, end, n, n)
  }

  /**
   * The queries of one segment tile it: there is at least one, each has the
   * configured shape and channel, the first starts at the segment's start, the
   * last ends at its end, and each starts where the previous one ended.
   */
  lemma SweptQueriesTile(w: SweepSetup, env: Engine, start: Vec3, end: Vec3)
    requires env.hasWorld
    ensures var qs := SweptQueries(w, env, start, end);
      && |qs| == SegmentSteps(w, env, start, end) >= 1
      && qs[0].start == start
      && qs[|qs| - 1].end == end
      && (forall s :: 0 <= s < |qs| ==> qs[s].shape == ShapeOf(w.config) && qs[s].channel == w.config.traceChannel)
      && (forall s :: 0 <= s < |qs| - 1 ==> qs[s].end == qs[s + 1].start)
  {
    var n := SegmentSteps(w, env, start, end);
    var qs := SweptQueries(w, env, start, end);
    SubStepsTile(start, end, n);
    forall s | 0 <= s < n
      ensures qs[s] == SubStepQuery(w, start, end, s, n)
    {
      SegmentQueriesAt(w, start, end, n, n, s);
    }
  }

  lemma SweepSegmentQueries(l: HitLedger, w: SweepSetup, env: Engine, start: Vec3, end: Vec3)
    ensures Queries(SweepSegment(l, w, env, start, end).log) == Queries(l.log) + SweptQueries(w, env, start, end)
  {
    if env.hasWorld {
      var n := SegmentSteps(w, env, start, end);
      SubStepsQueries(l, w, env, start, end, n, n);
    }
  }

  /**
   * A sweeping frame issues the queries of exactly three segments, in order:
   * root, blade middle and tip, each from its previous to its current position.
   */
  lemma FrameSweepQueries(l: HitLedger, w: SweepSetup, env: Engine, prevRoot: Vec3, prevTip: Vec3,
                          currRoot: Vec3, currTip: Vec3)
    ensures Queries(FrameSweep(l, w, env, prevRoot, prevTip, currRoot, currTip, BladeSamples).log)
         == Queries(l.log)
            + SweptQueries(w, env, prevRoot, currRoot)
            + SweptQueries(w, env, Lerp(prevRoot, prevTip, 0.5), Lerp(currRoot, currTip, 0.5))
            + SweptQueries(w, env, prevTip, currTip)
  {
    var l1 := FrameSweep(l, w, env, prevRoot, prevTip, currRoot, currTip, 1);
    var l2 := FrameSweep(l, w, env, prevRoot, prevTip, currRoot, currTip, 2);
    assert BladeFraction(0) == 0.0 && BladeFraction(1) == 0.5 && BladeFraction(2) == 1.0;
    SweepSegmentQueries(l, w, env, prevRoot, currRoot);
    SweepSegmentQueries(l1, w, env, Lerp(prevRoot, prevTip, 0.5), Lerp(currRoot, currTip, 0.5));
    SweepSegmentQueries(l2, w, env, prevTip, currTip);
  }

  /** The first frame after opening only records the blade position: no query, no hit, however far it moved. */
  lemma FirstTickOnlySeeds(v: TracerView, env: Engine)
    requires v.active && !v.hasPrev && BladePoints(v, env).Some?
    ensures var r := TickView(v, env);
      && r.log == v.log && r.alreadyHit == v.alreadyHit
      && r.hasPrev && (r.prevRoot, r.prevTip) == BladePoints(v, env).value
  {
  }

  /** A later frame sweeps root, middle and tip from the stored positions, then stores the current ones. */
  lemma LaterTickSweepsThreeSegments(v: TracerView, env: Engine)
    requires v.active && v.hasPrev && BladePoints(v, env).Some?
    ensures var r := TickView(v, env);
      var (root, tip) := BladePoints(v, env).value;
      var w := FrameSetup(v, env);
      && Queries(r.log) == Queries(v.log)
                           + SweptQueries(w, env, v.prevRoot, root)
                           + SweptQueries(w, env, Lerp(v.prevRoot, v.prevTip, 0.5), Lerp(root, tip, 0.5))
                           + SweptQueries(w, env, v.prevTip, tip)
      && r.prevRoot == root && r.prevTip == tip
  {
    var (root, tip) := BladePoints(v, env).value;
    FrameSweepQueries(v.Ledger(), FrameSetup(v, env), env, v.prevRoot, v.prevTip, root, tip);
  }

  /** With authored settings the cap is the configured step and every extra subdivision multiplies the count. */
  lemma AuthoredStepCount(c: TraceConfig, dist: real)
    requires AuthoredRanges(c)
    ensures StepLength(c.maxStepDistance) == c.maxStepDistance
    ensures TotalSteps(dist, c.maxStepDistance, c.extraSubdivisions)
         == StepsByDistance(dist, c.maxStepDistance) * c.extraSubdivisions
  {
  }
}
