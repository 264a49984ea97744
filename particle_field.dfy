/** The dust particle field behind the dashboard (frontend/src/App.js): a
    smoothed PM2.5 value, a spawn rate and population target derived from
    the target reading, particles spawned from the canvas edges at that
    rate, and a per-frame physics step that removes particles which have
    faded out or drifted off the canvas. Randomness, the square root and the
    canvas size are parameters. */
module ParticleField {
  import opened Json
  import Readings

  // ---------------------------------------------------------------------
  // Smoothing of the PM2.5 value

  /** One frame of `current += (target - current) * 0.02`. */
  function SmoothStep(current: real, target: real): (r: real)
    ensures current <= target ==> current <= r <= target
    ensures target <= current ==> target <= r <= current
    ensures target - r == 0.98 * (target - current)
  {
    current + (target - current) * 0.02
  }

  /** The smoothed value after `n` frames with a fixed target. */
  function SmoothN(current: real, target: real, n: nat): real
    decreases n
  {
    if n == 0 then current else SmoothN(SmoothStep(current, target), target, n - 1)
  }

  function Abs(x: real): real
  {
    if x < 0.0 then -x else x
  }

  /** The smoothed value never overshoots the target, and its distance to the
      target after `n` frames is at most the initial distance divided by
      1 + n/50: it converges to the target. */
  lemma {:induction false} SmoothConverges(current: real, target: real, n: nat)
    ensures current <= target ==> current <= SmoothN(current, target, n) <= target
    ensures target <= current ==> target <= SmoothN(current, target, n) <= current
    ensures Abs(target - SmoothN(current, target, n)) * (1.0 + 0.02 * n as real) <= Abs(target - current)
    decreases n
  {
    if n > 0 {
      var next := SmoothStep(current, target);
      SmoothConverges(next, target, n - 1);
      var d := Abs(target - current);
      var d' := Abs(target - next);
      var e := Abs(target - SmoothN(current, target, n));
      assert d' == 0.98 * d;
      assert e * (1.0 + 0.02 * (n - 1) as real) <= d';
      assert 0.0 <= e;
      assert 0.98 * (1.0 + 0.02 * n as real) <= 1.0 + 0.02 * (n - 1) as real;
      assert e * (0.98 * (1.0 + 0.02 * n as real)) <= e * (1.0 + 0.02 * (n - 1) as real);
    }
  }

  // ---------------------------------------------------------------------
  // Spawn rate and population target (updateParticleSystem)

  const MinRate: real := 10.0
  const MaxRate: real := 500.0

  /** Particles per second: quadratic in the reading, capped at 500. */
  function SpawnRate(pm: real): (rate: real)
    ensures 0.0 <= rate <= MaxRate
    ensures rate == MaxRate || rate == MinRate * (pm * pm)
  {
    Readings.Min(MaxRate, MinRate * (pm * pm))
  }

  /** The population the spawner fills up to: six seconds' worth. */
  function TargetCount(pm: real): (count: real)
    ensures 0.0 <= count <= 3000.0
  {
    SpawnRate(pm) * 6.0
  }

  /** For every driver value (at least 1) the rate lies between 10 and 500
      per second, reaches the cap exactly when pm² >= 50, and grows with the
      reading; the population target stays at most 3000, and the time between
      two spawns lies between 2 ms and 100 ms. */
  lemma SpawnRateBounds(pm: real, pm': real)
    requires 1.0 <= pm <= pm'
    ensures MinRate <= SpawnRate(pm) <= MaxRate
    ensures SpawnRate(pm) == MaxRate <==> pm * pm >= 50.0
    ensures SpawnRate(pm) <= SpawnRate(pm')
    ensures TargetCount(pm) <= 3000.0
    ensures 2.0 <= 1000.0 / SpawnRate(pm) <= 100.0
  {
    assert 1.0 <= pm * pm;
    assert SpawnRate(pm) == Readings.Min(MaxRate, MinRate * (pm * pm));
    assert pm * pm <= pm' * pm' by {
      assert pm * pm <= pm * pm';
      assert pm * pm' <= pm' * pm';
    }
    var rate := SpawnRate(pm);
    assert 1000.0 / rate * rate == 1000.0;
  }

  // ---------------------------------------------------------------------
  // Particles

  datatype Particle = Particle(
    x: real, y: real,
    vx: real, vy: real,
    opacity: real,
    life: real,
    lifeDecrease: real,
    size: real)

  /** The seven Math.random() draws createParticle makes, in order. */
  datatype Draw = Draw(edge: real, along: real, vx: real, vy: real, opacity: real, lifeDecrease: real, size: real)

  predicate Unit(r: real)
  {
    0.0 <= r < 1.0
  }

  predicate ValidDraw(d: Draw)
  {
    Unit(d.edge) && Unit(d.along) && Unit(d.vx) && Unit(d.vy) &&
    Unit(d.opacity) && Unit(d.lifeDecrease) && Unit(d.size)
  }

  /** createParticle on a `width` x `height` canvas: an edge chosen
      uniformly, a point along it 10 px outside the canvas, a small random
      velocity, full life, and random opacity, fade rate and size. */
  function CreateParticle(d: Draw, width: real, height: real): (p: Particle)
    ensures p.life == 1.0
    ensures p.x == -10.0 || p.x == width + 10.0 || p.y == -10.0 || p.y == height + 10.0
  {
    var edge := (d.edge * 4.0).Floor;
    var (x, y) :=
      if edge == 0 then (d.along * width, -10.0)
      else if edge == 1 then (width + 10.0, d.along * height)
      else if edge == 2 then (d.along * width, height + 10.0)
      else (-10.0, d.along * height);
    Particle(x, y,
             (d.vx - 0.5) * 1.0, (d.vy - 0.5) * 1.0,
             0.5 + d.opacity * 0.5,
             1.0,
             0.001 + d.lifeDecrease * 0.002,
             2.0 + d.size * 3.0)
  }

  /** The removal test of the frame loop: still alive and within 50 px of
      the canvas. */
  predicate Alive(p: Particle, width: real, height: real)
  {
    p.life > 0.0 && p.x > -50.0 && p.x < width + 50.0 && p.y > -50.0 && p.y < height + 50.0
  }

  /** What every particle in the field satisfies between frames. */
  predicate WellFormed(p: Particle)
  {
    0.0 < p.life <= 1.0 && 0.001 <= p.lifeDecrease < 0.003
  }

  /** A new particle starts at full life on the edge it was drawn for, fades
      by 0.001 to 0.003 per frame, and lies inside the region the frame loop
      keeps. */
  lemma CreatedParticle(d: Draw, width: real, height: real)
    requires ValidDraw(d) && 0.0 <= width && 0.0 <= height
    ensures var p := CreateParticle(d, width, height);
            && WellFormed(p) && p.life == 1.0
            && 0.5 <= p.opacity < 1.0 && 2.0 <= p.size < 5.0
            && (p.x == -10.0 || p.x == width + 10.0 || p.y == -10.0 || p.y == height + 10.0)
            && Alive(p, width, height)
  {
    var p := CreateParticle(d, width, height);
    var edge := (d.edge * 4.0).Floor;
    Readings.Fraction(width, d.along);
    Readings.Fraction(height, d.along);
    if edge == 0 {
      assert p.x == d.along * width && p.y == -10.0;
    } else if edge == 1 {
      assert p.x == width + 10.0 && p.y == d.along * height;
    } else if edge == 2 {
      assert p.x == d.along * width && p.y == height + 10.0;
    } else {
      assert p.x == -10.0 && p.y == d.along * height;
    }
  }

  const GravityConst: real := 0.0375
  const Friction: real := 0.99
  const NearRadius: real := 40.0

  /** One frame of physics for one particle on a `width` x `height` canvas:
      a pull of constant strength towards the centre (none within 40 px),
      friction, the move, and the loss of life (faster within 40 px). The
      distance to the centre is `sqrt(dx * dx + dy * dy)`, with 0 read as 1. */
  function Advance(p: Particle, width: real, height: real, sqrt: real -> real): (q: Particle)
    ensures q.life <= p.life - p.lifeDecrease
    ensures q.x == p.x + q.vx && q.y == p.y + q.vy
    ensures q.lifeDecrease == p.lifeDecrease && q.opacity == p.opacity && q.size == p.size
  {
    var dx := width / 2.0 - p.x;
    var dy := height / 2.0 - p.y;
    var root := sqrt(dx * dx + dy * dy);
    var dist := if root == 0.0 then 1.0 else root;
    var ax := if dist > NearRadius then GravityConst * (dx / dist) else 0.0;
    var ay := if dist > NearRadius then GravityConst * (dy / dist) else 0.0;
    var vx := (p.vx + ax) * Friction;
    var vy := (p.vy + ay) * Friction;
    var near := if dist < NearRadius then 0.05 else 0.0;
    p.(x := p.x + vx, y := p.y + vy, vx := vx, vy := vy, life := p.life - near - p.lifeDecrease)
  }

  /** The particle after one frame per canvas size in `frames`. */
  function AdvanceAll(p: Particle, frames: seq<(real, real)>, sqrt: real -> real): Particle
    decreases |frames|
  {
    if frames == [] then p
    else AdvanceAll(Advance(p, frames[0].0, frames[0].1, sqrt), frames[1..], sqrt)
  }

  /** Every particle is gone within 1000 frames: its life drops by at least
      its fade rate each frame, whatever the physics does. */
  lemma {:induction false} Lifetime(p: Particle, frames: seq<(real, real)>, sqrt: real -> real)
    requires 0.0 <= p.lifeDecrease
    ensures AdvanceAll(p, frames, sqrt).life <= p.life - p.lifeDecrease * |frames| as real
    ensures WellFormed(p) && |frames| >= 1000 ==> AdvanceAll(p, frames, sqrt).life <= 0.0
    decreases |frames|
  {
    if frames != [] {
      var q := Advance(p, frames[0].0, frames[0].1, sqrt);
      Lifetime(q, frames[1..], sqrt);
      assert p.lifeDecrease * |frames| as real == p.lifeDecrease * (|frames| - 1) as real + p.lifeDecrease;
    }
    if WellFormed(p) && |frames| >= 1000 {
      assert p.lifeDecrease * |frames| as real >= 0.001 * |frames| as real;
    }
  }

  /** The particles a frame keeps, advanced and in their order: the reverse
      loop with its in-place splice. */
  function Survivors(ps: seq<Particle>, width: real, height: real, sqrt: real -> real): (kept: seq<Particle>)
    ensures |kept| <= |ps|
  {
    if ps == [] then []
    else
      var q := Advance(ps[0], width, height, sqrt);
      (if Alive(q, width, height) then [q] else []) + Survivors(ps[1..], width, height, sqrt)
  }

  /** A frame never adds particles, keeps only live ones inside the kept
      region, and keeps every particle well formed. */
  lemma {:induction false} SurvivorsProperties(ps: seq<Particle>, width: real, height: real, sqrt: real -> real)
    ensures forall i :: 0 <= i < |Survivors(ps, width, height, sqrt)| ==>
              Alive(Survivors(ps, width, height, sqrt)[i], width, height)
    ensures (forall i :: 0 <= i < |ps| ==> WellFormed(ps[i])) ==>
              forall i :: 0 <= i < |Survivors(ps, width, height, sqrt)| ==>
                WellFormed(Survivors(ps, width, height, sqrt)[i])
  {
    if ps != [] {
      SurvivorsProperties(ps[1..], width, height, sqrt);
      if forall i :: 0 <= i < |ps| ==> WellFormed(ps[i]) {
        assert forall i :: 0 <= i < |ps[1..]| ==> ps[1..][i] == ps[i + 1];
      }
    }
  }

  /** A particle survives the frame exactly when its advanced self passes
      the removal test: the splice removes the dead and only them. */
  lemma {:induction false} SurvivorsCount(ps: seq<Particle>, width: real, height: real, sqrt: real -> real)
    ensures |Survivors(ps, width, height, sqrt)| == |ps| <==>
              forall i :: 0 <= i < |ps| ==> Alive(Advance(ps[i], width, height, sqrt), width, height)
  {
    if ps != [] {
      SurvivorsCount(ps[1..], width, height, sqrt);
      SurvivorsProperties(ps[1..], width, height, sqrt);
      assert forall i :: 0 <= i < |ps[1..]| ==> ps[1..][i] == ps[i + 1];
      if !Alive(Advance(ps[0], width, height, sqrt), width, height) {
        assert |Survivors(ps, width, height, sqrt)| < |ps|;
      }
    }
  }

  /** The survivors are exactly the advanced particles that pass the
      removal test. */
  lemma {:induction false} SurvivorsMembers(ps: seq<Particle>, width: real, height: real, sqrt: real -> real, q: Particle)
    ensures q in Survivors(ps, width, height, sqrt) <==>
              Alive(q, width, height) && exists i :: 0 <= i < |ps| && q == Advance(ps[i], width, height, sqrt)
  {
    if ps != [] {
      SurvivorsMembers(ps[1..], width, height, sqrt, q);
      assert forall i :: 0 <= i < |ps[1..]| ==> ps[1..][i] == ps[i + 1];
      if exists i :: 0 <= i < |ps| && q == Advance(ps[i], width, height, sqrt) {
        var i :| 0 <= i < |ps| && q == Advance(ps[i], width, height, sqrt);
        if i > 0 { assert q == Advance(ps[1..][i - 1], width, height, sqrt); }
      }
    }
  }

  // ---------------------------------------------------------------------
  // Spawning

  /** The number of particles the spawn loop adds: one per elapsed interval
      since `lastSpawn`, while the population `n` is below the target. */
  function SpawnCount(timestamp: real, lastSpawn: real, interval: real, n: nat, targetCount: real): (c: nat)
    requires targetCount <= 3000.0 && n <= 3000
    ensures n + c <= 3000
    decreases 3000 - n
  {
    if timestamp - lastSpawn > interval && (n as real) < targetCount
    then 1 + SpawnCount(timestamp, lastSpawn + interval, interval, n + 1, targetCount)
    else 0
  }

  /** The spawn loop adds no particle past the target (it may start above
      it) and no more than the whole intervals elapsed since the last spawn,
      and it stops only when one of the two runs out. */
  lemma {:induction false} SpawnCountBounds(timestamp: real, lastSpawn: real, interval: real, n: nat, targetCount: real)
    requires targetCount <= 3000.0 && n <= 3000
    ensures var c := SpawnCount(timestamp, lastSpawn, interval, n, targetCount);
            && (c > 0 ==> ((n + c - 1) as real) < targetCount)
            && (c > 0 ==> lastSpawn + (c as real) * interval < timestamp)
            && !(timestamp - (lastSpawn + (c as real) * interval) > interval && ((n + c) as real) < targetCount)
    decreases 3000 - n
  {
    var c := SpawnCount(timestamp, lastSpawn, interval, n, targetCount);
    if timestamp - lastSpawn > interval && (n as real) < targetCount {
      SpawnCountBounds(timestamp, lastSpawn + interval, interval, n + 1, targetCount);
      assert (c as real) * interval == ((c - 1) as real) * interval + interval;
    }
  }

  /** `lastSpawn` after `k` spawns `interval` apart. */
  function Advanced(start: real, interval: real, k: nat): real
  {
    if k == 0 then start else Advanced(start, interval, k - 1) + interval
  }

  lemma {:induction false} AdvancedIsProduct(start: real, interval: real, k: nat)
    ensures Advanced(start, interval, k) == start + (k as real) * interval
  {
    if k > 0 {
      AdvancedIsProduct(start, interval, k - 1);
      assert (k as real) * interval == ((k - 1) as real) * interval + interval;
    }
  }

  /** The particles the loop pushes, in order, from `draw(0)` on. */
  function Created(k: nat, draw: nat -> Draw, width: real, height: real): seq<Particle>
  {
    seq(k, j requires 0 <= j < k => CreateParticle(draw(j), width, height))
  }

  lemma CreatedSnoc(k: nat, draw: nat -> Draw, width: real, height: real)
    ensures Created(k + 1, draw, width, height) == Created(k, draw, width, height) + [CreateParticle(draw(k), width, height)]
  {
  }

  /** Every particle the spawn loop creates is well formed. */
  lemma CreatedWellFormed(k: nat, draw: nat -> Draw, width: real, height: real)
    requires forall j :: ValidDraw(draw(j))
    requires 0.0 <= width && 0.0 <= height
    ensures forall i :: 0 <= i < k ==> WellFormed(Created(k, draw, width, height)[i])
  {
    forall i | 0 <= i < k ensures WellFormed(Created(k, draw, width, height)[i]) {
      CreatedParticle(draw(i), width, height);
    }
  }

  /** The spawn loop on `particles` with `lastSpawn` and the frame's
      interval: it pushes as many particles as SpawnCount says, created
      from the draws in order, and advances `lastSpawn` one interval per
      particle. */
  method SpawnLoop(timestamp: real, lastSpawn: real, spawnInterval: real, particles: seq<Particle>,
                   targetCount: real, draw: nat -> Draw, width: real, height: real)
    returns (ps: seq<Particle>, last: real, k: nat)
    requires targetCount <= 3000.0 && |particles| <= 3000
    ensures k == SpawnCount(timestamp, lastSpawn, spawnInterval, |particles|, targetCount)
    ensures ps == particles + Created(k, draw, width, height) && |ps| <= 3000
    ensures last == Advanced(lastSpawn, spawnInterval, k)
  {
    ps, last := particles, lastSpawn;
    ghost var total := SpawnCount(timestamp, last, spawnInterval, |ps|, targetCount);
    k := 0;
    while timestamp - last > spawnInterval && (|ps| as real) < targetCount
      invariant |ps| == |particles| + k <= 3000
      invariant ps == particles + Created(k, draw, width, height)
      invariant last == Advanced(lastSpawn, spawnInterval, k)
      invariant k + SpawnCount(timestamp, last, spawnInterval, |ps|, targetCount) == total
      decreases 3000 - |ps|
    {
      CreatedSnoc(k, draw, width, height);
      ps := ps + [CreateParticle(draw(k), width, height)];
      last := last + spawnInterval;
      k := k + 1;
    }
  }

  /** One turn of the reverse loop: with the particles after `i` already
      processed, processing particle `i` (advance it, then splice it out or
      store it back) gives the particles from `i` on processed. */
  lemma CullStep(ps: seq<Particle>, i: nat, width: real, height: real, sqrt: real -> real)
    requires i < |ps|
    ensures var kept := ps[..i + 1] + Survivors(ps[i + 1..], width, height, sqrt);
            var p := Advance(ps[i], width, height, sqrt);
            && kept[i] == ps[i]
            && (!Alive(p, width, height) ==> kept[..i] + kept[i + 1..] == ps[..i] + Survivors(ps[i..], width, height, sqrt))
            && (Alive(p, width, height) ==> kept[i := p] == ps[..i] + Survivors(ps[i..], width, height, sqrt))
  {
    var rest := Survivors(ps[i + 1..], width, height, sqrt);
    var kept := ps[..i + 1] + rest;
    var p := Advance(ps[i], width, height, sqrt);
    assert ps[i..][1..] == ps[i + 1..];
    assert kept[..i] == ps[..i];
    assert kept[i + 1..] == rest;
    if Alive(p, width, height) {
      assert kept[i := p] == ps[..i] + [p] + rest;
    }
  }

  /** The reverse loop of a frame over `particles`: each particle, from the
      last to the first, is advanced and spliced out if it fails the
      removal test. */
  method Cull(particles: seq<Particle>, width: real, height: real, sqrt: real -> real)
    returns (kept: seq<Particle>)
    ensures kept == Survivors(particles, width, height, sqrt)
  {
    kept := particles;
    var i := |kept|;
    while i > 0
      invariant 0 <= i <= |particles|
      invariant kept == particles[..i] + Survivors(particles[i..], width, height, sqrt)
    {
      i := i - 1;
      CullStep(particles, i, width, height, sqrt);
      var p := Advance(kept[i], width, height, sqrt);
      if !(p.life > 0.0 && p.x > -50.0 && p.x < width + 50.0 && p.y > -50.0 && p.y < height + 50.0) {
        kept := kept[..i] + kept[i + 1..];
      } else {
        kept := kept[i := p];
      }
    }
    assert particles[0..] == particles;
  }

  // ---------------------------------------------------------------------
  // The field

  class Field {
    /** currentPM25Ref: the smoothed reading. */
    var currentPM25: real
    /** targetPM25Ref: the driver from the latest devices_update. */
    var targetPM25: real
    var spawnRate: real
    var targetCount: real
    var lastSpawn: real
    /** particlesRef. */
    var particles: seq<Particle>

    ghost predicate Valid()
      reads this
    {
      && 1.0 <= targetPM25
      && 0.0 < spawnRate <= MaxRate
      && targetCount <= 3000.0
      && |particles| <= 3000
      && forall i :: 0 <= i < |particles| ==> WellFormed(particles[i])
    }

    /** The refs' initial values: nothing smoothed yet, a target of 1, two
        particles a second up to 50. */
    constructor ()
      ensures Valid()
      ensures currentPM25 == 0.0 && targetPM25 == 1.0
      ensures spawnRate == 2.0 && targetCount == 50.0 && lastSpawn == 0.0 && particles == []
    {
      currentPM25, targetPM25 := 0.0, 1.0;
      spawnRate, targetCount, lastSpawn := 2.0, 50.0, 0.0;
      particles := [];
    }

    /** The devices_update handler's `targetPM25Ref.current = Math.max(1, ...)`. */
    method SetTarget(devices: seq<DeviceInfo>)
      requires Valid()
      modifies this`targetPM25
      ensures Valid()
      ensures targetPM25 == Readings.Driver(devices)
    {
      Readings.DriverIsFlooredMax(devices);
      targetPM25 := Readings.Driver(devices);
    }

    /** The start of a frame: the smoothed value moves 2% of the way. */
    method Smooth()
      modifies this`currentPM25
      ensures currentPM25 == SmoothStep(old(currentPM25), targetPM25)
    {
      currentPM25 := currentPM25 + (targetPM25 - currentPM25) * 0.02;
    }

    /** updateParticleSystem: rate and target from the (unsmoothed) target
        reading. */
    method UpdateParticleSystem()
      requires Valid()
      modifies this`spawnRate, this`targetCount
      ensures Valid()
      ensures spawnRate == SpawnRate(targetPM25) && targetCount == TargetCount(targetPM25)
    {
      SpawnRateBounds(targetPM25, targetPM25);
      var newSpawnRate := Readings.Min(MaxRate, MinRate * (targetPM25 * targetPM25));
      spawnRate := newSpawnRate;
      targetCount := newSpawnRate * 6.0;
    }

    /** The spawn loop of a frame at `timestamp`: as many particles as
        SpawnCount says are pushed, created from the draws in order, and
        `lastSpawn` advances one interval per particle. */
    method SpawnParticles(timestamp: real, width: real, height: real, draw: nat -> Draw)
      returns (k: nat)
      requires Valid()
      requires forall j :: ValidDraw(draw(j))
      requires 0.0 <= width && 0.0 <= height
      modifies this`particles, this`lastSpawn
      ensures Valid()
      ensures k == SpawnCount(timestamp, old(lastSpawn), 1000.0 / spawnRate, |old(particles)|, targetCount)
      ensures particles == old(particles) + Created(k, draw, width, height)
      ensures lastSpawn == Advanced(old(lastSpawn), 1000.0 / spawnRate, k)
      ensures lastSpawn == old(lastSpawn) + (k as real) * (1000.0 / spawnRate)
    {
      var ps, last;
      ps, last, k := SpawnLoop(timestamp, lastSpawn, 1000.0 / spawnRate, particles, targetCount, draw, width, height);
      AdvancedIsProduct(lastSpawn, 1000.0 / spawnRate, k);
      CreatedWellFormed(k, draw, width, height);
      forall i | |old(particles)| <= i < |ps| ensures WellFormed(ps[i]) {
        assert ps[i] == Created(k, draw, width, height)[i - |old(particles)|];
      }
      particles, lastSpawn := ps, last;
    }

    /** The reverse loop of a frame: each particle, from the last to the
        first, is advanced and spliced out if it fails the removal test. */
    method StepParticles(width: real, height: real, sqrt: real -> real)
      requires Valid()
      modifies this`particles
      ensures Valid()
      ensures particles == Survivors(old(particles), width, height, sqrt)
    {
      var kept := Cull(particles, width, height, sqrt);
      SurvivorsProperties(particles, width, height, sqrt);
      particles := kept;
    }

    /** The visibility handler on showing the tab again: spawning restarts
        from `now`, so the hidden time does not come back as a burst. */
    method Resume(now: real)
      modifies this`lastSpawn
      ensures lastSpawn == now
    {
      lastSpawn := now;
    }

    /** One animation frame at `timestamp` on a `width` x `height` canvas. */
    method Animate(timestamp: real, width: real, height: real, draw: nat -> Draw, sqrt: real -> real)
      requires Valid()
      requires forall j :: ValidDraw(draw(j))
      requires 0.0 <= width && 0.0 <= height
      modifies this`currentPM25, this`spawnRate, this`targetCount, this`particles, this`lastSpawn
      ensures Valid()
      ensures currentPM25 == SmoothStep(old(currentPM25), targetPM25)
      ensures spawnRate == SpawnRate(targetPM25) && targetCount == TargetCount(targetPM25)
      ensures var interval := 1000.0 / spawnRate;
              var k := SpawnCount(timestamp, old(lastSpawn), interval, |old(particles)|, targetCount);
              && lastSpawn == Advanced(old(lastSpawn), interval, k)
              && particles == Survivors(old(particles) + Created(k, draw, width, height), width, height, sqrt)
      ensures forall i :: 0 <= i < |particles| ==> Alive(particles[i], width, height)
    {
      Smooth();
      UpdateParticleSystem();
      ghost var k := SpawnCount(timestamp, old(lastSpawn), 1000.0 / spawnRate, |old(particles)|, targetCount);
      ghost var grown := old(particles) + Created(k, draw, width, height);
      var spawned := SpawnParticles(timestamp, width, height, draw);
      assert spawned == k && particles == grown;
      StepParticles(width, height, sqrt);
      SurvivorsProperties(grown, width, height, sqrt);
    }
  }
}
