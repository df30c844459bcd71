/** The GameSandbox component's mutable game state and the operations that
    update it in place: the input handlers, `startGame`, the effect spawners
    and the frame step `loop`, each proved to do what the functions of Rules
    describe. */
module Sandbox {
  import opened Entities
  import opened Seqs
  import opened Rules

  class GameSandbox {
    var state: GameState
    var score: nat
    var health: int
    var shake: int
    var isDown: bool
    var cursor: Option<Point>
    var enemies: seq<Enemy>
    var particles: seq<Particle>
    var texts: seq<FloatingText>
    var trail: seq<TrailPoint>

    /** The whole state as a value. */
    function Snapshot(): World
      reads this
    {
      World(state, score, health, shake, isDown, cursor, enemies, particles, texts, trail)
    }

    predicate Valid()
      reads this
    {
      Inv(Snapshot())
    }

    constructor ()
      ensures Snapshot() == Initial() && Valid()
    {
      state, score, health, shake := Menu, 0, 3, 0;
      isDown, cursor := false, None;
      enemies, particles, texts, trail := [], [], [], [];
      InitialInv();
    }

    // ------------------------------------------------------------------
    // Input

    /** The pointer at client coordinates, as percentages of the container's
        rectangle; nothing happens when there is no container. */
    method UpdateCursor(clientX: real, clientY: real, container: Option<Rect>)
      requires container.Some? ==> container.value.width > 0.0 && container.value.height > 0.0
      modifies this`cursor
      ensures cursor == if container.Some? then Some(Normalize(clientX, clientY, container.value)) else old(cursor)
    {
      if container.None? {
        return;
      }
      var rect := container.value;
      cursor := Some(Point((clientX - rect.left) / rect.width * 100.0, (clientY - rect.top) / rect.height * 100.0));
      assert cursor.value == Normalize(clientX, clientY, rect);
    }

    method OnDown(clientX: real, clientY: real, container: Option<Rect>)
      requires container.Some? ==> container.value.width > 0.0 && container.value.height > 0.0
      requires Valid()
      modifies this`isDown, this`cursor
      ensures Valid() && isDown
      ensures cursor == if container.Some? then Some(Normalize(clientX, clientY, container.value)) else old(cursor)
    {
      isDown := true;
      UpdateCursor(clientX, clientY, container);
    }

    /** Moving only tracks the pointer while it is held. */
    method OnMove(clientX: real, clientY: real, container: Option<Rect>)
      requires container.Some? ==> container.value.width > 0.0 && container.value.height > 0.0
      requires Valid()
      modifies this`cursor
      ensures Valid()
      ensures cursor == if isDown && container.Some? then Some(Normalize(clientX, clientY, container.value)) else old(cursor)
    {
      if isDown {
        UpdateCursor(clientX, clientY, container);
      }
    }

    /** Release, leave and touch end: the pointer is no longer held; its last
        position is kept. */
    method OnUp()
      requires Valid()
      modifies this`isDown
      ensures Valid() && !isDown
    {
      isDown := false;
    }

    // ------------------------------------------------------------------
    // Sessions and effects

    method StartGame()
      requires Valid()
      modifies this
      ensures Snapshot() == Reset(old(Snapshot())) && Valid()
    {
      ResetInv(Snapshot());
      enemies := [];
      particles := [];
      texts := [];
      score := 0;
      health := 3;
      state := Playing;
    }

    method SpawnExplosion(x: real, y: real, color: string, rolls: seq<real>)
      requires |rolls| == BURST_ROLLS
      modifies this`particles
      ensures particles == old(particles) + Burst(x, y, color, rolls)
    {
      var burst := Burst(x, y, color, rolls);
      for i := 0 to BURST_SIZE
        invariant particles == old(particles) + burst[..i]
      {
        particles := particles + [Particle(x, y, Velocity(rolls[2 * i]), Velocity(rolls[2 * i + 1]), 1.0, color)];
        assert burst[..i + 1] == burst[..i] + [burst[i]];
      }
      assert burst[..BURST_SIZE] == burst;
    }

    method SpawnText(x: real, y: real, text: string)
      modifies this`texts
      ensures texts == old(texts) + [FloatingText(x, y, text, 1.0)]
    {
      texts := texts + [FloatingText(x, y, text, 1.0)];
    }

    // ------------------------------------------------------------------
    // The phases of one frame

    method ExtendTrail()
      modifies this`trail
      ensures Snapshot() == WithTrail(old(Snapshot()))
    {
      if isDown && cursor.Some? {
        trail := trail + [TrailPoint(cursor.value.x, cursor.value.y, 1.0)];
      }
    }

    method SpawnEnemy(chance: real, spawnRoll: real, xRoll: real, kindRoll: real)
      modifies this`enemies
      ensures Snapshot() == WithSpawn(old(Snapshot()), chance, spawnRoll, xRoll, kindRoll)
    {
      if spawnRoll < chance {
        enemies := enemies + [Enemy(10.0 + xRoll * 80.0, SPAWN_Y, if kindRoll > 0.85 then Major else Minor, false)];
      }
    }

    /** Every enemy falls by `speed`; those below the view are dropped and
        `damage` records whether any of them was still alive. */
    method AdvanceEnemies(speed: real) returns (damage: bool)
      modifies this`enemies
      ensures Snapshot() == WithAdvance(old(Snapshot()), speed)
      ensures damage == Breached(old(enemies), speed)
    {
      enemies, damage := Advance(enemies, speed);
    }
    method ApplyDamage(damage: bool)
      modifies this`shake, this`health, this`state
      ensures Snapshot() == WithDamage(old(Snapshot()), damage)
    {
      if damage {
        shake := 10;
        var next := health - 1;
        if next <= 0 {
          state := GameOver;
          health := 0;
        } else {
          health := next;
        }
      }
    }

    method AgeParticles()
      modifies this`particles
      ensures particles == Filter(Map(old(particles), AgeParticle), ParticleAlive)
    {
      for i := 0 to |particles|
        invariant |particles| == |old(particles)|
        invariant forall j :: 0 <= j < |particles| ==>
          particles[j] == if j < i then AgeParticle(old(particles)[j]) else old(particles)[j]
      {
        var p := particles[i];
        particles := particles[i := p.(x := p.x + p.vx, y := p.y + p.vy, life := p.life - PARTICLE_DECAY)];
      }
      assert particles == Map(old(particles), AgeParticle);
      particles := FilterLoop(particles, ParticleAlive);
    }

    method AgeTexts()
      modifies this`texts
      ensures texts == Filter(Map(old(texts), AgeText), TextAlive)
    {
      for i := 0 to |texts|
        invariant |texts| == |old(texts)|
        invariant forall j :: 0 <= j < |texts| ==>
          texts[j] == if j < i then AgeText(old(texts)[j]) else old(texts)[j]
      {
        var t := texts[i];
        texts := texts[i := t.(y := t.y - TEXT_DRIFT, life := t.life - TEXT_DECAY)];
      }
      assert texts == Map(old(texts), AgeText);
      texts := FilterLoop(texts, TextAlive);
    }

    method AgeTrailPoints()
      modifies this`trail
      ensures trail == Filter(Map(old(trail), AgeTrail), TrailAlive)
    {
      for i := 0 to |trail|
        invariant |trail| == |old(trail)|
        invariant forall j :: 0 <= j < |trail| ==>
          trail[j] == if j < i then AgeTrail(old(trail)[j]) else old(trail)[j]
      {
        var t := trail[i];
        trail := trail[i := t.(life := t.life - TRAIL_DECAY)];
      }
      assert trail == Map(old(trail), AgeTrail);
      trail := FilterLoop(trail, TrailAlive);
    }

    method AgeEffects()
      modifies this`particles, this`texts, this`trail
      ensures Snapshot() == WithAgeing(old(Snapshot()))
    {
      AgeParticles();
      AgeTexts();
      AgeTrailPoints();
    }

    /** The hit test of the enemy at index `i` against the pointer at `c`. */
    method HitOne(i: nat, c: Point, rolls: seq<real>) returns (struck: bool)
      requires i < |enemies| && BURST_ROLLS * |enemies| <= |rolls|
      modifies this`enemies, this`particles, this`texts, this`score
      ensures struck == Struck(old(enemies[i]), c)
      ensures var e := old(enemies[i]);
        && enemies == old(enemies)[i := Mark(e, c)]
        && score == old(score) + Reward(e, c)
        && particles == old(particles) + Explosion(e, c, rolls[BURST_ROLLS * i .. BURST_ROLLS * i + BURST_ROLLS])
        && texts == old(texts) + Tag(e, c)
    {
      struck := false;
      var e := enemies[i];
      if e.dead {
        return;
      }
      if SquaredDistance(e, c) < HIT_RADIUS_SQUARED {
        struck := true;
        enemies := enemies[i := e.(dead := true)];
        SpawnExplosion(e.x, e.y, Color(e.kind), rolls[BURST_ROLLS * i .. BURST_ROLLS * i + BURST_ROLLS]);
        SpawnText(e.x, e.y, Label(e.kind));
        score := score + Points(e.kind);
      }
    }

    /** The hit test at `c` over every enemy in order; `hit` says whether any
        enemy was hit. */
    method HitTest(c: Point, rolls: seq<real>) returns (hit: bool)
      requires BURST_ROLLS * |enemies| <= |rolls|
      modifies this`enemies, this`particles, this`texts, this`score
      ensures enemies == Marked(old(enemies), c)
      ensures score == old(score) + Gain(old(enemies), c)
      ensures particles == old(particles) + Effects(old(enemies), c, rolls)
      ensures texts == old(texts) + Labels(old(enemies), c)
      ensures hit == AnyStruck(old(enemies), c)
    {
      hit := false;
      ghost var es := enemies;
      var i := 0;
      while i < |enemies|
        invariant 0 <= i <= |enemies| == |es|
        invariant forall j :: 0 <= j < |es| ==> enemies[j] == if j < i then Mark(es[j], c) else es[j]
        invariant score == old(score) + Gain(es[..i], c)
        invariant particles == old(particles) + Effects(es[..i], c, rolls)
        invariant texts == old(texts) + Labels(es[..i], c)
        invariant hit == AnyStruck(es[..i], c)
      {
        ghost var (s1, p1, t1) := (score, particles, texts);
        var struck := HitOne(i, c, rolls);
        HitStep(es, c, rolls, i, old(score), old(particles), old(texts), s1, p1, t1, score, particles, texts);
        if struck {
          hit := true;
        }
        i := i + 1;
      }
      assert es[..|es|] == es;
    }

    /** With the pointer held, the hit test runs; a hit that brings the score
        to WIN_SCORE wins. */
    method Collide(rolls: seq<real>)
      requires BURST_ROLLS * |enemies| <= |rolls|
      modifies this`enemies, this`particles, this`texts, this`score, this`state
      ensures Snapshot() == WithCollisions(old(Snapshot()), rolls)
    {
      if !(isDown && cursor.Some?) {
        return;
      }
      var hit := HitTest(cursor.value, rolls);
      if hit {
        if score >= WIN_SCORE {
          state := Victory;
        }
      }
    }

    /** Phases 1 to 4 of a frame in play. */
    method Descend(spawnRoll: real, xRoll: real, kindRoll: real)
      modifies this
      ensures Snapshot() == Rules.Descend(old(Snapshot()), spawnRoll, xRoll, kindRoll)
    {
      ghost var w := Snapshot();
      var currentSpeed := START_SPEED + score as real * 0.02;
      if currentSpeed > MAX_SPEED {
        currentSpeed := MAX_SPEED;
      }
      var spawnChance := 0.015 + score as real * 0.0004;
      assert currentSpeed == Speed(w.score) && spawnChance == SpawnChance(w.score);
      ExtendTrail();
      SpawnEnemy(spawnChance, spawnRoll, xRoll, kindRoll);
      var damage := AdvanceEnemies(currentSpeed);
      ApplyDamage(damage);
    }

    /** `loop`: one frame. Outside play nothing changes; otherwise difficulty
        comes from the score, then trail, spawn, advance, damage, ageing and
        collisions run in that order. */
    method Step(spawnRoll: real, xRoll: real, kindRoll: real, rolls: seq<real>)
      requires Valid() && EnoughRolls(Snapshot(), rolls) && UnitRolls(spawnRoll, xRoll, kindRoll, rolls)
      modifies this
      ensures Snapshot() == Frame(old(Snapshot()), spawnRoll, xRoll, kindRoll, rolls)
      ensures Valid()
    {
      FramePreservesInv(Snapshot(), spawnRoll, xRoll, kindRoll, rolls);
      if state != Playing {
        return;
      }
      Descend(spawnRoll, xRoll, kindRoll);
      AgeEffects();
      Collide(rolls);
    }
  }

  /** The `filter` callback of the advance, run over `es`: each enemy falls
      by `speed`, those past the bottom are dropped, and `damage` is set when
      a dropped one was alive. */
  method Advance(es: seq<Enemy>, speed: real) returns (kept: seq<Enemy>, damage: bool)
    ensures kept == Filter(Fallen(es, speed), OnScreen)
    ensures damage == Breached(es, speed)
  {
    ghost var fallen := Fallen(es, speed);
    kept := [];
    damage := false;
    var i := 0;
    while i < |es|
      invariant 0 <= i <= |es|
      invariant kept == Filter(fallen[..i], OnScreen)
      invariant damage == Breached(es[..i], speed)
    {
      FilterSnoc(fallen, OnScreen, i);
      BreachedSnoc(es, speed, i);
      var e := es[i];
      e := e.(y := e.y + speed);
      assert e == fallen[i];
      if e.y > CULL_Y {
        if !e.dead {
          damage := true;
        }
      } else {
        kept := kept + [e];
      }
      i := i + 1;
    }
    assert fallen[..|es|] == fallen;
    assert es[..|es|] == es;
  }
}
