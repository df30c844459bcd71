/** The frame step of GameSandbox as pure functions on the whole game state,
    phase by phase in the order `loop` runs them, and what they guarantee. */
module Rules {
  import opened Entities
  import opened Seqs

  /** Everything `loop` and `startGame` read or write: the game state, the
      score counter, health, the shake intensity, the pointer and the four
      entity collections. */
  datatype World = World(
    state: GameState,
    score: nat,
    health: int,
    shake: int,
    isDown: bool,
    cursor: Option<Point>,
    enemies: seq<Enemy>,
    particles: seq<Particle>,
    texts: seq<FloatingText>,
    trail: seq<TrailPoint>)

  /** The state before the first game: the menu. */
  function Initial(): World
  {
    World(Menu, 0, 3, 0, false, None, [], [], [], [])
  }

  /** Whether the collision pass runs: the pointer is held over the container. */
  predicate Pointing(w: World)
  {
    w.isDown && w.cursor.Some?
  }

  // ---------------------------------------------------------------------
  // The phases of one frame

  /** Phase 2: a held pointer leaves a fresh trail point. */
  function WithTrail(w: World): World
  {
    if Pointing(w) then
      w.(trail := w.trail + [TrailPoint(w.cursor.value.x, w.cursor.value.y, 1.0)])
    else w
  }

  /** Phase 3: one enemy is appended when the spawn roll is under the chance. */
  function WithSpawn(w: World, chance: real, spawnRoll: real, xRoll: real, kindRoll: real): World
  {
    if spawnRoll < chance then w.(enemies := w.enemies + [NewEnemy(xRoll, kindRoll)]) else w
  }

  function Fallen(es: seq<Enemy>, speed: real): (r: seq<Enemy>)
  {
    seq(|es|, i requires 0 <= i < |es| => Fall(es[i], speed))
  }

  /** Whether some live enemy falls out this frame. */
  predicate Breached(es: seq<Enemy>, speed: real)
  {
    exists j :: 0 <= j < |es| && Breaches(es[j], speed)
  }

  lemma BreachedSnoc(es: seq<Enemy>, speed: real, i: nat)
    requires i < |es|
    ensures Breached(es[..i + 1], speed) <==> Breached(es[..i], speed) || Breaches(es[i], speed)
  {
    assert forall j :: 0 <= j < i ==> es[..i + 1][j] == es[..i][j];
    assert es[..i + 1][i] == es[i];
  }

  /** Phase 4: every enemy falls and those below the view are culled. */
  function WithAdvance(w: World, speed: real): World
  {
    w.(enemies := Filter(Fallen(w.enemies, speed), OnScreen))
  }

  /** Phase 4, continued: a breach costs one health and shakes the screen; at zero the
      game is over. */
  function WithDamage(w: World, damage: bool): World
  {
    if !damage then w
    else if w.health - 1 <= 0 then w.(shake := 10, health := 0, state := GameOver)
    else w.(shake := 10, health := w.health - 1)
  }

  /** Phase 5: particles move and fade, texts rise and fade, trail points fade;
      whatever has no life left is pruned. */
  function WithAgeing(w: World): World
  {
    w.(particles := Filter(Map(w.particles, AgeParticle), ParticleAlive),
       texts := Filter(Map(w.texts, AgeText), TextAlive),
       trail := Filter(Map(w.trail, AgeTrail), TrailAlive))
  }

  /** The enemies after the hit test at `c`. */
  function Marked(es: seq<Enemy>, c: Point): (r: seq<Enemy>)
  {
    seq(|es|, i requires 0 <= i < |es| => Mark(es[i], c))
  }

  predicate AnyStruck(es: seq<Enemy>, c: Point)
  {
    exists j :: 0 <= j < |es| && Struck(es[j], c)
  }

  /** Points the hit test at `c` scores over `es`. */
  function Gain(es: seq<Enemy>, c: Point): nat
  {
    if es == [] then 0
    else
      var k := |es| - 1;
      Gain(es[..k], c) + Reward(es[k], c)
  }

  /** Number of enemies of kind `kind` the hit test at `c` hits. */
  function Hits(es: seq<Enemy>, c: Point, kind: Kind): nat
  {
    if es == [] then 0
    else
      var k := |es| - 1;
      Hits(es[..k], c, kind) + (if Struck(es[k], c) && es[k].kind == kind then 1 else 0)
  }

  /** The explosions the hit test spawns, in enemy order; the enemy at index k
      draws its random numbers from rolls[16k .. 16k + 16]. */
  function Effects(es: seq<Enemy>, c: Point, rolls: seq<real>): seq<Particle>
    requires BURST_ROLLS * |es| <= |rolls|
  {
    if es == [] then []
    else
      var k := |es| - 1;
      Effects(es[..k], c, rolls)
        + Explosion(es[k], c, rolls[BURST_ROLLS * k .. BURST_ROLLS * k + BURST_ROLLS])
  }

  /** The floating texts the hit test spawns, in enemy order. */
  function Labels(es: seq<Enemy>, c: Point): seq<FloatingText>
  {
    if es == [] then []
    else
      var k := |es| - 1;
      Labels(es[..k], c) + Tag(es[k], c)
  }

  /** How the hit test's totals grow by one enemy. */
  lemma HitTestSnoc(es: seq<Enemy>, c: Point, rolls: seq<real>, i: nat)
    requires i < |es| && BURST_ROLLS * |es| <= |rolls|
    ensures Gain(es[..i + 1], c) == Gain(es[..i], c) + Reward(es[i], c)
    ensures Effects(es[..i + 1], c, rolls) == Effects(es[..i], c, rolls)
      + Explosion(es[i], c, rolls[BURST_ROLLS * i .. BURST_ROLLS * i + BURST_ROLLS])
    ensures Labels(es[..i + 1], c) == Labels(es[..i], c) + Tag(es[i], c)
    ensures AnyStruck(es[..i + 1], c) <==> AnyStruck(es[..i], c) || Struck(es[i], c)
  {
    var pre := es[..i + 1];
    assert pre[..i] == es[..i] && pre[i] == es[i];
    assert Effects(pre, c, rolls) == Effects(es[..i], c, rolls)
      + Explosion(es[i], c, rolls[BURST_ROLLS * i .. BURST_ROLLS * i + BURST_ROLLS]);
    assert forall j :: 0 <= j < i ==> pre[j] == es[..i][j];
  }

  /** The hit test's totals after enemy i, from those before it and what
      enemy i adds. */
  lemma HitStep(es: seq<Enemy>, c: Point, rolls: seq<real>, i: nat,
                s0: nat, p0: seq<Particle>, t0: seq<FloatingText>,
                s1: nat, p1: seq<Particle>, t1: seq<FloatingText>,
                s2: nat, p2: seq<Particle>, t2: seq<FloatingText>)
    requires i < |es| && BURST_ROLLS * |es| <= |rolls|
    requires s1 == s0 + Gain(es[..i], c)
    requires p1 == p0 + Effects(es[..i], c, rolls)
    requires t1 == t0 + Labels(es[..i], c)
    requires s2 == s1 + Reward(es[i], c)
    requires p2 == p1 + Explosion(es[i], c, rolls[BURST_ROLLS * i .. BURST_ROLLS * i + BURST_ROLLS])
    requires t2 == t1 + Tag(es[i], c)
    ensures s2 == s0 + Gain(es[..i + 1], c)
    ensures p2 == p0 + Effects(es[..i + 1], c, rolls)
    ensures t2 == t0 + Labels(es[..i + 1], c)
    ensures AnyStruck(es[..i + 1], c) <==> AnyStruck(es[..i], c) || Struck(es[i], c)
  {
    HitTestSnoc(es, c, rolls, i);
    AppendAssoc(p0, Effects(es[..i], c, rolls), Explosion(es[i], c, rolls[BURST_ROLLS * i .. BURST_ROLLS * i + BURST_ROLLS]));
    AppendAssoc(t0, Labels(es[..i], c), Tag(es[i], c));
  }

  /** Phase 6: with the pointer held, live enemies near it die, each
      scoring, exploding and leaving a label; a hit that brings the score to
      WIN_SCORE wins. */
  function WithCollisions(w: World, rolls: seq<real>): World
    requires BURST_ROLLS * |w.enemies| <= |rolls|
  {
    if !Pointing(w) then w
    else
      var c := w.cursor.value;
      var score := w.score + Gain(w.enemies, c);
      w.(enemies := Marked(w.enemies, c),
         particles := w.particles + Effects(w.enemies, c, rolls),
         texts := w.texts + Labels(w.enemies, c),
         score := score,
         state := if AnyStruck(w.enemies, c) && score >= WIN_SCORE then Victory else w.state)
  }

  /** Random numbers one frame may draw: one explosion's worth per enemy that
      could be on screen after the spawn. */
  predicate EnoughRolls(w: World, rolls: seq<real>)
  {
    BURST_ROLLS * (|w.enemies| + 1) <= |rolls|
  }

  /** Every random number lies in [0, 1), as Math.random() promises. */
  predicate UnitRolls(spawnRoll: real, xRoll: real, kindRoll: real, rolls: seq<real>)
  {
    0.0 <= spawnRoll < 1.0 && 0.0 <= xRoll < 1.0 && 0.0 <= kindRoll < 1.0
    && forall k :: 0 <= k < |rolls| ==> 0.0 <= rolls[k] < 1.0
  }

  /** Phases 1 to 4: difficulty from the score, trail, spawn, advance and damage. */
  function Descend(w: World, spawnRoll: real, xRoll: real, kindRoll: real): (r: World)
    ensures |r.enemies| <= |w.enemies| + 1
  {
    var speed := Speed(w.score);
    var w2 := WithSpawn(WithTrail(w), SpawnChance(w.score), spawnRoll, xRoll, kindRoll);
    WithDamage(WithAdvance(w2, speed), Breached(w2.enemies, speed))
  }

  /** One call of `loop`. */
  function Frame(w: World, spawnRoll: real, xRoll: real, kindRoll: real, rolls: seq<real>): World
    requires EnoughRolls(w, rolls)
  {
    if w.state != Playing then w
    else WithCollisions(WithAgeing(Descend(w, spawnRoll, xRoll, kindRoll)), rolls)
  }

  /** `startGame`: a fresh session. The trail, the pointer and the shake are kept. */
  function Reset(w: World): World
  {
    w.(enemies := [], particles := [], texts := [], score := 0, health := 3, state := Playing)
  }

  // ---------------------------------------------------------------------
  // The invariant every reachable state keeps

  predicate EnemyOk(e: Enemy) { 10.0 <= e.x < 90.0 && e.y <= CULL_Y }
  predicate ParticleOk(p: Particle) { 0.0 < p.life <= 1.0 && -1.5 <= p.vx < 1.5 && -1.5 <= p.vy < 1.5 }
  predicate TextOk(t: FloatingText) { 0.0 < t.life <= 1.0 && (t.text == "+5" || t.text == "+1") }
  predicate TrailOk(t: TrailPoint) { 0.0 < t.life <= 1.0 }

  predicate EntitiesOk(w: World)
  {
    (forall i :: 0 <= i < |w.enemies| ==> EnemyOk(w.enemies[i]))
    && (forall i :: 0 <= i < |w.particles| ==> ParticleOk(w.particles[i]))
    && (forall i :: 0 <= i < |w.texts| ==> TextOk(w.texts[i]))
    && (forall i :: 0 <= i < |w.trail| ==> TrailOk(w.trail[i]))
  }

  /** Health stays in [0, 3]; the menu is the untouched initial state; a game
      in play has health and has not reached WIN_SCORE; victory is exactly
      reaching WIN_SCORE; game over means health 0. */
  predicate StateOk(w: World)
  {
    0 <= w.health <= 3
    && (w.state == Menu ==>
          w.score == 0 && w.health == 3 && w.enemies == [] && w.particles == [] && w.texts == [] && w.trail == [])
    && (w.state == Playing ==> w.health > 0 && w.score < WIN_SCORE)
    && (w.state == Victory <==> w.score >= WIN_SCORE)
    && (w.state == GameOver ==> w.health == 0)
  }

  /** The invariant: the state rules above, and every entity where and as
      alive as the frame step leaves it. */
  predicate Inv(w: World)
  {
    StateOk(w) && EntitiesOk(w)
  }

  lemma InitialInv()
    ensures Inv(Initial())
  {
  }

  lemma {:induction false} ResetInv(w: World)
    requires Inv(w)
    ensures Inv(Reset(w))
  {
    assert EntitiesOk(Reset(w));
  }

  // ---------------------------------------------------------------------
  // Facts about the hit test

  lemma {:induction false} GainPositive(es: seq<Enemy>, c: Point)
    ensures Gain(es, c) > 0 <==> AnyStruck(es, c)
  {
    if es != [] {
      var k := |es| - 1;
      GainPositive(es[..k], c);
      if AnyStruck(es, c) && !Struck(es[k], c) {
        var j :| 0 <= j < |es| && Struck(es[j], c);
        assert es[..k][j] == es[j];
      }
      if AnyStruck(es[..k], c) {
        var j :| 0 <= j < k && Struck(es[..k][j], c);
        assert es[j] == es[..k][j];
      }
    }
  }

  /** Score gained is five per Major hit plus one per Minor hit. */
  lemma {:induction false} GainByKind(es: seq<Enemy>, c: Point)
    ensures Gain(es, c) == 5 * Hits(es, c, Major) + Hits(es, c, Minor)
  {
    if es != [] {
      GainByKind(es[..|es| - 1], c);
    }
  }

  /** Every hit spawns eight particles and one text. */
  lemma {:induction false} EffectsCount(es: seq<Enemy>, c: Point, rolls: seq<real>)
    requires BURST_ROLLS * |es| <= |rolls|
    ensures |Effects(es, c, rolls)| == BURST_SIZE * (Hits(es, c, Major) + Hits(es, c, Minor))
    ensures |Labels(es, c)| == Hits(es, c, Major) + Hits(es, c, Minor)
  {
    if es != [] {
      EffectsCount(es[..|es| - 1], c, rolls);
    }
  }

  /** The particles of one enemy's explosion, when there are any. */
  lemma ExplosionAt(e: Enemy, c: Point, part: seq<real>)
    requires |part| == BURST_ROLLS
    requires forall m :: 0 <= m < |part| ==> 0.0 <= part[m] < 1.0
    ensures forall i :: 0 <= i < |Explosion(e, c, part)| ==>
      var p := Explosion(e, c, part)[i];
      ParticleOk(p) && p.life == 1.0 && Struck(e, c) && p.x == e.x && p.y == e.y && p.color == Color(e.kind)
  {
    if Struck(e, c) {
      var burst := Burst(e.x, e.y, Color(e.kind), part);
      assert Explosion(e, c, part) == burst;
      assert forall i :: 0 <= i < |burst| ==> ParticleOk(burst[i]) && burst[i].life == 1.0;
    } else {
      assert Explosion(e, c, part) == [];
    }
  }

  /** A particle as a hit on one of `es` spawns it: full life, bounded
      velocity, at that enemy's position and in its colour. */
  predicate SpawnedByHit(p: Particle, es: seq<Enemy>, c: Point)
  {
    ParticleOk(p) && p.life == 1.0
    && exists j :: 0 <= j < |es| && Struck(es[j], c)
         && p.x == es[j].x && p.y == es[j].y && p.color == Color(es[j].kind)
  }

  /** A particle spawned by a hit on a prefix is spawned by a hit on the whole. */
  lemma SpawnedByHitPrefix(p: Particle, es: seq<Enemy>, c: Point, k: nat)
    requires k <= |es| && SpawnedByHit(p, es[..k], c)
    ensures SpawnedByHit(p, es, c)
  {
    var j :| 0 <= j < k && Struck(es[..k][j], c)
      && p.x == es[..k][j].x && p.y == es[..k][j].y && p.color == Color(es[..k][j].kind);
    assert es[..k][j] == es[j];
  }

  /** Each spawned particle starts with full life at a hit enemy's position,
      in that enemy's colour, with a velocity in [-1.5, 1.5). */
  lemma {:induction false} EffectsAtHits(es: seq<Enemy>, c: Point, rolls: seq<real>)
    requires BURST_ROLLS * |es| <= |rolls|
    requires forall k :: 0 <= k < |rolls| ==> 0.0 <= rolls[k] < 1.0
    ensures forall i :: 0 <= i < |Effects(es, c, rolls)| ==> SpawnedByHit(Effects(es, c, rolls)[i], es, c)
  {
    if es != [] {
      var k := |es| - 1;
      EffectsAtHits(es[..k], c, rolls);
      var pre := Effects(es[..k], c, rolls);
      var part := rolls[BURST_ROLLS * k .. BURST_ROLLS * k + BURST_ROLLS];
      var ex := Explosion(es[k], c, part);
      var all := Effects(es, c, rolls);
      assert all == pre + ex;
      ExplosionAt(es[k], c, part);
      forall i | 0 <= i < |all|
        ensures SpawnedByHit(all[i], es, c)
      {
        if i < |pre| {
          SpawnedByHitPrefix(pre[i], es, c, k);
        } else {
          assert all[i] == ex[i - |pre|];
        }
      }
    }
  }

  /** Each spawned text starts with full life at a hit enemy's position and
      shows the points that enemy gave. */
  lemma {:induction false} LabelsAtHits(es: seq<Enemy>, c: Point)
    ensures forall i :: 0 <= i < |Labels(es, c)| ==>
      var t := Labels(es, c)[i];
      t.life == 1.0
      && exists j :: 0 <= j < |es| && Struck(es[j], c)
           && t.x == es[j].x && t.y == es[j].y && t.text == Label(es[j].kind)
  {
    if es != [] {
      var k := |es| - 1;
      LabelsAtHits(es[..k], c);
      var pre := Labels(es[..k], c);
      var all := Labels(es, c);
      forall i | 0 <= i < |all|
        ensures var t := all[i];
          t.life == 1.0
          && exists j :: 0 <= j < |es| && Struck(es[j], c)
               && t.x == es[j].x && t.y == es[j].y && t.text == Label(es[j].kind)
      {
        if i < |pre| {
          var j :| 0 <= j < k && Struck(es[..k][j], c)
            && pre[i].x == es[..k][j].x && pre[i].y == es[..k][j].y && pre[i].text == Label(es[..k][j].kind);
          assert es[..k][j] == es[j];
        }
      }
    }
  }

  /** An enemy already dead is never scored again: a second hit test at the
      same place hits nothing and changes nothing. */
  lemma {:induction false} NoRescore(es: seq<Enemy>, c: Point)
    ensures Gain(Marked(es, c), c) == 0
    ensures Marked(Marked(es, c), c) == Marked(es, c)
  {
    if es != [] {
      var k := |es| - 1;
      NoRescore(es[..k], c);
      assert Marked(es, c)[..k] == Marked(es[..k], c);
    }
  }

  // ---------------------------------------------------------------------
  // Facts about one frame

  /** Outside play a frame changes nothing. */
  lemma FrameOutsidePlay(w: World, spawnRoll: real, xRoll: real, kindRoll: real, rolls: seq<real>)
    requires EnoughRolls(w, rolls) && w.state != Playing
    ensures Frame(w, spawnRoll, xRoll, kindRoll, rolls) == w
  {
  }

  /** Survivors of the advance are exactly the enemies still on screen after
      falling, in their original order; the freshly spawned enemy never
      breaches, so damage depends only on the enemies present before. */
  lemma {:induction false} AdvanceSurvivors(es: seq<Enemy>, speed: real) returns (idx: seq<nat>)
    ensures |idx| == |Filter(Fallen(es, speed), OnScreen)|
    ensures forall j :: 0 <= j < |idx| ==>
      idx[j] < |es| && Filter(Fallen(es, speed), OnScreen)[j] == Fall(es[idx[j]], speed)
    ensures forall j, k :: 0 <= j < k < |idx| ==> idx[j] < idx[k]
    ensures forall i :: 0 <= i < |es| ==> (es[i].y + speed <= CULL_Y <==> i in idx)
  {
    idx := FilterIndices(Fallen(es, speed), OnScreen);
    var fallen := Fallen(es, speed);
    assert forall i :: 0 <= i < |es| ==> fallen[i] == Fall(es[i], speed);
  }

  lemma {:induction false} SpawnNeverBreaches(es: seq<Enemy>, w: World, chance: real, spawnRoll: real, xRoll: real, kindRoll: real)
    requires es == WithSpawn(w, chance, spawnRoll, xRoll, kindRoll).enemies
    ensures Breached(es, Speed(w.score)) <==> Breached(w.enemies, Speed(w.score))
  {
    var speed := Speed(w.score);
    if Breached(es, speed) {
      var j :| 0 <= j < |es| && Breaches(es[j], speed);
      assert j < |w.enemies| && w.enemies[j] == es[j];
    }
    if Breached(w.enemies, speed) {
      var j :| 0 <= j < |w.enemies| && Breaches(w.enemies[j], speed);
      assert es[j] == w.enemies[j];
    }
  }

  /** Health drops by exactly one when a live enemy breaches, never more. */
  lemma {:induction false} FrameHealth(w: World, spawnRoll: real, xRoll: real, kindRoll: real, rolls: seq<real>)
    requires Inv(w) && EnoughRolls(w, rolls) && w.state == Playing
    ensures Frame(w, spawnRoll, xRoll, kindRoll, rolls).health
      == w.health - (if Breached(w.enemies, Speed(w.score)) then 1 else 0)
  {
    var w1 := WithTrail(w);
    SpawnNeverBreaches(WithSpawn(w1, SpawnChance(w.score), spawnRoll, xRoll, kindRoll).enemies,
                       w1, SpawnChance(w.score), spawnRoll, xRoll, kindRoll);
  }

  /** At most one enemy is added per frame. */
  lemma FrameSpawnsAtMostOne(w: World, spawnRoll: real, xRoll: real, kindRoll: real, rolls: seq<real>)
    requires EnoughRolls(w, rolls)
    ensures |Frame(w, spawnRoll, xRoll, kindRoll, rolls).enemies| <= |w.enemies| + 1
  {
  }

  /** The score never decreases; it grows by the points of the enemies hit,
      and not at all when the pointer is not held. */
  lemma {:induction false} FrameScore(w: World, spawnRoll: real, xRoll: real, kindRoll: real, rolls: seq<real>)
    requires EnoughRolls(w, rolls)
    ensures Frame(w, spawnRoll, xRoll, kindRoll, rolls).score >= w.score
    ensures !Pointing(w) ==> Frame(w, spawnRoll, xRoll, kindRoll, rolls).score == w.score
  {
  }

  lemma {:induction false} TrailPhaseOk(w: World)
    requires EntitiesOk(w)
    ensures EntitiesOk(WithTrail(w))
  {
  }

  lemma {:induction false} SpawnPhaseOk(w: World, chance: real, spawnRoll: real, xRoll: real, kindRoll: real)
    requires EntitiesOk(w) && 0.0 <= xRoll < 1.0
    ensures EntitiesOk(WithSpawn(w, chance, spawnRoll, xRoll, kindRoll))
  {
  }

  /** Enemies inside the view before the spawn keep their column and end up
      within the view. */
  lemma {:induction false} AdvancePhaseOk(w: World, speed: real)
    requires forall i :: 0 <= i < |w.enemies| ==> 10.0 <= w.enemies[i].x < 90.0
    requires EntitiesOk(w.(enemies := []))
    ensures EntitiesOk(WithAdvance(w, speed))
  {
    var r := Filter(Fallen(w.enemies, speed), OnScreen);
    forall j | 0 <= j < |r| ensures EnemyOk(r[j]) {
      assert r[j] in Fallen(w.enemies, speed);
    }
  }

  lemma AgeingPhaseOk(w: World)
    requires EntitiesOk(w)
    ensures EntitiesOk(WithAgeing(w))
  {
  }

  /** Damage during play keeps the state rules: health 0 is game over. */
  lemma {:induction false} DamagePhaseOk(w: World, damage: bool)
    requires StateOk(w) && w.state == Playing
    ensures StateOk(WithDamage(w, damage))
  {
  }

  /** The hit test keeps the state rules in play and after a game over in the
      same frame: a hit that reaches WIN_SCORE wins, and without a hit the
      score does not move. */
  lemma {:induction false} CollisionStateOk(w: World, rolls: seq<real>)
    requires StateOk(w) && (w.state == Playing || w.state == GameOver) && w.score < WIN_SCORE
    requires BURST_ROLLS * |w.enemies| <= |rolls|
    ensures StateOk(WithCollisions(w, rolls))
  {
    if Pointing(w) {
      GainPositive(w.enemies, w.cursor.value);
    }
  }

  lemma {:induction false} CollisionPhaseOk(w: World, rolls: seq<real>)
    requires EntitiesOk(w) && BURST_ROLLS * |w.enemies| <= |rolls|
    requires forall k :: 0 <= k < |rolls| ==> 0.0 <= rolls[k] < 1.0
    ensures EntitiesOk(WithCollisions(w, rolls))
  {
    if Pointing(w) {
      var c := w.cursor.value;
      EffectsAtHits(w.enemies, c, rolls);
      LabelsAtHits(w.enemies, c);
      var ts := w.texts + Labels(w.enemies, c);
      forall i | 0 <= i < |ts| ensures TextOk(ts[i]) {
        if i >= |w.texts| {
          var t := Labels(w.enemies, c)[i - |w.texts|];
          var j :| 0 <= j < |w.enemies| && Struck(w.enemies[j], c) && t.text == Label(w.enemies[j].kind);
          assert t == ts[i];
        }
      }
    }
  }

  /** A frame keeps the invariant. In particular, after a frame every
      particle, text and trail point is alive, every enemy is inside the view,
      reaching WIN_SCORE always means victory, and health stays in [0, 3]. */
  lemma {:induction false} FramePreservesInv(w: World, spawnRoll: real, xRoll: real, kindRoll: real, rolls: seq<real>)
    requires Inv(w) && EnoughRolls(w, rolls) && UnitRolls(spawnRoll, xRoll, kindRoll, rolls)
    ensures Inv(Frame(w, spawnRoll, xRoll, kindRoll, rolls))
  {
    if w.state == Playing {
      var speed := Speed(w.score);
      var w1 := WithTrail(w);
      TrailPhaseOk(w);
      var w2 := WithSpawn(w1, SpawnChance(w.score), spawnRoll, xRoll, kindRoll);
      SpawnPhaseOk(w1, SpawnChance(w.score), spawnRoll, xRoll, kindRoll);
      var w3 := WithAdvance(w2, speed);
      AdvancePhaseOk(w2, speed);
      assert StateOk(w3);
      var w4 := WithDamage(w3, Breached(w2.enemies, speed));
      DamagePhaseOk(w3, Breached(w2.enemies, speed));
      var w5 := WithAgeing(w4);
      AgeingPhaseOk(w4);
      CollisionPhaseOk(w5, rolls);
      CollisionStateOk(w5, rolls);
    }
  }

  /** Reaching WIN_SCORE within a frame always ends it in victory. */
  lemma {:induction false} FrameVictory(w: World, spawnRoll: real, xRoll: real, kindRoll: real, rolls: seq<real>)
    requires Inv(w) && EnoughRolls(w, rolls) && UnitRolls(spawnRoll, xRoll, kindRoll, rolls)
    requires w.state == Playing
    ensures var w' := Frame(w, spawnRoll, xRoll, kindRoll, rolls);
      w'.score >= WIN_SCORE <==> w'.state == Victory
  {
    FramePreservesInv(w, spawnRoll, xRoll, kindRoll, rolls);
  }

  // ---------------------------------------------------------------------
  // Facts about the phases, one at a time

  /** An enemy is newly marked dead exactly when the pointer is held over the
      container, the enemy was alive and it lies within the hit radius;
      nothing else about any enemy changes, and without a held pointer the
      phase changes nothing at all. */
  lemma CollisionMarks(w: World, rolls: seq<real>)
    requires BURST_ROLLS * |w.enemies| <= |rolls|
    ensures var r := WithCollisions(w, rolls);
      |r.enemies| == |w.enemies|
      && forall i :: 0 <= i < |w.enemies| ==>
           var e, e' := w.enemies[i], r.enemies[i];
           e'.x == e.x && e'.y == e.y && e'.kind == e.kind
           && (e'.dead && !e.dead <==>
                 w.isDown && w.cursor.Some? && !e.dead && SquaredDistance(e, w.cursor.value) < HIT_RADIUS_SQUARED)
           && (e.dead ==> e'.dead)
    ensures !Pointing(w) ==> WithCollisions(w, rolls) == w
  {
  }

  /** With the pointer held at `c`, the score grows by five per Major hit and
      one per Minor hit, and each hit adds eight particles and one text. */
  lemma {:induction false} CollisionTotals(w: World, rolls: seq<real>)
    requires BURST_ROLLS * |w.enemies| <= |rolls| && Pointing(w)
    ensures var r := WithCollisions(w, rolls);
      var c := w.cursor.value;
      var hits := Hits(w.enemies, c, Major) + Hits(w.enemies, c, Minor);
      r.score == w.score + 5 * Hits(w.enemies, c, Major) + Hits(w.enemies, c, Minor)
      && |r.particles| == |w.particles| + BURST_SIZE * hits
      && |r.texts| == |w.texts| + hits
      && r.particles[..|w.particles|] == w.particles
      && r.texts[..|w.texts|] == w.texts
  {
    GainByKind(w.enemies, w.cursor.value);
    EffectsCount(w.enemies, w.cursor.value, rolls);
  }

  /** Ageing adds nothing: each particle left is a particle of before, moved by
      its velocity, 0.06 less alive and still alive; every particle that stays
      alive is kept. Texts rise by 0.5 and lose 0.03; trail points lose 0.15. */
  lemma AgeingSurvivors(w: World)
    ensures var r := WithAgeing(w);
      |r.particles| <= |w.particles| && |r.texts| <= |w.texts| && |r.trail| <= |w.trail|
      && (forall j :: 0 <= j < |r.particles| ==> (r.particles[j].life > 0.0
            && exists i :: 0 <= i < |w.particles| && var p := w.particles[i];
                 r.particles[j] == p.(x := p.x + p.vx, y := p.y + p.vy, life := p.life - PARTICLE_DECAY)))
      && (forall j :: 0 <= j < |r.texts| ==> (r.texts[j].life > 0.0
            && exists i :: 0 <= i < |w.texts| && var t := w.texts[i];
                 r.texts[j] == t.(y := t.y - TEXT_DRIFT, life := t.life - TEXT_DECAY)))
      && (forall j :: 0 <= j < |r.trail| ==> (r.trail[j].life > 0.0
            && exists i :: 0 <= i < |w.trail| && var t := w.trail[i];
                 r.trail[j] == t.(life := t.life - TRAIL_DECAY)))
      && (forall i :: 0 <= i < |w.particles| && w.particles[i].life > PARTICLE_DECAY ==>
            AgeParticle(w.particles[i]) in r.particles)
      && (forall i :: 0 <= i < |w.texts| && w.texts[i].life > TEXT_DECAY ==>
            AgeText(w.texts[i]) in r.texts)
      && (forall i :: 0 <= i < |w.trail| && w.trail[i].life > TRAIL_DECAY ==>
            AgeTrail(w.trail[i]) in r.trail)
    ensures WithAgeing(w).(particles := w.particles, texts := w.texts, trail := w.trail) == w
  {  }

  /** The spawn appends at most one enemy: above the view, alive, within
      [10, 90) across, Major exactly when the kind roll exceeds 0.85. */
  lemma SpawnAppends(w: World, chance: real, spawnRoll: real, xRoll: real, kindRoll: real)
    requires 0.0 <= xRoll < 1.0
    ensures var r := WithSpawn(w, chance, spawnRoll, xRoll, kindRoll);
      if spawnRoll < chance then
        |r.enemies| == |w.enemies| + 1 && r.enemies[..|w.enemies|] == w.enemies
        && var e := r.enemies[|w.enemies|];
           e.y == SPAWN_Y && !e.dead && 10.0 <= e.x < 90.0 && (e.kind == Major <==> kindRoll > 0.85)
      else r == w
  {
  }

  /** A dead enemy scores nothing, explodes into nothing and leaves no label,
      wherever the pointer is. */
  lemma DeadNeverScores(e: Enemy, c: Point, part: seq<real>)
    requires e.dead && |part| == BURST_ROLLS
    ensures Reward(e, c) == 0 && Explosion(e, c, part) == [] && Tag(e, c) == []
    ensures Mark(e, c) == e
  {
  }

  /** A breach costs exactly one health and shakes the screen; reaching zero
      ends the game with health 0. */
  lemma DamageRule(w: World, damage: bool)
    requires w.health > 0
    ensures var r := WithDamage(w, damage);
      r.health == (if damage then w.health - 1 else w.health)
      && (r.state == GameOver <==> w.state == GameOver || (damage && w.health == 1))
      && (damage ==> r.shake == 10)
    ensures !damage ==> WithDamage(w, damage) == w
    ensures WithDamage(w, damage).(health := w.health, shake := w.shake, state := w.state) == w
  {
  }

  /** A held pointer appends one trail point at the cursor with full life;
      without one the state is unchanged, and nothing but the trail changes. */
  lemma TrailRule(w: World)
    ensures Pointing(w) ==>
      WithTrail(w).trail == w.trail + [TrailPoint(w.cursor.value.x, w.cursor.value.y, 1.0)]
    ensures !Pointing(w) ==> WithTrail(w) == w
    ensures WithTrail(w).(trail := w.trail) == w
  {
  }

  /** `startGame` empties enemies, particles and texts and starts a session
      with score 0 and health 3, keeping the trail. */
  lemma ResetRule(w: World)
    ensures var r := Reset(w);
      r.enemies == [] && r.particles == [] && r.texts == [] && r.score == 0 && r.health == 3
      && r.state == Playing && r.trail == w.trail && r.isDown == w.isDown && r.cursor == w.cursor
      && r.shake == w.shake
    ensures Reset(w).(enemies := w.enemies, particles := w.particles, texts := w.texts,
                      score := w.score, health := w.health, state := w.state) == w
  {
  }

  /** The menu is left only by starting a game and never re-entered. */
  lemma NoReturnToMenu(w: World, spawnRoll: real, xRoll: real, kindRoll: real, rolls: seq<real>)
    requires EnoughRolls(w, rolls)
    ensures Frame(w, spawnRoll, xRoll, kindRoll, rolls).state == Menu ==> w.state == Menu
    ensures Reset(w).state != Menu
  {
  }
}
