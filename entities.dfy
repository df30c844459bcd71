/** The game's values: the tuning constants, the four kinds of entity, the
    pointer and the pure formulas (difficulty, spawning, ageing, hit test,
    pointer normalisation) the frame step applies to them. */
module Entities {

  datatype Option<T> = None | Some(value: T)

  // CONFIG. GRAVITY is declared with the others but nothing reads it.
  const START_SPEED: real := 0.5
  const MAX_SPEED: real := 2.2
  const WIN_SCORE: nat := 100
  const GRAVITY: real := 0.25

  /** Enemies spawn above the view and are culled once they fall below it. */
  const SPAWN_Y: real := -15.0
  const CULL_Y: real := 105.0

  /** A pointer within this distance of an enemy hits it; compared squared. */
  const HIT_RADIUS_SQUARED: real := 100.0

  /** Per-frame life lost by each kind of effect, and the upward text drift. */
  const PARTICLE_DECAY: real := 0.06
  const TEXT_DECAY: real := 0.03
  const TRAIL_DECAY: real := 0.15
  const TEXT_DRIFT: real := 0.5

  /** Particles per explosion, and the random numbers one explosion draws. */
  const BURST_SIZE: nat := 8
  const BURST_ROLLS: nat := 16

  datatype GameState = Menu | Playing | GameOver | Victory

  /** The two enemy glyphs: "👹" is Major, "👺" is Minor. */
  datatype Kind = Major | Minor

  /** All positions are percentages of the game container. */
  datatype Point = Point(x: real, y: real)

  datatype Enemy = Enemy(x: real, y: real, kind: Kind, dead: bool)
  datatype Particle = Particle(x: real, y: real, vx: real, vy: real, life: real, color: string)
  datatype FloatingText = FloatingText(x: real, y: real, text: string, life: real)
  datatype TrailPoint = TrailPoint(x: real, y: real, life: real)

  /** The container's bounding rectangle in client coordinates. */
  datatype Rect = Rect(left: real, top: real, width: real, height: real)

  /** Points scored for hitting an enemy. */
  function Points(k: Kind): (n: nat)
    ensures 1 <= n <= 5
  {
    if k == Major then 5 else 1
  }

  /** The colour of an enemy's explosion. */
  function Color(k: Kind): string
  {
    if k == Major then "#ef4444" else "#22d3ee"
  }

  /** The floating label shown where an enemy was hit: the points it gave. */
  function Label(k: Kind): (s: string)
    ensures s == "+5" <==> Points(k) == 5
    ensures s == "+1" <==> Points(k) == 1
  {
    if k == Major then "+5" else "+1"
  }

  /** Fall speed at a score: grows by 0.02 per point from START_SPEED and is
      capped at MAX_SPEED, which it reaches at score 85. */
  function Speed(score: nat): (r: real)
    ensures START_SPEED <= r <= MAX_SPEED
    ensures r <= START_SPEED + score as real * 0.02
    ensures score <= 85 <==> r == START_SPEED + score as real * 0.02
    ensures score > 85 ==> r == MAX_SPEED
  {
    var s := START_SPEED + score as real * 0.02;
    if s > MAX_SPEED then MAX_SPEED else s
  }

  lemma SpeedMonotone(a: nat, b: nat)
    requires a <= b
    ensures Speed(a) <= Speed(b)
  {
  }

  /** Chance per frame that an enemy spawns; it is not capped. */
  function SpawnChance(score: nat): (r: real)
    ensures r >= 0.015
    ensures score < WIN_SCORE ==> r < 0.055
  {
    0.015 + score as real * 0.0004
  }

  /** The spawn chance grows strictly with every point scored: it has no cap. */
  lemma SpawnChanceMonotone(a: nat, b: nat)
    requires a < b
    ensures SpawnChance(a) < SpawnChance(b)
  {
  }

  /** The enemy a spawn creates from two random numbers in [0, 1). */
  function NewEnemy(xRoll: real, kindRoll: real): (e: Enemy)
    ensures e.y == SPAWN_Y && !e.dead
    ensures e.kind == Major <==> kindRoll > 0.85
    ensures 0.0 <= xRoll < 1.0 ==> 10.0 <= e.x < 90.0
  {
    Enemy(10.0 + xRoll * 80.0, SPAWN_Y, if kindRoll > 0.85 then Major else Minor, false)
  }

  /** One frame of fall: only the height changes. */
  function Fall(e: Enemy, speed: real): Enemy
  {
    e.(y := e.y + speed)
  }

  predicate OnScreen(e: Enemy)
  {
    e.y <= CULL_Y
  }

  /** A live enemy that falls past the bottom this frame costs health. */
  predicate Breaches(e: Enemy, speed: real)
  {
    !e.dead && !OnScreen(Fall(e, speed))
  }

  function SquaredDistance(e: Enemy, c: Point): real
  {
    (e.x - c.x) * (e.x - c.x) + (e.y - c.y) * (e.y - c.y)
  }

  /** The hit test compares the squared distance from `e` to `c` with 100;
      for the true distance `dist` this is comparing `dist` with 10. */
  lemma SquaredDistanceTest(e: Enemy, c: Point, dist: real)
    requires dist >= 0.0 && dist * dist == SquaredDistance(e, c)
    ensures dist < 10.0 <==> SquaredDistance(e, c) < HIT_RADIUS_SQUARED
  {
    if dist >= 10.0 {
      assert dist * dist >= 10.0 * dist >= 100.0;
    } else {
      assert dist * dist <= 10.0 * dist < 100.0;
    }
  }

  /** An enemy the pointer at `c` hits: alive and within the hit radius. */
  predicate Struck(e: Enemy, c: Point)
  {
    !e.dead && SquaredDistance(e, c) < HIT_RADIUS_SQUARED
  }

  /** The enemy after the hit test at `c`. */
  function Mark(e: Enemy, c: Point): (r: Enemy)
    ensures r.x == e.x && r.y == e.y && r.kind == e.kind
    ensures r.dead <==> e.dead || SquaredDistance(e, c) < HIT_RADIUS_SQUARED
  {
    if Struck(e, c) then e.(dead := true) else e
  }

  /** What hitting `e` at `c` adds: its points, its explosion drawn from
      `rolls`, and its label; nothing when it is not struck. */
  function Reward(e: Enemy, c: Point): nat
  {
    if Struck(e, c) then Points(e.kind) else 0
  }

  function Explosion(e: Enemy, c: Point, rolls: seq<real>): seq<Particle>
    requires |rolls| == BURST_ROLLS
  {
    if Struck(e, c) then Burst(e.x, e.y, Color(e.kind), rolls) else []
  }

  function Tag(e: Enemy, c: Point): seq<FloatingText>
  {
    if Struck(e, c) then [FloatingText(e.x, e.y, Label(e.kind), 1.0)] else []
  }

  function AgeParticle(p: Particle): (q: Particle)
  {
    p.(x := p.x + p.vx, y := p.y + p.vy, life := p.life - PARTICLE_DECAY)
  }

  function AgeText(t: FloatingText): FloatingText
  {
    t.(y := t.y - TEXT_DRIFT, life := t.life - TEXT_DECAY)
  }

  function AgeTrail(t: TrailPoint): TrailPoint
  {
    t.(life := t.life - TRAIL_DECAY)
  }

  predicate ParticleAlive(p: Particle) { p.life > 0.0 }
  predicate TextAlive(t: FloatingText) { t.life > 0.0 }
  predicate TrailAlive(t: TrailPoint) { t.life > 0.0 }

  /** The velocity component drawn from one random number. */
  function Velocity(roll: real): (v: real)
    ensures 0.0 <= roll < 1.0 ==> -1.5 <= v < 1.5
  {
    (roll - 0.5) * 3.0
  }

  /** The eight particles of one explosion at (x, y); particle i takes its
      velocity from rolls 2i (vx) and 2i + 1 (vy). */
  function Burst(x: real, y: real, color: string, rolls: seq<real>): (r: seq<Particle>)
    requires |rolls| == BURST_ROLLS
    ensures |r| == BURST_SIZE
    ensures forall i :: 0 <= i < |r| ==>
      r[i].x == x && r[i].y == y && r[i].life == 1.0 && r[i].color == color
    ensures (forall k :: 0 <= k < |rolls| ==> 0.0 <= rolls[k] < 1.0) ==>
      forall i :: 0 <= i < |r| ==> -1.5 <= r[i].vx < 1.5 && -1.5 <= r[i].vy < 1.5
  {
    seq(BURST_SIZE, i requires 0 <= i < BURST_SIZE =>
      Particle(x, y, Velocity(rolls[2 * i]), Velocity(rolls[2 * i + 1]), 1.0, color))
  }

  /** Offset `v - lo` as a percentage of `size`: it maps back to `v`, and it
      lies in [0, 100] exactly when `v` lies in [lo, lo + size]. */
  function Percent(v: real, lo: real, size: real): (r: real)
    requires size > 0.0
    ensures lo + r * size / 100.0 == v
    ensures 0.0 <= r <= 100.0 <==> lo <= v <= lo + size
  {
    var q := (v - lo) / size;
    assert q * size == v - lo;
    assert q >= 0.0 <==> v - lo >= 0.0 by {
      if q < 0.0 { assert q * size < 0.0; }
      if q >= 0.0 { assert q * size >= 0.0; }
    }
    assert q <= 1.0 <==> v - lo <= size by {
      if q > 1.0 { assert (q - 1.0) * size > 0.0; }
      if q <= 1.0 { assert (1.0 - q) * size >= 0.0; }
    }
    q * 100.0
  }

  /** Client coordinates as percentages of the rectangle. */
  function Normalize(clientX: real, clientY: real, rect: Rect): (p: Point)
    requires rect.width > 0.0 && rect.height > 0.0
    ensures rect.left + p.x * rect.width / 100.0 == clientX
    ensures rect.top + p.y * rect.height / 100.0 == clientY
    ensures 0.0 <= p.x <= 100.0 <==> rect.left <= clientX <= rect.left + rect.width
    ensures 0.0 <= p.y <= 100.0 <==> rect.top <= clientY <= rect.top + rect.height
  {
    Point(Percent(clientX, rect.left, rect.width), Percent(clientY, rect.top, rect.height))
  }
}
