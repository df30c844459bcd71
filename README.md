# Neon Slash game engine, modelled in Dafny

This project models the game engine of the `GameSandbox` component in
`index.tsx`. Enemies fall down a container measured in percentages. The
player holds the pointer down and sweeps it across them. An enemy within 10
units of the held pointer dies, scores (+5 for the "👹" kind, +1 for the
"👺" kind), bursts into eight particles and leaves a floating label. A live
enemy that falls past the bottom costs one health. The game moves between
`menu`, `playing`, `gameover` and `victory`.

Files and modules:

- `entities.dfy`, module `Entities`: the `CONFIG` constants, the entity
  records (`Enemy`, `Particle`, `FloatingText`, `TrailPoint`), the game
  state enum, and the pure formulas. These are difficulty, the new enemy,
  the hit test, per-frame ageing, the explosion burst and pointer
  normalisation.
- `seqs.dfy`, module `Seqs`: `forEach` as `Map` and `Array.prototype.filter`
  as `Filter`. It proves that `Filter` keeps exactly the passing elements, in
  order, and that filtering twice is filtering once. `FilterLoop` computes
  the filter with a loop.
- `rules.dfy`, module `Rules`: the whole mutable state as one value, `World`.
  Each phase of `loop` is a function on it, in source order. `Frame` is one
  call of `loop`, `Reset` is `startGame`, and `Inv` is the invariant every
  reachable state keeps. The lemmas here state what one frame guarantees.
- `sandbox.dfy`, module `Sandbox`: class `GameSandbox`. Its fields are the
  refs and React state that the engine updates in place. Its methods are the
  input handlers, `startGame`, the two effect spawners and the frame step.
  They use loops where the source does: the burst `for`, the `forEach` passes,
  the `filter` callbacks and the collision `forEach`. Each method is proved
  to produce exactly a pure function of the old state: the frame phases,
  `startGame` and the frame step against `Rules` functions, the cursor
  update against `Entities.Normalize`, the burst loop against
  `Entities.Burst`, and `SpawnText` and `OnUp` as the literal field
  update. `Step` and the handlers also keep `Valid()`, which is `Inv` of the current state.
- `scenarios.dfy`, module `Scenarios`: concrete frames worked through by the
  rules. They cover an idle first frame, a breach, a breach by an enemy
  already dead, a hit at the pointer and a winning hit.

Randomness and the environment are parameters:

- `spawnRoll`, `xRoll` and `kindRoll` stand for the three `Math.random()`
  calls of the spawn.
- `rolls` is a sequence of random numbers for the explosions. The enemy at
  index k of the post-advance list draws from `rolls[16k .. 16k + 16]`:
  vx from an even position, vy from the next one.
- `UpdateCursor` and the handlers take the client coordinates and the
  container rectangle, or `None` when there is no container.

Coordinates and life are `real`. The hit test compares the squared distance
with 100. `Entities.SquaredDistanceTest` proves this is the same as comparing
the distance with 10.

On these points the model follows what the code does, which a reader might
not expect:

- Health drops by at most one per frame, however many live enemies breach.
  The filter only records a single `damage` flag.
- A dead enemy stays in the list and keeps falling until it passes y = 105.
- `startGame` does not clear the trail. It does not reset the shake either.
- Victory is checked only in a frame with a hit. The score only changes in
  such frames, so `Inv` still gives "state is victory exactly when the
  score is at least WIN_SCORE".
- The spawn chance has no cap. While playing, the score stays below 100, so
  the chance stays below 0.055.
- React state updates are modelled as synchronous, in source order. The
  health update and a possible switch to `gameover` happen before ageing
  and collisions. So a frame in which the last health is lost and a hit
  also reaches WIN_SCORE ends in `victory` with health 0. `Inv` allows this.

## Model

| member | source | states |
|---|---|---|
| Entities.Speed | index.tsx:134-135 | fall speed lies in [0.5, 2.2], never exceeds 0.5 + 0.02·score, equals it exactly when score ≤ 85, and equals MAX_SPEED above 85 |
| Entities.SpawnChanceMonotone | index.tsx:136 | the spawn chance grows strictly with the score, with no cap |
| Entities.SpeedMonotone | index.tsx:134-135 | a higher score never gives a lower speed |
| Entities.SpawnChance | index.tsx:136 | the spawn chance is at least 0.015 and, below WIN_SCORE, under 0.055 |
| Entities.NewEnemy | index.tsx:149-155 | a spawned enemy is at y = -15, alive, Major exactly when the kind roll exceeds 0.85, and at x in [10, 90) for a roll in [0, 1) |
| Entities.Label | index.tsx:212-213 | the floating label is "+5" exactly when the enemy scores 5 and "+1" exactly when it scores 1 |
| Entities.SquaredDistanceTest | index.tsx:205-206 | for the true distance d ≥ 0 from an enemy to the pointer, d < 10 holds exactly when the squared distance the hit test uses is under 100 |
| Entities.Mark | index.tsx:204-208 | after the hit test an enemy keeps position and kind and is dead exactly when it was dead or lies within the hit radius |
| Entities.Struck | index.tsx:204-206 | an enemy is hit when it is alive and within the hit radius; `Entities.SquaredDistanceTest` ties the squared comparison to `dist < 10`, and `Entities.Mark` and `Rules.CollisionMarks` state what a hit does to the enemy |
| Entities.Fall | index.tsx:161 | one frame's fall: `Rules.AdvanceSurvivors` states that the survivors are exactly the fallen enemies at y ≤ 105, and `Rules.FrameHealth` that a live one falling past costs one health |
| Entities.AgeParticle | index.tsx:182-186 | one frame of particle motion and decay: `Rules.AgeingSurvivors` states that every surviving particle is an aged earlier one and every aged one still alive survives |
| Entities.AgeText | index.tsx:189-192 | one frame of text drift and decay, with the same survivor statement in `Rules.AgeingSurvivors` |
| Entities.AgeTrail | index.tsx:195 | one frame of trail decay, with the same survivor statement in `Rules.AgeingSurvivors` |
| Entities.Points | index.tsx:213 | points per kind lie in [1, 5]; `Rules.GainByKind` states that a hit scores 5 for Major and 1 for Minor |
| Entities.Color | index.tsx:211 | the explosion colour per kind; `Rules.EffectsAtHits` states that each particle carries the colour of the enemy it came from |
| Entities.Reward | index.tsx:213 | the points one enemy adds to the score; `Rules.HitStep` and `Rules.GainPositive` state that the total is positive exactly when some enemy is struck |
| Entities.Explosion | index.tsx:211 | the burst one enemy adds; `Rules.ExplosionAt` states that it is empty unless the enemy is struck, and otherwise holds full-life particles at the enemy in its colour |
| Entities.Tag | index.tsx:212 | the label one enemy adds; `Rules.LabelsAtHits` states that every label sits at a struck enemy and shows its points |
| Entities.SquaredDistance | index.tsx:205 | the squared distance from an enemy to the pointer; `Entities.SquaredDistanceTest` states that it is under 100 exactly when the true distance is under 10 |
| Entities.OnScreen | index.tsx:162 | an enemy is kept while y ≤ 105; `Rules.AdvanceSurvivors` states that the survivors are exactly the fallen enemies passing it |
| Entities.Breaches | index.tsx:162-163 | a live enemy falling past y = 105; `Rules.SpawnNeverBreaches` states that a fresh enemy never does, and `Rules.FrameHealth` that a breach costs one health |
| Entities.Percent | index.tsx:237-238 | an offset as a percentage of a positive size maps back to the offset, and lies in [0, 100] exactly when the offset lies within the size |
| Entities.ParticleAlive | index.tsx:187 | the filter callback `life > 0` for particles; `Rules.AgeingSurvivors` states that the survivors are exactly the aged particles that pass it |
| Entities.TextAlive | index.tsx:193 | the filter callback `life > 0` for texts; `Rules.AgeingSurvivors` states that the survivors are exactly the aged texts that pass it |
| Entities.TrailAlive | index.tsx:196 | the filter callback `life > 0` for trail points; `Rules.AgeingSurvivors` states that the survivors are exactly the faded trail points that pass it |
| Entities.Velocity | index.tsx:112-113 | a particle velocity drawn from a roll in [0, 1) lies in [-1.5, 1.5) |
| Entities.Burst | index.tsx:106-118 | an explosion is 8 particles at (x, y) with life 1.0 and the given colour; with rolls in [0, 1) every velocity lies in [-1.5, 1.5) |
| Entities.Normalize | index.tsx:236-239 | the normalised point maps back to the client point through the rectangle, and lies in [0, 100] on an axis exactly when the client point lies inside the rectangle on that axis |
| Seqs.Map | index.tsx:182-195 | the `forEach` passes: the result has the input's length and rewrites each element in place by the callback |
| Seqs.Filter | index.tsx:187 | the filter result is no longer than its input, holds only passing elements of the input, and holds every passing element |
| Seqs.FilterIndices | index.tsx:187 | the filter result is the subsequence at strictly increasing positions, and those are exactly the positions of passing elements (survivors keep their relative order) |
| Seqs.FilterAllKept | index.tsx:193 | filtering a sequence whose elements all pass returns it unchanged |
| Seqs.FilterIdempotent | index.tsx:196 | pruning twice equals pruning once |
| Seqs.FilterLoop | index.tsx:187 | the loop computes exactly the filter |
| Rules.Initial | index.tsx:64-96 | the menu state before the first game; `Rules.InitialInv` and `Sandbox.GameSandbox.constructor` state that it is valid |
| Rules.Pointing | index.tsx:139 | the pointer is held and a cursor exists; `Rules.TrailRule` and `Rules.CollisionMarks` state that the trail and the hit test act only then |
| Rules.Fallen | index.tsx:161 | every enemy after one frame's fall; `Rules.AdvanceSurvivors` states which of them survive, and in what order |
| Rules.Breached | index.tsx:159-165 | the `damage` flag: `Sandbox.Advance` computes it in the filter loop, and `Rules.FrameHealth` states that health drops by one exactly when it is set |
| Rules.Marked | index.tsx:208 | the enemies after the hit test; `Rules.CollisionMarks` states that an enemy is newly dead exactly when it was alive and in range of the held pointer |
| Rules.AnyStruck | index.tsx:209 | the `hit` flag; `Rules.GainPositive` states that it holds exactly when the score gains something |
| Rules.Gain | index.tsx:213 | the score the hit test adds; `Rules.GainByKind` states that it is 5 per Major hit plus 1 per Minor hit, and `Rules.GainPositive` that it is positive exactly when some enemy is hit |
| Rules.Hits | index.tsx:213 | the number of hit enemies of a kind; `Rules.EffectsCount` states that each of them spawns 8 particles and 1 text |
| Rules.Effects | index.tsx:211 | the bursts of the hit test; `Rules.EffectsCount` gives their number and `Rules.EffectsAtHits` their position, colour, life and velocity |
| Rules.Labels | index.tsx:212 | the labels of the hit test; `Rules.EffectsCount` gives their number and `Rules.LabelsAtHits` their position, text and life |
| Rules.Frame | index.tsx:130-230 | one call of `loop`: `Rules.FrameOutsidePlay` (no change outside play), `Rules.FramePreservesInv` (the invariant is kept), `Rules.FrameHealth`, `Rules.FrameScore`, `Rules.FrameSpawnsAtMostOne` and `Rules.FrameVictory` state what it guarantees, and `Sandbox.GameSandbox.Step` is proved to compute it |
| Rules.Reset | index.tsx:268-276 | `startGame`: `Rules.ResetRule` states its field updates and what it keeps, `Rules.ResetInv` that its result is valid, and `Sandbox.GameSandbox.StartGame` is proved to compute it |
| Rules.WithTrail | index.tsx:138-145 | the trail push: `Rules.TrailRule` states what it appends and that nothing else changes, `Rules.TrailPhaseOk` that it keeps every entity valid, and `Sandbox.GameSandbox.ExtendTrail` is proved to compute it |
| Rules.WithSpawn | index.tsx:147-156 | the spawn: `Rules.SpawnAppends` states that one enemy with the spawn's fields is appended exactly when the roll is under the chance, `Rules.SpawnPhaseOk` that entities stay valid, and `Sandbox.GameSandbox.SpawnEnemy` computes it |
| Rules.WithAdvance | index.tsx:158-167 | the fall and cull: `Rules.AdvanceSurvivors` states which enemies survive and in what order, `Rules.AdvancePhaseOk` that they stay valid, and `Sandbox.GameSandbox.AdvanceEnemies` computes it |
| Rules.WithDamage | index.tsx:169-179 | the damage update: `Rules.DamageRule` states that exactly one health is lost, game over comes exactly with the last one and the shake is set, and `Rules.DamagePhaseOk` that health stays in [0, 3] |
| Rules.WithAgeing | index.tsx:181-196 | the ageing passes: `Rules.AgeingSurvivors` and `Rules.AgeingPhaseOk` state what survives and that it stays valid, and `Sandbox.GameSandbox.AgeEffects` computes it |
| Rules.WithCollisions | index.tsx:198-220 | the hit test and victory check: `Rules.CollisionMarks`, `Rules.CollisionTotals`, `Rules.CollisionStateOk` and `Rules.CollisionPhaseOk` state its effect, and `Sandbox.GameSandbox.Collide` computes it |
| Rules.Descend | index.tsx:133-179 | difficulty, trail, spawn, advance and damage together add at most one enemy |
| Rules.InitialInv | index.tsx:64-68 | the initial menu state (score 0, health 3, nothing on screen) satisfies the invariant |
| Rules.ResetInv | index.tsx:268-276 | starting a game from any reachable state gives a state satisfying the invariant |
| Rules.GainPositive | index.tsx:201-217 | the hit test scores something exactly when it hits some enemy, which is the `hit` flag |
| Rules.GainByKind | index.tsx:213 | the score gained is 5 per Major hit plus 1 per Minor hit |
| Rules.EffectsCount | index.tsx:211-212 | the hit test spawns 8 particles and 1 text per hit enemy |
| Rules.ExplosionAt | index.tsx:106-118 | the particles of one enemy's explosion exist only when it is struck, and each has full life, bounded velocity, and the enemy's position and colour |
| Rules.HitStep | index.tsx:203-214 | after enemy i the score, particles and texts are the totals over es[..i+1], and "some enemy was hit" extends by enemy i |
| Rules.SpawnedByHit | index.tsx:211 | a particle as a hit spawns it: full life, bounded velocity, at a struck enemy's position in its colour; `Rules.EffectsAtHits` states it of every spawned particle |
| Rules.SpawnedByHitPrefix | index.tsx:203-211 | a particle spawned by a hit among the first k enemies is spawned by a hit among all of them |
| Rules.EffectsAtHits | index.tsx:106-118 | every spawned particle has life 1.0 and bounded velocity, and sits at a hit enemy's position in that enemy's colour |
| Rules.LabelsAtHits | index.tsx:120-122 | every spawned text has life 1.0 and sits at a hit enemy's position showing that enemy's points |
| Rules.NoRescore | index.tsx:203-204 | a second hit test at the same pointer scores nothing and leaves the enemies as they are |
| Rules.DeadNeverScores | index.tsx:204 | a dead enemy, at any pointer, scores nothing, spawns no particles or label and stays as it is |
| Rules.FrameOutsidePlay | index.tsx:131 | a frame outside `playing` changes nothing |
| Rules.AdvanceSurvivors | index.tsx:160-167 | the survivors of the advance are exactly the fallen enemies whose new y is ≤ 105, in their original order |
| Rules.SpawnNeverBreaches | index.tsx:148-167 | the enemy spawned this frame never breaches, so damage depends only on the enemies present before |
| Rules.FrameHealth | index.tsx:159-179 | during play a frame lowers health by exactly 1 when some live enemy falls past 105, and otherwise leaves it unchanged |
| Rules.FrameSpawnsAtMostOne | index.tsx:147-156 | a frame adds at most one enemy |
| Rules.FrameScore | index.tsx:199-215 | a frame never lowers the score, and leaves it unchanged when the pointer is not held |
| Rules.TrailRule | index.tsx:138-145 | a held pointer with a cursor appends exactly one trail point at the cursor with life 1.0; otherwise the state is unchanged; no field but the trail ever changes |
| Rules.TrailPhaseOk | index.tsx:139-145 | the trail extension keeps every entity within its invariant |
| Rules.SpawnPhaseOk | index.tsx:148-156 | the spawn keeps every entity within its invariant |
| Rules.AdvancePhaseOk | index.tsx:160-167 | after the advance every enemy is at y ≤ 105 and still within [10, 90) across |
| Rules.DamagePhaseOk | index.tsx:169-179 | damage during play keeps health in [0, 3], and health 0 means game over |
| Rules.AgeingPhaseOk | index.tsx:182-196 | after ageing every particle, text and trail point has life in (0, 1] |
| Rules.CollisionStateOk | index.tsx:199-220 | the hit test keeps the state rules: a hit reaching WIN_SCORE means victory, and without a hit the score stays below it |
| Rules.CollisionPhaseOk | index.tsx:199-215 | the hit test adds only particles and texts that satisfy the invariant |
| Rules.FramePreservesInv | index.tsx:130-230 | one frame keeps the invariant: health in [0, 3]; victory exactly when score ≥ WIN_SCORE; game over implies health 0; enemies within the view; all effects alive |
| Rules.FrameVictory | index.tsx:217-220 | after any frame from play, the state is victory exactly when the score has reached WIN_SCORE |
| Rules.CollisionMarks | index.tsx:199-215 | an enemy is newly marked dead exactly when the pointer is held and present, the enemy was alive and within the hit radius; dead stays dead; without a held pointer nothing changes |
| Rules.CollisionTotals | index.tsx:203-215 | with the pointer held, the score grows by 5·Major hits + 1·Minor hits, 8 particles and 1 text are appended per hit, and the earlier effects are kept |
| Rules.AgeingSurvivors | index.tsx:182-196 | ageing adds nothing; each survivor is an earlier entity moved by (vx, vy) or up by 0.5 and 0.06, 0.03 or 0.15 less alive, still alive; every entity that stays alive is kept; no field but particles, texts and trail changes |
| Rules.SpawnAppends | index.tsx:147-156 | the spawn appends one enemy (y = -15, alive, x in [10, 90), Major iff roll > 0.85) when the roll is under the chance, and otherwise changes nothing |
| Rules.DamageRule | index.tsx:169-179 | damage lowers health by exactly 1, is game over exactly when the last health is lost, and shakes the screen; without damage nothing changes, and no field but health, shake and state ever changes |
| Rules.ResetRule | index.tsx:268-276 | startGame empties enemies, particles and texts, sets score 0, health 3 and playing, and keeps the trail, the pointer and the shake; no other field changes |
| Rules.NoReturnToMenu | index.tsx:131 | no frame enters the menu, and starting a game never leaves the state in the menu |
| Sandbox.GameSandbox.constructor | index.tsx:64-96 | the component starts in the menu state with everything empty, and that state is valid |
| Sandbox.GameSandbox.UpdateCursor | index.tsx:233-240 | the cursor becomes the normalised client point, or is left unchanged when there is no container |
| Sandbox.GameSandbox.OnDown | index.tsx:242-248 | pressing sets the held flag and updates the cursor |
| Sandbox.GameSandbox.OnMove | index.tsx:249-255 | moving updates the cursor only while the pointer is held |
| Sandbox.GameSandbox.OnUp | index.tsx:256-258 | releasing clears the held flag and keeps the last cursor |
| Sandbox.GameSandbox.StartGame | index.tsx:268-276 | the new state is the reset of the old one, and it is valid |
| Sandbox.GameSandbox.SpawnExplosion | index.tsx:106-118 | the loop appends exactly the explosion's 8 particles |
| Sandbox.GameSandbox.SpawnText | index.tsx:120-122 | one text with life 1.0 is appended |
| Sandbox.GameSandbox.ExtendTrail | index.tsx:138-145 | a held pointer appends a trail point with life 1.0, and nothing else changes |
| Sandbox.GameSandbox.SpawnEnemy | index.tsx:147-156 | the new state is the spawn phase of the old one |
| Sandbox.Advance | index.tsx:160-167 | the filter callback run over the enemies keeps exactly the on-screen fallen enemies in order, and `damage` is exactly "some live enemy breached" |
| Sandbox.GameSandbox.AdvanceEnemies | index.tsx:158-167 | the enemy list becomes the advance phase of the old state, and `damage` is exactly "some live enemy breached" |
| Sandbox.GameSandbox.ApplyDamage | index.tsx:169-179 | the new state is the damage phase of the old one |
| Sandbox.GameSandbox.AgeParticles | index.tsx:182-187 | the forEach and filter leave exactly the aged particles that are still alive |
| Sandbox.GameSandbox.AgeTexts | index.tsx:189-193 | the forEach and filter leave exactly the aged texts that are still alive |
| Sandbox.GameSandbox.AgeTrailPoints | index.tsx:195-196 | the forEach and filter leave exactly the faded trail points that are still alive |
| Sandbox.GameSandbox.AgeEffects | index.tsx:181-196 | the new state is the ageing phase of the old one |
| Sandbox.GameSandbox.HitOne | index.tsx:204-214 | one enemy's hit test marks it dead, spawns its burst and label and adds its points exactly when it is alive and within the hit radius |
| Sandbox.GameSandbox.HitTest | index.tsx:199-215 | the loop over all enemies yields the marked enemies, the score gain, the bursts and labels of the hit ones, and the hit flag |
| Sandbox.GameSandbox.Collide | index.tsx:198-221 | the new state is the collision phase of the old one: victory when a hit brings the score to WIN_SCORE |
| Sandbox.GameSandbox.Descend | index.tsx:133-179 | difficulty, trail, spawn, advance and damage leave the state produced by the first five phases |
| Sandbox.GameSandbox.Step | index.tsx:130-230 | one call of loop leaves exactly the frame's new state and keeps the invariant |
| Scenarios.IdleFirstFrame | index.tsx:130-230 | a fresh game with no input and no spawn stays playing with score 0, health 3 and nothing on screen |
| Scenarios.BreachCostsOneHealth | index.tsx:158-179 | a live Minor enemy at y = 104.9 falling at speed 1.0 is removed and health drops from 3 to 2 |
| Scenarios.DeadEnemyBreachIsFree | index.tsx:162-163 | a dead enemy leaving the view costs no health |
| Scenarios.HitAtPointer | index.tsx:199-215 | at the pointer a Minor enemy dies, the score becomes 1, 8 particles and one "+1" text appear |
| Scenarios.MajorHitWins | index.tsx:213-219 | a Major hit at score 95 brings the score to 100 and victory |

## Left out

- Rendering: the page shell, the HUD, the SVGs, the menus and the screen-shake
  transform are presentation only. The per-frame render copies
  (`setRenderEnemies` and the others) are plain copies of the four
  collections, so the model's collections stand in for them.
- The displayed score (`setScore`) always equals the score counter at the
  points where it is set. It is not a separate field.
- Frame scheduling: `requestAnimationFrame`, `cancelAnimationFrame` and the
  `useEffect` lifecycle are host scheduling. The model is given one frame
  per `Step` call.
- The `setTimeout` that clears the shake after 300 ms: the model sets the
  shake to 10 and never clears it.
- React's batching of state updates, and the stale `gameState` captured by
  the `loop` closure. Updates are applied synchronously in source order.
- Entity ids (`Math.random()` and `Date.now()`): they only serve as
  rendering keys, so entities carry no id.
- `Math.random()` itself: each draw is a parameter.
- `getBoundingClientRect` and the DOM event objects: the rectangle and the
  coordinates are parameters. The `e.clientX || e.touches[0].clientX`
  fallback, which treats a coordinate of 0 as missing, is not modelled.
- Sandbox.GameSandbox.UpdateCursor, Sandbox.GameSandbox.OnDown and
  Sandbox.GameSandbox.OnMove: require a container of positive width and
  height. With a zero-size container the source divides by zero and
  gets Infinity or NaN, which `real` cannot represent.
- IEEE floating-point rounding: coordinates, speeds, chances and lives are
  exact reals. The distance test uses the squared distance instead of
  `Math.sqrt`.
- `GRAVITY` is declared in `CONFIG` but never read. It is kept as a
  constant only.
