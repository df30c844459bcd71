/** Concrete frames of the game, worked through by the frame rules. */
module Scenarios {
  import opened Entities
  import opened Rules
  import Seqs

  /** Random numbers for the explosions of up to two enemies. */
  const Rolls: seq<real> := seq(2 * BURST_ROLLS, _ => 0.5)

  /** A fresh game with no input and a spawn roll above the chance: the frame
      changes nothing. */
  lemma IdleFirstFrame()
    ensures Frame(Reset(Initial()), 0.99, 0.5, 0.5, Rolls) == Reset(Initial())
  {
  }

  /** A live Minor enemy at height 104.9 falling at speed 1.0 (score 25) leaves
      the view: it is removed and health drops from 3 to 2. */
  lemma BreachCostsOneHealth()
    ensures var w := World(Playing, 25, 3, 0, false, None, [Enemy(50.0, 104.9, Minor, false)], [], [], []);
      var r := Frame(w, 0.99, 0.5, 0.5, Rolls);
      r.enemies == [] && r.health == 2 && r.state == Playing && r.shake == 10
  {
    assert Speed(25) == 1.0;
  }

  /** The same enemy already dead leaves the view without costing health. */
  lemma DeadEnemyBreachIsFree()
    ensures var w := World(Playing, 25, 3, 0, false, None, [Enemy(50.0, 104.9, Minor, true)], [], [], []);
      var r := Frame(w, 0.99, 0.5, 0.5, Rolls);
      r.enemies == [] && r.health == 3
  {
    assert Speed(25) == 1.0;
  }

  /** The held pointer exactly where a Minor enemy has fallen to: the enemy
      dies, the score gains 1, eight particles and one "+1" text appear, and
      the trail holds the pointer's point after one frame of fading. */
  lemma HitAtPointer()
    ensures var w := World(Playing, 0, 3, 0, true, Some(Point(50.0, 40.0)), [Enemy(50.0, 39.5, Minor, false)], [], [], []);
      var r := Frame(w, 0.99, 0.5, 0.5, Rolls);
      r.enemies == [Enemy(50.0, 40.0, Minor, true)] && r.score == 1 && r.state == Playing
      && |r.particles| == 8 && r.texts == [FloatingText(50.0, 40.0, "+1", 1.0)]
      && r.trail == [TrailPoint(50.0, 40.0, 0.85)]
  {
    var c := Point(50.0, 40.0);
    var e := Enemy(50.0, 39.5, Minor, false);
    var w := World(Playing, 0, 3, 0, true, Some(c), [e], [], [], []);
    var w2 := WithSpawn(WithTrail(w), SpawnChance(0), 0.99, 0.5, 0.5);
    assert w2 == w.(trail := [TrailPoint(50.0, 40.0, 1.0)]);
    var fallen := Fallen(w2.enemies, 0.5);
    assert |fallen| == 1 && fallen[0] == Enemy(50.0, 40.0, Minor, false);
    assert fallen == [Enemy(50.0, 40.0, Minor, false)];
    assert !Breached(w2.enemies, 0.5);
    var d := WithAdvance(w2, 0.5);
    assert d == Descend(w, 0.99, 0.5, 0.5);
    assert d.enemies == [Enemy(50.0, 40.0, Minor, false)];
    var m := Seqs.Map(d.trail, AgeTrail);
    assert |m| == 1 && m[0] == AgeTrail(d.trail[0]);
    assert m == [TrailPoint(50.0, 40.0, 0.85)];
    var a := WithAgeing(d);
    assert a.trail == [TrailPoint(50.0, 40.0, 0.85)] && a.particles == [] && a.texts == [];
    assert a.enemies == d.enemies;
    assert Struck(a.enemies[0], c);
    assert a.enemies[..0] == [];
    assert Labels(a.enemies, c) == [FloatingText(50.0, 40.0, "+1", 1.0)];
    var mk := Marked(a.enemies, c);
    assert |mk| == 1 && mk[0] == Enemy(50.0, 40.0, Minor, true);
    assert mk == [Enemy(50.0, 40.0, Minor, true)];
    assert |Effects(a.enemies, c, Rolls)| == 8;
    assert Gain(a.enemies, c) == 1;
  }

  /** A Major hit at score 95 reaches WIN_SCORE and wins. */
  lemma MajorHitWins()
    ensures var w := World(Playing, 95, 3, 0, true, Some(Point(50.0, 40.0)), [Enemy(50.0, 38.0, Major, false)], [], [], []);
      var r := Frame(w, 0.99, 0.5, 0.5, Rolls);
      r.score == 100 && r.state == Victory
  {
    var w := World(Playing, 95, 3, 0, true, Some(Point(50.0, 40.0)), [Enemy(50.0, 38.0, Major, false)], [], [], []);
    assert Speed(95) == MAX_SPEED;
    var d := Descend(w, 0.99, 0.5, 0.5);
    assert d.enemies == [Enemy(50.0, 40.2, Major, false)];
    assert Struck(d.enemies[0], Point(50.0, 40.0));
  }
}
