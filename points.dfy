/**
 * The points engine: score_points in app.py.
 *
 * Similarity is only ever compared against constants, so it is a `real`.
 * The one random draw (`random.random()`, a value in [0, 1)) is a parameter,
 * and it is only looked at when the similarity reaches the top tier.
 */
module Points {

  /** Probability threshold for a critical hit: the draw must be below it. */
  const CritChance: real := 0.1
  /** Streak length from which the 1.5x combo multiplier applies. */
  const ComboStreak: nat := 5

  /** The tiered base award: 15, 10 or 5 at 0.85, 0.7 and 0.5; nothing below 0.5. */
  function Tier(sim: real): (base: nat)
    ensures base == 15 <==> 0.85 <= sim
    ensures base == 10 <==> 0.7 <= sim < 0.85
    ensures base == 5 <==> 0.5 <= sim < 0.7
    ensures base == 0 <==> sim < 0.5
  {
    if sim >= 0.85 then 15
    else if sim >= 0.7 then 10
    else if sim >= 0.5 then 5
    else 0
  }

  /** The short-circuit `sim >= 0.85 and random.random() < 0.1`: only a top-tier answer can hit. */
  function CriticalHit(sim: real, draw: real): (hit: bool)
    ensures hit ==> Tier(sim) == 15
  {
    sim >= 0.85 && draw < CritChance
  }

  /** `int(n * 1.5)` for a non-negative n: the largest integer not above 1.5 * n. */
  function Combo(n: nat): (r: nat)
    ensures r as real <= 1.5 * n as real < (r + 1) as real
  {
    n * 3 / 2
  }

  /** The award for one graded answer, given the streak before it and the random draw. */
  function ScorePoints(sim: real, streak: nat, draw: real): (pts: nat)
    ensures pts == 0 <==> sim < 0.5
    ensures sim >= 0.5 ==> Tier(sim) + 2 * streak <= pts <= 2 * (Tier(sim) + 2 * streak)
  {
    var base := Tier(sim);
    if base == 0 then 0
    else
      var bonus := streak * 2;
      if CriticalHit(sim, draw) then (base + bonus) * 2
      else if streak >= ComboStreak then Combo(base + bonus)
      else base + bonus
  }

  /** Below 0.5 nothing is awarded whatever the streak, and the draw is never consulted. */
  lemma NothingBelowHalf(sim: real, streak: nat, draw: real, draw': real)
    requires sim < 0.5
    ensures ScorePoints(sim, streak, draw) == 0 == ScorePoints(sim, streak, draw')
  {
  }

  /** Below the top tier the draw cannot change the award. */
  lemma DrawOnlyAtTopTier(sim: real, streak: nat, draw: real, draw': real)
    requires sim < 0.85
    ensures ScorePoints(sim, streak, draw) == ScorePoints(sim, streak, draw')
  {
  }

  /** Without a critical hit and before the combo streak, the award is the tier base plus twice the streak. */
  lemma PlainAward(sim: real, streak: nat, draw: real)
    requires sim >= 0.5 && !CriticalHit(sim, draw) && streak < ComboStreak
    ensures ScorePoints(sim, streak, draw) == Tier(sim) + 2 * streak
  {
  }

  /** A critical hit doubles base plus bonus and the combo multiplier is not applied. */
  lemma CriticalAward(sim: real, streak: nat, draw: real)
    requires CriticalHit(sim, draw)
    ensures ScorePoints(sim, streak, draw) == 2 * (15 + 2 * streak)
  {
  }

  /** Without a critical hit, from the combo streak on, the award is 1.5 times base plus bonus, truncated. */
  lemma ComboAward(sim: real, streak: nat, draw: real)
    requires sim >= 0.5 && !CriticalHit(sim, draw) && streak >= ComboStreak
    ensures var n := Tier(sim) + 2 * streak;
            var pts := ScorePoints(sim, streak, draw);
            pts as real <= 1.5 * n as real < (pts + 1) as real && n <= pts
  {
  }

  /** An award of 25 or more needs a critical hit or a combo streak: plain tiers top out at 15 + 2 * 4. */
  lemma HighAwardNeedsCritOrCombo(sim: real, streak: nat, draw: real)
    requires ScorePoints(sim, streak, draw) >= 25
    ensures CriticalHit(sim, draw) || streak >= ComboStreak
  {
  }

  /** Worked values: each tier at streak 0, a forced and a suppressed critical hit, and the combo at streak 5. */
  lemma WorkedAwards()
    ensures ScorePoints(0.6, 0, 0.5) == 5
    ensures ScorePoints(0.75, 0, 0.05) == 10
    ensures ScorePoints(0.9, 0, 0.5) == 15
    ensures ScorePoints(0.9, 0, 0.05) == 30
    ensures ScorePoints(0.7, 5, 0.05) == 30
    ensures ScorePoints(0.95, 2, 0.05) == 38
  {
  }
}
