/**
 * Level arithmetic: a user's level is derived from their experience points.
 * The source computes floor(sqrt(xp / 100)) + 1 in floating point; for an
 * integer xp >= 0 this equals ISqrt(xp / 100) + 1 with integer division,
 * because floor(sqrt(x)) == floor(sqrt(floor(x))) for every x >= 0.
 */
module XpLevel {

  /** XP per squared level step. */
  const XP_UNIT: nat := 100

  /** Integer square root: the largest r with r * r <= n. */
  function ISqrt(n: nat): (r: nat)
    ensures r * r <= n < (r + 1) * (r + 1)
    decreases n
  {
    if n == 0 then 0
    else
      var s := ISqrt(n / 4);
      // s * s <= n / 4 < (s + 1) * (s + 1), so (2s)^2 <= n < (2s + 2)^2
      SqrtStep(n, s);
      if (2 * s + 1) * (2 * s + 1) <= n then 2 * s + 1 else 2 * s
  }

  lemma SqrtStep(n: nat, s: nat)
    requires s * s <= n / 4 < (s + 1) * (s + 1)
    ensures (2 * s) * (2 * s) <= n < (2 * s + 2) * (2 * s + 2)
  {
    assert (2 * s) * (2 * s) == 4 * (s * s);
    assert (2 * s + 2) * (2 * s + 2) == 4 * ((s + 1) * (s + 1));
    assert n < 4 * (n / 4) + 4;
  }

  /** Squaring is monotone on naturals. */
  lemma SquareMonotone(a: nat, b: nat)
    requires a <= b
    ensures a * a <= b * b
    ensures XP_UNIT * a * a <= XP_UNIT * b * b
  {
    assert a * a <= a * b <= b * b;
    assert XP_UNIT * a * a == XP_UNIT * (a * a);
    assert XP_UNIT * b * b == XP_UNIT * (b * b);
  }

  /**
   * calculateLevel: the level is at least 1 and is the unique L whose
   * threshold band [100 (L-1)^2, 100 L^2) contains xp.
   */
  function CalculateLevel(xp: nat): (level: nat)
    ensures level >= 1
    ensures XP_UNIT * (level - 1) * (level - 1) <= xp < XP_UNIT * level * level
  {
    var k := ISqrt(xp / XP_UNIT);
    LevelBand(xp, k);
    k + 1
  }

  /** The band of the integer root of xp / 100, scaled back to XP. */
  lemma LevelBand(xp: nat, k: nat)
    requires k * k <= xp / XP_UNIT < (k + 1) * (k + 1)
    ensures XP_UNIT * k * k <= xp < XP_UNIT * (k + 1) * (k + 1)
  {
    var q := xp / XP_UNIT;
    var sq, sq1 := k * k, (k + 1) * (k + 1);
    assert XP_UNIT * k * k == XP_UNIT * sq;
    assert XP_UNIT * (k + 1) * (k + 1) == XP_UNIT * sq1;
    assert XP_UNIT * q <= xp < XP_UNIT * q + XP_UNIT;
    assert q + 1 <= sq1;
  }

  /** xpForNextLevel: the XP at which a user of the given level reaches the next one. */
  function XpForNextLevel(currentLevel: nat): (xp: nat)
    ensures currentLevel >= 1 ==> xp >= XP_UNIT
  {
    currentLevel * currentLevel * XP_UNIT
  }

  /** The integer part of xpProgress (the floating-point percentage is not modelled). */
  datatype LevelProgress = LevelProgress(currentLevel: nat, xpForCurrent: nat, xpForNext: nat)

  /**
   * xpProgress: the current level and the band of XP that level covers.
   * The band contains xp and is never empty, so the percentage's
   * denominator xpForNext - xpForCurrent is never zero.
   */
  function XpProgress(currentXp: nat): (p: LevelProgress)
    ensures p.currentLevel == CalculateLevel(currentXp)
    ensures p.xpForCurrent <= currentXp < p.xpForNext
    ensures p.xpForNext - p.xpForCurrent > 0
    ensures p.xpForNext == XpForNextLevel(p.currentLevel)
  {
    var level := CalculateLevel(currentXp);
    LevelProgress(level, (level - 1) * (level - 1) * XP_UNIT, level * level * XP_UNIT)
  }

  /** A level whose band contains xp is the level of xp. */
  lemma LevelUnique(xp: nat, level: nat)
    requires level >= 1
    requires XP_UNIT * (level - 1) * (level - 1) <= xp < XP_UNIT * level * level
    ensures CalculateLevel(xp) == level
  {
    var l := CalculateLevel(xp);
    if l < level {
      SquareMonotone(l, level - 1);
    } else if l > level {
      SquareMonotone(level, l - 1);
    }
  }

  /** More XP never means a lower level. */
  lemma LevelMonotone(xp1: nat, xp2: nat)
    requires xp1 <= xp2
    ensures CalculateLevel(xp1) <= CalculateLevel(xp2)
  {
    var l1, l2 := CalculateLevel(xp1), CalculateLevel(xp2);
    if l1 > l2 {
      SquareMonotone(l2, l1 - 1);
    }
  }

  /** Reaching exactly xpForNextLevel(L) puts a user at level L + 1. */
  lemma LevelAtThreshold(level: nat)
    ensures CalculateLevel(XpForNextLevel(level)) == level + 1
  {
    var xp := XpForNextLevel(level);
    SquareMonotone(level, level + 1);
    assert XP_UNIT * level * level == xp;
    assert xp < XP_UNIT * (level + 1) * (level + 1) by {
      assert (level + 1) * (level + 1) == level * level + 2 * level + 1;
    }
    LevelUnique(xp, level + 1);
  }

  /** One XP short of the threshold a user is still at level L. */
  lemma LevelBelowThreshold(level: nat)
    requires level >= 1
    ensures CalculateLevel(XpForNextLevel(level) - 1) == level
  {
    var xp := XpForNextLevel(level) - 1;
    assert (level - 1) * (level - 1) < level * level by {
      SquareMonotone(level - 1, level);
      assert (level - 1) * (level - 1) == level * level - 2 * level + 1;
    }
    assert XP_UNIT * (level - 1) * (level - 1) <= xp;
    LevelUnique(xp, level);
  }
}
