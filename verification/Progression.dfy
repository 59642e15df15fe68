/**
 * Experience and levels. A profile stores experience within the current level;
 * an addition overflows into higher levels and is never carried back down.
 */
module Progression {
  import opened Common

  const INITIAL_XP_NEEDED: int := 100
  const XP_INCREMENT_PER_LEVEL: int := 50
  const XP_PER_COMPLETION: int := 10

  /** A new account starts at level 1 with no experience. */
  datatype Profile = Profile(xp: int, level: nat)

  const NEW_PROFILE := Profile(0, 1)

  function NeededXp(level: nat): int {
    INITIAL_XP_NEEDED + (level - 1) * XP_INCREMENT_PER_LEVEL
  }

  /** Levels up until the experience fits the level. */
  function Settle(xp: nat, level: nat): (p: Profile)
    ensures 0 <= p.xp < NeededXp(p.level)
    ensures p.level >= level
    decreases xp
  {
    if xp >= NeededXp(level) then Settle(xp - NeededXp(level), level + 1) else Profile(xp, level)
  }

  /** Removing more experience than the level holds leaves zero, not a lower level. */
  function AddXp(p: Profile, amount: int): Profile {
    Settle(Max(p.xp + amount, 0), p.level)
  }

  ghost predicate WellFormed(p: Profile) {
    p.level >= 1 && 0 <= p.xp < NeededXp(p.level)
  }

  /** Any call at all restores the in-level bound and never lowers the level. */
  lemma AddXpKeepsShape(p: Profile, amount: int)
    requires p.level >= 1
    ensures WellFormed(AddXp(p, amount))
    ensures AddXp(p, amount).level >= p.level
  {
  }

  /** A removal takes its amount, as far as the level holds it, and leaves the level. */
  lemma RemovalStaysInLevel(p: Profile, amount: int)
    requires WellFormed(p) && amount <= 0
    ensures AddXp(p, amount) == Profile(if p.xp + amount >= 0 then p.xp + amount else 0, p.level)
  {
  }

  /** All experience ever needed to stand at this profile, in closed form. */
  function Cumulative(p: Profile): int {
    100 * (p.level - 1) + 25 * (p.level - 1) * (p.level - 2) + p.xp
  }

  lemma {:induction false} SettleKeepsCumulative(xp: nat, level: nat)
    ensures Cumulative(Settle(xp, level)) == Cumulative(Profile(xp, level))
    decreases xp
  {
    if xp >= NeededXp(level) {
      SettleKeepsCumulative(xp - NeededXp(level), level + 1);
      assert 25 * level * (level - 1) == 25 * (level - 1) * (level - 2) + 50 * (level - 1);
    }
  }

  /** A non-negative addition raises cumulative experience by exactly its amount. */
  lemma AddXpConserves(p: Profile, amount: nat)
    requires p.xp >= 0
    ensures Cumulative(AddXp(p, amount)) == Cumulative(p) + amount
  {
    SettleKeepsCumulative(p.xp + amount, p.level);
  }

  /** Reaching a higher level costs at least the whole of the lower one. */
  lemma {:induction false} LevelCostGrows(l: nat, k: nat)
    requires 1 <= l < k
    ensures Cumulative(Profile(0, k)) >= Cumulative(Profile(0, l)) + NeededXp(l)
    decreases k
  {
    assert 25 * (k - 1) * (k - 2) == 25 * (k - 2) * (k - 3) + 50 * (k - 2);
    if l < k - 1 {
      LevelCostGrows(l, k - 1);
    }
  }

  /** Two well-formed profiles with the same cumulative experience are the same profile. */
  lemma CumulativeInjective(p: Profile, q: Profile)
    requires WellFormed(p) && WellFormed(q) && Cumulative(p) == Cumulative(q)
    ensures p == q
  {
    if p.level < q.level {
      LevelCostGrows(p.level, q.level);
    } else if q.level < p.level {
      LevelCostGrows(q.level, p.level);
    }
  }

  function LevelFromTotal(total: nat): Profile { Settle(total, 1) }

  function Fold(p: Profile, amounts: seq<nat>): Profile
    decreases |amounts|
  {
    if amounts == [] then p else Fold(AddXp(p, amounts[0]), amounts[1..])
  }

  function Total(amounts: seq<nat>): nat {
    if amounts == [] then 0 else amounts[0] + Total(amounts[1..])
  }

  lemma {:induction false} FoldConserves(p: Profile, amounts: seq<nat>)
    requires WellFormed(p)
    ensures WellFormed(Fold(p, amounts))
    ensures Cumulative(Fold(p, amounts)) == Cumulative(p) + Total(amounts)
    decreases |amounts|
  {
    if amounts != [] {
      AddXpConserves(p, amounts[0]);
      FoldConserves(AddXp(p, amounts[0]), amounts[1..]);
    }
  }

  /** Earning experience in any instalments ends where the one-shot level table says. */
  lemma FoldIsLevelFromTotal(amounts: seq<nat>)
    ensures Fold(NEW_PROFILE, amounts) == LevelFromTotal(Total(amounts))
  {
    FoldConserves(NEW_PROFILE, amounts);
    SettleKeepsCumulative(Total(amounts), 1);
    CumulativeInjective(Fold(NEW_PROFILE, amounts), LevelFromTotal(Total(amounts)));
  }

  method CalculateLevelFromTotalXp(totalXp: nat) returns (level: nat, remainingXp: nat, neededXp: int)
    ensures Profile(remainingXp, level) == LevelFromTotal(totalXp)
    ensures level >= 1 && remainingXp < neededXp == NeededXp(level)
    ensures Cumulative(Profile(remainingXp, level)) == totalXp
  {
    level, remainingXp := 1, totalXp;
    neededXp := NeededXp(level);
    SettleKeepsCumulative(totalXp, 1);
    while remainingXp >= neededXp
      invariant level >= 1 && neededXp == NeededXp(level)
      invariant Settle(remainingXp, level) == LevelFromTotal(totalXp)
      decreases remainingXp
    {
      remainingXp := remainingXp - neededXp;
      level := level + 1;
      neededXp := NeededXp(level);
    }
  }

  /** The profile update made inside a completion's transaction. */
  method AddExperience(p: Profile, amount: int) returns (q: Profile)
    ensures q == AddXp(p, amount)
    ensures 0 <= q.xp < NeededXp(q.level) && q.level >= p.level
  {
    var newXp := Max(p.xp + amount, 0);
    var newLevel := p.level;
    var neededXp := NeededXp(newLevel);
    while newXp >= neededXp
      invariant newXp >= 0 && newLevel >= p.level && neededXp == NeededXp(newLevel)
      invariant Settle(newXp, newLevel) == AddXp(p, amount)
      decreases newXp
    {
      newXp := newXp - neededXp;
      newLevel := newLevel + 1;
      neededXp := NeededXp(newLevel);
    }
    return Profile(newXp, newLevel);
  }
}
