/**
 * The level curve of the economy (`LevelManager`): the XP a level costs,
 * the level a cumulative XP total reaches, the level-up reward, the
 * achievements, the single-step level check, the progress bar and the
 * leaderboard order.
 */
module Levels {
  import opened Common
  import opened Types
  import opened Ledger

  const XPPerLevel: int := 1000
  const LevelMultiplier: real := 1.5

  /** `Math.pow(1.5, e)` for any integer exponent, as an exact real. */
  function Pow15(e: int): (p: real)
    ensures p > 0.0
    ensures e >= 0 ==> p >= 1.0
    decreases if e >= 0 then e else -e
  {
    if e == 0 then 1.0
    else if e > 0 then LevelMultiplier * Pow15(e - 1)
    else Pow15(e + 1) / LevelMultiplier
  }

  /** `calculateXPForLevel`: floor(1000 · 1.5^(level − 1)). */
  function XPForLevel(level: int): (x: int)
    ensures level >= 1 ==> x >= XPPerLevel
    ensures level == 1 ==> x == XPPerLevel
  {
    (XPPerLevel as real * Pow15(level - 1)).Floor
  }

  /** The first level costs 1000 XP and every level from the first on costs at least that. */
  lemma XPForLevelAtLeastBase(level: int)
    requires level >= 1
    ensures XPForLevel(level) >= XPPerLevel
    ensures XPForLevel(1) == XPPerLevel
  {
  }

  /** Each level from the first on costs strictly more than the one before it. */
  lemma XPForLevelIncreasing(level: int)
    requires level >= 1
    ensures XPForLevel(level + 1) > XPForLevel(level)
  {
    var p := Pow15(level - 1);
    assert Pow15(level) == 1.5 * p;
    var x := XPPerLevel as real * p;
    assert x >= 1000.0;
    assert XPPerLevel as real * Pow15(level) == x + 0.5 * x;
  }

  /** The curve is increasing between any two levels from the first on. */
  lemma {:induction false} XPForLevelMonotone(a: int, b: int)
    requires 1 <= a < b
    ensures XPForLevel(a) < XPForLevel(b)
    decreases b - a
  {
    XPForLevelIncreasing(b - 1);
    if a < b - 1 {
      XPForLevelMonotone(a, b - 1);
    }
  }

  /** The XP needed to complete levels 1 .. n. */
  function CumulativeXP(n: nat): (total: int)
    ensures total >= XPPerLevel * n
  {
    if n == 0 then 0
    else
      XPForLevelAtLeastBase(n);
      CumulativeXP(n - 1) + XPForLevel(n)
  }

  /** The level reached by `xp`, searching from `level` on. */
  function LevelFrom(xp: int, level: nat): (l: nat)
    requires level >= 1
    ensures l >= level
    ensures xp < CumulativeXP(l)
    ensures level < l ==> CumulativeXP(l - 1) <= xp
    decreases xp - CumulativeXP(level)
  {
    if xp < CumulativeXP(level) then level
    else
      XPForLevelAtLeastBase(level + 1);
      LevelFrom(xp, level + 1)
  }

  /** The level a cumulative XP total reaches: the first level whose total is not yet reached. */
  function LevelOf(xp: int): nat
  {
    LevelFrom(xp, 1)
  }

  /**
   * For a non-negative total, the level is the one whose cumulative band
   * holds it: CumulativeXP(level − 1) ≤ xp < CumulativeXP(level).
   */
  lemma LevelOfBand(xp: int)
    requires xp >= 0
    ensures LevelOf(xp) >= 1
    ensures CumulativeXP(LevelOf(xp) - 1) <= xp < CumulativeXP(LevelOf(xp))
  {
  }

  /** The cumulative totals increase with the number of levels. */
  lemma {:induction false} CumulativeXPMonotone(a: nat, b: nat)
    requires a <= b
    ensures CumulativeXP(a) <= CumulativeXP(b)
    decreases b - a
  {
    if a < b {
      CumulativeXPMonotone(a, b - 1);
      XPForLevelAtLeastBase(b);
    }
  }

  /** More XP never means a lower level. */
  lemma LevelOfMonotone(x: int, y: int)
    requires x <= y
    ensures LevelOf(x) <= LevelOf(y)
  {
    var lx, ly := LevelOf(x), LevelOf(y);
    if ly < lx {
      CumulativeXPMonotone(ly, lx - 1);
    }
  }

  /** The result of `calculateLevel`. */
  datatype LevelInfo = LevelInfo(level: int, currentXP: int, nextLevelXP: int)

  /**
   * `calculateLevel`: walk the levels, adding each one's cost, until the
   * running total exceeds `xp`; the XP into the reached level and that
   * level's cost are returned with it.
   */
  method CalculateLevel(xp: int) returns (info: LevelInfo)
    ensures info.level == LevelOf(xp)
    ensures info.currentXP == xp - CumulativeXP(LevelOf(xp) - 1)
    ensures info.nextLevelXP == XPForLevel(LevelOf(xp))
  {
    var level: nat := 1;
    var totalXPForNextLevel := XPForLevel(level);
    while xp >= totalXPForNextLevel
      invariant level >= 1
      invariant totalXPForNextLevel == CumulativeXP(level)
      invariant LevelOf(xp) == LevelFrom(xp, level)
      decreases xp - totalXPForNextLevel
    {
      XPForLevelAtLeastBase(level + 1);
      level := level + 1;
      totalXPForNextLevel := totalXPForNextLevel + XPForLevel(level);
    }
    var previousLevelXP := totalXPForNextLevel - XPForLevel(level);
    info := LevelInfo(level, xp - previousLevelXP, XPForLevel(level));
  }

  /** For a non-negative total, the XP into the level is below that level's cost. */
  lemma LevelInfoBounds(xp: int)
    requires xp >= 0
    ensures var l := LevelOf(xp);
      l >= 1 && 0 <= xp - CumulativeXP(l - 1) < XPForLevel(l)
  {
    LevelOfBand(xp);
  }

  /** `getLevelReward`: 2 → 1000, 3 → 2500, 4 → 5000, 5 → 10000, otherwise nothing. */
  function LevelReward(level: int): (reward: int)
    ensures reward >= 0
    ensures reward > 0 <==> 2 <= level <= 5
  {
    match level
    case 2 => 1000
    case 3 => 2500
    case 4 => 5000
    case 5 => 10000
    case _ => 0
  }

  /** The rewards grow with the level across the rewarded levels. */
  lemma LevelRewardIncreasing(a: int, b: int)
    requires 2 <= a < b <= 5
    ensures LevelReward(a) < LevelReward(b)
  {
  }

  /** What `addXP` reports. */
  datatype XPResult =
    | LevelledUp(oldLevel: int, newLevel: int, reward: int)
    | XPAdded(amount: int, currentXP: int, nextLevelXP: int)

  /**
   * The single `updateUser` `addXP` issues for a user snapshot: the new XP
   * total and its level, plus the reward on top of the snapshot's balance
   * when the level rose.
   */
  function AddXPWrite(user: User, amount: int): (w: Write)
    ensures w.key == KeyOf(user)
    ensures w.patch.xp == Some(user.xp + amount)
    ensures w.patch.level == Some(LevelOf(user.xp + amount))
    ensures LevelOf(user.xp + amount) > LevelOf(user.xp) ==>
              w.patch.balance == Some(user.balance + LevelReward(LevelOf(user.xp + amount)))
    ensures LevelOf(user.xp + amount) <= LevelOf(user.xp) ==> w.patch.balance.None?
    ensures w.patch == NoChange.(xp := w.patch.xp, level := w.patch.level, balance := w.patch.balance)
  {
    var newXP := user.xp + amount;
    var newLevel := LevelOf(newXP);
    if newLevel > LevelOf(user.xp) then
      Write(KeyOf(user), NoChange.(xp := Some(newXP), level := Some(newLevel),
                                   balance := Some(user.balance + LevelReward(newLevel))))
    else
      Write(KeyOf(user), NoChange.(xp := Some(newXP), level := Some(newLevel)))
  }

  /**
   * Gaining XP never lowers the level, and the level rises exactly when
   * the new total reaches the cumulative XP of the old level, however many
   * levels are crossed.
   */
  lemma AddXPRaisesLevel(user: User, amount: int)
    requires amount >= 0
    ensures LevelOf(user.xp + amount) >= LevelOf(user.xp)
    ensures LevelOf(user.xp + amount) > LevelOf(user.xp) <==> user.xp + amount >= CumulativeXP(LevelOf(user.xp))
  {
    var ol, nl := LevelOf(user.xp), LevelOf(user.xp + amount);
    LevelOfMonotone(user.xp, user.xp + amount);
    if nl > ol {
      CumulativeXPMonotone(ol, nl - 1);
    } else if user.xp + amount >= CumulativeXP(ol) {
      CumulativeXPMonotone(nl, ol);
    }
  }

  /**
   * `LevelManager.addXP`: the old level comes from the snapshot's XP (not
   * its stored level); one update is written.
   */
  method AddXP(db: Database, user: User, amount: int, now: int) returns (res: XPResult)
    requires db.Valid()
    modifies db`users
    ensures db.Valid()
    ensures db.users == Store(old(db.users), AddXPWrite(user, amount), now)
    ensures var newLevel := LevelOf(user.xp + amount);
      if newLevel > LevelOf(user.xp)
      then res == LevelledUp(LevelOf(user.xp), newLevel, LevelReward(newLevel))
      else && res.XPAdded? && res.amount == amount
           && res.currentXP == user.xp + amount - CumulativeXP(newLevel - 1)
           && res.nextLevelXP == XPForLevel(newLevel)
  {
    var oldInfo := CalculateLevel(user.xp);
    var newXP := user.xp + amount;
    var newInfo := CalculateLevel(newXP);
    ghost var newLevel := LevelOf(user.xp + amount);
    assert oldInfo.level == LevelOf(user.xp) && newInfo.level == newLevel;
    var w := AddXPWrite(user, amount);
    assert Write(Key(user.userId, user.groupId), w.patch) == w;
    db.UpdateUser(user.userId, user.groupId, w.patch, now);
    if newInfo.level > oldInfo.level {
      res := LevelledUp(oldInfo.level, newInfo.level, LevelReward(newInfo.level));
    } else {
      res := XPAdded(amount, newInfo.currentXP, newInfo.nextLevelXP);
      assert res.nextLevelXP == XPForLevel(newLevel);
    }
  }

  // ---------------------------------------------------------------------
  // Achievements
  // ---------------------------------------------------------------------

  /** The achievement names, in the order they are checked. */
  const Millionaire: string := "Milionário"
  const XPMaster: string := "Mestre do XP"
  const EfficientWorker: string := "Trabalhador Eficiente"
  const SkilledThief: string := "Ladrão Habilidoso"
  const Veteran: string := "Veterano"
  const Collector: string := "Colecionador"

  /** The achievement table: each name with whether the user meets its condition. */
  function AchievementTable(user: User): (t: seq<(string, bool)>)
    ensures |t| == 6
  {
    [ (Millionaire, user.balance >= 1000000),
      (XPMaster, user.skills.xpBoost >= 2.0),
      (EfficientWorker, user.skills.workMultiplier >= 2.0),
      (SkilledThief, user.skills.robChance >= 0.3),
      (Veteran, user.level >= 20),
      (Collector, |user.inventory| >= 10) ]
  }

  /** The entries of a table whose condition holds and whose name is not in `held`, in table order. */
  function Unearned(t: seq<(string, bool)>, held: seq<string>): (r: seq<string>)
    ensures forall a :: a in r <==> exists i :: 0 <= i < |t| && t[i].0 == a && t[i].1 && a !in held
    ensures |r| <= |t|
  {
    if t == [] then []
    else
      var rest := Unearned(t[1..], held);
      assert forall i :: 1 <= i < |t| ==> t[i] == t[1..][i - 1];
      if t[0].1 && t[0].0 !in held then [t[0].0] + rest else rest
  }

  /**
   * The loop of `checkAchievements`: collect, in table order, the names
   * whose condition holds and that the user does not hold yet.
   */
  method NewAchievements(user: User) returns (news: seq<string>)
    ensures news == Unearned(AchievementTable(user), user.achievements)
  {
    var table := AchievementTable(user);
    news := [];
    var i := 0;
    while i < |table|
      invariant 0 <= i <= |table|
      invariant news + Unearned(table[i..], user.achievements) == Unearned(table, user.achievements)
    {
      var (achievement, condition) := table[i];
      assert table[i..][1..] == table[i + 1..];
      assert Unearned(table[i..], user.achievements) ==
        (if condition && achievement !in user.achievements then [achievement] else []) +
        Unearned(table[i + 1..], user.achievements);
      if condition && achievement !in user.achievements {
        news := news + [achievement];
      }
      i := i + 1;
    }
    assert table[|table|..] == [];
  }

  /** An achievement already held is never granted again, and nothing is granted without its condition. */
  lemma NewAchievementsAreNew(user: User, a: string)
    requires a in Unearned(AchievementTable(user), user.achievements)
    ensures a !in user.achievements
    ensures a == Millionaire ==> user.balance >= 1000000
    ensures a == Veteran ==> user.level >= 20
    ensures a == Collector ==> |user.inventory| >= 10
  {
  }

  /**
   * `checkAchievements`: the newly earned names; when there are any, the
   * list becomes the old list followed by them, in one update.
   */
  method CheckAchievements(db: Database, user: User, now: int) returns (news: seq<string>)
    requires db.Valid()
    modifies db`users
    ensures db.Valid()
    ensures news == Unearned(AchievementTable(user), user.achievements)
    ensures news == [] ==> db.users == old(db.users)
    ensures news != [] ==>
      db.users == Store(old(db.users), Write(KeyOf(user), NoChange.(achievements := Some(user.achievements + news))), now)
  {
    news := NewAchievements(user);
    if |news| > 0 {
      db.UpdateUser(user.userId, user.groupId, NoChange.(achievements := Some(user.achievements + news)), now);
    }
  }

  /** A name appears at most once in the table, so the granted names are distinct. */
  lemma {:induction false} UnearnedDistinct(t: seq<(string, bool)>, held: seq<string>)
    requires forall i, j :: 0 <= i < j < |t| ==> t[i].0 != t[j].0
    ensures Distinct(Unearned(t, held))
  {
    if t != [] {
      var tail := t[1..];
      assert forall i, j :: 0 <= i < j < |tail| ==> tail[i].0 != tail[j].0 by {
        forall i, j | 0 <= i < j < |tail| ensures tail[i].0 != tail[j].0 {
          assert tail[i] == t[i + 1] && tail[j] == t[j + 1];
        }
      }
      UnearnedDistinct(tail, held);
      var rest := Unearned(tail, held);
      if t[0].1 && t[0].0 !in held {
        assert t[0].0 !in rest by {
          forall i | 0 <= i < |tail| ensures tail[i].0 != t[0].0 {
            assert tail[i] == t[i + 1];
          }
        }
        var r := [t[0].0] + rest;
        assert Unearned(t, held) == r;
        forall i, j | 0 <= i < j < |r| ensures r[i] != r[j] {
          if i > 0 {
            assert r[i] == rest[i - 1] && r[j] == rest[j - 1];
          } else {
            assert r[j] == rest[j - 1];
            assert r[j] in rest;
          }
        }
      } else {
        assert Unearned(t, held) == rest;
      }
    }
  }

  /** Appending the granted names to a list without duplicates keeps it without duplicates. */
  lemma AchievementsStayDistinct(user: User)
    requires Distinct(user.achievements)
    ensures Distinct(user.achievements + Unearned(AchievementTable(user), user.achievements))
  {
    var t := AchievementTable(user);
    UnearnedDistinct(t, user.achievements);
    var held := user.achievements;
    var news := Unearned(t, held);
    var all := held + news;
    forall i, j | 0 <= i < j < |all| ensures all[i] != all[j] {
      if j < |held| {
        assert all[i] == held[i] && all[j] == held[j];
      } else if i < |held| {
        assert all[i] == held[i] && all[i] in held;
        assert all[j] == news[j - |held|] && all[j] in news;
      } else {
        assert all[i] == news[i - |held|] && all[j] == news[j - |held|];
      }
    }
  }

  // ---------------------------------------------------------------------
  // Single-step level check, progress bar, leaderboard order
  // ---------------------------------------------------------------------

  /**
   * `checkLevelUp`: when the stored XP reaches the cost of the next level,
   * the level goes up by one and the balance by 1000 per new level.
   */
  function LevelUpWrite(user: User): (w: Option<Write>)
    ensures w.Some? <==> user.xp >= XPForLevel(user.level + 1)
    ensures w.Some? ==>
      w.value.key == KeyOf(user) &&
      w.value.patch == NoChange.(level := Some(user.level + 1), balance := Some(user.balance + (user.level + 1) * 1000))
  {
    if user.xp >= XPForLevel(user.level + 1) then
      var newLevel := user.level + 1;
      Some(Write(KeyOf(user), NoChange.(level := Some(newLevel), balance := Some(user.balance + newLevel * 1000))))
    else None
  }

  /** `checkLevelUp` on the ledger; returns the bonus when the level went up. */
  method CheckLevelUp(db: Database, user: User, now: int) returns (bonus: Option<int>)
    requires db.Valid()
    modifies db`users
    ensures db.Valid()
    ensures bonus.Some? <==> LevelUpWrite(user).Some?
    ensures bonus.Some? ==>
      bonus.value == (user.level + 1) * 1000 &&
      db.users == Store(old(db.users), LevelUpWrite(user).value, now)
    ensures bonus.None? ==> db.users == old(db.users)
  {
    var nextLevelXP := XPForLevel(user.level + 1);
    if user.xp >= nextLevelXP {
      var w := LevelUpWrite(user).value;
      db.UpdateUser(user.userId, user.groupId, w.patch, now);
      bonus := Some((user.level + 1) * 1000);
    } else {
      bonus := None;
    }
  }

  /**
   * A level-up adds at least 1000, and a level-up from a higher level adds
   * strictly more than one from a lower level.
   */
  lemma LevelUpBonusGrows(user: User, other: User)
    requires user.level >= 0 && user.xp >= XPForLevel(user.level + 1)
    requires other.level > user.level && other.xp >= XPForLevel(other.level + 1)
    ensures LevelUpWrite(user).value.patch.balance.value - user.balance >= 1000
    ensures LevelUpWrite(user).value.patch.balance.value - user.balance
          < LevelUpWrite(other).value.patch.balance.value - other.balance
  {
  }

  /** The cells of `createProgressBar`: filled and empty counts, and the percentage (None for NaN). */
  datatype Bar = Bar(filled: int, empty: int, percent: Option<int>)

  /** x / d for 0 ≤ x ≤ k·d lies in [0, k], and reaches k at x = k·d. */
  lemma DivInRange(x: int, d: int, k: int)
    requires d > 0 && k >= 0 && 0 <= x <= k * d
    ensures 0 <= x / d <= k
    ensures x == k * d ==> x / d == k
  {
    var q := x / d;
    assert x == q * d + x % d && 0 <= x % d < d;
    if x == k * d {
      DivBetween(x, d, k);
    }
  }

  lemma MulMonotone(a: int, b: int, d: int)
    requires a <= b && d >= 0
    ensures a * d <= b * d
  {
  }

  lemma DivBetween(x: int, d: int, f: int)
    requires d > 0 && f * d <= x < (f + 1) * d
    ensures x / d == f
  {
    var q := x / d;
    assert x == q * d + x % d && 0 <= x % d < d;
    if q < f {
      MulMonotone(q + 1, f, d);
    } else if q > f {
      MulMonotone(f + 1, q, d);
    }
  }

  /**
   * `createProgressBar`: the value is clamped into [0, max]; ten cells, of
   * which floor(10 · current / max) are filled, and floor(100 · current / max)
   * percent. A zero max divides zero by zero and prints nothing and NaN; a
   * negative max leaves every cell empty at 0%.
   */
  function ProgressBar(current: int, max: int): (b: Bar)
    ensures max > 0 ==> 0 <= b.filled <= 10 && b.filled + b.empty == 10 && b.percent.Some?
                        && 0 <= b.percent.value <= 100
    ensures max > 0 && current >= max ==> b.filled == 10 && b.percent == Some(100)
    ensures max > 0 && current <= 0 ==> b.filled == 0 && b.percent == Some(0)
    ensures max == 0 ==> b == Bar(0, 0, None)
    ensures max < 0 ==> b == Bar(0, 10, Some(0))
  {
    var upper := if current < max then current else max;
    var c := if upper > 0 then upper else 0;
    if max == 0 then Bar(0, 0, None)
    else if max < 0 then Bar(0, 10, Some(0))
    else
      DivInRange(c * 10, max, 10);
      DivInRange(c * 100, max, 100);
      var progress := (c * 10) / max;
      Bar(progress, 10 - progress, Some((c * 100) / max))
  }

  /** The filled cells are the tens of the percentage. */
  lemma ProgressBarTens(current: int, max: int)
    requires max > 0
    ensures var b := ProgressBar(current, max); b.filled == b.percent.value / 10
  {
    var upper := if current < max then current else max;
    var c := if upper > 0 then upper else 0;
    TenthOfQuotient(c, max);
  }

  /** floor(10c / m) is the tens of floor(100c / m). */
  lemma TenthOfQuotient(c: int, m: int)
    requires m > 0 && c >= 0
    ensures (c * 10) / m == ((c * 100) / m) / 10
  {
    var q := (c * 100) / m;
    var f := q / 10;
    assert q * m <= c * 100 < (q + 1) * m by {
      assert c * 100 == q * m + (c * 100) % m;
    }
    assert 10 * f <= q < 10 * f + 10;
    MulMonotone(10 * f, q, m);
    MulMonotone(q + 1, 10 * f + 10, m);
    var fm := f * m;
    assert (10 * f) * m == 10 * fm;
    assert (10 * f + 10) * m == 10 * fm + 10 * m;
    assert fm <= c * 10 < fm + m;
    assert (f + 1) * m == fm + m;
    DivBetween(c * 10, m, f);
  }

  /** The leaderboard order: higher level first, then more XP. */
  predicate RanksBefore(a: User, b: User)
  {
    a.level > b.level || (a.level == b.level && a.xp >= b.xp)
  }

  predicate Ranked(s: seq<User>)
  {
    forall i, j :: 0 <= i < j < |s| ==> RanksBefore(s[i], s[j])
  }

  /**
   * One insertion step of the ranking: `u` goes in after the leading run of
   * entries that rank at least as high as it (ties included).
   */
  function InsertRanked(s: seq<User>, u: User): (r: seq<User>)
    ensures |r| == |s| + 1
    ensures s == [] ==> r == [u]
    ensures s != [] ==> r[0] == u || r[0] == s[0]
  {
    if s == [] then [u]
    else if RanksBefore(s[0], u) then
      assert s == [s[0]] + s[1..];
      [s[0]] + InsertRanked(s[1..], u)
    else
      [u] + s
  }

  /** Where `InsertRanked` puts `u`: after the leading run of entries that rank at least as high. */
  function InsertPos(s: seq<User>, u: User): (k: nat)
    ensures k <= |s|
    ensures k < |s| ==> !RanksBefore(s[k], u)
  {
    if s == [] then 0
    else if RanksBefore(s[0], u) then 1 + InsertPos(s[1..], u)
    else 0
  }

  /** Every entry before the insertion point ranks at least as high as `u`. */
  lemma {:induction false} InsertPosAfterHigher(s: seq<User>, u: User)
    ensures forall i :: 0 <= i < InsertPos(s, u) ==> RanksBefore(s[i], u)
  {
    if s != [] && RanksBefore(s[0], u) {
      InsertPosAfterHigher(s[1..], u);
      forall i | 0 <= i < InsertPos(s, u) ensures RanksBefore(s[i], u) {
        if i > 0 {
          assert s[i] == s[1..][i - 1];
        }
      }
    }
  }

  /** Insertion splices `u` in at `InsertPos` and keeps the other entries in their order. */
  lemma {:induction false} InsertRankedSplices(s: seq<User>, u: User)
    ensures InsertRanked(s, u) == s[..InsertPos(s, u)] + [u] + s[InsertPos(s, u)..]
  {
    if s != [] && RanksBefore(s[0], u) {
      var t := s[1..];
      var k := InsertPos(t, u);
      calc {
        InsertRanked(s, u);
        [s[0]] + InsertRanked(t, u);
        { InsertRankedSplices(t, u); }
        [s[0]] + (t[..k] + [u] + t[k..]);
        ([s[0]] + t[..k]) + [u] + t[k..];
        { assert [s[0]] + t[..k] == s[..k + 1]; assert t[k..] == s[k + 1..]; }
        s[..k + 1] + [u] + s[k + 1..];
      }
    } else {
      assert InsertRanked(s, u) == [u] + s && InsertPos(s, u) == 0;
      assert s[..0] == [] && s[0..] == s;
    }
  }

  /** Insertion adds `u` and loses nothing: the result is the list plus `u`, as a multiset. */
  lemma InsertRankedPermutes(s: seq<User>, u: User)
    ensures multiset(InsertRanked(s, u)) == multiset(s) + multiset{u}
  {
    var k := InsertPos(s, u);
    InsertRankedSplices(s, u);
    var a, b := s[..k], s[k..];
    assert s == a + b;
    calc {
      multiset(InsertRanked(s, u));
      multiset(a + [u] + b);
      multiset(a) + multiset([u]) + multiset(b);
      multiset(a + b) + multiset{u};
    }
  }

  lemma {:induction false} InsertRankedKeepsRanked(s: seq<User>, u: User)
    requires Ranked(s)
    ensures Ranked(InsertRanked(s, u))
  {
    if s != [] && RanksBefore(s[0], u) {
      var rest := InsertRanked(s[1..], u);
      InsertRankedKeepsRanked(s[1..], u);
      assert RanksBefore(s[0], rest[0]) by {
        if rest[0] != u {
          assert rest[0] == s[1];
        }
      }
      var r := [s[0]] + rest;
      forall i, j | 0 <= i < j < |r| ensures RanksBefore(r[i], r[j]) {
        if i == 0 {
          if j > 1 {
            assert RanksBefore(rest[0], rest[j - 1]);
          }
        } else {
          assert r[i] == rest[i - 1] && r[j] == rest[j - 1];
        }
      }
    }
  }

  /** `users.sort((a, b) => b.level - a.level || b.xp - a.xp)` in `showLeaderboard`. */
  function LeaderboardOrder(users: seq<User>): (r: seq<User>)
    ensures multiset(r) == multiset(users)
  {
    if users == [] then []
    else
      assert users == users[..|users| - 1] + [users[|users| - 1]];
      InsertRankedPermutes(LeaderboardOrder(users[..|users| - 1]), users[|users| - 1]);
      InsertRanked(LeaderboardOrder(users[..|users| - 1]), users[|users| - 1])
  }

  /** The leaderboard is ranked by level, then XP, and holds exactly the users it was given. */
  lemma {:induction false} LeaderboardOrderRanked(users: seq<User>)
    ensures Ranked(LeaderboardOrder(users))
    ensures multiset(LeaderboardOrder(users)) == multiset(users)
  {
    if users != [] {
      LeaderboardOrderRanked(users[..|users| - 1]);
      InsertRankedKeepsRanked(LeaderboardOrder(users[..|users| - 1]), users[|users| - 1]);
    }
  }
}
