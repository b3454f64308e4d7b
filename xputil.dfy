/**
 * The per-level XP scheme of `utils/xp.ts`, used by farming: the gain is
 * scaled by an active XP boost, the stored XP counts within the current
 * level only, and at most one level is gained per call.
 */
module XpUtil {
  import opened Common
  import opened Types
  import opened Ledger
  import Levels

  /** The XP a level costs in this scheme: floor(100 · 1.5^(level − 1)). */
  function LevelThreshold(level: int): (t: int)
    ensures level >= 1 ==> t >= 100
  {
    (100.0 * Levels.Pow15(level - 1)).Floor
  }

  /** `effects.xp_boost.value || 1`: the boost of the record, 1 when none is stored; its expiry is not consulted. */
  function XpBoostOf(user: User): (boost: real)
    ensures XpBoost !in user.effects ==> boost == 1.0
    ensures XpBoost in user.effects && user.effects[XpBoost].value != 0.0 ==> boost == user.effects[XpBoost].value
  {
    if XpBoost in user.effects then OrOne(user.effects[XpBoost].value) else 1.0
  }

  /** floor(xp · boost): the XP actually added. */
  function BoostedXP(user: User, xp: int): (gained: int)
    ensures XpBoost !in user.effects ==> gained == xp
    ensures xp >= 0 && XpBoostOf(user) >= 1.0 ==> gained >= xp
  {
    if XpBoost !in user.effects then
      assert xp as real * 1.0 == xp as real;
      (xp as real * XpBoostOf(user)).Floor
    else
      (xp as real * XpBoostOf(user)).Floor
  }

  /**
   * The single update `addXP` issues for the record it read: XP reduced by
   * the threshold and the level raised by one when the threshold is
   * reached, the plain new XP otherwise.
   */
  function XPWrite(user: User, xp: int): (w: Write)
  {
    var newXP := user.xp + BoostedXP(user, xp);
    var threshold := LevelThreshold(user.level);
    if newXP >= threshold then Write(KeyOf(user), NoChange.(xp := Some(newXP - threshold), level := Some(user.level + 1)))
    else Write(KeyOf(user), NoChange.(xp := Some(newXP)))
  }

  /**
   * The record after `addXP`: at most one level is gained however large the
   * gain, the XP left over is what exceeds the threshold, and below the
   * threshold the level stays and the XP is the plain sum. Nothing else but
   * the stamp changes.
   */
  lemma XPWriteEffect(user: User, xp: int, now: int)
    ensures var v := ApplyPatch(user, XPWrite(user, xp).patch, now);
      var newXP := user.xp + BoostedXP(user, xp);
      && KeyOf(v) == KeyOf(user)
      && (newXP >= LevelThreshold(user.level) ==> v.level == user.level + 1 && v.xp == newXP - LevelThreshold(user.level))
      && (newXP < LevelThreshold(user.level) ==> v.level == user.level && v.xp == newXP)
      && v == user.(xp := v.xp, level := v.level, updatedAt := now)
  {
  }

  /** `addXP(db, userId, groupId, xp)`: read (or create) the record, then one update. */
  method AddXP(db: Database, userId: string, groupId: string, xp: int, now: int)
    requires db.Valid()
    modifies db`users
    ensures db.Valid()
    ensures var u := Fetched(old(db.users), Key(userId, groupId), now);
      db.users == Store(old(db.users)[Key(userId, groupId) := u], XPWrite(u, xp), now)
  {
    var user := db.GetUser(userId, groupId, "", now);
    var w := XPWrite(user, xp);
    db.UpdateUser(userId, groupId, w.patch, now);
  }

  /**
   * The two XP schemes disagree: a fresh record (level 1, no XP, no boost)
   * that gains 100 XP here is stored at level 2 with 0 XP, while the
   * cumulative curve of `LevelManager` puts 0 XP at level 1.
   */
  lemma SchemesDisagree(user: User, now: int)
    requires user.level == 1 && user.xp == 0 && XpBoost !in user.effects
    ensures var v := ApplyPatch(user, XPWrite(user, 100).patch, now);
      v.level == 2 && v.xp == 0 && Levels.LevelOf(v.xp) == 1
  {
    assert LevelThreshold(1) == 100;
    assert Levels.CumulativeXP(1) == 1000 by {
      assert Levels.XPForLevel(1) == 1000;
    }
  }
}
