/**
 * The XP step of `handleCommand` (`levelManager.addXP(user, xpGained)`)
 * after a manager has written the sender's record: `user` is the record
 * read before the manager ran.
 */
module XPStep {
  import opened Common
  import opened Types
  import opened Ledger
  import opened Levels
  import Work

  /**
   * `addXP` receives the record read before the manager ran: on a level-up
   * the balance it writes is that record's balance plus the reward,
   * whatever the manager had stored in between.
   */
  lemma LevelUpBalanceFromSnapshot(user: User, xp: int, mid: map<Key, User>, now: int)
    requires KeyOf(user) in mid
    requires LevelOf(user.xp + xp) > LevelOf(user.xp)
    ensures var v := Store(mid, AddXPWrite(user, xp), now)[KeyOf(user)];
      && v.balance == user.balance + LevelReward(LevelOf(user.xp + xp))
      && v.xp == user.xp + xp
  {
  }

  /**
   * The sender's record after writes `ws` that added `amount` to its
   * balance, then the `addXP` write computed from the record before them:
   * the XP total is set once; without a level-up the amount is kept, and
   * on a level-up the balance is the old balance plus the reward, so the
   * amount is lost.
   */
  ghost predicate PaidThenLevelled(user: User, ws: seq<Write>, amount: int, xp: int, now: int)
  {
    var v := ReplayUser(user, ws + [AddXPWrite(user, xp)], KeyOf(user), now);
    && v.xp == user.xp + xp
    && (LevelOf(user.xp + xp) > LevelOf(user.xp) ==> v.balance == user.balance + LevelReward(LevelOf(user.xp + xp)))
    && (LevelOf(user.xp + xp) <= LevelOf(user.xp) ==> v.balance == user.balance + amount)
  }

  /**
   * `!trabalhar` that paid (`reply`, `ws` being what `work` answers and
   * writes), followed by the XP step: the work's pay survives exactly when
   * the XP gained raises no level.
   */
  lemma WorkPayLostOnLevelUp(user: User, now: int, rJob: Draw, rSuccess: Draw, rXP: Draw,
                             reply: Work.WorkReply, ws: seq<Write>)
    requires reply == Work.WorkOutcome(user, now, rJob, rSuccess, rXP).0
    requires ws == Work.WorkOutcome(user, now, rJob, rSuccess, rXP).1
    requires reply.WorkPaid?
    ensures PaidThenLevelled(user, ws, reply.amount, reply.xpGained, now)
  {
    Work.WorkStoredRecord(user, now, rJob, rSuccess, rXP);
    PaidThenXP(user, ws, reply.amount, reply.xpGained, now);
  }

  /** Any writes that added `amount` to the balance, followed by the XP step. */
  lemma PaidThenXP(user: User, ws: seq<Write>, amount: int, xp: int, now: int)
    requires ReplayUser(user, ws, KeyOf(user), now).balance == user.balance + amount
    ensures PaidThenLevelled(user, ws, amount, xp, now)
  {
    var r := ReplayUser(user, ws, KeyOf(user), now);
    ReplayUserThen(user, ws, AddXPWrite(user, xp), KeyOf(user), now);
    AddXPOnto(r, user, xp, now);
  }

  /** The `addXP` write for `user`, applied to whatever record `r` is stored under its key. */
  lemma AddXPOnto(r: User, user: User, xp: int, now: int)
    ensures var v := StepUser(r, AddXPWrite(user, xp), KeyOf(user), now);
      && v.xp == user.xp + xp
      && (LevelOf(user.xp + xp) > LevelOf(user.xp) ==> v.balance == user.balance + LevelReward(LevelOf(user.xp + xp)))
      && (LevelOf(user.xp + xp) <= LevelOf(user.xp) ==> v.balance == r.balance)
  {
  }

}
