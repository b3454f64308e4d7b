/**
 * Robbery (`RobberyManager.rob`): a per-day counter reset on a new
 * calendar day, a daily cap, a cooldown, a floor on the target's wealth,
 * a random share of the target's balance and a success chance raised by
 * the robber's rob_chance skill. A caught robber pays half the amount as
 * a fine.
 */
module Robbery {
  import opened Common
  import opened Types
  import opened Ledger

  const MaxRobsPerDay: int := 50
  const RobCooldownMs: int := 10 * SecondMs
  /** A target with less than this is too poor to be robbed. */
  const MinTargetBalance: int := 100
  const MaxRobAmount: int := 5000

  /** The draws of one robbery: the share, the success test, the XP. */
  datatype RobDraws = RobDraws(share: Draw, success: Draw, xp: Draw)

  /** What `rob` replies. */
  datatype RobReply =
    | RobCapped(untilReset: Remaining)
    | RobWait(remaining: Remaining)
    | TargetTooPoor
    | Robbed(amount: int, xpGained: int)
    | Caught(fine: int)

  /** `Math.min(target.balance * 0.3, 5000)`. */
  function RobCeiling(targetBalance: int): (cap: real)
    ensures cap <= MaxRobAmount as real
    ensures targetBalance >= 0 ==> 0.0 <= cap <= targetBalance as real
    ensures targetBalance >= MinTargetBalance ==> cap >= 30.0
  {
    var share := 0.3 * targetBalance as real;
    if share < MaxRobAmount as real then share else MaxRobAmount as real
  }

  /** `Math.random() * maxRobAmount`: a draw scales a non-negative ceiling to no more than the ceiling itself. */
  function Share(r: Draw, cap: real): (x: real)
    requires cap >= 0.0
    ensures 0.0 <= x <= cap
    ensures cap > 0.0 ==> x < cap
  {
    MulNonNegative(r, cap);
    MulNonNegative(1.0 - r, cap);
    assert cap - r * cap == (1.0 - r) * cap;
    r * cap
  }

  lemma MulNonNegative(a: real, b: real)
    requires a >= 0.0 && b >= 0.0
    ensures a * b >= 0.0
  {
  }

  /**
   * `Math.floor(Math.random() * maxRobAmount)`: on a target rich enough to
   * be robbed, a whole amount below the ceiling, so never more than the
   * target holds nor more than 4999.
   */
  function RobAmount(r: Draw, targetBalance: int): (amount: int)
    requires targetBalance >= MinTargetBalance
    ensures 0 <= amount && (amount as real) < RobCeiling(targetBalance)
    ensures amount <= targetBalance && amount < MaxRobAmount
  {
    Share(r, RobCeiling(targetBalance)).Floor
  }

  /** `Math.min(0.6 + (user.skills.rob_chance || 0), 0.9)`. */
  function SuccessChance(robChance: real): (p: real)
    ensures p <= 0.9
    ensures p == 0.9 <==> robChance >= 0.3
    ensures robChance < 0.3 ==> p == 0.6 + robChance
  {
    if 0.6 + robChance < 0.9 then 0.6 + robChance else 0.9
  }

  /** `Math.floor(robAmount * 0.5)`: half the amount, rounded down. */
  function Fine(amount: int): (fine: int)
    ensures amount >= 0 ==> fine == amount / 2 && 0 <= fine <= amount
  {
    (amount as real * 0.5).Floor
  }

  /** The reset update issued on the first robbery of a calendar day. */
  function RobResetWrites(user: User, now: int, dateOf: int -> CivilDate): (ws: seq<Write>)
    ensures NewCalendarDay(dateOf, user.lastRobReset, now) ==>
      ws == [Write(KeyOf(user), NoChange.(robCount := Some(0), lastRobReset := Some(Some(now))))]
    ensures !NewCalendarDay(dateOf, user.lastRobReset, now) ==> ws == []
  {
    if NewCalendarDay(dateOf, user.lastRobReset, now)
    then [Write(KeyOf(user), NoChange.(robCount := Some(0), lastRobReset := Some(Some(now))))]
    else []
  }

  /** The day's count of robberies as `rob` sees it after the reset check. */
  function RobbedToday(user: User, now: int, dateOf: int -> CivilDate): int
  {
    if NewCalendarDay(dateOf, user.lastRobReset, now) then 0 else user.robCount
  }

  /**
   * The reply of one `rob` by the snapshot `user` of the snapshot `target`:
   * refused at the daily cap, within the cooldown of a recorded last
   * robbery, or when the target has less than 100; otherwise a success
   * when the draw is below the success chance, and a fine of half the
   * amount when it is not.
   */
  function RobResult(user: User, target: User, now: int, dateOf: int -> CivilDate, nextReset: int -> int, d: RobDraws): (reply: RobReply)
    ensures reply.RobCapped? <==> RobbedToday(user, now, dateOf) >= MaxRobsPerDay
    ensures reply.RobCapped? ==> reply.untilReset == UntilReset(nextReset, user.lastRobReset, now)
    ensures reply.RobWait? <==>
      RobbedToday(user, now, dateOf) < MaxRobsPerDay && user.lastRob.Some? && now - user.lastRob.value < RobCooldownMs
    ensures reply.RobWait? ==> reply.remaining == FormatRemaining(RobCooldownMs - (now - user.lastRob.value))
    ensures reply.TargetTooPoor? <==> !reply.RobCapped? && !reply.RobWait? && target.balance < MinTargetBalance
    ensures reply.Robbed? <==>
      !reply.RobCapped? && !reply.RobWait? && !reply.TargetTooPoor? && d.success < SuccessChance(user.skills.robChance)
    ensures reply.Robbed? ==>
      target.balance >= MinTargetBalance &&
      reply.amount == RobAmount(d.share, target.balance) && 0 <= reply.amount <= target.balance &&
      60 <= reply.xpGained < 120
    ensures reply.Caught? ==>
      target.balance >= MinTargetBalance && reply.fine == Fine(RobAmount(d.share, target.balance)) && 0 <= reply.fine
  {
    if RobbedToday(user, now, dateOf) >= MaxRobsPerDay then RobCapped(UntilReset(nextReset, user.lastRobReset, now))
    else if user.lastRob.Some? && now - user.lastRob.value < RobCooldownMs then
      RobWait(FormatRemaining(RobCooldownMs - (now - user.lastRob.value)))
    else if target.balance < MinTargetBalance then TargetTooPoor
    else
      var amount := RobAmount(d.share, target.balance);
      if d.success < SuccessChance(user.skills.robChance) then Robbed(amount, Pick(d.xp, 60) + 60)
      else Caught(Fine(amount))
  }

  /** The robber's update of an attempt: the stamp, the day's count plus one and the new balance. */
  function RobberWrite(user: User, now: int, count: int, balance: int): (w: Write)
    ensures w.key == KeyOf(user)
    ensures w.patch == NoChange.(lastRob := Some(Some(now)), robCount := Some(count + 1), balance := Some(balance))
  {
    Write(KeyOf(user), NoChange.(lastRob := Some(Some(now)), robCount := Some(count + 1), balance := Some(balance)))
  }

  /**
   * The updates `rob` issues for a reply: the day's reset, then for a
   * success the robber's update, the target's debit and the robber's XP,
   * and for a failure the robber's update with the fine.
   */
  function RobWrites(user: User, target: User, now: int, dateOf: int -> CivilDate, reply: RobReply): seq<Write>
  {
    var reset := RobResetWrites(user, now, dateOf);
    var count := RobbedToday(user, now, dateOf);
    match reply
    case Robbed(amount, xpGained) =>
      reset + [RobberWrite(user, now, count, user.balance + amount)]
            + [Write(KeyOf(target), NoChange.(balance := Some(target.balance - amount)))]
            + [Write(KeyOf(user), NoChange.(xp := Some(user.xp + xpGained)))]
    case Caught(fine) => reset + [RobberWrite(user, now, count, user.balance - fine)]
    case _ => reset
  }

  /** `rob` against the ledger: the reset, then the updates of a success or of a failure, in order. */
  method Rob(db: Database, user: User, target: User, now: int, dateOf: int -> CivilDate, nextReset: int -> int, d: RobDraws)
    returns (reply: RobReply)
    requires db.Valid()
    modifies db`users
    ensures db.Valid()
    ensures reply == RobResult(user, target, now, dateOf, nextReset, d)
    ensures db.users == Replay(old(db.users), RobWrites(user, target, now, dateOf, reply), now)
  {
    ghost var ws: seq<Write> := [];
    if NewCalendarDay(dateOf, user.lastRobReset, now) {
      var reset := Write(KeyOf(user), NoChange.(robCount := Some(0), lastRobReset := Some(Some(now))));
      db.UpdateUser(user.userId, user.groupId, reset.patch, now);
      ReplayOne(old(db.users), reset, now);
      ws := [reset];
    }
    assert ws == RobResetWrites(user, now, dateOf);
    assert db.users == Replay(old(db.users), ws, now);
    var robCount := RobbedToday(user, now, dateOf);
    if robCount >= MaxRobsPerDay {
      return RobCapped(UntilReset(nextReset, user.lastRobReset, now));
    }
    if user.lastRob.Some? {
      var sinceLast := now - user.lastRob.value;
      if sinceLast < RobCooldownMs {
        return RobWait(FormatRemaining(RobCooldownMs - sinceLast));
      }
    }
    if target.balance < MinTargetBalance {
      return TargetTooPoor;
    }
    var amount := RobAmount(d.share, target.balance);
    if d.success < SuccessChance(user.skills.robChance) {
      var robber := RobberWrite(user, now, robCount, user.balance + amount);
      var debit := Write(KeyOf(target), NoChange.(balance := Some(target.balance - amount)));
      var xpGained := Pick(d.xp, 60) + 60;
      var gain := Write(KeyOf(user), NoChange.(xp := Some(user.xp + xpGained)));
      reply := Robbed(amount, xpGained);
      assert RobWrites(user, target, now, dateOf, reply) == ws + [robber] + [debit] + [gain];
      db.UpdateAfter(old(db.users), ws, robber, now);
      db.UpdateAfter(old(db.users), ws + [robber], debit, now);
      db.UpdateAfter(old(db.users), ws + [robber] + [debit], gain, now);
    } else {
      var fine := Fine(amount);
      var robber := RobberWrite(user, now, robCount, user.balance - fine);
      reply := Caught(fine);
      assert RobWrites(user, target, now, dateOf, reply) == ws + [robber];
      db.UpdateAfter(old(db.users), ws, robber, now);
    }
  }

  /** The default rob_chance of a new record, 1, makes every robbery succeed with probability 0.9. */
  lemma DefaultSkillsSucceedAtNinety()
    ensures SuccessChance(DefaultSkills.robChance) == 0.9
  {
  }

  /**
   * A successful robbery between two different users: the robber gains
   * exactly what the target loses, so the pair's total is unchanged and
   * the target never goes below zero; the robber's day count, stamp and
   * XP advance. Each record is the one its key holds after the writes
   * (`Ledger.ReplayAtKey` ties it to the stored collection).
   */
  lemma RobberySuccessConserves(user: User, target: User, now: int, dateOf: int -> CivilDate, reply: RobReply)
    requires KeyOf(user) != KeyOf(target)
    requires reply.Robbed? && 0 <= reply.amount <= target.balance
    ensures var ws := RobWrites(user, target, now, dateOf, reply);
      var robber := ReplayUser(user, ws, KeyOf(user), now);
      var victim := ReplayUser(target, ws, KeyOf(target), now);
      && robber.balance == user.balance + reply.amount
      && victim.balance == target.balance - reply.amount >= 0
      && robber.balance + victim.balance == user.balance + target.balance
      && robber.xp == user.xp + reply.xpGained
      && robber.robCount == RobbedToday(user, now, dateOf) + 1
      && robber.lastRob == Some(now)
  {
    var reset := RobResetWrites(user, now, dateOf);
    var robber := RobberWrite(user, now, RobbedToday(user, now, dateOf), user.balance + reply.amount);
    var debit := Write(KeyOf(target), NoChange.(balance := Some(target.balance - reply.amount)));
    var gain := Write(KeyOf(user), NoChange.(xp := Some(user.xp + reply.xpGained)));
    assert RobWrites(user, target, now, dateOf, reply) == reset + [robber] + [debit] + [gain];
    ReplayUserAroundOther(user, reset, robber, debit, gain, KeyOf(user), now);
    RobbedTargetRecord(target, reset, robber, debit, gain, now);
  }

  /** The target's record when only one of the writes after the robber's reset is its own. */
  lemma RobbedTargetRecord(target: User, reset: seq<Write>, robber: Write, debit: Write, gain: Write, now: int)
    requires forall i :: 0 <= i < |reset| ==> reset[i].key != debit.key
    requires robber.key != debit.key && gain.key != debit.key
    ensures ReplayUser(target, reset + [robber] + [debit] + [gain], debit.key, now) == ApplyPatch(target, debit.patch, now)
  {
    var t := debit.key;
    ReplayUserThen(target, reset + [robber] + [debit], gain, t, now);
    ReplayUserThen(target, reset + [robber], debit, t, now);
    ReplayUserThen(target, reset, robber, t, now);
    ReplayUserUntouched(target, reset, t, now);
  }

  /**
   * A failed robbery changes only the robber: the fine comes off the
   * balance with no check that the robber can pay it, and the target's
   * record stays as it was.
   */
  lemma CaughtChangesOnlyRobber(user: User, target: User, now: int, dateOf: int -> CivilDate, reply: RobReply)
    requires KeyOf(user) != KeyOf(target)
    requires reply.Caught?
    ensures var ws := RobWrites(user, target, now, dateOf, reply);
      var robber := ReplayUser(user, ws, KeyOf(user), now);
      && robber.balance == user.balance - reply.fine
      && robber.robCount == RobbedToday(user, now, dateOf) + 1
      && robber.lastRob == Some(now)
      && ReplayUser(target, ws, KeyOf(target), now) == target
  {
    var ws := RobWrites(user, target, now, dateOf, reply);
    CaughtRobberRecord(user, target, now, dateOf, reply);
    assert forall i :: 0 <= i < |ws| ==> ws[i].key != KeyOf(target);
    ReplayUserUntouched(target, ws, KeyOf(target), now);
  }

  /** The robber's record after a failed robbery. */
  lemma CaughtRobberRecord(user: User, target: User, now: int, dateOf: int -> CivilDate, reply: RobReply)
    requires reply.Caught?
    ensures var robber := ReplayUser(user, RobWrites(user, target, now, dateOf, reply), KeyOf(user), now);
      && robber.balance == user.balance - reply.fine
      && robber.robCount == RobbedToday(user, now, dateOf) + 1
      && robber.lastRob == Some(now)
  {
    var reset := RobResetWrites(user, now, dateOf);
    var robber := RobberWrite(user, now, RobbedToday(user, now, dateOf), user.balance - reply.fine);
    assert RobWrites(user, target, now, dateOf, reply) == reset + [robber];
    ReplayUserThen(user, reset, robber, KeyOf(user), now);
  }

  /**
   * A caught robber with an empty purse ends in debt: robbing a target
   * holding 10000 with a share draw of one half and a failing success
   * draw fines 750 and leaves the robber's balance at -750.
   */
  lemma CaughtRobberGoesNegative(user: User, target: User, now: int, dateOf: int -> CivilDate, nextReset: int -> int)
    requires user.balance == 0 && target.balance == 10000
    requires RobbedToday(user, now, dateOf) < MaxRobsPerDay && user.lastRob.None?
    ensures var reply := RobResult(user, target, now, dateOf, nextReset, RobDraws(0.5, 0.95, 0.0));
      && reply == Caught(750)
      && ReplayUser(user, RobWrites(user, target, now, dateOf, reply), KeyOf(user), now).balance == -750
  {
    assert RobCeiling(10000) == 3000.0;
    assert RobAmount(0.5, 10000) == 1500;
    assert Fine(1500) == 750;
    CaughtRobberRecord(user, target, now, dateOf, Caught(750));
  }

  /**
   * Nothing stops a user from robbing themself: the target's debit is
   * computed from the snapshot taken before the robber's credit and
   * overwrites it, so a successful self-robbery loses the amount.
   */
  lemma SelfRobberyLoses(user: User, now: int, dateOf: int -> CivilDate, reply: RobReply)
    requires reply.Robbed?
    ensures ReplayUser(user, RobWrites(user, user, now, dateOf, reply), KeyOf(user), now).balance ==
      user.balance - reply.amount
  {
    var k := KeyOf(user);
    var reset := RobResetWrites(user, now, dateOf);
    var robber := RobberWrite(user, now, RobbedToday(user, now, dateOf), user.balance + reply.amount);
    var debit := Write(k, NoChange.(balance := Some(user.balance - reply.amount)));
    var gain := Write(k, NoChange.(xp := Some(user.xp + reply.xpGained)));
    assert RobWrites(user, user, now, dateOf, reply) == reset + [robber] + [debit] + [gain];
    ReplayUserThen(user, reset + [robber] + [debit], gain, k, now);
    ReplayUserThen(user, reset + [robber], debit, k, now);
  }

  /** A refused robbery changes nothing beyond the day's reset. */
  lemma RefusedRobberyOnlyResets(users: map<Key, User>, user: User, target: User, now: int, dateOf: int -> CivilDate, nextReset: int -> int,
                                 d: RobDraws)
    requires KeyOf(user) in users && users[KeyOf(user)] == user
    requires var reply := RobResult(user, target, now, dateOf, nextReset, d); !reply.Robbed? && !reply.Caught?
    ensures var after := Replay(users, RobWrites(user, target, now, dateOf, RobResult(user, target, now, dateOf, nextReset, d)), now);
      after == if NewCalendarDay(dateOf, user.lastRobReset, now)
               then users[KeyOf(user) := user.(robCount := 0, lastRobReset := Some(now), updatedAt := now)]
               else users
  {
    var ws := RobResetWrites(user, now, dateOf);
    if ws != [] {
      ReplayOne(users, ws[0], now);
    }
  }
}
