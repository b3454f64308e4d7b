/**
 * The daily reward (`DailyManager.claimDaily`): after a cooldown since the
 * last claim, a base of 1000 coins plus a random bonus below 500.
 */
module Daily {
  import opened Common
  import opened Types
  import opened Ledger

  const DailyCooldownMs: int := 10 * SecondMs
  const DailyBase: int := 1000

  /** What `claimDaily` replies: the whole seconds still to wait, or the amount paid. */
  datatype DailyReply = DailyWait(seconds: int) | DailyPaid(amount: int)

  /** `1000 + Math.floor(Math.random() * 500)`. */
  function DailyReward(r: Draw): (amount: int)
    ensures DailyBase <= amount < DailyBase + 500
  {
    DailyBase + Pick(r, 500)
  }

  /**
   * The reply and the updates of a claim by the user snapshot `user` at
   * `now`. A claim less than the cooldown after the last one is refused
   * and writes nothing; any other claim is one update of last_daily and
   * of the balance.
   */
  function ClaimDailyOutcome(user: User, now: int, r: Draw): (o: (DailyReply, seq<Write>))
    ensures o.0.DailyWait? <==> now - Millis(user.lastDaily) < DailyCooldownMs
    ensures o.0.DailyWait? ==> o.1 == []
    ensures o.0.DailyWait? ==>
      var remaining := DailyCooldownMs - (now - Millis(user.lastDaily));
      0 < remaining && o.0.seconds * SecondMs <= remaining < (o.0.seconds + 1) * SecondMs
    ensures o.0.DailyPaid? ==>
      o.0.amount == DailyReward(r) &&
      o.1 == [Write(KeyOf(user), NoChange.(lastDaily := Some(Some(now)), balance := Some(user.balance + o.0.amount)))]
  {
    var elapsed := now - Millis(user.lastDaily);
    if elapsed < DailyCooldownMs then
      (DailyWait((DailyCooldownMs - elapsed) / SecondMs), [])
    else
      var amount := DailyReward(r);
      (DailyPaid(amount), [Write(KeyOf(user), NoChange.(lastDaily := Some(Some(now)), balance := Some(user.balance + amount)))])
  }

  /** `claimDaily` against the ledger. */
  method ClaimDaily(db: Database, user: User, now: int, r: Draw) returns (reply: DailyReply)
    requires db.Valid()
    modifies db`users
    ensures db.Valid()
    ensures reply == ClaimDailyOutcome(user, now, r).0
    ensures db.users == Replay(old(db.users), ClaimDailyOutcome(user, now, r).1, now)
  {
    var elapsed := now - Millis(user.lastDaily);
    if elapsed < DailyCooldownMs {
      reply := DailyWait((DailyCooldownMs - elapsed) / SecondMs);
      return;
    }
    var amount := DailyReward(r);
    var p := NoChange.(lastDaily := Some(Some(now)), balance := Some(user.balance + amount));
    db.UpdateUser(user.userId, user.groupId, p, now);
    ReplayOne(old(db.users), Write(KeyOf(user), p), now);
    assert ClaimDailyOutcome(user, now, r).1 == [Write(KeyOf(user), p)];
    assert db.users == Store(old(db.users), Write(KeyOf(user), p), now);
    reply := DailyPaid(amount);
  }

  /**
   * Claiming on a current snapshot never lowers the stored balance: a
   * refused claim leaves the record as it was and a paid one adds between
   * 1000 and 1499 coins and stamps last_daily.
   */
  lemma DailyNeverLowersBalance(users: map<Key, User>, user: User, now: int, r: Draw)
    requires KeyOf(user) in users && users[KeyOf(user)] == user
    ensures var after := Replay(users, ClaimDailyOutcome(user, now, r).1, now)[KeyOf(user)];
      after.balance >= user.balance &&
      (ClaimDailyOutcome(user, now, r).0.DailyPaid? ==>
         after.balance - user.balance == ClaimDailyOutcome(user, now, r).0.amount && after.lastDaily == Some(now))
  {
    var o := ClaimDailyOutcome(user, now, r);
    if o.0.DailyPaid? {
      ReplayStep(users, [], o.1[0], now);
      assert [] + [o.1[0]] == o.1;
    }
  }

  /** A claim exactly one cooldown after the last one is paid. */
  lemma DailyBoundaryPays(user: User, r: Draw)
    ensures ClaimDailyOutcome(user, Millis(user.lastDaily) + DailyCooldownMs, r).0.DailyPaid?
  {
  }
}
