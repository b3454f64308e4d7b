/**
 * Mining (`MiningManager.mine`): a per-day counter reset on a new
 * calendar day, a daily cap, a cooldown, a random payout, a one-in-ten
 * chance of a special item and XP for a rich find.
 */
module Mining {
  import opened Common
  import opened Types
  import opened Ledger

  const MaxMinesPerDay: int := 50
  const MineCooldownMs: int := 10 * SecondMs
  const MineBase: int := 1000

  /** SPECIAL_ITEMS: what a lucky mine may turn up. */
  const SpecialItems: seq<Item> := [
    Item("diamond", "💎 Diamante Raro", "Aumenta seu XP em 1.5x", 10000, true, None, ItemEffect(XpBoost, 1.5), []),
    Item("star", "🌟 Estrela Luminosa", "Aumenta seu multiplicador de trabalho em 1.2x", 15000, true, None,
         ItemEffect(WorkMultiplier, 1.2), []),
    Item("crystal", "🎇 Cristal Mágico", "Aumenta sua chance de roubo em 0.1", 20000, true, None,
         ItemEffect(RobChance, 0.1), [])
  ]

  /** The draws of one mine: bonus, whether an item is found, which one, the XP. */
  datatype MineDraws = MineDraws(bonus: Draw, find: Draw, item: Draw, xp: Draw)

  /** What `mine` replies. */
  datatype MineReply =
    | MineCapped(untilReset: Remaining)
    | MineWait(remaining: Remaining)
    | Mined(amount: int, found: Option<Item>, xpGained: Option<int>)

  /** The reset update issued on the first mine of a calendar day. */
  function MineResetWrites(user: User, now: int, dateOf: int -> CivilDate): (ws: seq<Write>)
    ensures NewCalendarDay(dateOf, user.lastMineReset, now) ==>
      ws == [Write(KeyOf(user), NoChange.(mineCount := Some(0), lastMineReset := Some(Some(now))))]
    ensures !NewCalendarDay(dateOf, user.lastMineReset, now) ==> ws == []
  {
    if NewCalendarDay(dateOf, user.lastMineReset, now)
    then [Write(KeyOf(user), NoChange.(mineCount := Some(0), lastMineReset := Some(Some(now))))]
    else []
  }

  /** The day's count of mines as `mine` sees it after the reset check. */
  function MinesToday(user: User, now: int, dateOf: int -> CivilDate): int
  {
    if NewCalendarDay(dateOf, user.lastMineReset, now) then 0 else user.mineCount
  }

  /** `1000 + Math.floor(Math.random() * 4000)`. */
  function MinePayout(r: Draw): (amount: int)
    ensures MineBase <= amount < MineBase + 4000
  {
    MineBase + Pick(r, 4000)
  }

  /** The special item of a find: a uniform pick from SPECIAL_ITEMS. */
  function SpecialItem(r: Draw): (item: Item)
    ensures item in SpecialItems
    ensures item.minLevel.None? && item.keywords == []
  {
    SpecialItems[Pick(r, |SpecialItems|)]
  }

  /**
   * The reply of one `mine` on the snapshot `user`: refused at the daily
   * cap (counted after the day's reset), refused within the cooldown of a
   * recorded last mine, otherwise a payout, a possible item and XP when an
   * item was found or the payout exceeds 3000.
   */
  function MineResult(user: User, now: int, dateOf: int -> CivilDate, nextReset: int -> int, d: MineDraws): (reply: MineReply)
    ensures reply.MineCapped? <==> MinesToday(user, now, dateOf) >= MaxMinesPerDay
    ensures reply.MineCapped? ==> reply.untilReset == UntilReset(nextReset, user.lastMineReset, now)
    ensures reply.MineWait? <==>
      MinesToday(user, now, dateOf) < MaxMinesPerDay && user.lastMine.Some? && now - user.lastMine.value < MineCooldownMs
    ensures reply.MineWait? ==> reply.remaining == FormatRemaining(MineCooldownMs - (now - user.lastMine.value))
    ensures reply.Mined? ==>
      && reply.amount == MinePayout(d.bonus)
      && (reply.found.Some? <==> d.find < 0.1)
      && (reply.found.Some? ==> reply.found.value == SpecialItem(d.item))
      && (reply.xpGained.Some? <==> reply.found.Some? || reply.amount > 3000)
      && (reply.xpGained.Some? ==> 50 <= reply.xpGained.value < 100)
  {
    if MinesToday(user, now, dateOf) >= MaxMinesPerDay then MineCapped(UntilReset(nextReset, user.lastMineReset, now))
    else if user.lastMine.Some? && now - user.lastMine.value < MineCooldownMs then
      MineWait(FormatRemaining(MineCooldownMs - (now - user.lastMine.value)))
    else
      var amount := MinePayout(d.bonus);
      var found := if d.find < 0.1 then Some(SpecialItem(d.item)) else None;
      var xp := if found.Some? || amount > 3000 then Some(Pick(d.xp, 50) + 50) else None;
      Mined(amount, found, xp)
  }

  /** The payout update: last_mine, the count plus one, the balance, and the inventory only when an item was found. */
  function MinePatch(user: User, now: int, count: int, amount: int, found: Option<Item>): (p: UserPatch)
    ensures p.lastMine == Some(Some(now)) && p.mineCount == Some(count + 1) && p.balance == Some(user.balance + amount)
    ensures found.Some? ==> p.inventory == Some(user.inventory + [found.value])
    ensures found.None? ==> p.inventory.None?
    ensures p.xp.None? && p.lastMineReset.None? && p.crops.None? && p.effectEntry.None?
  {
    var p := NoChange.(lastMine := Some(Some(now)), mineCount := Some(count + 1), balance := Some(user.balance + amount));
    if found.Some? then p.(inventory := Some(user.inventory + [found.value])) else p
  }

  /**
   * The updates `mine` issues for a given reply: the day's reset, then for
   * a payout the payout update and, when XP was granted, the XP update.
   */
  function MineWrites(user: User, now: int, dateOf: int -> CivilDate, reply: MineReply): (ws: seq<Write>)
    ensures |ws| >= |MineResetWrites(user, now, dateOf)|
    ensures ws[..|MineResetWrites(user, now, dateOf)|] == MineResetWrites(user, now, dateOf)
    ensures !reply.Mined? ==> ws == MineResetWrites(user, now, dateOf)
    ensures reply.Mined? ==>
      |ws| == |MineResetWrites(user, now, dateOf)| + (if reply.xpGained.Some? then 2 else 1)
  {
    var reset := MineResetWrites(user, now, dateOf);
    if !reply.Mined? then reset
    else
      var mined := Write(KeyOf(user), MinePatch(user, now, MinesToday(user, now, dateOf), reply.amount, reply.found));
      if reply.xpGained.Some?
      then reset + [mined, Write(KeyOf(user), NoChange.(xp := Some(user.xp + reply.xpGained.value)))]
      else reset + [mined]
  }

  /** `mine` against the ledger: the reset, the payout and the XP updates, in order. */
  method Mine(db: Database, user: User, now: int, dateOf: int -> CivilDate, nextReset: int -> int, d: MineDraws) returns (reply: MineReply)
    requires db.Valid()
    modifies db`users
    ensures db.Valid()
    ensures reply == MineResult(user, now, dateOf, nextReset, d)
    ensures db.users == Replay(old(db.users), MineWrites(user, now, dateOf, reply), now)
  {
    ghost var ws: seq<Write> := [];
    var mineCount := user.mineCount;
    if NewCalendarDay(dateOf, user.lastMineReset, now) {
      var reset := Write(KeyOf(user), NoChange.(mineCount := Some(0), lastMineReset := Some(Some(now))));
      db.UpdateUser(user.userId, user.groupId, reset.patch, now);
      ReplayOne(old(db.users), reset, now);
      ws := [reset];
      assert db.users == Replay(old(db.users), ws, now);
      mineCount := 0;
    }
    assert ws == MineResetWrites(user, now, dateOf);
    if mineCount >= MaxMinesPerDay {
      return MineCapped(UntilReset(nextReset, user.lastMineReset, now));
    }
    if user.lastMine.Some? {
      var sinceLast := now - user.lastMine.value;
      if sinceLast < MineCooldownMs {
        return MineWait(FormatRemaining(MineCooldownMs - sinceLast));
      }
    }
    reply := Dig(db, user, now, dateOf, nextReset, mineCount, d, old(db.users));
  }

  /** The payout and XP updates of a mine that passed the cap and the cooldown, after the day's reset. */
  method Dig(db: Database, user: User, now: int, dateOf: int -> CivilDate, nextReset: int -> int, mineCount: int,
             d: MineDraws, ghost users: map<Key, User>) returns (reply: MineReply)
    requires db.Valid() && db.users == Replay(users, MineResetWrites(user, now, dateOf), now)
    requires mineCount == MinesToday(user, now, dateOf) < MaxMinesPerDay
    requires user.lastMine.Some? ==> now - user.lastMine.value >= MineCooldownMs
    modifies db`users
    ensures db.Valid()
    ensures reply == MineResult(user, now, dateOf, nextReset, d)
    ensures db.users == Replay(users, MineWrites(user, now, dateOf, reply), now)
  {
    ghost var ws := MineResetWrites(user, now, dateOf);
    var amount := MinePayout(d.bonus);
    var found: Option<Item> := None;
    var inventory := user.inventory;
    if d.find < 0.1 {
      var item := SpecialItem(d.item);
      found := Some(item);
      inventory := inventory + [item];
    }
    var patch := NoChange.(lastMine := Some(Some(now)), mineCount := Some(mineCount + 1),
                           balance := Some(user.balance + amount));
    if found.Some? {
      patch := patch.(inventory := Some(inventory));
    }
    assert patch == MinePatch(user, now, mineCount, amount, found);
    var mined := Write(KeyOf(user), patch);
    db.UpdateUser(user.userId, user.groupId, patch, now);
    ReplayStep(users, ws, mined, now);
    ws := ws + [mined];
    assert db.users == Replay(users, ws, now);
    var xpGained: Option<int> := None;
    if found.Some? || amount > 3000 {
      var xp := Pick(d.xp, 50) + 50;
      xpGained := Some(xp);
      var gain := Write(KeyOf(user), NoChange.(xp := Some(user.xp + xp)));
      db.UpdateUser(user.userId, user.groupId, gain.patch, now);
      ReplayStep(users, ws, gain, now);
      ws := ws + [gain];
      assert db.users == Replay(users, ws, now);
    }
    reply := Mined(amount, found, xpGained);
    assert ws == MineWrites(user, now, dateOf, reply);
  }

  /** The stored record after the day's reset and the payout update. */
  lemma MinePayoutStage(users: map<Key, User>, user: User, now: int, dateOf: int -> CivilDate, reply: MineReply)
    requires KeyOf(user) in users && users[KeyOf(user)] == user
    requires reply.Mined?
    ensures var mined := Write(KeyOf(user), MinePatch(user, now, MinesToday(user, now, dateOf), reply.amount, reply.found));
      var v := Replay(users, MineResetWrites(user, now, dateOf) + [mined], now)[KeyOf(user)];
      && v.mineCount == MinesToday(user, now, dateOf) + 1
      && v.balance == user.balance + reply.amount
      && v.lastMine == Some(now)
      && v.xp == user.xp
      && (reply.found.Some? ==> v.inventory == user.inventory + [reply.found.value])
      && (reply.found.None? ==> v.inventory == user.inventory)
  {
    var k := KeyOf(user);
    var reset := MineResetWrites(user, now, dateOf);
    var v1 := Replay(users, reset, now)[k];
    assert v1.balance == user.balance && v1.xp == user.xp && v1.inventory == user.inventory by {
      if reset != [] {
        ReplayOne(users, reset[0], now);
      }
    }
    var mined := Write(k, MinePatch(user, now, MinesToday(user, now, dateOf), reply.amount, reply.found));
    ReplayStepAt(users, reset, mined, now);
  }

  /**
   * A successful mine on a current snapshot: the stored count is the
   * day's count plus one, the balance rises by the payout, the inventory
   * grows by exactly one entry when an item was found and is otherwise
   * untouched, and the XP rises by the XP granted.
   */
  lemma MineStoredRecord(users: map<Key, User>, user: User, now: int, dateOf: int -> CivilDate, reply: MineReply)
    requires KeyOf(user) in users && users[KeyOf(user)] == user
    requires reply.Mined?
    ensures var after := Replay(users, MineWrites(user, now, dateOf, reply), now)[KeyOf(user)];
      && after.mineCount == MinesToday(user, now, dateOf) + 1
      && after.balance == user.balance + reply.amount
      && after.lastMine == Some(now)
      && (reply.found.Some? ==> after.inventory == user.inventory + [reply.found.value])
      && (reply.found.None? ==> after.inventory == user.inventory)
      && (reply.xpGained.Some? ==> after.xp == user.xp + reply.xpGained.value)
      && (reply.xpGained.None? ==> after.xp == user.xp)
  {
    var k := KeyOf(user);
    var reset := MineResetWrites(user, now, dateOf);
    var mined := Write(k, MinePatch(user, now, MinesToday(user, now, dateOf), reply.amount, reply.found));
    MinePayoutStage(users, user, now, dateOf, reply);
    if reply.xpGained.Some? {
      MineXPStage(users, user, now, dateOf, reply);
    } else {
      assert reset + [mined] == MineWrites(user, now, dateOf, reply);
    }
  }

  /** The XP update after the payout raises only the XP of the stored record. */
  lemma MineXPStage(users: map<Key, User>, user: User, now: int, dateOf: int -> CivilDate, reply: MineReply)
    requires KeyOf(user) in users
    requires reply.Mined? && reply.xpGained.Some?
    ensures var k := KeyOf(user);
      var mined := Write(k, MinePatch(user, now, MinesToday(user, now, dateOf), reply.amount, reply.found));
      var v := Replay(users, MineResetWrites(user, now, dateOf) + [mined], now)[k];
      var after := Replay(users, MineWrites(user, now, dateOf, reply), now)[k];
      after == v.(xp := user.xp + reply.xpGained.value, updatedAt := now)
  {
    var k := KeyOf(user);
    var reset := MineResetWrites(user, now, dateOf);
    var mined := Write(k, MinePatch(user, now, MinesToday(user, now, dateOf), reply.amount, reply.found));
    var gain := Write(k, NoChange.(xp := Some(user.xp + reply.xpGained.value)));
    assert reset + [mined] + [gain] == MineWrites(user, now, dateOf, reply);
    ReplayStepAt(users, reset + [mined], gain, now);
  }

  /** A refused mine changes nothing beyond the day's reset. */
  lemma RefusedMineOnlyResets(users: map<Key, User>, user: User, now: int, dateOf: int -> CivilDate, nextReset: int -> int, d: MineDraws)
    requires KeyOf(user) in users && users[KeyOf(user)] == user
    requires !MineResult(user, now, dateOf, nextReset, d).Mined?
    ensures var after := Replay(users, MineWrites(user, now, dateOf, MineResult(user, now, dateOf, nextReset, d)), now)[KeyOf(user)];
      if NewCalendarDay(dateOf, user.lastMineReset, now)
      then after == user.(mineCount := 0, lastMineReset := Some(now), updatedAt := now)
      else after == user
  {
    var ws := MineResetWrites(user, now, dateOf);
    if ws != [] {
      ReplayStep(users, [], ws[0], now);
      assert [] + [ws[0]] == ws;
    }
  }

  /** Mining at exactly one cooldown after the last mine is not refused for the cooldown. */
  lemma MineBoundaryAllowed(user: User, dateOf: int -> CivilDate, nextReset: int -> int, d: MineDraws)
    requires user.lastMine.Some?
    requires MinesToday(user, user.lastMine.value + MineCooldownMs, dateOf) < MaxMinesPerDay
    ensures MineResult(user, user.lastMine.value + MineCooldownMs, dateOf, nextReset, d).Mined?
  {
  }
}
