/**
 * Fishing (`FishingManager`): a daily counter with a calendar-day reset,
 * a cap, a cooldown, the rod found in the inventory, and one attempt that
 * walks the fish table in order.
 */
module Fishing {
  import opened Common
  import opened Types
  import opened Ledger

  const DailyFishLimit: int := 50
  const FishCooldownMs: int := 30 * SecondMs

  /** An entry of FISH_LIST (the emoji aside). */
  datatype Fish = Fish(id: string, name: string, rarity: string, value: int, xp: int, chance: real)

  const FishList: seq<Fish> := [
    Fish("sardinha", "Sardinha", "comum", 100, 20, 0.4),
    Fish("atum", "Atum", "incomum", 250, 40, 0.25),
    Fish("salmao", "Salmão", "raro", 500, 80, 0.15),
    Fish("polvo", "Polvo", "épico", 1000, 150, 0.15),
    Fish("baleia", "Baleia", "lendário", 2000, 300, 0.05)
  ]

  /** The multipliers the rods of the table carry: 1, 1.5 and 2. */
  datatype Multiplier = Times1 | Times1Half | Times2

  /** `x * rod.multiplier`. */
  function Scale(x: real, m: Multiplier): real
  {
    match m
    case Times1 => x
    case Times1Half => x * 1.5
    case Times2 => x * 2.0
  }

  /** An entry of FISHING_RODS (emoji and description aside). */
  datatype Rod = Rod(id: string, name: string, price: int, durability: int, multiplier: Multiplier, minLevel: int)

  const FishingRods: seq<Rod> := [
    Rod("vara_iniciante", "Vara de Iniciante", 1000, 50, Times1, 1),
    Rod("vara_profissional", "Vara Profissional", 5000, 100, Times1Half, 5),
    Rod("vara_mestre", "Vara do Mestre", 15000, 200, Times2, 10)
  ]

  /** Whether some rod of the table has this id. */
  predicate IsRodId(id: string)
  {
    exists i :: 0 <= i < |FishingRods| && FishingRods[i].id == id
  }

  /** `FISHING_RODS.find(r => r.id === id)`: the first rod with the id. */
  function RodById(id: string): (rod: Rod)
    requires IsRodId(id)
    ensures rod in FishingRods && rod.id == id
  {
    if FishingRods[0].id == id then FishingRods[0]
    else if FishingRods[1].id == id then FishingRods[1]
    else FishingRods[2]
  }

  /**
   * `findFishingRod`: the rod of the first inventory entry whose id is a
   * rod's id, or nothing when there is none.
   */
  function FindFishingRod(inventory: seq<Item>): (rod: Option<Rod>)
    ensures rod.None? <==> forall i :: 0 <= i < |inventory| ==> !IsRodId(inventory[i].id)
    ensures rod.Some? ==>
      (rod.value in FishingRods &&
       exists i :: 0 <= i < |inventory| && inventory[i].id == rod.value.id &&
                   forall j :: 0 <= j < i ==> !IsRodId(inventory[j].id))
  {
    if inventory == [] then None
    else if IsRodId(inventory[0].id) then Some(RodById(inventory[0].id))
    else
      var rest := FindFishingRod(inventory[1..]);
      assert forall i :: 1 <= i < |inventory| ==> inventory[i] == inventory[1..][i - 1];
      if rest.Some? then
        var i :| 0 <= i < |inventory[1..]| && inventory[1..][i].id == rest.value.id &&
                 forall j :: 0 <= j < i ==> !IsRodId(inventory[1..][j].id);
        assert inventory[i + 1].id == rest.value.id;
        rest
      else rest
  }

  /** Whether a draw scaled by the rod's multiplier lands within the fish's scaled chance. */
  predicate Catches(f: Fish, catchChance: real, multiplier: Multiplier)
  {
    catchChance <= Scale(f.chance, multiplier)
  }

  /** The first fish of `fishes` that the draw catches. */
  function FirstCatch(fishes: seq<Fish>, r: real, multiplier: Multiplier): (f: Option<Fish>)
    ensures f.Some? ==> f.value in fishes
  {
    if fishes == [] then None
    else if Catches(fishes[0], r, multiplier) then Some(fishes[0])
    else FirstCatch(fishes[1..], r, multiplier)
  }

  /** A `FishingResult`: what was caught, the coins and XP it is worth, and the rod damage shown. */
  datatype Catch = Catch(fish: Option<Fish>, coins: int, xp: int, rodDamage: int)

  /**
   * What `tryFishing` computes for a rod and two draws: the first fish with
   * `r·m ≤ chance·m`, its value and XP (nothing caught: 0 coins, 10 XP), and
   * a damage of 1 to 3.
   */
  function FishingCatch(rod: Rod, rCatch: Draw, rDamage: Draw): (c: Catch)
    ensures 1 <= c.rodDamage <= 3
    ensures c.fish.Some? ==> c.fish.value in FishList && c.coins == c.fish.value.value && c.xp == c.fish.value.xp
    ensures c.fish.None? ==> c.coins == 0 && c.xp == 10
  {
    var f := FirstCatch(FishList, Scale(rCatch, rod.multiplier), rod.multiplier);
    var damage := Pick(rDamage, 3) + 1;
    if f.Some? then Catch(f, f.value.value, f.value.xp, damage) else Catch(None, 0, 10, damage)
  }

  /** One step of the search: the head either is caught or the search goes on in the tail. */
  lemma FirstCatchStep(fishes: seq<Fish>, i: int, r: real, multiplier: Multiplier)
    requires 0 <= i < |fishes|
    ensures FirstCatch(fishes[i..], r, multiplier) ==
      if Catches(fishes[i], r, multiplier) then Some(fishes[i])
      else FirstCatch(fishes[i + 1..], r, multiplier)
  {
    assert fishes[i..][1..] == fishes[i + 1..];
  }

  /** `tryFishing`: the loop over FISH_LIST that stops at the first catch. */
  method TryFishing(rod: Rod, rCatch: Draw, rDamage: Draw) returns (c: Catch)
    ensures c == FishingCatch(rod, rCatch, rDamage)
  {
    var fishes := FishList;
    var catchChance := Scale(rCatch, rod.multiplier);
    var caught: Option<Fish> := None;
    var i := 0;
    assert fishes[0..] == fishes;
    while i < |fishes|
      invariant 0 <= i <= |fishes|
      invariant caught.None? ==> FirstCatch(fishes[i..], catchChance, rod.multiplier) == FirstCatch(fishes, catchChance, rod.multiplier)
      invariant caught.Some? ==> caught == FirstCatch(fishes, catchChance, rod.multiplier)
      decreases if caught.Some? then 0 else |fishes| - i
    {
      FirstCatchStep(fishes, i, catchChance, rod.multiplier);
      if Catches(fishes[i], catchChance, rod.multiplier) {
        caught := Some(fishes[i]);
        break;
      }
      i := i + 1;
    }
    if caught.None? {
      assert fishes[|fishes|..] == [];
    }
    var damage := Pick(rDamage, 3) + 1;
    if caught.None? {
      c := Catch(None, 0, 10, damage);
    } else {
      c := Catch(caught, caught.value.value, caught.value.xp, damage);
    }
  }

  /** Scaling the draw and every chance by the same multiplier changes nothing. */
  lemma {:induction false} FirstCatchScaleFree(fishes: seq<Fish>, r: real, m: Multiplier)
    ensures FirstCatch(fishes, Scale(r, m), m) == FirstCatch(fishes, r, Times1)
  {
    if fishes != [] {
      assert Catches(fishes[0], Scale(r, m), m) <==> Catches(fishes[0], r, Times1);
      FirstCatchScaleFree(fishes[1..], r, m);
    }
  }

  /** The rod's multiplier has no effect on what is caught. */
  lemma RodDoesNotMatter(rod: Rod, other: Rod, rCatch: Draw, rDamage: Draw)
    ensures FishingCatch(rod, rCatch, rDamage) == FishingCatch(other, rCatch, rDamage)
  {
    FirstCatchScaleFree(FishList, rCatch, rod.multiplier);
    FirstCatchScaleFree(FishList, rCatch, other.multiplier);
  }

  /**
   * Sardinha comes first and has the largest chance, so a draw that misses
   * it misses every fish: every catch is a Sardinha, and a catch happens
   * exactly when the draw is at most 0.4.
   */
  lemma OnlySardinha(rod: Rod, rCatch: Draw, rDamage: Draw)
    ensures FishingCatch(rod, rCatch, rDamage).fish.Some? <==> rCatch <= 0.4
    ensures FishingCatch(rod, rCatch, rDamage).fish.Some? ==> FishingCatch(rod, rCatch, rDamage).fish.value == FishList[0]
  {
    FirstCatchScaleFree(FishList, rCatch, rod.multiplier);
    if rCatch > 0.4 {
      MissesAll(FishList, rCatch);
    }
  }

  /** A draw above every chance catches nothing. */
  lemma {:induction false} MissesAll(fishes: seq<Fish>, r: real)
    requires forall i :: 0 <= i < |fishes| ==> r > fishes[i].chance
    ensures FirstCatch(fishes, r, Times1).None?
  {
    if fishes != [] {
      assert forall i :: 1 <= i < |fishes| ==> fishes[1..][i - 1] == fishes[i];
      MissesAll(fishes[1..], r);
    }
  }

  /** What `fish` replies. */
  datatype FishReply =
    | FishCapped(untilReset: Remaining)
    | FishWait(remaining: Remaining)
    | NoRod
    | Fished(result: Catch)

  /** The reset update issued on the first fishing of a calendar day. */
  function FishResetWrites(user: User, now: int, dateOf: int -> CivilDate): (ws: seq<Write>)
    ensures NewCalendarDay(dateOf, user.lastFishReset, now) ==>
      ws == [Write(KeyOf(user), NoChange.(fishCount := Some(0), lastFishReset := Some(Some(now))))]
    ensures !NewCalendarDay(dateOf, user.lastFishReset, now) ==> ws == []
  {
    if NewCalendarDay(dateOf, user.lastFishReset, now)
    then [Write(KeyOf(user), NoChange.(fishCount := Some(0), lastFishReset := Some(Some(now))))]
    else []
  }

  /** The day's count as `fish` sees it after the reset check. */
  function FishedToday(user: User, now: int, dateOf: int -> CivilDate): int
  {
    if NewCalendarDay(dateOf, user.lastFishReset, now) then 0 else user.fishCount
  }

  /**
   * The reply of one `fish` on the snapshot `user`: refused at the cap,
   * within the cooldown of a recorded last fishing, or without a rod;
   * otherwise the catch made with the first rod in the inventory.
   */
  function FishResult(user: User, now: int, dateOf: int -> CivilDate, nextReset: int -> int, rCatch: Draw, rDamage: Draw): (reply: FishReply)
    ensures reply.FishCapped? <==> FishedToday(user, now, dateOf) >= DailyFishLimit
    ensures reply.FishCapped? ==> reply.untilReset == UntilReset(nextReset, user.lastFishReset, now)
    ensures reply.FishWait? <==>
      FishedToday(user, now, dateOf) < DailyFishLimit && user.lastFish.Some? && now - user.lastFish.value < FishCooldownMs
    ensures reply.FishWait? ==> reply.remaining == FormatRemaining(FishCooldownMs - (now - user.lastFish.value))
    ensures reply.NoRod? <==> !reply.FishCapped? && !reply.FishWait? && FindFishingRod(user.inventory).None?
    ensures reply.Fished? ==> reply.result == FishingCatch(FindFishingRod(user.inventory).value, rCatch, rDamage)
  {
    if FishedToday(user, now, dateOf) >= DailyFishLimit then FishCapped(UntilReset(nextReset, user.lastFishReset, now))
    else if user.lastFish.Some? && now - user.lastFish.value < FishCooldownMs then
      FishWait(FormatRemaining(FishCooldownMs - (now - user.lastFish.value)))
    else
      var rod := FindFishingRod(user.inventory);
      if rod.None? then NoRod
      else Fished(FishingCatch(rod.value, rCatch, rDamage))
  }

  /** The one update of an attempt: the stamp, the day's count, and the catch's coins and XP. */
  function FishAttempt(user: User, now: int, count: int, result: Catch): (w: Write)
    ensures w.key == KeyOf(user)
    ensures w.patch == NoChange.(lastFish := Some(Some(now)), fishCount := Some(count),
                                 balance := Some(user.balance + result.coins), xp := Some(user.xp + result.xp))
  {
    Write(KeyOf(user), NoChange.(lastFish := Some(Some(now)), fishCount := Some(count),
                                 balance := Some(user.balance + result.coins), xp := Some(user.xp + result.xp)))
  }

  /** The updates `fish` issues for a reply: the day's reset, then one update for an attempt. */
  function FishWrites(user: User, now: int, dateOf: int -> CivilDate, reply: FishReply): (ws: seq<Write>)
    ensures !reply.Fished? ==> ws == FishResetWrites(user, now, dateOf)
    ensures reply.Fished? ==>
      ws == FishResetWrites(user, now, dateOf) + [FishAttempt(user, now, FishedToday(user, now, dateOf) + 1, reply.result)]
  {
    var reset := FishResetWrites(user, now, dateOf);
    if reply.Fished? then reset + [FishAttempt(user, now, FishedToday(user, now, dateOf) + 1, reply.result)]
    else reset
  }

  /** `fish` against the ledger. */
  method GoFishing(db: Database, user: User, now: int, dateOf: int -> CivilDate, nextReset: int -> int, rCatch: Draw, rDamage: Draw)
    returns (reply: FishReply)
    requires db.Valid()
    modifies db`users
    ensures db.Valid()
    ensures reply == FishResult(user, now, dateOf, nextReset, rCatch, rDamage)
    ensures db.users == Replay(old(db.users), FishWrites(user, now, dateOf, reply), now)
  {
    ghost var ws: seq<Write> := [];
    if NewCalendarDay(dateOf, user.lastFishReset, now) {
      var reset := Write(KeyOf(user), NoChange.(fishCount := Some(0), lastFishReset := Some(Some(now))));
      db.UpdateUser(user.userId, user.groupId, reset.patch, now);
      ReplayOne(old(db.users), reset, now);
      ws := [reset];
    }
    assert ws == FishResetWrites(user, now, dateOf);
    assert db.users == Replay(old(db.users), ws, now);
    var fishCount := FishedToday(user, now, dateOf);
    if fishCount >= DailyFishLimit {
      return FishCapped(UntilReset(nextReset, user.lastFishReset, now));
    }
    if user.lastFish.Some? {
      var sinceLast := now - user.lastFish.value;
      if sinceLast < FishCooldownMs {
        return FishWait(FormatRemaining(FishCooldownMs - sinceLast));
      }
    }
    var rod := FindFishingRod(user.inventory);
    if rod.None? {
      return NoRod;
    }
    var result := TryFishing(rod.value, rCatch, rDamage);
    var attempt := FishAttempt(user, now, fishCount + 1, result);
    reply := Fished(result);
    assert FishWrites(user, now, dateOf, reply) == ws + [attempt];
    db.UpdateUser(user.userId, user.groupId, attempt.patch, now);
    ReplayStep(old(db.users), ws, attempt, now);
  }

  /**
   * An attempt on a current snapshot writes the counter, the balance and
   * the XP, and leaves the inventory (and so the rod) as it was: rod wear
   * is only shown, never stored.
   */
  lemma FishingKeepsInventory(users: map<Key, User>, user: User, now: int, dateOf: int -> CivilDate, reply: FishReply)
    requires KeyOf(user) in users && users[KeyOf(user)] == user
    requires reply.Fished?
    ensures var after := Replay(users, FishWrites(user, now, dateOf, reply), now)[KeyOf(user)];
      && after.inventory == user.inventory
      && after.balance == user.balance + reply.result.coins
      && after.xp == user.xp + reply.result.xp
      && after.fishCount == FishedToday(user, now, dateOf) + 1
      && after.lastFish == Some(now)
  {
    var reset := FishResetWrites(user, now, dateOf);
    var v1 := Replay(users, reset, now)[KeyOf(user)];
    assert v1.inventory == user.inventory && v1.balance == user.balance && v1.xp == user.xp by {
      if reset != [] {
        ReplayOne(users, reset[0], now);
      }
    }
    var ws := FishWrites(user, now, dateOf, reply);
    ReplayStepAt(users, reset, ws[|reset|], now);
    assert reset + [ws[|reset|]] == ws;
  }
}
