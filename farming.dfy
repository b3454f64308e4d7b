/**
 * Farming (`FarmingManager`): planting a seed bought on the spot, which
 * grows for a fixed time, and harvesting it within a window whose payout
 * falls linearly from the full value to nothing; a crop left past the
 * window rots.
 */
module Farming {
  import opened Common
  import opened Types
  import opened Ledger
  import XpUtil

  /** A seed of SEEDS: its price, level requirement, crop, growth time and harvest window. */
  datatype Seed = Seed(id: string, name: string, price: int, minLevel: int, cropId: string, growthTime: int,
                       harvestWindow: int)

  const Seeds: seq<Seed> := [
    Seed("semente_cenoura", "Semente de Cenoura", 100, 1, "cenoura", 5 * MinuteMs, 10 * MinuteMs),
    Seed("semente_tomate", "Semente de Tomate", 250, 5, "tomate", 10 * MinuteMs, 15 * MinuteMs),
    Seed("semente_abacaxi", "Semente de Abacaxi", 500, 10, "abacaxi", 20 * MinuteMs, 30 * MinuteMs)
  ]

  /** CROPS; the planting and ripening times of the table entries are placeholders that planting overwrites. */
  const Crops: seq<Crop> := [
    Crop("cenoura", "Cenoura", 200, 50, 5 * MinuteMs, 0, 0, 10 * MinuteMs),
    Crop("tomate", "Tomate", 500, 100, 10 * MinuteMs, 0, 0, 15 * MinuteMs),
    Crop("abacaxi", "Abacaxi", 1000, 200, 20 * MinuteMs, 0, 0, 30 * MinuteMs)
  ]

  /** `SEEDS.find(s => s.id === id)`. */
  function FindSeed(seeds: seq<Seed>, id: string): (r: Option<Seed>)
    ensures r.None? <==> forall i :: 0 <= i < |seeds| ==> seeds[i].id != id
    ensures r.Some? ==> exists i :: 0 <= i < |seeds| && seeds[i] == r.value && r.value.id == id &&
                                    forall j :: 0 <= j < i ==> seeds[j].id != id
  {
    if seeds == [] then None
    else if seeds[0].id == id then Some(seeds[0])
    else
      var r := FindSeed(seeds[1..], id);
      assert forall j :: 1 <= j < |seeds| ==> seeds[1..][j - 1] == seeds[j];
      if r.Some? then
        var i :| 0 <= i < |seeds[1..]| && seeds[1..][i] == r.value && r.value.id == id &&
                 forall j :: 0 <= j < i ==> seeds[1..][j].id != id;
        assert seeds[i + 1] == r.value;
        r
      else r
  }

  /** `CROPS.find(c => c.id === id)`. */
  function FindCrop(crops: seq<Crop>, id: string): (r: Option<Crop>)
    ensures r.None? <==> forall i :: 0 <= i < |crops| ==> crops[i].id != id
    ensures r.Some? ==> r.value in crops && r.value.id == id
  {
    if crops == [] then None
    else if crops[0].id == id then Some(crops[0])
    else
      assert forall j :: 1 <= j < |crops| ==> crops[1..][j - 1] == crops[j];
      FindCrop(crops[1..], id)
  }

  /** Every seed names a crop of the table, and every crop has a harvest window. */
  lemma SeedsHaveCrops(seedId: string)
    ensures var s := FindSeed(Seeds, seedId);
      s.Some? ==> FindCrop(Crops, s.value.cropId).Some? && FindCrop(Crops, s.value.cropId).value.harvestWindow > 0
  {
    var s := FindSeed(Seeds, seedId);
    if s.Some? {
      assert s.value in Seeds;
      assert Crops[0].id == "cenoura" && Crops[1].id == "tomate" && Crops[2].id == "abacaxi";
    }
  }

  /** What `plant` replies; `Planted` carries the new crop and the price paid. */
  datatype PlantReply =
    | AlreadyGrowing
    | UnknownSeed
    | LevelTooLow(minLevel: int)
    | TooPoor(price: int)
    | NoSuchCrop
    | Planted(crop: Crop, cost: int)

  /**
   * The reply of `plant` for the record `user`: refused while a crop is
   * growing, for an unknown seed, below the seed's level or without its
   * price; otherwise the seed's crop, planted now and ripe after the
   * seed's growth time.
   */
  function PlantResult(user: User, seedId: string, now: int): (reply: PlantReply)
    ensures reply.AlreadyGrowing? <==> user.crops != []
    ensures reply.UnknownSeed? <==> user.crops == [] && FindSeed(Seeds, seedId).None?
    ensures reply.LevelTooLow? <==>
      user.crops == [] && FindSeed(Seeds, seedId).Some? && user.level < FindSeed(Seeds, seedId).value.minLevel
    ensures reply.TooPoor? <==>
      user.crops == [] && FindSeed(Seeds, seedId).Some? && user.level >= FindSeed(Seeds, seedId).value.minLevel &&
      user.balance < FindSeed(Seeds, seedId).value.price
    ensures reply.Planted? ==>
      var seed := FindSeed(Seeds, seedId).value;
      && user.crops == [] && FindSeed(Seeds, seedId).Some?
      && user.level >= seed.minLevel && reply.cost == seed.price && 0 <= user.balance - reply.cost
      && FindCrop(Crops, seed.cropId).Some?
      && reply.crop == FindCrop(Crops, seed.cropId).value.(plantedAt := now, readyAt := now + seed.growthTime)
      && reply.crop.id == seed.cropId
  {
    if user.crops != [] then AlreadyGrowing
    else match FindSeed(Seeds, seedId)
      case None => UnknownSeed
      case Some(seed) =>
        if user.level < seed.minLevel then LevelTooLow(seed.minLevel)
        else if user.balance < seed.price then TooPoor(seed.price)
        else match FindCrop(Crops, seed.cropId)
          case None => NoSuchCrop
          case Some(crop) => Planted(crop.(plantedAt := now, readyAt := now + seed.growthTime), seed.price)
  }

  /** The crop table never fails a known seed: the "cannot create" reply is unreachable. */
  lemma PlantNeverMissesCrop(user: User, seedId: string, now: int)
    ensures PlantResult(user, seedId, now) != NoSuchCrop
    ensures PlantResult(user, seedId, now).Planted? ==> PlantResult(user, seedId, now).crop.harvestWindow > 0
  {
    SeedsHaveCrops(seedId);
  }

  /** The update of a successful `plant`: the price paid, the stamp and the one new crop. */
  function PlantWrites(user: User, now: int, reply: PlantReply): seq<Write>
  {
    if reply.Planted? then
      [Write(KeyOf(user), NoChange.(balance := Some(user.balance - reply.cost), lastPlant := Some(Some(now)),
                                    crops := Some([reply.crop])))]
    else []
  }

  /** `plant` against the ledger. */
  method Plant(db: Database, user: User, seedId: string, now: int) returns (reply: PlantReply)
    requires db.Valid()
    modifies db`users
    ensures db.Valid()
    ensures reply == PlantResult(user, seedId, now)
    ensures db.users == Replay(old(db.users), PlantWrites(user, now, reply), now)
  {
    if |user.crops| > 0 {
      return AlreadyGrowing;
    }
    var found := FindSeed(Seeds, seedId);
    if found.None? {
      return UnknownSeed;
    }
    var seed := found.value;
    if user.level < seed.minLevel {
      return LevelTooLow(seed.minLevel);
    }
    if user.balance < seed.price {
      return TooPoor(seed.price);
    }
    var crop := FindCrop(Crops, seed.cropId);
    if crop.None? {
      return NoSuchCrop;
    }
    var newCrop := crop.value.(plantedAt := now, readyAt := now + seed.growthTime);
    reply := Planted(newCrop, seed.price);
    var w := Write(KeyOf(user), NoChange.(balance := Some(user.balance - seed.price), lastPlant := Some(Some(now)),
                                          crops := Some([newCrop])));
    assert PlantWrites(user, now, reply) == [] + [w];
    db.UpdateAfter(old(db.users), [], w, now);
  }

  /**
   * Planting keeps at most one crop per record and never overdraws: a
   * refused plant changes nothing, a successful one leaves exactly the
   * new crop and the balance less the price.
   */
  lemma PlantKeepsOneCrop(user: User, seedId: string, now: int)
    ensures var reply := PlantResult(user, seedId, now);
      var v := ReplayUser(user, PlantWrites(user, now, reply), KeyOf(user), now);
      && (|user.crops| <= 1 ==> |v.crops| <= 1)
      && (user.balance >= 0 ==> v.balance >= 0)
      && (!reply.Planted? ==> v == user)
      && (reply.Planted? ==> v.crops == [reply.crop] && v.balance == user.balance - reply.cost &&
                             v.lastPlant == Some(now))
  {
    var reply := PlantResult(user, seedId, now);
    if reply.Planted? {
      var w := Write(KeyOf(user), NoChange.(balance := Some(user.balance - reply.cost), lastPlant := Some(Some(now)),
                                            crops := Some([reply.crop])));
      ReplayUserThen(user, [], w, KeyOf(user), now);
    }
  }

  // ---------------------------------------------------------------------
  // Harvest
  // ---------------------------------------------------------------------

  /** `Math.max(0, 1 - t / window)`: the share of the value still paid `t` after ripening. */
  function HarvestFactor(t: int, window: int): (f: real)
    requires window > 0
    ensures 0.0 <= f
    ensures 0 <= t <= window ==> f == (window - t) as real / window as real
  {
    var f := 1.0 - t as real / window as real;
    assert f == (window - t) as real / window as real;
    if f < 0.0 then 0.0 else f
  }

  /**
   * `Math.floor(v * factor)` for a harvest `t` after ripening: the whole
   * value at ripening, nothing at the deadline, and in between exactly
   * v·(window − t) / window rounded down.
   */
  function HarvestShare(v: int, t: int, window: int): (share: int)
    requires window > 0 && 0 <= t <= window
    ensures share == (v * (window - t)) / window
    ensures v >= 0 ==> 0 <= share <= v
    ensures t == 0 ==> share == v
    ensures t == window ==> share == 0
  {
    ShareIsQuotient(v, t, window);
    (v as real * HarvestFactor(t, window)).Floor
  }

  /** The real-valued share, rounded down, is the integer quotient; it lies between nothing and the whole value. */
  lemma ShareIsQuotient(v: int, t: int, window: int)
    requires window > 0 && 0 <= t <= window
    ensures (v as real * HarvestFactor(t, window)).Floor == (v * (window - t)) / window
    ensures v >= 0 ==> 0 <= (v * (window - t)) / window <= v
    ensures t == 0 ==> (v * (window - t)) / window == v
    ensures t == window ==> (v * (window - t)) / window == 0
  {
    var n := v * (window - t);
    ScaledQuotient(v, window - t, window);
    FloorOfQuotient(n, window);
    if v >= 0 {
      QuotientBounds(v, window - t, window);
    }
    if t == 0 {
      assert n == v * window;
      ExactQuotient(v, window);
    }
  }

  /** v · (m / w) = (v · m) / w over the reals. */
  lemma ScaledQuotient(v: int, m: int, w: int)
    requires w > 0
    ensures v as real * (m as real / w as real) == (v * m) as real / w as real
  {
    assert (v * m) as real == v as real * m as real;
  }

  /** (v · w) / w = v. */
  lemma ExactQuotient(v: int, w: int)
    requires w > 0
    ensures (v * w) / w == v
  {
    var q := (v * w) / w;
    var d := v - q;
    assert d * w == v * w - q * w;
    assert 0 <= d * w < w;
    assert (d - 1) * w == d * w - w;
    NegativeFactor(d - 1, w);
    assert (-d - 1) * w == -(d * w) - w;
    NegativeFactor(-d - 1, w);
  }

  /** 0 ≤ (v · m) / w ≤ v when 0 ≤ m ≤ w and v ≥ 0. */
  lemma QuotientBounds(v: int, m: int, w: int)
    requires w > 0 && 0 <= m <= w && v >= 0
    ensures 0 <= (v * m) / w <= v
  {
    assert 0 <= v * m <= v * w;
    ExactQuotient(v, w);
    DivMonotone(v * m, v * w, w);
  }

  lemma DivMonotone(a: int, b: int, w: int)
    requires w > 0 && a <= b
    ensures a / w <= b / w
  {
    var d := a / w - b / w - 1;
    assert (a / w) * w <= a && b < (b / w) * w + w;
    assert d * w == (a / w) * w - (b / w) * w - w;
    NegativeFactor(d, w);
  }

  lemma NegativeFactor(d: int, w: int)
    requires w > 0 && d * w < 0
    ensures d < 0
  {
  }

  /** The later the harvest, the less it pays. */
  lemma HarvestShareFalls(v: int, t1: int, t2: int, window: int)
    requires window > 0 && 0 <= t1 <= t2 <= window && v >= 0
    ensures HarvestShare(v, t2, window) <= HarvestShare(v, t1, window)
  {
    assert v * (window - t2) <= v * (window - t1);
    DivMonotone(v * (window - t2), v * (window - t1), window);
  }

  /** What `harvest` replies. */
  datatype HarvestReply =
    | NoCrop
    | NotReady(left: Remaining)
    | Rotted
    | Harvested(crop: Crop, coins: int, xp: int)

  /** The crop of the record, if any, has a harvest window, as every crop `plant` creates does. */
  predicate HarvestableCrops(user: User)
  {
    user.crops == [] || user.crops[0].harvestWindow > 0
  }

  /**
   * The reply of `harvest` for the record `user`: nothing to harvest, not
   * yet ripe, rotten strictly after the deadline; otherwise the value and
   * XP scaled down by the time since ripening.
   */
  function HarvestResult(user: User, now: int): (reply: HarvestReply)
    requires HarvestableCrops(user)
    ensures reply.NoCrop? <==> user.crops == []
    ensures reply.NotReady? <==> user.crops != [] && now < user.crops[0].readyAt
    ensures reply.NotReady? ==> reply.left == FormatRemaining(user.crops[0].readyAt - now)
    ensures reply.Rotted? <==> user.crops != [] && now > user.crops[0].readyAt + user.crops[0].harvestWindow
    ensures reply.Harvested? <==>
      user.crops != [] && user.crops[0].readyAt <= now <= user.crops[0].readyAt + user.crops[0].harvestWindow
    ensures reply.Harvested? ==>
      var c := user.crops[0];
      && reply.crop == c
      && reply.coins == (c.value * (c.readyAt + c.harvestWindow - now)) / c.harvestWindow
      && reply.xp == (c.xp * (c.readyAt + c.harvestWindow - now)) / c.harvestWindow
      && (c.value >= 0 ==> 0 <= reply.coins <= c.value)
      && (now == c.readyAt ==> reply.coins == c.value && reply.xp == c.xp)
      && (now == c.readyAt + c.harvestWindow ==> reply.coins == 0 && reply.xp == 0)
  {
    if user.crops == [] then NoCrop
    else
      var c := user.crops[0];
      if now < c.readyAt then NotReady(FormatRemaining(c.readyAt - now))
      else if now > c.readyAt + c.harvestWindow then Rotted
      else
        var t := now - c.readyAt;
        assert c.readyAt + c.harvestWindow - now == c.harvestWindow - t;
        Harvested(c, HarvestShare(c.value, t, c.harvestWindow), HarvestShare(c.xp, t, c.harvestWindow))
  }

  /** The harvest's own update: the coins, the stamp and no crop. */
  function HarvestWrite(user: User, now: int, coins: int): Write
  {
    Write(KeyOf(user), NoChange.(balance := Some(user.balance + coins), lastHarvest := Some(Some(now)), crops := Some([])))
  }

  /**
   * The updates of `harvest`: clearing a rotten crop; or the harvest's own
   * update followed by the per-level XP update (`utils/xp.ts`) of the
   * record it left.
   */
  function HarvestWrites(user: User, now: int, reply: HarvestReply): seq<Write>
  {
    match reply
    case Rotted => [Write(KeyOf(user), NoChange.(crops := Some([])))]
    case Harvested(_, coins, xp) =>
      var w := HarvestWrite(user, now, coins);
      [w] + [XpUtil.XPWrite(ApplyPatch(user, w.patch, now), xp)]
    case _ => []
  }

  /** `harvest` against the ledger; `user` is the record it read. */
  method Harvest(db: Database, user: User, now: int) returns (reply: HarvestReply)
    requires db.Valid() && HarvestableCrops(user)
    requires KeyOf(user) in db.users && db.users[KeyOf(user)] == user
    modifies db`users
    ensures db.Valid()
    ensures reply == HarvestResult(user, now)
    ensures db.users == Replay(old(db.users), HarvestWrites(user, now, reply), now)
  {
    if |user.crops| == 0 {
      return NoCrop;
    }
    var crop := user.crops[0];
    if now < crop.readyAt {
      return NotReady(FormatRemaining(crop.readyAt - now));
    }
    var deadline := crop.readyAt + crop.harvestWindow;
    if now > deadline {
      var clear := Write(KeyOf(user), NoChange.(crops := Some([])));
      reply := Rotted;
      assert HarvestWrites(user, now, reply) == [] + [clear];
      db.UpdateAfter(old(db.users), [], clear, now);
      return;
    }
    var sinceReady := now - crop.readyAt;
    var coins := HarvestShare(crop.value, sinceReady, crop.harvestWindow);
    var xp := HarvestShare(crop.xp, sinceReady, crop.harvestWindow);
    reply := Harvested(crop, coins, xp);
    assert reply == HarvestResult(user, now);
    Collect(db, user, now, crop, coins, xp);
  }

  /** The writes of a ripe harvest: the coins, stamp and cleared crop, then the XP. */
  method Collect(db: Database, user: User, now: int, crop: Crop, coins: int, xp: int)
    requires db.Valid()
    requires KeyOf(user) in db.users && db.users[KeyOf(user)] == user
    modifies db`users
    ensures db.Valid()
    ensures db.users == Replay(old(db.users), HarvestWrites(user, now, Harvested(crop, coins, xp)), now)
  {
    var w := HarvestWrite(user, now, coins);
    db.UpdateAfter(old(db.users), [], w, now);
    HarvestReread(old(db.users), user, w, now);
    var after := db.users;
    XpUtil.AddXP(db, user.userId, user.groupId, xp, now);
    HarvestXPStep(old(db.users), after, ApplyPatch(user, w.patch, now), w, xp, now);
  }

  /** After the harvest's own update, the stored record is the updated one. */
  lemma HarvestReread(users: map<Key, User>, user: User, w: Write, now: int)
    requires KeyOf(user) in users && users[KeyOf(user)] == user && w.key == KeyOf(user)
    ensures KeyOf(user) in Replay(users, [] + [w], now)
    ensures Replay(users, [] + [w], now)[KeyOf(user)] == ApplyPatch(user, w.patch, now)
  {
    assert [] + [w] == [w];
    ReplayOne(users, w, now);
  }

  /** The XP update, made on the record just re-read, is the last of the harvest's writes. */
  lemma HarvestXPStep(users: map<Key, User>, after: map<Key, User>, v: User, w: Write, xp: int, now: int)
    requires after == Replay(users, [] + [w], now) && KeyOf(v) in after && after[KeyOf(v)] == v
    ensures var k := KeyOf(v);
      Store(after[k := Fetched(after, k, now)], XpUtil.XPWrite(Fetched(after, k, now), xp), now) ==
      Replay(users, [w] + [XpUtil.XPWrite(v, xp)], now)
  {
    var k := KeyOf(v);
    assert after[k := Fetched(after, k, now)] == after;
    assert [] + [w] == [w];
    ReplayStep(users, [w], XpUtil.XPWrite(v, xp), now);
  }

  /**
   * A harvest pays the coins into the balance, stamps the harvest and
   * clears the crop; the XP update then raises the level by at most one.
   * A rotten crop is cleared and nothing else changes.
   */
  lemma HarvestedRecord(user: User, now: int)
    requires HarvestableCrops(user)
    ensures var reply := HarvestResult(user, now);
      var v := ReplayUser(user, HarvestWrites(user, now, reply), KeyOf(user), now);
      && (reply.Harvested? ==>
            v.balance == user.balance + reply.coins && v.crops == [] && v.lastHarvest == Some(now) &&
            user.level <= v.level <= user.level + 1)
      && (reply.Rotted? ==> v == user.(crops := [], updatedAt := now))
      && (reply.NoCrop? || reply.NotReady? ==> v == user)
  {
    var reply := HarvestResult(user, now);
    var k := KeyOf(user);
    match reply
    case Harvested(_, coins, xp) =>
      var w := HarvestWrite(user, now, coins);
      var h := ApplyPatch(user, w.patch, now);
      var x := XpUtil.XPWrite(h, xp);
      assert HarvestWrites(user, now, reply) == [] + [w] + [x];
      ReplayUserThen(user, [] + [w], x, k, now);
      ReplayUserThen(user, [], w, k, now);
      XpUtil.XPWriteEffect(h, xp, now);
    case Rotted =>
      var w := Write(k, NoChange.(crops := Some([])));
      assert HarvestWrites(user, now, reply) == [] + [w];
      ReplayUserThen(user, [], w, k, now);
    case _ =>
  }
}
