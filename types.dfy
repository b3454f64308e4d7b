/**
 * The records of the CBCoin economy: a user's ledger entry (one per user
 * and group), the items it holds, its crop, the transfer log entries and
 * the per-group bank; and the partial updates (`$set` documents) that the
 * action modules send to the ledger.
 */
module Types {
  import opened Common

  /** The named multipliers of a user (`UserSkills`). */
  datatype Skills = Skills(
    farming: real,
    mining: real,
    fishing: real,
    trading: real,
    gambling: real,
    xpBoost: real,
    workMultiplier: real,
    robChance: real)

  /** Every skill at 1, as a new record gets them. */
  const DefaultSkills := Skills(1.0, 1.0, 1.0, 1.0, 1.0, 1.0, 1.0, 1.0)

  /** `ItemEffect.type`. */
  datatype EffectKind = XpBoost | WorkMultiplier | RobChance | FishingEffect | FarmingEffect

  datatype ItemEffect = ItemEffect(kind: EffectKind, value: real)

  /**
   * A catalogue or inventory item (`SpecialItem` / `ShopItem`). Items found
   * while mining have no level requirement and no keywords.
   */
  datatype Item = Item(
    id: string,
    name: string,
    description: string,
    price: int,
    available: bool,
    minLevel: Option<int>,
    effect: ItemEffect,
    keywords: seq<string>)

  /** An entry of `user.effects`: the value of a used item and its expiry. */
  datatype ActiveEffect = ActiveEffect(value: real, activeUntil: int)

  /** A planted crop; times in milliseconds. */
  datatype Crop = Crop(
    id: string,
    name: string,
    value: int,
    xp: int,
    growthTime: int,
    plantedAt: int,
    readyAt: int,
    harvestWindow: int)

  /** The ledger record of one user in one group (`User` of types/index.ts). */
  datatype User = User(
    userId: string,
    groupId: string,
    name: string,
    balance: int,
    xp: int,
    level: int,
    skills: Skills,
    inventory: seq<Item>,
    achievements: seq<string>,
    lastDaily: Option<int>,
    lastWork: Option<int>,
    lastMine: Option<int>,
    lastMineReset: Option<int>,
    mineCount: int,
    lastRob: Option<int>,
    lastRobReset: Option<int>,
    robCount: int,
    lastFish: Option<int>,
    lastFishReset: Option<int>,
    fishCount: int,
    lastPlant: Option<int>,
    lastHarvest: Option<int>,
    crops: seq<Crop>,
    effects: map<EffectKind, ActiveEffect>,
    createdAt: int,
    updatedAt: int)

  /** The composite key of the users collection. */
  datatype Key = Key(userId: string, groupId: string)

  function KeyOf(u: User): Key
  {
    Key(u.userId, u.groupId)
  }

  /** An entry of the transfers collection. */
  datatype Transfer = Transfer(senderId: string, receiverId: string, amount: int, tax: int, createdAt: int)

  /** The bank of one group: the taxes collected from transfers. */
  datatype Bank = Bank(
    groupId: string,
    balance: int,
    totalTaxCollected: int,
    totalTransfers: int,
    createdAt: Option<int>,
    updatedAt: int)

  /**
   * The `Partial<User>` given to `updateUser`: each present field is
   * overwritten, each absent one is kept. `effectEntry` is the dotted
   * `effects.<type>` path, which replaces one entry of the effects map.
   */
  datatype UserPatch = UserPatch(
    name: Option<string>,
    balance: Option<int>,
    xp: Option<int>,
    level: Option<int>,
    skills: Option<Skills>,
    inventory: Option<seq<Item>>,
    achievements: Option<seq<string>>,
    lastDaily: Option<Option<int>>,
    lastWork: Option<Option<int>>,
    lastMine: Option<Option<int>>,
    lastMineReset: Option<Option<int>>,
    mineCount: Option<int>,
    lastRob: Option<Option<int>>,
    lastRobReset: Option<Option<int>>,
    robCount: Option<int>,
    lastFish: Option<Option<int>>,
    lastFishReset: Option<Option<int>>,
    fishCount: Option<int>,
    lastPlant: Option<Option<int>>,
    lastHarvest: Option<Option<int>>,
    crops: Option<seq<Crop>>,
    effectEntry: Option<(EffectKind, ActiveEffect)>)

  /** The empty update: `{}`. */
  const NoChange := UserPatch(None, None, None, None, None, None, None, None, None, None, None, None,
                              None, None, None, None, None, None, None, None, None, None)

  function Override<T>(o: Option<T>, old_: T): T
  {
    if o.Some? then o.value else old_
  }

  /** The record after `$set`-ing the patch's fields (updated_at aside). */
  function Merge(u: User, p: UserPatch): (v: User)
    ensures KeyOf(v) == KeyOf(u) && v.createdAt == u.createdAt && v.updatedAt == u.updatedAt
  {
    u.(
      name := Override(p.name, u.name),
      balance := Override(p.balance, u.balance),
      xp := Override(p.xp, u.xp),
      level := Override(p.level, u.level),
      skills := Override(p.skills, u.skills),
      inventory := Override(p.inventory, u.inventory),
      achievements := Override(p.achievements, u.achievements),
      lastDaily := Override(p.lastDaily, u.lastDaily),
      lastWork := Override(p.lastWork, u.lastWork),
      lastMine := Override(p.lastMine, u.lastMine),
      lastMineReset := Override(p.lastMineReset, u.lastMineReset),
      mineCount := Override(p.mineCount, u.mineCount),
      lastRob := Override(p.lastRob, u.lastRob),
      lastRobReset := Override(p.lastRobReset, u.lastRobReset),
      robCount := Override(p.robCount, u.robCount),
      lastFish := Override(p.lastFish, u.lastFish),
      lastFishReset := Override(p.lastFishReset, u.lastFishReset),
      fishCount := Override(p.fishCount, u.fishCount),
      lastPlant := Override(p.lastPlant, u.lastPlant),
      lastHarvest := Override(p.lastHarvest, u.lastHarvest),
      crops := Override(p.crops, u.crops),
      effects := if p.effectEntry.Some? then u.effects[p.effectEntry.value.0 := p.effectEntry.value.1]
                 else u.effects)
  }

  /** `updateUser`'s effect on a stored record: merge, then stamp updated_at. */
  function ApplyPatch(u: User, p: UserPatch, now: int): (v: User)
    ensures KeyOf(v) == KeyOf(u) && v.createdAt == u.createdAt && v.updatedAt == now
    ensures v.balance == (if p.balance.Some? then p.balance.value else u.balance)
    ensures v.xp == (if p.xp.Some? then p.xp.value else u.xp)
    ensures v.level == (if p.level.Some? then p.level.value else u.level)
    ensures v.inventory == (if p.inventory.Some? then p.inventory.value else u.inventory)
    ensures p == NoChange ==> v == u.(updatedAt := now)
  {
    Merge(u, p).(updatedAt := now)
  }

  function Later<T>(a: Option<T>, b: Option<T>): Option<T>
  {
    if b.Some? then b else a
  }

  /** One update carrying the fields of `p` overwritten by those of `q`. */
  function Then(p: UserPatch, q: UserPatch): UserPatch
  {
    UserPatch(
      Later(p.name, q.name), Later(p.balance, q.balance), Later(p.xp, q.xp), Later(p.level, q.level),
      Later(p.skills, q.skills), Later(p.inventory, q.inventory), Later(p.achievements, q.achievements),
      Later(p.lastDaily, q.lastDaily), Later(p.lastWork, q.lastWork), Later(p.lastMine, q.lastMine),
      Later(p.lastMineReset, q.lastMineReset), Later(p.mineCount, q.mineCount),
      Later(p.lastRob, q.lastRob), Later(p.lastRobReset, q.lastRobReset), Later(p.robCount, q.robCount),
      Later(p.lastFish, q.lastFish), Later(p.lastFishReset, q.lastFishReset), Later(p.fishCount, q.fishCount),
      Later(p.lastPlant, q.lastPlant), Later(p.lastHarvest, q.lastHarvest), Later(p.crops, q.crops),
      Later(p.effectEntry, q.effectEntry))
  }

  /** Whether two patches can be fused into one (they do not write two different effect entries). */
  predicate Fusable(p: UserPatch, q: UserPatch)
  {
    !(p.effectEntry.Some? && q.effectEntry.Some? && p.effectEntry.value.0 != q.effectEntry.value.0)
  }

  /**
   * Two successive `updateUser` calls on one record are one call with the
   * fields of both, the later ones winning: the last-write-wins law behind
   * every action that writes a record several times.
   */
  lemma MergeThen(u: User, p: UserPatch, q: UserPatch, t1: int, t2: int)
    requires Fusable(p, q)
    ensures ApplyPatch(ApplyPatch(u, p, t1), q, t2) == ApplyPatch(u, Then(p, q), t2)
  {
  }

  /** The empty update only stamps updated_at. */
  lemma NoChangeOnlyStamps(u: User, now: int)
    ensures ApplyPatch(u, NoChange, now) == u.(updatedAt := now)
  {
  }

  /** Re-applying an update changes nothing but the stamp. */
  lemma ApplyIdempotent(u: User, p: UserPatch, t1: int, t2: int)
    ensures ApplyPatch(ApplyPatch(u, p, t1), p, t2) == ApplyPatch(u, p, t2)
  {
  }
}
