/**
 * The inventory (`InventoryManager`): the listing that groups a record's
 * entries by id and counts them, and the use of an item, which removes one
 * entry, adjusts the skills and records the effect with its expiry.
 */
module Inventory {
  import opened Common
  import opened Types
  import opened Ledger

  // ---------------------------------------------------------------------
  // Listing
  // ---------------------------------------------------------------------

  /** One line of the listing: the first entry of an id and how many entries carry that id. */
  datatype Group = Group(item: Item, quantity: int)

  /** The number of entries of `inv` with the id `id`. */
  function Count(inv: seq<Item>, id: string): (n: nat)
    ensures n <= |inv|
  {
    if inv == [] then 0
    else Count(inv[..|inv| - 1], id) + (if inv[|inv| - 1].id == id then 1 else 0)
  }

  /** Counting over two pieces is adding the counts of the pieces. */
  lemma {:induction false} CountAppend(a: seq<Item>, b: seq<Item>, id: string)
    ensures Count(a + b, id) == Count(a, id) + Count(b, id)
    decreases |b|
  {
    if b == [] {
      assert a + b == a;
    } else {
      assert (a + b)[..|a + b| - 1] == a + b[..|b| - 1];
      assert (a + b)[|a + b| - 1] == b[|b| - 1];
      CountAppend(a, b[..|b| - 1], id);
    }
  }

  /** Splicing out one entry lowers the count of its id by one and leaves the other entries' multiset. */
  lemma {:induction false} CountRemove(inv: seq<Item>, i: int)
    requires 0 <= i < |inv|
    ensures Count(inv[..i] + inv[i + 1..], inv[i].id) == Count(inv, inv[i].id) - 1
  {
    var a, x, b := inv[..i], inv[i], inv[i + 1..];
    assert inv == a + ([x] + b);
    CountAppend(a, [x] + b, x.id);
    CountAppend([x], b, x.id);
    CountAppend(a, b, x.id);
    CountSingle(x);
  }

  /** A single entry counts once for its own id. */
  lemma {:induction false} CountSingle(x: Item)
    ensures Count([x], x.id) == 1
  {
    assert [x][..0] == [];
  }

  /** `groupedItems.get(id)`: the position of the group of `id`, -1 for none. */
  function GroupOf(groups: seq<Group>, id: string): (j: int)
    ensures -1 <= j < |groups|
    ensures j >= 0 ==> groups[j].item.id == id
    ensures j == -1 ==> forall i :: 0 <= i < |groups| ==> groups[i].item.id != id
  {
    if groups == [] then -1
    else if groups[0].item.id == id then 0
    else
      var k := GroupOf(groups[1..], id);
      assert forall i :: 1 <= i < |groups| ==> groups[1..][i - 1] == groups[i];
      if k == -1 then -1 else k + 1
  }

  /** No entry before position `k` has the id of the entry at `k`. */
  predicate FirstOfId(inv: seq<Item>, k: int)
    requires 0 <= k < |inv|
  {
    forall m :: 0 <= m < k ==> inv[m].id != inv[k].id
  }

  /**
   * The groups the listing shows for `inv`: the entries tallied in order,
   * as the loop of `showInventory` does.
   */
  function Grouped(inv: seq<Item>): seq<Group>
  {
    if inv == [] then [] else Tally(Grouped(inv[..|inv| - 1]), inv[|inv| - 1])
  }

  /** One entry tallied: its id's group counts one more, or a new group of one is added at the end. */
  function Tally(groups: seq<Group>, x: Item): seq<Group>
  {
    var j := GroupOf(groups, x.id);
    if j >= 0 then groups[j := groups[j].(quantity := groups[j].quantity + 1)] else groups + [Group(x, 1)]
  }

  /** One group per id. */
  predicate DistinctIds(groups: seq<Group>)
  {
    forall i, j :: 0 <= i < j < |groups| ==> groups[i].item.id != groups[j].item.id
  }

  /** Each group holds an entry of `inv` and the number of entries with its id. */
  predicate Counted(groups: seq<Group>, inv: seq<Item>)
  {
    forall i :: 0 <= i < |groups| ==> groups[i].item in inv && groups[i].quantity == Count(inv, groups[i].item.id) >= 1
  }

  /** Each group holds the first entry with its id. */
  predicate FirstEntries(groups: seq<Group>, inv: seq<Item>)
  {
    forall i, k :: 0 <= i < |groups| && 0 <= k < |inv| && inv[k].id == groups[i].item.id && FirstOfId(inv, k) ==>
      groups[i].item == inv[k]
  }

  /** Every entry's id has its group. */
  predicate Covered(groups: seq<Group>, inv: seq<Item>)
  {
    forall k :: 0 <= k < |inv| ==> GroupOf(groups, inv[k].id) >= 0
  }

  /**
   * `groups` lists `inv`: one group per id, holding the first entry with
   * that id and the number of entries with it, and every entry's id has
   * its group.
   */
  predicate IsListing(groups: seq<Group>, inv: seq<Item>)
  {
    DistinctIds(groups) && Counted(groups, inv) && FirstEntries(groups, inv) && Covered(groups, inv)
  }

  /** The listing of `showInventory` groups by id and counts every id's entries. */
  lemma {:induction false} GroupedIsListing(inv: seq<Item>)
    ensures IsListing(Grouped(inv), inv)
  {
    if inv != [] {
      var init := inv[..|inv| - 1];
      var x := inv[|inv| - 1];
      GroupedIsListing(init);
      assert inv == init + [x];
      TallyDistinct(Grouped(init), x);
      TallyCounted(Grouped(init), init, x);
      TallyFirst(Grouped(init), init, x);
      TallyCovered(Grouped(init), init, x);
    }
  }

  /** A tally keeps the groups' items in place, raising one quantity or adding one group at the end. */
  lemma TallyShape(groups: seq<Group>, x: Item)
    ensures var r := Tally(groups, x);
      && |groups| <= |r| <= |groups| + 1
      && (forall i :: 0 <= i < |groups| ==> r[i].item == groups[i].item)
      && (|r| == |groups| + 1 <==> GroupOf(groups, x.id) == -1)
      && (|r| == |groups| + 1 ==> r[|groups|] == Group(x, 1))
      && (forall i :: 0 <= i < |groups| && groups[i].item.id != x.id ==> r[i].quantity == groups[i].quantity)
      && (forall i :: 0 <= i < |groups| && i == GroupOf(groups, x.id) ==> r[i].quantity == groups[i].quantity + 1)
  {
  }

  lemma TallyDistinct(groups: seq<Group>, x: Item)
    requires DistinctIds(groups)
    ensures DistinctIds(Tally(groups, x))
  {
    TallyShape(groups, x);
  }

  lemma TallyCounted(groups: seq<Group>, init: seq<Item>, x: Item)
    requires DistinctIds(groups) && Counted(groups, init) && Covered(groups, init)
    ensures Counted(Tally(groups, x), init + [x])
  {
    var inv := init + [x];
    var r := Tally(groups, x);
    var j := GroupOf(groups, x.id);
    TallyShape(groups, x);
    assert inv[..|inv| - 1] == init;
    if j == -1 {
      assert forall k :: 0 <= k < |init| ==> init[k].id != x.id by {
        forall k | 0 <= k < |init| ensures init[k].id != x.id {
          assert GroupOf(groups, init[k].id) >= 0;
        }
      }
      CountAbsent(init, x.id);
    }
    forall i | 0 <= i < |r|
      ensures r[i].item in inv && r[i].quantity == Count(inv, r[i].item.id) >= 1
    {
      assert Count(inv, r[i].item.id) == Count(init, r[i].item.id) + (if x.id == r[i].item.id then 1 else 0);
      if i < |groups| && i != j {
        assert groups[i].item.id != x.id;
      }
    }
  }

  lemma TallyFirst(groups: seq<Group>, init: seq<Item>, x: Item)
    requires Counted(groups, init) && FirstEntries(groups, init) && Covered(groups, init)
    ensures FirstEntries(Tally(groups, x), init + [x])
  {
    var inv := init + [x];
    var r := Tally(groups, x);
    TallyShape(groups, x);
    assert forall k :: 0 <= k < |init| ==> inv[k] == init[k];
    assert forall k :: 0 <= k < |init| && FirstOfId(inv, k) ==> FirstOfId(init, k);
    var j := GroupOf(groups, x.id);
    if j >= 0 {
      assert !FirstOfId(inv, |init|) by {
        var k :| 0 <= k < |init| && groups[j].item == init[k];
        assert inv[k].id == x.id;
      }
    } else {
      forall i | 0 <= i < |groups|
        ensures groups[i].item.id != x.id
      {
      }
    }
  }

  lemma TallyCovered(groups: seq<Group>, init: seq<Item>, x: Item)
    requires Covered(groups, init)
    ensures Covered(Tally(groups, x), init + [x])
  {
    var inv := init + [x];
    var r := Tally(groups, x);
    TallyShape(groups, x);
    forall k | 0 <= k < |inv|
      ensures GroupOf(r, inv[k].id) >= 0
    {
      var m := if k < |init| then GroupOf(groups, inv[k].id) else GroupOf(groups, x.id);
      if m >= 0 {
        assert r[m].item.id == inv[k].id;
      } else {
        assert r[|groups|].item.id == inv[k].id;
      }
    }
  }

  /** An id no entry carries counts zero. */
  lemma {:induction false} CountAbsent(inv: seq<Item>, id: string)
    requires forall k :: 0 <= k < |inv| ==> inv[k].id != id
    ensures Count(inv, id) == 0
  {
    if inv != [] {
      CountAbsent(inv[..|inv| - 1], id);
    }
  }

  /** What `showInventory` shows: the empty-inventory notice, or the groups. */
  datatype InventoryView = EmptyInventory | Listing(groups: seq<Group>)

  /** `showInventory`: the notice for an empty inventory, else one pass over the entries counting each id. */
  method ShowInventory(user: User) returns (view: InventoryView)
    ensures view.EmptyInventory? <==> |user.inventory| == 0
    ensures view.Listing? ==> view.groups == Grouped(user.inventory) && IsListing(view.groups, user.inventory)
  {
    if |user.inventory| == 0 {
      return EmptyInventory;
    }
    var groups: seq<Group> := [];
    for k := 0 to |user.inventory|
      invariant groups == Grouped(user.inventory[..k])
    {
      var item := user.inventory[k];
      assert user.inventory[..k + 1][..k] == user.inventory[..k];
      var j := GroupOf(groups, item.id);
      if j >= 0 {
        groups := groups[j := groups[j].(quantity := groups[j].quantity + 1)];
      } else {
        groups := groups + [Group(item, 1)];
      }
    }
    assert user.inventory[..|user.inventory|] == user.inventory;
    GroupedIsListing(user.inventory);
    return Listing(groups);
  }

  /** The quantities of the listing add up to the number of entries. */
  function TotalQuantity(groups: seq<Group>): int
  {
    if groups == [] then 0 else groups[0].quantity + TotalQuantity(groups[1..])
  }

  /** Raising one group's quantity by one raises the total by one. */
  lemma {:induction false} TotalQuantityBump(groups: seq<Group>, j: int)
    requires 0 <= j < |groups|
    ensures TotalQuantity(groups[j := groups[j].(quantity := groups[j].quantity + 1)]) == TotalQuantity(groups) + 1
  {
    if j > 0 {
      var bumped := groups[j := groups[j].(quantity := groups[j].quantity + 1)];
      assert bumped[1..] == groups[1..][j - 1 := groups[j].(quantity := groups[j].quantity + 1)];
      TotalQuantityBump(groups[1..], j - 1);
    }
  }

  lemma {:induction false} TotalQuantityAppend(groups: seq<Group>, g: Group)
    ensures TotalQuantity(groups + [g]) == TotalQuantity(groups) + g.quantity
  {
    if groups != [] {
      assert (groups + [g])[1..] == groups[1..] + [g];
      TotalQuantityAppend(groups[1..], g);
    }
  }

  /** Every entry is counted exactly once: the quantities of the listing add up to the inventory's size. */
  lemma {:induction false} GroupedTotal(inv: seq<Item>)
    ensures TotalQuantity(Grouped(inv)) == |inv|
  {
    if inv != [] {
      var init := inv[..|inv| - 1];
      var x := inv[|inv| - 1];
      GroupedTotal(init);
      var prior := Grouped(init);
      var j := GroupOf(prior, x.id);
      if j >= 0 {
        TotalQuantityBump(prior, j);
      } else {
        TotalQuantityAppend(prior, Group(x, 1));
      }
    }
  }

  // ---------------------------------------------------------------------
  // Using an item
  // ---------------------------------------------------------------------

  const HourMs: int := 60 * 60 * 1000

  /** How long a used item's effect lasts: a day for the shield, five hours for the star and the crystal, else an hour. */
  function EffectDuration(id: string): (ms: int)
    ensures HourMs <= ms <= 24 * HourMs
    ensures ms == 24 * HourMs <==> id == "escudo"
    ensures ms == 5 * HourMs <==> id == "estrela" || id == "cristal"
  {
    if id == "escudo" then 24 * HourMs
    else if id == "estrela" || id == "cristal" then 5 * HourMs
    else HourMs
  }

  /**
   * The skills after using an item with `effect`: only the skill the
   * effect names changes, and fishing or farming effects change none.
   */
  function SkillsAfter(skills: Skills, effect: ItemEffect): (s: Skills)
    ensures s.(xpBoost := skills.xpBoost, workMultiplier := skills.workMultiplier, robChance := skills.robChance) == skills
    ensures effect.kind == FishingEffect || effect.kind == FarmingEffect ==> s == skills
    ensures effect.kind == XpBoost ==> s.xpBoost == skills.xpBoost * effect.value
    ensures effect.kind == WorkMultiplier ==> s.workMultiplier == skills.workMultiplier * effect.value
    ensures effect.kind == RobChance && effect.value == -1.0 ==> s.robChance == -1.0
    ensures effect.kind == RobChance && effect.value != -1.0 ==> s.robChance == skills.robChance + effect.value
  {
    match effect.kind
    case XpBoost => skills.(xpBoost := skills.xpBoost * effect.value)
    case WorkMultiplier => skills.(workMultiplier := skills.workMultiplier * effect.value)
    case RobChance =>
      if effect.value == -1.0 then skills.(robChance := -1.0)
      else skills.(robChance := skills.robChance + effect.value)
    case FishingEffect => skills
    case FarmingEffect => skills
  }

  /** `itemName.toLowerCase().trim()`. */
  function SearchName(itemName: string): string
  {
    Trim(Lower(itemName))
  }

  /** The test of `useItem`'s `findIndex`: the lowercased id is the name, or the lowercased item name contains it. */
  predicate Usable(item: Item, s: string)
  {
    Lower(item.id) == s || Includes(Lower(item.name), s)
  }

  /** `findIndex` with that test: the first usable position, -1 for none. */
  function FirstUsable(inv: seq<Item>, s: string): (i: int)
    ensures -1 <= i < |inv|
    ensures i >= 0 ==> Usable(inv[i], s)
    ensures forall j :: 0 <= j < |inv| && (i == -1 || j < i) ==> !Usable(inv[j], s)
  {
    if inv == [] then -1
    else if Usable(inv[0], s) then 0
    else
      var k := FirstUsable(inv[1..], s);
      assert forall j :: 1 <= j < |inv| ==> inv[1..][j - 1] == inv[j];
      if k == -1 then -1 else k + 1
  }

  /** What `useItem` replies. */
  datatype UseReply =
    | NothingToUse
    | NotInInventory
    | Used(index: int, item: Item, duration: int)

  /**
   * The reply of `useItem` for the record `user`: refused for an empty
   * inventory or when no entry matches the search name; otherwise the
   * first matching entry is used, for the duration its id sets.
   */
  function UseResult(user: User, itemName: string): (reply: UseReply)
    ensures reply.NothingToUse? <==> |user.inventory| == 0
    ensures reply.NotInInventory? <==>
      |user.inventory| > 0 && forall i :: 0 <= i < |user.inventory| ==> !Usable(user.inventory[i], SearchName(itemName))
    ensures reply.Used? ==>
      && 0 <= reply.index < |user.inventory| && reply.item == user.inventory[reply.index]
      && Usable(reply.item, SearchName(itemName))
      && (forall i :: 0 <= i < reply.index ==> !Usable(user.inventory[i], SearchName(itemName)))
      && reply.duration == EffectDuration(reply.item.id)
  {
    if |user.inventory| == 0 then NothingToUse
    else
      var i := FirstUsable(user.inventory, SearchName(itemName));
      if i == -1 then NotInInventory
      else Used(i, user.inventory[i], EffectDuration(user.inventory[i].id))
  }

  /** The one update of a use: the entry spliced out, the new skills and the effect with its expiry. */
  function UseWrite(user: User, i: int, item: Item, skills: Skills, duration: int, now: int): Write
    requires 0 <= i < |user.inventory|
  {
    Write(KeyOf(user), NoChange.(
      inventory := Some(user.inventory[..i] + user.inventory[i + 1..]),
      skills := Some(skills),
      effectEntry := Some((item.effect.kind, ActiveEffect(item.effect.value, now + duration)))))
  }

  /** The record after the update of a use: the three fields written, the stamp, and nothing else. */
  lemma UseWriteRecord(user: User, i: int, item: Item, skills: Skills, duration: int, now: int)
    requires 0 <= i < |user.inventory|
    ensures var e := item.effect;
      ReplayUser(user, [UseWrite(user, i, item, skills, duration, now)], KeyOf(user), now) ==
        user.(inventory := user.inventory[..i] + user.inventory[i + 1..], skills := skills,
              effects := user.effects[e.kind := ActiveEffect(e.value, now + duration)], updatedAt := now)
  {
    var w := UseWrite(user, i, item, skills, duration, now);
    ReplayUserThen(user, [], w, KeyOf(user), now);
    assert [] + [w] == [w];
  }

  /** The updates of `useItem`: one, or none when refused. */
  function UseWrites(user: User, reply: UseReply, now: int): seq<Write>
    requires reply.Used? ==> 0 <= reply.index < |user.inventory|
  {
    if reply.Used? then [UseWrite(user, reply.index, reply.item, SkillsAfter(user.skills, reply.item.effect), reply.duration, now)]
    else []
  }

  /** `useItem` against the ledger. */
  method UseItem(db: Database, user: User, itemName: string, now: int) returns (reply: UseReply)
    requires db.Valid()
    modifies db`users
    ensures db.Valid()
    ensures reply == UseResult(user, itemName)
    ensures db.users == Replay(old(db.users), UseWrites(user, reply, now), now)
  {
    if |user.inventory| == 0 {
      return NothingToUse;
    }
    var searchName := Trim(Lower(itemName));
    var itemIndex := FirstUsable(user.inventory, searchName);
    if itemIndex == -1 {
      return NotInInventory;
    }
    var item := user.inventory[itemIndex];
    var duration := EffectDuration(item.id);
    var skills := SkillsAfter(user.skills, item.effect);
    reply := Used(itemIndex, item, duration);
    assert reply == UseResult(user, itemName);
    ApplyUse(db, user, itemIndex, item, skills, duration, now);
  }

  /** The update of a use, as the one write since `useItem` began. */
  method ApplyUse(db: Database, user: User, i: int, item: Item, skills: Skills, duration: int, now: int)
    requires db.Valid() && 0 <= i < |user.inventory|
    modifies db`users
    ensures db.Valid()
    ensures db.users == Replay(old(db.users), [UseWrite(user, i, item, skills, duration, now)], now)
  {
    var w := UseWrite(user, i, item, skills, duration, now);
    assert [w] == [] + [w];
    db.UpdateAfter(old(db.users), [], w, now);
  }

  /**
   * Using an item consumes exactly the entry used: a refused use leaves
   * the record as it was; a successful one removes that one entry (the
   * others keep their order), so the listing counts one fewer of its id,
   * applies the effect to the skills and records the effect until
   * `now` plus its duration. Nothing else but the stamp changes.
   */
  lemma UseRecord(user: User, itemName: string, now: int)
    ensures var reply := UseResult(user, itemName);
      var v := ReplayUser(user, UseWrites(user, reply, now), KeyOf(user), now);
      && (!reply.Used? ==> v == user)
      && (reply.Used? ==>
            var inv := user.inventory;
            var i := reply.index;
            var e := reply.item.effect;
            && v == user.(inventory := v.inventory, skills := v.skills, effects := v.effects, updatedAt := now)
            && v.inventory == inv[..i] + inv[i + 1..]
            && Count(v.inventory, reply.item.id) == Count(inv, reply.item.id) - 1
            && v.effects == user.effects[e.kind := ActiveEffect(e.value, now + reply.duration)]
            && v.skills == SkillsAfter(user.skills, e))
  {
    UsedRecord(user, UseResult(user, itemName), now);
  }

  /** `UseRecord` for any reply that names an entry of the inventory. */
  lemma UsedRecord(user: User, reply: UseReply, now: int)
    requires reply.Used? ==> 0 <= reply.index < |user.inventory| && reply.item == user.inventory[reply.index]
    ensures var v := ReplayUser(user, UseWrites(user, reply, now), KeyOf(user), now);
      && (!reply.Used? ==> v == user)
      && (reply.Used? ==>
            var inv := user.inventory;
            var i := reply.index;
            var e := reply.item.effect;
            && v == user.(inventory := v.inventory, skills := v.skills, effects := v.effects, updatedAt := now)
            && v.inventory == inv[..i] + inv[i + 1..]
            && Count(v.inventory, reply.item.id) == Count(inv, reply.item.id) - 1
            && v.effects == user.effects[e.kind := ActiveEffect(e.value, now + reply.duration)]
            && v.skills == SkillsAfter(user.skills, e))
  {
    if reply.Used? {
      UseWriteRecord(user, reply.index, reply.item, SkillsAfter(user.skills, reply.item.effect), reply.duration, now);
      CountRemove(user.inventory, reply.index);
    }
  }

  /** A name that is blank once trimmed matches every entry, so `useItem` uses the first one. */
  lemma BlankNameUsesFirst(user: User, itemName: string)
    requires |user.inventory| > 0 && SearchName(itemName) == ""
    ensures UseResult(user, itemName).Used? && UseResult(user, itemName).index == 0
  {
    assert Contains(Lower(user.inventory[0].name), "") by {
      assert "" <= Lower(user.inventory[0].name)[0..];
    }
  }
}
