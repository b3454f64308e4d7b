/**
 * The shop (`src/shop/ShopManager.ts`): a fixed catalogue, a lookup by
 * the first word of the search text, and purchases that pay the price
 * and append the item to the inventory.
 */
module Shop {
  import opened Common
  import opened Types
  import opened Ledger

  /** `SHOP_ITEMS`. The rods have level requirements; the other items none. */
  const Catalog: seq<Item> := [
    Item("estrela", "⭐ Estrela Mágica", "Aumenta seu multiplicador de trabalho em 1.5x", 15000, true, None,
         ItemEffect(WorkMultiplier, 1.5), ["estrela", "star", "magica", "trabalho"]),
    Item("cristal", "💎 Cristal Místico", "Aumenta sua chance de roubo em 0.2", 20000, true, None,
         ItemEffect(RobChance, 0.2), ["cristal", "crystal", "mistico", "roubo"]),
    Item("escudo", "🛡️ Escudo Protetor", "Protege contra roubos por 24h", 25000, true, None,
         ItemEffect(RobChance, -1.0), ["escudo", "shield", "protetor", "protecao"]),
    Item("amuleto", "🍀 Amuleto da Sorte", "Aumenta seu ganho de XP em 1.5x", 15000, true, None,
         ItemEffect(XpBoost, 1.5), ["amuleto", "sorte", "lucky", "xp"]),
    Item("vara_iniciante", "🎣 Vara de Iniciante", "Uma vara básica para começar sua jornada de pescador", 1000, true,
         Some(1), ItemEffect(FishingEffect, 1.0), ["vara", "pesca", "iniciante", "fishing"]),
    Item("vara_profissional", "🎣 Vara Profissional", "Uma vara resistente com maior chance de peixes raros", 5000, true,
         Some(5), ItemEffect(FishingEffect, 1.5), ["vara", "pesca", "profissional", "pro"]),
    Item("vara_mestre", "🎣 Vara do Mestre", "A melhor vara de pesca disponível", 15000, true,
         Some(10), ItemEffect(FishingEffect, 2.0), ["vara", "pesca", "mestre", "master"])
  ]

  /** A combining diacritical mark, U+0300 to U+036F. */
  predicate IsMark(c: char)
  {
    '\U{0300}' <= c <= '\U{036F}'
  }

  /** The `replace` of the combining-mark range by nothing: the text without its combining marks. */
  function StripMarks(s: string): (t: string)
    ensures |t| <= |s|
    ensures forall i :: 0 <= i < |t| ==> !IsMark(t[i])
    ensures (forall i :: 0 <= i < |s| ==> !IsMark(s[i])) ==> t == s
  {
    if s == [] then []
    else
      assert forall i :: 1 <= i < |s| ==> s[1..][i - 1] == s[i];
      if IsMark(s[0]) then StripMarks(s[1..]) else [s[0]] + StripMarks(s[1..])
  }

  /** The search word: the text up to the first space, lowercased, without combining marks. */
  function SearchWord(term: string): (w: string)
  {
    StripMarks(Lower(Split(term, ' ')[0]))
  }

  /** The first pass of `findItem`: the id is the word, or the lowercased name contains it. */
  predicate NameMatches(item: Item, w: string)
  {
    item.id == w || Includes(Lower(item.name), w)
  }

  /** The second pass of `findItem`: one of the item's keywords is the word. */
  predicate KeywordMatches(item: Item, w: string)
  {
    w in item.keywords
  }

  /**
   * The position in `items` that `findItem` settles on, -1 for none: the
   * first item matching the word by id or name, and only when no item
   * does, the first item with the word as a keyword.
   */
  function FindIndex(items: seq<Item>, w: string): (i: int)
    ensures -1 <= i < |items|
    ensures i == -1 <==> forall j :: 0 <= j < |items| ==> !NameMatches(items[j], w) && !KeywordMatches(items[j], w)
    ensures i >= 0 && NameMatches(items[i], w) ==> forall j :: 0 <= j < i ==> !NameMatches(items[j], w)
    ensures i >= 0 && !NameMatches(items[i], w) ==>
      && KeywordMatches(items[i], w)
      && (forall j :: 0 <= j < |items| ==> !NameMatches(items[j], w))
      && (forall j :: 0 <= j < i ==> !KeywordMatches(items[j], w))
  {
    var byName := FirstNameMatch(items, w);
    if byName >= 0 then byName else FirstKeywordMatch(items, w)
  }

  /** `find` with the name test: the first position whose item matches by id or name, -1 for none. */
  function FirstNameMatch(items: seq<Item>, w: string): (i: int)
    ensures -1 <= i < |items|
    ensures i >= 0 ==> NameMatches(items[i], w)
    ensures forall j :: 0 <= j < |items| && (i == -1 || j < i) ==> !NameMatches(items[j], w)
  {
    if items == [] then -1
    else if NameMatches(items[0], w) then 0
    else
      var k := FirstNameMatch(items[1..], w);
      assert forall j :: 1 <= j < |items| ==> items[1..][j - 1] == items[j];
      if k == -1 then -1 else k + 1
  }

  /** `find` with the keyword test: the first position whose item has the word as a keyword, -1 for none. */
  function FirstKeywordMatch(items: seq<Item>, w: string): (i: int)
    ensures -1 <= i < |items|
    ensures i >= 0 ==> KeywordMatches(items[i], w)
    ensures forall j :: 0 <= j < |items| && (i == -1 || j < i) ==> !KeywordMatches(items[j], w)
  {
    if items == [] then -1
    else if KeywordMatches(items[0], w) then 0
    else
      var k := FirstKeywordMatch(items[1..], w);
      assert forall j :: 1 <= j < |items| ==> items[1..][j - 1] == items[j];
      if k == -1 then -1 else k + 1
  }

  /** `findItem(searchTerm)` over a catalogue: nothing for an empty text, else the item at the search word's position. */
  function FindIn(items: seq<Item>, term: string): (r: Option<Item>)
    ensures term == "" ==> r.None?
    ensures term != "" ==> (r.None? <==> FindIndex(items, SearchWord(term)) == -1)
    ensures r.Some? ==> r.value == items[FindIndex(items, SearchWord(term))] && r.value in items
  {
    if term == "" then None
    else
      var i := FindIndex(items, SearchWord(term));
      if i == -1 then None else Some(items[i])
  }

  /** `findItem` on the shop's catalogue. */
  function FindItem(term: string): (r: Option<Item>)
    ensures term == "" ==> r.None?
    ensures r.Some? ==>
      && r.value in Catalog
      && (NameMatches(r.value, SearchWord(term)) || KeywordMatches(r.value, SearchWord(term)))
    ensures term != "" && r.None? ==>
      forall j :: 0 <= j < |Catalog| ==>
        !NameMatches(Catalog[j], SearchWord(term)) && !KeywordMatches(Catalog[j], SearchWord(term))
  {
    FindIn(Catalog, term)
  }

  /** A lowercase word without spaces or marks is its own search word. */
  lemma PlainWord(w: string)
    requires forall i :: 0 <= i < |w| ==> 'a' <= w[i] <= 'z'
    ensures SearchWord(w) == w
  {
    SplitWithoutSeparator(w, ' ');
    assert Lower(w) == w;
  }

  /** What `buyItem` replies. */
  datatype BuyReply =
    | NoItemName
    | ItemNotFound
    | LevelTooLow(minLevel: int)
    | NotEnoughCoins(missing: int)
    | Bought(item: Item)

  /** JavaScript's `item.minLevel && user.level < item.minLevel`: a missing or zero level requirement is none. */
  predicate BelowMinLevel(item: Item, level: int)
  {
    item.minLevel.Some? && item.minLevel.value != 0 && level < item.minLevel.value
  }

  /**
   * The reply of `buyItem` for the record `user`: refused for an empty
   * name, for an item not found or not on sale, below the item's level,
   * or without the price (reporting what is missing); otherwise the item
   * found for the trimmed name is bought.
   */
  function BuyResult(items: seq<Item>, user: User, itemName: string): (reply: BuyReply)
    ensures reply.NoItemName? <==> itemName == ""
    ensures reply.ItemNotFound? <==>
      itemName != "" && (FindIn(items, Trim(itemName)).None? || !FindIn(items, Trim(itemName)).value.available)
    ensures reply.LevelTooLow? ==>
      var item := FindIn(items, Trim(itemName)).value;
      item.available && BelowMinLevel(item, user.level) && reply.minLevel == item.minLevel.value
    ensures reply.NotEnoughCoins? ==>
      var item := FindIn(items, Trim(itemName)).value;
      item.available && !BelowMinLevel(item, user.level) && user.balance < item.price &&
      reply.missing == item.price - user.balance > 0
    ensures reply.Bought? ==>
      && itemName != "" && FindIn(items, Trim(itemName)) == Some(reply.item)
      && reply.item.available && !BelowMinLevel(reply.item, user.level) && reply.item.price <= user.balance
  {
    if itemName == "" then NoItemName
    else
      var found := FindIn(items, Trim(itemName));
      if found.None? || !found.value.available then ItemNotFound
      else if BelowMinLevel(found.value, user.level) then LevelTooLow(found.value.minLevel.value)
      else if user.balance < found.value.price then NotEnoughCoins(found.value.price - user.balance)
      else Bought(found.value)
  }

  /** The update of a purchase: the price paid and the item appended to the inventory. */
  function PurchaseWrite(user: User, item: Item): Write
  {
    Write(KeyOf(user), NoChange.(balance := Some(user.balance - item.price), inventory := Some(user.inventory + [item])))
  }

  /** The updates of `buyItem`: one purchase, or none. */
  function BuyWrites(user: User, reply: BuyReply): seq<Write>
  {
    if reply.Bought? then [PurchaseWrite(user, reply.item)] else []
  }

  /** The reply for a non-empty name, in terms of the item found for it. */
  lemma BuyResultOf(items: seq<Item>, user: User, itemName: string, found: Option<Item>)
    requires itemName != "" && found == FindIn(items, Trim(itemName))
    ensures BuyResult(items, user, itemName) ==
      if found.None? || !found.value.available then ItemNotFound
      else if BelowMinLevel(found.value, user.level) then LevelTooLow(found.value.minLevel.value)
      else if user.balance < found.value.price then NotEnoughCoins(found.value.price - user.balance)
      else Bought(found.value)
  {
  }

  /** `buyItem` against the ledger. */
  method BuyItem(db: Database, items: seq<Item>, user: User, itemName: string, now: int) returns (reply: BuyReply)
    requires db.Valid()
    modifies db`users
    ensures db.Valid()
    ensures reply == BuyResult(items, user, itemName)
    ensures db.users == Replay(old(db.users), BuyWrites(user, reply), now)
  {
    if itemName == "" {
      return NoItemName;
    }
    var searchName := Trim(itemName);
    var item := FindIn(items, searchName);
    BuyResultOf(items, user, itemName, item);
    if item.None? || !item.value.available {
      return ItemNotFound;
    }
    if BelowMinLevel(item.value, user.level) {
      return LevelTooLow(item.value.minLevel.value);
    }
    if user.balance < item.value.price {
      var missing := item.value.price - user.balance;
      return NotEnoughCoins(missing);
    }
    reply := Bought(item.value);
    var w := PurchaseWrite(user, item.value);
    assert BuyWrites(user, reply) == [] + [w];
    db.UpdateAfter(old(db.users), [], w, now);
  }

  /**
   * A purchase never overdraws and adds exactly the item bought: a refused
   * purchase leaves the record as it was; a successful one lowers the
   * balance by the price, to at least zero, and appends the item.
   */
  lemma PurchaseRecord(items: seq<Item>, user: User, itemName: string, now: int)
    ensures var reply := BuyResult(items, user, itemName);
      var v := ReplayUser(user, BuyWrites(user, reply), KeyOf(user), now);
      && (!reply.Bought? ==> v == user)
      && (reply.Bought? ==>
            && v == user.(balance := v.balance, inventory := v.inventory, updatedAt := now)
            && v.balance == user.balance - reply.item.price >= 0
            && v.inventory == user.inventory + [reply.item]
            && multiset(v.inventory) == multiset(user.inventory) + multiset{reply.item})
  {
    var reply := BuyResult(items, user, itemName);
    if reply.Bought? {
      var w := PurchaseWrite(user, reply.item);
      ReplayUserThen(user, [], w, KeyOf(user), now);
      assert [] + [w] == BuyWrites(user, reply);
    }
  }
}
