/**
 * The ledger (`Database`): the users collection keyed by (user, group),
 * the append-only transfer log and the per-group banks, held in memory.
 * Each method performs the collection operation the source issues
 * (findOne/insertOne, `$set`, `$push`, `$pull`, `$addToSet`, `$inc` with
 * upsert), with the clock reading `new Date()` passed in as `now`.
 */
module Ledger {
  import opened Common
  import opened Types

  const DefaultName: string := "Usuário"

  /** The record `getUser` inserts for a key it does not find. */
  function NewUser(userId: string, groupId: string, userName: string, now: int): (u: User)
    ensures KeyOf(u) == Key(userId, groupId)
    ensures u.name == (if userName != "" then userName else DefaultName)
    ensures u.balance == 0 && u.xp == 0 && u.level == 1
    ensures u.inventory == [] && u.crops == [] && u.achievements == [] && u.effects == map[]
    ensures u.skills == Skills(1.0, 1.0, 1.0, 1.0, 1.0, 1.0, 1.0, 1.0)
    ensures u.mineCount == 0 && u.robCount == 0 && u.fishCount == 0
    ensures u.lastDaily == u.lastWork == u.lastMine == u.lastMineReset == u.lastRob == Some(0)
    ensures u.lastRobReset == u.lastFish == u.lastFishReset == u.lastPlant == u.lastHarvest == Some(0)
    ensures u.createdAt == u.updatedAt == now
  {
    User(userId, groupId, if userName != "" then userName else DefaultName,
         0, 0, 1, DefaultSkills, [], [],
         Some(0), Some(0), Some(0), Some(0), 0, Some(0), Some(0), 0, Some(0), Some(0), 0,
         Some(0), Some(0), [], map[], now, now)
  }

  /** The record `getUser` returns without a name: the stored one, or a new default record. */
  function Fetched(users: map<Key, User>, k: Key, now: int): (u: User)
    ensures k in users ==> u == users[k]
    ensures k !in users ==> KeyOf(u) == k && u.xp == 0 && u.level == 1
  {
    if k in users then users[k] else NewUser(k.userId, k.groupId, "", now)
  }

  /**
   * The record `getUser` returns for a name: the stored one, renamed when
   * a non-empty different name is given; or a new default record.
   */
  function Greeted(users: map<Key, User>, k: Key, userName: string, now: int): (u: User)
    ensures userName == "" ==> u == Fetched(users, k, now)
    ensures k in users && userName != "" && users[k].name != userName ==> u == users[k].(name := userName)
    ensures k in users && (userName == "" || users[k].name == userName) ==> u == users[k]
    ensures k !in users ==> u == NewUser(k.userId, k.groupId, userName, now)
  {
    if k in users then
      var v := users[k];
      if userName != "" && v.name != userName then v.(name := userName) else v
    else NewUser(k.userId, k.groupId, userName, now)
  }

  /** Balance descending: what `.sort({ balance: -1 })` orders by. */
  predicate ByBalance(s: seq<User>)
  {
    forall i, j :: 0 <= i < j < |s| ==> s[i].balance >= s[j].balance
  }

  /** Places u after every record whose balance is at least u's. */
  function InsertByBalance(s: seq<User>, u: User): (r: seq<User>)
    ensures multiset(r) == multiset(s) + multiset{u}
    ensures |r| == |s| + 1
    ensures s == [] ==> r == [u]
    ensures s != [] ==> r[0] == u || r[0] == s[0]
  {
    if s == [] then [u]
    else if s[0].balance >= u.balance then
      assert s == [s[0]] + s[1..];
      [s[0]] + InsertByBalance(s[1..], u)
    else
      [u] + s
  }

  /** Inserting into a list ordered by balance keeps it ordered. */
  lemma {:induction false} InsertByBalanceOrdered(s: seq<User>, u: User)
    requires ByBalance(s)
    ensures ByBalance(InsertByBalance(s, u))
  {
    if s != [] && s[0].balance >= u.balance {
      var rest := InsertByBalance(s[1..], u);
      InsertByBalanceOrdered(s[1..], u);
      assert s[0].balance >= rest[0].balance by {
        if rest[0] != u {
          assert rest[0] == s[1];
        }
      }
      var r := [s[0]] + rest;
      forall i, j | 0 <= i < j < |r| ensures r[i].balance >= r[j].balance {
        if i == 0 {
          if j > 1 {
            assert rest[0].balance >= rest[j - 1].balance;
          }
        } else {
          assert r[i] == rest[i - 1] && r[j] == rest[j - 1];
        }
      }
    }
  }

  /** A list in which some record occurs twice counts it twice. */
  lemma TwiceInMultiset(s: seq<User>, i: int, j: int)
    requires 0 <= i < j < |s| && s[i] == s[j]
    ensures multiset(s)[s[i]] >= 2
  {
    assert s == s[..i] + [s[i]] + s[i + 1..j] + [s[j]] + s[j + 1..];
  }

  /** The transfers of `senderId` whose time lies in [from, to), in log order. */
  function SentBetween(log: seq<Transfer>, senderId: string, from: int, to: int): (r: seq<Transfer>)
    ensures |r| <= |log|
  {
    if log == [] then []
    else if log[0].senderId == senderId && from <= log[0].createdAt < to then
      [log[0]] + SentBetween(log[1..], senderId, from, to)
    else
      SentBetween(log[1..], senderId, from, to)
  }

  /** A transfer is in the window's list exactly when it is in the log, sent by `senderId`, inside the window. */
  lemma {:induction false} SentBetweenMembers(log: seq<Transfer>, senderId: string, from: int, to: int)
    ensures forall t :: t in SentBetween(log, senderId, from, to) <==>
                        t in log && t.senderId == senderId && from <= t.createdAt < to
  {
    if log != [] {
      SentBetweenMembers(log[1..], senderId, from, to);
      assert log == [log[0]] + log[1..];
    }
  }

  /** The sum of the amounts of a list of transfers (`reduce`). */
  function TotalAmount(ts: seq<Transfer>): int
  {
    if ts == [] then 0 else ts[0].amount + TotalAmount(ts[1..])
  }

  lemma {:induction false} TotalAmountAppend(a: seq<Transfer>, b: seq<Transfer>)
    ensures TotalAmount(a + b) == TotalAmount(a) + TotalAmount(b)
  {
    if a == [] {
      assert a + b == b;
    } else {
      assert (a + b)[1..] == a[1..] + b;
      TotalAmountAppend(a[1..], b);
    }
  }

  /** Whether a transfer counts towards `senderId`'s total in [from, to). */
  predicate InWindow(t: Transfer, senderId: string, from: int, to: int)
  {
    t.senderId == senderId && from <= t.createdAt < to
  }

  /** Appending a transfer to the log appends it to the window's list when it falls inside. */
  lemma {:induction false} SentBetweenAppend(log: seq<Transfer>, t: Transfer, senderId: string, from: int, to: int)
    ensures SentBetween(log + [t], senderId, from, to) ==
            SentBetween(log, senderId, from, to) + (if InWindow(t, senderId, from, to) then [t] else [])
  {
    if log == [] {
      assert [] + [t] == [t];
      assert [t][1..] == [];
    } else {
      assert (log + [t])[1..] == log[1..] + [t];
      SentBetweenAppend(log[1..], t, senderId, from, to);
    }
  }

  /**
   * Appending a transfer of `senderId` inside the window adds its amount to
   * the window's total; any other transfer leaves the total as it was.
   */
  lemma SentTotalAppend(log: seq<Transfer>, t: Transfer, senderId: string, from: int, to: int)
    ensures TotalAmount(SentBetween(log + [t], senderId, from, to)) ==
            TotalAmount(SentBetween(log, senderId, from, to)) + (if InWindow(t, senderId, from, to) then t.amount else 0)
  {
    SentBetweenAppend(log, t, senderId, from, to);
    var tail := if InWindow(t, senderId, from, to) then [t] else [];
    TotalAmountAppend(SentBetween(log, senderId, from, to), tail);
    assert TotalAmount([t]) == t.amount by {
      assert [t][1..] == [];
    }
  }

  /** One `updateUser` call: the key it addresses and the fields it sets. */
  datatype Write = Write(key: Key, patch: UserPatch)

  /** The users collection after one `updateUser`: a missing key is left missing. */
  function Store(users: map<Key, User>, w: Write, now: int): (r: map<Key, User>)
    ensures r.Keys == users.Keys
    ensures forall k :: k in users && k != w.key ==> r[k] == users[k]
    ensures w.key in users ==> r[w.key] == ApplyPatch(users[w.key], w.patch, now)
  {
    if w.key in users then users[w.key := ApplyPatch(users[w.key], w.patch, now)] else users
  }

  /** The users collection after a sequence of `updateUser` calls, in order. */
  function Replay(users: map<Key, User>, ws: seq<Write>, now: int): (r: map<Key, User>)
    ensures r.Keys == users.Keys
  {
    if ws == [] then users else Replay(Store(users, ws[0], now), ws[1..], now)
  }

  /** Writes to other keys do not touch a record. */
  lemma {:induction false} ReplayOthers(users: map<Key, User>, ws: seq<Write>, now: int, k: Key)
    requires k in users
    requires forall i :: 0 <= i < |ws| ==> ws[i].key != k
    ensures Replay(users, ws, now)[k] == users[k]
  {
    if ws != [] {
      ReplayOthers(Store(users, ws[0], now), ws[1..], now, k);
    }
  }

  /** Keeping a record's key intact: every stored record stays under its own key. */
  lemma {:induction false} ReplayKeyed(users: map<Key, User>, ws: seq<Write>, now: int)
    requires forall k :: k in users ==> KeyOf(users[k]) == k
    ensures var r := Replay(users, ws, now); forall k :: k in r ==> KeyOf(r[k]) == k
  {
    if ws != [] {
      var next := Store(users, ws[0], now);
      forall k | k in next ensures KeyOf(next[k]) == k {
        if k == ws[0].key {
          assert KeyOf(Merge(users[k], ws[0].patch)) == k;
        }
      }
      ReplayKeyed(next, ws[1..], now);
      assert Replay(users, ws, now) == Replay(next, ws[1..], now);
    }
  }

  /** Replaying one more write is storing it after the others. */
  lemma {:induction false} ReplayStep(users: map<Key, User>, ws: seq<Write>, w: Write, now: int)
    ensures Replay(users, ws + [w], now) == Store(Replay(users, ws, now), w, now)
  {
    if ws == [] {
      assert [] + [w] == [w];
    } else {
      assert (ws + [w])[1..] == ws[1..] + [w];
      ReplayStep(Store(users, ws[0], now), ws[1..], w, now);
    }
  }

  /** Replaying a single write is storing it. */
  lemma ReplayOne(users: map<Key, User>, w: Write, now: int)
    ensures Replay(users, [w], now) == Store(users, w, now)
  {
    assert [w][1..] == [];
  }

  /** The record a write addresses, after one more write to it. */
  lemma ReplayStepAt(users: map<Key, User>, ws: seq<Write>, w: Write, now: int)
    requires w.key in users
    ensures Replay(users, ws + [w], now)[w.key] == ApplyPatch(Replay(users, ws, now)[w.key], w.patch, now)
  {
    ReplayStep(users, ws, w, now);
  }

  /** The record of key `k` after one write: patched when the write addresses it. */
  function StepUser(u: User, w: Write, k: Key, now: int): (v: User)
    ensures w.key != k ==> v == u
    ensures w.key == k ==> v == ApplyPatch(u, w.patch, now)
  {
    if w.key == k then ApplyPatch(u, w.patch, now) else u
  }

  /** The record of key `k` after a sequence of writes: the writes to `k` applied in order. */
  function ReplayUser(u: User, ws: seq<Write>, k: Key, now: int): User
    decreases |ws|
  {
    if ws == [] then u else ReplayUser(StepUser(u, ws[0], k, now), ws[1..], k, now)
  }

  /** The ledger after a sequence of writes, read at one key, is that key's record replayed on its own. */
  lemma {:induction false} ReplayAtKey(users: map<Key, User>, ws: seq<Write>, now: int, k: Key)
    requires k in users
    ensures Replay(users, ws, now)[k] == ReplayUser(users[k], ws, k, now)
  {
    if ws != [] {
      var next := Store(users, ws[0], now);
      assert next[k] == StepUser(users[k], ws[0], k, now);
      ReplayAtKey(next, ws[1..], now, k);
    }
  }

  /** Replaying two sequences on one record is replaying the second on the result of the first. */
  lemma {:induction false} ReplayUserAppend(u: User, a: seq<Write>, b: seq<Write>, k: Key, now: int)
    ensures ReplayUser(u, a + b, k, now) == ReplayUser(ReplayUser(u, a, k, now), b, k, now)
    decreases |a|
  {
    if a == [] {
      assert a + b == b;
    } else {
      assert (a + b)[0] == a[0] && (a + b)[1..] == a[1..] + b;
      ReplayUserAppend(StepUser(u, a[0], k, now), a[1..], b, k, now);
    }
  }

  /** Writes to other keys leave a key's record as it was. */
  lemma {:induction false} ReplayUserUntouched(u: User, ws: seq<Write>, k: Key, now: int)
    requires forall i :: 0 <= i < |ws| ==> ws[i].key != k
    ensures ReplayUser(u, ws, k, now) == u
    decreases |ws|
  {
    if ws != [] {
      ReplayUserUntouched(u, ws[1..], k, now);
    }
  }

  /** One more write, seen from one key. */
  lemma ReplayUserThen(u: User, pre: seq<Write>, w: Write, k: Key, now: int)
    ensures ReplayUser(u, pre + [w], k, now) == StepUser(ReplayUser(u, pre, k, now), w, k, now)
  {
    ReplayUserAppend(u, pre, [w], k, now);
    assert [w][1..] == [];
  }

  /**
   * The record of a key written, then passed over by a write to another
   * key, then written again.
   */
  lemma ReplayUserAroundOther(u: User, pre: seq<Write>, a: Write, b: Write, c: Write, k: Key, now: int)
    requires a.key == k && b.key != k && c.key == k
    ensures ReplayUser(u, pre + [a] + [b] + [c], k, now) ==
      ApplyPatch(ApplyPatch(ReplayUser(u, pre, k, now), a.patch, now), c.patch, now)
  {
    ReplayUserThen(u, pre, a, k, now);
    ReplayUserThen(u, pre + [a], b, k, now);
    ReplayUserThen(u, pre + [a] + [b], c, k, now);
  }

  class Database {
    var users: map<Key, User>
    var transfers: seq<Transfer>
    var banks: map<string, Bank>

    /** Every record is stored under its own (user_id, group_id) and every bank under its group. */
    ghost predicate Valid()
      reads this
    {
      && (forall k :: k in users ==> KeyOf(users[k]) == k)
      && (forall g :: g in banks ==> banks[g].groupId == g)
    }

    constructor ()
      ensures Valid()
      ensures users == map[] && transfers == [] && banks == map[]
    {
      users := map[];
      transfers := [];
      banks := map[];
    }

    /**
     * `getUser`: the stored record, its name rewritten when a non-empty
     * different name is given; or a new default record, inserted.
     */
    method GetUser(userId: string, groupId: string, userName: string, now: int) returns (u: User)
      requires Valid()
      modifies this`users
      ensures Valid()
      ensures KeyOf(u) == Key(userId, groupId)
      ensures users == old(users)[Key(userId, groupId) := u]
      ensures Key(userId, groupId) in old(users) ==>
        u == (var v := old(users)[Key(userId, groupId)];
              if userName != "" && v.name != userName then v.(name := userName) else v)
      ensures Key(userId, groupId) !in old(users) ==> u == NewUser(userId, groupId, userName, now)
    {
      var k := Key(userId, groupId);
      if k in users {
        u := users[k];
        if userName != "" && u.name != userName {
          // `$set: { name }`, without an updated_at stamp
          users := users[k := u.(name := userName)];
          u := u.(name := userName);
        }
        return;
      }
      u := NewUser(userId, groupId, userName, now);
      users := users[k := u];
    }

    /** `updateUser`: `$set` the patch and updated_at on an existing record; no upsert. */
    method UpdateUser(userId: string, groupId: string, p: UserPatch, now: int)
      requires Valid()
      modifies this`users
      ensures Valid()
      ensures users == Store(old(users), Write(Key(userId, groupId), p), now)
    {
      var k := Key(userId, groupId);
      if k in users {
        users := users[k := ApplyPatch(users[k], p, now)];
      }
    }

    /** `updateUser` of one more write, keeping the collection the replay of all writes so far. */
    method UpdateAfter(ghost before: map<Key, User>, ghost done: seq<Write>, w: Write, now: int)
      requires Valid() && users == Replay(before, done, now)
      modifies this`users
      ensures Valid() && users == Replay(before, done + [w], now)
    {
      UpdateUser(w.key.userId, w.key.groupId, w.patch, now);
      ReplayStep(before, done, w, now);
    }

    /** The keys of the records of one group. */
    function GroupKeys(groupId: string): set<Key>
      reads this
    {
      set k | k in users && k.groupId == groupId
    }

    /**
     * `getTopUsers`: at most ten records of the group, richest first, no
     * record twice; every record of the group that is left out has no more
     * than any that is in.
     */
    ghost function TopUsers(groupId: string): (top: seq<User>)
      requires Valid()
      reads this
      ensures |top| == if |GroupKeys(groupId)| < 10 then |GroupKeys(groupId)| else 10
      ensures ByBalance(top)
      ensures forall i :: 0 <= i < |top| ==> KeyOf(top[i]) in GroupKeys(groupId) && users[KeyOf(top[i])] == top[i]
      ensures forall i, j :: 0 <= i < j < |top| ==> KeyOf(top[i]) != KeyOf(top[j])
      ensures forall k :: k in GroupKeys(groupId) && users[k] !in top ==>
                forall i :: 0 <= i < |top| ==> users[k].balance <= top[i].balance
    {
      var all := ByBalanceOf(users, GroupKeys(groupId));
      CollectedByBalanceOf(users, GroupKeys(groupId));
      var top := all[..if |all| < 10 then |all| else 10];
      TopOfCollected(users, all, GroupKeys(groupId), top);
      top
    }

    /** `addToInventory`: `$push` the item and stamp updated_at. */
    method AddToInventory(userId: string, groupId: string, item: Item, now: int)
      requires Valid()
      modifies this`users
      ensures Valid()
      ensures var k := Key(userId, groupId);
        users == if k in old(users)
                 then old(users)[k := old(users)[k].(inventory := old(users)[k].inventory + [item], updatedAt := now)]
                 else old(users)
    {
      var k := Key(userId, groupId);
      if k in users {
        users := users[k := users[k].(inventory := users[k].inventory + [item], updatedAt := now)];
      }
    }

    /** `removeFromInventory`: `$pull` every entry with the id and stamp updated_at. */
    method RemoveFromInventory(userId: string, groupId: string, itemId: string, now: int)
      requires Valid()
      modifies this`users
      ensures Valid()
      ensures var k := Key(userId, groupId);
        users == if k in old(users)
                 then old(users)[k := old(users)[k].(inventory := WithoutId(old(users)[k].inventory, itemId), updatedAt := now)]
                 else old(users)
    {
      var k := Key(userId, groupId);
      if k in users {
        users := users[k := users[k].(inventory := WithoutId(users[k].inventory, itemId), updatedAt := now)];
      }
    }

    /** `addAchievement`: `$addToSet` the name and stamp updated_at. */
    method AddAchievement(userId: string, groupId: string, achievement: string, now: int)
      requires Valid()
      modifies this`users
      ensures Valid()
      ensures var k := Key(userId, groupId);
        users == if k in old(users)
                 then old(users)[k := old(users)[k].(achievements := AddToSet(old(users)[k].achievements, achievement), updatedAt := now)]
                 else old(users)
    {
      var k := Key(userId, groupId);
      if k in users {
        users := users[k := users[k].(achievements := AddToSet(users[k].achievements, achievement), updatedAt := now)];
      }
    }

    /**
     * `getDailyTransfers`: the transfers sent by `userId`, from any group,
     * whose time lies in [date, date + one day).
     */
    function DailyTransfers(userId: string, date: int): (r: seq<Transfer>)
      reads this
      ensures forall t :: t in r <==> t in transfers && t.senderId == userId && date <= t.createdAt < date + DayMs
    {
      SentBetweenMembers(transfers, userId, date, date + DayMs);
      SentBetween(transfers, userId, date, date + DayMs)
    }

    /** `addTransfer`: append to the log. */
    method AddTransfer(t: Transfer)
      modifies this`transfers
      ensures transfers == old(transfers) + [t]
    {
      transfers := transfers + [t];
    }

    /** `getBank`: the group's bank, or a zeroed one, inserted. */
    method GetBank(groupId: string, now: int) returns (b: Bank)
      requires Valid()
      modifies this`banks
      ensures Valid()
      ensures b.groupId == groupId
      ensures groupId in old(banks) ==> b == old(banks)[groupId] && banks == old(banks)
      ensures groupId !in old(banks) ==> b == Bank(groupId, 0, 0, 0, Some(now), now) && banks == old(banks)[groupId := b]
    {
      if groupId in banks {
        b := banks[groupId];
        return;
      }
      b := Bank(groupId, 0, 0, 0, Some(now), now);
      banks := banks[groupId := b];
    }

    /**
     * `updateBank`: `$inc` balance and total_tax_collected by the tax and
     * total_transfers by one, with upsert (an inserted bank starts from zero
     * and has no created_at).
     */
    method UpdateBank(groupId: string, tax: int, now: int)
      requires Valid()
      modifies this`banks
      ensures Valid()
      ensures banks == old(banks)[groupId := BankAfterTax(BankOf(old(banks), groupId), groupId, tax, now)]
    {
      var prior := BankOf(banks, groupId);
      banks := banks[groupId := BankAfterTax(prior, groupId, tax, now)];
    }
  }

  /**
   * What `TopUsers` builds on: `all` holds the records of the keys in
   * `done`, each once, ordered by balance.
   */
  ghost predicate Collected(users: map<Key, User>, all: seq<User>, done: set<Key>)
  {
    && |all| == |done|
    && ByBalance(all)
    && (forall x :: multiset(all)[x] <= 1)
    && (forall i :: 0 <= i < |all| ==> KeyOf(all[i]) in done && KeyOf(all[i]) in users && users[KeyOf(all[i])] == all[i])
    && (forall k :: k in done ==> k in users && users[k] in all)
  }

  lemma CollectStep(users: map<Key, User>, all: seq<User>, done: set<Key>, k: Key)
    requires Collected(users, all, done) && k in users && k !in done && KeyOf(users[k]) == k
    ensures Collected(users, InsertByBalance(all, users[k]), done + {k})
  {
    var u := users[k];
    var r := InsertByBalance(all, u);
    InsertByBalanceOrdered(all, u);
    assert u !in multiset(all) by {
      assert forall i :: 0 <= i < |all| ==> all[i] != u;
    }
    forall x ensures multiset(r)[x] <= 1 {
      assert multiset(r)[x] == multiset(all)[x] + multiset{u}[x];
    }
    forall i | 0 <= i < |r|
      ensures KeyOf(r[i]) in done + {k} && KeyOf(r[i]) in users && users[KeyOf(r[i])] == r[i]
    {
      InsertedMember(all, u, r, i);
    }
    forall k' | k' in done + {k} ensures k' in users && users[k'] in r {
      assert users[k'] in multiset(r);
    }
  }

  /** Every entry of the list after an insertion is the inserted record or one that was there. */
  lemma InsertedMember(all: seq<User>, u: User, r: seq<User>, i: int)
    requires multiset(r) == multiset(all) + multiset{u}
    requires 0 <= i < |r|
    ensures r[i] == u || exists j :: 0 <= j < |all| && all[j] == r[i]
  {
    assert r[i] in multiset(r);
    if r[i] != u {
      assert r[i] in multiset(all);
      assert r[i] in all;
    }
  }

  lemma TopOfCollected(users: map<Key, User>, all: seq<User>, done: set<Key>, top: seq<User>)
    requires Collected(users, all, done)
    requires top == all[..if |all| < 10 then |all| else 10]
    ensures ByBalance(top)
    ensures forall i :: 0 <= i < |top| ==> KeyOf(top[i]) in done && users[KeyOf(top[i])] == top[i]
    ensures forall i, j :: 0 <= i < j < |top| ==> KeyOf(top[i]) != KeyOf(top[j])
    ensures forall k :: k in done && users[k] !in top ==>
              forall i :: 0 <= i < |top| ==> users[k].balance <= top[i].balance
  {
    var n := |top|;
    forall i, j | 0 <= i < j < |top| ensures KeyOf(top[i]) != KeyOf(top[j]) {
      if KeyOf(top[i]) == KeyOf(top[j]) {
        TwiceInMultiset(all, i, j);
      }
    }
    forall k | k in done && users[k] !in top
      ensures forall i :: 0 <= i < |top| ==> users[k].balance <= top[i].balance
    {
      var j :| 0 <= j < |all| && all[j] == users[k];
    }
  }

  /** Some key of a non-empty set. */
  ghost function AnyKey(keys: set<Key>): (k: Key)
    requires keys != {}
    ensures k in keys
  {
    var k :| k in keys; k
  }

  /** The records under the given keys, sorted by balance, richest first. */
  ghost function ByBalanceOf(users: map<Key, User>, keys: set<Key>): seq<User>
    requires keys <= users.Keys
  {
    if keys == {} then []
    else InsertByBalance(ByBalanceOf(users, keys - {AnyKey(keys)}), users[AnyKey(keys)])
  }

  lemma {:induction false} CollectedByBalanceOf(users: map<Key, User>, keys: set<Key>)
    requires keys <= users.Keys
    requires forall k :: k in users ==> KeyOf(users[k]) == k
    ensures Collected(users, ByBalanceOf(users, keys), keys)
  {
    if keys != {} {
      var k := AnyKey(keys);
      var rest := ByBalanceOf(users, keys - {k});
      CollectedByBalanceOf(users, keys - {k});
      CollectStep(users, rest, keys - {k}, k);
      assert keys - {k} + {k} == keys;
    }
  }

  /** The stored bank of a group, if any. */
  function BankOf(banks: map<string, Bank>, groupId: string): (b: Option<Bank>)
    ensures b.Some? <==> groupId in banks
    ensures b.Some? ==> b.value == banks[groupId]
  {
    if groupId in banks then Some(banks[groupId]) else None
  }

  /** The bank after one taxed transfer, starting from the stored one or from nothing. */
  function BankAfterTax(prior: Option<Bank>, groupId: string, tax: int, now: int): (b: Bank)
    requires prior.Some? ==> prior.value.groupId == groupId
    ensures b.groupId == groupId && b.updatedAt == now
    ensures prior.Some? ==> (b.balance == prior.value.balance + tax
                             && b.totalTaxCollected == prior.value.totalTaxCollected + tax
                             && b.totalTransfers == prior.value.totalTransfers + 1
                             && b.createdAt == prior.value.createdAt)
    ensures prior.None? ==> b.balance == tax && b.totalTaxCollected == tax && b.totalTransfers == 1 && b.createdAt.None?
  {
    match prior
    case Some(old_) =>
      old_.(balance := old_.balance + tax,
            totalTaxCollected := old_.totalTaxCollected + tax,
            totalTransfers := old_.totalTransfers + 1,
            updatedAt := now)
    case None => Bank(groupId, tax, tax, 1, None, now)
  }

  /** The inventory with every entry of the given id pulled out, order kept. */
  function WithoutId(inv: seq<Item>, itemId: string): (r: seq<Item>)
    ensures forall x :: x in r <==> x in inv && x.id != itemId
    ensures |r| <= |inv|
  {
    if inv == [] then []
    else
      assert inv == [inv[0]] + inv[1..];
      if inv[0].id == itemId then WithoutId(inv[1..], itemId) else [inv[0]] + WithoutId(inv[1..], itemId)
  }

  /** `$addToSet`: append unless already present. */
  function AddToSet(s: seq<string>, x: string): (r: seq<string>)
    ensures x in s ==> r == s
    ensures x !in s ==> r == s + [x]
  {
    if x in s then s else s + [x]
  }

  /** Adding an achievement twice is adding it once. */
  lemma AddToSetIdempotent(s: seq<string>, x: string)
    ensures AddToSet(AddToSet(s, x), x) == AddToSet(s, x)
  {
  }

  /** `$addToSet` never introduces a duplicate into a list that had none. */
  lemma AddToSetKeepsDistinct(s: seq<string>, x: string)
    requires forall i, j :: 0 <= i < j < |s| ==> s[i] != s[j]
    ensures var r := AddToSet(s, x); forall i, j :: 0 <= i < j < |r| ==> r[i] != r[j]
  {
  }

  /** Pulling an id leaves none of it, and pulling again changes nothing. */
  lemma WithoutIdIdempotent(inv: seq<Item>, itemId: string)
    ensures WithoutId(WithoutId(inv, itemId), itemId) == WithoutId(inv, itemId)
  {
    if inv != [] {
      WithoutIdIdempotent(inv[1..], itemId);
    }
  }
}
