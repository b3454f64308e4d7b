/**
 * Transfers between users of one group (`TransferManager.transfer`): the
 * amount is bounded per transfer and per day, a 5% tax goes to the group's
 * bank and the rest to the receiver, and every transfer is logged.
 */
module Transfers {
  import opened Common
  import opened Types
  import opened Ledger

  const MinTransfer: int := 100
  const MaxTransfer: int := 1000000
  const DailyTransferLimit: int := 5000000

  /** What `transfer` replies: one refusal per check, or the amount, the tax and what the receiver got. */
  datatype TransferReply =
    | BelowMinimum
    | AboveMaximum
    | InsufficientFunds(balance: int)
    | DailyLimitReached(sentToday: int)
    | Transferred(amount: int, tax: int, received: int)

  /** `Math.floor(amount * 0.05)`: the tax of a transfer. */
  function TransferTax(amount: int): (tax: int)
    ensures tax == amount / 20
    ensures amount >= 0 ==> 0 <= tax <= amount
  {
    assert amount as real * 0.05 == amount as real / 20 as real;
    FloorOfQuotient(amount, 20);
    (amount as real * 0.05).Floor
  }

  /** The total that `senderId` sent from the local midnight `today` to the next one. */
  function SentToday(log: seq<Transfer>, senderId: string, today: int): int
  {
    TotalAmount(SentBetween(log, senderId, today, today + DayMs))
  }

  /**
   * The reply of `transfer` for the sender record `sender`, given what it
   * sent today: refused below 100, above 1000000, above the balance, or
   * past the daily limit of 5000000; otherwise the receiver gets the
   * amount less a tax of one twentieth rounded down.
   */
  function TransferResult(sender: User, amount: int, sentToday: int): (reply: TransferReply)
    ensures reply.BelowMinimum? <==> amount < MinTransfer
    ensures reply.AboveMaximum? <==> amount > MaxTransfer
    ensures reply.InsufficientFunds? <==> MinTransfer <= amount <= MaxTransfer && sender.balance < amount
    ensures reply.DailyLimitReached? <==>
      MinTransfer <= amount <= MaxTransfer && amount <= sender.balance && sentToday + amount > DailyTransferLimit
    ensures reply.InsufficientFunds? ==> reply.balance == sender.balance
    ensures reply.DailyLimitReached? ==> reply.sentToday == sentToday
    ensures reply.Transferred? ==>
      && MinTransfer <= amount <= MaxTransfer && amount <= sender.balance && sentToday + amount <= DailyTransferLimit
      && reply.amount == amount && reply.tax == amount / 20
      && reply.tax + reply.received == amount && 0 < reply.received <= amount
  {
    if amount < MinTransfer then BelowMinimum
    else if amount > MaxTransfer then AboveMaximum
    else if sender.balance < amount then InsufficientFunds(sender.balance)
    else if sentToday + amount > DailyTransferLimit then DailyLimitReached(sentToday)
    else
      var tax := TransferTax(amount);
      Transferred(amount, tax, amount - tax)
  }

  /** The two balance updates of a transfer: the sender debited the amount, then the receiver credited the rest. */
  function TransferWrites(sender: User, receiver: User, reply: TransferReply): seq<Write>
  {
    if reply.Transferred? then
      [Write(KeyOf(sender), NoChange.(balance := Some(sender.balance - reply.amount)))]
      + [Write(KeyOf(receiver), NoChange.(balance := Some(receiver.balance + reply.received)))]
    else []
  }

  /**
   * `transfer` against the ledger. A refused transfer touches nothing; a
   * successful one reads (or creates) the receiver's record in the
   * sender's group, writes both balances, appends the log entry and pays
   * the tax into the group's bank.
   */
  method Send(db: Database, sender: User, receiverId: string, amount: int, today: int, now: int)
    returns (reply: TransferReply)
    requires db.Valid()
    modifies db`users, db`transfers, db`banks
    ensures db.Valid()
    ensures reply == TransferResult(sender, amount, SentToday(old(db.transfers), sender.userId, today))
    ensures !reply.Transferred? ==>
      db.users == old(db.users) && db.transfers == old(db.transfers) && db.banks == old(db.banks)
    ensures reply.Transferred? ==>
      var rk := Key(receiverId, sender.groupId);
      var receiver := Fetched(old(db.users), rk, now);
      && db.users == Replay(old(db.users)[rk := receiver], TransferWrites(sender, receiver, reply), now)
      && db.transfers == old(db.transfers) + [Transfer(sender.userId, receiverId, amount, reply.tax, now)]
      && db.banks == old(db.banks)[sender.groupId := BankAfterTax(BankOf(old(db.banks), sender.groupId),
                                                                    sender.groupId, reply.tax, now)]
  {
    if amount < MinTransfer {
      return BelowMinimum;
    }
    if amount > MaxTransfer {
      return AboveMaximum;
    }
    if sender.balance < amount {
      return InsufficientFunds(sender.balance);
    }
    var transfers := db.DailyTransfers(sender.userId, today);
    var totalTransferred := TotalAmount(transfers);
    if totalTransferred + amount > DailyTransferLimit {
      return DailyLimitReached(totalTransferred);
    }
    var tax := TransferTax(amount);
    reply := Transferred(amount, tax, amount - tax);
    PayBoth(db, sender, receiverId, reply, now);
    db.AddTransfer(Transfer(sender.userId, receiverId, amount, tax, now));
    db.UpdateBank(sender.groupId, tax, now);
  }

  /**
   * The balance updates of a successful transfer: read (or create) the
   * receiver in the sender's group, debit the sender, credit the receiver.
   */
  method PayBoth(db: Database, sender: User, receiverId: string, reply: TransferReply, now: int)
    requires db.Valid() && reply.Transferred?
    modifies db`users
    ensures db.Valid()
    ensures var rk := Key(receiverId, sender.groupId);
      var receiver := Fetched(old(db.users), rk, now);
      db.users == Replay(old(db.users)[rk := receiver], TransferWrites(sender, receiver, reply), now)
  {
    var receiver := db.GetUser(receiverId, sender.groupId, "", now);
    ghost var fetched := db.users;
    var debit := Write(KeyOf(sender), NoChange.(balance := Some(sender.balance - reply.amount)));
    var credit := Write(KeyOf(receiver), NoChange.(balance := Some(receiver.balance + reply.received)));
    assert TransferWrites(sender, receiver, reply) == [] + [debit] + [credit];
    db.UpdateAfter(fetched, [], debit, now);
    db.UpdateAfter(fetched, [] + [debit], credit, now);
  }

  /**
   * A transfer between two records conserves coins: the sender is debited
   * the amount and stays at or above zero, the receiver is credited the
   * amount less the tax, and the tax is exactly what the pair lost.
   */
  lemma TransferConserves(sender: User, receiver: User, amount: int, sentToday: int, now: int)
    requires KeyOf(receiver) != KeyOf(sender)
    requires TransferResult(sender, amount, sentToday).Transferred?
    ensures var reply := TransferResult(sender, amount, sentToday);
      var ws := TransferWrites(sender, receiver, reply);
      var s := ReplayUser(sender, ws, KeyOf(sender), now);
      var r := ReplayUser(receiver, ws, KeyOf(receiver), now);
      && s == sender.(balance := sender.balance - amount, updatedAt := now) && s.balance >= 0
      && r == receiver.(balance := receiver.balance + amount - reply.tax, updatedAt := now)
      && s.balance + r.balance + reply.tax == sender.balance + receiver.balance
  {
    var reply := TransferResult(sender, amount, sentToday);
    var debit := Write(KeyOf(sender), NoChange.(balance := Some(sender.balance - reply.amount)));
    var credit := Write(KeyOf(receiver), NoChange.(balance := Some(receiver.balance + reply.received)));
    assert TransferWrites(sender, receiver, reply) == [] + [debit] + [credit];
    ReplayUserThen(sender, [], debit, KeyOf(sender), now);
    ReplayUserThen(sender, [] + [debit], credit, KeyOf(sender), now);
    ReplayUserThen(receiver, [], debit, KeyOf(receiver), now);
    ReplayUserThen(receiver, [] + [debit], credit, KeyOf(receiver), now);
  }

  /**
   * Called with the sender as its own receiver, `transfer` creates coins:
   * the credit, computed from the same snapshot, overwrites the debit, so
   * the record ends with the amount less the tax added to its balance.
   * The command router refuses a self-transfer before calling it.
   */
  lemma SelfTransferMints(sender: User, amount: int, sentToday: int, now: int)
    requires TransferResult(sender, amount, sentToday).Transferred?
    ensures var reply := TransferResult(sender, amount, sentToday);
      var s := ReplayUser(sender, TransferWrites(sender, sender, reply), KeyOf(sender), now);
      s.balance == sender.balance + reply.received > sender.balance
  {
    var reply := TransferResult(sender, amount, sentToday);
    var debit := Write(KeyOf(sender), NoChange.(balance := Some(sender.balance - reply.amount)));
    var credit := Write(KeyOf(sender), NoChange.(balance := Some(sender.balance + reply.received)));
    assert TransferWrites(sender, sender, reply) == [] + [debit] + [credit];
    ReplayUserThen(sender, [], debit, KeyOf(sender), now);
    ReplayUserThen(sender, [] + [debit], credit, KeyOf(sender), now);
  }

  /**
   * The daily limit is cumulative: a transfer made during the day adds its
   * amount to the day's total, which therefore never exceeds 5000000
   * through successful transfers.
   */
  lemma DailyTotalGrows(log: seq<Transfer>, sender: User, receiverId: string, amount: int, today: int, now: int)
    requires today <= now < today + DayMs
    requires TransferResult(sender, amount, SentToday(log, sender.userId, today)).Transferred?
    ensures var reply := TransferResult(sender, amount, SentToday(log, sender.userId, today));
      var log' := log + [Transfer(sender.userId, receiverId, amount, reply.tax, now)];
      SentToday(log', sender.userId, today) == SentToday(log, sender.userId, today) + amount <= DailyTransferLimit
  {
    var reply := TransferResult(sender, amount, SentToday(log, sender.userId, today));
    SentTotalAppend(log, Transfer(sender.userId, receiverId, amount, reply.tax, now), sender.userId, today, today + DayMs);
  }

  /** A transfer's log entry falls outside every other sender's daily total. */
  lemma OtherSendersUnaffected(log: seq<Transfer>, t: Transfer, other: string, today: int)
    requires t.senderId != other
    ensures SentToday(log + [t], other, today) == SentToday(log, other, today)
  {
    SentTotalAppend(log, t, other, today, today + DayMs);
  }
}
