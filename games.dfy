/**
 * The gambling games of `GamesManager`: coin flip, slots and roulette.
 * Each checks the stake against a minimum and the balance, draws the
 * outcome and ends in one update of the balance.
 */
module Games {
  import opened Common
  import opened Types
  import opened Ledger

  const MinStake: int := 100
  const MaxRouletteBet: int := 50000

  // ---------------------------------------------------------------------
  // Coin flip
  // ---------------------------------------------------------------------

  /** The side a draw shows: "cara" below one half, "coroa" otherwise. */
  function CoinSide(r: Draw): (side: string)
    ensures side == "cara" || side == "coroa"
  {
    if r < 0.5 then "cara" else "coroa"
  }

  /** What `playFlip` replies: a refused stake, or the side shown and the profit or loss. */
  datatype FlipReply = FlipTooSmall | FlipTooPoor | FlipWon(side: string, profit: int) | FlipLost(side: string, loss: int)

  /** `Math.floor(amount * 1.8) - amount`: the profit of a winning flip. */
  function FlipProfit(amount: int): (profit: int)
  {
    (amount as real * 1.8).Floor - amount
  }

  /** A winning flip pays floor(0.8 · stake), which is positive from the minimum stake on. */
  lemma FlipProfitIsEightTenths(amount: int)
    ensures FlipProfit(amount) == (amount as real * 0.8).Floor
    ensures amount >= MinStake ==> FlipProfit(amount) > 0
  {
    var x := amount as real * 0.8;
    assert amount as real * 1.8 == x + amount as real;
    FloorShift(x, amount);
    if amount >= MinStake {
      assert x >= 80.0;
    }
  }

  lemma FloorShift(x: real, n: int)
    ensures (x + n as real).Floor == x.Floor + n
  {
    assert x.Floor as real <= x < x.Floor as real + 1.0;
  }

  /**
   * The reply of `playFlip` for the record `user`: a stake below the
   * minimum or above the balance is refused; otherwise the draw decides
   * the side, and the player wins exactly when it is the chosen one.
   */
  function FlipResult(user: User, amount: int, choice: string, r: Draw): (reply: FlipReply)
    ensures reply.FlipTooSmall? <==> amount < MinStake
    ensures reply.FlipTooPoor? <==> MinStake <= amount && user.balance < amount
    ensures reply.FlipWon? <==> MinStake <= amount <= user.balance && CoinSide(r) == choice
    ensures reply.FlipWon? ==> reply.side == choice && reply.profit == (amount as real * 0.8).Floor && reply.profit > 0
    ensures reply.FlipLost? ==> reply.side == CoinSide(r) != choice && reply.loss == amount
  {
    if amount < MinStake then FlipTooSmall
    else if user.balance < amount then FlipTooPoor
    else if CoinSide(r) == choice then
      FlipProfitIsEightTenths(amount);
      FlipWon(CoinSide(r), FlipProfit(amount))
    else FlipLost(CoinSide(r), amount)
  }

  /** The balance update of a game: the stake's net gain or loss added to the snapshot's balance. */
  function BalanceWrite(user: User, net: int): Write
  {
    Write(KeyOf(user), NoChange.(balance := Some(user.balance + net)))
  }

  /** The update of a played flip: the profit added, or the stake taken. */
  function FlipWrites(user: User, reply: FlipReply): seq<Write>
  {
    match reply
    case FlipWon(_, profit) => [BalanceWrite(user, profit)]
    case FlipLost(_, loss) => [BalanceWrite(user, -loss)]
    case _ => []
  }

  /** `playFlip` against the ledger. */
  method PlayFlip(db: Database, user: User, amount: int, choice: string, r: Draw, now: int) returns (reply: FlipReply)
    requires db.Valid()
    modifies db`users
    ensures db.Valid()
    ensures reply == FlipResult(user, amount, choice, r)
    ensures db.users == Replay(old(db.users), FlipWrites(user, reply), now)
  {
    if amount < MinStake {
      return FlipTooSmall;
    }
    if user.balance < amount {
      return FlipTooPoor;
    }
    var side := CoinSide(r);
    var w;
    if side == choice {
      var winAmount := (amount as real * 1.8).Floor;
      reply := FlipWon(side, winAmount - amount);
      w := BalanceWrite(user, winAmount - amount);
    } else {
      reply := FlipLost(side, amount);
      w := BalanceWrite(user, -amount);
    }
    assert FlipWrites(user, reply) == [] + [w];
    db.UpdateAfter(old(db.users), [], w, now);
  }

  // ---------------------------------------------------------------------
  // Slots
  // ---------------------------------------------------------------------

  /** The reel symbols: apple, orange, grape, strawberry, diamond and seven. */
  datatype Symbol = Apple | Orange | Grape | Strawberry | Diamond | Seven

  const Reel: seq<Symbol> := [Apple, Orange, Grape, Strawberry, Diamond, Seven]

  /** The symbol a draw picks from the reel. */
  function Spin(r: Draw): (s: Symbol)
  {
    Reel[Pick(r, |Reel|)]
  }

  /**
   * The payout multiplier of three symbols: 10 for three sevens, 7 for
   * three diamonds, 3 for any other triple, 1.5 when the middle symbol
   * matches a neighbour, and nothing otherwise.
   */
  function SlotsMultiplier(a: Symbol, b: Symbol, c: Symbol): (m: real)
    ensures m == 0.0 || m == 1.5 || m == 3.0 || m == 7.0 || m == 10.0
    ensures m > 0.0 <==> a == b || b == c
    ensures m == 10.0 <==> a == b == c == Seven
    ensures m >= 3.0 <==> a == b == c
  {
    if a == b && b == c then
      if a == Seven then 10.0 else if a == Diamond then 7.0 else 3.0
    else if a == b || b == c then 1.5
    else 0.0
  }

  /**
   * The multiplier depends only on which symbols match: it pays exactly
   * when the middle symbol matches a neighbour, a match of the first and
   * the last symbol alone pays nothing, and every paying multiplier is at
   * least 1.5.
   */
  lemma SlotsMultiplierLadder(a: Symbol, b: Symbol, c: Symbol)
    ensures SlotsMultiplier(a, b, c) > 0.0 <==> a == b || b == c
    ensures SlotsMultiplier(a, b, c) > 0.0 ==> SlotsMultiplier(a, b, c) >= 1.5
    ensures a == c && a != b ==> SlotsMultiplier(a, b, c) == 0.0
    ensures a == b == c ==> SlotsMultiplier(a, b, c) == (if a == Seven then 10.0 else if a == Diamond then 7.0 else 3.0)
    ensures (a == b) != (b == c) ==> SlotsMultiplier(a, b, c) == 1.5
  {
  }

  /** What `playSlots` replies: a refused stake, or the three symbols and the net change of the balance. */
  datatype SlotsReply = SlotsTooSmall | SlotsTooPoor | Spun(symbols: seq<Symbol>, multiplier: real, net: int)

  /** `Math.floor(amount * multiplier) - amount`: the profit of a slots round. */
  function SlotsProfit(amount: int, m: real): int
  {
    (amount as real * m).Floor - amount
  }

  /** A paying round never loses coins; a round that does not pay loses the stake. */
  lemma SlotsProfitSign(amount: int, m: real)
    requires amount >= 0
    ensures m >= 1.0 ==> SlotsProfit(amount, m) >= 0
    ensures m == 0.0 ==> SlotsProfit(amount, m) == -amount
  {
    if m >= 1.0 {
      assert amount as real * m >= amount as real * 1.0;
    }
  }

  /**
   * The reply of `playSlots`: the stake is refused below the minimum or
   * above the balance; otherwise three draws pick the symbols, a paying
   * round changes the balance by floor(stake · multiplier) − stake, which
   * is never negative, and a losing round takes the stake.
   */
  function SlotsResult(user: User, amount: int, r0: Draw, r1: Draw, r2: Draw): (reply: SlotsReply)
    ensures reply.SlotsTooSmall? <==> amount < MinStake
    ensures reply.SlotsTooPoor? <==> MinStake <= amount && user.balance < amount
    ensures reply.Spun? <==> MinStake <= amount <= user.balance
    ensures reply.Spun? ==> reply.symbols == [Spin(r0), Spin(r1), Spin(r2)]
    ensures reply.Spun? ==> reply.multiplier == SlotsMultiplier(Spin(r0), Spin(r1), Spin(r2))
    ensures reply.Spun? && reply.multiplier > 0.0 ==> reply.net == (amount as real * reply.multiplier).Floor - amount >= 0
    ensures reply.Spun? && reply.multiplier == 0.0 ==> reply.net == -amount
  {
    if amount < MinStake then SlotsTooSmall
    else if user.balance < amount then SlotsTooPoor
    else
      var m := SlotsMultiplier(Spin(r0), Spin(r1), Spin(r2));
      SlotsProfitSign(amount, m);
      Spun([Spin(r0), Spin(r1), Spin(r2)], m, if m > 0.0 then SlotsProfit(amount, m) else -amount)
  }

  /** The update of a played round: the net change added to the balance. */
  function SlotsWrites(user: User, reply: SlotsReply): seq<Write>
  {
    if reply.Spun? then [BalanceWrite(user, reply.net)] else []
  }

  /** `playSlots` against the ledger. */
  method PlaySlots(db: Database, user: User, amount: int, r0: Draw, r1: Draw, r2: Draw, now: int) returns (reply: SlotsReply)
    requires db.Valid()
    modifies db`users
    ensures db.Valid()
    ensures reply == SlotsResult(user, amount, r0, r1, r2)
    ensures db.users == Replay(old(db.users), SlotsWrites(user, reply), now)
  {
    if amount < MinStake {
      return SlotsTooSmall;
    }
    if user.balance < amount {
      return SlotsTooPoor;
    }
    var a, b, c := Spin(r0), Spin(r1), Spin(r2);
    var multiplier := SlotsMultiplier(a, b, c);
    var winAmount := (amount as real * multiplier).Floor;
    var profit := winAmount - amount;
    var net := if multiplier > 0.0 then profit else -amount;
    reply := Spun([a, b, c], multiplier, net);
    var w := BalanceWrite(user, net);
    assert SlotsWrites(user, reply) == [] + [w];
    db.UpdateAfter(old(db.users), [], w, now);
  }

  // ---------------------------------------------------------------------
  // Roulette
  // ---------------------------------------------------------------------

  datatype Color = Red | Black | Green

  /** The red numbers of the wheel. */
  const RedNumbers: set<int> := {1, 3, 5, 7, 9, 12, 14, 16, 18, 19, 21, 23, 25, 27, 30, 32, 34, 36}

  /** The colour of a pocket: 0 is green, the listed numbers red, every other black. */
  function ColorOf(n: int): (c: Color)
    ensures c == Green <==> n == 0
    ensures c == Red <==> n != 0 && n in RedNumbers
  {
    if n == 0 then Green else if n in RedNumbers then Red else Black
  }

  /** What `roulette` replies: a refused bet, or the pocket, its colour, the multiplier and the prize. */
  datatype RouletteReply = BetOutOfRange | RouletteTooPoor | Landed(number: int, color: Color, multiplier: int, prize: int)

  /**
   * The reply of `roulette`: a bet outside [100, 50000] or above the
   * balance is refused; otherwise the draw picks a pocket in 0..36, a
   * matching colour pays 14 times the bet on green and twice the bet on
   * red or black, and any other colour pays nothing.
   */
  function RouletteResult(user: User, bet: int, choice: Color, r: Draw): (reply: RouletteReply)
    ensures reply.BetOutOfRange? <==> bet < MinStake || bet > MaxRouletteBet
    ensures reply.RouletteTooPoor? <==> MinStake <= bet <= MaxRouletteBet && user.balance < bet
    ensures reply.Landed? ==> MinStake <= bet <= MaxRouletteBet && bet <= user.balance
    ensures reply.Landed? ==> 0 <= reply.number <= 36 && reply.color == ColorOf(reply.number)
    ensures reply.Landed? ==> reply.prize == bet * reply.multiplier
    ensures reply.Landed? ==> (reply.color == choice <==> reply.multiplier > 0)
    ensures reply.Landed? && reply.color == choice ==> reply.multiplier == (if choice == Green then 14 else 2)
  {
    if bet < MinStake || bet > MaxRouletteBet then BetOutOfRange
    else if user.balance < bet then RouletteTooPoor
    else
      var n := Pick(r, 37);
      var color := ColorOf(n);
      var m := if color == choice then (if color == Green then 14 else 2) else 0;
      Landed(n, color, m, bet * m)
  }

  /** The update of a spin: the prize less the bet added to the balance. */
  function RouletteWrites(user: User, bet: int, reply: RouletteReply): seq<Write>
  {
    if reply.Landed? then [BalanceWrite(user, reply.prize - bet)] else []
  }

  /** `roulette` against the ledger. */
  method Roulette(db: Database, user: User, bet: int, choice: Color, r: Draw, now: int) returns (reply: RouletteReply)
    requires db.Valid()
    modifies db`users
    ensures db.Valid()
    ensures reply == RouletteResult(user, bet, choice, r)
    ensures db.users == Replay(old(db.users), RouletteWrites(user, bet, reply), now)
  {
    if bet < MinStake || bet > MaxRouletteBet {
      return BetOutOfRange;
    }
    if user.balance < bet {
      return RouletteTooPoor;
    }
    var number := Pick(r, 37);
    var color := ColorOf(number);
    var multiplier := 0;
    if color == choice {
      multiplier := if color == Green then 14 else 2;
    }
    var prize := bet * multiplier;
    reply := Landed(number, color, multiplier, prize);
    var w := BalanceWrite(user, prize - bet);
    assert RouletteWrites(user, bet, reply) == [] + [w];
    db.UpdateAfter(old(db.users), [], w, now);
  }

  // ---------------------------------------------------------------------
  // The stored record
  // ---------------------------------------------------------------------

  /** The record after a balance update: only the balance and the stamp change. */
  lemma BalanceWriteRecord(user: User, net: int, now: int)
    ensures ReplayUser(user, [BalanceWrite(user, net)], KeyOf(user), now) ==
      user.(balance := user.balance + net, updatedAt := now)
  {
    ReplayUserThen(user, [], BalanceWrite(user, net), KeyOf(user), now);
    assert [] + [BalanceWrite(user, net)] == [BalanceWrite(user, net)];
  }

  /**
   * No flip overdraws: a refused stake leaves the record as it was, a win
   * raises the balance by the profit and a loss takes the stake, which
   * the balance covered; nothing but the balance and the stamp changes.
   */
  lemma FlipRecord(user: User, amount: int, choice: string, r: Draw, now: int)
    ensures var flip := FlipResult(user, amount, choice, r);
      var v := ReplayUser(user, FlipWrites(user, flip), KeyOf(user), now);
      && (!flip.FlipWon? && !flip.FlipLost? ==> v == user)
      && (flip.FlipWon? ==> v == user.(balance := user.balance + flip.profit, updatedAt := now) && v.balance > user.balance)
      && (flip.FlipLost? ==> v == user.(balance := user.balance - amount, updatedAt := now) && v.balance >= 0)
  {
    var flip := FlipResult(user, amount, choice, r);
    if flip.FlipWon? { BalanceWriteRecord(user, flip.profit, now); }
    if flip.FlipLost? { BalanceWriteRecord(user, -amount, now); }
  }

  /** No slots round overdraws: the balance changes by the round's net, and stays at least zero. */
  lemma SlotsRecord(user: User, amount: int, r0: Draw, r1: Draw, r2: Draw, now: int)
    ensures var slots := SlotsResult(user, amount, r0, r1, r2);
      var v := ReplayUser(user, SlotsWrites(user, slots), KeyOf(user), now);
      && (!slots.Spun? ==> v == user)
      && (slots.Spun? ==> v == user.(balance := user.balance + slots.net, updatedAt := now) && v.balance >= 0)
  {
    var slots := SlotsResult(user, amount, r0, r1, r2);
    if slots.Spun? { BalanceWriteRecord(user, slots.net, now); }
  }

  /** No spin overdraws: the balance changes by the prize less the bet, and stays at least zero. */
  lemma RouletteRecord(user: User, bet: int, color: Color, r: Draw, now: int)
    ensures var spin := RouletteResult(user, bet, color, r);
      var v := ReplayUser(user, RouletteWrites(user, bet, spin), KeyOf(user), now);
      && (!spin.Landed? ==> v == user)
      && (spin.Landed? ==> v == user.(balance := user.balance + spin.prize - bet, updatedAt := now) && v.balance >= 0)
  {
    var spin := RouletteResult(user, bet, color, r);
    if spin.Landed? { BalanceWriteRecord(user, spin.prize - bet, now); }
  }

  /** Betting on green wins exactly on pocket 0, and then nets thirteen times the bet. */
  lemma GreenWinsOnlyOnZero(user: User, bet: int, r: Draw)
    requires MinStake <= bet <= MaxRouletteBet && bet <= user.balance
    ensures var spin := RouletteResult(user, bet, Green, r);
      spin.Landed? && (spin.multiplier > 0 <==> spin.number == 0) &&
      (spin.number == 0 ==> spin.prize - bet == 13 * bet)
  {
  }
}
