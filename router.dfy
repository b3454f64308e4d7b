/**
 * The command router (`CBCoinSystem.handleCommand`): the text is lowercased,
 * trimmed and split on spaces; an unknown first word is refused before the
 * ledger is touched; in a group where the economy is closed only the
 * administrative commands pass; then the sender's record is read and the
 * command's own checks decide which manager runs, and the XP a manager
 * reports is handed to the level manager.
 */
module Router {
  import opened Common
  import opened Types
  import opened Ledger
  import opened Jid
  import Daily
  import Work
  import Mining
  import Robbery
  import Fishing
  import Farming
  import Games
  import Transfers
  import Shop
  import Inventory
  import Levels
  import GroupState

  /** The words `isCBCoinCommand` accepts, in the order of its list. */
  const Commands: seq<string> := [
    "!diario", "!daily",
    "!trabalhar", "!work",
    "!minerar", "!mine",
    "!roubar", "!rob",
    "!saldo", "!balance",
    "!perfil", "!profile",
    "!top", "!ranking",
    "!inventario", "!inventory",
    "!loja", "!shop",
    "!comprar", "!buy",
    "!usar", "!use",
    "!flip", "!coinflip",
    "!slots", "!slot",
    "!transferir", "!pay",
    "!banco", "!bancocbcoin",
    "!abrircbcoin", "!fecharcbcoin",
    "!pescar", "!fish",
    "!plantar", "!colher",
    "!menuagricultura",
    "!plantacao",
    "!plantacoes"
  ]

  /** The commands that pass in a group where the economy is closed. */
  const AdminCommands: seq<string> := ["!abrircbcoin", "!fecharcbcoin", "!banco", "!bancocbcoin"]

  // ---------------------------------------------------------------------
  // Tokenising and gating
  // ---------------------------------------------------------------------

  /**
   * The texts an incoming message may carry, each the empty string when
   * the message has none: the plain conversation, the extended text, and
   * an image's caption.
   */
  datatype WAMessage = WAMessage(conversation: string, extendedText: string, imageCaption: string)

  /**
   * `extractMessageContent`: the first non-empty text of the three, in
   * that order; the empty string stands for its `null`.
   */
  function ExtractText(m: WAMessage): (t: string)
    ensures t == "" <==> m.conversation == "" && m.extendedText == "" && m.imageCaption == ""
    ensures m.conversation != "" ==> t == m.conversation
    ensures m.conversation == "" && m.extendedText != "" ==> t == m.extendedText
    ensures m.conversation == "" && m.extendedText == "" ==> t == m.imageCaption
  {
    if m.conversation != "" then m.conversation
    else if m.extendedText != "" then m.extendedText
    else m.imageCaption
  }

  /** The games' own reading of the message: the conversation, else the extended text, else "". */
  function GameText(m: WAMessage): (t: string)
    ensures m.conversation != "" || m.extendedText != "" ==> t == ExtractText(m)
    ensures m.conversation == "" && m.extendedText == "" ==> t == ""
  {
    if m.conversation != "" then m.conversation else m.extendedText
  }

  /**
   * A message whose only text is an image caption reaches the games with
   * no text of their own: the coin flip and the slot machine answer with
   * their usage message, whatever the caption says.
   */
  lemma CaptionOnlyGamesRefused(m: WAMessage, user: User)
    requires m.conversation == "" && m.extendedText == ""
    ensures FlipDecision(GameText(m), user) == Refuse(FlipUsage)
    ensures SlotsDecision(GameText(m), user) == Refuse(SlotsUsage)
  {
    SplitWithoutSeparator("", ' ');
  }

  /**
   * `text.toLowerCase().trim().split(' ')`: the command word followed by the
   * arguments. Joining them back with single spaces gives the normalised
   * text, and no token holds a space.
   */
  function Tokens(text: string): (t: seq<string>)
    ensures |t| >= 1
    ensures Join(t, ' ') == Trim(Lower(text))
    ensures forall i :: 0 <= i < |t| ==> ' ' !in t[i]
  {
    SplitJoin(Trim(Lower(text)), ' ');
    Split(Trim(Lower(text)), ' ')
  }

  /** How far a message gets before the sender's record is read. */
  datatype Gate =
    | NoText
    | Unknown(command: string)
    | Closed
    | Proceed(command: string, args: seq<string>)

  /**
   * The checks `handleCommand` makes before it reads the ledger: an empty
   * message, a first word outside the command list, and a closed economy
   * for anything but the administrative commands.
   */
  function GateOf(text: string, active: bool): (g: Gate)
    ensures g.NoText? <==> text == ""
    ensures g.Unknown? <==> text != "" && Tokens(text)[0] !in Commands
    ensures g.Unknown? ==> g.command == Tokens(text)[0]
    ensures g.Closed? <==> text != "" && Tokens(text)[0] in Commands && !active && Tokens(text)[0] !in AdminCommands
    ensures g.Proceed? ==>
      && text != ""
      && [g.command] + g.args == Tokens(text)
      && g.command in Commands
      && (active || g.command in AdminCommands)
  {
    if text == "" then NoText
    else
      var t := Tokens(text);
      if t[0] !in Commands then Unknown(t[0])
      else if !active && t[0] !in AdminCommands then Closed
      else Proceed(t[0], t[1..])
  }

  /**
   * In a group where the economy is closed, only opening, closing and the
   * bank view get past the gate; where it is open, every listed command does.
   */
  lemma ClosedGroupOnlyAdmin(text: string, active: bool)
    ensures var g := GateOf(text, active);
      && (g.Proceed? && !active ==> g.command in AdminCommands)
      && (active && text != "" && Tokens(text)[0] in Commands ==> g.Proceed?)
      && (text != "" && Tokens(text)[0] in AdminCommands ==> GateOf(text, true) == GateOf(text, false))
  {
    var t := Tokens(text);
    if text != "" && t[0] in AdminCommands {
      assert t[0] in Commands;
    }
  }

  // ---------------------------------------------------------------------
  // The command's own checks
  // ---------------------------------------------------------------------

  /** What the router runs once a command's checks pass. */
  datatype Op =
    | ClaimDaily
    | DoWork
    | Rob(targetId: string)
    | Mine
    | ShowShop
    | Buy(itemName: string)
    | ShowInventory
    | Use(itemName: string)
    | ShowProfile
    | ShowBalance
    | ShowTop
    | Flip(choice: string, amount: int)
    | Slots(amount: int)
    | OpenEconomy
    | CloseEconomy
    | Pay(receiverId: string, amount: int)
    | ShowBank
    | GoFish
    | ShowCrop(crop: Crop)
    | Plant(seedId: string)
    | Harvest

  /** Why a command is refused after the sender's record was read. */
  datatype Refusal =
    | NoRobTarget
    | NoItemToBuy
    | NoItemToUse
    | FlipUsage
    | FlipNotASide
    | FlipNotANumber
    | SlotsUsage
    | SlotsNotANumber
    | GameLevelTooLow
    | PayUsage
    | PayNotANumber
    | PaySelf
    | NoSeed
    | NoCropGrowing
    | NotHandled

  datatype Decision = Refuse(why: Refusal) | Run(op: Op)

  /** `!args[0]`: no first argument, or an empty one. */
  predicate NoFirstArg(args: seq<string>)
  {
    |args| == 0 || args[0] == ""
  }

  /** The level `handleCommand` asks of a player before a game. */
  const MinGameLevel: int := 2

  /**
   * The coin flip's own reading of the message: the raw text split on
   * spaces (neither lowercased nor trimmed), a side and an amount.
   */
  function FlipDecision(raw: string, user: User): (d: Decision)
    ensures d.Run? ==> d.op.Flip?
    ensures d == Refuse(FlipUsage) <==> |Split(raw, ' ')| < 3
    ensures d == Refuse(FlipNotASide) <==>
      |Split(raw, ' ')| >= 3 && Lower(Split(raw, ' ')[1]) != "cara" && Lower(Split(raw, ' ')[1]) != "coroa"
    ensures d.Run? ==>
      var parts := Split(raw, ' ');
      && |parts| >= 3
      && d.op.choice == Lower(parts[1]) && (d.op.choice == "cara" || d.op.choice == "coroa")
      && ParseInt(parts[2]) == Some(d.op.amount)
      && user.level >= MinGameLevel
    ensures d == Refuse(FlipNotANumber) <==>
      var parts := Split(raw, ' ');
      |parts| >= 3 && (Lower(parts[1]) == "cara" || Lower(parts[1]) == "coroa") && ParseInt(parts[2]).None?
    ensures d == Refuse(GameLevelTooLow) <==>
      var parts := Split(raw, ' ');
      && |parts| >= 3 && (Lower(parts[1]) == "cara" || Lower(parts[1]) == "coroa")
      && ParseInt(parts[2]).Some? && user.level < MinGameLevel
    ensures d.Run? <==>
      var parts := Split(raw, ' ');
      && |parts| >= 3 && (Lower(parts[1]) == "cara" || Lower(parts[1]) == "coroa")
      && ParseInt(parts[2]).Some? && user.level >= MinGameLevel
  {
    var parts := Split(raw, ' ');
    if |parts| < 3 then Refuse(FlipUsage)
    else
      var choice := Lower(parts[1]);
      if choice != "cara" && choice != "coroa" then Refuse(FlipNotASide)
      else match ParseInt(parts[2])
        case None => Refuse(FlipNotANumber)
        case Some(amount) =>
          if user.level < MinGameLevel then Refuse(GameLevelTooLow) else Run(Flip(choice, amount))
  }

  /** The slot machine's own reading of the message: the raw text split on spaces, then an amount. */
  function SlotsDecision(raw: string, user: User): (d: Decision)
    ensures d.Run? ==> d.op.Slots?
    ensures d == Refuse(SlotsUsage) <==> |Split(raw, ' ')| < 2
    ensures d == Refuse(SlotsNotANumber) <==> |Split(raw, ' ')| >= 2 && ParseInt(Split(raw, ' ')[1]).None?
    ensures d.Run? ==> |Split(raw, ' ')| >= 2 && ParseInt(Split(raw, ' ')[1]) == Some(d.op.amount) && user.level >= MinGameLevel
    ensures d == Refuse(GameLevelTooLow) <==>
      |Split(raw, ' ')| >= 2 && ParseInt(Split(raw, ' ')[1]).Some? && user.level < MinGameLevel
    ensures d.Run? <==>
      |Split(raw, ' ')| >= 2 && ParseInt(Split(raw, ' ')[1]).Some? && user.level >= MinGameLevel
  {
    var parts := Split(raw, ' ');
    if |parts| < 2 then Refuse(SlotsUsage)
    else match ParseInt(parts[1])
      case None => Refuse(SlotsNotANumber)
      case Some(amount) => if user.level < MinGameLevel then Refuse(GameLevelTooLow) else Run(Slots(amount))
  }

  /**
   * The transfer's own checks: two arguments, a number for the amount, and
   * a receiver (the digits of the first argument as a user id) other than
   * the sender.
   */
  function PayDecision(args: seq<string>, userId: string): (d: Decision)
    ensures d.Run? ==> d.op.Pay?
    ensures d == Refuse(PayUsage) <==> |args| < 2
    ensures d == Refuse(PayNotANumber) <==> |args| >= 2 && ParseInt(args[1]).None?
    ensures d == Refuse(PaySelf) <==> |args| >= 2 && ParseInt(args[1]).Some? && UserJid(args[0]) == userId
    ensures d.Run? ==>
      |args| >= 2 && d.op.receiverId == UserJid(args[0]) != userId && ParseInt(args[1]) == Some(d.op.amount)
    ensures d.Run? <==> |args| >= 2 && ParseInt(args[1]).Some? && UserJid(args[0]) != userId
  {
    if |args| < 2 then Refuse(PayUsage)
    else
      var receiverId := UserJid(args[0]);
      match ParseInt(args[1])
      case None => Refuse(PayNotANumber)
      case Some(amount) => if receiverId == userId then Refuse(PaySelf) else Run(Pay(receiverId, amount))
  }

  /** The `case` labels of `handleCommand`'s `switch`, each command under one name. */
  datatype Command =
    | DailyCmd | WorkCmd | RobCmd | MineCmd | ShopCmd | BuyCmd | InventoryCmd | UseCmd
    | ProfileCmd | BalanceCmd | TopCmd | FlipCmd | SlotsCmd | OpenCmd | CloseCmd | PayCmd
    | BankCmd | FishCmd | CropCmd | PlantCmd | HarvestCmd

  /** The `case` labels of the `switch` in `handleCommand`, every name of every command. */
  const CaseWords: set<string> := {
    "!daily", "!diario", "!work", "!trabalhar", "!rob", "!roubar", "!mine", "!minerar",
    "!shop", "!loja", "!buy", "!comprar", "!inventory", "!inventario", "!use", "!usar",
    "!profile", "!perfil", "!balance", "!saldo", "!top", "!ranking",
    "!flip", "!coinflip", "!apostar", "!slots", "!slot", "!abrircbcoin", "!fecharcbcoin",
    "!transferir", "!pay", "!banco", "!bancocbcoin", "!fish", "!pescar",
    "!plantacao", "!plantacoes", "!plantar", "!colher"
  }

  /** The `case` a command word selects; `None` is the `default` branch. */
  function SwitchCase(word: string): (r: Option<Command>)
    ensures r.Some? <==> word in CaseWords
    ensures r.Some? ==> 4 <= |word| <= 13 && word[0] == '!'
  {
    if word == "!daily" || word == "!diario" then Some(DailyCmd)
    else if word == "!work" || word == "!trabalhar" then Some(WorkCmd)
    else if word == "!rob" || word == "!roubar" then Some(RobCmd)
    else if word == "!mine" || word == "!minerar" then Some(MineCmd)
    else if word == "!shop" || word == "!loja" then Some(ShopCmd)
    else if word == "!buy" || word == "!comprar" then Some(BuyCmd)
    else if word == "!inventory" || word == "!inventario" then Some(InventoryCmd)
    else if word == "!use" || word == "!usar" then Some(UseCmd)
    else if word == "!profile" || word == "!perfil" then Some(ProfileCmd)
    else if word == "!balance" || word == "!saldo" then Some(BalanceCmd)
    else if word == "!top" || word == "!ranking" then Some(TopCmd)
    else if word == "!flip" || word == "!coinflip" || word == "!apostar" then Some(FlipCmd)
    else if word == "!slots" || word == "!slot" then Some(SlotsCmd)
    else if word == "!abrircbcoin" then Some(OpenCmd)
    else if word == "!fecharcbcoin" then Some(CloseCmd)
    else if word == "!transferir" || word == "!pay" then Some(PayCmd)
    else if word == "!banco" || word == "!bancocbcoin" then Some(BankCmd)
    else if word == "!fish" || word == "!pescar" then Some(FishCmd)
    else if word == "!plantacao" || word == "!plantacoes" then Some(CropCmd)
    else if word == "!plantar" then Some(PlantCmd)
    else if word == "!colher" then Some(HarvestCmd)
    else None
  }

  /**
   * The branch of the `switch` for a gated command, for the sender's
   * record `user`: `args` are the lowercased tokens after the command and
   * `raw` the message text the games read again on their own. The
   * `default` branch (`None`) refuses.
   */
  function Decide(cmd: Option<Command>, args: seq<string>, raw: string, user: User, userId: string): (d: Decision)
    ensures cmd == Some(RobCmd) ==>
      (NoFirstArg(args) ==> d == Refuse(NoRobTarget)) && (!NoFirstArg(args) ==> d == Run(Rob(UserJid(args[0]))))
    ensures cmd == Some(BuyCmd) ==>
      (NoFirstArg(args) ==> d == Refuse(NoItemToBuy)) && (!NoFirstArg(args) ==> d == Run(Buy(args[0])))
    ensures cmd == Some(UseCmd) ==>
      (NoFirstArg(args) ==> d == Refuse(NoItemToUse)) && (!NoFirstArg(args) ==> d == Run(Use(args[0])))
    ensures cmd == Some(PlantCmd) ==>
      (NoFirstArg(args) ==> d == Refuse(NoSeed)) && (!NoFirstArg(args) ==> d == Run(Plant(args[0])))
    ensures cmd == Some(FlipCmd) ==> d == FlipDecision(raw, user)
    ensures cmd == Some(SlotsCmd) ==> d == SlotsDecision(raw, user)
    ensures cmd == Some(PayCmd) ==> d == PayDecision(args, userId)
    ensures cmd == Some(CropCmd) ==>
      (user.crops == [] ==> d == Refuse(NoCropGrowing)) && (user.crops != [] ==> d == Run(ShowCrop(user.crops[0])))
    ensures cmd.None? <==> d == Refuse(NotHandled)
    ensures d.Run? && d.op.Rob? ==> cmd == Some(RobCmd) && d.op.targetId == UserJid(args[0])
    ensures d.Run? && (d.op.Flip? || d.op.Slots?) ==> user.level >= MinGameLevel
    ensures d.Run? && d.op.Pay? ==> cmd == Some(PayCmd) && d.op.receiverId != userId
    ensures d.Run? && d.op.Harvest? <==> cmd == Some(HarvestCmd)
  {
    match cmd
    case None => Refuse(NotHandled)
    case Some(c) =>
      match c
      case DailyCmd => Run(ClaimDaily)
      case WorkCmd => Run(DoWork)
      case RobCmd => if NoFirstArg(args) then Refuse(NoRobTarget) else Run(Rob(UserJid(args[0])))
      case MineCmd => Run(Mine)
      case ShopCmd => Run(ShowShop)
      case BuyCmd => if NoFirstArg(args) then Refuse(NoItemToBuy) else Run(Buy(args[0]))
      case InventoryCmd => Run(ShowInventory)
      case UseCmd => if NoFirstArg(args) then Refuse(NoItemToUse) else Run(Use(args[0]))
      case ProfileCmd => Run(ShowProfile)
      case BalanceCmd => Run(ShowBalance)
      case TopCmd => Run(ShowTop)
      case FlipCmd => FlipDecision(raw, user)
      case SlotsCmd => SlotsDecision(raw, user)
      case OpenCmd => Run(OpenEconomy)
      case CloseCmd => Run(CloseEconomy)
      case PayCmd => PayDecision(args, userId)
      case BankCmd => Run(ShowBank)
      case FishCmd => Run(GoFish)
      case CropCmd => if user.crops == [] then Refuse(NoCropGrowing) else Run(ShowCrop(user.crops[0]))
      case PlantCmd => if NoFirstArg(args) then Refuse(NoSeed) else Run(Plant(args[0]))
      case HarvestCmd => Run(Harvest)
  }

  /** `!apostar` selects the coin flip's `case`. */
  lemma ApostarHasCase()
    ensures SwitchCase("!apostar") == Some(FlipCmd)
  {
  }

  /** `!apostar` is not in the command list. */
  lemma ApostarNotListed()
    ensures "!apostar" !in Commands
  {
  }

  /**
   * `!apostar` has a `case` but is not in the command list, so the gate
   * turns it away as an unknown command in every group.
   */
  lemma ApostarUnreachable(text: string, active: bool)
    requires text != "" && Tokens(text)[0] == "!apostar"
    ensures SwitchCase(Tokens(text)[0]) == Some(FlipCmd)
    ensures GateOf(text, active) == Unknown("!apostar")
  {
    ApostarHasCase();
    ApostarNotListed();
  }

  /**
   * The `switch` and the command list agree but for two words: a word has a
   * `case` exactly when it is listed, except that `!menuagricultura` is
   * listed without a case and `!apostar` has a case without being listed.
   */
  lemma CasesMatchList(word: string)
    ensures SwitchCase(word).Some? <==> (word in Commands && word != "!menuagricultura") || word == "!apostar"
  {
    if word in Commands && word != "!menuagricultura" {
      var i :| 0 <= i < |Commands| && Commands[i] == word;
      ListedHaveCases(i);
    }
  }

  /** Each listed word but `!menuagricultura` has a `case`, checked ten list entries at a time. */
  lemma ListedHaveCases(i: int)
    requires 0 <= i < |Commands| && Commands[i] != "!menuagricultura"
    ensures SwitchCase(Commands[i]).Some?
  {
    if i < 10 {
    } else if i < 20 {
    } else if i < 30 {
    } else {
    }
  }

  /** `!menuagricultura` is in the command list but has no `case`. */
  lemma MenuListedWithoutCase()
    ensures "!menuagricultura" in Commands
    ensures SwitchCase("!menuagricultura").None?
  {
    assert Commands[36] == "!menuagricultura";
  }

  /**
   * `!menuagricultura` gets past the gate (and the record read) and then
   * falls to `default`.
   */
  lemma MenuAgriculturaUnhandled(text: string, raw: string, user: User, userId: string)
    requires text != "" && Tokens(text)[0] == "!menuagricultura"
    ensures GateOf(text, true).Proceed?
    ensures var g := GateOf(text, true); Decide(SwitchCase(g.command), g.args, raw, user, userId) == Refuse(NotHandled)
  {
    MenuListedWithoutCase();
  }

  // ---------------------------------------------------------------------
  // Running a command
  // ---------------------------------------------------------------------

  /** The random draws the managers would take from `Math.random()`, one per use. */
  datatype Draws = Draws(
    daily: Draw,
    job: Draw, success: Draw, workXP: Draw,
    mine: Mining.MineDraws,
    rob: Robbery.RobDraws,
    fishCatch: Draw, fishDamage: Draw,
    flip: Draw,
    reel0: Draw, reel1: Draw, reel2: Draw)

  /**
   * What a command reads from outside the ledger: the clock, the local
   * midnight of today, the calendar (the date of an instant and the
   * midnight that starts the next day), the draws, and whether the group
   * table's write fails.
   */
  datatype Env = Env(now: int, today: int, dateOf: int -> CivilDate, nextReset: int -> int, draws: Draws, writeFails: bool)

  /** The status line of the crop view. */
  datatype CropStatus = Growing(left: Remaining) | ReadyToHarvest | MayRot

  /**
   * The crop view's status: growing (with the time left) before the crop
   * is ripe, ready until its deadline, and "may rot" from the deadline on.
   */
  function CropStatusOf(crop: Crop, now: int): (s: CropStatus)
    ensures s.Growing? <==> now < crop.readyAt
    ensures s.Growing? ==> s.left == FormatRemaining(crop.readyAt - now)
    ensures s.ReadyToHarvest? <==> crop.readyAt <= now < crop.readyAt + crop.harvestWindow
    ensures s.MayRot? <==> crop.readyAt <= now && crop.readyAt + crop.harvestWindow <= now
  {
    if now < crop.readyAt then Growing(FormatRemaining(crop.readyAt - now))
    else if now < crop.readyAt + crop.harvestWindow then ReadyToHarvest
    else MayRot
  }

  /**
   * At the very deadline the crop view warns that the crop may rot, while
   * harvesting still succeeds (for no coins): the view's bound is strict
   * where the harvest's is not.
   */
  lemma DeadlineViewDisagrees(user: User, now: int)
    requires Farming.HarvestableCrops(user) && user.crops != []
    requires now == user.crops[0].readyAt + user.crops[0].harvestWindow
    ensures CropStatusOf(user.crops[0], now) == MayRot
    ensures Farming.HarvestResult(user, now).Harvested?
    ensures Farming.HarvestResult(user, now).coins == 0
  {
  }

  /** The items `showShop` lists: those on sale, in catalogue order. */
  function OnSale(items: seq<Item>): (r: seq<Item>)
    ensures |r| <= |items|
    ensures forall x :: x in r <==> x in items && x.available
  {
    if items == [] then []
    else
      assert items == [items[0]] + items[1..];
      (if items[0].available then [items[0]] else []) + OnSale(items[1..])
  }

  /** What a manager answered to the command that ran. */
  datatype Outcome =
    | DailyDone(daily: Daily.DailyReply)
    | WorkDone(work: Work.WorkReply)
    | RobDone(targetId: string, rob: Robbery.RobReply)
    | MineDone(mine: Mining.MineReply)
    | ShopShown(onSale: seq<Item>)
    | BuyDone(buy: Shop.BuyReply)
    | InventoryShown(view: Inventory.InventoryView)
    | UseDone(use: Inventory.UseReply)
    | ProfileShown(info: Levels.LevelInfo)
    | BalanceShown(name: string, balance: int)
    | RankingShown
    | FlipDone(flip: Games.FlipReply)
    | SlotsDone(slots: Games.SlotsReply)
    | StateDone(state: GroupState.StateReply)
    | PayDone(pay: Transfers.TransferReply)
    | BankShown(bank: Bank)
    | FishDone(fish: Fishing.FishReply)
    | CropShown(crop: Crop, status: CropStatus)
    | PlantDone(plant: Farming.PlantReply)
    | HarvestDone(harvest: Farming.HarvestReply)
    | HarvestSkipped

  /**
   * The `xpGained` a manager reports: work's, a successful robbery's, a
   * mine's when it grants any, and every fishing catch's; nothing from the
   * other commands.
   */
  function XpOf(o: Outcome): (xp: int)
    ensures xp != 0 ==> o.WorkDone? || o.RobDone? || o.MineDone? || o.FishDone?
    ensures o.WorkDone? && o.work.WorkPaid? ==> xp == o.work.xpGained
    ensures o.RobDone? && o.rob.Robbed? ==> xp == o.rob.xpGained
    ensures o.MineDone? && o.mine.Mined? && o.mine.xpGained.Some? ==> xp == o.mine.xpGained.value
    ensures o.FishDone? && o.fish.Fished? ==> xp == o.fish.result.xp
  {
    match o
    case WorkDone(r) => if r.WorkPaid? then r.xpGained else 0
    case RobDone(_, r) => if r.Robbed? then r.xpGained else 0
    case MineDone(r) => if r.Mined? && r.xpGained.Some? then r.xpGained.value else 0
    case FishDone(r) => if r.Fished? then r.result.xp else 0
    case _ => 0
  }

  /** Everything a command may change: the ledger's three collections and the group table. */
  datatype Snapshot = Snapshot(users: map<Key, User>, transfers: seq<Transfer>, banks: map<string, Bank>,
                               groups: GroupState.Groups)

  /** The banks are stored under their own groups, as `Database.Valid` keeps them. */
  ghost predicate BanksKeyed(s: Snapshot)
  {
    forall g :: g in s.banks ==> s.banks[g].groupId == g
  }

  /** The commands that earn coins or XP. */
  predicate Earning(op: Op)
  {
    op.ClaimDaily? || op.DoWork? || op.Rob? || op.Mine? || op.GoFish?
  }

  /** The commands that spend from the record or bet it. */
  predicate Spending(op: Op)
  {
    op.Buy? || op.Use? || op.Flip? || op.Slots?
  }

  /** The farming commands, which read the record again themselves. */
  predicate Farm(op: Op)
  {
    op.Plant? || op.Harvest?
  }

  /**
   * What running `op` for the record `user` does, from `s0` to `s1`: each
   * manager answers as its own result function says and changes what its
   * writes say; the views change nothing but the bank view, which inserts
   * a zeroed bank for a group that has none.
   */
  ghost predicate Executed(op: Op, user: User, catalog: seq<Item>, env: Env, s0: Snapshot, s1: Snapshot, outcome: Outcome)
    requires BanksKeyed(s0)
  {
    if Earning(op) then EarnRan(op, user, env, s0, s1, outcome)
    else if Spending(op) then SpendRan(op, user, catalog, env, s0, s1, outcome)
    else if Farm(op) then FarmRan(op, user, env, s0, s1, outcome)
    else OtherRan(op, user, catalog, env, s0, s1, outcome)
  }

  /** Daily, work, rob, mine and fish, each as its manager's result and writes. */
  ghost predicate EarnRan(op: Op, user: User, env: Env, s0: Snapshot, s1: Snapshot, outcome: Outcome)
    requires Earning(op)
  {
    var now := env.now;
    var dr := env.draws;
    match op
    case ClaimDaily =>
      var o := Daily.ClaimDailyOutcome(user, now, dr.daily);
      outcome == DailyDone(o.0) && s1 == s0.(users := Replay(s0.users, o.1, now))
    case DoWork =>
      var o := Work.WorkOutcome(user, now, dr.job, dr.success, dr.workXP);
      outcome == WorkDone(o.0) && s1 == s0.(users := Replay(s0.users, o.1, now))
    case Rob(targetId) =>
      var tk := Key(targetId, user.groupId);
      var target := Fetched(s0.users, tk, now);
      var reply := Robbery.RobResult(user, target, now, env.dateOf, env.nextReset, dr.rob);
      && outcome == RobDone(targetId, reply)
      && s1 == s0.(users := Replay(s0.users[tk := target], Robbery.RobWrites(user, target, now, env.dateOf, reply), now))
    case Mine =>
      var reply := Mining.MineResult(user, now, env.dateOf, env.nextReset, dr.mine);
      outcome == MineDone(reply) && s1 == s0.(users := Replay(s0.users, Mining.MineWrites(user, now, env.dateOf, reply), now))
    case GoFish =>
      var reply := Fishing.FishResult(user, now, env.dateOf, env.nextReset, dr.fishCatch, dr.fishDamage);
      outcome == FishDone(reply) && s1 == s0.(users := Replay(s0.users, Fishing.FishWrites(user, now, env.dateOf, reply), now))
  }

  /** Buy, use and the two games, each as its manager's result and writes. */
  ghost predicate SpendRan(op: Op, user: User, catalog: seq<Item>, env: Env, s0: Snapshot, s1: Snapshot, outcome: Outcome)
    requires Spending(op)
  {
    var now := env.now;
    var dr := env.draws;
    match op
    case Buy(name) =>
      var reply := Shop.BuyResult(catalog, user, name);
      outcome == BuyDone(reply) && s1 == s0.(users := Replay(s0.users, Shop.BuyWrites(user, reply), now))
    case Use(name) =>
      var reply := Inventory.UseResult(user, name);
      outcome == UseDone(reply) && s1 == s0.(users := Replay(s0.users, Inventory.UseWrites(user, reply, now), now))
    case Flip(choice, amount) =>
      var reply := Games.FlipResult(user, amount, choice, dr.flip);
      outcome == FlipDone(reply) && s1 == s0.(users := Replay(s0.users, Games.FlipWrites(user, reply), now))
    case Slots(amount) =>
      var reply := Games.SlotsResult(user, amount, dr.reel0, dr.reel1, dr.reel2);
      outcome == SlotsDone(reply) && s1 == s0.(users := Replay(s0.users, Games.SlotsWrites(user, reply), now))
  }

  /**
   * Plant and harvest, on the record they read again (the same one); a
   * harvest of a crop without a harvest window is not modelled.
   */
  ghost predicate FarmRan(op: Op, user: User, env: Env, s0: Snapshot, s1: Snapshot, outcome: Outcome)
    requires Farm(op)
  {
    var now := env.now;
    match op
    case Plant(seedId) =>
      var reply := Farming.PlantResult(user, seedId, now);
      outcome == PlantDone(reply) && s1 == s0.(users := Replay(s0.users, Farming.PlantWrites(user, now, reply), now))
    case Harvest =>
      if Farming.HarvestableCrops(user) then
        var reply := Farming.HarvestResult(user, now);
        outcome == HarvestDone(reply) && s1 == s0.(users := Replay(s0.users, Farming.HarvestWrites(user, now, reply), now))
      else
        outcome == HarvestSkipped && s1 == s0
  }

  /** The views, the group switches, the transfer and the bank view. */
  ghost predicate OtherRan(op: Op, user: User, catalog: seq<Item>, env: Env, s0: Snapshot, s1: Snapshot, outcome: Outcome)
    requires BanksKeyed(s0)
  {
    var now := env.now;
    match op
    case ShowShop =>
      outcome == ShopShown(OnSale(catalog)) && s1 == s0
    case ShowInventory =>
      && outcome.InventoryShown?
      && (outcome.view.EmptyInventory? <==> user.inventory == [])
      && (outcome.view.Listing? ==> outcome.view.groups == Inventory.Grouped(user.inventory))
      && s1 == s0
    case ShowProfile =>
      && outcome.ProfileShown?
      && outcome.info.level == Levels.LevelOf(user.xp)
      && outcome.info.nextLevelXP == Levels.XPForLevel(Levels.LevelOf(user.xp))
      && s1 == s0
    case ShowBalance =>
      outcome == BalanceShown(user.name, user.balance) && s1 == s0
    case ShowTop =>
      outcome == RankingShown && s1 == s0
    case OpenEconomy =>
      var r := GroupState.Open(s0.groups, user.groupId, now, env.writeFails);
      outcome == StateDone(r.1) && s1 == s0.(groups := r.0)
    case CloseEconomy =>
      var r := GroupState.Close(s0.groups, user.groupId, now, env.writeFails);
      outcome == StateDone(r.1) && s1 == s0.(groups := r.0)
    case Pay(receiverId, amount) =>
      var reply := Transfers.TransferResult(user, amount, Transfers.SentToday(s0.transfers, user.userId, env.today));
      && outcome == PayDone(reply)
      && (!reply.Transferred? ==> s1 == s0)
      && (reply.Transferred? ==>
            var rk := Key(receiverId, user.groupId);
            var receiver := Fetched(s0.users, rk, now);
            s1 == Snapshot(Replay(s0.users[rk := receiver], Transfers.TransferWrites(user, receiver, reply), now),
                           s0.transfers + [Transfer(user.userId, receiverId, amount, reply.tax, now)],
                           s0.banks[user.groupId := BankAfterTax(BankOf(s0.banks, user.groupId), user.groupId, reply.tax, now)],
                           s0.groups))
    case ShowBank =>
      var b := if user.groupId in s0.banks then s0.banks[user.groupId] else Bank(user.groupId, 0, 0, 0, Some(now), now);
      outcome == BankShown(b) && s1 == s0.(banks := s0.banks[user.groupId := b])
    case ShowCrop(crop) =>
      outcome == CropShown(crop, CropStatusOf(crop, now)) && s1 == s0
    case _ => false
  }

  /**
   * The XP step after the manager: nothing when the outcome earned none;
   * otherwise the XP, the level and any level reward computed from `user`
   * are written over what the manager left in `mid`.
   */
  predicate AfterXP(user: User, now: int, mid: Snapshot, s1: Snapshot, response: Response)
  {
    && response.Done?
    && response.xpGained == XpOf(response.outcome)
    && (response.xpGained == 0 ==> s1 == mid && response.levelUp.None?)
    && (response.xpGained != 0 ==>
          && s1 == mid.(users := Store(mid.users, Levels.AddXPWrite(user, response.xpGained), now))
          && response.levelUp.Some?
          && (response.levelUp.value.LevelledUp? <==>
                Levels.LevelOf(user.xp + response.xpGained) > Levels.LevelOf(user.xp)))
  }

  /**
   * A command past the gate, from `s`: the sender's record `u` is read (and
   * greeted by name), giving `s0`; the `switch` decides on `u`; a refusal
   * changes nothing more, and a decided command runs from `s0` through
   * `mid` to `s1`.
   */
  ghost predicate Served(catalog: seq<Item>, command: string, args: seq<string>, raw: string, userId: string, groupId: string,
                         userName: string, env: Env, s: Snapshot, mid: Snapshot, s1: Snapshot, response: Response)
  {
    var k := Key(userId, groupId);
    var u := Greeted(s.users, k, userName, env.now);
    var s0 := s.(users := s.users[k := u]);
    var d := Decide(SwitchCase(command), args, raw, u, userId);
    && (d.Refuse? ==> response == Refused(d.why) && s1 == s0)
    && (d.Run? ==>
          && response.Done? && response.op == d.op
          && BanksKeyed(s0)
          && Executed(d.op, u, catalog, env, s0, mid, response.outcome)
          && AfterXP(u, env.now, mid, s1, response))
  }

  /** An outcome without XP leaves the state as the manager left it. */
  lemma NoXPWritten(user: User, now: int, mid: Snapshot, response: Response)
    requires response.Done? && response.xpGained == XpOf(response.outcome) == 0 && response.levelUp.None?
    ensures AfterXP(user, now, mid, mid, response)
  {
  }

  /** An outcome with XP: the write of `addXP` over the manager's state, and its report. */
  lemma XPWritten(user: User, now: int, mid: Snapshot, s1: Snapshot, response: Response)
    requires response.Done? && response.xpGained == XpOf(response.outcome) != 0
    requires s1 == mid.(users := Store(mid.users, Levels.AddXPWrite(user, response.xpGained), now))
    requires response.levelUp.Some?
    requires response.levelUp.value.LevelledUp? <==> Levels.LevelOf(user.xp + response.xpGained) > Levels.LevelOf(user.xp)
    ensures AfterXP(user, now, mid, s1, response)
  {
  }

  /** What `handleCommand` answers. */
  datatype Response =
    | Stopped(gate: Gate)
    | Refused(why: Refusal)
    | Done(op: Op, outcome: Outcome, xpGained: int, levelUp: Option<Levels.XPResult>)

  /** `CBCoinSystem`: the ledger, the group table and the shop's catalogue the managers share. */
  class CBCoinSystem {
    const db: Database
    const state: GroupState.CBCoinState
    const catalog: seq<Item>

    ghost predicate Valid()
      reads this, db
    {
      db.Valid()
    }

    /** Everything the router and its managers may change. */
    ghost function Snap(): Snapshot
      reads this, db, state
    {
      Snapshot(db.users, db.transfers, db.banks, state.State())
    }

    constructor ()
      ensures Valid() && fresh(db) && fresh(state)
      ensures db.users == map[] && db.transfers == [] && db.banks == map[]
      ensures state.activeGroups == {} && state.rows == map[]
      ensures catalog == Shop.Catalog
    {
      db := new Database();
      state := new GroupState.CBCoinState();
      catalog := Shop.Catalog;
    }

    /** The `switch` branch that runs a manager, for the sender's freshly read record. */
    method Execute(op: Op, user: User, env: Env) returns (outcome: Outcome)
      requires Valid()
      requires KeyOf(user) in db.users && db.users[KeyOf(user)] == user
      modifies db, state
      ensures Valid()
      ensures Executed(op, user, catalog, env, old(Snap()), Snap(), outcome)
    {
      if Earning(op) {
        outcome := ExecuteEarning(op, user, env);
      } else if Spending(op) {
        outcome := ExecuteSpending(op, user, env);
      } else if Farm(op) {
        outcome := ExecuteFarming(op, user, env);
      } else {
        outcome := ExecuteOther(op, user, env);
      }
    }

    /** Daily, work, rob, mine and fish. */
    method ExecuteEarning(op: Op, user: User, env: Env) returns (outcome: Outcome)
      requires Valid() && Earning(op)
      modifies db`users
      ensures Valid()
      ensures EarnRan(op, user, env, old(Snap()), Snap(), outcome)
    {
      var now := env.now;
      var dr := env.draws;
      match op {
        case ClaimDaily =>
          var reply := Daily.ClaimDaily(db, user, now, dr.daily);
          outcome := DailyDone(reply);
        case DoWork =>
          var reply := Work.DoWork(db, user, now, dr.job, dr.success, dr.workXP);
          outcome := WorkDone(reply);
        case Rob(targetId) =>
          var target := db.GetUser(targetId, user.groupId, "", now);
          var reply := Robbery.Rob(db, user, target, now, env.dateOf, env.nextReset, dr.rob);
          outcome := RobDone(targetId, reply);
        case Mine =>
          var reply := Mining.Mine(db, user, now, env.dateOf, env.nextReset, dr.mine);
          outcome := MineDone(reply);
        case GoFish =>
          var reply := Fishing.GoFishing(db, user, now, env.dateOf, env.nextReset, dr.fishCatch, dr.fishDamage);
          outcome := FishDone(reply);
      }
    }

    /** Buy, use and the two games. */
    method ExecuteSpending(op: Op, user: User, env: Env) returns (outcome: Outcome)
      requires Valid() && Spending(op)
      modifies db`users
      ensures Valid()
      ensures SpendRan(op, user, catalog, env, old(Snap()), Snap(), outcome)
    {
      var now := env.now;
      var dr := env.draws;
      match op {
        case Buy(name) =>
          var reply := Shop.BuyItem(db, catalog, user, name, now);
          outcome := BuyDone(reply);
        case Use(name) =>
          var reply := Inventory.UseItem(db, user, name, now);
          outcome := UseDone(reply);
        case Flip(choice, amount) =>
          var reply := Games.PlayFlip(db, user, amount, choice, dr.flip, now);
          outcome := FlipDone(reply);
        case Slots(amount) =>
          var reply := Games.PlaySlots(db, user, amount, dr.reel0, dr.reel1, dr.reel2, now);
          outcome := SlotsDone(reply);
      }
    }

    /** Plant and harvest: the farming manager reads the record again, and finds the stored one. */
    method ExecuteFarming(op: Op, user: User, env: Env) returns (outcome: Outcome)
      requires Valid() && Farm(op)
      requires KeyOf(user) in db.users && db.users[KeyOf(user)] == user
      modifies db`users
      ensures Valid()
      ensures FarmRan(op, user, env, old(Snap()), Snap(), outcome)
    {
      var grower := db.GetUser(user.userId, user.groupId, "", env.now);
      assert grower == user && db.users == old(db.users);
      outcome := RunFarm(op, grower, env);
    }

    /** The farming manager's answer for the record it read. */
    method RunFarm(op: Op, grower: User, env: Env) returns (outcome: Outcome)
      requires Valid() && Farm(op)
      requires KeyOf(grower) in db.users && db.users[KeyOf(grower)] == grower
      modifies db`users
      ensures Valid()
      ensures FarmRan(op, grower, env, old(Snap()), Snap(), outcome)
    {
      match op {
        case Plant(seedId) =>
          var reply := Farming.Plant(db, grower, seedId, env.now);
          outcome := PlantDone(reply);
        case Harvest =>
          if Farming.HarvestableCrops(grower) {
            var reply := Farming.Harvest(db, grower, env.now);
            outcome := HarvestDone(reply);
          } else {
            outcome := HarvestSkipped;
          }
      }
    }

    /** The views, the group switches, the transfer and the bank view. */
    method ExecuteOther(op: Op, user: User, env: Env) returns (outcome: Outcome)
      requires Valid() && !Earning(op) && !Spending(op) && !Farm(op)
      modifies db, state
      ensures Valid()
      ensures OtherRan(op, user, catalog, env, old(Snap()), Snap(), outcome)
    {
      var now := env.now;
      match op {
        case ShowShop =>
          outcome := ShopShown(OnSale(catalog));
        case ShowInventory =>
          var view := Inventory.ShowInventory(user);
          outcome := InventoryShown(view);
        case ShowProfile =>
          var info := Levels.CalculateLevel(user.xp);
          outcome := ProfileShown(info);
        case ShowBalance =>
          outcome := BalanceShown(user.name, user.balance);
        case ShowTop =>
          outcome := RankingShown;
        case OpenEconomy =>
          var reply := state.OpenCBCoin(user.groupId, now, env.writeFails);
          outcome := StateDone(reply);
        case CloseEconomy =>
          var reply := state.CloseCBCoin(user.groupId, now, env.writeFails);
          outcome := StateDone(reply);
        case Pay(receiverId, amount) =>
          var reply := Transfers.Send(db, user, receiverId, amount, env.today, now);
          outcome := PayDone(reply);
        case ShowBank =>
          var bank := db.GetBank(user.groupId, now);
          outcome := BankShown(bank);
        case ShowCrop(crop) =>
          outcome := CropShown(crop, CropStatusOf(crop, now));
      }
    }

    /**
     * `handleCommand` for the text of a message from `userId` in `groupId`:
     * the gate first (on whether the group's economy was open), then the
     * sender's record read (and greeted by name), then the `switch`, and
     * last the XP of the outcome added to the record as read before the
     * manager ran.
     */
    method HandleCommand(msg: WAMessage, userId: string, groupId: string, userName: string, env: Env)
      returns (response: Response, ghost mid: Snapshot)
      requires Valid()
      modifies db, state
      ensures Valid()
      ensures var g := GateOf(ExtractText(msg), old(state.IsActive(groupId)));
        && (!g.Proceed? ==> response == Stopped(g) && Snap() == old(Snap()))
        && (g.Proceed? ==>
              Served(catalog, g.command, g.args, GameText(msg), userId, groupId, userName, env, old(Snap()), mid, Snap(), response))
    {
      var text := ExtractText(msg);
      var g := GateOf(text, state.IsActive(groupId));
      if !g.Proceed? {
        return Stopped(g), Snap();
      }
      response, mid := Serve(g.command, g.args, GameText(msg), userId, groupId, userName, env);
    }

    /** Past the gate: read the sender's record, decide, and run. */
    method Serve(command: string, args: seq<string>, raw: string, userId: string, groupId: string, userName: string,
                 env: Env)
      returns (response: Response, ghost mid: Snapshot)
      requires Valid()
      modifies db, state
      ensures Valid()
      ensures Served(catalog, command, args, raw, userId, groupId, userName, env, old(Snap()), mid, Snap(), response)
    {
      var user := Greet(userId, groupId, userName, env.now);
      var d := Decide(SwitchCase(command), args, raw, user, userId);
      if d.Refuse? {
        return Refused(d.why), Snap();
      }
      response, mid := Run(d.op, user, env);
    }

    /** `database.getUser(user_id, group_id, userName)`, seen as a change of the whole state. */
    method Greet(userId: string, groupId: string, userName: string, now: int) returns (user: User)
      requires Valid()
      modifies db`users
      ensures Valid()
      ensures user == Greeted(old(db.users), Key(userId, groupId), userName, now)
      ensures KeyOf(user) == Key(userId, groupId) && KeyOf(user) in db.users && db.users[KeyOf(user)] == user
      ensures Snap() == old(Snap()).(users := old(db.users)[Key(userId, groupId) := user])
      ensures BanksKeyed(Snap())
    {
      user := db.GetUser(userId, groupId, userName, now);
    }

    /** Run a decided command for the record just read, then add the XP it earned. */
    method Run(op: Op, user: User, env: Env) returns (response: Response, ghost mid: Snapshot)
      requires Valid()
      requires KeyOf(user) in db.users && db.users[KeyOf(user)] == user
      modifies db, state
      ensures Valid()
      ensures response.Done? && response.op == op
      ensures Executed(op, user, catalog, env, old(Snap()), mid, response.outcome)
      ensures AfterXP(user, env.now, mid, Snap(), response)
    {
      var outcome := Execute(op, user, env);
      mid := Snap();
      response := AwardXP(op, outcome, user, env.now);
    }

    /** The `if (xpGained)` step: `addXP` on the record read before the manager ran, when the outcome earned XP. */
    method AwardXP(op: Op, outcome: Outcome, user: User, now: int) returns (response: Response)
      requires Valid()
      modifies db`users
      ensures Valid()
      ensures response.Done? && response.op == op && response.outcome == outcome
      ensures AfterXP(user, now, old(Snap()), Snap(), response)
    {
      var xp := XpOf(outcome);
      if xp == 0 {
        response := Done(op, outcome, 0, None);
        NoXPWritten(user, now, Snap(), response);
        return;
      }
      var res := AddEarnedXP(user, xp, now);
      response := Done(op, outcome, xp, Some(res));
      XPWritten(user, now, old(Snap()), Snap(), response);
    }

    /** `levelManager.addXP` on the record `user`, which changes nothing but the records. */
    method AddEarnedXP(user: User, xp: int, now: int) returns (res: Levels.XPResult)
      requires Valid()
      modifies db`users
      ensures Valid()
      ensures Snap() == old(Snap()).(users := Store(old(db.users), Levels.AddXPWrite(user, xp), now))
      ensures res.LevelledUp? <==> Levels.LevelOf(user.xp + xp) > Levels.LevelOf(user.xp)
    {
      res := Levels.AddXP(db, user, xp, now);
    }
  }
}
