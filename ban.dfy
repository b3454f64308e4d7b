/**
 * The `!ban` / `!kick` group command (`banMember` in
 * `commands/admin/ban.ts`): an administrator removes one member, named by
 * a reply, a mention or a typed number, after a ladder of checks.
 */
module Ban {
  import opened Common
  import opened Jid

  /** A group participant: its id and its `admin` role, if any. */
  datatype Participant = Participant(id: string, admin: Option<string>)

  /**
   * The fields of the incoming message the command reads. A field the
   * message lacks is the empty string, which the command's `||` and `!!`
   * treat exactly as a missing one.
   */
  datatype BanMessage = BanMessage(
    remoteJid: string,
    participant: string,
    conversation: string,
    extendedText: string,
    mentions: seq<string>,
    replyParticipant: string)

  /** The replies the command can give. */
  datatype Reply =
    | NotAllowed
    | NoTargetGiven
    | Unidentified
    | CannotRemoveSelf
    | CannotRemoveBot
    | NotInGroup
    | RemovedOk
    | RemovalError

  /** The one group update the command can issue: remove these members from this group. */
  datatype Removal = Removal(group: string, members: seq<string>)

  /** The outcome of the ladder: a refusal, or the member to remove. */
  datatype Decision = Reject(reply: Reply) | Remove(target: string)

  /** `msg.key.participant || msg.key.remoteJid`: who sent the command. */
  function Sender(m: BanMessage): string
  {
    if m.participant != "" then m.participant else m.remoteJid
  }

  /** The text of the message: the plain conversation, else the extended text. */
  function Text(m: BanMessage): string
  {
    if m.conversation != "" then m.conversation else m.extendedText
  }

  /** `text.split(' ').slice(1)`: the words after the command word. */
  function Args(m: BanMessage): seq<string>
  {
    Split(Text(m), ' ')[1..]
  }

  /** The command answers a message (its context names a participant). */
  predicate IsReply(m: BanMessage)
  {
    m.replyParticipant != ""
  }

  /** Some participant with this id has the `admin` or `superadmin` role. */
  predicate IsAdmin(ps: seq<Participant>, jid: string)
  {
    exists i :: 0 <= i < |ps| && ps[i].id == jid && (ps[i].admin == Some("admin") || ps[i].admin == Some("superadmin"))
  }

  /** Some participant has this id. */
  predicate IsMember(ps: seq<Participant>, jid: string)
  {
    exists i :: 0 <= i < |ps| && ps[i].id == jid
  }

  /**
   * The member the command is aimed at, by priority: the author of the
   * answered message, else the first mention, else the user id built from
   * the first argument; none when the message gives none of the three.
   */
  function Target(m: BanMessage): (t: Option<string>)
    ensures t.None? <==> !IsReply(m) && m.mentions == [] && Args(m) == []
    ensures IsReply(m) ==> t == Some(m.replyParticipant)
    ensures !IsReply(m) && m.mentions != [] ==> t == Some(m.mentions[0])
    ensures !IsReply(m) && m.mentions == [] && Args(m) != [] ==> t == Some(UserJid(Args(m)[0]))
  {
    if IsReply(m) then Some(m.replyParticipant)
    else if |m.mentions| > 0 then Some(m.mentions[0])
    else if |Args(m)| > 0 then Some(UserJid(Args(m)[0]))
    else None
  }

  /**
   * The checks of `banMember` in their order, over the group's participants
   * and the bot's own id. A member is removed exactly when the sender is an
   * administrator and the target exists, is not the sender, is not the bot
   * and is in the group; otherwise the first failing check gives the reply.
   * The "could not identify" reply is never given: the check before it
   * already refused every message without a target.
   */
  function Decide(m: BanMessage, ps: seq<Participant>, botId: string): (d: Decision)
    ensures d.Remove? <==>
      && IsAdmin(ps, Sender(m))
      && Target(m).Some?
      && Target(m).value != Sender(m)
      && Target(m).value != botId
      && IsMember(ps, Target(m).value)
    ensures d.Remove? ==> d.target == Target(m).value
    ensures d == Reject(NotAllowed) <==> !IsAdmin(ps, Sender(m))
    ensures d == Reject(NoTargetGiven) <==> IsAdmin(ps, Sender(m)) && Target(m).None?
    ensures d == Reject(CannotRemoveSelf) <==>
      IsAdmin(ps, Sender(m)) && Target(m) == Some(Sender(m))
    ensures d == Reject(CannotRemoveBot) <==>
      IsAdmin(ps, Sender(m)) && Target(m) == Some(botId) && botId != Sender(m)
    ensures d == Reject(NotInGroup) <==>
      && IsAdmin(ps, Sender(m))
      && Target(m).Some?
      && Target(m).value != Sender(m)
      && Target(m).value != botId
      && !IsMember(ps, Target(m).value)
    ensures d != Reject(Unidentified)
  {
    var sender := Sender(m);
    if !IsAdmin(ps, sender) then Reject(NotAllowed)
    else if |m.mentions| == 0 && |Args(m)| == 0 && !IsReply(m) then Reject(NoTargetGiven)
    else
      match Target(m)
      case None => Reject(Unidentified)
      case Some(member) =>
        if member == sender then Reject(CannotRemoveSelf)
        else if member == botId then Reject(CannotRemoveBot)
        else if !IsMember(ps, member) then Reject(NotInGroup)
        else Remove(member)
  }

  /**
   * `banMember`: `metadata` is the group's participant list, or None when
   * fetching it failed; `removalSucceeds` says whether the removal call
   * went through. A failure of either is caught and answered with the
   * error reply. The removal is issued only when the ladder allows it, on
   * the command's group and for exactly the one chosen member.
   */
  function BanMember(m: BanMessage, metadata: Option<seq<Participant>>, botId: string, removalSucceeds: bool): (r: (Reply, Option<Removal>))
    ensures r.1.Some? <==> metadata.Some? && Decide(m, metadata.value, botId).Remove?
    ensures r.1.Some? ==> r.1.value == Removal(m.remoteJid, [Target(m).value])
    ensures r.0 == RemovedOk <==> r.1.Some? && removalSucceeds
    ensures r.0 == RemovalError <==> metadata.None? || (r.1.Some? && !removalSucceeds)
    ensures metadata.Some? && Decide(m, metadata.value, botId).Reject? ==>
      r == (Decide(m, metadata.value, botId).reply, None)
  {
    match metadata
    case None => (RemovalError, None)
    case Some(ps) =>
      match Decide(m, ps, botId)
      case Reject(reply) => (reply, None)
      case Remove(member) =>
        var removal := Removal(m.remoteJid, [member]);
        if removalSucceeds then (RemovedOk, Some(removal)) else (RemovalError, Some(removal))
  }

  /** The text of each reply. */
  function ReplyText(r: Reply): string
  {
    match r
    case NotAllowed => "Você não tem permissão para usar este comando!"
    case NoTargetGiven => "Você precisa mencionar (@), marcar alguém ou responder a mensagem de quem deseja remover!"
    case Unidentified => "Não foi possível identificar quem você deseja remover!"
    case CannotRemoveSelf => "Você não pode remover você mesmo!"
    case CannotRemoveBot => "Você não pode me remover!"
    case NotInGroup => "Este usuário não está no grupo!"
    case RemovedOk => "✅ Membro removido com sucesso!"
    case RemovalError => "❌ Erro ao tentar remover o membro. Verifique se tenho permissão de administrador."
  }

  /**
   * A member who is removed was safe to remove: the sender is an
   * administrator, and the member is in the group and is neither the
   * sender nor the bot.
   */
  lemma RemovedMemberIsSafe(m: BanMessage, ps: seq<Participant>, botId: string, removalSucceeds: bool, group: string, members: seq<string>)
    requires BanMember(m, Some(ps), botId, removalSucceeds).1 == Some(Removal(group, members))
    ensures group == m.remoteJid && |members| == 1
    ensures IsAdmin(ps, Sender(m)) && IsMember(ps, members[0])
    ensures members[0] != Sender(m) && members[0] != botId
  {
  }

  /** A non-administrator is refused whatever the message names, and nothing is removed. */
  lemma NonAdminRefusedFirst(m: BanMessage, ps: seq<Participant>, botId: string, removalSucceeds: bool)
    requires !IsAdmin(ps, Sender(m))
    ensures BanMember(m, Some(ps), botId, removalSucceeds) == (NotAllowed, None)
  {
  }

  /** An answered message outranks mentions and arguments, a mention outranks a typed number. */
  lemma TargetPriority(m: BanMessage)
    ensures IsReply(m) ==> Target(m) == Target(m.(mentions := [], conversation := "", extendedText := ""))
    ensures !IsReply(m) && m.mentions != [] ==> Target(m) == Target(m.(conversation := "", extendedText := "!ban " + m.mentions[0]))
  {
    if !IsReply(m) && m.mentions != [] {
      var m' := m.(conversation := "", extendedText := "!ban " + m.mentions[0]);
      assert m'.mentions != [] && !IsReply(m');
    }
  }

  /** The command word alone, without a reply or a mention, names nobody. */
  lemma CommandAloneNamesNobody(m: BanMessage, ps: seq<Participant>, botId: string)
    requires Text(m) == "!ban" && !IsReply(m) && m.mentions == []
    requires IsAdmin(ps, Sender(m))
    ensures Args(m) == []
    ensures Decide(m, ps, botId) == Reject(NoTargetGiven)
  {
    SplitWithoutSeparator(Text(m), ' ');
  }

  /**
   * A trailing space counts as an argument: "!ban " without a reply or a
   * mention is aimed at the id "@s.whatsapp.net" built from the empty word,
   * instead of being refused as naming nobody.
   */
  lemma TrailingSpaceNamesEmptyId(m: BanMessage)
    requires Text(m) == "!ban " && !IsReply(m) && m.mentions == []
    ensures Args(m) == [""]
    ensures Target(m) == Some(UserSuffix)
  {
    var t := Text(m);
    assert t == "!ban" + " ";
    SplitWithoutSeparator("", ' ');
    assert t[4..] == " " && t[5..] == "";
    SplitWord(t, 4);
    assert OnlyDigits("") == [];
    assert UserJid(Args(m)[0]) == UserSuffix;
  }

  /** Split at the first separator, when it comes after a word without separators. */
  lemma {:induction false} SplitWord(s: string, k: nat)
    requires k < |s| && s[k] == ' '
    requires forall i :: 0 <= i < k ==> s[i] != ' '
    ensures Split(s, ' ') == [s[..k]] + Split(s[k + 1..], ' ')
    decreases k
  {
    if k > 0 {
      SplitWord(s[1..], k - 1);
      assert s[1..][..k - 1] == s[1..k];
      assert s[1..][k..] == s[k + 1..];
      assert [s[0]] + s[1..k] == s[..k];
    }
  }

  /**
   * Typing a user id as the argument aims at that very id: the digits are
   * kept and the suffix is not doubled.
   */
  lemma TypedIdNamesItself(m: BanMessage, number: string)
    requires !IsReply(m) && m.mentions == []
    requires Args(m) != [] && Args(m)[0] == UserJid(number)
    ensures Target(m) == Some(UserJid(number))
  {
    UserJidIdempotent(number);
  }
}
