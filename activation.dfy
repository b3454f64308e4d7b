/**
 * Whether a message calls the bot (`isAmandaActivated` in
 * `config/index.ts`): a command prefix, the bot's name, a mention or a
 * reply does, except a message that is the bare prefix.
 */
module Activation {
  import opened Common

  const Prefix: string := "!"

  /** The fields of a message the decision reads. */
  datatype MessageData = MessageData(text: string, isMention: bool, isReply: bool)

  /** The lowercased text is the prefix alone, or the prefix and one space. */
  predicate BarePrefix(t: string)
  {
    t == Prefix || t == Prefix + " "
  }

  /**
   * `isAmandaActivated`: on the lowercased text, never for a bare prefix;
   * otherwise when the text starts with the prefix, contains "amanda" or
   * "amandinha", or the message is a mention or a reply.
   */
  function IsAmandaActivated(m: MessageData): (b: bool)
    ensures var t := Lower(m.text);
      b <==> !BarePrefix(t) &&
             (StartsWith(t, Prefix) || Contains(t, "amanda") || Contains(t, "amandinha") || m.isMention || m.isReply)
  {
    var t := Lower(m.text);
    if BarePrefix(t) then false
    else
      var hasPrefix := StartsWith(t, Prefix);
      var hasAmandaName := Includes(t, "amanda");
      var hasAmandinhaName := Includes(t, "amandinha");
      hasPrefix || hasAmandaName || hasAmandinhaName || m.isMention || m.isReply
  }

  /** Text without capital letters is its own lowercase. */
  lemma LowercaseUnchanged(s: string)
    requires forall i :: 0 <= i < |s| ==> !IsUpper(s[i])
    ensures Lower(s) == s
  {
  }

  /** "amanda" occurs nowhere in "amandinha": "amand" is followed by "i", not "a". */
  lemma NameNotInNickname()
    ensures !Contains("amandinha", "amanda")
  {
    var t, p := "amandinha", "amanda";
    forall i | 0 <= i <= |t|
      ensures !(p <= t[i..])
    {
      if i + |p| <= |t| {
        var q := t[i..];
        if i == 0 {
          assert q[5] == 'i' != p[5];
        } else if i == 1 {
          assert q[0] == 'm' != p[0];
        } else if i == 2 {
          assert q[1] == 'n' != p[1];
        } else {
          assert q[0] == 'n' != p[0];
        }
      }
    }
  }

  /** A message whose lowercased text is the nickname calls the bot. */
  lemma NicknameActivates(m: MessageData)
    requires Lower(m.text) == "amandinha"
    ensures IsAmandaActivated(m)
  {
    var t := Lower(m.text);
    assert |t| == 9;
    assert t[0..] == t;
  }

  /**
   * The "amandinha" test is not subsumed by the "amanda" one: the bare
   * nickname carries no prefix and no "amanda", and calls the bot only
   * through its own test.
   */
  lemma NicknameNeedsOwnTest(m: MessageData)
    requires m.text == "amandinha"
    ensures var t := Lower(m.text);
      && !StartsWith(t, Prefix) && !Contains(t, "amanda") && Contains(t, "amandinha")
      && IsAmandaActivated(m)
  {
    LowercaseUnchanged(m.text);
    NameNotInNickname();
    NicknameActivates(m);
    assert m.text[0..] == m.text;
  }

  /** A bare prefix never calls the bot, not even in a mention or a reply. */
  lemma BarePrefixIgnored(m: MessageData)
    requires m.text == "!" || m.text == "! "
    ensures !IsAmandaActivated(m)
  {
    assert Lower(m.text) == m.text;
  }

  /** Outside a bare prefix, a mention or a reply always calls the bot. */
  lemma MentionOrReplyActivates(m: MessageData)
    requires !BarePrefix(Lower(m.text))
    requires m.isMention || m.isReply
    ensures IsAmandaActivated(m)
  {
  }

  /** A command after the prefix calls the bot whatever else the message is. */
  lemma CommandActivates(m: MessageData)
    requires |m.text| >= 2 && m.text[0] == '!' && m.text[1] != ' '
    ensures IsAmandaActivated(m)
  {
    var t := Lower(m.text);
    assert t[0] == '!' && t[1] != ' ';
    assert t[..1] == Prefix;
  }

  /** The decision ignores letter case: it is the same for the lowercased text. */
  lemma CaseInsensitive(m: MessageData)
    ensures IsAmandaActivated(m) == IsAmandaActivated(m.(text := Lower(m.text)))
  {
    LowerIdempotent(m.text);
  }
}
