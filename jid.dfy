/**
 * WhatsApp user ids as the bot builds them from a typed number or a
 * mention (`onlyNumbers` plus the user suffix in `commands/admin/ban.ts`,
 * and the same construction in the `!pix` route).
 */
module Jid {
  import opened Common

  /** The suffix of a WhatsApp user id. */
  const UserSuffix: string := "@s.whatsapp.net"

  /** `onlyNumbers(x) + '@s.whatsapp.net'`: the user id named by a number or a mention. */
  function UserJid(s: string): (jid: string)
    ensures jid == OnlyDigits(s) + UserSuffix
    ensures forall i :: 0 <= i < |jid| - |UserSuffix| ==> IsDigit(jid[i])
  {
    OnlyDigits(s) + UserSuffix
  }

  /** The suffix holds no digit. */
  lemma SuffixHasNoDigits()
    ensures OnlyDigits(UserSuffix) == []
  {
    assert forall i :: 0 <= i < |UserSuffix| ==> !IsDigit(UserSuffix[i]);
    NoDigits(UserSuffix);
  }

  lemma {:induction false} NoDigits(s: string)
    requires forall i :: 0 <= i < |s| ==> !IsDigit(s[i])
    ensures OnlyDigits(s) == []
  {
    if s != [] {
      NoDigits(s[1..]);
    }
  }

  /**
   * Building a user id from a user id changes nothing: the digits of an id
   * are the digits it was built from.
   */
  lemma UserJidIdempotent(s: string)
    ensures UserJid(UserJid(s)) == UserJid(s)
  {
    OnlyDigitsAppend(OnlyDigits(s), UserSuffix);
    OnlyDigitsKeepsDigits(OnlyDigits(s));
    SuffixHasNoDigits();
  }
}
