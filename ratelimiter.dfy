/**
 * The bot's per-chat rate limiter (`RateLimiter` in `AmandaBOT.ts`): each
 * chat may pass 10 messages (20 in a group) per window of one minute,
 * counted from the first message after the previous window ran out.
 */
module RateLimit {

  const RateLimit: int := 10
  const TimeWindowMs: int := 60000
  const GroupMultiplier: int := 2
  const CooldownMs: int := 30000

  /** The limit for a chat: ten, or twice that for a group. */
  function LimitFor(isGroup: bool): (limit: int)
    ensures limit == if isGroup then 20 else 10
  {
    if isGroup then RateLimit * GroupMultiplier else RateLimit
  }

  /**
   * The limiter's maps: the messages counted per chat, when each chat's
   * window started, and, per chat with a cooldown timer pending, the time
   * the timer is due to fire.
   */
  datatype Limits = Limits(count: map<string, int>, lastReset: map<string, int>, timers: map<string, int>)

  /** `messageCount.get(jid) || 0`. */
  function CountOf(s: Limits, jid: string): int
  {
    if jid in s.count then s.count[jid] else 0
  }

  /** A chat's window has run out, or it never had one. */
  predicate Expired(s: Limits, jid: string, now: int)
  {
    jid !in s.lastReset || now - s.lastReset[jid] >= TimeWindowMs
  }

  /**
   * The reset at the head of `canProcess`: count 0, window from `now`,
   * pending timer cleared. A cooldown timer's callback performs the same
   * reset when it fires.
   */
  function Reset(s: Limits, jid: string, now: int): Limits
  {
    Limits(s.count[jid := 0], s.lastReset[jid := now], s.timers - {jid})
  }

  /**
   * `canProcess(jid, isGroup)` at `now`: after the reset of an expired
   * window, a chat below its limit is let through and counted; one at its
   * limit is refused and nothing more changes. No other chat is touched.
   */
  function Check(s: Limits, jid: string, isGroup: bool, now: int): (r: (bool, Limits))
    ensures var s' := if Expired(s, jid, now) then Reset(s, jid, now) else s;
      && (r.0 <==> CountOf(s', jid) < LimitFor(isGroup))
      && (r.0 ==> r.1 == s'.(count := s'.count[jid := CountOf(s', jid) + 1]))
      && (!r.0 ==> r.1 == s')
    ensures forall k :: k != jid ==>
      CountOf(r.1, k) == CountOf(s, k) && (k in r.1.lastReset <==> k in s.lastReset) &&
      (k in s.lastReset ==> r.1.lastReset[k] == s.lastReset[k]) && (k in r.1.timers <==> k in s.timers)
    ensures jid in r.1.lastReset
    ensures Expired(s, jid, now) ==>
      r.1.lastReset[jid] == now && CountOf(r.1, jid) == (if r.0 then 1 else 0) && jid !in r.1.timers
    ensures !Expired(s, jid, now) ==> r.1.timers == s.timers
  {
    var s' := if Expired(s, jid, now) then Reset(s, jid, now) else s;
    var c := CountOf(s', jid);
    if c >= LimitFor(isGroup) then (false, s')
    else (true, s'.(count := s'.count[jid := c + 1]))
  }

  /** The limiter object, its maps updated in place. */
  class RateLimiter {
    var messageCount: map<string, int>
    var lastReset: map<string, int>
    var timeoutIds: map<string, int>

    function State(): Limits
      reads this
    {
      Limits(messageCount, lastReset, timeoutIds)
    }

    constructor ()
      ensures State() == Limits(map[], map[], map[])
    {
      messageCount := map[];
      lastReset := map[];
      timeoutIds := map[];
    }

    /** `canProcess`, with the clock reading passed in. */
    method CanProcess(jid: string, isGroup: bool, now: int) returns (ok: bool)
      modifies this
      ensures (ok, State()) == Check(old(State()), jid, isGroup, now)
    {
      var limit := if isGroup then RateLimit * GroupMultiplier else RateLimit;
      if jid !in lastReset || now - lastReset[jid] >= TimeWindowMs {
        messageCount := messageCount[jid := 0];
        lastReset := lastReset[jid := now];
        timeoutIds := timeoutIds - {jid};
      }
      var count := if jid in messageCount then messageCount[jid] else 0;
      if count >= limit {
        return false;
      }
      messageCount := messageCount[jid := count + 1];
      ok := true;
    }

    /**
     * `waitForCooldown(jid)` called at `now`: a timer due 30 s later is
     * registered for the chat, replacing the one on record.
     */
    method WaitForCooldown(jid: string, now: int)
      modifies this
      ensures State() == Registered(old(State()), jid, now)
    {
      timeoutIds := timeoutIds[jid := now + CooldownMs];
    }

    /**
     * The callback of the chat's pending timer, run when it is due: the
     * count goes back to 0, the window restarts at the firing time, and
     * the timer is dropped.
     */
    method CooldownElapsed(jid: string)
      requires jid in timeoutIds
      modifies this
      ensures State() == Reset(old(State()), jid, old(timeoutIds)[jid])
    {
      var firedAt := timeoutIds[jid];
      messageCount := messageCount[jid := 0];
      lastReset := lastReset[jid := firedAt];
      timeoutIds := timeoutIds - {jid};
    }
  }

  /** The limiter after `waitForCooldown(jid)` at `now`: only the chat's timer changes, now due 30 s on. */
  function Registered(s: Limits, jid: string, now: int): (r: Limits)
    ensures r.count == s.count && r.lastReset == s.lastReset
    ensures jid in r.timers && r.timers[jid] - now == CooldownMs
    ensures forall k :: k != jid ==> (k in r.timers <==> k in s.timers)
    ensures forall k :: k != jid && k in s.timers ==> r.timers[k] == s.timers[k]
  {
    s.(timers := s.timers[jid := now + CooldownMs])
  }

  /**
   * Once a refused chat's cooldown timer has fired, its next call passes,
   * whenever it comes, and is counted as the first of its window.
   */
  lemma CooldownReopens(s: Limits, jid: string, isGroup: bool, now: int, later: int)
    requires Check(s, jid, isGroup, now).0 == false
    ensures var fired := Reset(Registered(Check(s, jid, isGroup, now).1, jid, now), jid, now + CooldownMs);
      && jid !in fired.timers
      && Check(fired, jid, isGroup, later).0
      && CountOf(Check(fired, jid, isGroup, later).1, jid) == 1
  {
  }

  /** A call in a new window clears the chat's pending cooldown timer; one within the window keeps it. */
  lemma NewWindowCancelsTimer(s: Limits, jid: string, isGroup: bool, now: int, afterWindow: int)
    requires jid in s.lastReset && now - s.lastReset[jid] < TimeWindowMs && TimeWindowMs <= afterWindow - s.lastReset[jid]
    ensures var w := Registered(s, jid, now);
      && jid in Check(w, jid, isGroup, now).1.timers
      && jid !in Check(w, jid, isGroup, afterWindow).1.timers
  {
  }

  /** The answers of successive `canProcess(jid, isGroup)` calls at the given times, and the maps after them. */
  function Run(s: Limits, jid: string, isGroup: bool, times: seq<int>): (r: (seq<bool>, Limits))
    ensures |r.0| == |times|
    decreases |times|
  {
    if times == [] then ([], s)
    else
      var step := Check(s, jid, isGroup, times[0]);
      var rest := Run(step.1, jid, isGroup, times[1..]);
      ([step.0] + rest.0, rest.1)
  }

  /** How many calls were let through. */
  function Passed(answers: seq<bool>): (n: nat)
    ensures n <= |answers|
  {
    if answers == [] then 0 else (if answers[0] then 1 else 0) + Passed(answers[1..])
  }

  /**
   * Within one window (every call less than a minute after it started)
   * a chat is let through at most up to its limit: the count it had plus
   * the calls let through never exceed the limit, and the window's start
   * is kept.
   */
  lemma {:induction false} AtMostLimitPerWindow(s: Limits, jid: string, isGroup: bool, times: seq<int>)
    requires jid in s.lastReset && CountOf(s, jid) <= LimitFor(isGroup)
    requires forall i :: 0 <= i < |times| ==> times[i] - s.lastReset[jid] < TimeWindowMs
    ensures var r := Run(s, jid, isGroup, times);
      && CountOf(s, jid) + Passed(r.0) == CountOf(r.1, jid) <= LimitFor(isGroup)
      && jid in r.1.lastReset && r.1.lastReset[jid] == s.lastReset[jid]
    decreases |times|
  {
    if times != [] {
      var step := Check(s, jid, isGroup, times[0]);
      assert !Expired(s, jid, times[0]);
      assert forall i :: 0 <= i < |times[1..]| ==> times[1..][i] == times[i + 1];
      AtMostLimitPerWindow(step.1, jid, isGroup, times[1..]);
    }
  }

  /** Once a chat is at its limit, every further call in the window is refused. */
  lemma {:induction false} RefusedUntilWindowEnds(s: Limits, jid: string, isGroup: bool, times: seq<int>)
    requires jid in s.lastReset && CountOf(s, jid) >= LimitFor(isGroup)
    requires forall i :: 0 <= i < |times| ==> times[i] - s.lastReset[jid] < TimeWindowMs
    ensures var r := Run(s, jid, isGroup, times);
      (forall i :: 0 <= i < |times| ==> !r.0[i]) && r.1 == s
  {
    if times != [] {
      assert !Expired(s, jid, times[0]);
      assert forall i :: 0 <= i < |times[1..]| ==> times[1..][i] == times[i + 1];
      RefusedUntilWindowEnds(s, jid, isGroup, times[1..]);
    }
  }

  /** After the window, the chat starts afresh: the call is let through and counted as the first. */
  lemma FreshWindowPasses(s: Limits, jid: string, isGroup: bool, now: int)
    requires Expired(s, jid, now)
    ensures Check(s, jid, isGroup, now).0
    ensures CountOf(Check(s, jid, isGroup, now).1, jid) == 1
  {
  }
}
