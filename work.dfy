/**
 * Working (`WorkManager.work`): after a cooldown, a random job is tried;
 * success pays the job's base scaled by the work multiplier and grants XP.
 */
module Work {
  import opened Common
  import opened Types
  import opened Ledger

  const WorkCooldownMs: int := 10 * SecondMs

  /** An entry of the JOBS table (the failure message aside). */
  datatype Job = Job(name: string, baseAmount: int, successRate: real)

  const Jobs: seq<Job> := [
    Job("Programador", 1000, 0.8),
    Job("Designer", 800, 0.85),
    Job("Escritor", 700, 0.9),
    Job("Vendedor", 1200, 0.7)
  ]

  /** What `work` replies. */
  datatype WorkReply =
    | WorkWait(seconds: int)
    | WorkPaid(job: Job, amount: int, xpGained: int)
    | WorkFailed(job: Job)

  /** `Math.floor(job.baseAmount * (work_multiplier || 1))`. */
  function WorkPay(job: Job, multiplier: real): (amount: int)
    ensures multiplier == 0.0 || multiplier == 1.0 ==> amount == job.baseAmount
    ensures multiplier >= 1.0 && job.baseAmount >= 0 ==> amount >= job.baseAmount
  {
    (job.baseAmount as real * OrOne(multiplier)).Floor
  }

  /**
   * The reply and the updates of one `work` call on the snapshot `user`,
   * with the three draws (job, success, XP). Past the cooldown, last_work
   * is written whatever the outcome; a success then writes the balance and
   * the XP, each in an update of its own.
   */
  function WorkOutcome(user: User, now: int, rJob: Draw, rSuccess: Draw, rXP: Draw): (o: (WorkReply, seq<Write>))
    ensures o.0.WorkWait? <==> now - Millis(user.lastWork) < WorkCooldownMs
    ensures o.0.WorkWait? ==> o.1 == [] && o.0.seconds == 0
    ensures !o.0.WorkWait? ==>
      o.0.job == Jobs[Pick(rJob, |Jobs|)] &&
      |o.1| >= 1 && o.1[0] == Write(KeyOf(user), NoChange.(lastWork := Some(Some(now))))
    ensures o.0.WorkPaid? <==> !o.0.WorkWait? && rSuccess < o.0.job.successRate
    ensures o.0.WorkFailed? ==> o.1 == [Write(KeyOf(user), NoChange.(lastWork := Some(Some(now))))]
    ensures o.0.WorkPaid? ==>
      o.0.amount == WorkPay(o.0.job, user.skills.workMultiplier) &&
      40 <= o.0.xpGained < 80 &&
      o.1 == [Write(KeyOf(user), NoChange.(lastWork := Some(Some(now)))),
              Write(KeyOf(user), NoChange.(balance := Some(user.balance + o.0.amount))),
              Write(KeyOf(user), NoChange.(xp := Some(user.xp + o.0.xpGained)))]
  {
    var elapsed := now - Millis(user.lastWork);
    if elapsed < WorkCooldownMs then
      var remaining := WorkCooldownMs - elapsed;
      (WorkWait((remaining % SecondMs) / SecondMs), [])
    else
      var job := Jobs[Pick(rJob, |Jobs|)];
      var stamp := Write(KeyOf(user), NoChange.(lastWork := Some(Some(now))));
      if rSuccess < job.successRate then
        var amount := WorkPay(job, user.skills.workMultiplier);
        var xpGained := Pick(rXP, 40) + 40;
        (WorkPaid(job, amount, xpGained),
         [stamp,
          Write(KeyOf(user), NoChange.(balance := Some(user.balance + amount))),
          Write(KeyOf(user), NoChange.(xp := Some(user.xp + xpGained)))])
      else
        (WorkFailed(job), [stamp])
  }

  /** `work` against the ledger: the updates in the order the source issues them. */
  method DoWork(db: Database, user: User, now: int, rJob: Draw, rSuccess: Draw, rXP: Draw) returns (reply: WorkReply)
    requires db.Valid()
    modifies db`users
    ensures db.Valid()
    ensures reply == WorkOutcome(user, now, rJob, rSuccess, rXP).0
    ensures db.users == Replay(old(db.users), WorkOutcome(user, now, rJob, rSuccess, rXP).1, now)
  {
    var elapsed := now - Millis(user.lastWork);
    if elapsed < WorkCooldownMs {
      var remaining := WorkCooldownMs - elapsed;
      reply := WorkWait((remaining % SecondMs) / SecondMs);
      return;
    }
    var job := Jobs[Pick(rJob, |Jobs|)];
    var success := rSuccess < job.successRate;
    var stamp := Write(KeyOf(user), NoChange.(lastWork := Some(Some(now))));
    db.UpdateUser(user.userId, user.groupId, stamp.patch, now);
    ReplayOne(old(db.users), stamp, now);
    assert db.users == Replay(old(db.users), [stamp], now);
    if success {
      var amount := WorkPay(job, user.skills.workMultiplier);
      var pay := Write(KeyOf(user), NoChange.(balance := Some(user.balance + amount)));
      db.UpdateUser(user.userId, user.groupId, pay.patch, now);
      ReplayStep(old(db.users), [stamp], pay, now);
      assert [stamp] + [pay] == [stamp, pay];
      assert db.users == Replay(old(db.users), [stamp, pay], now);
      var xpGained := Pick(rXP, 40) + 40;
      var gain := Write(KeyOf(user), NoChange.(xp := Some(user.xp + xpGained)));
      db.UpdateUser(user.userId, user.groupId, gain.patch, now);
      ReplayStep(old(db.users), [stamp, pay], gain, now);
      assert [stamp, pay] + [gain] == [stamp, pay, gain];
      reply := WorkPaid(job, amount, xpGained);
      assert WorkOutcome(user, now, rJob, rSuccess, rXP).1 == [stamp, pay, gain];
    } else {
      reply := WorkFailed(job);
      assert WorkOutcome(user, now, rJob, rSuccess, rXP).1 == [stamp];
    }
  }

  /** Every job may fail and may succeed, and pays a positive base. */
  lemma JobsWellFormed()
    ensures forall j :: j in Jobs ==> 0.0 < j.successRate < 1.0 && j.baseAmount > 0
  {
  }

  /**
   * A paid job on a current snapshot: the stored record ends with the
   * balance raised by the pay, the XP raised by the gain, and last_work
   * stamped; a failed job only stamps last_work.
   */
  lemma WorkStoredRecord(user: User, now: int, rJob: Draw, rSuccess: Draw, rXP: Draw)
    ensures var o := WorkOutcome(user, now, rJob, rSuccess, rXP);
      var after := ReplayUser(user, o.1, KeyOf(user), now);
      (o.0.WorkPaid? ==> after.balance == user.balance + o.0.amount && after.xp == user.xp + o.0.xpGained &&
                         after.lastWork == Some(now)) &&
      (o.0.WorkFailed? ==> after == user.(lastWork := Some(now), updatedAt := now)) &&
      (o.0.WorkWait? ==> after == user)
  {
    var o := WorkOutcome(user, now, rJob, rSuccess, rXP);
    var k := KeyOf(user);
    if !o.0.WorkWait? {
      var r1 := StepUser(user, o.1[0], k, now);
      assert ReplayUser(user, o.1, k, now) == ReplayUser(r1, o.1[1..], k, now);
      if o.0.WorkPaid? {
        var r2 := StepUser(r1, o.1[1], k, now);
        assert ReplayUser(r1, o.1[1..], k, now) == ReplayUser(r2, o.1[2..], k, now);
        var r3 := StepUser(r2, o.1[2], k, now);
        assert ReplayUser(r2, o.1[2..], k, now) == ReplayUser(r3, o.1[3..], k, now);
        assert o.1[3..] == [];
      } else {
        assert o.1[1..] == [];
      }
    }
  }
}
