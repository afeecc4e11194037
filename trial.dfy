/**
 * The free-trial arithmetic of the login and "me" handlers: the number of
 * whole days left, rounded up, and the active/expired flags derived from it.
 */
module Trial {
  import opened Types

  /** `Math.ceil(ms / DAY_MS)` on whole milliseconds. */
  function CeilDays(ms: int): (d: int)
    ensures (d - 1) * DAY_MS < ms <= d * DAY_MS
  {
    -((-ms) / DAY_MS)
  }

  /** The trial block of a user projection. */
  datatype TrialStatus = TrialStatus(active: bool, expired: bool, daysLeft: int)

  /** `daysLeft`: null when there is no trial end, else the rounded-up day count. */
  function DaysLeft(trialEnds: Option<int>, now: int): (r: Option<int>)
    ensures r.Some? <==> trialEnds.Some?
    ensures r.Some? ==> (r.value > 0 <==> trialEnds.value > now)
  {
    match trialEnds
    case None => None
    case Some(t) => Some(CeilDays(t - now))
  }

  /**
   * The reported trial status. A null `daysLeft` compares as not above 0
   * and as at most 0, so an account without a trial end is expired.
   */
  function StatusOf(trialEnds: Option<int>, now: int): (r: TrialStatus)
    ensures r.active <==> trialEnds.Some? && trialEnds.value > now
    ensures r.expired <==> !r.active
    ensures r.daysLeft >= 0
    ensures !r.active ==> r.daysLeft == 0
    ensures r.active ==> (r.daysLeft - 1) * DAY_MS < trialEnds.value - now <= r.daysLeft * DAY_MS
  {
    var d := DaysLeft(trialEnds, now);
    TrialStatus(
      d.Some? && d.value > 0,
      d.None? || d.value <= 0,
      if d.Some? && d.value > 0 then d.value else 0)
  }

  /** A trial that ends exactly TRIAL_DAYS days from now reports 30 days left. */
  lemma FreshTrial(now: int)
    ensures StatusOf(Some(now + TRIAL_DAYS * DAY_MS), now) == TrialStatus(true, false, TRIAL_DAYS)
  {
    var r := StatusOf(Some(now + TRIAL_DAYS * DAY_MS), now);
    assert (r.daysLeft - 1) * DAY_MS < TRIAL_DAYS * DAY_MS <= r.daysLeft * DAY_MS;
  }

  /**
   * The days reported never grow as time passes, and once a trial has
   * expired it stays expired.
   */
  lemma StatusMonotone(trialEnds: Option<int>, now: int, later: int)
    requires now <= later
    ensures StatusOf(trialEnds, later).daysLeft <= StatusOf(trialEnds, now).daysLeft
    ensures StatusOf(trialEnds, now).expired ==> StatusOf(trialEnds, later).expired
  {
    if trialEnds.Some? && trialEnds.value > later {
      var a := StatusOf(trialEnds, now).daysLeft;
      var b := StatusOf(trialEnds, later).daysLeft;
      assert (b - 1) * DAY_MS < trialEnds.value - later <= trialEnds.value - now <= a * DAY_MS;
    }
  }
}
