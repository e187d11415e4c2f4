/** `checkCanStartChat` (src/hooks/useProfile.js): may this visitor open a new chat? */
module UseProfile {
  import opened Wrappers

  /**
   * A visitor who is not logged in may always start; a logged-in user may
   * start while `remainingReport` is positive, a missing info record or a
   * null/undefined count counting as 1.
   */
  function CheckCanStartChat(isUserLoggedIn: bool, remainingReport: Field<int>): (r: bool)
    ensures !isUserLoggedIn ==> r
    ensures isUserLoggedIn && remainingReport.Value? ==> (r <==> remainingReport.v > 0)
    ensures isUserLoggedIn && !remainingReport.Value? ==> r
  {
    if !isUserLoggedIn then true
    else remainingReport.Coalesce(1) > 0
  }

  /** A refusal happens only to a logged-in user whose stored count is zero or below. */
  lemma RefusedOnlyWhenExhausted(isUserLoggedIn: bool, remainingReport: Field<int>)
    ensures !CheckCanStartChat(isUserLoggedIn, remainingReport) <==>
      isUserLoggedIn && remainingReport.Value? && remainingReport.v <= 0
  {
  }
}
