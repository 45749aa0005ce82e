/** The app's persisted user defaults, of which the list and the walkthrough share one flag. */
module Preferences {
  import opened Wrappers

  class Defaults {
    /** `hasViewedWalkthrough`: set once the onboarding walkthrough was finished or skipped. */
    var hasViewedWalkthrough: bool

    /** Loads the defaults; `bool(forKey:)` reads a missing key as false. */
    constructor (stored: Option<bool>)
      ensures hasViewedWalkthrough == stored.GetOr(false)
    {
      hasViewedWalkthrough := stored.GetOr(false);
    }
  }
}
