/**
 * The onboarding walkthrough: a page view controller shows pages 0, 1 and 2;
 * the next button advances or, on the last page, finishes; the skip button
 * finishes at once. Finishing sets the persisted `hasViewedWalkthrough` flag and
 * dismisses the screen. `updateUI` restyles the buttons and the page control
 * from the page view controller's current index.
 *
 * The embedded page view controller is represented by its `currentIndex` alone
 * (`None` while there is no page view controller), and `forwardPage` by a counted
 * request whose resulting index is a parameter.
 */
module Walkthrough {
  import opened Wrappers
  import Preferences

  const NextTitle := "NEXT"
  const GetStartedTitle := "GET STARTED"

  /** The next button's title, the skip button's visibility and the page control's position. */
  datatype Controls = Controls(nextTitle: string, skipHidden: bool, currentPage: int)

  /** Everything the walkthrough's actions read or change. */
  datatype Screen = Screen(
    index: Option<int>,      // the page view controller's `currentIndex`
    viewed: bool,            // the persisted `hasViewedWalkthrough` flag
    controls: Controls,
    dismissed: bool,
    forwardRequests: nat)    // how often `forwardPage` was requested

  datatype Event =
    | NextTapped(indexAfterForward: int)   // the index the page view controller shows after a forward
    | SkipTapped
    | PageIndexUpdated(reported: int)      // the delegate callback; the reported index is not used
    | Segue(destination: Option<int>)      // the embed segue; `Some` when it leads to a page view controller

  /** A page on which the next button advances. */
  predicate IsEarlyPage(i: int) {
    0 <= i <= 1
  }

  /** `updateUI`: restyle the buttons for a known page and move the page control to the index. */
  function UpdatedControls(index: Option<int>, c: Controls): Controls {
    match index
    case None => c
    case Some(i) =>
      if IsEarlyPage(i) then Controls(NextTitle, false, i)
      else if i == 2 then Controls(GetStartedTitle, true, i)
      else c.(currentPage := i)
  }

  /** The next button's action before its trailing `updateUI`. */
  function NextAction(s: Screen, indexAfterForward: int): Screen {
    match s.index
    case None => s
    case Some(i) =>
      if IsEarlyPage(i) then s.(index := Some(indexAfterForward), forwardRequests := s.forwardRequests + 1)
      else if i == 2 then s.(viewed := true, dismissed := true)
      else s
  }

  function Step(s: Screen, e: Event): Screen {
    match e
    case NextTapped(k) =>
      var t := NextAction(s, k);
      t.(controls := UpdatedControls(t.index, t.controls))
    case SkipTapped => s.(viewed := true, dismissed := true)
    case PageIndexUpdated(_) => s.(controls := UpdatedControls(s.index, s.controls))
    case Segue(destination) => if destination.Some? then s.(index := destination) else s
  }

  function Run(s: Screen, events: seq<Event>): Screen
    decreases |events|
  {
    if events == [] then s else Run(Step(s, events[0]), events[1..])
  }

  /** Finishing is the only way the flag is set: skip, or next on the last page. */
  predicate Finishes(s: Screen, e: Event) {
    e.SkipTapped? || (e.NextTapped? && s.index == Some(2))
  }

  // ---------------------------------------------------------------- the flag

  /** A step sets the flag exactly when it finishes the walkthrough, and never clears it. */
  lemma StepSetsFlag(s: Screen, e: Event)
    ensures Step(s, e).viewed <==> s.viewed || Finishes(s, e)
    ensures Step(s, e).dismissed <==> s.dismissed || Finishes(s, e)
  {
  }

  /** Once viewed, always viewed: no sequence of actions clears `hasViewedWalkthrough`. */
  lemma {:induction false} FlagMonotone(s: Screen, events: seq<Event>)
    requires s.viewed
    ensures Run(s, events).viewed
    decreases |events|
  {
    if events != [] {
      StepSetsFlag(s, events[0]);
      FlagMonotone(Step(s, events[0]), events[1..]);
    }
  }

  /** The flag ends up set exactly when it was set before or some step finished the walkthrough. */
  lemma {:induction false} RunSetsFlag(s: Screen, events: seq<Event>)
    ensures Run(s, events).viewed <==>
      s.viewed || exists k :: 0 <= k < |events| && Finishes(Run(s, events[..k]), events[k])
    decreases |events|
  {
    if events != [] {
      var t := Step(s, events[0]);
      StepSetsFlag(s, events[0]);
      RunSetsFlag(t, events[1..]);
      assert Run(s, events[..0]) == s;
      forall k | 0 <= k < |events| - 1
        ensures Run(t, events[1..][..k]) == Run(s, events[..k + 1])
      {
        assert events[..k + 1][0] == events[0];
        assert events[..k + 1][1..] == events[1..][..k];
      }
      if Run(s, events).viewed && !s.viewed {
        if !Finishes(s, events[0]) {
          var k :| 0 <= k < |events[1..]| && Finishes(Run(t, events[1..][..k]), events[1..][k]);
          assert Finishes(Run(s, events[..k + 1]), events[k + 1]);
        }
      }
      if exists k :: 0 <= k < |events| && Finishes(Run(s, events[..k]), events[k]) {
        var k :| 0 <= k < |events| && Finishes(Run(s, events[..k]), events[k]);
        if k == 0 {
          FlagMonotone(t, events[1..]);
        } else {
          assert Finishes(Run(t, events[1..][..k - 1]), events[1..][k - 1]);
        }
      }
    }
  }

  /** A dismissed walkthrough has set the flag; every step keeps this. */
  predicate DismissedOnlyWhenViewed(s: Screen) {
    s.dismissed ==> s.viewed
  }

  lemma {:induction false} RunKeepsDismissedViewed(s: Screen, events: seq<Event>)
    requires DismissedOnlyWhenViewed(s)
    ensures DismissedOnlyWhenViewed(Run(s, events))
    decreases |events|
  {
    if events != [] {
      StepSetsFlag(s, events[0]);
      RunKeepsDismissedViewed(Step(s, events[0]), events[1..]);
    }
  }

  // ---------------------------------------------------------------- next button

  /** On pages 0 and 1 the next button only requests a forward page; the flag is untouched. */
  lemma NextOnEarlyPage(s: Screen, k: int)
    requires s.index.Some? && IsEarlyPage(s.index.value)
    ensures var t := Step(s, NextTapped(k));
      t.forwardRequests == s.forwardRequests + 1 && t.index == Some(k) &&
      t.viewed == s.viewed && t.dismissed == s.dismissed
  {
  }

  /** Without a page view controller, or on a page past the last, the next button requests nothing. */
  lemma NextRequestsForwardOnlyOnEarlyPage(s: Screen, k: int)
    ensures Step(s, NextTapped(k)).forwardRequests != s.forwardRequests <==>
      s.index.Some? && IsEarlyPage(s.index.value)
  {
  }

  /** With no page view controller the next button changes nothing at all. */
  lemma NextWithoutPagesIsIdle(s: Screen, k: int)
    requires s.index.None?
    ensures Step(s, NextTapped(k)) == s
  {
  }

  /** The delegate callback's reported index makes no difference. */
  lemma PageIndexIgnored(s: Screen, a: int, b: int)
    ensures Step(s, PageIndexUpdated(a)) == Step(s, PageIndexUpdated(b))
  {
  }

  // ---------------------------------------------------------------- updateUI

  /** The titles and visibility updateUI shows for a page, as a table. */
  lemma UpdatedControlsTable(i: int, c: Controls)
    ensures 0 <= i <= 1 ==> UpdatedControls(Some(i), c) == Controls("NEXT", false, i)
    ensures i == 2 ==> UpdatedControls(Some(i), c) == Controls("GET STARTED", true, 2)
    ensures !(0 <= i <= 2) ==>
      UpdatedControls(Some(i), c).nextTitle == c.nextTitle &&
      UpdatedControls(Some(i), c).skipHidden == c.skipHidden
    ensures UpdatedControls(Some(i), c).currentPage == i
    ensures UpdatedControls(None, c) == c
  {
  }

  /** Restyling twice is restyling once. */
  lemma UpdateIdempotent(index: Option<int>, c: Controls)
    ensures UpdatedControls(index, UpdatedControls(index, c)) == UpdatedControls(index, c)
  {
  }

  /** On a real page (0 to 2) the result does not depend on what was shown before. */
  lemma UpdateForgetsOldControls(i: int, c1: Controls, c2: Controls)
    requires 0 <= i <= 2
    ensures UpdatedControls(Some(i), c1) == UpdatedControls(Some(i), c2)
  {
  }

  /** The skip button is hidden exactly when the next button says "GET STARTED". */
  predicate ButtonsAgree(c: Controls) {
    c.skipHidden <==> c.nextTitle == GetStartedTitle
  }

  /** updateUI establishes the agreement on pages 0 to 2 and keeps it everywhere. */
  lemma UpdateKeepsButtonsAgreeing(index: Option<int>, c: Controls)
    ensures ButtonsAgree(c) ==> ButtonsAgree(UpdatedControls(index, c))
    ensures index.Some? && 0 <= index.value <= 2 ==> ButtonsAgree(UpdatedControls(index, c))
  {
  }

  /** The walkthrough screen, with the page view controller's index and the shared defaults. */
  class WalkthroughController {
    const defaults: Preferences.Defaults
    /** `walkthroughPageViewController?.currentIndex`. */
    var pageIndex: Option<int>
    var nextTitle: string
    var skipHidden: bool
    var currentPage: int
    var dismissed: bool
    var forwardRequests: nat

    function Shown(): Controls
      reads this`nextTitle, this`skipHidden, this`currentPage
    {
      Controls(nextTitle, skipHidden, currentPage)
    }

    function View(): Screen
      reads this, defaults
    {
      Screen(pageIndex, defaults.hasViewedWalkthrough, Shown(), dismissed, forwardRequests)
    }

    /** The screen as loaded from the storyboard: buttons as designed, no page view controller yet. */
    constructor (defaults: Preferences.Defaults, controls: Controls)
      ensures this.defaults == defaults
      ensures View() == Screen(None, defaults.hasViewedWalkthrough, controls, false, 0)
    {
      this.defaults := defaults;
      pageIndex := None;
      nextTitle, skipHidden, currentPage := controls.nextTitle, controls.skipHidden, controls.currentPage;
      dismissed, forwardRequests := false, 0;
    }

    /** `prepare(for:sender:)`: keep the destination when it is the page view controller. */
    method PrepareForSegue(destination: Option<int>)
      modifies this`pageIndex
      ensures View() == Step(old(View()), Segue(destination))
    {
      if destination.Some? {
        pageIndex := destination;
      }
    }

    method UpdateUI()
      modifies this`nextTitle, this`skipHidden, this`currentPage
      ensures Shown() == UpdatedControls(pageIndex, old(Shown()))
      ensures ButtonsAgree(old(Shown())) ==> ButtonsAgree(Shown())
    {
      UpdateKeepsButtonsAgreeing(pageIndex, Shown());
      if pageIndex.Some? {
        var index := pageIndex.value;
        if 0 <= index <= 1 {
          nextTitle := NextTitle;
          skipHidden := false;
        } else if index == 2 {
          nextTitle := GetStartedTitle;
          skipHidden := true;
        }
        currentPage := index;
      }
    }

    method SkipButtonTapped()
      modifies defaults, this`dismissed
      ensures defaults.hasViewedWalkthrough && dismissed
      ensures View() == Step(old(View()), SkipTapped)
    {
      defaults.hasViewedWalkthrough := true;
      dismissed := true;
    }

    /**
     * `nextButtonTapped`: forward on pages 0 and 1, finish on page 2, nothing
     * elsewhere; then `updateUI` with the index as it is afterwards.
     */
    method NextButtonTapped(indexAfterForward: int)
      modifies defaults, this`pageIndex, this`forwardRequests, this`dismissed,
        this`nextTitle, this`skipHidden, this`currentPage
      ensures View() == Step(old(View()), NextTapped(indexAfterForward))
      ensures old(defaults.hasViewedWalkthrough) ==> defaults.hasViewedWalkthrough
    {
      if pageIndex.Some? {
        var index := pageIndex.value;
        if 0 <= index <= 1 {
          pageIndex := Some(indexAfterForward);
          forwardRequests := forwardRequests + 1;
        } else if index == 2 {
          defaults.hasViewedWalkthrough := true;
          dismissed := true;
        }
      }
      UpdateUI();
    }

    /** `didUpdatePageIndex(currentIndex:)`: the delegate callback restyles from the page view controller's index. */
    method DidUpdatePageIndex(currentIndex: int)
      modifies this`nextTitle, this`skipHidden, this`currentPage
      ensures View() == Step(old(View()), PageIndexUpdated(currentIndex))
    {
      UpdateUI();
    }
  }
}
