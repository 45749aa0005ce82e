# FoodPin restaurant list and onboarding walkthrough, modelled in Dafny

FoodPin is an iOS app that keeps a list of restaurants in Core Data. This project models two screens of it.

**The restaurant list** (`RestaurantTableViewController`):
- It fetches the stored restaurants through a fetched-results controller. The request filters by a search text (name or location contains the text, ignoring case) and sorts by name.
- It copies the result into its `restaurants` array and shows that array as a one-section diffable snapshot, with an "empty list" placeholder.
- It offers swipe commands and context-menu commands on rows: favourite, delete and share.
- It schedules a suggestion notification for a randomly picked restaurant.

**The onboarding walkthrough** (`WalkthroughViewController`):
- It has a next button, a skip button and a page control over three pages.
- Finishing it (skip, or next on the last page) sets the persisted `hasViewedWalkthrough` flag. The list presents the walkthrough only while that flag is false.

## How the model maps to the app

- **Managed objects by identity.** The app's `Restaurant` objects are reference objects owned by the managed-object context. The model keeps that identity:
  - `objects: map<Id, Restaurant>` holds the current attribute values of every object the context knows;
  - `store: seq<Id>` holds the objects currently in the context;
  - `saved` holds what the last `saveContext` wrote;
  - `restaurants`, the fetch result and the snapshot hold identities.
  
  So a favourite toggle through `restaurants[row]` changes the shared object (`ToggleFavorite` changes `objects`). It does not change the array or what is saved.
- **Layout.** The two view controllers are classes whose fields are the state their methods update (`RestaurantList.RestaurantTableController`, `Walkthrough.WalkthroughController`). Each method either states its new state outright, or ties it to a specification function of its old state:
  - `Query` for the fetch;
  - `SingleSection` for the snapshot;
  - `Step` for the walkthrough.
  
  Lemmas about those functions state what the app promises.
- **Fetching.** The fetch request is the pure function `RestaurantQuery.Query`. It is the filter `Filter`, followed by an insertion sort `SortByName`, in the order given by the abstract name order `nameLe`. Case folding is an abstract per-character function `fold`.
- **The fetched-results controller** is `fetchText` plus `fetched: Option<seq<Id>>`:
  - `None` means no fetch has happened yet (before `viewDidLoad`) or the last `performFetch` failed. Whether it fails is a parameter.
  - After a delete and save, it drops the deleted object from its fetched objects, keeps the others in their order, and calls `controllerDidChangeContent`. `ContextDidChange` models that step. It does not re-run the request; `QueryAfterDelete` shows that the result is the same as re-running it with ties in store order.
- **The walkthrough's page view controller** is represented by its `currentIndex` (`pageIndex`, `None` while there is none). `WalkthroughPageViewController.forwardPage` is not part of this model. The model counts it as a request (`forwardRequests`), and the index it leads to is the parameter `indexAfterForward`.
- **The user defaults** are one `Preferences.Defaults` object that both controllers share.
- **Choice and outside values become parameters.** The random pick of `prepareNotification` is an arbitrary choice within `0..<count`. Search-bar text, fetch failure and the segue destination are parameters.
- **The search controller's `isActive`** is set by UIKit when the user starts or ends a search. The model has `SetSearchActive` for that event.

### Behaviour worth noting
- **Delete during search.** The swipe delete is suppressed whenever the search controller is active, even with empty text: no trailing actions at all. The context-menu delete is offered while searching too, and deletes the row of the fetch result (`fetchResultController.object(at:)`). It is not suppressed.
- **Which delete animates.** The context-menu delete does not re-snapshot itself. The list changes only through the fetched-results controller's change notification, which re-snapshots without animation. The swipe delete re-snapshots with animation after that notification.

## Model

| member | source | states |
|---|---|---|
| RestaurantQuery.Matches | FoodPin/Controller/RestaurantTableViewController.swift:195 | the search predicate on one record: its name or its location contains the text under the `[c]` folding |
| RestaurantQuery.Filter | FoodPin/Controller/RestaurantTableViewController.swift:195 | the stored objects that exist and satisfy the search predicate, in store order |
| RestaurantQuery.SortByName | FoodPin/Controller/RestaurantTableViewController.swift:198-199 | the name sort descriptor, as a stable insertion sort under the collation `nameLe` |
| RestaurantQuery.Query | FoodPin/Controller/RestaurantTableViewController.swift:192-199 | the fetch request: the whole store for an empty text, otherwise the filtered store, then sorted by name |
| RestaurantQuery.RemoveId | FoodPin/Controller/RestaurantTableViewController.swift:107 | `context.delete` on a list of identities: every occurrence of the object is dropped, the rest keep their order |
| Snapshots.AppendItems | FoodPin/Controller/RestaurantTableViewController.swift:221 | `appendItems(_:toSection:)`: the items go at the end of the named section |
| Snapshots.SingleSection | FoodPin/Controller/RestaurantTableViewController.swift:219-221 | the snapshot `updateSnapshot` builds: the one section `.all` holding the rows in order |
| Walkthrough.UpdatedControls | FoodPin/Controller/WalkthroughViewController.swift:58-74 | `updateUI`: the controls shown for the page view controller's index, or the old ones when there is none |
| Walkthrough.NextAction | FoodPin/Controller/WalkthroughViewController.swift:40-55 | the next button before its `updateUI`: forward on pages 0-1, set the flag and dismiss on page 2, nothing otherwise |
| Walkthrough.Step | FoodPin/Controller/WalkthroughViewController.swift:26-57 | one walkthrough event: next, skip, the delegate callback (line 88-90) or the embed segue (line 32-38) |
| RestaurantQuery.QueryWithoutPredicate | FoodPin/Controller/RestaurantTableViewController.swift:190-199 | with empty search text the fetch returns every stored object, each as often as it is stored (once, as the store has no duplicates, by `QueryNoDuplicates`), sorted ascending by name |
| RestaurantQuery.QuerySelectsMatches | FoodPin/Controller/RestaurantTableViewController.swift:194-196 | for a non-empty text, an object is fetched exactly when it is stored and its name or its location contains the text after case folding |
| RestaurantQuery.QuerySortedPermutation | FoodPin/Controller/RestaurantTableViewController.swift:194-199 | the fetch result is sorted by name and is a permutation of the matching stored objects |
| RestaurantQuery.QueryNoDuplicates | FoodPin/Controller/RestaurantTableViewController.swift:190-199 | a store without duplicates yields a fetch result without duplicates |
| RestaurantQuery.QueryFromStore | FoodPin/Controller/RestaurantTableViewController.swift:201-207 | every fetched object is one of the context's stored objects |
| RestaurantQuery.EmptyTextMatchesEverything | FoodPin/Controller/RestaurantTableViewController.swift:194-195 | the model's abstract `Contains` accepts the empty pattern, so in the model omitting the predicate for "" agrees with applying it; this is a fact about the model, not about `NSPredicate`, which the app never evaluates on an empty text |
| RestaurantQuery.FilterCount | FoodPin/Controller/RestaurantTableViewController.swift:195 | the filter keeps each matching stored object exactly as often as it is stored and drops every non-matching one |
| RestaurantQuery.FilterMembers | FoodPin/Controller/RestaurantTableViewController.swift:195 | an object is in the filtered list exactly when it is in the input and matches |
| RestaurantQuery.SortCount | FoodPin/Controller/RestaurantTableViewController.swift:198-199 | sorting by name neither adds nor drops nor duplicates an object |
| RestaurantQuery.SortIsSorted | FoodPin/Controller/RestaurantTableViewController.swift:198-199 | the sort result is ascending by name under any total preorder on names |
| RestaurantQuery.InsertCount | FoodPin/Controller/RestaurantTableViewController.swift:198-199 | inserting by name adds exactly the inserted object |
| RestaurantQuery.InsertKeepsSorted | FoodPin/Controller/RestaurantTableViewController.swift:198-199 | inserting into a name-sorted list keeps it sorted |
| RestaurantQuery.RemoveIdCount | FoodPin/Controller/RestaurantTableViewController.swift:107 | deleting an object removes every occurrence of it and nothing else |
| RestaurantQuery.RemoveIdMembers | FoodPin/Controller/RestaurantTableViewController.swift:107 | after a delete, an identity remains exactly when it was there and is not the deleted one |
| RestaurantQuery.RemoveIdCutsPosition | FoodPin/Controller/RestaurantTableViewController.swift:283-284 | in a list without duplicates, deleting the object at position k is cutting position k out |
| RestaurantQuery.RemoveIdNoDuplicates | FoodPin/Controller/RestaurantTableViewController.swift:107 | a delete keeps the store free of duplicates |
| RestaurantQuery.QueryAfterDelete | FoodPin/Controller/RestaurantTableViewController.swift:101-111 | re-running the fetch after deleting an object gives the old result without that object, the rest in the same order |
| RestaurantQuery.DeleteFetchedRow | FoodPin/Controller/RestaurantTableViewController.swift:278-286 | deleting the fetched object at a row makes the next fetch return the old result without that row |
| RestaurantQuery.QueryIgnoresOtherAttributes | FoodPin/Controller/RestaurantTableViewController.swift:156-158 | changing attributes other than name and location (the favourite flag) leaves the fetch result unchanged |
| Text.Contains | FoodPin/Controller/RestaurantTableViewController.swift:195 | `CONTAINS`: whether the pattern is a prefix of some suffix of the text; also the "body contains" claim about line 328 |
| Text.Folded | FoodPin/Controller/RestaurantTableViewController.swift:195 | the `[c]` folding of a string, character by character with the abstract `fold` |
| Text.ContainsFolded | FoodPin/Controller/RestaurantTableViewController.swift:195 | `CONTAINS[c]`: containment after folding both the text and the pattern |
| Text.ContainsIffOccurs | FoodPin/Controller/RestaurantTableViewController.swift:195 | `CONTAINS` holds exactly when the pattern occurs at some position of the text |
| Text.FoldedChars | FoodPin/Controller/RestaurantTableViewController.swift:195 | the `[c]` folding keeps length and folds every character in place |
| Text.ContainsInfix | FoodPin/Controller/RestaurantTableViewController.swift:328 | a string spliced into a template is contained in the result |
| Messages.ShareText | FoodPin/Controller/RestaurantTableViewController.swift:120 | the share text starts with "Just checking in at " and continues with the name |
| Messages.ShareTextRoundTrip | FoodPin/Controller/RestaurantTableViewController.swift:266 | the name can be read back off the share text |
| Messages.Suggestion | FoodPin/Controller/RestaurantTableViewController.swift:325-349 | the request identifier, the notification's title, subtitle, body, default sound, phone, category, its two actions and its 10-second one-shot trigger |
| Messages.SuggestionBody | FoodPin/Controller/RestaurantTableViewController.swift:328 | the notification body: the recommendation text with the restaurant's name and location spliced in |
| Messages.SuggestionMentionsRestaurant | FoodPin/Controller/RestaurantTableViewController.swift:328 | the suggestion body contains the restaurant's name and its location |
| Snapshots.AppendSections | FoodPin/Controller/RestaurantTableViewController.swift:220 | `appendSections` adds new, empty sections after the existing ones |
| Snapshots.AppendToSection | FoodPin/Controller/RestaurantTableViewController.swift:221 | `appendItems` extends the named section's items and leaves the other sections alone |
| Snapshots.BuildSteps | FoodPin/Controller/RestaurantTableViewController.swift:219-221 | appending `.all` to an empty snapshot and then the rows gives one section of exactly those rows, in order |
| Snapshots.ItemIdentifier | FoodPin/Controller/RestaurantTableViewController.swift:98 | `itemIdentifier(for:)`: the identity shown at a row, or none past the end |
| Snapshots.BuildItemIdentifier | FoodPin/Controller/RestaurantTableViewController.swift:98 | in a built snapshot row k shows `rows[k]`, and no row past the end has an item |
| Preferences.Defaults.constructor | FoodPin/Controller/RestaurantTableViewController.swift:228 | a missing `hasViewedWalkthrough` key reads as false |
| RestaurantList.RestaurantTableController.constructor | FoodPin/Controller/RestaurantTableViewController.swift:16-20 | before the view loads the array and the data source are empty and nothing has been fetched |
| RestaurantList.RestaurantTableController.RowsAreRestaurants | FoodPin/Model/RestaurantDiffableDataSource.swift:10-19 | the data source's single section shows exactly `restaurants`, in order |
| RestaurantList.RestaurantTableController.ViewDidLoad | FoodPin/Controller/RestaurantTableViewController.swift:24-66 | after loading, the fetch is live and the list is the full name-sorted store, applied as one section without animation (unless the fetch failed, which changes nothing shown); the placeholder shows exactly when the list is empty, the search is inactive, and a suggestion exists exactly when the list is non-empty |
| RestaurantList.RestaurantTableController.FetchRestaurantData | FoodPin/Controller/RestaurantTableViewController.swift:190-213 | a successful fetch makes the list the query result for the text and applies it, animated exactly for a non-empty text; a failed fetch changes nothing shown |
| RestaurantList.RestaurantTableController.UpdateSnapshot | FoodPin/Controller/RestaurantTableViewController.swift:214-226 | the list becomes the fetched objects (kept if none), the applied snapshot is one section of exactly the list, the placeholder is hidden exactly when the list is non-empty |
| RestaurantList.RestaurantTableController.ControllerDidChangeContent | FoodPin/Controller/RestaurantTableViewController.swift:358-363 | the change notification re-snapshots the fetched objects without animation |
| RestaurantList.RestaurantTableController.UpdateSearchResults | FoodPin/Controller/RestaurantTableViewController.swift:365-374 | a search bar without text changes nothing; otherwise a successful fetch makes the fetch live and the list the query result for its text, applied as one section, animated exactly for a non-empty text; a failed fetch records the text and changes nothing shown |
| RestaurantList.RestaurantTableController.ViewDidAppear | FoodPin/Controller/RestaurantTableViewController.swift:227-236 | the walkthrough is presented exactly when `hasViewedWalkthrough` is false |
| RestaurantList.RestaurantTableController.SetSearchActive | FoodPin/Controller/RestaurantTableViewController.swift:94 | the search controller's `isActive`, which the trailing swipe reads, becomes the given value |
| RestaurantList.RestaurantTableController.TrailingActions | FoodPin/Controller/RestaurantTableViewController.swift:92-100 | no trailing actions while searching or for a row without an item; otherwise exactly delete then share |
| RestaurantList.SavedContents | FoodPin/Controller/RestaurantTableViewController.swift:108 | what `appDelegate.saveContext()` writes: the current attributes of every object still in the context |
| RestaurantList.FavoriteIcon | FoodPin/Controller/RestaurantTableViewController.swift:164 | the favourite action's icon: "heart.slash.fill" for a favourite, "heart.fill" otherwise |
| RestaurantList.RestaurantTableController.LeadingActions | FoodPin/Controller/RestaurantTableViewController.swift:150-169 | one favourite action whose icon is "heart.slash.fill" for a favourite row and "heart.fill" otherwise |
| RestaurantList.RestaurantTableController.ContextMenu | FoodPin/Controller/RestaurantTableViewController.swift:238-243 | a menu exists exactly for rows with an item, and it is favourite, share, delete, also while searching |
| RestaurantList.RestaurantTableController.ShareMessage | FoodPin/Controller/RestaurantTableViewController.swift:264-266 | the share text of a row carries exactly that row's restaurant name |
| RestaurantList.RestaurantTableController.ToggleFavorite | FoodPin/Controller/RestaurantTableViewController.swift:152-160 | the row's shared object flips `isFavorite`, no other object changes, the list and the fetch result stay valid, and the heart indicator is hidden exactly when the row is no longer a favourite |
| RestaurantList.RestaurantTableController.DeleteObject | FoodPin/Controller/RestaurantTableViewController.swift:284 | `context.delete` takes the object out of the store and keeps the store valid |
| RestaurantList.RestaurantTableController.SaveContext | FoodPin/Controller/RestaurantTableViewController.swift:286 | saving writes every object still in the store, with its current attributes |
| RestaurantList.RestaurantTableController.ContextDidChange | FoodPin/Controller/RestaurantTableViewController.swift:203-204 | after the delete of a fetched object is saved, a fetched-results controller that has fetched drops that object from its results (still the query result of the new store) and re-snapshots without animation; one that has not changes nothing |
| RestaurantList.RestaurantTableController.SwipeDelete | FoodPin/Controller/RestaurantTableViewController.swift:101-117 | the swipe delete removes the row's object from the store and saves; with a live fetch the fetch stays live and the list loses exactly that row, others in order; the final snapshot is animated |
| RestaurantList.RestaurantTableController.ContextMenuDelete | FoodPin/Controller/RestaurantTableViewController.swift:278-288 | the menu delete removes the fetched object at the row and saves; the fetch stays live, the list loses exactly that row, others in order, and its snapshot is applied without animation |
| RestaurantList.RestaurantTableController.PrepareNotification | FoodPin/Controller/RestaurantTableViewController.swift:314-354 | nothing for an empty list; otherwise a row in range and the suggestion for its restaurant, whose body names it and its location |
| Walkthrough.StepSetsFlag | FoodPin/Controller/WalkthroughViewController.swift:26-57 | one action sets the flag and dismisses exactly when it is a skip or a next on page 2, and never clears the flag |
| Walkthrough.FlagMonotone | FoodPin/Controller/WalkthroughViewController.swift:27-48 | once `hasViewedWalkthrough` is set, no sequence of walkthrough actions clears it |
| Walkthrough.RunSetsFlag | FoodPin/Controller/WalkthroughViewController.swift:26-49 | after any sequence of actions the flag is set exactly when it was set before or some action in it finished the walkthrough |
| Walkthrough.RunKeepsDismissedViewed | FoodPin/Controller/WalkthroughViewController.swift:26-49 | the walkthrough is never dismissed without the flag being set |
| Walkthrough.NextOnEarlyPage | FoodPin/Controller/WalkthroughViewController.swift:44-45 | on pages 0 and 1 next requests one forward page and does not touch the flag or dismiss |
| Walkthrough.NextRequestsForwardOnlyOnEarlyPage | FoodPin/Controller/WalkthroughViewController.swift:42-53 | next requests a forward page exactly when there is a page view controller on page 0 or 1 |
| Walkthrough.NextWithoutPagesIsIdle | FoodPin/Controller/WalkthroughViewController.swift:42-60 | with no page view controller, next (and its updateUI) changes nothing |
| Walkthrough.PageIndexIgnored | FoodPin/Controller/WalkthroughViewController.swift:88-90 | the index the page delegate reports does not affect the result |
| Walkthrough.UpdatedControlsTable | FoodPin/Controller/WalkthroughViewController.swift:58-74 | pages 0-1 show "NEXT" with skip visible, page 2 "GET STARTED" with skip hidden, other indices keep title and skip, the page control always moves to the index, and no index changes nothing |
| Walkthrough.UpdateIdempotent | FoodPin/Controller/WalkthroughViewController.swift:58-74 | running updateUI twice is running it once |
| Walkthrough.UpdateForgetsOldControls | FoodPin/Controller/WalkthroughViewController.swift:61-68 | on pages 0 to 2 the outcome does not depend on what was shown before |
| Walkthrough.UpdateKeepsButtonsAgreeing | FoodPin/Controller/WalkthroughViewController.swift:61-68 | skip is hidden exactly when the title is "GET STARTED": updateUI establishes this on pages 0 to 2 and keeps it on any index |
| Walkthrough.WalkthroughController.constructor | FoodPin/Controller/WalkthroughViewController.swift:10-24 | the screen starts with the storyboard's controls, no page view controller, not dismissed |
| Walkthrough.WalkthroughController.PrepareForSegue | FoodPin/Controller/WalkthroughViewController.swift:32-39 | the page view controller of the embed segue is kept; any other destination changes nothing |
| Walkthrough.WalkthroughController.UpdateUI | FoodPin/Controller/WalkthroughViewController.swift:58-74 | the controls become `UpdatedControls` of the current index and the old controls |
| Walkthrough.WalkthroughController.SkipButtonTapped | FoodPin/Controller/WalkthroughViewController.swift:26-29 | skip sets the flag and dismisses, whatever the page |
| Walkthrough.WalkthroughController.NextButtonTapped | FoodPin/Controller/WalkthroughViewController.swift:40-57 | the new screen is `Step` of the old one for a next tap: forward on pages 0-1, finish on page 2, nothing elsewhere, then updateUI; the flag is never cleared |
| Walkthrough.WalkthroughController.DidUpdatePageIndex | FoodPin/Controller/WalkthroughViewController.swift:86-92 | the delegate callback runs updateUI on the page view controller's index |

## Left out

- Core Data internals: the `NSFetchedResultsController` is modelled only by its fetch result, and its change tracking by `ContextDidChange`. The model has no batching, no section name key path and no cache.
- The ordering of the change notification relative to the swipe delete's own `updateSnapshot(animatingChange: true)`: the model delivers the notification first.
- The change notification for inserts and edits that other screens save: those screens are not part of this model, so `ContextDidChange` follows deletes only.
- The change notification a favourite toggle might cause for an updated (not inserted or deleted) object. The toggle changes no search key, so the fetch result is the same either way (`QueryIgnoresOtherAttributes`).
- `saveContext` failure handling: `AppDelegate` is not part of this model, so a save always succeeds.
- The `if let appDelegate` guards, and the `as? WalkthroughViewController` cast of the storyboard's controller in `viewDidAppear`, always succeed in the app, so their else branches are not modelled.
- `NSPredicate` `[c]` Unicode case folding is an abstract per-character function. Multi-character folds and normalisation are not modelled.
- `NSSortDescriptor` collation is an abstract total preorder. `NSSortDescriptor` promises nothing about the order of equal names; the model breaks ties by store order on every fetch. `FetchCurrent`, and so every method's `Valid()`, assumes that each fetch orders ties the same way. The delete contracts do not rely on it: the change notification drops the deleted object from the results it already has.
- The differences computed and animated inside `UITableViewDiffableDataSource.apply`: the model records the snapshot applied and whether it was animated.
- Cell rendering, `UIImage(data:)` decoding and the restaurant's `type` and `image` attributes: the list does not compute with them.
- Navigation-bar appearance, the search bar's look, `viewWillAppear`, `unwindToHome`, the detail segue, the context-menu preview and `willPerformPreviewActionForMenuWith`: presentation only.
- The activity controller and its popover anchoring: the model keeps the share text only.
- `NSLocalizedString` on the menu share text: the model uses the development-language text, which is the same as the swipe share text.
- Notification I/O: the JPEG temp file, the attachment, category registration and scheduling are not modelled. The model returns the notification content, its category actions and its trigger.
- The random choice of `prepareNotification` is any choice in range: no distribution is modelled.
- `createQuickActions` only registers platform shortcut items.
- `WalkthroughPageViewController` is not part of this model. Its `forwardPage` becomes a counted request with the resulting index as a parameter, and its swipe-driven index changes are outside the model.
- Walkthrough.WalkthroughController.UpdateUI: `UIPageControl` clamping `currentPage` to its page count is not modelled; the raw index is stored.
- `MapViewController`, `WebViewController` and `NavigationControllerViewController`: geocoding, web loading and status-bar forwarding are outside the modelled screens.
- RestaurantList.RestaurantTableController.ContextMenuDelete requires a successful fetch with the row in range: in the app, `fetchResultController.object(at:)` traps otherwise.
