/**
 * The restaurant list screen: it fetches the stored restaurants through a fetch
 * request (search text, sort on name), copies the result into its `restaurants`
 * array, shows it as a one-section snapshot with an "empty" placeholder, and
 * offers row commands (favourite, delete, share) and a suggestion notification.
 *
 * The managed-object context is modelled by identity: `objects` holds the current
 * attribute values of every managed object (a deleted object keeps its values),
 * `store` the objects currently in the context, `saved` what the last save wrote.
 * `restaurants`, the fetch result and the snapshot hold identities, so a change
 * made through `restaurants[row]` is a change to the shared object in the context.
 */
module RestaurantList {
  import opened Wrappers
  import opened Text
  import opened RestaurantQuery
  import opened Snapshots
  import opened Messages
  import Preferences

  datatype SwipeAction = DeleteAction | ShareAction | FavoriteAction(icon: string)

  datatype MenuAction = SaveAsFavorite | ShareMenuAction | DeleteMenuAction

  /** What `prepareNotification` scheduled: the picked row and the notification for it. */
  datatype Suggested = Suggested(row: nat, notification: Notification)

  /** The context's objects as a save writes them: every object still in the store. */
  function SavedContents(store: seq<Id>, objects: map<Id, Restaurant>): map<Id, Restaurant>
  {
    map id | id in store && id in objects :: objects[id]
  }

  /** The favourite-action icon: a struck-through heart offers to undo a favourite. */
  function FavoriteIcon(isFavorite: bool): string {
    if isFavorite then "heart.slash.fill" else "heart.fill"
  }

  class RestaurantTableController {
    /** The case folding of `CONTAINS[c]`. */
    const fold: char -> char
    /** The collation of the name sort descriptor. */
    const nameLe: (string, string) -> bool
    /** The user defaults shared with the walkthrough. */
    const defaults: Preferences.Defaults

    var objects: map<Id, Restaurant>
    var store: seq<Id>
    var saved: map<Id, Restaurant>
    /** The search text of the current fetched-results controller's request. */
    var fetchText: string
    /** `fetchResultController.fetchedObjects`: `None` before the first fetch and after a failed one. */
    var fetched: Option<seq<Id>>
    var restaurants: seq<Id>
    /** The snapshot last applied to the data source, and whether that apply animated. */
    var applied: Snapshot
    var appliedAnimated: bool
    /** `tableView.backgroundView?.isHidden`: the "no restaurants" placeholder. */
    var emptyViewHidden: bool
    /** `searchController.isActive`: true while the user is searching. */
    var searchActive: bool

    ghost predicate StoreValid()
      reads this`store, this`objects
    {
      TotalPreorder(nameLe) && NoDuplicates(store) && AllKnown(store, objects)
    }

    /** The table shows `restaurants` and the placeholder is visible exactly when it is empty. */
    ghost predicate ListValid()
      reads this`restaurants, this`objects, this`applied, this`emptyViewHidden
    {
      && NoDuplicates(restaurants) && AllKnown(restaurants, objects)
      && (applied == SingleSection(restaurants) || (applied == EmptySnapshot && restaurants == []))
      && emptyViewHidden == (|restaurants| != 0)
    }

    /** A fetched-results controller that has fetched tracks the context: its objects are the current query result. */
    ghost predicate FetchCurrent()
      reads this`fetched, this`store, this`objects, this`fetchText
    {
      fetched.Some? ==> fetched.value == Query(store, objects, fetchText, fold, nameLe)
    }

    ghost predicate Valid()
      reads this`store, this`objects, this`restaurants, this`applied, this`emptyViewHidden, this`fetched, this`fetchText
    {
      StoreValid() && ListValid() && FetchCurrent() && (fetched.Some? ==> restaurants == fetched.value)
    }

    /** The identities the table rows show, in row order. */
    function Rows(): seq<Id>
      reads this`applied
    {
      ItemIdentifiers(applied.sections)
    }

    lemma RowsAreRestaurants()
      requires ListValid()
      ensures Rows() == restaurants
    {
      EmptySnapshotHasNoItems();
      assert ItemIdentifiers(SingleSection(restaurants).sections) == restaurants;
    }

    /** The controller before `viewDidLoad`: an empty `restaurants` array and an empty data source. */
    constructor (fold: char -> char, nameLe: (string, string) -> bool, defaults: Preferences.Defaults,
                 objects: map<Id, Restaurant>, store: seq<Id>)
      requires TotalPreorder(nameLe) && NoDuplicates(store) && AllKnown(store, objects)
      ensures Valid()
      ensures this.fold == fold && this.nameLe == nameLe && this.defaults == defaults
      ensures this.objects == objects && this.store == store && saved == SavedContents(store, objects)
      ensures restaurants == [] && fetched == None && fetchText == "" && applied == EmptySnapshot
      ensures !emptyViewHidden && !searchActive
    {
      this.fold, this.nameLe, this.defaults := fold, nameLe, defaults;
      this.objects, this.store := objects, store;
      saved := SavedContents(store, objects);
      fetchText, fetched := "", None;
      restaurants := [];
      applied, appliedAnimated := EmptySnapshot, false;
      emptyViewHidden, searchActive := false, false;
    }

    /**
     * `viewDidLoad`: sets the placeholder from the (still empty) array, fetches every
     * restaurant, creates the inactive search controller and prepares the suggestion.
     */
    method ViewDidLoad(fetchFails: bool) returns (suggestion: Option<Suggested>)
      requires Valid()
      modifies this`fetchText, this`fetched, this`restaurants, this`applied, this`appliedAnimated,
        this`emptyViewHidden, this`searchActive
      ensures Valid() && fetchText == "" && !searchActive
      ensures emptyViewHidden == (|restaurants| != 0)
      ensures fetchFails ==>
        fetched == None && restaurants == old(restaurants) && applied == old(applied) &&
        appliedAnimated == old(appliedAnimated)
      ensures !fetchFails ==>
        restaurants == Query(store, objects, "", fold, nameLe) && fetched == Some(restaurants) &&
        applied == SingleSection(restaurants) && !appliedAnimated
      ensures suggestion.None? <==> restaurants == []
      ensures suggestion.Some? ==>
        suggestion.value.row < |restaurants| &&
        suggestion.value.notification == Suggestion(objects[restaurants[suggestion.value.row]])
    {
      emptyViewHidden := if |restaurants| == 0 then false else true;
      FetchRestaurantData("", fetchFails);
      searchActive := false;
      suggestion := PrepareNotification();
    }

    /**
     * `fetchRestaurantData`: replaces the fetched-results controller with one for
     * `searchText` and, when its fetch succeeds, re-snapshots (animated only for a
     * search). A failed fetch is logged and leaves the list as it was.
     */
    method FetchRestaurantData(searchText: string, fetchFails: bool)
      requires Valid()
      modifies this`fetchText, this`fetched, this`restaurants, this`applied, this`appliedAnimated, this`emptyViewHidden
      ensures Valid() && fetchText == searchText
      ensures fetchFails ==>
        fetched == None && restaurants == old(restaurants) && applied == old(applied) &&
        appliedAnimated == old(appliedAnimated) && emptyViewHidden == old(emptyViewHidden)
      ensures !fetchFails ==>
        fetched == Some(Query(store, objects, searchText, fold, nameLe)) && restaurants == fetched.value &&
        applied == SingleSection(restaurants) && appliedAnimated == (searchText != "")
    {
      fetchText := searchText;
      if fetchFails {
        fetched := None;
      } else {
        fetched := Some(Query(store, objects, searchText, fold, nameLe));
        UpdateSnapshot(if searchText == "" then false else true);
      }
    }

    /**
     * `updateSnapshot`: copies the fetched objects (when there are any) into
     * `restaurants`, applies a one-section snapshot of them in order and sets the
     * placeholder.
     */
    method UpdateSnapshot(animatingChange: bool)
      requires StoreValid() && ListValid() && FetchCurrent()
      modifies this`restaurants, this`applied, this`appliedAnimated, this`emptyViewHidden
      ensures Valid()
      ensures restaurants == if old(fetched).Some? then old(fetched).value else old(restaurants)
      ensures applied == SingleSection(restaurants)
      ensures appliedAnimated == animatingChange
      ensures emptyViewHidden == (|restaurants| != 0)
    {
      if fetched.Some? {
        assert NoDuplicates(fetched.value) && AllKnown(fetched.value, objects) by {
          QueryNoDuplicates(store, objects, fetchText, fold, nameLe);
          QueryFromStore(store, objects, fetchText, fold, nameLe);
        }
        restaurants := fetched.value;
      }
      var snapshot := AppendSections(EmptySnapshot, [All]);
      assert snapshot.sections == [SectionItems(All, [])] && AppendItems(snapshot, restaurants, All) == SingleSection(restaurants) by {
        BuildSteps(restaurants);
      }
      snapshot := AppendItems(snapshot, restaurants, All);
      applied, appliedAnimated := snapshot, animatingChange;
      emptyViewHidden := if |restaurants| == 0 then false else true;
    }

    /** `controllerDidChangeContent`: the fetched objects changed, so re-snapshot without animation. */
    method ControllerDidChangeContent()
      requires StoreValid() && ListValid() && FetchCurrent()
      modifies this`restaurants, this`applied, this`appliedAnimated, this`emptyViewHidden
      ensures Valid()
      ensures restaurants == if old(fetched).Some? then old(fetched).value else old(restaurants)
      ensures applied == SingleSection(restaurants) && !appliedAnimated
    {
      UpdateSnapshot(false);
    }

    /**
     * `updateSearchResults(for:)`: a search bar without text is ignored; otherwise the
     * list is re-fetched for its text (the empty text fetches everything).
     */
    method UpdateSearchResults(searchBarText: Option<string>, fetchFails: bool)
      requires Valid()
      modifies this`fetchText, this`fetched, this`restaurants, this`applied, this`appliedAnimated, this`emptyViewHidden
      ensures Valid()
      ensures searchBarText.None? ==>
        fetchText == old(fetchText) && fetched == old(fetched) && restaurants == old(restaurants) &&
        applied == old(applied) && appliedAnimated == old(appliedAnimated)
      ensures searchBarText.Some? && !fetchFails ==>
        fetchText == searchBarText.value && restaurants == Query(store, objects, searchBarText.value, fold, nameLe) &&
        fetched == Some(restaurants) && applied == SingleSection(restaurants) &&
        appliedAnimated == (searchBarText.value != "")
      ensures searchBarText.Some? && fetchFails ==>
        fetchText == searchBarText.value && fetched == None && restaurants == old(restaurants) &&
        applied == old(applied) && appliedAnimated == old(appliedAnimated)
    {
      if searchBarText.None? {
        return;
      }
      FetchRestaurantData(searchBarText.value, fetchFails);
    }

    /** `viewDidAppear`: the walkthrough is presented only while it has not been viewed. */
    method ViewDidAppear() returns (presentWalkthrough: bool)
      ensures presentWalkthrough == !defaults.hasViewedWalkthrough
    {
      if defaults.hasViewedWalkthrough {
        return false;
      }
      presentWalkthrough := true;
    }

    // ------------------------------------------------------------ row actions

    /** The trailing swipe actions: none while searching or for a row without an item, else delete then share. */
    function TrailingActions(row: nat): (actions: seq<SwipeAction>)
      requires ListValid()
      reads this
      ensures searchActive ==> actions == []
      ensures actions == [] || actions == [DeleteAction, ShareAction]
      ensures actions != [] <==> !searchActive && row < |restaurants|
    {
      RowsAreRestaurants();
      if searchActive then []
      else if ItemIdentifier(applied, row).None? then []
      else [DeleteAction, ShareAction]
    }

    /** The leading swipe action: one favourite toggle whose icon shows the row's current state. */
    function LeadingActions(row: nat): (actions: seq<SwipeAction>)
      requires ListValid() && row < |restaurants|
      reads this
      ensures |actions| == 1 && actions[0].FavoriteAction?
      ensures actions[0].icon == "heart.slash.fill" <==> objects[restaurants[row]].isFavorite
      ensures !objects[restaurants[row]].isFavorite ==> actions[0].icon == "heart.fill"
    {
      [FavoriteAction(FavoriteIcon(objects[restaurants[row]].isFavorite))]
    }

    /** The context menu: none for a row without an item, else favourite, share, delete (also while searching). */
    function ContextMenu(row: nat): (menu: Option<seq<MenuAction>>)
      requires ListValid()
      reads this
      ensures menu.Some? <==> row < |restaurants|
      ensures menu.Some? ==> menu.value == [SaveAsFavorite, ShareMenuAction, DeleteMenuAction]
    {
      RowsAreRestaurants();
      if ItemIdentifier(applied, row).None? then None
      else Some([SaveAsFavorite, ShareMenuAction, DeleteMenuAction])
    }

    /** The default text of the swipe and menu share actions for a row. */
    function ShareMessage(row: nat): (text: string)
      requires ListValid() && row < |restaurants|
      reads this
      ensures SharedName(text) == Some(objects[restaurants[row]].name)
    {
      ShareTextRoundTrip(objects[restaurants[row]].name);
      ShareText(objects[restaurants[row]].name)
    }

    /**
     * The favourite toggle of the leading swipe and of the context menu: flips the
     * row's `isFavorite` on the shared object (without saving) and returns the new
     * hidden state of the row's heart indicator.
     */
    method ToggleFavorite(row: nat) returns (indicatorHidden: bool)
      requires Valid() && row < |restaurants|
      modifies this`objects
      ensures Valid()
      ensures var id := restaurants[row];
        objects == old(objects)[id := old(objects)[id].(isFavorite := !old(objects)[id].isFavorite)]
      ensures objects[restaurants[row]].isFavorite == !old(objects)[restaurants[row]].isFavorite
      ensures indicatorHidden == !objects[restaurants[row]].isFavorite
      ensures forall j :: 0 <= j < |restaurants| && j != row ==> objects[restaurants[j]] == old(objects)[restaurants[j]]
    {
      var id := restaurants[row];
      var before := objects;
      indicatorHidden := objects[id].isFavorite;
      objects := objects[id := objects[id].(isFavorite := if objects[id].isFavorite then false else true)];
      assert SameSearchKeys(before, objects);
      QueryIgnoresOtherAttributes(store, before, objects, fetchText, fold, nameLe);
      forall j | 0 <= j < |restaurants| && j != row
        ensures objects[restaurants[j]] == before[restaurants[j]]
      {
        assert restaurants[j] != restaurants[row];
      }
    }

    /** `context.delete`: the object leaves the store; deleting an already deleted object changes nothing. */
    method DeleteObject(target: Id)
      requires StoreValid()
      modifies this`store
      ensures StoreValid() && store == RemoveId(old(store), target)
    {
      RemoveIdNoDuplicates(store, target);
      RemoveIdMembers(store, target);
      store := RemoveId(store, target);
    }

    /** `saveContext`: persists the context's current objects, favourite flips included. */
    method SaveContext()
      modifies this`saved
      ensures saved == SavedContents(store, objects)
    {
      saved := SavedContents(store, objects);
    }

    /**
     * The context saved the deletion of `deleted` (the store was `before`): a
     * fetched-results controller that has fetched drops that object from its
     * fetched objects, keeping the others in their order, and tells its delegate;
     * one that has not does nothing. Dropping the object gives the same result as
     * running the request again on the new store (`QueryAfterDelete`).
     */
    method ContextDidChange(deleted: Id, ghost before: seq<Id>)
      requires StoreValid() && ListValid() && store == RemoveId(before, deleted)
      requires fetched.Some? ==> fetched.value == Query(before, objects, fetchText, fold, nameLe) && deleted in fetched.value
      modifies this`fetched, this`restaurants, this`applied, this`appliedAnimated, this`emptyViewHidden
      ensures Valid()
      ensures old(fetched).Some? ==>
        fetched == Some(RemoveId(old(fetched).value, deleted)) &&
        restaurants == fetched.value && applied == SingleSection(restaurants) && !appliedAnimated
      ensures old(fetched).None? ==>
        fetched == None && restaurants == old(restaurants) && applied == old(applied) &&
        appliedAnimated == old(appliedAnimated)
    {
      if fetched.Some? {
        QueryAfterDelete(before, objects, fetchText, fold, nameLe, deleted);
        fetched := Some(RemoveId(fetched.value, deleted));
        ControllerDidChangeContent();
      }
    }

    /** `searchController.isActive` changes when the user starts or ends a search. */
    method SetSearchActive(active: bool)
      modifies this`searchActive
      ensures searchActive == active
    {
      searchActive := active;
    }

    /**
     * The trailing swipe's delete action: deletes the row's restaurant, saves, and
     * re-snapshots with animation. When a fetch is live, the row disappears and the
     * others keep their order.
     */
    method SwipeDelete(row: nat)
      requires Valid() && TrailingActions(row) == [DeleteAction, ShareAction]
      modifies this`store, this`saved, this`fetched, this`restaurants, this`applied, this`appliedAnimated,
        this`emptyViewHidden
      ensures Valid()
      ensures store == RemoveId(old(store), old(restaurants)[row]) && saved == SavedContents(store, objects)
      ensures old(fetched).Some? ==>
        fetched == Some(restaurants) && restaurants == old(restaurants)[..row] + old(restaurants)[row + 1..]
      ensures old(fetched).None? ==> fetched == None && restaurants == old(restaurants)
      ensures applied == SingleSection(restaurants) && appliedAnimated
    {
      RowsAreRestaurants();
      var target := ItemIdentifier(applied, row).value;
      ghost var listed, before := restaurants, store;
      RemoveIdCutsPosition(listed, row);
      DeleteObject(target);
      SaveContext();
      ContextDidChange(target, before);
      UpdateSnapshot(true);
    }

    /**
     * The context menu's delete action: deletes the fetched object at the row and
     * saves; the re-snapshot comes from the change notification alone. Unlike the
     * swipe action it is offered while searching too.
     */
    method ContextMenuDelete(row: nat)
      requires Valid() && fetched.Some? && row < |fetched.value|
      modifies this`store, this`saved, this`fetched, this`restaurants, this`applied, this`appliedAnimated,
        this`emptyViewHidden
      ensures Valid()
      ensures store == RemoveId(old(store), old(fetched).value[row]) && saved == SavedContents(store, objects)
      ensures fetched == Some(restaurants) && restaurants == old(restaurants)[..row] + old(restaurants)[row + 1..]
      ensures applied == SingleSection(restaurants) && !appliedAnimated
    {
      ghost var listed, before := fetched.value, store;
      var target := fetched.value[row];
      RemoveIdCutsPosition(listed, row);
      DeleteObject(target);
      SaveContext();
      ContextDidChange(target, before);
    }

    /**
     * `prepareNotification`: nothing for an empty list; otherwise picks any row and
     * builds the recommendation for that restaurant.
     */
    method PrepareNotification() returns (suggestion: Option<Suggested>)
      requires ListValid()
      ensures suggestion.None? <==> restaurants == []
      ensures suggestion.Some? ==>
        var row := suggestion.value.row;
        row < |restaurants| &&
        suggestion.value.notification == Suggestion(objects[restaurants[row]]) &&
        Contains(suggestion.value.notification.body, objects[restaurants[row]].name) &&
        Contains(suggestion.value.notification.body, objects[restaurants[row]].location)
    {
      if |restaurants| <= 0 {
        return None;
      }
      var pick: nat :| pick < |restaurants|;
      var suggested := objects[restaurants[pick]];
      SuggestionMentionsRestaurant(suggested);
      suggestion := Some(Suggested(pick, Suggestion(suggested)));
    }
  }
}
