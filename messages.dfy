/**
 * The texts the list controller produces from a record: the share message and
 * the content of the restaurant-suggestion notification.
 */
module Messages {
  import opened Wrappers
  import opened Text
  import opened RestaurantQuery

  const ShareIntro := "Just checking in at "

  /** The default text of both share actions. */
  function ShareText(name: string): (text: string)
    ensures ShareIntro <= text && text[|ShareIntro|..] == name
  {
    ShareIntro + name
  }

  /** Reads the restaurant name back off a share text; `None` if the text is not one. */
  function SharedName(text: string): Option<string> {
    if ShareIntro <= text then Some(text[|ShareIntro|..]) else None
  }

  /** The share text determines the name it was made from. */
  lemma ShareTextRoundTrip(name: string)
    ensures SharedName(ShareText(name)) == Some(name)
  {
  }

  datatype NotificationAction = NotificationAction(identifier: string, title: string, foreground: bool)

  /** A scheduled local notification: its content, its category and its one-shot trigger. */
  datatype Notification = Notification(
    requestIdentifier: string,
    title: string,
    subtitle: string,
    body: string,
    defaultSound: bool,      // `UNNotificationSound.default`
    phone: string,
    categoryIdentifier: string,
    actions: seq<NotificationAction>,
    delaySeconds: nat,
    repeats: bool)

  const SuggestionCategory := "foodpin.restaurantaction"
  const SuggestionActions := [
    NotificationAction("foodpin.makeReservation", "Reserve a table", true),
    NotificationAction("foodpin.cancel", "Later", false)]

  const BodyOpening := "I recommend you to check out "
  const BodyMiddle := ". The restaurant is one of your favorites. It is located at "
  const BodyClosing := ". Would you like to give it a try?"

  function SuggestionBody(r: Restaurant): string {
    BodyOpening + r.name + BodyMiddle + r.location + BodyClosing
  }

  /** The recommendation for `r`: fixed title, subtitle and category, a body about `r`, the default sound, and a 10-second one-shot trigger. */
  function Suggestion(r: Restaurant): (n: Notification)
    ensures n.requestIdentifier == "foodpin.restaurantSuggestion"
    ensures n.body == SuggestionBody(r) && n.defaultSound && n.phone == r.phone
    ensures n.title == "Restaurant Recommendation" && n.subtitle == "Try new food today"
    ensures n.categoryIdentifier == SuggestionCategory && n.actions == SuggestionActions
    ensures n.delaySeconds == 10 && !n.repeats
  {
    Notification("foodpin.restaurantSuggestion", "Restaurant Recommendation", "Try new food today",
      SuggestionBody(r), true, r.phone, SuggestionCategory, SuggestionActions, 10, false)
  }

  /** The suggestion body names the restaurant and gives its location. */
  lemma SuggestionMentionsRestaurant(r: Restaurant)
    ensures Contains(SuggestionBody(r), r.name)
    ensures Contains(SuggestionBody(r), r.location)
  {
    var body := SuggestionBody(r);
    assert body == BodyOpening + r.name + (BodyMiddle + r.location + BodyClosing);
    ContainsInfix(BodyOpening, r.name, BodyMiddle + r.location + BodyClosing);
    assert body == (BodyOpening + r.name + BodyMiddle) + r.location + BodyClosing;
    ContainsInfix(BodyOpening + r.name + BodyMiddle, r.location, BodyClosing);
  }
}
