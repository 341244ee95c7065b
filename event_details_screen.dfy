/**
 * The event details screen (frontend/screens/EventDetailsScreen.js): selecting the event
 * with the route's id from the fetched list, the local registration toggle that changes only
 * when the user confirms the dialog, and the text handed to the share sheet.
 */
module EventDetailsScreen {
  import opened Wrappers
  import opened Strings
  import opened JsValues

  /** Does `e.id === eventId` hold for a list element? (For `null` the access throws.) */
  predicate IdMatches(e: Json, eventId: JsValue) {
    e != JNull && StrictEquals(Member(Some(e), "id"), eventId)
  }

  /** Where `find` stops: at the first element that matches or is `null`, or at the end. */
  function FindStop(events: seq<Json>, eventId: JsValue): (k: nat)
    ensures k <= |events|
    ensures forall j | 0 <= j < k :: events[j] != JNull && !IdMatches(events[j], eventId)
    ensures k < |events| ==> events[k] == JNull || IdMatches(events[k], eventId)
  {
    if |events| == 0 then 0
    else if events[0] == JNull || IdMatches(events[0], eventId) then 0
    else 1 + FindStop(events[1..], eventId)
  }

  datatype FindResult = Found(event: Json) | NotFound | FindThrew

  /** `events.find(e => e.id === eventId)`: the first element with that id; the search throws
      when it reaches a `null` element first. */
  function FindById(events: seq<Json>, eventId: JsValue): (r: FindResult)
    ensures r.Found? ==> exists k | 0 <= k < |events| ::
      && r.event == events[k]
      && IdMatches(events[k], eventId)
      && forall j | 0 <= j < k :: !IdMatches(events[j], eventId)
    ensures r.NotFound? <==> forall k | 0 <= k < |events| :: events[k] != JNull && !IdMatches(events[k], eventId)
    ensures r.FindThrew? <==> exists k | 0 <= k < |events| ::
      && events[k] == JNull
      && forall j | 0 <= j < k :: !IdMatches(events[j], eventId)
  {
    var k := FindStop(events, eventId);
    if k == |events| then NotFound
    else if events[k] == JNull then FindThrew
    else Found(events[k])
  }

  /** What the screen does besides storing the event. */
  datatype LoadEffect =
    | Silent                  // nothing shown
    | NotFoundAndBack         // 'Event not found' alert, then back to the previous screen
    | LoadFailed              // 'Failed to load event details' alert

  /** The event found (to be stored; `None` leaves the state alone) and the effect. */
  datatype LoadResult = LoadResult(found: Option<Json>, effect: LoadEffect)

  /** `fetchEventDetails` after the response. A non-ok response is ignored altogether; a body
      that is not JSON, is not an array, or holds a `null` before the match makes the code
      throw into the catch block; a match that is falsy counts as not found. */
  function LoadResultOf(outcome: FetchOutcome, eventId: JsValue): (r: LoadResult)
    ensures outcome.Responded? && !outcome.ok ==> r == LoadResult(None, Silent)
    ensures outcome.Threw? ==> r == LoadResult(None, LoadFailed)
    ensures r.found.Some? ==>
      && outcome.Responded? && outcome.ok && outcome.body.Parsed? && outcome.body.value.JArr?
      && FindById(outcome.body.value.items, eventId) == Found(r.found.value)
      && Truthy(r.found)
      && r.effect == Silent
    ensures outcome.Responded? && outcome.ok && (outcome.body.Unparseable? || !outcome.body.value.JArr?)
      ==> r == LoadResult(None, LoadFailed)
    ensures outcome.Responded? && outcome.ok && outcome.body.Parsed? && outcome.body.value.JArr? ==>
      var found := FindById(outcome.body.value.items, eventId);
      && (found.Found? && Truthy(Some(found.event)) ==> r == LoadResult(Some(found.event), Silent))
      && (found.Found? && !Truthy(Some(found.event)) ==> r == LoadResult(None, NotFoundAndBack))
      && (found.NotFound? ==> r == LoadResult(None, NotFoundAndBack))
      && (found.FindThrew? ==> r == LoadResult(None, LoadFailed))
  {
    match outcome
    case Responded(false, _) => LoadResult(None, Silent)
    case Responded(true, Unparseable) => LoadResult(None, LoadFailed)
    case Responded(true, Parsed(data)) =>
      if !data.JArr? then LoadResult(None, LoadFailed)   // `events.find` is not a function
      else (match FindById(data.items, eventId)
        case Found(e) =>
          if Truthy(Some(e)) then LoadResult(Some(e), Silent) else LoadResult(None, NotFoundAndBack)
        case NotFound => LoadResult(None, NotFoundAndBack)
        case FindThrew => LoadResult(None, LoadFailed))
    case Threw(_) => LoadResult(None, LoadFailed)
  }

  /** In a list of objects, a number id selects the first event carrying it, and the screen
      goes back exactly when no event carries it. */
  lemma SelectsFirstWithNumericId(events: seq<Json>, id: int)
    requires forall k | 0 <= k < |events| :: events[k].JObj?
    ensures var r := LoadResultOf(Responded(true, Parsed(JArr(events))), Some(JNum(id)));
      && (r.found.Some? <==> exists k | 0 <= k < |events| :: Member(Some(events[k]), "id") == Some(JNum(id)))
      && (r.effect == NotFoundAndBack <==> !exists k | 0 <= k < |events| :: Member(Some(events[k]), "id") == Some(JNum(id)))
  {
    var f := FindById(events, Some(JNum(id)));
    forall k | 0 <= k < |events|
      ensures IdMatches(events[k], Some(JNum(id))) <==> Member(Some(events[k]), "id") == Some(JNum(id))
    {
    }
  }

  // ---------------------------------------------------------------------------------------
  // Registration.

  datatype Choice = Cancel | Confirm

  /** The confirmation dialog: its title, message and the label of its confirming button. */
  datatype Dialog = Dialog(title: string, message: string, confirmLabel: string)

  /** The dialog `handleRegister` opens: Unregister when registered, Register otherwise; its
      confirming button carries the dialog's own title. */
  function RegisterDialog(registered: bool): (d: Dialog)
    ensures d.confirmLabel == d.title
    ensures registered <==> d.title == "Unregister"
    ensures !registered <==> d.title == "Register"
  {
    if registered then
      Dialog("Unregister", "Are you sure you want to unregister from this event?", "Unregister")
    else
      Dialog("Register", "Would you like to register for this event?", "Register")
  }

  /** The state after the dialog closes: the confirming button of the Unregister dialog sets
      `false`, that of the Register dialog sets `true`; Cancel sets nothing. */
  function AfterChoice(registered: bool, choice: Choice): (r: bool)
    ensures choice == Cancel ==> r == registered
    ensures choice == Confirm ==> r != registered
  {
    match choice
    case Cancel => registered
    case Confirm => if registered then false else true
  }

  /** Two confirmed toggles in a row come back to where they started. */
  lemma ConfirmTwiceRestores(registered: bool)
    ensures AfterChoice(AfterChoice(registered, Confirm), Confirm) == registered
  {
  }

  const RegisteredMessage := "You have been registered for this event!"

  // ---------------------------------------------------------------------------------------
  // Sharing.

  /** The argument of `Share.share`. */
  datatype ShareContent = ShareContent(message: string, title: JsValue)

  function ShareContentOf(e: Json): (content: ShareContent)
    ensures content.title == Member(Some(e), "title")
    ensures "Check out this event: " <= content.message
  {
    var v := Some(e);
    ShareContent(
      "Check out this event: " + ToJsString(Member(v, "title")) +
      "\n\nDate: " + ToJsString(Member(v, "date")) + " at " + ToJsString(Member(v, "time")) +
      "\nLocation: " + ToJsString(Member(v, "location")) +
      "\n\n" + ToJsString(Member(v, "description")),
      Member(v, "title"))
  }

  /** For an event whose fields are strings, the message is six lines joined by line breaks:
      the headline, a blank line, the date line, the location line, a blank line and the
      description; the share title is the event's title. */
  lemma ShareMessageLines(e: Json, title: string, date: string, time: string, location: string, description: string)
    requires Member(Some(e), "title") == Some(JStr(title))
    requires Member(Some(e), "date") == Some(JStr(date))
    requires Member(Some(e), "time") == Some(JStr(time))
    requires Member(Some(e), "location") == Some(JStr(location))
    requires Member(Some(e), "description") == Some(JStr(description))
    ensures ShareContentOf(e).message == Join(
      ["Check out this event: " + title, "", "Date: " + date + " at " + time,
       "Location: " + location, "", description], '\n')
    ensures ShareContentOf(e).title == Some(JStr(title))
  {
    var l1 := "Check out this event: " + title;
    var l3 := "Date: " + date + " at " + time;
    var l4 := "Location: " + location;
    assert ShareContentOf(e).message == l1 + "\n\n" + l3 + "\n" + l4 + "\n\n" + description;
    MessageShape(l1, l3, l4, description);
  }

  /** The template's literal line breaks put the lines together as `join('\n')` does. */
  lemma MessageShape(l1: string, l3: string, l4: string, d: string)
    ensures l1 + "\n\n" + l3 + "\n" + l4 + "\n\n" + d == Join([l1, "", l3, l4, "", d], '\n')
  {
    var nl := '\n';
    var lines := [l1, "", l3, l4, "", d];
    assert lines[1..] == ["", l3, l4, "", d];
    assert lines[1..][1..] == [l3, l4, "", d];
    assert lines[1..][1..][1..] == [l4, "", d];
    assert lines[1..][1..][1..][1..] == ["", d];
    assert lines[1..][1..][1..][1..][1..] == [d];
    var t5 := Join([d], nl);
    assert t5 == d;
    var t4 := Join(["", d], nl);
    assert t4 == "" + [nl] + t5;
    var t3 := Join([l4, "", d], nl);
    assert t3 == l4 + [nl] + t4;
    var t2 := Join([l3, l4, "", d], nl);
    assert t2 == l3 + [nl] + t3;
    var t1 := Join(["", l3, l4, "", d], nl);
    assert t1 == "" + [nl] + t2;
    assert Join(lines, nl) == l1 + [nl] + t1;
  }

  // ---------------------------------------------------------------------------------------
  // The screen.

  class EventDetailsScreen {
    const eventId: JsValue
    var event: Option<Json>     // `None` is `null`
    var loading: bool
    var isRegistered: bool

    /** A freshly opened screen: no event yet, loading, not registered. */
    constructor (eventId: JsValue)
      ensures this.eventId == eventId
      ensures event == None && loading && !isRegistered
    {
      this.eventId := eventId;
      event := None;
      loading := true;
      isRegistered := false;
    }

    /** The effect after the list request settles: the event is stored only when found, and
        `loading` ends false in every outcome. */
    method FetchSettled(outcome: FetchOutcome) returns (effect: LoadEffect)
      modifies this
      ensures var r := LoadResultOf(outcome, eventId);
        && event == (if r.found.Some? then r.found else old(event))
        && effect == r.effect
      ensures !loading && isRegistered == old(isRegistered)
    {
      var r := LoadResultOf(outcome, eventId);
      if r.found.Some? {
        event := r.found;
      }
      effect := r.effect;
      loading := false;
    }

    /** `handleRegister` together with the user's answer to the dialog it opens. */
    method HandleRegister(choice: Choice) returns (dialog: Dialog, successAlert: bool)
      modifies this
      ensures dialog == RegisterDialog(old(isRegistered))
      ensures isRegistered == AfterChoice(old(isRegistered), choice)
      ensures successAlert <==> !old(isRegistered) && choice == Confirm
      ensures event == old(event) && loading == old(loading)
    {
      dialog := RegisterDialog(isRegistered);
      successAlert := false;
      if choice == Confirm {
        if isRegistered {
          isRegistered := false;
        } else {
          isRegistered := true;
          successAlert := true;
        }
      }
    }

    /** `handleShare`; the share button is only rendered once an event is stored. */
    method Share() returns (content: ShareContent)
      requires event.Some? && event.value != JNull
      ensures content == ShareContentOf(event.value)
    {
      content := ShareContentOf(event.value);
    }
  }
}
