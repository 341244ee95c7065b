/**
 * The Home tab (frontend/screens/HomeScreen.js): the event list it refreshes from the
 * service on every focus, the event handed over by the creation screen and put in front of
 * the list, and the date text and list key derived for each card.
 */
module HomeScreen {
  import opened Wrappers
  import opened Strings
  import opened JsValues

  const EventsPath := "/events/"

  /** The list after a fetch settles: the parsed body when it is an array, otherwise empty.
      The status is never consulted, and a thrown error (transport failure or a body that is
      not JSON) empties the list rather than keeping what was shown before. */
  function RefreshedEvents(outcome: FetchOutcome): (events: seq<Json>)
    ensures (outcome.Responded? && outcome.body.Parsed? && outcome.body.value.JArr?) ==>
      events == outcome.body.value.items
    ensures !(outcome.Responded? && outcome.body.Parsed? && outcome.body.value.JArr?) ==>
      events == []
  {
    match outcome
    case Responded(_, Parsed(JArr(items))) => items
    case Responded(_, _) => []
    case Threw(_) => []
  }

  /** An error response whose body is an array is shown like a success. */
  lemma StatusNotConsulted(body: BodyRead, ok1: bool, ok2: bool)
    ensures RefreshedEvents(Responded(ok1, body)) == RefreshedEvents(Responded(ok2, body))
  {
  }

  /** The `newEvent` effect: a truthy event goes in front of the list; nothing else changes. */
  function WithNewEvent(events: seq<Json>, newEvent: JsValue): (r: seq<Json>)
    ensures Truthy(newEvent) ==> |r| == |events| + 1 && r[0] == newEvent.value && r[1..] == events
    ensures !Truthy(newEvent) ==> r == events
  {
    if Truthy(newEvent) then [newEvent.value] + events else events
  }

  /** Does `e.id === id` hold for a list element? */
  predicate HasId(e: Json, id: JsValue) {
    StrictEquals(Member(Some(e), "id"), id)
  }

  /** How many list elements carry the id `id`. */
  function CountWithId(events: seq<Json>, id: JsValue): nat {
    if |events| == 0 then 0
    else (if HasId(events[0], id) then 1 else 0) + CountWithId(events[1..], id)
  }

  /** The prepend does not look for the id in the list: an event already present is listed
      twice afterwards. */
  lemma {:induction false} PrependKeepsDuplicates(events: seq<Json>, e: Json)
    requires Truthy(Some(e)) && IsPrimitive(Member(Some(e), "id"))
    ensures var id := Member(Some(e), "id");
      CountWithId(WithNewEvent(events, Some(e)), id) == CountWithId(events, id) + 1
  {
    var r := WithNewEvent(events, Some(e));
    StrictEqualsReflexiveOnPrimitives(Member(Some(e), "id"));
    assert r[1..] == events;
  }

  /** The card's date line: date and time separated by a space when the time is truthy, else
      the date when that is truthy, else the empty string. */
  function DateText(e: Json): (text: JsValue)
    ensures text.Some?
    ensures Truthy(text) <==> Truthy(Member(Some(e), "time")) || Truthy(Member(Some(e), "date"))
  {
    var date := Member(Some(e), "date");
    var time := Member(Some(e), "time");
    if Truthy(time) then Some(JStr(ToJsString(date) + " " + ToJsString(time)))
    else if Truthy(date) then date
    else Some(JStr(""))
  }

  /** For an event whose date and time are strings, the text is `"<date> <time>"` when the time
      is non-empty, else the date. */
  lemma DateTextOfStrings(e: Json, date: string, time: string)
    requires Member(Some(e), "date") == Some(JStr(date))
    requires Member(Some(e), "time") == Some(JStr(time))
    ensures DateText(e) == Some(JStr(if time != "" then date + " " + time else date))
  {
  }

  /** The card's React key: the id as text when the id is neither null nor undefined, otherwise
      the title and the date line joined by `-`. Reading the id of a `null` element throws,
      which `None` stands for. */
  function CardKey(e: Json): (key: Option<string>)
    ensures key.None? <==> e == JNull
    ensures e != JNull && !IsNullish(Member(Some(e), "id")) ==>
      key == Some(ToJsString(Member(Some(e), "id")))
    ensures e != JNull && IsNullish(Member(Some(e), "id")) ==>
      key == Some(ToJsString(Member(Some(e), "title")) + "-" + ToJsString(DateText(e)))
  {
    if e == JNull then None
    else
      var id := Member(Some(e), "id");
      if !IsNullish(id) then Some(ToJsString(id))
      else Some(ToJsString(Member(Some(e), "title")) + "-" + ToJsString(DateText(e)))
  }

  /** Events with distinct integer ids get distinct keys. */
  lemma DistinctIdsDistinctKeys(e1: Json, e2: Json, a: int, b: int)
    requires e1.JObj? && e2.JObj?
    requires Member(Some(e1), "id") == Some(JNum(a)) && Member(Some(e2), "id") == Some(JNum(b))
    requires a != b
    ensures CardKey(e1) != CardKey(e2)
  {
    if CardKey(e1) == CardKey(e2) {
      IntToStringInjective(a, b);
    }
  }

  /** One event card's props. */
  datatype Card = Card(key: string, title: JsValue, dateText: JsValue, location: JsValue)

  /** What the "Upcoming Events" section shows. `RenderError` stands for the exception a
      `null` element raises while the cards are built. */
  datatype EventsView = LoadingIndicator | NoEvents | Cards(cards: seq<Card>) | RenderError

  function CardOf(e: Json): (card: Card)
    requires e != JNull
    ensures Some(card.key) == CardKey(e)
    ensures card.title == Member(Some(e), "title") && card.dateText == DateText(e)
    ensures Truthy(card.location) || card.location == Some(JStr(""))
    ensures Truthy(Member(Some(e), "location")) ==> card.location == Member(Some(e), "location")
  {
    var location := Member(Some(e), "location");
    Card(CardKey(e).value, Member(Some(e), "title"), DateText(e),
         if Truthy(location) then location else Some(JStr("")))
  }

  /** The section: a spinner while loading, the empty state for an empty list, otherwise one
      card per event in list order. */
  function View(events: seq<Json>, loading: bool): (v: EventsView)
    ensures loading <==> v.LoadingIndicator?
    ensures !loading && |events| == 0 <==> v.NoEvents?
    ensures !loading && |events| > 0 && JNull in events <==> v.RenderError?
    ensures v.Cards? ==>
      && |v.cards| == |events|
      && forall i | 0 <= i < |events| :: Some(v.cards[i].key) == CardKey(events[i])
    ensures v.Cards? ==> forall i | 0 <= i < |events| ::
      && v.cards[i].title == Member(Some(events[i]), "title")
      && v.cards[i].dateText == DateText(events[i])
      && v.cards[i].location == (var loc := Member(Some(events[i]), "location");
                                 if Truthy(loc) then loc else Some(JStr("")))
  {
    if loading then LoadingIndicator
    else if |events| == 0 then NoEvents
    else if JNull in events then RenderError
    else Cards(seq(|events|, i requires 0 <= i < |events| => CardOf(events[i])))
  }

  /** The screen's state. `fetchesIssued` counts the list requests sent, so that the effect of a
      focus can be stated. */
  class HomeScreen {
    var events: seq<Json>
    var loading: bool
    ghost var fetchesIssued: nat

    constructor ()
      ensures events == [] && !loading && fetchesIssued == 0
    {
      events, loading := [], false;
      fetchesIssued := 0;
    }

    /** The focus listener calls `fetchEvents`: `setLoading(true)` and one GET request. */
    method OnFocus() returns (path: string)
      modifies this
      ensures path == EventsPath
      ensures loading && events == old(events)
      ensures fetchesIssued == old(fetchesIssued) + 1
    {
      loading := true;
      fetchesIssued := fetchesIssued + 1;
      path := EventsPath;
    }

    /** The rest of `fetchEvents`: the list is replaced wholesale and `loading` ends false,
        whatever the outcome. */
    method FetchSettled(outcome: FetchOutcome)
      modifies this
      ensures events == RefreshedEvents(outcome)
      ensures !loading && fetchesIssued == old(fetchesIssued)
    {
      match outcome {
        case Responded(_, Parsed(data)) =>
          events := if data.JArr? then data.items else [];
        case Responded(_, Unparseable) =>
          events := [];
        case Threw(_) =>
          events := [];
      }
      loading := false;
    }

    /** The `newEvent` route-parameter effect; `clearParam` tells whether it then resets the
        parameter so that later focuses do not add the event again. */
    method NewEventParam(newEvent: JsValue) returns (clearParam: bool)
      modifies this
      ensures events == WithNewEvent(old(events), newEvent)
      ensures clearParam == Truthy(newEvent)
      ensures loading == old(loading) && fetchesIssued == old(fetchesIssued)
    {
      clearParam := Truthy(newEvent);
      if clearParam {
        events := [newEvent.value] + events;
      }
    }
  }
}
