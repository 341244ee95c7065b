/**
 * How the service's records look to the client screens: the JSON the service sends for an
 * event, and what the Home list, the details screen and the creation screen make of it.
 */
module Scenarios {
  import opened Wrappers
  import opened Strings
  import opened JsValues
  import BackendMain
  import HomeScreen
  import EventDetailsScreen
  import CreateEventScreen

  /** The JSON object the `Event` response model serialises a stored record to. */
  function EventJson(r: BackendMain.EventRecord): (j: Json)
    ensures j.JObj?
    ensures Member(Some(j), "id") == Some(JNum(r.id))
    ensures Member(Some(j), "title") == Some(JStr(r.title))
    ensures Member(Some(j), "date") == Some(JStr(r.date))
    ensures Member(Some(j), "time") == Some(JStr(r.time))
  {
    JObj(map[
      "id" := JNum(r.id), "title" := JStr(r.title), "time" := JStr(r.time),
      "date" := JStr(r.date), "location" := JStr(r.location),
      "description" := JStr(r.description),
      "image_url" := if r.imageUrl.Some? then JStr(r.imageUrl.value) else JNull])
  }

  /** The body of `GET /events/`: the store in order. */
  function ListJson(events: seq<BackendMain.EventRecord>): (items: seq<Json>)
    ensures |items| == |events|
    ensures forall i | 0 <= i < |events| :: items[i] == EventJson(events[i])
  {
    seq(|events|, i requires 0 <= i < |events| => EventJson(events[i]))
  }

  /** A refresh that receives the store shows exactly the store, in the service's order, and
      every card gets its own key because the service keeps ids unique. */
  lemma RefreshShowsStoreWithDistinctKeys(events: seq<BackendMain.EventRecord>, ok: bool)
    requires BackendMain.IdsUnique(events)
    ensures HomeScreen.RefreshedEvents(Responded(ok, Parsed(JArr(ListJson(events))))) == ListJson(events)
    ensures var shown := ListJson(events);
      forall i, j | 0 <= i < |shown| && 0 <= j < |shown| && i != j ::
        HomeScreen.CardKey(shown[i]) != HomeScreen.CardKey(shown[j])
  {
    var shown := ListJson(events);
    forall i, j | 0 <= i < |shown| && 0 <= j < |shown| && i != j
      ensures HomeScreen.CardKey(shown[i]) != HomeScreen.CardKey(shown[j])
    {
      HomeScreen.DistinctIdsDistinctKeys(shown[i], shown[j], events[i].id, events[j].id);
    }
  }

  /** The details screen opened with a stored record's id selects exactly that record. */
  lemma DetailsSelectStoredRecord(events: seq<BackendMain.EventRecord>, k: nat)
    requires BackendMain.IdsUnique(events) && k < |events|
    ensures var id := Some(JNum(events[k].id));
      EventDetailsScreen.LoadResultOf(Responded(true, Parsed(JArr(ListJson(events)))), id)
        == EventDetailsScreen.LoadResult(Some(EventJson(events[k])), EventDetailsScreen.Silent)
  {
    var items := ListJson(events);
    var id := Some(JNum(events[k].id));
    assert EventDetailsScreen.IdMatches(items[k], id);
    forall j | 0 <= j < |items| && j != k ensures !EventDetailsScreen.IdMatches(items[j], id) {
      assert events[j].id != events[k].id;
    }
    var stop := EventDetailsScreen.FindStop(items, id);
    assert stop == k;
  }

  /** A record the service created and returned reaches the Home list in front of what was
      shown, keyed by its id; the list then holds it together with everything shown before. */
  lemma CreatedRecordReachesHome(rec: BackendMain.EventRecord, shown: seq<Json>)
    ensures var effect := CreateEventScreen.CreateEffectOf(Responded(true, Parsed(EventJson(rec))));
      && effect.Created?
      && effect.params.refresh
      && var after := HomeScreen.WithNewEvent(shown, Some(effect.params.newEvent));
      && after == [EventJson(rec)] + shown
      && HomeScreen.CardKey(after[0]) == Some(IntToString(rec.id))
  {
  }

  /** A creation whose response body could not be read leaves the Home list as it was: the
      `null` handed over is not truthy. */
  lemma UnreadableCreateLeavesHome(shown: seq<Json>)
    ensures var effect := CreateEventScreen.CreateEffectOf(Responded(true, Unparseable));
      effect.Created? && HomeScreen.WithNewEvent(shown, Some(effect.params.newEvent)) == shown
  {
  }

  /** A list of `[a]`, then the creation of `b`, shows `[b, a]`; the next refresh returning
      `[a, b]` shows exactly `[a, b]`, in the service's order, with `b` not kept at the head. */
  lemma InsertThenRefresh(a: BackendMain.EventRecord, b: BackendMain.EventRecord)
    ensures var first := HomeScreen.RefreshedEvents(Responded(true, Parsed(JArr(ListJson([a])))));
      HomeScreen.WithNewEvent(first, Some(EventJson(b))) == [EventJson(b), EventJson(a)]
    ensures HomeScreen.RefreshedEvents(Responded(true, Parsed(JArr(ListJson([a, b])))))
      == [EventJson(a), EventJson(b)]
  {
    assert ListJson([a]) == [EventJson(a)];
    assert ListJson([a, b]) == [EventJson(a), EventJson(b)];
  }
}
