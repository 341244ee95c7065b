/**
 * The FastAPI service's in-memory endpoints (backend/main.py): user registration and login
 * against the module-level `users_db` list, and the event list `events_db` that
 * `get_events` returns and the two creation endpoints append to, each allocating the next id
 * as one more than the largest id stored.
 */
module BackendMain {
  import opened Wrappers
  import opened Strings

  /** A `User` body as `register` stores it (`user.dict()`). */
  datatype User = User(username: string, email: string, password: string)

  /** One entry of `events_db`. */
  datatype EventRecord = EventRecord(
    id: int, title: string, time: string, date: string, location: string, description: string,
    imageUrl: Option<string>)

  /** An `HTTPException`: the status code and the `detail` text. */
  datatype HttpError = HttpError(status: int, detail: string)

  /** What an endpoint does: return a value, or raise an `HTTPException`. */
  datatype Response<T> = Ok(value: T) | Raised(error: HttpError)

  /** The `{"success": …, "message": …}` bodies of `register` and `login`. */
  datatype Reply = Reply(success: bool, message: string)

  const UserExists := HttpError(400, "User already exists")
  const NotAnImage := HttpError(400, "File must be an image")
  const Registered := Reply(true, "User registered successfully")
  const LoginOk := Reply(true, "Login successful")
  const LoginFailed := Reply(false, "Invalid email or password")

  /** The two events the service starts with. */
  const InitialEvents: seq<EventRecord> := [
    EventRecord(1, "React Native Workshop", "10:00", "2024-07-01", "Tech Hub",
                "Learn React Native basics", None),
    EventRecord(2, "FastAPI Webinar", "14:00", "2024-07-10", "Online",
                "FastAPI best practices", None)
  ]

  // ---------------------------------------------------------------------------------------
  // Store invariants.

  /** Ids grow strictly along the list: every record was appended with an id above all the
      ids before it. */
  ghost predicate IdsAscending(events: seq<EventRecord>) {
    forall i, j | 0 <= i < j < |events| :: events[i].id < events[j].id
  }

  ghost predicate IdsUnique(events: seq<EventRecord>) {
    forall i, j | 0 <= i < |events| && 0 <= j < |events| && i != j :: events[i].id != events[j].id
  }

  lemma AscendingIdsAreUnique(events: seq<EventRecord>)
    requires IdsAscending(events)
    ensures IdsUnique(events)
  {
    forall i, j | 0 <= i < |events| && 0 <= j < |events| && i != j
      ensures events[i].id != events[j].id
    {
      if i < j { assert events[i].id < events[j].id; } else { assert events[j].id < events[i].id; }
    }
  }

  /** No two registered users share an e-mail address. */
  ghost predicate EmailsUnique(users: seq<User>) {
    forall i, j | 0 <= i < j < |users| :: users[i].email != users[j].email
  }

  /** `id` lies above every id of `events`. */
  ghost predicate AboveAll(events: seq<EventRecord>, id: int) {
    forall i | 0 <= i < |events| :: events[i].id < id
  }

  /** The id a new event gets: one more than the largest stored id, counting the largest as 0
      when the store is empty; so 1 for an empty store, otherwise one more than an id present,
      and above all of them. */
  ghost predicate IsNextId(events: seq<EventRecord>, id: int) {
    && AboveAll(events, id)
    && (|events| == 0 ==> id == 1)
    && (|events| > 0 ==> exists i | 0 <= i < |events| :: id == events[i].id + 1)
  }

  /** The initial store holds exactly ids 1 and 2, in that order, without images. */
  lemma InitialEventsShape()
    ensures |InitialEvents| == 2
    ensures InitialEvents[0].id == 1 && InitialEvents[1].id == 2
    ensures forall i | 0 <= i < |InitialEvents| :: InitialEvents[i].imageUrl == None
    ensures IdsAscending(InitialEvents) && IdsUnique(InitialEvents)
  {
    AscendingIdsAreUnique(InitialEvents);
  }

  /** Appending a record whose id lies above all present ids keeps the ids ascending. */
  lemma AppendAboveAllKeepsAscending(events: seq<EventRecord>, rec: EventRecord)
    requires IdsAscending(events) && AboveAll(events, rec.id)
    ensures IdsAscending(events + [rec])
  {
  }

  // ---------------------------------------------------------------------------------------
  // The scans over the lists.

  /** Whether some stored user already has the address: the scan `register` makes. */
  method AnyWithEmail(users: seq<User>, email: string) returns (found: bool)
    ensures found <==> exists i | 0 <= i < |users| :: users[i].email == email
  {
    found := false;
    var k := 0;
    while k < |users| && !found
      invariant 0 <= k <= |users|
      invariant found <==> exists i | 0 <= i < k :: users[i].email == email
    {
      found := users[k].email == email;
      k := k + 1;
    }
  }

  /** The scan `login` makes: the index of the first stored user with both the e-mail address
      and the password, if there is one. */
  method FirstWithCredentials(users: seq<User>, email: string, password: string)
    returns (found: Option<nat>)
    ensures found.Some? ==>
      && found.value < |users|
      && users[found.value].email == email && users[found.value].password == password
      && forall j | 0 <= j < found.value :: !(users[j].email == email && users[j].password == password)
    ensures found.None? <==>
      forall i | 0 <= i < |users| :: !(users[i].email == email && users[i].password == password)
  {
    var k := 0;
    while k < |users|
      invariant 0 <= k <= |users|
      invariant forall j | 0 <= j < k :: !(users[j].email == email && users[j].password == password)
    {
      if users[k].email == email && users[k].password == password {
        return Some(k);
      }
      k := k + 1;
    }
    return None;
  }

  /** The largest stored id, with 0 standing in for an empty list: otherwise an id present in
      the list and no smaller than any of them. */
  method MaxId(events: seq<EventRecord>) returns (m: int)
    ensures |events| == 0 ==> m == 0
    ensures |events| > 0 ==> exists i | 0 <= i < |events| :: events[i].id == m
    ensures forall i | 0 <= i < |events| :: events[i].id <= m
  {
    if |events| == 0 {
      return 0;
    }
    m := events[0].id;
    var k := 1;
    while k < |events|
      invariant 1 <= k <= |events|
      invariant exists i | 0 <= i < k :: events[i].id == m
      invariant forall i | 0 <= i < k :: events[i].id <= m
    {
      if events[k].id > m {
        m := events[k].id;
      }
      k := k + 1;
    }
  }

  /** With ascending ids the largest id is the last one. */
  lemma MaxOfAscendingIsLast(events: seq<EventRecord>, m: int)
    requires IdsAscending(events) && |events| > 0
    requires exists i | 0 <= i < |events| :: events[i].id == m
    requires forall i | 0 <= i < |events| :: events[i].id <= m
    ensures m == events[|events| - 1].id
  {
    var i :| 0 <= i < |events| && events[i].id == m;
    if i < |events| - 1 {
      assert events[i].id < events[|events| - 1].id;
    }
  }

  // ---------------------------------------------------------------------------------------
  // The uploaded image.

  /** An `UploadFile` as the handler sees it: its client-given file name and content type,
      either of which may be missing. */
  datatype Upload = Upload(filename: Option<string>, contentType: Option<string>)

  /** An upload is refused when its content type is missing, empty, or not under `image/`. */
  predicate RejectedContentType(contentType: Option<string>)
    ensures RejectedContentType(contentType) <==> !(contentType.Some? && "image/" <= contentType.value)
  {
    contentType.None? || contentType.value == "" || !("image/" <= contentType.value)
  }

  /** The content-type test lets through exactly a present type that starts with `image/`. */
  lemma ContentTypeRule(contentType: Option<string>)
    ensures !RejectedContentType(contentType) <==>
      contentType.Some? && |contentType.value| >= 6 && contentType.value[..6] == "image/"
  {
  }

  /** The extension the stored file gets: the text after the last dot of a file name that has
      one, and `jpg` for a missing name or a name without a dot. */
  function StoredExtension(filename: Option<string>): (ext: string)
    ensures '.' !in ext
  {
    if filename.Some? && filename.value != "" && '.' in filename.value
    then LastPartIsMaximalSuffix(filename.value, '.'); LastPart(filename.value, '.') else "jpg"
  }

  /** The stored extension is the text after the last dot of the file name when it has a dot,
      and `jpg` otherwise (no file name, or one without a dot). */
  lemma StoredExtensionRule(filename: Option<string>)
    ensures (filename.None? || '.' !in filename.value) ==> StoredExtension(filename) == "jpg"
    ensures filename.Some? && '.' in filename.value ==>
      var name, ext := filename.value, StoredExtension(filename);
      && '.' !in ext && |ext| < |name|
      && name == name[..|name| - |ext| - 1] + "." + ext
  {
    if filename.Some? && '.' in filename.value {
      var name := filename.value;
      LastPartIsMaximalSuffix(name, '.');
      var ext := LastPart(name, '.');
      assert name == name[..|name| - |ext| - 1] + [name[|name| - |ext| - 1]] + name[|name| - |ext|..];
    }
  }

  /** The `image_url` of a new event: `None` without an image, `/uploads/<unique>.<ext>` with
      an accepted one (`unique` is the text of the `uuid4()` drawn for it), and the 400 error
      for an image whose content type is missing or not an image type. */
  function ImageUrlOf(image: Option<Upload>, unique: string): (r: Response<Option<string>>)
    ensures image.None? ==> r == Ok(None)
    ensures image.Some? && RejectedContentType(image.value.contentType) ==> r == Raised(NotAnImage)
    ensures image.Some? && !RejectedContentType(image.value.contentType) ==>
      && r.Ok? && r.value.Some?
      && "/uploads/" <= r.value.value
      && r.value.value == "/uploads/" + unique + "." + StoredExtension(image.value.filename)
  {
    match image
    case None => Ok(None)
    case Some(img) =>
      if RejectedContentType(img.contentType) then Raised(NotAnImage)
      else Ok(Some("/uploads/" + unique + "." + StoredExtension(img.filename)))
  }

  /** The `EventCreate` body of the JSON endpoint. */
  datatype EventCreate = EventCreate(
    title: string, time: string, date: string, location: string, description: string,
    imageUrl: Option<string>)

  // ---------------------------------------------------------------------------------------
  // The service state.

  /** The module-level lists `users_db` and `events_db`. Each request is one step on them:
      the service runs some handlers in a thread pool, and the invariant below holds only when
      requests do not overlap. */
  class InMemoryStore {
    var users: seq<User>
    var events: seq<EventRecord>

    ghost predicate Valid()
      reads this
    {
      IdsAscending(events) && EmailsUnique(users)
    }

    /** The state at import time: no users, the two seeded events. */
    constructor ()
      ensures users == [] && events == InitialEvents
      ensures Valid()
    {
      users := [];
      events := InitialEvents;
    }

    /** `register`: a user whose e-mail address is already taken is refused with 400 and
        nothing is stored; any other user is appended. */
    method Register(user: User) returns (r: Response<Reply>)
      requires Valid()
      modifies this
      ensures Valid()
      ensures (exists i | 0 <= i < |old(users)| :: old(users)[i].email == user.email) ==>
        r == Raised(UserExists) && users == old(users)
      ensures (forall i | 0 <= i < |old(users)| :: old(users)[i].email != user.email) ==>
        r == Ok(Registered) && users == old(users) + [user]
      ensures events == old(events)
    {
      var taken := AnyWithEmail(users, user.email);
      if taken {
        return Raised(UserExists);
      }
      users := users + [user];
      r := Ok(Registered);
    }

    /** `login`: success exactly when some stored user has both the e-mail address and the
        password given. */
    method Login(email: string, password: string) returns (reply: Reply)
      ensures reply == LoginOk <==>
        exists i | 0 <= i < |users| :: users[i].email == email && users[i].password == password
      ensures reply == LoginOk || reply == LoginFailed
    {
      var found := FirstWithCredentials(users, email, password);
      reply := if found.Some? then LoginOk else LoginFailed;
    }

    /** `get_events`: the whole store, in insertion order. */
    method GetEvents() returns (list: seq<EventRecord>)
      ensures list == events
    {
      list := events;
    }

    /** The id the next created event gets: one more than the largest stored id, or 1. */
    method NextId() returns (id: int)
      requires Valid()
      ensures IsNextId(events, id)
      ensures |events| > 0 ==> id == events[|events| - 1].id + 1
    {
      var m := MaxId(events);
      if |events| > 0 {
        MaxOfAscendingIsLast(events, m);
      }
      id := m + 1;
    }

    /** `create_event` without the file write: the image is checked before any id is drawn,
        a rejected one leaves the store as it was, and otherwise one record with the next id
        is appended after all earlier ones. */
    method CreateEvent(title: string, time: string, date: string, location: string,
                       description: string, image: Option<Upload>, unique: string)
      returns (r: Response<EventRecord>)
      requires Valid()
      modifies this
      ensures Valid() && users == old(users)
      ensures r.Raised? <==> ImageUrlOf(image, unique).Raised?
      ensures r.Raised? ==> r.error == NotAnImage && events == old(events)
      ensures r.Ok? ==>
        && events == old(events) + [r.value]
        && IsNextId(old(events), r.value.id)
        && r.value == EventRecord(r.value.id, title, time, date, location, description,
                                  ImageUrlOf(image, unique).value)
    {
      var imageUrl := ImageUrlOf(image, unique);
      if imageUrl.Raised? {
        return Raised(imageUrl.error);
      }
      var id := NextId();
      var rec := EventRecord(id, title, time, date, location, description, imageUrl.value);
      events := events + [rec];
      r := Ok(rec);
    }

    /** `create_event_json`: the body's fields, its optional `image_url` included, are stored
        under the next id; this endpoint never refuses. */
    method CreateEventJson(body: EventCreate) returns (rec: EventRecord)
      requires Valid()
      modifies this
      ensures Valid() && users == old(users)
      ensures events == old(events) + [rec]
      ensures IsNextId(old(events), rec.id)
      ensures rec == EventRecord(rec.id, body.title, body.time, body.date, body.location,
                                 body.description, body.imageUrl)
    {
      var id := NextId();
      rec := EventRecord(id, body.title, body.time, body.date, body.location, body.description,
                         body.imageUrl);
      events := events + [rec];
    }
  }

  /** A record appended under the next id leaves the ids of the store unique. */
  lemma NextIdKeepsIdsUnique(events: seq<EventRecord>, rec: EventRecord)
    requires IdsUnique(events) && IsNextId(events, rec.id)
    ensures IdsUnique(events + [rec])
  {
    var s := events + [rec];
    forall i, j | 0 <= i < |s| && 0 <= j < |s| && i != j ensures s[i].id != s[j].id {
      if i == |events| {
        assert s[j] == events[j];
      } else if j == |events| {
        assert s[i] == events[i];
      } else {
        assert s[i] == events[i] && s[j] == events[j];
      }
    }
  }

  /** Since `register` refuses a taken address, a login matches at most one stored user. */
  lemma LoginMatchesAtMostOne(users: seq<User>, email: string, password: string, i: int, j: int)
    requires EmailsUnique(users)
    requires 0 <= i < |users| && 0 <= j < |users|
    requires users[i].email == email && users[j].email == email
    ensures i == j
  {
  }
}
