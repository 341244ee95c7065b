# Event Management System: a verified model of its logic

The Event Management System is a React Native client with a FastAPI back end. It lets a user
sign up, browse a list of events, open one event, register for it locally, share it, and create
new events. New events may carry an image. This project models the parts of the system that
make decisions, and proves what they promise:

- **Event creation** (`CreateEventScreen`). Pressing CREATE runs three syntactic checks in order:
  title, date, time. It then builds either a JSON body or a multipart body with the picked
  image. The attachment's file name and MIME type come from the image URI. The response is
  handled, and a `loading` flag disables the button while a request is out.
- **Home list** (`HomeScreen`). The list is replaced wholesale on every focus. An event handed
  over by the creation screen is put in front. A date text and a key are derived for each card.
- **Event details** (`EventDetailsScreen`). The event is found by id in the fetched list. A local
  registration toggle changes only when the user confirms. The share message is built from a
  fixed template.
- **Sign-up form** (`SignUp`). A field-by-field error map, the "clear this field's error" update
  made while typing, and the gating of submission.
- **In-memory service** (`BackendMain`). The `users_db` and `events_db` lists, `register`,
  `login`, `get_events` and the two creation endpoints. New ids are one more than the
  largest id stored.
- **Database URL** (`BackendDatabase`). The rewrite of `postgres://` and `postgresql://` URLs to
  the psycopg driver.
- **Scenarios** (`Scenarios`). How records the service sends look to the screens.

Two helper modules support the rest. `Strings` holds the JavaScript and Python string
built-ins the code relies on: `trim`, `split`, `toLowerCase`, `startswith`, `replace`, UTF-16
length and integer printing. `JsValues` holds JSON values as the client sees them: truthiness,
`?.`, `===`, template-literal conversion, and the outcome of a `fetch`.

An asynchronous handler becomes two steps. The first is the synchronous part up to the
`await`. The second takes the outcome as an input: a response with its `ok` flag and its body
(parsed or unparseable), or a thrown error. A screen's `useState` variables are the fields of a
class. Its handlers are methods whose `ensures` tie the new state to pure functions. The
properties are proved about those functions.

The model follows the code, including these behaviours a reader might not expect:

- The Home list is cleared on any error. Stale data is not kept.
- The HTTP status of the list request is never consulted. A body that is not an array shows an
  empty list.
- The created event is prepended without any check for an id already present.
- There is no single-flight guard on refreshes. Only the disabled buttons prevent a second
  submission.

## Model

| member | source | states |
|---|---|---|
| CreateEventScreen.DateTextShape | frontend/screens/CreateEventScreen.js:54 | the date check passes iff the text is exactly four digits, `-`, two digits, `-`, two digits |
| CreateEventScreen.TimeTextShape | frontend/screens/CreateEventScreen.js:58 | the time check passes iff the text is exactly two digits, `:`, two digits |
| CreateEventScreen.FullMatchPointwise | frontend/screens/CreateEventScreen.js:54-58 | an anchored pattern of single-character items matches exactly the strings of its length that agree with it position by position |
| CreateEventScreen.NoRangeChecks | frontend/screens/CreateEventScreen.js:54-61 | no range check: `2024-02-30`, `2024-13-40` and `99:99` pass; dates and times without leading zeros fail |
| CreateEventScreen.ValidationFailure | frontend/screens/CreateEventScreen.js:50-61 | the checks run in the order title, date, time; only the first failing check's message is reported; a title fails iff it is empty or all whitespace |
| CreateEventScreen.StartCreate | frontend/screens/CreateEventScreen.js:49-93 | nothing happens while loading; a failed check gives its message and no request; otherwise the request is the encoding of the draft |
| CreateEventScreen.BlankTitleSendsNothing | frontend/screens/CreateEventScreen.js:50-53 | an empty or whitespace-only title never gets a request built |
| CreateEventScreen.AttachmentName | frontend/screens/CreateEventScreen.js:76 | the file name is never empty and holds no `/` |
| CreateEventScreen.AttachmentNameIsLastSegment | frontend/screens/CreateEventScreen.js:76 | the file name is the longest `/`-free suffix of the URI, or `event.jpg` when that suffix is empty |
| CreateEventScreen.AttachmentExtension | frontend/screens/CreateEventScreen.js:77 | the extension is no longer than the name and holds no dot |
| CreateEventScreen.MimeType | frontend/screens/CreateEventScreen.js:78 | the MIME type is one of `image/png`, `image/webp`, `image/jpeg` |
| CreateEventScreen.ExtensionAfterLastDot | frontend/screens/CreateEventScreen.js:77 | the extension of `stem.ext` is `ext` lower-cased, whatever dots the stem holds |
| CreateEventScreen.ExtensionWithoutDot | frontend/screens/CreateEventScreen.js:77 | a name without a dot is its own extension |
| CreateEventScreen.MimeTypeOfExtension | frontend/screens/CreateEventScreen.js:77-78 | `image/png` iff the lower-cased last dot segment is `png`, `image/webp` iff it is `webp`, `image/jpeg` otherwise |
| CreateEventScreen.UpperCasePngIsPng | frontend/screens/CreateEventScreen.js:77-78 | an upper-case `.PNG` extension is sent as `image/png` |
| CreateEventScreen.BarePngNameIsPng | frontend/screens/CreateEventScreen.js:77-78 | a file named just `png` is sent as `image/png` |
| CreateEventScreen.JsonMemberAt | frontend/screens/CreateEventScreen.js:91 | looking a name up in the encoded members finds it at the only position carrying it |
| CreateEventScreen.TextPartAt | frontend/screens/CreateEventScreen.js:69-74 | looking a name up in the encoded parts finds it at the only position carrying it |
| CreateEventScreen.FilePartAt | frontend/screens/CreateEventScreen.js:79 | the file part read is the first file part |
| CreateEventScreen.ImagePart | frontend/screens/CreateEventScreen.js:76-79 | the `image` part carries the picked URI, a non-empty `/`-free file name and one of the three MIME types |
| CreateEventScreen.Encode | frontend/screens/CreateEventScreen.js:63-93 | always a POST to `/events/`; a JSON body and the JSON content type exactly when no image is picked, otherwise a multipart body with no explicit content type |
| CreateEventScreen.EncodeWithoutImage | frontend/screens/CreateEventScreen.js:86-92 | without an image: a POST to `/events/` with a JSON body of exactly the five fields in order, each holding the draft's value, and no file |
| CreateEventScreen.EncodeWithImage | frontend/screens/CreateEventScreen.js:67-85 | with an image: a multipart POST with no explicit content type, the same five text parts, then exactly one `image` part |
| CreateEventScreen.TextPartsThenFile | frontend/screens/CreateEventScreen.js:69-79 | five text parts then a file part read back as the draft's five values and that file |
| CreateEventScreen.FormData.constructor | frontend/screens/CreateEventScreen.js:69 | a new `FormData` holds no parts |
| CreateEventScreen.FormData.Append | frontend/screens/CreateEventScreen.js:70-79 | `append` adds one part at the end and keeps the others |
| CreateEventScreen.BuildFormData | frontend/screens/CreateEventScreen.js:69-79 | the successive appends give the five text parts followed by the image part with derived name and type |
| CreateEventScreen.CreateEffectOf | frontend/screens/CreateEventScreen.js:94-113 | an ok response navigates Home with `{newEvent: created, refresh: true}`, where `created` is the body or `null` if it cannot be parsed; a non-ok response shows `data.detail`, else the stringified body, else `Could not create event.`; a thrown error shows its message or `Server not reachable.` |
| CreateEventScreen.CreateEventForm.constructor | frontend/screens/CreateEventScreen.js:14-20 | the form starts empty, without an image, not loading |
| CreateEventScreen.CreateEventForm.PressCreate | frontend/screens/CreateEventScreen.js:49-93 | the result is `StartCreate` of the form; `loading` becomes true only when a request is sent, never on a validation failure |
| CreateEventScreen.CreateEventForm.Complete | frontend/screens/CreateEventScreen.js:94-116 | the outcome is reported as `CreateEffectOf` says and `loading` ends false in every outcome |
| HomeScreen.RefreshedEvents | frontend/screens/HomeScreen.js:59-70 | an array body becomes the list in server order; any other body, an unreadable body or a thrown error empties the list |
| HomeScreen.StatusNotConsulted | frontend/screens/HomeScreen.js:62-64 | the list does not depend on the response's `ok` flag |
| HomeScreen.WithNewEvent | frontend/screens/HomeScreen.js:79-86 | a truthy `newEvent` gives a list one longer with it at the head and the old elements after it in order; otherwise the list is unchanged |
| HomeScreen.PrependKeepsDuplicates | frontend/screens/HomeScreen.js:82 | no dedupe: prepending an event whose id is already listed raises that id's count by one |
| HomeScreen.DateText | frontend/screens/HomeScreen.js:132 | the date line is always defined, and is truthy exactly when the time or the date is truthy |
| HomeScreen.DateTextOfStrings | frontend/screens/HomeScreen.js:132 | the date text is `"<date> <time>"` when the time is non-empty, else the date |
| HomeScreen.CardKey | frontend/screens/HomeScreen.js:135 | the key is `String(id)` unless the id is null or undefined, then `"<title>-<dateText>"`; a `null` element throws |
| HomeScreen.DistinctIdsDistinctKeys | frontend/screens/HomeScreen.js:135 | events with distinct integer ids get distinct keys |
| HomeScreen.CardOf | frontend/screens/HomeScreen.js:132-139 | a card carries the event's key, title and date line, and its location or `''` when that is falsy |
| HomeScreen.View | frontend/screens/HomeScreen.js:125-149 | a spinner while loading, the empty state for an empty list, a render error when a `null` is listed, otherwise one card per event in list order with that event's key, title, date line and location (`''` when falsy) |
| HomeScreen.HomeScreen.constructor | frontend/screens/HomeScreen.js:56-57 | the list starts empty and not loading |
| HomeScreen.HomeScreen.OnFocus | frontend/screens/HomeScreen.js:72-77 | every focus issues exactly one list request and sets `loading` |
| HomeScreen.HomeScreen.FetchSettled | frontend/screens/HomeScreen.js:60-69 | the list is replaced by `RefreshedEvents` of the outcome and `loading` ends false in every outcome |
| HomeScreen.HomeScreen.NewEventParam | frontend/screens/HomeScreen.js:79-86 | the list becomes `WithNewEvent` of the old list; the parameter is cleared exactly when the event was truthy |
| EventDetailsScreen.FindStop | frontend/screens/EventDetailsScreen.js:44 | the search passes only non-null, non-matching elements and stops at a match or a `null` |
| EventDetailsScreen.FindById | frontend/screens/EventDetailsScreen.js:44 | `find` yields the first element whose `id` strictly equals the route id, nothing when none does, and throws when a `null` comes first |
| EventDetailsScreen.LoadResultOf | frontend/screens/EventDetailsScreen.js:39-57 | a non-ok response is ignored; a thrown error, an unreadable or non-array body, or a `null` before the match shows the failure alert; a truthy first match is stored; no match or a falsy one shows "Event not found" and goes back |
| EventDetailsScreen.SelectsFirstWithNumericId | frontend/screens/EventDetailsScreen.js:42-50 | for a list of objects and a numeric id: an event is stored iff some element carries that id, and the screen goes back iff none does |
| EventDetailsScreen.RegisterDialog | frontend/screens/EventDetailsScreen.js:60-88 | the Unregister dialog exactly when registered, otherwise the Register dialog; the confirming button is labelled with the dialog's title |
| EventDetailsScreen.AfterChoice | frontend/screens/EventDetailsScreen.js:60-90 | Cancel leaves the state unchanged; the confirming button flips it |
| EventDetailsScreen.ConfirmTwiceRestores | frontend/screens/EventDetailsScreen.js:60-90 | two confirmed toggles in a row return to the starting state |
| EventDetailsScreen.ShareContentOf | frontend/screens/EventDetailsScreen.js:94-97 | the share title is the event's title and the message starts with the headline |
| EventDetailsScreen.ShareMessageLines | frontend/screens/EventDetailsScreen.js:94-97 | the message's lines are the headline, a blank line, `Date: <date> at <time>`, `Location: <location>`, a blank line, then the description; the share title is the event title |
| EventDetailsScreen.MessageShape | frontend/screens/EventDetailsScreen.js:95 | the template text is those lines joined by line breaks |
| EventDetailsScreen.EventDetailsScreen.constructor | frontend/screens/EventDetailsScreen.js:30-33 | a fresh screen has no event, is loading and is not registered |
| EventDetailsScreen.EventDetailsScreen.FetchSettled | frontend/screens/EventDetailsScreen.js:39-58 | the event is stored only when found, otherwise kept; `loading` ends false in every outcome |
| EventDetailsScreen.EventDetailsScreen.HandleRegister | frontend/screens/EventDetailsScreen.js:60-90 | the dialog matches the state; the state becomes `AfterChoice`; the success alert shows exactly on a confirmed registration |
| EventDetailsScreen.EventDetailsScreen.Share | frontend/screens/EventDetailsScreen.js:92-97 | the share content is the template applied to the stored event |
| SignUp.SignUpForm.With | frontend/screens/SignUp.js:66-69 | `{...formData, [name]: value}` changes that field only |
| SignUp.EmailCheckIsRegexTest | frontend/screens/SignUp.js:29 | the positional test is exactly an unanchored match of `\S+@\S+\.\S+` |
| SignUp.EmailShapeGivesMatch | frontend/screens/SignUp.js:29 | an `@` and a later `.` with non-space characters around them give a regex match |
| SignUp.MatchGivesEmailShape | frontend/screens/SignUp.js:29 | a regex match gives such positions |
| SignUp.EmailCheckExamples | frontend/screens/SignUp.js:29 | `a b@c.d` passes because the pattern is unanchored; `john@example` fails |
| SignUp.FieldError | frontend/screens/SignUp.js:19-41 | a field's error, when it has one, is a non-empty message, so it is shown |
| SignUp.FormErrors | frontend/screens/SignUp.js:16-42 | a field is in the error map iff its check fails, with that check's message |
| SignUp.NameErrorIffBlank | frontend/screens/SignUp.js:19-25 | a name error is present iff the name is empty or all whitespace |
| SignUp.EmailErrorRules | frontend/screens/SignUp.js:27-31 | an empty address is "required"; any other is "invalid" iff the regex finds no match |
| SignUp.PasswordErrorRules | frontend/screens/SignUp.js:33-37 | for Basic Multilingual Plane text: empty is "required", one to five characters is too short, six or more is accepted (in general the limit is on UTF-16 length, so three astral characters pass) |
| SignUp.Utf16LengthOfBasicPlane | frontend/screens/SignUp.js:35 | for Basic Multilingual Plane text, JavaScript's `length` is the character count |
| SignUp.ConfirmErrorIffDiffer | frontend/screens/SignUp.js:39-41 | the confirmation error is present iff the two passwords differ, whatever the other fields hold |
| SignUp.CompleteFormHasNoErrors | frontend/screens/SignUp.js:16-44 | a correctly filled form has an empty error map |
| SignUp.CollectErrors | frontend/screens/SignUp.js:17-41 | filling `newErrors` check by check gives exactly the error map |
| SignUp.RecordCheck | frontend/screens/SignUp.js:19-41 | one `if` block: adds the field's message exactly when its check fails and leaves the other entries alone |
| SignUp.ChecksInOrderGiveFormErrors | frontend/screens/SignUp.js:17-41 | running the five checks in source order (first name, last name, email, password, confirmation) gives exactly the error map |
| SignUp.ChecksInOrderRecordAll | frontend/screens/SignUp.js:17-41 | after the five checks every field agrees with its own check |
| SignUp.RecordedError | frontend/screens/SignUp.js:19-41 | each check adds its own error, if any, and keeps the entries already made |
| SignUp.SameErrors | frontend/screens/SignUp.js:17-41 | a map that agrees with every field's check is the error map |
| SignUp.Stored | frontend/screens/SignUp.js:43 | the stored errors have the same keys and messages as the new map |
| SignUp.ClearedError | frontend/screens/SignUp.js:71-76 | typing sets the field's error to `null` when it was shown; every other entry is unchanged |
| SignUp.EditsOnlyHideErrors | frontend/screens/SignUp.js:65-77 | typing never brings back an error |
| SignUp.SignUpScreen.constructor | frontend/screens/SignUp.js:6-14 | the form starts empty, with no errors, not loading |
| SignUp.SignUpScreen.ValidateForm | frontend/screens/SignUp.js:16-45 | the stored errors are replaced wholesale; the result is true iff the map is empty |
| SignUp.SignUpScreen.HandleChange | frontend/screens/SignUp.js:65-77 | only `formData[name]` changes; `errors[name]` becomes null only if it was truthy |
| SignUp.SignUpScreen.PressSubmit | frontend/screens/SignUp.js:47-50 | a failed validation goes no further; a passing one sets `isLoading` |
| SignUp.SignUpScreen.FinishSubmit | frontend/screens/SignUp.js:51-62 | navigation or the error alert, and `isLoading` ends false |
| BackendMain.InitialEventsShape | backend/main.py:62-65 | the initial store holds exactly ids 1 and 2, in that order, with no image |
| BackendMain.AscendingIdsAreUnique | backend/main.py:121 | ascending ids are unique |
| BackendMain.AppendAboveAllKeepsAscending | backend/main.py:131 | appending an id above all others keeps ids ascending |
| BackendMain.AnyWithEmail | backend/main.py:70 | the scan reports true iff some stored user has the e-mail address |
| BackendMain.FirstWithCredentials | backend/main.py:81 | the result is the first user matching both e-mail address and password, or none iff no user matches |
| BackendMain.MaxId | backend/main.py:121 | the maximum is 0 for an empty store, otherwise an id present and no smaller than any |
| BackendMain.MaxOfAscendingIsLast | backend/main.py:121 | with ascending ids the maximum is the last id |
| BackendMain.RejectedContentType | backend/main.py:104 | an upload is refused exactly when it lacks a content type starting with `image/` (the empty-type test adds nothing) |
| BackendMain.ContentTypeRule | backend/main.py:104 | an image is accepted iff its content type is present and starts with `image/` |
| BackendMain.StoredExtension | backend/main.py:108 | the stored extension never holds a dot |
| BackendMain.StoredExtensionRule | backend/main.py:108 | the extension is the text after the last dot when the file name has one, and `jpg` otherwise |
| BackendMain.ImageUrlOf | backend/main.py:101-116 | no image gives `None`; a rejected type gives the 400 error; an accepted image gives `/uploads/<unique>.<ext>` |
| BackendMain.InMemoryStore.constructor | backend/main.py:58-65 | the service starts with no users and the two seeded events |
| BackendMain.InMemoryStore.Register | backend/main.py:67-76 | a taken e-mail address gives 400 and leaves `users_db` unchanged; otherwise exactly one record is appended |
| BackendMain.InMemoryStore.Login | backend/main.py:78-85 | login succeeds iff some stored user matches both e-mail address and password |
| BackendMain.InMemoryStore.GetEvents | backend/main.py:87-89 | the store is returned in insertion order |
| BackendMain.InMemoryStore.NextId | backend/main.py:121 | the new id is 1 for an empty store, else one more than the largest id, so it lies above every id |
| BackendMain.InMemoryStore.CreateEvent | backend/main.py:91-132 | a rejected image leaves `events_db` unchanged; otherwise one record with the next id and the form's fields is appended after the earlier ones |
| BackendMain.InMemoryStore.CreateEventJson | backend/main.py:134-141 | the body's fields are stored under the next id, appended after the earlier records |
| BackendMain.NextIdKeepsIdsUnique | backend/main.py:121-131 | appending under the next id keeps ids unique, when requests are handled one at a time |
| BackendMain.LoginMatchesAtMostOne | backend/main.py:70-85 | since `register` refuses taken addresses, at most one stored user has a given address, when requests are handled one at a time |
| BackendDatabase.NormalizeUrl | backend/database.py:19-23 | a URL is changed only when it starts with `postgres://` or `postgresql://`, and every changed URL starts with `postgresql+psycopg://` |
| BackendDatabase.PrefixesExclusive | backend/database.py:19-21 | the two rewrite branches never both apply |
| BackendDatabase.PlainSchemeText | backend/database.py:21 | for a `postgresql://` URL the scheme is `postgresql`, so the `+` test always passes |
| BackendDatabase.LegacySchemeRewritten | backend/database.py:19-20 | `postgres://` becomes `postgresql+psycopg://` followed by the same remainder |
| BackendDatabase.PlainSchemeRewritten | backend/database.py:21-23 | `postgresql://` becomes `postgresql+psycopg://` followed by the same remainder |
| BackendDatabase.OtherUrlsUnchanged | backend/database.py:19-23 | any other URL is returned unchanged |
| BackendDatabase.UnchangedExamples | backend/database.py:15 | the default SQLite URL and a `postgresql+psycopg2://` URL are not rewritten |
| BackendDatabase.PsycopgUrlNotRewritten | backend/database.py:19-23 | a URL already naming psycopg is left as it is |
| BackendDatabase.NormalizeIdempotent | backend/database.py:19-23 | normalising twice is normalising once |
| Scenarios.EventJson | backend/main.py:48-55 | a record serialises to an object carrying its id, title, date and time |
| Scenarios.ListJson | backend/main.py:87-89 | the list body holds one object per stored record, in order |
| Scenarios.RefreshShowsStoreWithDistinctKeys | frontend/screens/HomeScreen.js:59-70 | a refresh receiving the store shows exactly the store, and every card key is distinct |
| Scenarios.DetailsSelectStoredRecord | frontend/screens/EventDetailsScreen.js:42-50 | opening a stored record's id selects exactly that record |
| Scenarios.CreatedRecordReachesHome | frontend/screens/CreateEventScreen.js:94-103 | a created record reaches the head of the Home list, keyed by its id |
| Scenarios.UnreadableCreateLeavesHome | frontend/screens/CreateEventScreen.js:95-98 | an unreadable creation response hands over `null`, which leaves the Home list unchanged |
| Scenarios.InsertThenRefresh | frontend/screens/HomeScreen.js:64-82 | after `[a]` and the insertion of `b`, the list is `[b, a]`; a refresh returning `[a, b]` shows exactly `[a, b]` |

## Left out

- Layout, styles and the `Platform.select` base URL. They are presentation and static configuration.
- `frontend/App.js`, `GetStarted.js`, `ProfileScreen.js` and `EventScreen.js` hold navigation wiring and static screens only. `backend/models.py` is a SQLAlchemy schema that the in-memory endpoints do not use.
- `fetch`, `Alert`, `Share`, `Linking` and the image picker's permission and picker calls are foreign. Their results are inputs, or their calls are results of the model.
- Image picking (`handlePickImage`) is left out. It only stores the picker's answer.
- Concurrent requests to the service are left out: each request is one atomic step on the store. FastAPI runs the plain `def` handlers `register` and `create_event_json` (backend/main.py:68-72, 136-140) in a thread pool, so two simultaneous calls can both pass the address check, or both compute the same `max(...) + 1`, and store a duplicate address or a duplicate id; `create_event` can race `create_event_json` the same way. `InMemoryStore.Valid`, `NextIdKeepsIdsUnique` and `LoginMatchesAtMostOne` hold only for requests handled one at a time.
- React effect scheduling and overlapping fetches are left out. Each handler is one step, and the order of steps is the caller's.
- `formatDate` and `formatTime` depend on `Date` and locale formatting.
- `JSON.stringify` is not modelled as text. The error alert records which value would be stringified.
- Floating-point numbers in JSON are left out. Numbers are integers.
- `toLowerCase` is modelled on ASCII letters only. No other character lowers to a letter of `png` or `webp`, so the MIME choice is unaffected.
- BackendMain.InMemoryStore.CreateEvent: writing the file (`shutil.copyfileobj`) and its 500 error are not modelled. The `uuid4()` text is an input.
- FastAPI request binding, including its 422 responses for the JSON body the client posts to the form endpoint, is left out. Only each side's own code is modelled.
- `os.getenv`, `load_dotenv`, the SQLAlchemy engine and the `get_db` session lifecycle are left out. The URL is a parameter of `NormalizeUrl`.
- The three dead assignments to `user_dict` in `register` (backend/main.py:73-75) have no effect and are not modelled.
- SignUp.SignUpScreen.FinishSubmit: the one-second simulated delay and the console log are not modelled. Whether navigation throws is an input.
