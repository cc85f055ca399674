# Calendly to Google Calendar sync: a verified model

This project models the deterministic logic of a small Python tool. The tool
reads upcoming Calendly appointments and books each one as an event on the
user's primary Google calendar. Every network call, the OAuth browser flows,
the clock and the JSON files are replaced by values the caller supplies
(oracles). What is left is checked by Dafny:

- the Calendly token lifecycle in `fetch_appointments`: acquire and save
  when nothing is stored, test for expiry, refresh with the stored refresh
  token, merge the response with `dict.update` semantics, save again;
- the mapping of one scheduled event and its first invitee to an
  event-details record, and the loop that builds the list of them;
- the Google Calendar insert body built from each record, and the insert
  loop, which stops at the first `HttpError`;
- the reuse-or-reauthorize decision of `get_credentials`.

Modules, one per concern:

- `Json` (json.dfy): JSON values, and the Python semantics the code relies
  on. This covers truthiness, `d[key]`, `d.get(key, default)` and `+` on
  numbers. Exceptions become `Result.Failure`.
- `CalendlyTokens` (calendly_tokens.dfy): the authorization URL, the expiry
  test, the merge, the lifecycle as a function (`TokenLifecycle`), the token
  file as a class (`TokenFile`), and `ObtainTokens`, the imperative first
  half of `fetch_appointments`.
- `CalendlyEvents` (calendly_events.dfy): the `Z` rewrite, invitee
  selection, `EventDetailsOf`, the list function `EventDetailsList`, the loop
  `CollectEventDetails`, and `FetchAppointments`.
- `GoogleCalendar` (google_calendar.dfy): `ChooseCredentials` and
  `GetCredentials`, `EventBody`, `FirstRejected`, the `Calendar` class and
  `BookCalendar`.

Oracles and their stand-ins:

- Response of the authorization-code exchange (`get_tokens`): the parameter `acquired`.
- Refresh grant (`refresh_token`): a function from the refresh token sent to the response dict.
- `datetime.now().timestamp()`: `now`, its ceiling in whole seconds.
- `get_user_uri` followed by `get_appointments`: a function from the access token to the collection.
- Invitees request in `get_invitee_details`: a function from the event URI to the collection.
- `datetime.fromisoformat`: a function from text to `Option<int>` seconds. None stands for `ValueError`.
- `InstalledAppFlow.run_local_server`: the parameter `authorized`.
- `service.events().insert(...).execute()`: a function from the index of the insert in this run to `Created` or `HttpError`.

Behaviour of the code worth noting, which the model keeps:

- The booking loop does not continue past a failed insert. The `try` wraps
  the whole loop (bookapointment.py:44-68), so the first `HttpError` ends it.
- The attendee list always has one entry, even when the invitee email is
  None (bookapointment.py:59-61).
- A failed refresh grant's response is merged and saved like any other
  (fetchccalendlyinfo.py:92-94); nothing leaves the file untouched.
- The description default applies only when the key is absent. A present
  null is kept (fetchccalendlyinfo.py:119).
- An empty token dict in the file counts as "no tokens" (`not tokens`,
  fetchccalendlyinfo.py:83), so it triggers a new authorization.

## Model

| member | source | states |
|---|---|---|
| `CalendlyTokens.AuthorizationUrl` | fetchccalendlyinfo.py:11-12 | the URL starts with the fixed authorize endpoint and ends with the redirect URI |
| `CalendlyTokens.AuthorizationUrlParameters` | fetchccalendlyinfo.py:12 | the part before `?` is the authorize endpoint; when neither value contains `&`, the query splits into exactly `client_id=<id>`, `response_type=code`, `redirect_uri=<uri>`, in that order |
| `CalendlyTokens.NeedsAuthorization` | fetchccalendlyinfo.py:83 | authorization is needed exactly when the loaded value is falsy in Python: no file, or an empty dict |
| `CalendlyTokens.IsExpired` | fetchccalendlyinfo.py:90 | expired iff `now > created_at + expires_in`; a missing `created_at`, then a missing `expires_in`, is a KeyError; with both present, non-numeric values are a TypeError |
| `CalendlyTokens.ExpiredAtFloatClock` | fetchccalendlyinfo.py:90 | for integer `created_at` and `expires_in`, the test at the ceiling of the float clock gives exactly `clock > created_at + expires_in` |
| `CalendlyTokens.ExpiryBoundary` | fetchccalendlyinfo.py:90 | at exactly `created_at + expires_in` the token is not expired; one second later it is |
| `CalendlyTokens.ExpiryMonotone` | fetchccalendlyinfo.py:90 | a token expired at some time stays expired at every later time |
| `CalendlyTokens.Merge` | fetchccalendlyinfo.py:93 | `dict.update`: the keys are the union; every response key takes the response's value; every other stored key keeps its old value |
| `CalendlyTokens.MergeIdempotent` | fetchccalendlyinfo.py:93 | merging the same response a second time changes nothing |
| `CalendlyTokens.RefreshTokenSurvives` | fetchccalendlyinfo.py:92-93 | a `refresh_token` absent from the response keeps its stored value; one present in it is replaced |
| `CalendlyTokens.TokenLifecycle` | fetchccalendlyinfo.py:81-94 | the start of `fetch_appointments` saves at most twice |
| `CalendlyTokens.LifecycleFailures` | fetchccalendlyinfo.py:90-92 | the lifecycle fails only when the expiry test raises (its KeyError or TypeError is the outcome) or an expired dict lacks `refresh_token` (a KeyError on it); in both cases no refresh is sent and only the acquisition save, if any, took place |
| `CalendlyTokens.SaveCount` | fetchccalendlyinfo.py:83-94 | saves happen exactly once after acquisition and once after a refresh, and the first save after acquisition stores the acquired tokens |
| `CalendlyTokens.NotExpiredNotRefreshed` | fetchccalendlyinfo.py:89-94 | a token that has not expired is used unchanged, with no refresh and no save beyond the acquisition save |
| `CalendlyTokens.ExpiredIsRefreshed` | fetchccalendlyinfo.py:90-94 | an expired token is refreshed with its own `refresh_token`; the merged dict is the one used and the last one saved |
| `CalendlyTokens.PersistedMatchesUsed` | fetchccalendlyinfo.py:83-94 | on success, the file holds the tokens that are used from then on |
| `CalendlyTokens.TokenFile.Load` | fetchccalendlyinfo.py:45-50 | returns the file's dict, or None when there is no file |
| `CalendlyTokens.TokenFile.Save` | fetchccalendlyinfo.py:40-42 | the file now holds the given dict; the save is appended to the history |
| `CalendlyTokens.ObtainTokens` | fetchccalendlyinfo.py:81-94 | returns the lifecycle's outcome; the file's saves are exactly the lifecycle's saves, in order; with no save, the file is unchanged |
| `CalendlyEvents.ReplaceChar` | fetchccalendlyinfo.py:104 | replacing a character by text that does not contain it removes it everywhere |
| `CalendlyEvents.RewriteUtc` | fetchccalendlyinfo.py:104 | the rewritten start time contains no `Z` |
| `CalendlyEvents.ReplaceCharLength` | fetchccalendlyinfo.py:104 | the length grows by the replacement's extra length once per occurrence (5 characters per `Z`) |
| `CalendlyEvents.ReplaceCharAbsent` | fetchccalendlyinfo.py:104 | text without a `Z` is left unchanged |
| `CalendlyEvents.ReplaceCharConcat` | fetchccalendlyinfo.py:104 | the rewrite of a concatenation is the concatenation of the rewrites |
| `CalendlyEvents.RewriteUtcOfZuluTime` | fetchccalendlyinfo.py:104 | a `...Z` timestamp becomes the same text ending in `+00:00` |
| `CalendlyEvents.InviteeDetails` | fetchccalendlyinfo.py:76-77 | None iff the collection is empty; otherwise its first element |
| `CalendlyEvents.InviteeEmail` | fetchccalendlyinfo.py:111-121 | None when there is no invitee or the invitee is falsy; for a truthy invitee, succeeds iff it is a dict with `name` and `email`, and then gives its `email` |
| `CalendlyEvents.EventDetailsOf` | fetchccalendlyinfo.py:103-122 | a non-dict is a TypeError and a missing `start_time` a KeyError; on success the summary is `name`, the start is the parse of the rewritten `start_time`, the description is the stored value when the key is present (even null) and the placeholder only when it is absent, and the email is what `InviteeEmail` gives for the first invitee (None with no invitees or a falsy first invitee); the mapping succeeds exactly when the appointment is a dict whose `start_time` is a string that parses after the rewrite, that has `uri` and `name`, and whose first invitee, if truthy, has `name` and `email` |
| `CalendlyEvents.EventDetailsList` | fetchccalendlyinfo.py:99-126 | no appointments give an empty list; a successful list has one entry per appointment |
| `CalendlyEvents.EventDetailsListSuccess` | fetchccalendlyinfo.py:99-126 | the list succeeds iff every appointment maps; it then has one entry per appointment, each the mapping of the appointment at the same position |
| `CalendlyEvents.EventDetailsListFailure` | fetchccalendlyinfo.py:99-126 | the first appointment that fails to map decides the exception |
| `CalendlyEvents.EventDetailsListOfAll` | fetchccalendlyinfo.py:99-126 | a sequence that maps every appointment position by position is the list |
| `CalendlyEvents.CollectEventDetails` | fetchccalendlyinfo.py:99-122 | the loop's result equals `EventDetailsList` of the appointments |
| `CalendlyEvents.EventDetailsFor` | fetchccalendlyinfo.py:96-97 | a missing `access_token` is a KeyError |
| `CalendlyEvents.NoAppointmentsNoDetails` | fetchccalendlyinfo.py:99-126 | no appointments give an empty list, not an error |
| `CalendlyEvents.FetchAppointments` | fetchccalendlyinfo.py:80-126 | the saves are the lifecycle's saves; the result is the lifecycle's exception, or the event details for the tokens it settles on |
| `GoogleCalendar.ChooseCredentials` | bookapointment.py:16-38 | rewrites iff no stored credentials or they are not valid, and then returns the flow's credentials; otherwise returns the stored, valid credentials |
| `GoogleCalendar.AuthorizedCredentialsAreReused` | bookapointment.py:17-38 | valid stored credentials are reused without rewriting: after the flow writes valid credentials, a next call that still finds them valid runs no flow and writes nothing |
| `GoogleCalendar.GetCredentials` | bookapointment.py:16-38 | returns the chosen credentials; token.json is written once, with the flow's credentials, exactly when the choice rewrites, and is otherwise untouched |
| `GoogleCalendar.EventBody` | bookapointment.py:48-62 | the end is the start plus 1800 seconds; both times are tagged `UTC`; summary and description are copied; there is exactly one attendee, whose email is the invitee email even when it is None |
| `GoogleCalendar.EventBodyRoundTrip` | bookapointment.py:48-62 | the event details can be read back from the body unchanged |
| `GoogleCalendar.EventBodies` | bookapointment.py:47-62 | one body per event details record, at the same position |
| `GoogleCalendar.FirstRejected` | bookapointment.py:44-68 | every insert before the returned index is accepted; the insert at it, if any, raised `HttpError` |
| `GoogleCalendar.FirstRejectedUnique` | bookapointment.py:44-68 | any index with those two properties is the returned one |
| `GoogleCalendar.SecondOfThreeFails` | bookapointment.py:44-68 | with three events whose second insert fails, the first rejected index is 1: one event is booked and the third is never attempted |
| `GoogleCalendar.Calendar.Insert` | bookapointment.py:64 | the request is logged; the event is added iff the API accepts it |
| `GoogleCalendar.IntroCallScenario` | fetchccalendlyinfo.py:103-122 | an "Intro Call" at 2024-06-01T10:00:00Z with no description and one invitee maps to the placeholder description, the invitee's email and a body ending at 10:30 UTC with that invitee as the only attendee |
| `GoogleCalendar.IntroCallStartRewrite` | fetchccalendlyinfo.py:104 | `2024-06-01T10:00:00Z` is rewritten to `2024-06-01T10:00:00+00:00` |
| `GoogleCalendar.BookCalendar` | bookapointment.py:41-68 | the credentials are chosen as in `ChooseCredentials`, and token.json is written once exactly when the choice rewrites and otherwise untouched; the calendar gains the bodies before the first rejected insert, in order; requests were issued for those and for the rejected one, and for none after it; the outcome names the rejected index and its status, or says all were booked |

## Left out

- HTTP calls to Calendly and Google: network I/O. They are oracles, as listed above. The query parameters of the scheduled-events request (user URI, 30-day window from `utcnow`, `status=active`) are not modelled.
- The `resource`/`uri` lookup in `get_user_uri`: this belongs to the HTTP response and is folded into the scheduled-events oracle.
- The JSON shape of the token files: only dicts are modelled. `json.load` returning a list, or a refresh response that is not a dict, is not covered.
- `save_tokens` and `load_tokens` file I/O: the file is the `TokenFile` object, with a ghost history of saves.
- The OAuth browser and local-server flow, `Credentials.from_authorized_user_file` and the inside of `Credentials.valid`: foreign library code. `valid` is a boolean of the stored value. A malformed token.json is not modelled.
- `build('calendar', 'v3', ...)`: library code. The model takes it to succeed.
- Exceptions other than `HttpError` raised by an insert: not modelled.
- Console `print` and `input`, and `os.getenv`: I/O. The client id and redirect URI are parameters of `AuthorizationUrl`. The printed event links are not returned.
- `datetime.fromisoformat`, `isoformat` and `strftime`: library parsing and formatting. Start and end times are integers (seconds since the epoch), and parsing is an oracle.
- `CalendlyTokens.IsExpired`: `now` is the ceiling of the float `datetime.now().timestamp()`; `ExpiredAtFloatClock` shows this decides exactly as the float comparison when `created_at` and `expires_in` are integers. Float values for `created_at` or `expires_in` are not modelled, because JSON numbers are integers here.
- `GoogleCalendar.AuthorizedCredentialsAreReused`: expiry of Google credentials over time is not modelled. `valid` is fixed in the stored value, so the lemma assumes the credentials are still valid at the next call; in the source a token that expires in between is not reused.
- `CalendlyEvents.EventDetailsOf`: all invitee lookups share the same bearer token, so the invitee oracle takes only the event URI.
- `CalendlyTokens.AuthorizationUrl`: values are inserted without percent-encoding, as in the source. `AuthorizationUrlParameters` states the round trip only for values without `&`.
