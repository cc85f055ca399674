/** bookapointment.py: the reuse-or-reauthorize decision of
    `get_credentials`, the Google Calendar insert body built for each event
    details record, and the insert loop of `book_calendar`, which sits inside
    a single `try` and so stops at the first `HttpError`. The installed-app
    OAuth flow and the Calendar API are oracles: the caller supplies the
    credentials the local-server flow would return, and the response to the
    i-th insert request of the run. Times are whole seconds since the epoch. */
module GoogleCalendar {
  import opened Json
  import opened CalendlyEvents

  /** `timedelta(minutes=30)` in seconds. */
  const ThirtyMinutes: int := 30 * 60

  const Utc: string := "UTC"

  // ---------------------------------------------------------------------
  // Credential reuse
  // ---------------------------------------------------------------------

  /** What the decision sees of a `Credentials` object: its `valid` flag, and
      the JSON `to_json` writes to token.json. */
  datatype Credential = Credential(valid: bool, serialized: string)

  /** The credentials `get_credentials` returns and whether it rewrote
      token.json. */
  datatype CredentialChoice = CredentialChoice(creds: Credential, rewritten: bool)

  /** Lines 17-38: `not creds or not creds.valid` runs the flow and writes its
      result; otherwise the stored credentials are returned untouched. A
      `Credentials` object is always truthy, so `not creds` holds only when
      token.json did not exist. */
  function ChooseCredentials(stored: Option<Credential>, authorized: Credential): (c: CredentialChoice)
    ensures c.rewritten <==> (stored.None? || !stored.value.valid)
    ensures c.rewritten ==> c.creds == authorized
    ensures !c.rewritten ==> Some(c.creds) == stored && c.creds.valid
  {
    match stored
    case Some(creds) => if creds.valid then CredentialChoice(creds, false) else CredentialChoice(authorized, true)
    case None => CredentialChoice(authorized, true)
  }

  /** Valid stored credentials are reused without rewriting: once the flow
      has produced valid credentials and written them, a next call that still
      finds them valid runs no flow and writes nothing. */
  lemma AuthorizedCredentialsAreReused(stored: Option<Credential>, authorized: Credential, later: Credential)
    requires authorized.valid
    ensures var first := ChooseCredentials(stored, authorized);
            ChooseCredentials(Some(first.creds), later) == CredentialChoice(first.creds, false)
  {
  }

  /** token.json: the stored credentials (None when the file does not exist)
      and a ghost count of the writes to it. */
  class CredentialFile {
    var stored: Option<Credential>
    ghost var writes: nat

    constructor (initial: Option<Credential>)
      ensures stored == initial && writes == 0
    {
      stored := initial;
      writes := 0;
    }
  }

  /** `get_credentials`. */
  method GetCredentials(file: CredentialFile, authorized: Credential) returns (creds: Credential)
    modifies file
    ensures var c := ChooseCredentials(old(file.stored), authorized);
            && creds == c.creds
            && (c.rewritten ==> file.stored == Some(authorized) && file.writes == old(file.writes) + 1)
            && (!c.rewritten ==> file.stored == old(file.stored) && file.writes == old(file.writes))
  {
    var loaded := file.stored;
    if loaded.None? || !loaded.value.valid {
      creds := authorized;
      file.stored := Some(creds);
      file.writes := file.writes + 1;
    } else {
      creds := loaded.value;
    }
  }

  // ---------------------------------------------------------------------
  // The insert body
  // ---------------------------------------------------------------------

  datatype EventTime = EventTime(dateTime: int, timeZone: string)

  datatype Attendee = Attendee(email: Value)

  /** The `event` dict of lines 48-62. */
  datatype Event = Event(summary: Value, description: Value, start: EventTime, end: EventTime,
                         attendees: seq<Attendee>)

  /** The body sent for one event details record: the same summary and
      description, a half-hour slot from the start time, both ends in UTC, and
      exactly one attendee carrying the invitee's email, even when that email
      is None. */
  function EventBody(d: EventDetails): (e: Event)
    ensures e.end.dateTime - e.start.dateTime == ThirtyMinutes
    ensures e.start.timeZone == Utc && e.end.timeZone == Utc
    ensures e.summary == d.summary && e.description == d.description && e.start.dateTime == d.startTime
    ensures |e.attendees| == 1 && e.attendees[0].email == d.inviteeEmail
  {
    Event(d.summary, d.description,
          EventTime(d.startTime, Utc),
          EventTime(d.startTime + ThirtyMinutes, Utc),
          [Attendee(d.inviteeEmail)])
  }

  /** The event details an insert body carries. */
  function DetailsOf(e: Event): EventDetails {
    EventDetails(e.summary, e.description, e.start.dateTime,
                 if e.attendees == [] then Null else e.attendees[0].email)
  }

  /** Nothing of the event details is lost in the body: it can be read back. */
  lemma EventBodyRoundTrip(d: EventDetails)
    ensures DetailsOf(EventBody(d)) == d
  {
  }

  /** The bodies of a list of event details, in the same order. */
  function EventBodies(details: seq<EventDetails>): (bodies: seq<Event>)
    ensures |bodies| == |details|
    ensures forall i :: 0 <= i < |details| ==> bodies[i] == EventBody(details[i])
  {
    seq(|details|, i requires 0 <= i < |details| => EventBody(details[i]))
  }

  // ---------------------------------------------------------------------
  // The insert loop
  // ---------------------------------------------------------------------

  /** The Calendar API's answer to one `events().insert(...).execute()`. */
  datatype InsertResponse = Created(htmlLink: string) | HttpError(status: int)

  /** How `book_calendar` ends: every insert went through, or the `HttpError`
      of the insert at index `at` was caught and ended the loop. */
  datatype Booking = Completed | Aborted(at: nat, status: int)

  /** The index of the first insert, from `from` on, that the API rejects,
      or `n` when it accepts them all. */
  function FirstRejected(respond: nat -> InsertResponse, from: nat, n: nat): (k: nat)
    requires from <= n
    ensures from <= k <= n
    ensures forall j :: from <= j < k ==> respond(j).Created?
    ensures k < n ==> respond(k).HttpError?
    decreases n - from
  {
    if from == n then n
    else if respond(from).HttpError? then from
    else FirstRejected(respond, from + 1, n)
  }

  /** Only one index is the first rejected one. */
  lemma {:induction false} FirstRejectedUnique(respond: nat -> InsertResponse, from: nat, n: nat, k: nat)
    requires from <= k <= n
    requires forall j :: from <= j < k ==> respond(j).Created?
    requires k < n ==> respond(k).HttpError?
    ensures FirstRejected(respond, from, n) == k
    decreases n - from
  {
    if from < k {
      FirstRejectedUnique(respond, from + 1, n, k);
    }
  }

  /** The primary calendar: the events it holds, and the ghost log of every
      insert request issued against it. */
  class Calendar {
    var events: seq<Event>
    ghost var requests: seq<Event>

    constructor (initial: seq<Event>)
      ensures events == initial && requests == []
    {
      events := initial;
      requests := [];
    }

    /** One insert request; the event is added when the API accepts it. */
    method Insert(body: Event, response: InsertResponse)
      modifies this
      ensures requests == old(requests) + [body]
      ensures events == if response.Created? then old(events) + [body] else old(events)
    {
      requests := requests + [body];
      if response.Created? {
        events := events + [body];
      }
    }
  }

  /** `book_calendar`: fetch the credentials, then insert one body per event
      details record, in order, until the first `HttpError`. The events
      before it are booked, the failing one was requested, and none after it
      is attempted. */
  method BookCalendar(file: CredentialFile, authorized: Credential, calendar: Calendar,
                      details: seq<EventDetails>, respond: nat -> InsertResponse)
    returns (outcome: Booking)
    modifies file, calendar
    ensures var c := ChooseCredentials(old(file.stored), authorized);
            && (c.rewritten ==> file.stored == Some(authorized) && file.writes == old(file.writes) + 1)
            && (!c.rewritten ==> file.stored == old(file.stored) && file.writes == old(file.writes))
    ensures var bodies := EventBodies(details);
            var k := FirstRejected(respond, 0, |details|);
            && calendar.events == old(calendar.events) + bodies[..k]
            && calendar.requests == old(calendar.requests) + bodies[..if k < |details| then k + 1 else k]
            && outcome == if k < |details| then Aborted(k, respond(k).status) else Completed
  {
    var creds := GetCredentials(file, authorized);
    ghost var bodies := EventBodies(details);
    var i := 0;
    while i < |details|
      modifies calendar
      invariant 0 <= i <= |details|
      invariant forall j :: 0 <= j < i ==> respond(j).Created?
      invariant calendar.events == old(calendar.events) + bodies[..i]
      invariant calendar.requests == old(calendar.requests) + bodies[..i]
    {
      var body := EventBody(details[i]);
      var response := respond(i);
      calendar.Insert(body, response);
      assert bodies[..i + 1] == bodies[..i] + [body];
      if response.HttpError? {
        FirstRejectedUnique(respond, 0, |details|, i);
        return Aborted(i, response.status);
      }
      i := i + 1;
    }
    FirstRejectedUnique(respond, 0, |details|, |details|);
    outcome := Completed;
  }

  // ---------------------------------------------------------------------
  // Two end-to-end scenarios
  // ---------------------------------------------------------------------

  /** The provider's start time of the scenario below, rewritten. */
  lemma IntroCallStartRewrite()
    ensures RewriteUtc("2024-06-01T10:00:00Z") == "2024-06-01T10:00:00+00:00"
  {
    var day := "2024-06-01T10:00:00";
    assert day + "Z" == "2024-06-01T10:00:00Z";
    assert day + "+00:00" == "2024-06-01T10:00:00+00:00";
    RewriteUtcOfZuluTime(day);
  }

  /** An "Intro Call" at 2024-06-01T10:00:00Z (1717236000 s) with no
      description and one invitee maps to the placeholder description and a
      body ending at 10:30 UTC with that invitee as the single attendee. */
  lemma IntroCallScenario(fields: Dict, invitee: Dict, inviteesOf: Value -> seq<Value>,
                          parseIso: string -> Option<int>)
    requires "name" in fields && fields["name"] == Str("Intro Call")
    requires "start_time" in fields && fields["start_time"] == Str("2024-06-01T10:00:00Z")
    requires "uri" in fields && "description" !in fields
    requires "name" in invitee && "email" in invitee && invitee["email"] == Str("a@b.com")
    requires inviteesOf(fields["uri"]) == [Obj(invitee)]
    requires parseIso("2024-06-01T10:00:00+00:00") == Some(1717236000)
    ensures var d := EventDetailsOf(Obj(fields), inviteesOf, parseIso);
            && d == Success(EventDetails(Str("Intro Call"), Str(NoDescription), 1717236000, Str("a@b.com")))
            && EventBody(d.value).end == EventTime(1717237800, Utc)
            && EventBody(d.value).attendees == [Attendee(Str("a@b.com"))]
  {
    IntroCallStartRewrite();
    assert Truthy(Obj(invitee));
    assert InviteeEmail(InviteeDetails(inviteesOf(fields["uri"]))) == Success(Str("a@b.com"));
  }

  /** Three events whose second insert fails: the first is booked, the
      second was requested and rejected, and the third is never attempted. */
  lemma SecondOfThreeFails(respond: nat -> InsertResponse)
    requires respond(0).Created? && respond(1).HttpError?
    ensures FirstRejected(respond, 0, 3) == 1
  {
  }
}
