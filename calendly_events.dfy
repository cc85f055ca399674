/** The appointment side of fetchccalendlyinfo.py: the first-or-None invitee
    choice, the `Z` to `+00:00` rewrite of start times, the mapping of one
    scheduled event to an event-details record, the loop that builds the list
    of them, and `fetch_appointments` as a whole. The Calendly REST calls are
    oracles: the caller supplies the scheduled-events collection for an
    access token and the invitees collection for an event URI, and
    `datetime.fromisoformat` is an oracle from text to whole seconds since
    the epoch (None for text it rejects). */
module CalendlyEvents {
  import opened Json
  import opened CalendlyTokens

  const NoDescription: string := "No description provided"

  /** One entry of the list `fetch_appointments` returns. `inviteeEmail` is
      `Null` where the source stores Python's None. */
  datatype EventDetails = EventDetails(summary: Value, description: Value, startTime: int, inviteeEmail: Value)

  // ---------------------------------------------------------------------
  // The start-time rewrite
  // ---------------------------------------------------------------------

  /** Python's `s.replace(c, replacement)` for a one-character pattern: every
      occurrence of `c`, left to right, becomes `replacement`. */
  function ReplaceChar(s: string, c: char, replacement: string): (r: string)
    ensures c !in replacement ==> c !in r
  {
    if s == [] then []
    else (if s[0] == c then replacement else [s[0]]) + ReplaceChar(s[1..], c, replacement)
  }

  /** How often `c` occurs in `s`. */
  function Occurrences(s: string, c: char): nat {
    if s == [] then 0 else (if s[0] == c then 1 else 0) + Occurrences(s[1..], c)
  }

  /** `appointment["start_time"].replace("Z", "+00:00")`. */
  function RewriteUtc(s: string): (r: string)
    ensures 'Z' !in r
  {
    ReplaceChar(s, 'Z', "+00:00")
  }

  /** Each occurrence grows the text by the replacement's extra length. */
  lemma {:induction false} ReplaceCharLength(s: string, c: char, replacement: string)
    ensures |ReplaceChar(s, c, replacement)| == |s| + Occurrences(s, c) * (|replacement| - 1)
  {
    if s != [] {
      ReplaceCharLength(s[1..], c, replacement);
    }
  }

  /** Text without the pattern is left as it is. */
  lemma {:induction false} ReplaceCharAbsent(s: string, c: char, replacement: string)
    requires c !in s
    ensures ReplaceChar(s, c, replacement) == s
  {
    if s != [] {
      ReplaceCharAbsent(s[1..], c, replacement);
      assert [s[0]] + s[1..] == s;
    }
  }

  /** The rewrite works piece by piece. */
  lemma {:induction false} ReplaceCharConcat(a: string, b: string, c: char, replacement: string)
    ensures ReplaceChar(a + b, c, replacement) == ReplaceChar(a, c, replacement) + ReplaceChar(b, c, replacement)
  {
    if a == [] {
      assert a + b == b;
    } else {
      var head := if a[0] == c then replacement else [a[0]];
      assert (a + b)[0] == a[0] && (a + b)[1..] == a[1..] + b;
      calc {
        ReplaceChar(a + b, c, replacement);
        head + ReplaceChar(a[1..] + b, c, replacement);
        { ReplaceCharConcat(a[1..], b, c, replacement); }
        head + (ReplaceChar(a[1..], c, replacement) + ReplaceChar(b, c, replacement));
        ReplaceChar(a, c, replacement) + ReplaceChar(b, c, replacement);
      }
    }
  }

  /** A timestamp in the provider's `...Z` form gets the explicit offset
      `+00:00` in place of its final `Z`, and nothing else changes. */
  lemma RewriteUtcOfZuluTime(s: string)
    requires 'Z' !in s
    ensures RewriteUtc(s + "Z") == s + "+00:00"
  {
    ReplaceCharConcat(s, "Z", 'Z', "+00:00");
    ReplaceCharAbsent(s, 'Z', "+00:00");
  }

  // ---------------------------------------------------------------------
  // Invitee choice and the per-appointment mapping
  // ---------------------------------------------------------------------

  /** `get_invitee_details` after its HTTP call: `invitees[0] if invitees
      else None`. */
  function InviteeDetails(invitees: seq<Value>): (r: Option<Value>)
    ensures r.None? <==> invitees == []
    ensures invitees != [] ==> r == Some(invitees[0])
  {
    if invitees != [] then Some(invitees[0]) else None
  }

  /** Lines 111-115 and 121: for a truthy invitee, `invitee['name']` is
      printed and `invitee['email']` stored (each a KeyError or TypeError
      when it cannot be read); otherwise the email is None. */
  function InviteeEmail(invitee: Option<Value>): (r: Result<Value>)
    ensures invitee.None? ==> r == Success(Null)
    ensures invitee.Some? && !Truthy(invitee.value) ==> r == Success(Null)
    ensures invitee.Some? && Truthy(invitee.value) ==>
              (r.Success? <==> invitee.value.Obj? && "name" in invitee.value.fields && "email" in invitee.value.fields)
    ensures invitee.Some? && Truthy(invitee.value) && r.Success? ==> r.value == invitee.value.fields["email"]
  {
    match invitee
    case None => Success(Null)
    case Some(v) =>
      if !Truthy(v) then Success(Null)
      else
        var _ :- Index(v, "name");
        Index(v, "email")
  }

  /** The body of the loop at lines 103-122 for one appointment, in the
      order the source reads it: the start time (rewritten and parsed), the
      event URI (for the invitee lookup), the name, the description with its
      default, and the invitee's email. */
  function EventDetailsOf(appointment: Value, inviteesOf: Value -> seq<Value>,
                          parseIso: string -> Option<int>): (r: Result<EventDetails>)
    ensures !appointment.Obj? ==> r == Failure(TypeError)
    ensures appointment.Obj? && "start_time" !in appointment.fields ==> r == Failure(KeyError("start_time"))
    ensures r.Success? ==>
              && appointment.Obj?
              && "start_time" in appointment.fields && appointment.fields["start_time"].Str?
              && parseIso(RewriteUtc(appointment.fields["start_time"].s)) == Some(r.value.startTime)
              && "uri" in appointment.fields
              && "name" in appointment.fields
              && r.value.summary == appointment.fields["name"]
    ensures r.Success? && "description" in appointment.fields ==>
              r.value.description == appointment.fields["description"]
    ensures r.Success? && "description" !in appointment.fields ==>
              r.value.description == Str(NoDescription)
    ensures r.Success? <==>
              && appointment.Obj?
              && "start_time" in appointment.fields && appointment.fields["start_time"].Str?
              && parseIso(RewriteUtc(appointment.fields["start_time"].s)).Some?
              && "uri" in appointment.fields
              && "name" in appointment.fields
              && InviteeEmail(InviteeDetails(inviteesOf(appointment.fields["uri"]))).Success?
    ensures r.Success? ==>
              r.value.inviteeEmail == InviteeEmail(InviteeDetails(inviteesOf(appointment.fields["uri"]))).value
    ensures r.Success? && inviteesOf(appointment.fields["uri"]) == [] ==>
              r.value.inviteeEmail == Null
    ensures r.Success? && inviteesOf(appointment.fields["uri"]) != []
            && !Truthy(inviteesOf(appointment.fields["uri"])[0]) ==>
              r.value.inviteeEmail == Null
    ensures r.Success? && inviteesOf(appointment.fields["uri"]) != []
            && Truthy(inviteesOf(appointment.fields["uri"])[0]) ==>
              && inviteesOf(appointment.fields["uri"])[0].Obj?
              && "email" in inviteesOf(appointment.fields["uri"])[0].fields
              && r.value.inviteeEmail == inviteesOf(appointment.fields["uri"])[0].fields["email"]
  {
    var rawStart :- Index(appointment, "start_time");
    var startText :- if rawStart.Str? then Success(rawStart.s) else Failure(AttributeError);
    var startTime :- match parseIso(RewriteUtc(startText))
                     case Some(t) => Success(t)
                     case None => Failure(ValueError);
    var uri :- Index(appointment, "uri");
    var invitee := InviteeDetails(inviteesOf(uri));
    var name :- Index(appointment, "name");
    var description := GetOr(appointment.fields, "description", Str(NoDescription));
    var email :- InviteeEmail(invitee);
    Success(EventDetails(name, description, startTime, email))
  }

  // ---------------------------------------------------------------------
  // The list of event details
  // ---------------------------------------------------------------------

  /** The whole loop: the details of every appointment in provider order,
      or the first exception raised. */
  function EventDetailsList(appointments: seq<Value>, inviteesOf: Value -> seq<Value>,
                            parseIso: string -> Option<int>): (r: Result<seq<EventDetails>>)
    ensures appointments == [] ==> r == Success([])
    ensures r.Success? ==> |r.value| == |appointments|
  {
    if appointments == [] then Success([])
    else
      var first :- EventDetailsOf(appointments[0], inviteesOf, parseIso);
      var rest :- EventDetailsList(appointments[1..], inviteesOf, parseIso);
      Success([first] + rest)
  }

  /** When every appointment maps, the list has one entry per appointment,
      each the mapping of the appointment at the same position; and the list
      succeeds only if every appointment maps. */
  lemma {:induction false} EventDetailsListSuccess(appointments: seq<Value>, inviteesOf: Value -> seq<Value>,
                                                   parseIso: string -> Option<int>)
    ensures var r := EventDetailsList(appointments, inviteesOf, parseIso);
            r.Success? <==> forall i :: 0 <= i < |appointments| ==> EventDetailsOf(appointments[i], inviteesOf, parseIso).Success?
    ensures var r := EventDetailsList(appointments, inviteesOf, parseIso);
            r.Success? ==> |r.value| == |appointments|
                           && forall i :: 0 <= i < |appointments| ==> r.value[i] == EventDetailsOf(appointments[i], inviteesOf, parseIso).value
  {
    if appointments != [] {
      EventDetailsListSuccess(appointments[1..], inviteesOf, parseIso);
      assert forall i :: 1 <= i < |appointments| ==> appointments[i] == appointments[1..][i - 1];
    }
  }

  /** A list of details that maps every appointment, position by position,
      is the list. */
  lemma {:induction false} EventDetailsListOfAll(appointments: seq<Value>, inviteesOf: Value -> seq<Value>,
                                                 parseIso: string -> Option<int>, details: seq<EventDetails>)
    requires |details| == |appointments|
    requires forall j :: 0 <= j < |appointments| ==>
               EventDetailsOf(appointments[j], inviteesOf, parseIso) == Success(details[j])
    ensures EventDetailsList(appointments, inviteesOf, parseIso) == Success(details)
  {
    if appointments != [] {
      assert forall j :: 0 <= j < |appointments| - 1 ==>
        appointments[1..][j] == appointments[j + 1] && details[1..][j] == details[j + 1];
      EventDetailsListOfAll(appointments[1..], inviteesOf, parseIso, details[1..]);
      assert details == [details[0]] + details[1..];
    }
  }

  /** The first appointment that does not map decides the error; the ones
      after it are never looked at. */
  lemma {:induction false} EventDetailsListFailure(appointments: seq<Value>, inviteesOf: Value -> seq<Value>,
                                                   parseIso: string -> Option<int>, k: nat)
    requires k < |appointments|
    requires forall j :: 0 <= j < k ==> EventDetailsOf(appointments[j], inviteesOf, parseIso).Success?
    requires EventDetailsOf(appointments[k], inviteesOf, parseIso).Failure?
    ensures EventDetailsList(appointments, inviteesOf, parseIso)
         == Failure(EventDetailsOf(appointments[k], inviteesOf, parseIso).error)
  {
    if k > 0 {
      assert forall j :: 0 <= j < k - 1 ==> appointments[1..][j] == appointments[j + 1];
      EventDetailsListFailure(appointments[1..], inviteesOf, parseIso, k - 1);
    }
  }

  /** The loop at lines 99-122, building `event_details_list`. */
  method CollectEventDetails(appointments: seq<Value>, inviteesOf: Value -> seq<Value>,
                             parseIso: string -> Option<int>) returns (r: Result<seq<EventDetails>>)
    ensures r == EventDetailsList(appointments, inviteesOf, parseIso)
  {
    var details: seq<EventDetails> := [];
    var i := 0;
    while i < |appointments|
      invariant 0 <= i <= |appointments|
      invariant |details| == i
      invariant forall j :: 0 <= j < i ==>
                  EventDetailsOf(appointments[j], inviteesOf, parseIso) == Success(details[j])
    {
      var d := EventDetailsOf(appointments[i], inviteesOf, parseIso);
      if d.Failure? {
        EventDetailsListFailure(appointments, inviteesOf, parseIso, i);
        return Failure(d.error);
      }
      details := details + [d.value];
      i := i + 1;
    }
    EventDetailsListOfAll(appointments, inviteesOf, parseIso, details);
    r := Success(details);
  }

  /** Lines 96-126 once the tokens are settled: `tokens['access_token']`,
      then the appointments of its user, mapped one by one. */
  function EventDetailsFor(tokens: Tokens, scheduledEvents: Value -> seq<Value>,
                           inviteesOf: Value -> seq<Value>, parseIso: string -> Option<int>): (r: Result<seq<EventDetails>>)
    ensures "access_token" !in tokens ==> r == Failure(KeyError("access_token"))
  {
    var accessToken :- Lookup(tokens, "access_token");
    EventDetailsList(scheduledEvents(accessToken), inviteesOf, parseIso)
  }

  /** No appointments in the window give an empty list, not an error. */
  lemma NoAppointmentsNoDetails(tokens: Tokens, scheduledEvents: Value -> seq<Value>,
                                inviteesOf: Value -> seq<Value>, parseIso: string -> Option<int>)
    requires "access_token" in tokens && scheduledEvents(tokens["access_token"]) == []
    ensures EventDetailsFor(tokens, scheduledEvents, inviteesOf, parseIso) == Success([])
  {
  }

  /** `fetch_appointments`: settle the tokens against the token file, then
      collect the event details. */
  method FetchAppointments(file: TokenFile, acquired: Tokens, now: int, refresh: Value -> Tokens,
                           scheduledEvents: Value -> seq<Value>, inviteesOf: Value -> seq<Value>,
                           parseIso: string -> Option<int>) returns (r: Result<seq<EventDetails>>)
    requires file.Valid()
    modifies file
    ensures file.Valid()
    ensures var l := TokenLifecycle(old(file.contents), acquired, now, refresh);
            && file.saves == old(file.saves) + l.saved
            && (l.saved == [] ==> file.contents == old(file.contents))
            && r == match l.outcome
                    case Failure(e) => Failure(e)
                    case Success(tokens) => EventDetailsFor(tokens, scheduledEvents, inviteesOf, parseIso)
  {
    var tokens :- ObtainTokens(file, acquired, now, refresh);
    var accessToken :- Lookup(tokens, "access_token");
    var appointments := scheduledEvents(accessToken);
    r := CollectEventDetails(appointments, inviteesOf, parseIso);
  }
}
