/** The Calendly side of the OAuth lifecycle in fetchccalendlyinfo.py: the
    authorization URL, the expiry test, the merge of a refresh response into
    the stored token dict, and the acquire / refresh / save decisions at the
    start of `fetch_appointments`. The HTTP token endpoint is an oracle: the
    caller supplies the response of the code exchange and, as a function of
    the refresh token sent, the response of the refresh grant (section 6 of
    RFC 6749). */
module CalendlyTokens {
  import opened Json

  /** A token dict as stored in calendly_tokens.json. */
  type Tokens = Dict

  const AuthorizeEndpoint: string := "https://auth.calendly.com/oauth/authorize"

  // ---------------------------------------------------------------------
  // The authorization URL and a reader for it
  // ---------------------------------------------------------------------

  /** `get_authorization_url`: the authorize endpoint with the client id,
      `response_type=code` and the redirect URI as query parameters, the
      same text as the source's f-string. The values are inserted as they
      are, without percent-encoding. */
  function AuthorizationUrl(clientId: string, redirectUri: string): (url: string)
    ensures |AuthorizeEndpoint| < |url| && url[..|AuthorizeEndpoint|] == AuthorizeEndpoint
    ensures |redirectUri| <= |url| && url[|url| - |redirectUri|..] == redirectUri
  {
    AuthorizeEndpoint + "?" + ClientIdKey + clientId + "&" + ResponseType + "&" + RedirectUriKey + redirectUri
  }

  const ClientIdKey: string := "client_id="
  const ResponseType: string := "response_type=code"
  const RedirectUriKey: string := "redirect_uri="

  /** Python's `s.split(sep)`: the pieces between the separators, in order,
      with empty pieces kept. */
  function Split(s: string, sep: char): (parts: seq<string>)
    ensures |parts| >= 1
  {
    if s == [] then [[]]
    else
      var rest := Split(s[1..], sep);
      if s[0] == sep then [[]] + rest else [[s[0]] + rest[0]] + rest[1..]
  }

  /** The text before the first `c` (all of `s` when there is none). */
  function Before(s: string, c: char): (r: string)
    ensures |r| <= |s| && r == s[..|r|]
  {
    if s == [] || s[0] == c then [] else [s[0]] + Before(s[1..], c)
  }

  /** The text after the first `c` (empty when there is none). */
  function After(s: string, c: char): (r: string)
    ensures |r| <= |s|
  {
    if s == [] then [] else if s[0] == c then s[1..] else After(s[1..], c)
  }

  lemma {:induction false} SplitWithoutSeparator(a: string, sep: char)
    requires sep !in a
    ensures Split(a, sep) == [a]
  {
    if a != [] {
      SplitWithoutSeparator(a[1..], sep);
      assert [a[0]] + a[1..] == a;
    }
  }

  lemma {:induction false} SplitAtFirstSeparator(a: string, sep: char, b: string)
    requires sep !in a
    ensures Split(a + [sep] + b, sep) == [a] + Split(b, sep)
  {
    var s := a + [sep] + b;
    if a == [] {
      assert s[1..] == b;
    } else {
      assert s[0] == a[0] && s[1..] == a[1..] + [sep] + b;
      SplitAtFirstSeparator(a[1..], sep, b);
      assert [a[0]] + a[1..] == a;
    }
  }

  lemma {:induction false} BeforeAfterFirst(a: string, c: char, b: string)
    requires c !in a
    ensures Before(a + [c] + b, c) == a
    ensures After(a + [c] + b, c) == b
  {
    var s := a + [c] + b;
    if a == [] {
      assert s[1..] == b;
    } else {
      assert s[1..] == a[1..] + [c] + b;
      BeforeAfterFirst(a[1..], c, b);
    }
  }

  /** A character absent from both halves is absent from their join. */
  lemma NotInJoin(a: string, b: string, c: char)
    requires c !in a && c !in b
    ensures c !in a + b
  {
    assert forall i :: 0 <= i < |a + b| ==> (a + b)[i] == if i < |a| then a[i] else b[i - |a|];
  }

  /** The URL as the endpoint, `?`, and three parameters joined by `&`. */
  lemma AuthorizationUrlShape(clientId: string, redirectUri: string)
    ensures AuthorizationUrl(clientId, redirectUri)
         == AuthorizeEndpoint + ['?'] + ((ClientIdKey + clientId) + ['&'] + (ResponseType + ['&'] + (RedirectUriKey + redirectUri)))
  {
  }

  /** Reading the URL back: the part before `?` is the authorize endpoint,
      and as long as neither value contains `&` the query splits into exactly
      the three parameters, client id first and redirect URI last. */
  lemma AuthorizationUrlParameters(clientId: string, redirectUri: string)
    requires '&' !in clientId && '&' !in redirectUri
    ensures Before(AuthorizationUrl(clientId, redirectUri), '?') == AuthorizeEndpoint
    ensures Split(After(AuthorizationUrl(clientId, redirectUri), '?'), '&')
         == [ClientIdKey + clientId, ResponseType, RedirectUriKey + redirectUri]
  {
    var p1, p3 := ClientIdKey + clientId, RedirectUriKey + redirectUri;
    var tail := ResponseType + ['&'] + p3;
    AuthorizationUrlShape(clientId, redirectUri);
    assert '?' !in AuthorizeEndpoint;
    BeforeAfterFirst(AuthorizeEndpoint, '?', p1 + ['&'] + tail);
    assert '&' !in ClientIdKey && '&' !in RedirectUriKey && '&' !in ResponseType;
    NotInJoin(ClientIdKey, clientId, '&');
    NotInJoin(RedirectUriKey, redirectUri, '&');
    SplitAtFirstSeparator(p1, '&', tail);
    SplitAtFirstSeparator(ResponseType, '&', p3);
    SplitWithoutSeparator(p3, '&');
  }

  // ---------------------------------------------------------------------
  // Expiry and refresh merge
  // ---------------------------------------------------------------------

  /** `not tokens` on what `load_tokens` returned: Python's falsity of None
      or of a dict, so nothing was loaded or the file held an empty dict. */
  function NeedsAuthorization(loaded: Option<Tokens>): (needed: bool)
    ensures needed <==> !(loaded.Some? && Truthy(Obj(loaded.value)))
  {
    loaded.None? || loaded.value == map[]
  }

  /** The test at fetchccalendlyinfo.py:90, with `now` the clock in whole seconds (its ceiling, see `ExpiredAtFloatClock`):
      `tokens['created_at']`, then `tokens['expires_in']` (each a KeyError
      when missing), their sum (a TypeError unless both are numbers), and a
      strict comparison with the current time. */
  function IsExpired(tokens: Tokens, now: int): (r: Result<bool>)
    ensures "created_at" !in tokens ==> r == Failure(KeyError("created_at"))
    ensures "created_at" in tokens && "expires_in" !in tokens ==> r == Failure(KeyError("expires_in"))
    ensures r.Success? <==>
              "created_at" in tokens && "expires_in" in tokens
              && AsNumber(tokens["created_at"]).Some? && AsNumber(tokens["expires_in"]).Some?
    ensures "created_at" in tokens && "expires_in" in tokens
            && !(AsNumber(tokens["created_at"]).Some? && AsNumber(tokens["expires_in"]).Some?) ==>
              r == Failure(TypeError)
    ensures r.Success? ==>
              (r.value <==> now > AsNumber(tokens["created_at"]).value + AsNumber(tokens["expires_in"]).value)
  {
    var createdAt :- Lookup(tokens, "created_at");
    var expiresIn :- Lookup(tokens, "expires_in");
    match (AsNumber(createdAt), AsNumber(expiresIn))
    case (Some(c), Some(e)) => Success(now > c + e)
    case _ => Failure(TypeError)
  }

  /** `math.ceil` of a float: the least integer not below `t`. */
  function Ceiling(t: real): (c: int)
    ensures t <= c as real < t + 1.0
  {
    -((-t).Floor)
  }

  /** `datetime.now().timestamp()` is a float. Against integer `created_at`
      and `expires_in`, comparing it with their sum is the same as comparing
      its ceiling, so `IsExpired` at the ceiling decides exactly as the
      source does at the float clock. */
  lemma ExpiredAtFloatClock(tokens: Tokens, clock: real)
    requires "created_at" in tokens && tokens["created_at"].Num?
    requires "expires_in" in tokens && tokens["expires_in"].Num?
    ensures IsExpired(tokens, Ceiling(clock))
         == Success(clock > (tokens["created_at"].n + tokens["expires_in"].n) as real)
  {
    var deadline := tokens["created_at"].n + tokens["expires_in"].n;
    var c := Ceiling(clock);
    assert c > deadline <==> clock > deadline as real by {
      if c > deadline {
        assert c - 1 >= deadline;
        assert clock > (c - 1) as real;
      }
    }
  }

  /** At the exact expiry instant the token is still considered valid. */
  lemma ExpiryBoundary(tokens: Tokens, createdAt: int, expiresIn: int)
    requires "created_at" in tokens && tokens["created_at"] == Num(createdAt)
    requires "expires_in" in tokens && tokens["expires_in"] == Num(expiresIn)
    ensures IsExpired(tokens, createdAt + expiresIn) == Success(false)
    ensures IsExpired(tokens, createdAt + expiresIn + 1) == Success(true)
  {
  }

  /** Once expired, a token stays expired as time moves on. */
  lemma ExpiryMonotone(tokens: Tokens, now: int, later: int)
    requires now <= later
    requires IsExpired(tokens, now) == Success(true)
    ensures IsExpired(tokens, later) == Success(true)
  {
  }

  /** `tokens.update(new_tokens)`: every key of the response overrides, every
      other stored key keeps its value. */
  function Merge(stored: Tokens, response: Tokens): (merged: Tokens)
    ensures merged.Keys == stored.Keys + response.Keys
    ensures forall k :: k in response ==> merged[k] == response[k]
    ensures forall k :: k in stored && k !in response ==> merged[k] == stored[k]
  {
    stored + response
  }

  /** Merging the same response twice changes nothing more. */
  lemma MergeIdempotent(stored: Tokens, response: Tokens)
    ensures Merge(Merge(stored, response), response) == Merge(stored, response)
  {
  }

  /** A refresh response without a `refresh_token` leaves the stored one in
      place; one with it replaces it. */
  lemma RefreshTokenSurvives(stored: Tokens, response: Tokens)
    requires "refresh_token" in stored
    ensures "refresh_token" !in response ==>
              Merge(stored, response)["refresh_token"] == stored["refresh_token"]
    ensures "refresh_token" in response ==>
              Merge(stored, response)["refresh_token"] == response["refresh_token"]
  {
  }

  // ---------------------------------------------------------------------
  // The acquire / refresh / save decisions
  // ---------------------------------------------------------------------

  /** What the start of `fetch_appointments` returns (the tokens it goes on
      with, or the exception it raises) and every dict it saves, in order. */
  datatype Lifecycle = Lifecycle(outcome: Result<Tokens>, saved: seq<Tokens>)

  /** The tokens used after lines 81-94, given the loaded file, the response
      of the code exchange, the current time and the refresh grant. */
  function TokenLifecycle(loaded: Option<Tokens>, acquired: Tokens, now: int,
                          refresh: Value -> Tokens): (l: Lifecycle)
    ensures |l.saved| <= 2
  {
    var tokens := StartingTokens(loaded, acquired);
    var first := if NeedsAuthorization(loaded) then [acquired] else [];
    match IsExpired(tokens, now)
    case Failure(e) => Lifecycle(Failure(e), first)
    case Success(expired) =>
      if !expired then Lifecycle(Success(tokens), first)
      else match Lookup(tokens, "refresh_token")
        case Failure(e) => Lifecycle(Failure(e), first)
        case Success(refreshToken) =>
          var merged := Merge(tokens, refresh(refreshToken));
          Lifecycle(Success(merged), first + [merged])
  }

  /** The tokens the lifecycle starts from: the loaded ones, or the freshly
      acquired ones when there were none. */
  function StartingTokens(loaded: Option<Tokens>, acquired: Tokens): Tokens {
    if NeedsAuthorization(loaded) then acquired else loaded.value
  }

  /** Whether the lifecycle reaches the refresh grant: the starting tokens
      have expired and carry a `refresh_token`. */
  predicate Refreshes(loaded: Option<Tokens>, acquired: Tokens, now: int) {
    var t := StartingTokens(loaded, acquired);
    IsExpired(t, now) == Success(true) && "refresh_token" in t
  }

  /** Tokens are saved once after acquisition and once after a refresh, and
      at no other time; the first save after acquisition saves the acquired
      dict. */
  lemma SaveCount(loaded: Option<Tokens>, acquired: Tokens, now: int, refresh: Value -> Tokens)
    ensures var l := TokenLifecycle(loaded, acquired, now, refresh);
            |l.saved| == (if NeedsAuthorization(loaded) then 1 else 0)
                         + (if Refreshes(loaded, acquired, now) then 1 else 0)
            && (NeedsAuthorization(loaded) ==> l.saved[0] == acquired)
  {
  }

  /** A token that has not expired is used as it is: no refresh and no save
      beyond the one after acquisition. */
  lemma NotExpiredNotRefreshed(loaded: Option<Tokens>, acquired: Tokens, now: int, refresh: Value -> Tokens)
    requires IsExpired(StartingTokens(loaded, acquired), now) == Success(false)
    ensures var l := TokenLifecycle(loaded, acquired, now, refresh);
            l.outcome == Success(StartingTokens(loaded, acquired))
            && l.saved == (if NeedsAuthorization(loaded) then [acquired] else [])
  {
  }

  /** An expired token is refreshed with its own `refresh_token`, the response
      is merged into it, and the merged dict is both saved last and used. */
  lemma ExpiredIsRefreshed(loaded: Option<Tokens>, acquired: Tokens, now: int, refresh: Value -> Tokens)
    requires Refreshes(loaded, acquired, now)
    ensures var t := StartingTokens(loaded, acquired);
            var merged := Merge(t, refresh(t["refresh_token"]));
            var l := TokenLifecycle(loaded, acquired, now, refresh);
            l.outcome == Success(merged)
            && |l.saved| == (if NeedsAuthorization(loaded) then 2 else 1)
            && l.saved[|l.saved| - 1] == merged
  {
  }

  /** The two exceptions the lifecycle can raise, and what has been saved by
      then: a malformed expiry test raises its KeyError or TypeError, and an
      expired dict without `refresh_token` raises that KeyError; either way
      only the acquisition save, if any, took place and no refresh was sent. */
  lemma LifecycleFailures(loaded: Option<Tokens>, acquired: Tokens, now: int, refresh: Value -> Tokens)
    ensures var t := StartingTokens(loaded, acquired);
            var l := TokenLifecycle(loaded, acquired, now, refresh);
            IsExpired(t, now).Failure? ==>
              l == Lifecycle(Failure(IsExpired(t, now).error), if NeedsAuthorization(loaded) then [acquired] else [])
    ensures var t := StartingTokens(loaded, acquired);
            var l := TokenLifecycle(loaded, acquired, now, refresh);
            IsExpired(t, now) == Success(true) && "refresh_token" !in t ==>
              l == Lifecycle(Failure(KeyError("refresh_token")), if NeedsAuthorization(loaded) then [acquired] else [])
    ensures TokenLifecycle(loaded, acquired, now, refresh).outcome.Failure? ==>
              (IsExpired(StartingTokens(loaded, acquired), now).Failure?
               || (IsExpired(StartingTokens(loaded, acquired), now) == Success(true)
                   && "refresh_token" !in StartingTokens(loaded, acquired)))
  {
  }

  /** Whenever the lifecycle succeeds, the file holds what is used: the last
      saved dict, or the loaded one when nothing was saved. */
  lemma PersistedMatchesUsed(loaded: Option<Tokens>, acquired: Tokens, now: int, refresh: Value -> Tokens)
    requires TokenLifecycle(loaded, acquired, now, refresh).outcome.Success?
    ensures var l := TokenLifecycle(loaded, acquired, now, refresh);
            (l.saved == [] ==> loaded == Some(l.outcome.value))
            && (l.saved != [] ==> l.saved[|l.saved| - 1] == l.outcome.value)
  {
  }

  /** calendly_tokens.json: what it holds (None when there is no file) and
      the ghost history of every `save_tokens` call. */
  class TokenFile {
    var contents: Option<Tokens>
    ghost var saves: seq<Tokens>

    ghost predicate Valid()
      reads this
    {
      saves != [] ==> contents == Some(saves[|saves| - 1])
    }

    constructor (initial: Option<Tokens>)
      ensures Valid() && contents == initial && saves == []
    {
      contents := initial;
      saves := [];
    }

    /** `load_tokens`: the stored dict, or None when the file is missing. */
    method Load() returns (tokens: Option<Tokens>)
      ensures tokens == contents
    {
      tokens := contents;
    }

    /** `save_tokens`: overwrite the file. */
    method Save(tokens: Tokens)
      requires Valid()
      modifies this
      ensures Valid()
      ensures contents == Some(tokens) && saves == old(saves) + [tokens]
    {
      contents := Some(tokens);
      saves := saves + [tokens];
    }
  }

  /** Lines 81-94 of `fetch_appointments`, against the token file. */
  method ObtainTokens(file: TokenFile, acquired: Tokens, now: int, refresh: Value -> Tokens)
    returns (r: Result<Tokens>)
    requires file.Valid()
    modifies file
    ensures file.Valid()
    ensures var l := TokenLifecycle(old(file.contents), acquired, now, refresh);
            r == l.outcome
            && file.saves == old(file.saves) + l.saved
            && (l.saved == [] ==> file.contents == old(file.contents))
  {
    var loaded := file.Load();
    var tokens: Tokens;
    if NeedsAuthorization(loaded) {
      tokens := acquired;
      file.Save(tokens);
    } else {
      tokens := loaded.value;
    }
    var expired := IsExpired(tokens, now);
    if expired.Failure? {
      return Failure(expired.error);
    }
    if expired.value {
      var refreshToken := Lookup(tokens, "refresh_token");
      if refreshToken.Failure? {
        return Failure(refreshToken.error);
      }
      tokens := Merge(tokens, refresh(refreshToken.value));
      file.Save(tokens);
    }
    r := Success(tokens);
  }
}
