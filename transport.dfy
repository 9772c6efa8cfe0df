/** The transport layer: the session-id syntax check made on construction,
    the argument guards of `api_request` and `login_request`, and the
    extraction of the session id from a `Set-Cookie` header value. The HTTP
    exchange itself is not modelled: the login response's `set-cookie`
    header, if any, is a parameter. */
module WorkflowyTransport {
  import opened Wrappers
  import opened PyValues
  import opened Strings

  /** `API_URL` without its `%s`. */
  const ApiUrlPrefix: string := "https://workflowy.com/"

  /** The name of the session cookie. */
  const SessionCookieName: string := "sessionid"

  datatype TransportError =
    | InvalidSessionId        // 'Invalid session ID'
    | NoSession               // 'A session ID is needed to make API calls.'
    | InvalidApiRequest       // 'Invalid API request'
    | MissingCredentials      // 'Username or password not provided.'
    | MalformedSessionCookie  // the `IndexError` of `split('=')[1]`

  /** The parts of an API request that the guards let through and that the
      model can state: the URL and the `Cookie` header. */
  datatype ApiCall = ApiCall(url: string, cookie: string, formFields: nat)

  /** A character of the class `[a-z0-9]`. */
  predicate SessionChar(c: char)
  {
    'a' <= c <= 'z' || '0' <= c <= '9'
  }

  /** `re.match('^[a-z0-9]{32}$', s)`: 32 characters of the class, where `$`
      also matches just before a final newline. */
  predicate SessionIdSyntax(s: string)
  {
    (|s| == 32 || (|s| == 33 && s[32] == '\n')) &&
    forall i :: 0 <= i < 32 ==> SessionChar(s[i])
  }

  /** The session-id check of `__init__`: `False` means "no session";
      anything else must be a `str` of the right syntax. `None` stands for
      `False` in the result. */
  function CheckSessionId(v: Py): (r: Result<Option<string>, TransportError>)
    ensures r.Ok? <==> v == PyBool(false) || (v.PyStr? && SessionIdSyntax(v.s))
    ensures r.Ok? && r.value.None? <==> v == PyBool(false)
    ensures r.Ok? && r.value.Some? ==> v == PyStr(r.value.value)
    ensures r.Err? ==> r.error == InvalidSessionId
  {
    if v == PyBool(false) then Ok(None)
    else if v.PyStr? && SessionIdSyntax(v.s) then Ok(Some(v.s))
    else Err(InvalidSessionId)
  }

  /** An accepted session id never contains the characters that the cookie
      parsing splits on. */
  lemma SessionIdHasNoSeparators(s: string)
    requires SessionIdSyntax(s)
    ensures ',' !in s && ';' !in s && '=' !in s
  {
    forall i | 0 <= i < |s|
      ensures s[i] != ',' && s[i] != ';' && s[i] != '='
    {
      if i < 32 {
        assert SessionChar(s[i]);
      }
    }
  }

  class Transport {
    /** `None` for `False`: no session. */
    const sessionId: Option<string>
    var clientId: Option<string>
    var mostRecentOperationTransactionId: Option<string>

    /** The session id, when there is one, passed the syntax check. */
    ghost predicate Valid()
    {
      sessionId.Some? ==> SessionIdSyntax(sessionId.value)
    }

    constructor Init(sessionId: Option<string>)
      requires sessionId.Some? ==> SessionIdSyntax(sessionId.value)
      ensures Valid() && this.sessionId == sessionId
      ensures clientId.None? && mostRecentOperationTransactionId.None?
    {
      this.sessionId := sessionId;
      clientId := None;
      mostRecentOperationTransactionId := None;
    }

    /** `__init__(session_id)`: raises on an invalid session id. */
    static method Create(session: Py) returns (r: Result<Transport, TransportError>)
      ensures r.Ok? <==> CheckSessionId(session).Ok?
      ensures r.Err? ==> r.error == InvalidSessionId
      ensures r.Ok? ==> fresh(r.value) && r.value.Valid() && r.value.sessionId == CheckSessionId(session).value
    {
      var checked := CheckSessionId(session);
      if checked.Err? {
        return Err(checked.error);
      }
      var t := new Transport.Init(checked.value);
      return Ok(t);
    }

    /** `api_request`: without a session it raises before anything else; a
        non-`str` endpoint or non-`dict` data raises; otherwise the request
        goes to `API_URL % endpoint` with the session cookie. */
    function ApiRequest(endpoint: Py, data: Py): (r: Result<ApiCall, TransportError>)
      ensures sessionId.None? ==> r == Err(NoSession)
      ensures sessionId.Some? && !(endpoint.PyStr? && data.PyDict?) ==> r == Err(InvalidApiRequest)
      ensures r.Ok? <==> sessionId.Some? && endpoint.PyStr? && data.PyDict?
      ensures r.Ok? ==> |ApiUrlPrefix| <= |r.value.url| && r.value.url[..|ApiUrlPrefix|] == ApiUrlPrefix
                        && r.value.url[|ApiUrlPrefix|..] == endpoint.s
      ensures r.Ok? ==> r.value.formFields == data.size
    {
      if sessionId.None? then Err(NoSession)
      else if !endpoint.PyStr? || !data.PyDict? then Err(InvalidApiRequest)
      else Ok(ApiCall(ApiUrlPrefix + endpoint.s, "sessionid=" + sessionId.value, data.size))
    }

    /** The cookie an API request sends is one the login extraction reads the
        same session id back from. */
    lemma ApiCookieRoundTrip(endpoint: Py, data: Py)
      requires Valid() && ApiRequest(endpoint, data).Ok?
      ensures FindSession([ApiRequest(endpoint, data).value.cookie]) == Ok(Some(sessionId.value))
    {
      var cookie := ApiRequest(endpoint, data).value.cookie;
      SessionCookieRoundTrip(sessionId.value, "", []);
      assert "sessionid=" + sessionId.value + "" == cookie;
      assert [cookie] + [] == [cookie];
    }

    /** `login_request`: raises when the username or the password is falsy;
        otherwise, given the response's `set-cookie` header (`None` when the
        response has none), returns the session id of the first cookie that
        mentions `sessionid`, or `None` for `False`. */
    method LoginRequest(username: Py, password: Py, setCookie: Option<string>)
      returns (r: Result<Option<string>, TransportError>)
      ensures !Truthy(username) || !Truthy(password) ==> r == Err(MissingCredentials)
      ensures Truthy(username) && Truthy(password) && setCookie.None? ==> r == Ok(None)
      ensures Truthy(username) && Truthy(password) && setCookie.Some? ==> r == SessionFromHeader(setCookie.value)
    {
      if !Truthy(username) || !Truthy(password) {
        return Err(MissingCredentials);
      }
      if setCookie.None? {
        return Ok(None);
      }
      var cookies := Split(setCookie.value, ", ");
      for i := 0 to |cookies|
        invariant FindSession(cookies[i..]) == FindSession(cookies)
      {
        assert cookies[i..] == [cookies[i]] + cookies[i + 1..];
        if Contains(cookies[i], SessionCookieName) {
          var parts := Split(Split(cookies[i], ";")[0], "=");
          if |parts| < 2 {
            return Err(MalformedSessionCookie);
          }
          return Ok(Some(parts[1]));
        }
      }
      assert cookies[|cookies|..] == [];
      return Ok(None);
    }
  }

  /** The value of one cookie that mentions `sessionid`: the text before the
      first `;`, split on `=`, element 1. */
  function CookieValue(cookie: string): (r: Result<Option<string>, TransportError>)
    ensures r.Ok? ==> r.value.Some?
    ensures r.Ok? <==> Contains(Split(cookie, ";")[0], "=")
  {
    var parts := Split(Split(cookie, ";")[0], "=");
    SplitMore(Split(cookie, ";")[0], "=");
    if |parts| < 2 then Err(MalformedSessionCookie) else Ok(Some(parts[1]))
  }

  /** The first cookie of `cookies` that mentions `sessionid` decides. */
  function FindSession(cookies: seq<string>): (r: Result<Option<string>, TransportError>)
  {
    if cookies == [] then Ok(None)
    else if Contains(cookies[0], SessionCookieName) then CookieValue(cookies[0])
    else FindSession(cookies[1..])
  }

  /** The session id carried by a `Set-Cookie` header value whose cookies
      are separated by `", "`. */
  function SessionFromHeader(header: string): Result<Option<string>, TransportError>
  {
    FindSession(Split(header, ", "))
  }

  /** No session is found exactly when no cookie mentions `sessionid`. */
  lemma {:induction false} FindSessionNone(cookies: seq<string>)
    ensures FindSession(cookies) == Ok(None) <==>
            forall i :: 0 <= i < |cookies| ==> !Contains(cookies[i], SessionCookieName)
  {
    if cookies != [] {
      FindSessionNone(cookies[1..]);
      if !Contains(cookies[0], SessionCookieName) {
        forall i | 0 <= i < |cookies| && (forall j :: 0 <= j < |cookies| - 1 ==> !Contains(cookies[1..][j], SessionCookieName))
          ensures !Contains(cookies[i], SessionCookieName)
        {
          if i > 0 {
            assert cookies[i] == cookies[1..][i - 1];
          }
        }
      }
    }
  }

  /** When a session is found, it comes from the first cookie that mentions
      `sessionid`. */
  lemma {:induction false} FindSessionFirst(cookies: seq<string>)
    requires FindSession(cookies) != Ok(None)
    ensures exists i :: 0 <= i < |cookies| && Contains(cookies[i], SessionCookieName)
              && (forall j :: 0 <= j < i ==> !Contains(cookies[j], SessionCookieName))
              && FindSession(cookies) == CookieValue(cookies[i])
  {
    if Contains(cookies[0], SessionCookieName) {
      assert Contains(cookies[0], SessionCookieName) && FindSession(cookies) == CookieValue(cookies[0]);
    } else {
      FindSessionFirst(cookies[1..]);
      var i :| 0 <= i < |cookies[1..]| && Contains(cookies[1..][i], SessionCookieName)
               && (forall j :: 0 <= j < i ==> !Contains(cookies[1..][j], SessionCookieName))
               && FindSession(cookies[1..]) == CookieValue(cookies[1..][i]);
      assert cookies[i + 1] == cookies[1..][i];
      forall j | 0 <= j < i + 1
        ensures !Contains(cookies[j], SessionCookieName)
      {
        if j > 0 {
          assert cookies[j] == cookies[1..][j - 1];
        }
      }
    }
  }

  /** The cookie `sessionid=<id>` followed by its attributes gives back the
      id, whatever cookies follow it. */
  lemma SessionCookieRoundTrip(id: string, attributes: string, others: seq<string>)
    requires SessionIdSyntax(id)
    requires attributes == [] || attributes[0] == ';'
    ensures FindSession(["sessionid=" + id + attributes] + others) == Ok(Some(id))
  {
    var cookie := "sessionid=" + id + attributes;
    var pair := "sessionid=" + id;
    SessionIdHasNoSeparators(id);
    assert cookie[..|SessionCookieName|] == SessionCookieName;
    IndexOfAtStart(cookie, SessionCookieName);
    assert ([cookie] + others)[0] == cookie;
    // The text before the first ';' is `sessionid=<id>`.
    assert Split(cookie, ";")[0] == pair by {
      assert ';' !in pair;
      IndexOfPastPrefix(pair, attributes, ";");
      if attributes == [] {
        assert cookie == pair + [];
        NoOccurrenceWithoutFirstChar(pair, ";");
      } else {
        IndexOfAtStart(attributes, ";");
      }
    }
    // Splitting it on '=' gives `["sessionid", id]`.
    assert Split(pair, "=") == [SessionCookieName, id] by {
      assert pair == SessionCookieName + ("=" + id);
      IndexOfPastPrefix(SessionCookieName, "=" + id, "=");
      IndexOfAtStart("=" + id, "=");
      assert pair[|SessionCookieName| + 1..] == id;
      NoOccurrenceWithoutFirstChar(id, "=");
    }
  }

  /** A string without the first character of `t` does not contain `t`. */
  lemma NoOccurrenceWithoutFirstChar(s: string, t: string)
    requires t != [] && t[0] !in s
    ensures IndexOf(s, t).None?
  {
    IndexOfPastPrefix(s, [], t);
    assert s + [] == s;
  }

  /** Splitting on a separator that occurs gives at least two pieces. */
  lemma SplitMore(s: string, sep: string)
    requires sep != []
    ensures |Split(s, sep)| >= 2 <==> IndexOf(s, sep).Some?
  {
  }
}
