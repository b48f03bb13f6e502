/** Session set-up in `make_session` (scraper.py:57-72): the headers a session
    sends and the CSRF token LinkedIn expects, mirrored from `JSESSIONID`. */
module Sessions {
  import opened Wrappers
  import opened Json
  import opened PyText
  import opened Cookies

  type Headers = map<string, string>

  /** `DEFAULT_HEADERS` (scraper.py:22-29). */
  const DefaultHeaders: Headers := map[
    "accept" := "text/html,application/xhtml+xml,application/xml;q=0.9,*/*;q=0.8",
    "accept-language" := "en-US,en;q=0.9",
    "cache-control" := "no-cache",
    "pragma" := "no-cache",
    "upgrade-insecure-requests" := "1",
    "user-agent" := "Mozilla/5.0 (Windows NT 10.0; Win64; x64) AppleWebKit/537.36 (KHTML, like Gecko) Chrome/118.0.0.0 Safari/537.36"
  ]

  const CsrfHeader := "csrf-token"
  const Quote: set<char> := {'"'}

  /** The four headers an authenticated session adds. */
  function AuthHeaders(token: string): Headers
  {
    map[
      CsrfHeader := token,
      "x-restli-protocol-version" := "2.0.0",
      "x-li-lang" := "en_US",
      "x-li-track" := "{\"clientVersion\":\"1.0.*\",\"osName\":\"web\"}"
    ]
  }

  /** The headers a session sends and the cookies it carries. */
  datatype Session = Session(headers: Headers, cookies: Jar)

  /** `jsid.strip('"')` on a `JSESSIONID` that is not a string raises. */
  datatype SessionError = NotAString(jsessionid: Value)

  function SessionErrorText(e: SessionError): (m: string)
    ensures m != ""
  {
    "'" + TypeName(e.jsessionid) + "' object has no attribute 'strip'"
  }

  /** A session made without cookies or headers. */
  const PlainSession := Session(DefaultHeaders, map[])

  /** `cookies.get("JSESSIONID")`. */
  function JsessionId(jar: Jar): Value
  {
    if Str("JSESSIONID") in jar then jar[Str("JSESSIONID")] else Null
  }

  /** The CSRF token: `JSESSIONID` with every leading and trailing double
      quote removed (`str.strip('"')`), not merely one enclosing pair. */
  function CsrfToken(jsid: string): (token: string)
    ensures Framed(jsid, token, Quote)
    ensures Bare(token, Quote)
  {
    Strip(jsid, Quote)
  }

  /** The token is empty exactly when `JSESSIONID` consists of quotes only. */
  lemma CsrfTokenEmpty(jsid: string)
    ensures CsrfToken(jsid) == "" <==> AllIn(jsid, Quote)
  {
    StripEmptyIff(jsid, Quote);
  }

  /** Stripping is not "remove one pair of quotes": doubled quotes go too. */
  lemma CsrfTokenDoubleQuotes()
    ensures CsrfToken("\"\"ajax:123\"\"") == "ajax:123"
  {
    var s := "\"\"ajax:123\"\"";
    assert FramedAt(s, "ajax:123", Quote, 2);
    StripUnique(s, Quote, "ajax:123");
  }

  /** `make_session(cookies, headers)`. `headers or DEFAULT_HEADERS` picks the
      base headers; cookies, when there are any, are carried and, when
      `JSESSIONID` is truthy, mirrored into the CSRF header. */
  function MakeSession(cookies: Option<Jar>, headers: Option<Headers>): (r: Result<Session, SessionError>)
    ensures var base := BaseHeaders(headers);
      var jar := if cookies.Some? then cookies.value else map[];
      var jsid := JsessionId(jar);
      && (r.Failure? <==> |jar| > 0 && Truthy(jsid) && !jsid.Str?)
      && (r.Success? ==> (
        && r.value.cookies == jar
        && (forall h :: h in base && h !in AuthHeaders("") ==> h in r.value.headers && r.value.headers[h] == base[h])
        && (forall h :: h in r.value.headers ==> h in base || h in AuthHeaders(""))
        && (|jar| > 0 && Truthy(jsid) ==> r.value.headers == base + AuthHeaders(CsrfToken(jsid.s)))
        && (!(|jar| > 0 && Truthy(jsid)) ==> r.value.headers == base)))
  {
    var base := BaseHeaders(headers);
    if cookies.None? || |cookies.value| == 0 then Success(Session(base, map[]))
    else
      var jsid := JsessionId(cookies.value);
      if !Truthy(jsid) then Success(Session(base, cookies.value))
      else if jsid.Str? then Success(Session(base + AuthHeaders(CsrfToken(jsid.s)), cookies.value))
      else Failure(NotAString(jsid))
  }

  /** `headers or DEFAULT_HEADERS.copy()`: an absent or empty map falls back. */
  function BaseHeaders(headers: Option<Headers>): (h: Headers)
    ensures headers.Some? && |headers.value| > 0 ==> h == headers.value
    ensures headers.None? || |headers.value| == 0 ==> h == DefaultHeaders
  {
    if headers.Some? && |headers.value| > 0 then headers.value else DefaultHeaders
  }

  /** With the default headers, the `csrf-token` header is present exactly when
      the cookies hold a truthy `JSESSIONID`, and then holds that value with
      its surrounding quotes stripped; without cookies nothing can fail. */
  lemma CsrfHeaderIff(cookies: Option<Jar>)
    ensures cookies.None? ==> MakeSession(cookies, None) == Success(PlainSession)
    ensures MakeSession(cookies, None).Success? ==>
      var s := MakeSession(cookies, None).value;
      var jsid := JsessionId(s.cookies);
      && (CsrfHeader in s.headers <==> Truthy(jsid))
      && (CsrfHeader in s.headers ==> jsid.Str? && s.headers[CsrfHeader] == CsrfToken(jsid.s))
  {
    var jar := if cookies.Some? then cookies.value else map[];
    var jsid := JsessionId(jar);
    NoCsrfByDefault();
    if |jar| == 0 {
      assert jsid == Null;
    } else if Truthy(jsid) && jsid.Str? {
      CsrfHeaderSet(CsrfToken(jsid.s));
    }
  }

  /** The default headers do not carry a CSRF token. */
  lemma NoCsrfByDefault()
    ensures CsrfHeader !in DefaultHeaders
  {
  }

  /** Adding the LinkedIn headers to the defaults sets `csrf-token` to the token. */
  lemma CsrfHeaderSet(token: string)
    ensures CsrfHeader in DefaultHeaders + AuthHeaders(token)
    ensures (DefaultHeaders + AuthHeaders(token))[CsrfHeader] == token
  {
  }

  /** A `JSESSIONID` of two quote characters is truthy, so the header is set,
      to the empty string. */
  lemma CsrfHeaderEmptyToken()
    ensures var jar := map[Str("JSESSIONID") := Str("\"\"")];
      var r := MakeSession(Some(jar), None);
      && r.Success?
      && CsrfHeader in r.value.headers
      && r.value.headers[CsrfHeader] == ""
  {
    var jar := map[Str("JSESSIONID") := Str("\"\"")];
    assert AllIn("\"\"", Quote);
    CsrfTokenEmpty("\"\"");
    assert |jar| > 0 by { assert Str("JSESSIONID") in jar; }
    assert JsessionId(jar) == Str("\"\"");
    CsrfHeaderSet("");
  }
}
