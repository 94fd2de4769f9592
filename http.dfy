/**
 * The generic client of ironic_inspector_client/common/http.py: error
 * extraction from responses, the server's supported version range, version
 * negotiation at construction, the base URL, and the one request primitive
 * that every typed operation goes through.
 */
module Http {
  import opened Values
  import opened Versions
  import opened Transport

  const MinVersionHeader := "X-OpenStack-Ironic-Inspector-API-Minimum-Version"
  const MaxVersionHeader := "X-OpenStack-Ironic-Inspector-API-Maximum-Version"
  const VersionHeader := "X-OpenStack-Ironic-Inspector-API-Version"

  /** What a missing minimum or maximum version header stands for. */
  const DefaultVersionString := "1.0"

  /**
   * The fallback URL, `http://<this host's IPv4 address>:5050`. The address
   * depends on the machine, so the model leaves the string unconstrained.
   */
  const DefaultUrl: string

  // ---------------------------------------------------------------------------
  // ClientError

  /** The body is JSON of the shape `{"error": {"message": m, ...}, ...}`. */
  predicate HasErrorMessage(parsed: Option<Value>) {
    && parsed.Some? && parsed.value.Dict? && "error" in parsed.value.fields
    && parsed.value.fields["error"].Dict? && "message" in parsed.value.fields["error"].fields
  }

  /**
   * The message a ClientError carries: `json.loads(text)['error']['message']`,
   * or the decoded body itself when parsing fails (ValueError) or the JSON has
   * another shape (KeyError, TypeError).
   */
  function ErrorMessage(text: string, parsed: Option<Value>): (m: Value)
    ensures HasErrorMessage(parsed) ==> m == parsed.value.fields["error"].fields["message"]
    ensures !HasErrorMessage(parsed) ==> m == Str(text)
  {
    if parsed.None? then Str(text)
    else
      var error := Subscript(parsed.value, "error");
      if error.Err? then Str(text)
      else
        var message := Subscript(error.value, "message");
        if message.Err? then Str(text) else message.value
  }

  /** The exception `ClientError(response)` turns into: decoding the body as UTF-8 comes first and may fail. */
  function ClientErrorFor(resp: Response): Error {
    match resp.text
    case None => UnicodeDecodeError
    case Some(text) => ClientError(resp.status, ErrorMessage(text, resp.json))
  }

  /** `ClientError.raise_if_needed`: the error raised for a response, if any. */
  function RaiseIfNeeded(resp: Response): Option<Error> {
    if resp.status >= 400 then Some(ClientErrorFor(resp)) else None
  }

  /** What `request` returns or raises for the reply to its one session call. */
  function RequestOutcome(reply: Reply): Result<Response> {
    match reply
    case ConnectionFailed => Err(ConnectionError)
    case Answered(resp) =>
      match RaiseIfNeeded(resp)
      case Some(e) => Err(e)
      case None => Ok(resp)
  }

  /**
   * A request succeeds exactly when the server answers below 400; otherwise the
   * error carries the status and the message chosen from the body.
   */
  lemma RequestOutcomeStatus(resp: Response)
    ensures RequestOutcome(Answered(resp)).Ok? <==> resp.status < 400
    ensures RequestOutcome(Answered(resp)).Ok? ==> RequestOutcome(Answered(resp)).value == resp
    ensures resp.status >= 400 && resp.text.Some? ==>
      RequestOutcome(Answered(resp)) == Err(ClientError(resp.status, ErrorMessage(resp.text.value, resp.json)))
    ensures resp.status >= 400 && resp.text.None? ==> RequestOutcome(Answered(resp)) == Err(UnicodeDecodeError)
  {
  }

  // ---------------------------------------------------------------------------
  // Server version range

  /** The version probe: an unauthenticated GET of the given URL. */
  function ProbeCall(url: string): Call {
    Call(url, "get", map[], NoPayload, Unauthenticated)
  }

  function HeaderOr(headers: map<string, string>, name: string, default: string): string {
    if name in headers then headers[name] else default
  }

  /**
   * `server_api_versions` after the probe: 404 counts as an answer (older
   * servers), any other status from 400 up raises; each header defaults to "1.0".
   */
  function ServerRange(resp: Response): (r: Result<(seq<int>, seq<int>)>)
    ensures resp.status >= 400 && resp.status != 404 ==> r == Err(ClientErrorFor(resp))
    ensures r.Ok? ==> |r.value.0| >= 1 && |r.value.1| >= 1
    ensures r.Err? ==> r.error == ClientErrorFor(resp) || r.error == ValueError
    ensures resp.status < 400 || resp.status == 404 ==>
      && (r.Ok? <==>
           && ParseVersion(HeaderOr(resp.headers, MinVersionHeader, DefaultVersionString)).Ok?
           && ParseVersion(HeaderOr(resp.headers, MaxVersionHeader, DefaultVersionString)).Ok?)
      && (r.Err? ==> r.error == ValueError)
    ensures r.Ok? ==>
      && Ok(r.value.0) == ParseVersion(HeaderOr(resp.headers, MinVersionHeader, DefaultVersionString))
      && Ok(r.value.1) == ParseVersion(HeaderOr(resp.headers, MaxVersionHeader, DefaultVersionString))
  {
    if resp.status >= 400 && resp.status != 404 then Err(ClientErrorFor(resp))
    else
      var minv :- ParseVersion(HeaderOr(resp.headers, MinVersionHeader, DefaultVersionString));
      var maxv :- ParseVersion(HeaderOr(resp.headers, MaxVersionHeader, DefaultVersionString));
      Ok((minv, maxv))
  }

  function ProbeOutcome(reply: Reply): Result<(seq<int>, seq<int>)> {
    match reply
    case ConnectionFailed => Err(ConnectionError)
    case Answered(resp) => ServerRange(resp)
  }

  /** A server that sends neither header (or answers 404 without them) supports exactly (1, 0). */
  lemma ServerRangeDefaults(resp: Response)
    requires resp.status < 400 || resp.status == 404
    requires MinVersionHeader !in resp.headers && MaxVersionHeader !in resp.headers
    ensures ServerRange(resp) == Ok(([1, 0], [1, 0]))
  {
    ParseVersionPairs();
  }

  /** Headers carrying "%d.%d" strings yield exactly those two versions. */
  lemma ServerRangeReadsHeaders(resp: Response, minv: seq<int>, maxv: seq<int>)
    requires resp.status < 400 || resp.status == 404
    requires |minv| == 2 && |maxv| == 2
    requires HeaderOr(resp.headers, MinVersionHeader, DefaultVersionString) == FormatVersion(minv)
    requires HeaderOr(resp.headers, MaxVersionHeader, DefaultVersionString) == FormatVersion(maxv)
    ensures ServerRange(resp) == Ok((minv, maxv))
  {
    VersionRoundTrip(minv);
    VersionRoundTrip(maxv);
  }

  // ---------------------------------------------------------------------------
  // Version negotiation

  /**
   * `_check_api_version` as a whole: normalise the specifier (failing before
   * any probe), then probe the server and check `minv <= v <= maxv`. There is
   * no separate major-version check, and the pinned version is always a pair.
   */
  function Negotiate(spec: Value, probe: Reply): (r: Result<seq<int>>)
    ensures Normalise(spec).Err? ==> r == Err(Normalise(spec).error)
    ensures Normalise(spec).Ok? && ProbeOutcome(probe).Err? ==> r == Err(ProbeOutcome(probe).error)
    ensures r.Ok? <==>
      && Normalise(spec).Ok? && ProbeOutcome(probe).Ok?
      && TupleLessEq(ProbeOutcome(probe).value.0, Normalise(spec).value)
      && TupleLessEq(Normalise(spec).value, ProbeOutcome(probe).value.1)
    ensures r.Ok? ==> Normalise(spec) == Ok(r.value) && |r.value| == 2
    ensures Normalise(spec).Ok? && ProbeOutcome(probe).Ok? && r.Err? ==>
      r.error == VersionNotSupported(Normalise(spec).value, ProbeOutcome(probe).value.0, ProbeOutcome(probe).value.1)
  {
    var v :- Normalise(spec);
    var range :- ProbeOutcome(probe);
    CheckAgainst(v, range.0, range.1)
  }

  /**
   * For an explicit (major, minor) pair against a server advertising pairs,
   * negotiation succeeds exactly when the pair lies between the bounds in
   * major-then-minor order, and then pins that very pair.
   */
  lemma NegotiatePair(major: int, minor: int, probe: Reply)
    requires ProbeOutcome(probe).Ok?
    requires |ProbeOutcome(probe).value.0| == 2 && |ProbeOutcome(probe).value.1| == 2
    ensures var lo, hi := ProbeOutcome(probe).value.0, ProbeOutcome(probe).value.1;
      && (Negotiate(List([Int(major), Int(minor)]), probe).Ok? <==>
           && (lo[0] < major || (lo[0] == major && lo[1] <= minor))
           && (major < hi[0] || (major == hi[0] && minor <= hi[1])))
      && (Negotiate(List([Int(major), Int(minor)]), probe).Ok? ==>
           Negotiate(List([Int(major), Int(minor)]), probe).value == [major, minor])
  {
    var lo, hi := ProbeOutcome(probe).value.0, ProbeOutcome(probe).value.1;
    var v := [major, minor];
    NormaliseIntPair(major, minor);
    PairOrder(lo, v);
    PairOrder(v, hi);
  }

  /**
   * The empty tuple passes normalisation unchanged, so the server is probed,
   * and it is then rejected because `()` is below every advertised minimum.
   */
  lemma NegotiateEmptyTuple(probe: Reply)
    requires ProbeOutcome(probe).Ok?
    ensures var range := ProbeOutcome(probe).value;
      Negotiate(List([]), probe) == Err(VersionNotSupported([], range.0, range.1))
  {
    var range := ProbeOutcome(probe).value;
    assert range.0 != [];
    EmptyNeverSupported(range.0, range.1);
  }

  /** The server of the client tests: minimum "1.0", maximum "1.9", status 200. */
  function TestServer(): Reply {
    Answered(Response(200, map[MinVersionHeader := "1.0", MaxVersionHeader := "1.9"], [], None, None))
  }

  lemma TestServerRange()
    ensures ProbeOutcome(TestServer()) == Ok(([1, 0], [1, 9]))
  {
    ServerRangeReadsHeaders(TestServer().response, [1, 0], [1, 9]);
    assert FormatVersion([1, 0]) == "1.0";
    assert FormatVersion([1, 9]) == "1.9";
  }

  /** (1, 2) is accepted against 1.0 to 1.9 and pinned as given. */
  lemma NegotiateAcceptsPair()
    ensures Negotiate(List([Int(1), Int(2)]), TestServer()) == Ok([1, 2])
  {
    TestServerRange();
    NegotiatePair(1, 2, TestServer());
  }

  /** A bare 1 is accepted against 1.0 to 1.9 and pinned as (1, 0). */
  lemma NegotiateAcceptsInt()
    ensures Negotiate(Int(1), TestServer()) == Ok([1, 0])
  {
    TestServerRange();
    PairOrder([1, 0], [1, 0]);
    PairOrder([1, 0], [1, 9]);
  }

  /** "1.3" is accepted against 1.0 to 1.9 and pinned as (1, 3). */
  lemma NegotiateAcceptsString()
    ensures Negotiate(Str("1.3"), TestServer()) == Ok([1, 3])
  {
    TestServerRange();
    NormaliseFormatted([1, 3]);
    assert FormatVersion([1, 3]) == "1.3";
    PairOrder([1, 0], [1, 3]);
    PairOrder([1, 3], [1, 9]);
  }

  /** (1, 99) is above 1.9 and is rejected with the requested pair and the range. */
  lemma NegotiateRejectsPairAbove()
    ensures Negotiate(List([Int(1), Int(99)]), TestServer()) == Err(VersionNotSupported([1, 99], [1, 0], [1, 9]))
  {
    TestServerRange();
    assert IntsOf([Int(1), Int(99)]) == [1, 99];
    PairOrder([1, 9], [1, 99]);
  }

  /** A bare 2 means (2, 0), not the server's highest 2.x, and is rejected. */
  lemma NegotiateRejectsOtherMajor()
    ensures Negotiate(Int(2), TestServer()) == Err(VersionNotSupported([2, 0], [1, 0], [1, 9]))
  {
    TestServerRange();
    PairOrder([1, 9], [2, 0]);
  }

  /** "1.42" is rejected against 1.0 to 1.9. */
  lemma NegotiateRejectsString()
    ensures Negotiate(Str("1.42"), TestServer()) == Err(VersionNotSupported([1, 42], [1, 0], [1, 9]))
  {
    TestServerRange();
    NormaliseFormatted([1, 42]);
    FormatOneFortyTwo();
    PairOrder([1, 9], [1, 42]);
  }

  // ---------------------------------------------------------------------------
  // URLs

  /** `s.rstrip('/')`. */
  function RStripSlashes(s: string): (r: string)
    ensures |r| <= |s| && r == s[..|r|]
    ensures r == [] || r[|r| - 1] != '/'
    ensures forall i :: |r| <= i < |s| ==> s[i] == '/'
  {
    if s != [] && s[|s| - 1] == '/' then RStripSlashes(s[..|s| - 1]) else s
  }

  /** `s.lstrip('/')`. */
  function LStripSlashes(s: string): (r: string)
    ensures |r| <= |s| && r == s[|s| - |r|..]
    ensures r == [] || r[0] != '/'
    ensures forall i :: 0 <= i < |s| - |r| ==> s[i] == '/'
  {
    if s != [] && s[0] == '/' then LStripSlashes(s[1..]) else s
  }

  predicate EndsWith(s: string, suffix: string) {
    |suffix| <= |s| && s[|s| - |suffix|..] == suffix
  }

  /** `'/v%d' % major`. */
  function VersionSuffix(major: int): string {
    "/v" + IntToDecimal(major)
  }

  /** `inspector_url or _DEFAULT_URL`: an absent or empty URL falls back to the default. */
  function InitialUrl(inspectorUrl: Option<string>): string {
    if inspectorUrl.None? || inspectorUrl.value == "" then DefaultUrl else inspectorUrl.value
  }

  /** The base URL the constructor ends with: trailing slashes stripped, then `/v<major>` unless already there. */
  function BaseUrl(url: string, major: int): string {
    var stripped := RStripSlashes(url);
    if EndsWith(stripped, VersionSuffix(major)) then stripped else stripped + VersionSuffix(major)
  }

  /** The URL `request` targets: the base, one slash, and the path without its leading slashes. */
  function JoinUrl(base: string, path: string): string {
    base + "/" + LStripSlashes(path)
  }

  lemma SuffixEndsInDigit(major: int)
    ensures |VersionSuffix(major)| >= 3
    ensures IsDigit(VersionSuffix(major)[|VersionSuffix(major)| - 1])
  {
    var d := IntToDecimal(major);
    if major < 0 {
      assert d[|d| - 1] == NatToDecimal(-major)[|NatToDecimal(-major)| - 1];
    }
    assert VersionSuffix(major)[|VersionSuffix(major)| - 1] == d[|d| - 1];
  }

  /** The base URL ends with `/v<major>`, has no trailing slash, and extends the stripped input. */
  lemma BaseUrlShape(url: string, major: int)
    ensures EndsWith(BaseUrl(url, major), VersionSuffix(major))
    ensures BaseUrl(url, major)[|BaseUrl(url, major)| - 1] != '/'
    ensures RStripSlashes(url) <= BaseUrl(url, major)
  {
    var stripped, suffix := RStripSlashes(url), VersionSuffix(major);
    SuffixEndsInDigit(major);
    var b := BaseUrl(url, major);
    if !EndsWith(stripped, suffix) {
      assert b[|b| - |suffix|..] == suffix;
    }
    assert b[|b| - 1] == suffix[|suffix| - 1];
  }

  /** Building the base URL from an already built one changes nothing. */
  lemma BaseUrlIdempotent(url: string, major: int)
    ensures BaseUrl(BaseUrl(url, major), major) == BaseUrl(url, major)
  {
    var b := BaseUrl(url, major);
    BaseUrlShape(url, major);
    assert RStripSlashes(b) == b;
  }

  /** Trailing slashes on the configured URL make no difference. */
  lemma BaseUrlTrailingSlash(url: string, major: int)
    ensures BaseUrl(url + "/", major) == BaseUrl(url, major)
  {
    assert (url + "/")[..|url|] == url;
    assert RStripSlashes(url + "/") == RStripSlashes(url);
  }

  /** A URL with and without the `/v<major>` suffix gives the same base URL: the suffix is added once. */
  lemma BaseUrlSuffixOnce(host: string, major: int)
    requires host == [] || host[|host| - 1] != '/'
    requires !EndsWith(host, VersionSuffix(major))
    ensures BaseUrl(host, major) == host + VersionSuffix(major)
    ensures BaseUrl(host + VersionSuffix(major), major) == host + VersionSuffix(major)
  {
    var suffix := VersionSuffix(major);
    SuffixEndsInDigit(major);
    var full := host + suffix;
    assert full[|full| - 1] == suffix[|suffix| - 1];
    assert RStripSlashes(full) == full;
    assert full[|full| - |suffix|..] == suffix;
  }

  /** Leading slashes on a request path make no difference. */
  lemma JoinUrlLeadingSlash(base: string, path: string)
    ensures JoinUrl(base, "/" + path) == JoinUrl(base, path)
  {
    assert ("/" + path)[1..] == path;
  }

  /** "http://host" and "http://host/v1" both become "http://host/v1". */
  lemma BaseUrlExamples()
    ensures BaseUrl("http://host", 1) == "http://host/v1"
    ensures BaseUrl("http://host/v1", 1) == "http://host/v1"
  {
    var host := "http://host";
    assert VersionSuffix(1) == "/v1";
    assert host[|host| - 3..] != "/v1" by { assert host[|host| - 3..][0] == 'o'; }
    BaseUrlSuffixOnce(host, 1);
    assert host + "/v1" == "http://host/v1";
  }

  /** "/foo/bar" is requested just below the base URL. */
  lemma JoinUrlExample()
    ensures JoinUrl("http://host/v1", "/foo/bar") == "http://host/v1/foo/bar"
  {
    var base, path := "http://host/v1", "foo/bar";
    assert path[0] != '/';
    assert LStripSlashes(path) == path;
    assert "/foo/bar" == "/" + path;
    JoinUrlLeadingSlash(base, path);
    assert base + "/" + path == "http://host/v1/foo/bar";
  }

  // ---------------------------------------------------------------------------
  // The client object

  /** A caller's headers dictionary, which `_add_headers` updates in place. */
  class HeaderDict {
    var entries: map<string, string>

    constructor (entries: map<string, string>)
      ensures this.entries == entries
    {
      this.entries := entries;
    }
  }

  class BaseClient {
    const session: Session
    var baseUrl: string
    var apiVersion: seq<int>
    var versionStr: string

    /** A constructed client: a pinned pair, its header string, and a base URL ending in `/v<major>`. */
    ghost predicate Valid()
      reads this
    {
      && |apiVersion| == 2
      && versionStr == FormatVersion(apiVersion)
      && EndsWith(baseUrl, VersionSuffix(apiVersion[0]))
    }

    /** The start of `__init__`: the configured URL, trailing slashes stripped; nothing pinned yet. */
    constructor Init(session: Session, url: string)
      ensures this.session == session
      ensures baseUrl == RStripSlashes(url) && apiVersion == [] && versionStr == ""
    {
      this.session := session;
      baseUrl := url;
      apiVersion := [];
      versionStr := "";
      new;
      baseUrl := RStripSlashes(baseUrl);
    }

    /**
     * `BaseClient(api_version, inspector_url, session=...)`: negotiate against
     * the un-suffixed URL, pin the version, then append `/v<major>` if absent.
     */
    static method Create(spec: Value, inspectorUrl: Option<string>, session: Session) returns (r: Result<BaseClient>)
      modifies session
      ensures var outcome := Negotiate(spec, NextReply(old(session.script)));
        && (r.Ok? <==> outcome.Ok?)
        && (r.Err? ==> r.error == outcome.error)
        && (r.Ok? ==>
             && fresh(r.value) && r.value.Valid() && r.value.session == session
             && r.value.apiVersion == outcome.value
             && r.value.baseUrl == BaseUrl(InitialUrl(inspectorUrl), outcome.value[0]))
      ensures Normalise(spec).Err? ==> session.log == old(session.log) && session.script == old(session.script)
      ensures Normalise(spec).Ok? ==>
        && session.log == old(session.log) + [ProbeCall(RStripSlashes(InitialUrl(inspectorUrl)))]
        && session.script == AfterReply(old(session.script))
    {
      var client := new BaseClient.Init(session, InitialUrl(inspectorUrl));
      var checked := client.CheckApiVersion(spec);
      if checked.Err? {
        return Err(checked.error);
      }
      client.apiVersion := checked.value;
      client.versionStr := FormatVersion(client.apiVersion);
      var suffix := VersionSuffix(client.apiVersion[0]);
      if !EndsWith(client.baseUrl, suffix) {
        client.baseUrl := client.baseUrl + suffix;
        assert client.baseUrl[|client.baseUrl| - |suffix|..] == suffix;
      }
      return Ok(client);
    }

    /** `_add_headers`: sets the one version header in the caller's dictionary, keeping the rest. */
    method AddHeaders(headers: HeaderDict) returns (same: HeaderDict)
      modifies headers
      ensures same == headers
      ensures headers.entries == old(headers.entries)[VersionHeader := versionStr]
    {
      headers.entries := headers.entries[VersionHeader := versionStr];
      same := headers;
    }

    /** `_check_api_version`: normalisation first; only a well-formed specifier leads to a probe. */
    method CheckApiVersion(spec: Value) returns (r: Result<seq<int>>)
      modifies session
      ensures r == Negotiate(spec, NextReply(old(session.script)))
      ensures Normalise(spec).Err? ==> session.log == old(session.log) && session.script == old(session.script)
      ensures Normalise(spec).Ok? ==>
        && session.log == old(session.log) + [ProbeCall(baseUrl)]
        && session.script == AfterReply(old(session.script))
    {
      var normalised := Normalise(spec);
      if normalised.Err? {
        return Err(normalised.error);
      }
      var range := ServerApiVersions();
      if range.Err? {
        return Err(range.error);
      }
      var minv, maxv := range.value.0, range.value.1;
      if TupleLess(normalised.value, minv) || TupleLess(maxv, normalised.value) {
        return Err(VersionNotSupported(normalised.value, minv, maxv));
      }
      return Ok(normalised.value);
    }

    /** `server_api_versions`: one unauthenticated probe of the base URL as it stands. */
    method ServerApiVersions() returns (r: Result<(seq<int>, seq<int>)>)
      modifies session
      ensures session.log == old(session.log) + [ProbeCall(baseUrl)]
      ensures session.script == AfterReply(old(session.script))
      ensures r == ProbeOutcome(NextReply(old(session.script)))
    {
      var reply := session.Send(ProbeCall(baseUrl));
      if reply.ConnectionFailed? {
        return Err(ConnectionError);
      }
      var res := reply.response;
      if res.status >= 400 && res.status != 404 {
        return Err(ClientErrorFor(res));
      }
      var minv :- ParseVersion(HeaderOr(res.headers, MinVersionHeader, DefaultVersionString));
      var maxv :- ParseVersion(HeaderOr(res.headers, MaxVersionHeader, DefaultVersionString));
      return Ok((minv, maxv));
    }

    /** The call `request` makes for a path when the caller passes no headers of its own. */
    function CallFor(verb: string, path: string, payload: Payload): Call
      reads this
    {
      Call(JoinUrl(baseUrl, path), verb, map[VersionHeader := versionStr], payload, SessionAuth)
    }

    /**
     * `request`: exactly one session call, to the joined URL, with the caller's
     * headers plus the version header ("%d.%d" of the pinned version, which
     * parses back to it); a status of 400 or more is raised as a ClientError.
     * A null `headers` stands for a call without the `headers` keyword, which
     * starts from an empty dictionary.
     */
    method Request(verb: string, url: string, headers: HeaderDict?, payload: Payload) returns (r: Result<Response>)
      requires Valid()
      modifies session, headers
      ensures headers != null ==> headers.entries == old(headers.entries)[VersionHeader := versionStr]
      ensures session.log == old(session.log) + [Call(
        JoinUrl(baseUrl, url), verb,
        old(if headers == null then map[] else headers.entries)[VersionHeader := versionStr],
        payload, SessionAuth)]
      ensures session.log[|session.log| - 1].headers[VersionHeader] == versionStr == FormatVersion(apiVersion)
      ensures session.script == AfterReply(old(session.script))
      ensures r == RequestOutcome(NextReply(old(session.script)))
    {
      var sent: HeaderDict;
      if headers == null {
        sent := new HeaderDict(map[]);
      } else {
        sent := headers;
      }
      sent := AddHeaders(sent);
      var call := Call(JoinUrl(baseUrl, url), verb, sent.entries, payload, SessionAuth);
      var reply := session.Send(call);
      if reply.ConnectionFailed? {
        r := Err(ConnectionError);
      } else {
        var raised := RaiseIfNeeded(reply.response);
        r := if raised.Some? then Err(raised.value) else Ok(reply.response);
      }
    }
  }
}
