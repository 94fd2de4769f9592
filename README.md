# ironic-inspector-client: version negotiation and typed requests, in Dafny

This project models the core of the Python client for the bare-metal
introspection service (Ironic Inspector):

- `Values` (`values.dfy`): the dynamically typed Python values the client inspects
  (None, bool, int, str, list, dict), the exceptions it raises as one closed
  datatype, Python truthiness and `v[key]` indexing.
- `Versions` (`versions.dfy`): `_parse_version`, `"%d.%d"` formatting, the
  normalisation of a version specifier in `_check_api_version`, and Python's
  lexicographic tuple order with the range check.
- `Transport` (`transport.dfy`): the HTTP session as a class that logs every call
  and answers from a script of replies, so "no request was made" reads as "the
  log is unchanged".
- `Http` (`http.dfy`): `ClientError` message extraction and `raise_if_needed`,
  `server_api_versions`, the whole negotiation (`Negotiate`), base-URL and
  request-URL construction, and the `BaseClient` class with its construction,
  `_add_headers`, `_check_api_version`, `server_api_versions` and `request`.
- `V1` (`v1.py` as `v1.dfy`): `ClientV1` with its default version (1, 0) and the
  typed operations `introspect`, `get_status`, `get_data`, and the rules API
  (`create`, `from_json`, `get_all`, `get`, `delete`, `delete_all`).

What is proved, in short: a version string produced by `"%d.%d"` parses back
to the same pair; `split('.')` loses nothing; the specifier normalises as the
code does (int N to (N, 0), a 1-tuple padded, a non-integer component a
TypeError before the length check, more than two components a ValueError);
tuple order is a strict total order that on pairs compares major then minor;
negotiation succeeds exactly when `minv <= v <= maxv`, pins exactly the
normalised `v`, and that `v` is always a pair; the probe happens only for a
well-formed specifier and goes to the URL before `/v<major>` is appended; the
base URL ends in `/v<major>`, ignores trailing slashes, gains the suffix only
once and is idempotent; each request makes exactly one session call carrying
the caller's headers plus one version header that parses back to the pinned
version; every typed operation that rejects its arguments leaves the session
untouched, and otherwise issues exactly one call with the fixed verb, path and
parameters or body.

Behaviour of the code worth knowing, all of it modelled as written:

- A bare integer N pins (N, 0) (ironic_inspector_client/common/http.py:144-145).
- A `ClientV1` built without a version pins (1, 0) (ironic_inspector_client/v1.py:22, 35).
- The only check against the server is `minv <= v <= maxv` in tuple order;
  there is no separate comparison of major versions (http.py:157).
- Each request carries exactly one version header (http.py:140).
- The probe goes to the configured URL with trailing slashes stripped, before
  `/v<major>` is appended (http.py:131-137).
- Any iterable specifier is accepted, 1-tuples and one-component strings are
  padded with 0, and strings and tuples of any length reach the length check
  (http.py:146-154).

## Model

| member | source | states |
|---|---|---|
| Versions.NatToDecimal | ironic_inspector_client/common/http.py:133 | "%d" of a natural number is a non-empty run of decimal digits |
| Versions.NatToDecimalValue | ironic_inspector_client/common/http.py:42 | reading the digits "%d" prints gives back the number |
| Versions.IntToDecimalRoundTrip | ironic_inspector_client/common/http.py:42 | `int()` of "%d" of any integer, negative included, is that integer, and "%d" never contains a dot |
| Versions.SplitDots | ironic_inspector_client/common/http.py:42 | `split('.')` always yields at least one piece |
| Versions.SplitJoin | ironic_inspector_client/common/http.py:42 | joining the pieces of `split('.')` with dots gives back the string, and no piece contains a dot |
| Versions.SplitUndotted | ironic_inspector_client/common/http.py:42 | a string without dots splits into itself alone |
| Versions.SplitAtFirstDot | ironic_inspector_client/common/http.py:42 | splitting `a + "." + b` with a dot-free `a` gives `a` followed by the pieces of `b` |
| Versions.ParseComponents | ironic_inspector_client/common/http.py:42 | the integer tuple exists exactly when every piece is an integer literal, has one entry per piece, and each entry is that piece's value |
| Versions.ParseVersion | ironic_inspector_client/common/http.py:40-45 | parsing succeeds exactly when every dot-separated piece is an integer, yields one component per piece (at least one), each component being `int()` of its piece, and fails only with ValueError |
| Versions.VersionRoundTrip | ironic_inspector_client/common/http.py:133 | the "%d.%d" string of a pair parses back to exactly that pair |
| Versions.NormaliseFormatted | ironic_inspector_client/common/http.py:146-147 | a string specifier produced by "%d.%d" normalises to exactly its pair |
| Versions.ParseVersionPairs | ironic_inspector_client/common/http.py:197-198 | "1.0", "1.9" and "1.42" parse to (1, 0), (1, 9) and (1, 42) |
| Versions.ParseVersionTriple | ironic_inspector_client/test/test_common_http.py:49 | "1.2.3" parses to a triple (which normalisation then rejects) |
| Versions.ParseVersionMalformed | ironic_inspector_client/test/test_common_http.py:47-50 | "a.b" and "foo" fail with ValueError |
| Versions.Normalise | ironic_inspector_client/common/http.py:143-154 | an int N gives (N, 0) and a bool (0 or 1, 0); a 1-tuple is padded with 0; a 2-tuple is kept; the empty tuple passes unchanged (and is rejected later by the range check); a non-integer component is a TypeError even when the tuple is too long; more than two integer components is a ValueError; a string that parses is treated as the tuple of its components (padded, kept or a ValueError by length), one that does not is a ValueError; an empty dict gives the empty tuple and any other dict a TypeError; None is a TypeError; a success is a pair or the empty tuple |
| Versions.NormaliseAccepted | ironic_inspector_client/test/test_common_http.py:31-41 | (1, 0), (1,), 1 and "1.0" all normalise to (1, 0) |
| Versions.NormaliseBareMajorString | ironic_inspector_client/common/http.py:146-152 | the string "1" is parsed to (1,) and padded to (1, 0) |
| Versions.NormaliseRejectsTuples | ironic_inspector_client/test/test_common_http.py:43-45 | (1, "x") is a TypeError and (1, 2, 3) a ValueError |
| Versions.NormaliseRejectsStrings | ironic_inspector_client/test/test_common_http.py:47-50 | "1.2.3" and "a.b" are ValueErrors |
| Versions.CheckAgainst | ironic_inspector_client/common/http.py:156-160 | the check passes exactly when `minv <= v <= maxv`, then returns `v` itself; otherwise VersionNotSupported carries `v`, `minv` and `maxv` |
| Versions.TupleLessIrreflexive | ironic_inspector_client/common/http.py:157 | no version is below itself |
| Versions.TupleLessTrichotomy | ironic_inspector_client/common/http.py:157 | of a < b, a == b, b < a exactly one holds |
| Versions.TupleLessTransitive | ironic_inspector_client/common/http.py:157 | the version order is transitive |
| Versions.PairOrder | ironic_inspector_client/common/http.py:157 | on pairs the order compares majors first and minors only between equal majors |
| Versions.EmptyNeverSupported | ironic_inspector_client/common/http.py:157-158 | the empty tuple is below any advertised minimum and is rejected |
| Versions.ParseInt | ironic_inspector_client/common/http.py:42 | `int()` of one version piece: an optional sign followed by decimal digits, anything else a ValueError; `Versions.IntToDecimalRoundTrip` and `Versions.ParseComponents` state its properties |
| Versions.FormatVersion | ironic_inspector_client/common/http.py:133 | `"%d.%d"` of the pinned pair; `Versions.VersionRoundTrip` proves it parses back to the pair |
| Versions.AsTuple | ironic_inspector_client/common/http.py:144-148 | the tuple a specifier becomes: an int or bool N as (N, 0), a string through `_parse_version`, a list as is, a dict as its keys (strings, so an empty dict gives the empty tuple and any other a TypeError), None not iterable (TypeError); `Versions.Normalise` states the consequences |
| Versions.TupleLess | ironic_inspector_client/common/http.py:157 | Python's `<` on integer tuples, lexicographic with a proper prefix smaller; `Versions.TupleLessIrreflexive`, `TupleLessTrichotomy`, `TupleLessTransitive` and `PairOrder` state its properties |
| Values.Truthy | ironic_inspector_client/v1.py:55 | Python truthiness (None, False, 0 and empty str, list or dict are false), used for the IPMI user-name and password test; `V1.ClientV1.Introspect` states its use |
| Transport.Session.Send | ironic_inspector_client/common/http.py:175-176 | one round trip: the call is appended to the log and the next scripted reply is consumed |
| Http.ErrorMessage | ironic_inspector_client/common/http.py:52-59 | the message is `error.message` when the body is JSON of that shape, otherwise the decoded body text |
| Http.RequestOutcomeStatus | ironic_inspector_client/common/http.py:65-69 | a response raises exactly when its status is 400 or more: as a ClientError with that status and the chosen message when the body decodes as UTF-8, otherwise as UnicodeDecodeError (decoding comes first, at line 52); below 400 it is returned as is |
| Http.ServerRange | ironic_inspector_client/common/http.py:193-199 | a status of 400 or more other than 404 raises the response's ClientError; below 400 or on 404 it succeeds exactly when both headers (each defaulting to "1.0") parse, fails otherwise only with ValueError, and returns exactly the two parsed tuples |
| Http.ServerRangeDefaults | ironic_inspector_client/common/http.py:197-198 | with neither header (status below 400, or 404) the range is (1, 0) to (1, 0) |
| Http.ServerRangeReadsHeaders | ironic_inspector_client/common/http.py:197-199 | headers holding "%d.%d" strings yield exactly those two pairs, 404 included |
| Http.Negotiate | ironic_inspector_client/common/http.py:143-160 | a malformed specifier fails with its own error before the probe matters; a failed probe propagates; otherwise success exactly when `minv <= v <= maxv`, pinning the normalised `v`, which is always a pair; a failure carries `v` and the range |
| Http.NegotiatePair | ironic_inspector_client/common/http.py:156-160 | an explicit pair succeeds exactly when it lies between the advertised pairs in major-then-minor order, and pins that pair |
| Http.TestServerRange | ironic_inspector_client/test/test_v1.py:24-27 | the test server's headers "1.0" and "1.9" give the range (1, 0) to (1, 9) |
| Http.NegotiateAcceptsPair | ironic_inspector_client/test/test_v1.py:46 | (1, 2) is accepted against 1.0 to 1.9 and pinned as (1, 2) |
| Http.NegotiateAcceptsInt | ironic_inspector_client/test/test_v1.py:47 | a bare 1 is accepted against 1.0 to 1.9 and pinned as (1, 0) |
| Http.NegotiateAcceptsString | ironic_inspector_client/test/test_v1.py:48 | "1.3" is accepted against 1.0 to 1.9 and pinned as (1, 3) |
| Http.NegotiateRejectsPairAbove | ironic_inspector_client/test/test_v1.py:51-52 | (1, 99) is rejected against 1.0 to 1.9 |
| Http.NegotiateRejectsOtherMajor | ironic_inspector_client/test/test_v1.py:53-54 | a bare 2 means (2, 0) and is rejected against 1.0 to 1.9 |
| Http.NegotiateRejectsString | ironic_inspector_client/test/test_v1.py:55-56 | "1.42" is rejected against 1.0 to 1.9 |
| Http.NegotiateEmptyTuple | ironic_inspector_client/common/http.py:148-158 | the empty tuple passes normalisation, so the server is probed, and is then rejected with VersionNotSupported((), minv, maxv) for whatever range the server advertises |
| Http.RStripSlashes | ironic_inspector_client/common/http.py:131 | `rstrip('/')` keeps a prefix that does not end in '/', and removes only slashes |
| Http.LStripSlashes | ironic_inspector_client/common/http.py:170 | `lstrip('/')` keeps a suffix that does not start with '/', and removes only slashes |
| Http.BaseUrlShape | ironic_inspector_client/common/http.py:131-137 | the base URL ends in `/v<major>`, does not end in '/', and extends the stripped configured URL |
| Http.BaseUrlIdempotent | ironic_inspector_client/common/http.py:131-137 | building the base URL again from a built one changes nothing |
| Http.BaseUrlTrailingSlash | ironic_inspector_client/common/http.py:131 | a trailing slash on the configured URL makes no difference |
| Http.BaseUrlSuffixOnce | ironic_inspector_client/common/http.py:134-137 | a URL with and without `/v<major>` gives the same base URL, with the suffix once |
| Http.JoinUrlLeadingSlash | ironic_inspector_client/common/http.py:170 | a leading slash on the request path makes no difference |
| Http.BaseUrlExamples | ironic_inspector_client/test/test_common_http.py:189-203 | "http://host" and "http://host/v1" both become "http://host/v1" |
| Http.JoinUrlExample | ironic_inspector_client/test/test_common_http.py:189-195 | "/foo/bar" below "http://host/v1" is "http://host/v1/foo/bar" |
| Http.ClientErrorFor | ironic_inspector_client/common/http.py:50-63 | the exception `ClientError(response)` amounts to: UnicodeDecodeError when the body is not UTF-8, otherwise ClientError(status, message); `Http.ErrorMessage` and `Http.RequestOutcomeStatus` state it |
| Http.RaiseIfNeeded | ironic_inspector_client/common/http.py:65-69 | `raise_if_needed`: the response's error exactly when the status is 400 or more; `Http.RequestOutcomeStatus` states it |
| Http.RequestOutcome | ironic_inspector_client/common/http.py:175-181 | what `request` returns or raises for its one reply: a connection error, the raised error, or the response; `Http.RequestOutcomeStatus` and `Http.BaseClient.Request` state it |
| Http.ProbeOutcome | ironic_inspector_client/common/http.py:191-199 | what `server_api_versions` returns for the probe's reply: a connection error or `ServerRange` of the response; `Http.ServerRange` and `Http.Negotiate` state it |
| Http.InitialUrl | ironic_inspector_client/common/http.py:105 | `inspector_url or _DEFAULT_URL`: an absent or empty URL falls back to the default; `Http.BaseClient.Create` states its use |
| Http.BaseUrl | ironic_inspector_client/common/http.py:131-137 | the URL after `rstrip('/')` and the conditional `/v<major>`; see the `Http.BaseUrl*` lemmas |
| Http.JoinUrl | ironic_inspector_client/common/http.py:170 | the request URL: base, one slash, the path without leading slashes; `Http.JoinUrlLeadingSlash`, `Http.JoinUrlExample` and `Http.BaseClient.Request` state it |
| Http.BaseClient.Init | ironic_inspector_client/common/http.py:131 | construction starts from the configured URL with trailing slashes stripped and nothing pinned |
| Http.BaseClient.Create | ironic_inspector_client/common/http.py:87-137 | construction succeeds exactly when negotiation does, pins the negotiated pair and its "%d.%d" string, and ends with the `/v<major>` base URL; a malformed specifier makes no call; otherwise one probe goes to the URL before the suffix |
| Http.BaseClient.AddHeaders | ironic_inspector_client/common/http.py:139-141 | the caller's dictionary gains the version header and keeps every other entry; the same dictionary is returned |
| Http.BaseClient.CheckApiVersion | ironic_inspector_client/common/http.py:143-160 | returns what `Negotiate` prescribes for the next reply; a malformed specifier leaves the session untouched, a well-formed one probes the current base URL once |
| Http.BaseClient.ServerApiVersions | ironic_inspector_client/common/http.py:183-203 | one unauthenticated probe of the base URL, whose reply decides the range as `ServerRange` states |
| Http.BaseClient.Request | ironic_inspector_client/common/http.py:162-181 | exactly one session call to base + "/" + path without leading slashes, with the caller's headers plus the version header holding "%d.%d" of the pinned version (which parses back to it by `Versions.VersionRoundTrip`); the caller's dictionary is updated in place; the result is the reply, or the error it raises |
| V1.IpmiParams | ironic_inspector_client/v1.py:59-60 | the `introspect` parameters, both keys always present, None included; `V1.ClientV1.Introspect` states the call that carries them |
| V1.ListOfDicts | ironic_inspector_client/v1.py:117-119 | a list whose every element is a dict; `V1.RulesApi.Create` states the TypeError otherwise |
| V1.ValidRuleArgs | ironic_inspector_client/v1.py:114-122 | the arguments `create` accepts: a string or absent UUID and two lists of dicts; `V1.RulesApi.Create` states both outcomes |
| V1.RuleBody | ironic_inspector_client/v1.py:124-125 | the four-key body `create` posts, unset values as None; `V1.RulesApi.Create` states the call that carries it |
| V1.RulesField | ironic_inspector_client/v1.py:142 | `request(...).json()['rules']`, with ValueError, KeyError or TypeError as Python gives them; `V1.RulesFieldUnwraps` states the successful case |
| V1.DataOf | ironic_inspector_client/v1.py:92-96 | what `get_data` returns: the raw body bytes when `raw`, otherwise the parsed JSON; `V1.ClientV1.GetData` states it |
| V1.RulesFieldUnwraps | ironic_inspector_client/v1.py:142 | a successful `{"rules": xs}` response yields `xs` itself |
| V1.ClientV1.constructor | ironic_inspector_client/v1.py:37 | the rules API is bound to the same request primitive as the client |
| V1.ClientV1.Create | ironic_inspector_client/v1.py:29-37 | as BaseClient construction, with the specifier defaulting to (1, 0), which is then what gets pinned |
| V1.ClientV1.Introspect | ironic_inspector_client/v1.py:39-61 | a non-string UUID is a TypeError and a truthy user name with a falsy password a ValueError, both with no call; otherwise one POST to `/introspection/<uuid>` with both IPMI parameters as given, None included |
| V1.ClientV1.GetStatus | ironic_inspector_client/v1.py:63-75 | a non-string UUID is a TypeError with no call; otherwise one GET of `/introspection/<uuid>` returning the parsed JSON |
| V1.ClientV1.GetData | ironic_inspector_client/v1.py:77-96 | a non-string UUID is a TypeError with no call; otherwise one GET of `/introspection/<uuid>/data`, returning the raw bytes when asked, else the parsed JSON |
| V1.RulesApi.constructor | ironic_inspector_client/v1.py:102-103 | the rules API stores the requester it is given |
| V1.RulesApi.Create | ironic_inspector_client/v1.py:105-126 | a UUID that is neither None nor a string, or conditions or actions that are not lists of dicts, are a TypeError with no call; otherwise one POST to `/rules` whose body has exactly the keys uuid, conditions, actions, description |
| V1.RulesApi.FromJson | ironic_inspector_client/v1.py:128-134 | one POST to `/rules` with the given value as the body, unchanged |
| V1.RulesApi.GetAll | ironic_inspector_client/v1.py:136-142 | one GET of `/rules`, returning the `rules` field of the JSON |
| V1.RulesApi.Get | ironic_inspector_client/v1.py:144-153 | a non-string UUID is a TypeError with no call; otherwise one GET of `/rules/<uuid>` |
| V1.RulesApi.Delete | ironic_inspector_client/v1.py:155-163 | a non-string UUID is a TypeError with no call; otherwise one DELETE of `/rules/<uuid>` |
| V1.RulesApi.DeleteAll | ironic_inspector_client/v1.py:165-167 | one DELETE of `/rules` |

## Left out

- Session construction from keystoneauth1, token authentication and the service-catalog lookup with its EndpointNotFound fallback (ironic_inspector_client/common/http.py:106-129) are foreign calls: the configured URL is an input, the session is the scripted `Transport.Session`, and the auth token is not kept.
- `_DEFAULT_URL` depends on the host's IPv4 address (http.py:29); `Http.DefaultUrl` is an unconstrained string.
- Logging and the translated message texts: errors carry their kind and data (status, message, versions), not their wording. The TypeError of `create` passes its format arguments with a comma instead of `%` (v1.py:120-122), so its text is never interpolated; since texts are not modelled this has no effect here.
- Decoding the body as UTF-8 and parsing JSON are supplied by the transport stub: a `Response` carries the decoded text (or None when decoding fails) and the parsed JSON (or None when it is not JSON), with no link to the raw bytes enforced.
- Versions.ParseInt: accepts an optional sign and ASCII digits only; Python's `int()` also accepts surrounding whitespace, underscores between digits and non-ASCII digits.
- Http.BaseClient.Request: a null `headers` means the keyword was not passed; an explicit `headers=None`, which makes `_add_headers` raise TypeError before any call (http.py:140, 169), is not modelled, since no caller in the core passes it.
- Header lookup is by exact name; the case-insensitivity of the HTTP library's header dictionary is not modelled.
- Python values outside None, bool, int, str, list and dict (floats, tuples as distinct from lists, dicts with non-string keys) are not modelled; a tuple specifier is written as a list.
- Keyword arguments of `request` other than `headers`, `params` and `json` (timeouts and the like) are not modelled; every transport failure other than an HTTP status is one `ConnectionError`.
- `MAX_API_VERSION` (v1.py:23) is not used by the core; the command-line layer (shell.py) and the forwarding wrappers (client.py) are not part of this model.
