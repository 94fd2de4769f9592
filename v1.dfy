/**
 * The typed operations of ironic_inspector_client/v1.py. Each one checks its
 * arguments first and, only if they pass, makes exactly one request through
 * the client's `Request`, with a fixed verb, path and parameters or body.
 */
module V1 {
  import opened Values
  import opened Versions
  import opened Transport
  import opened Http

  /** DEFAULT_API_VERSION: the specifier used when the caller gives none, the pair (1, 0). */
  const DefaultApiVersion := List([Int(1), Int(0)])

  const RulesPath := "/rules"

  function IntrospectionPath(uuid: string): string { "/introspection/" + uuid }

  function IntrospectionDataPath(uuid: string): string { "/introspection/" + uuid + "/data" }

  function RulePath(uuid: string): string { "/rules/" + uuid }

  /** The query parameters of `introspect`, both always present, None included. */
  function IpmiParams(username: Value, password: Value): map<string, Value> {
    map["new_ipmi_username" := username, "new_ipmi_password" := password]
  }

  /** A list whose every element is a dict, as rule conditions and actions must be. */
  predicate ListOfDicts(v: Value) {
    v.List? && forall i :: 0 <= i < |v.items| ==> v.items[i].Dict?
  }

  /** The arguments `_RulesAPI.create` accepts: a string or absent UUID and two lists of dicts. */
  predicate ValidRuleArgs(conditions: Value, actions: Value, uuid: Value) {
    (uuid.Null? || uuid.Str?) && ListOfDicts(conditions) && ListOfDicts(actions)
  }

  /** The body `create` posts: all four keys, unset ones as None. */
  function RuleBody(uuid: Value, conditions: Value, actions: Value, description: Value): Value {
    Dict(map["uuid" := uuid, "conditions" := conditions, "actions" := actions, "description" := description])
  }

  /** What `get_data` returns: the raw body bytes, or the parsed JSON. */
  datatype Data = Raw(bytes: seq<byte>) | Parsed(json: Value)

  /** `response.json()`: the parsed body, or ValueError when it is not JSON. */
  function JsonOf(resp: Response): Result<Value> {
    match resp.json
    case Some(v) => Ok(v)
    case None => Err(ValueError)
  }

  /** `request(...).json()`. */
  function JsonOutcome(outcome: Result<Response>): Result<Value> {
    var resp :- outcome;
    JsonOf(resp)
  }

  /** `request(...)` with the response dropped, for operations that return None. */
  function Discard(outcome: Result<Response>): Result<()> {
    var _ :- outcome;
    Ok(())
  }

  /** `request(...).json()['rules']`. */
  function RulesField(outcome: Result<Response>): Result<Value> {
    var body :- JsonOutcome(outcome);
    Subscript(body, "rules")
  }

  /** `get_all` unwraps the list: a response `{"rules": xs}` yields xs itself. */
  lemma RulesFieldUnwraps(resp: Response, rules: Value)
    requires resp.status < 400
    requires resp.json.Some? && resp.json.value.Dict? && resp.json.value.fields == map["rules" := rules]
    ensures RulesField(RequestOutcome(Answered(resp))) == Ok(rules)
  {
  }

  /** `get_data` returns the bytes untouched when raw, otherwise the parsed JSON. */
  function DataOf(outcome: Result<Response>, raw: bool): Result<Data> {
    var resp :- outcome;
    if raw then Ok(Raw(resp.content))
    else
      var v :- JsonOf(resp);
      Ok(Parsed(v))
  }

  class ClientV1 {
    const http: BaseClient
    const rules: RulesApi

    ghost predicate Valid()
      reads this, http
    {
      http.Valid() && rules.requester == http
    }

    /** The end of `ClientV1.__init__`: the rules API shares the client's `request`. */
    constructor (http: BaseClient)
      ensures this.http == http && rules.requester == http && fresh(rules)
    {
      this.http := http;
      rules := new RulesApi(http);
    }

    /** `ClientV1(**kwargs)`: the BaseClient, with api_version defaulting to (1, 0). */
    static method Create(apiVersion: Option<Value>, inspectorUrl: Option<string>, session: Session) returns (r: Result<ClientV1>)
      modifies session
      ensures var spec := if apiVersion.Some? then apiVersion.value else DefaultApiVersion;
        var outcome := Negotiate(spec, NextReply(old(session.script)));
        && (r.Ok? <==> outcome.Ok?)
        && (r.Err? ==> r.error == outcome.error)
        && (r.Ok? ==>
             && fresh(r.value) && fresh(r.value.http) && r.value.Valid()
             && r.value.http.session == session
             && r.value.http.apiVersion == outcome.value
             && r.value.http.baseUrl == BaseUrl(InitialUrl(inspectorUrl), outcome.value[0]))
      ensures apiVersion.None? && r.Ok? ==> r.value.http.apiVersion == [1, 0]
      ensures var spec := if apiVersion.Some? then apiVersion.value else DefaultApiVersion;
        Normalise(spec).Err? ==> session.log == old(session.log) && session.script == old(session.script)
      ensures var spec := if apiVersion.Some? then apiVersion.value else DefaultApiVersion;
        Normalise(spec).Ok? ==>
          && session.log == old(session.log) + [ProbeCall(RStripSlashes(InitialUrl(inspectorUrl)))]
          && session.script == AfterReply(old(session.script))
    {
      var spec := if apiVersion.Some? then apiVersion.value else DefaultApiVersion;
      assert IntsOf(DefaultApiVersion.items) == [1, 0];
      var base := BaseClient.Create(spec, inspectorUrl, session);
      if base.Err? {
        return Err(base.error);
      }
      var client := new ClientV1(base.value);
      return Ok(client);
    }

    /**
     * `introspect`: a non-string UUID is a TypeError and a user name without a
     * password a ValueError, both before any request; otherwise one POST with
     * both IPMI parameters passed as given.
     */
    method Introspect(uuid: Value, newIpmiPassword: Value, newIpmiUsername: Value) returns (r: Result<()>)
      requires Valid()
      modifies http.session
      ensures !uuid.Str? ==> r == Err(TypeError) && unchanged(http.session)
      ensures uuid.Str? && Truthy(newIpmiUsername) && !Truthy(newIpmiPassword) ==>
        r == Err(ValueError) && unchanged(http.session)
      ensures uuid.Str? && !(Truthy(newIpmiUsername) && !Truthy(newIpmiPassword)) ==>
        && http.session.log == old(http.session.log) + [http.CallFor(
             "post", IntrospectionPath(uuid.s), Params(IpmiParams(newIpmiUsername, newIpmiPassword)))]
        && http.session.script == AfterReply(old(http.session.script))
        && r == Discard(RequestOutcome(NextReply(old(http.session.script))))
    {
      if !uuid.Str? {
        return Err(TypeError);
      }
      if Truthy(newIpmiUsername) && !Truthy(newIpmiPassword) {
        return Err(ValueError);
      }
      var params := IpmiParams(newIpmiUsername, newIpmiPassword);
      var resp := http.Request("post", IntrospectionPath(uuid.s), null, Params(params));
      r := Discard(resp);
    }

    /** `get_status`: a non-string UUID is a TypeError with no request; otherwise one GET, returning its JSON. */
    method GetStatus(uuid: Value) returns (r: Result<Value>)
      requires Valid()
      modifies http.session
      ensures !uuid.Str? ==> r == Err(TypeError) && unchanged(http.session)
      ensures uuid.Str? ==>
        && http.session.log == old(http.session.log) + [http.CallFor("get", IntrospectionPath(uuid.s), NoPayload)]
        && http.session.script == AfterReply(old(http.session.script))
        && r == JsonOutcome(RequestOutcome(NextReply(old(http.session.script))))
    {
      if !uuid.Str? {
        return Err(TypeError);
      }
      var resp := http.Request("get", IntrospectionPath(uuid.s), null, NoPayload);
      r := JsonOutcome(resp);
    }

    /** `get_data`: like `get_status` on the data path; raw returns the body bytes unparsed. */
    method GetData(uuid: Value, raw: bool) returns (r: Result<Data>)
      requires Valid()
      modifies http.session
      ensures !uuid.Str? ==> r == Err(TypeError) && unchanged(http.session)
      ensures uuid.Str? ==>
        && http.session.log == old(http.session.log) + [http.CallFor("get", IntrospectionDataPath(uuid.s), NoPayload)]
        && http.session.script == AfterReply(old(http.session.script))
        && r == DataOf(RequestOutcome(NextReply(old(http.session.script))), raw)
      ensures var reply := NextReply(old(http.session.script));
        uuid.Str? && raw && reply.Answered? && reply.response.status < 400 ==> r == Ok(Raw(reply.response.content))
    {
      if !uuid.Str? {
        return Err(TypeError);
      }
      var resp := http.Request("get", IntrospectionDataPath(uuid.s), null, NoPayload);
      if resp.Err? {
        return Err(resp.error);
      }
      if raw {
        return Ok(Raw(resp.value.content));
      }
      var json :- JsonOf(resp.value);
      return Ok(Parsed(json));
    }
  }

  /** `_RulesAPI`: the rule operations, issued through the client's request primitive. */
  class RulesApi {
    const requester: BaseClient

    constructor (requester: BaseClient)
      ensures this.requester == requester
    {
      this.requester := requester;
    }

    /**
     * `create`: a UUID that is neither None nor a string, or conditions or
     * actions that are not lists of dicts, are a TypeError with no request;
     * otherwise the four-key body goes to `from_json`.
     */
    method Create(conditions: Value, actions: Value, uuid: Value, description: Value) returns (r: Result<Value>)
      requires requester.Valid()
      modifies requester.session
      ensures !ValidRuleArgs(conditions, actions, uuid) ==> r == Err(TypeError) && unchanged(requester.session)
      ensures ValidRuleArgs(conditions, actions, uuid) ==>
        && requester.session.log == old(requester.session.log) + [requester.CallFor(
             "post", RulesPath, JsonBody(RuleBody(uuid, conditions, actions, description)))]
        && requester.session.script == AfterReply(old(requester.session.script))
        && r == JsonOutcome(RequestOutcome(NextReply(old(requester.session.script))))
    {
      if !uuid.Null? && !uuid.Str? {
        return Err(TypeError);
      }
      var args := [conditions, actions];
      assert args[0] == conditions && args[1] == actions;
      var i := 0;
      while i < |args|
        invariant 0 <= i <= |args|
        invariant forall k :: 0 <= k < i ==> ListOfDicts(args[k])
      {
        if !ListOfDicts(args[i]) {
          return Err(TypeError);
        }
        i := i + 1;
      }
      r := FromJson(RuleBody(uuid, conditions, actions, description));
    }

    /** `from_json`: one POST with the given value as the whole body, unchanged. */
    method FromJson(rule: Value) returns (r: Result<Value>)
      requires requester.Valid()
      modifies requester.session
      ensures requester.session.log == old(requester.session.log) + [requester.CallFor("post", RulesPath, JsonBody(rule))]
      ensures requester.session.script == AfterReply(old(requester.session.script))
      ensures r == JsonOutcome(RequestOutcome(NextReply(old(requester.session.script))))
    {
      var resp := requester.Request("post", RulesPath, null, JsonBody(rule));
      r := JsonOutcome(resp);
    }

    /** `get_all`: one GET of the collection, returning the `rules` field of its JSON. */
    method GetAll() returns (r: Result<Value>)
      requires requester.Valid()
      modifies requester.session
      ensures requester.session.log == old(requester.session.log) + [requester.CallFor("get", RulesPath, NoPayload)]
      ensures requester.session.script == AfterReply(old(requester.session.script))
      ensures r == RulesField(RequestOutcome(NextReply(old(requester.session.script))))
    {
      var resp := requester.Request("get", RulesPath, null, NoPayload);
      r := RulesField(resp);
    }

    /** `get`: a non-string UUID is a TypeError with no request; otherwise one GET of that rule. */
    method Get(uuid: Value) returns (r: Result<Value>)
      requires requester.Valid()
      modifies requester.session
      ensures !uuid.Str? ==> r == Err(TypeError) && unchanged(requester.session)
      ensures uuid.Str? ==>
        && requester.session.log == old(requester.session.log) + [requester.CallFor("get", RulePath(uuid.s), NoPayload)]
        && requester.session.script == AfterReply(old(requester.session.script))
        && r == JsonOutcome(RequestOutcome(NextReply(old(requester.session.script))))
    {
      if !uuid.Str? {
        return Err(TypeError);
      }
      var resp := requester.Request("get", RulePath(uuid.s), null, NoPayload);
      r := JsonOutcome(resp);
    }

    /** `delete`: a non-string UUID is a TypeError with no request; otherwise one DELETE of that rule. */
    method Delete(uuid: Value) returns (r: Result<()>)
      requires requester.Valid()
      modifies requester.session
      ensures !uuid.Str? ==> r == Err(TypeError) && unchanged(requester.session)
      ensures uuid.Str? ==>
        && requester.session.log == old(requester.session.log) + [requester.CallFor("delete", RulePath(uuid.s), NoPayload)]
        && requester.session.script == AfterReply(old(requester.session.script))
        && r == Discard(RequestOutcome(NextReply(old(requester.session.script))))
    {
      if !uuid.Str? {
        return Err(TypeError);
      }
      var resp := requester.Request("delete", RulePath(uuid.s), null, NoPayload);
      r := Discard(resp);
    }

    /** `delete_all`: one DELETE of the collection. */
    method DeleteAll() returns (r: Result<()>)
      requires requester.Valid()
      modifies requester.session
      ensures requester.session.log == old(requester.session.log) + [requester.CallFor("delete", RulesPath, NoPayload)]
      ensures requester.session.script == AfterReply(old(requester.session.script))
      ensures r == Discard(RequestOutcome(NextReply(old(requester.session.script))))
    {
      var resp := requester.Request("delete", RulesPath, null, NoPayload);
      r := Discard(resp);
    }
  }
}
