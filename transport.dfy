/**
 * The HTTP session the client talks through, reduced to what the client sees:
 * every call it makes is appended to a log, and the server's replies come from
 * a script, one per call. A call made after the script is exhausted fails as a
 * connection error would.
 */
module Transport {
  import opened Values

  newtype byte = x: int | 0 <= x < 256

  /** Whether the session attaches its credentials: the version probe explicitly does not. */
  datatype Auth = Unauthenticated | SessionAuth

  /** The keyword arguments a call carries besides its headers. */
  datatype Payload =
    | NoPayload
    | Params(params: map<string, Value>)
    | JsonBody(json: Value)

  datatype Call = Call(url: string, verb: string, headers: map<string, string>, payload: Payload, auth: Auth)

  /**
   * A server response: status, headers and raw body, plus the body decoded as
   * UTF-8 text and parsed as JSON (None where decoding or parsing fails).
   */
  datatype Response = Response(
    status: int,
    headers: map<string, string>,
    content: seq<byte>,
    text: Option<string>,
    json: Option<Value>)

  datatype Reply = Answered(response: Response) | ConnectionFailed

  function NextReply(script: seq<Reply>): Reply {
    if script == [] then ConnectionFailed else script[0]
  }

  function AfterReply(script: seq<Reply>): seq<Reply> {
    if script == [] then [] else script[1..]
  }

  class Session {
    var log: seq<Call>
    var script: seq<Reply>

    constructor (script: seq<Reply>)
      ensures log == [] && this.script == script
    {
      log := [];
      this.script := script;
    }

    /** One network round trip. */
    method Send(call: Call) returns (reply: Reply)
      modifies this
      ensures log == old(log) + [call]
      ensures reply == NextReply(old(script))
      ensures script == AfterReply(old(script))
    {
      log := log + [call];
      reply := NextReply(script);
      script := AfterReply(script);
    }
  }
}
