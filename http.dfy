/** The outgoing HTTP response object the gateway handlers write to, as far
    as they use it: a status code, a content type, the body text written so
    far, and whether the response has been ended. `JSON.stringify` is a
    parameter of the calls that serialise a value. */
module Http {
  import opened Wrappers
  import opened Json

  /** Node's default status for a response nobody has set one on. */
  const DefaultStatus: int := 200

  /** The Content-Type `res.json` sets: Express adds the charset. */
  const JsonContentType := "application/json; charset=utf-8"

  class ServerResponse {
    var statusCode: int
    var contentType: Option<string>
    var body: string
    var ended: bool

    constructor ()
      ensures statusCode == DefaultStatus && contentType == None && body == "" && !ended
    {
      statusCode := DefaultStatus;
      contentType := None;
      body := "";
      ended := false;
    }

    /** `res.status(code).json(value)`. */
    method SendJson(code: int, value: Json, stringify: Json -> string)
      modifies this
      ensures statusCode == code && contentType == Some(JsonContentType)
      ensures body == old(body) + stringify(value) && ended
    {
      statusCode := code;
      contentType := Some(JsonContentType);
      body := body + stringify(value);
      ended := true;
    }

    /** `res.status(code)`. */
    method SetStatus(code: int)
      modifies this
      ensures statusCode == code
      ensures contentType == old(contentType) && body == old(body) && ended == old(ended)
    {
      statusCode := code;
    }

    /** `res.setHeader('Content-Type', value)`. */
    method SetContentType(value: string)
      modifies this
      ensures contentType == Some(value)
      ensures statusCode == old(statusCode) && body == old(body) && ended == old(ended)
    {
      contentType := Some(value);
    }

    /** `res.write(chunk)`, as a pipe does for each chunk. */
    method Write(chunk: string)
      modifies this
      ensures body == old(body) + chunk
      ensures statusCode == old(statusCode) && contentType == old(contentType) && ended == old(ended)
    {
      body := body + chunk;
    }

    /** `res.end(text)`. */
    method End(text: string)
      modifies this
      ensures body == old(body) + text && ended
      ensures statusCode == old(statusCode) && contentType == old(contentType)
    {
      body := body + text;
      ended := true;
    }
  }

  /** `{ message: text }`, the error body every handler sends. */
  function MessageBody(text: string): Json {
    JObj([("message", JStr(text))])
  }
}
