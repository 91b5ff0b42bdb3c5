/**
 * What the middleware sees of the gin framework. A request's headers, path, method and client
 * address are fixed values; the results of gin's binders (JSON body, multipart/url-encoded form,
 * query/form binding) are fixed values computed by the framework from the same request.
 * A `Context` holds the request, the unread bytes of the request body stream (which the
 * middleware reads and replaces), and the log of what the middleware did: ran the next handler,
 * aborted with a JSON response, or answered with an error code.
 */
module Gin {
  import opened Wrappers

  newtype byte = x: int | 0 <= x < 256

  /** A parameter value: a string, or any other JSON value kept as its JSON text. */
  datatype Value = Str(s: string) | Json(text: string)

  /** The values of one form field; a parsed form field always has at least one. */
  datatype FormValues = FormValues(first: string, more: seq<string>)

  datatype Request = Request(
    httpMethod: string,
    path: string,
    headers: map<string, string>,
    clientIP: string,
    // `ShouldBindBodyWith(&params, binding.JSON)`: the decoded JSON object, or None when binding fails
    jsonBody: Option<map<string, Value>>,
    // `Request.PostForm` after `ParseMultipartForm`
    postForm: map<string, FormValues>,
    // `ShouldBind(&map[string]string)`: the bound query/form values, or None when binding fails
    bound: Option<map<string, string>>
  )

  /** `Header.Get(name)`: the header's value, or the empty string when it is absent. */
  function Header(r: Request, name: string): (v: string)
    ensures name !in r.headers ==> v == ""
    ensures name in r.headers ==> v == r.headers[name]
  {
    if name in r.headers then r.headers[name] else ""
  }

  /** Error codes of the application's error package that this model uses. */
  datatype Errno = ErrSignParam

  datatype Event =
    | RanNext(body: seq<byte>)                       // `c.Next()`, with the body the next handler can read
    | AbortedWithJSON(status: int, code: int, msg: string)  // `c.AbortWithStatusJSON(status, {code, msg})`
    | Failed(err: Errno)                             // `app.Error(c, err)`

  class Context {
    const request: Request
    var body: seq<byte>
    var events: seq<Event>

    constructor (request: Request, body: seq<byte>)
      ensures this.request == request && this.body == body && events == []
    {
      this.request := request;
      this.body := body;
      events := [];
    }

    /** `c.GetRawData()`: reads the whole body stream, which is then exhausted. */
    method GetRawData() returns (data: seq<byte>)
      modifies this`body
      ensures data == old(body) && body == []
    {
      data := body;
      body := [];
    }

    /** `c.Request.Body = io.NopCloser(bytes.NewBuffer(data))`. */
    method SetBody(data: seq<byte>)
      modifies this`body
      ensures body == data
    {
      body := data;
    }

    /** A body parser of the framework reads the whole stream. */
    method ConsumeBody()
      modifies this`body
      ensures body == []
    {
      body := [];
    }

    /** `c.Next()`: the rest of the handler chain runs, reading the current body. */
    method Next()
      modifies this`events
      ensures events == old(events) + [RanNext(body)]
    {
      events := events + [RanNext(body)];
    }

    /** `c.AbortWithStatusJSON(status, gin.H{"code": code, "msg": msg})`. */
    method AbortWithStatusJSON(status: int, code: int, msg: string)
      modifies this`events
      ensures events == old(events) + [AbortedWithJSON(status, code, msg)]
    {
      events := events + [AbortedWithJSON(status, code, msg)];
    }

    /** `app.Error(c, err)`: answers with the error; the chain does not continue. */
    method Error(err: Errno)
      modifies this`events
      ensures events == old(events) + [Failed(err)]
    {
      events := events + [Failed(err)];
    }
  }
}
