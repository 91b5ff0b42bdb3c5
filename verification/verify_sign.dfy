/**
 * The signature-check middleware: options, the flat parameter map the signature covers, and
 * the guard chain run on every request. The signature check itself belongs to a package that
 * is not part of this model; it is the parameter `verify`, called with the signer built from
 * the key, the secret and the validity period, the `Auth` header, the timestamp and the
 * parameter map, and answering whether the signature is valid and whether it failed with an error.
 */
module Sign {
  import opened Wrappers
  import opened Gin
  import Strings
  import Strconv

  /** Header carrying `"<key> <signature>"`. */
  const HeaderSignToken: string := "Auth"
  /** Header carrying the Unix timestamp of the signature. */
  const HeaderSignTokenDate: string := "Auth-Date"
  /** One minute, in nanoseconds (Go's `time.Minute`). */
  const HeaderSignTokenTimeout: int := 60_000_000_000

  /** `VerifyOpts`: the validity period and the paths that skip the check. */
  datatype VerifyOpts = VerifyOpts(timeout: int, except: seq<string>)

  /** The two option constructors, `WithTimeout(timeout)` and `WithExcept(uris)`. */
  datatype VerifyOpt = WithTimeout(timeout: int) | WithExcept(uris: seq<string>)

  /** The options before any `VerifyOpt` is applied: one minute, no excepted path. */
  const DefaultOpts: VerifyOpts := VerifyOpts(HeaderSignTokenTimeout, [])

  /** Running one option closure on the options: it replaces its own field and nothing else. */
  function Apply(os: VerifyOpts, opt: VerifyOpt): (r: VerifyOpts)
    ensures opt.WithTimeout? ==> r.timeout == opt.timeout && r.except == os.except
    ensures opt.WithExcept? ==> r.except == opt.uris && r.timeout == os.timeout
  {
    match opt
    case WithTimeout(t) => os.(timeout := t)
    case WithExcept(uris) => os.(except := uris)
  }

  /**
   * The options after running `opts` in order on `os`. Each field is set by the last option
   * that sets it, and keeps its starting value when no option sets it.
   */
  function ApplyAll(os: VerifyOpts, opts: seq<VerifyOpt>): (r: VerifyOpts)
    ensures (forall i :: 0 <= i < |opts| ==> !opts[i].WithTimeout?) ==> r.timeout == os.timeout
    ensures forall i :: 0 <= i < |opts| && opts[i].WithTimeout? && (forall j :: i < j < |opts| ==> !opts[j].WithTimeout?)
              ==> r.timeout == opts[i].timeout
    ensures (forall i :: 0 <= i < |opts| ==> !opts[i].WithExcept?) ==> r.except == os.except
    ensures forall i :: 0 <= i < |opts| && opts[i].WithExcept? && (forall j :: i < j < |opts| ==> !opts[j].WithExcept?)
              ==> r.except == opts[i].uris
    decreases |opts|
  {
    if opts == [] then os
    else
      var init := opts[..|opts| - 1];
      assert forall i :: 0 <= i < |init| ==> init[i] == opts[i];
      Apply(ApplyAll(os, init), opts[|opts| - 1])
  }

  /** The handler `VerifySign` returns: the secret and the options it captured. */
  datatype SignHandler = SignHandler(secretKey: string, opts: VerifyOpts)

  /** `VerifySign(secretKey, opts...)`: starts from the defaults and applies the options in order. */
  method VerifySign(secretKey: string, opts: seq<VerifyOpt>) returns (h: SignHandler)
    ensures h.secretKey == secretKey
    ensures h.opts == ApplyAll(DefaultOpts, opts)
  {
    var os := DefaultOpts;
    for i := 0 to |opts|
      invariant os == ApplyAll(DefaultOpts, opts[..i])
    {
      assert opts[..i + 1][..i] == opts[..i];
      os := Apply(os, opts[i]);
    }
    assert opts[..|opts|] == opts;
    h := SignHandler(secretKey, os);
  }

  /** The flat parameter map handed to the signature check. */
  type ParamMap = map<string, Value>

  /** A JSON body is recognised by the substring `json` anywhere in `Content-Type`. */
  predicate IsJsonContent(r: Request)
  {
    Strings.Index(Header(r, "Content-Type"), "json") >= 0
  }

  function FirstValues(form: map<string, FormValues>): ParamMap
  {
    map k | k in form :: Str(form[k].first)
  }

  function StringValues(fields: map<string, string>): ParamMap
  {
    map k | k in fields :: Str(fields[k])
  }

  /** The request's own parameters, before `method` and `path` are added; None when binding fails. */
  function RequestFields(r: Request): Option<ParamMap>
  {
    if r.httpMethod == "POST" then
      if IsJsonContent(r) then r.jsonBody else Some(FirstValues(r.postForm))
    else
      match r.bound
      case None => None
      case Some(fields) => Some(StringValues(fields))
  }

  /**
   * What `getParams` returns. A JSON POST uses the decoded JSON object; any other POST takes
   * the first value of each form field; any other method uses the bound query/form values.
   * A failed JSON or query binding gives nil (None). Otherwise the map always holds `method`
   * (the request method) and `path` (the URL path), overriding fields of the same name, and
   * every other field exactly as the request gave it.
   */
  function Params(r: Request): (p: Option<ParamMap>)
    ensures p.None? <==> ((r.httpMethod == "POST" && IsJsonContent(r) && r.jsonBody.None?) ||
                          (r.httpMethod != "POST" && r.bound.None?))
    ensures p.Some? ==> "method" in p.value && p.value["method"] == Str(r.httpMethod)
    ensures p.Some? ==> "path" in p.value && p.value["path"] == Str(r.path)
    ensures p.Some? && r.httpMethod == "POST" && IsJsonContent(r) ==>
              p.value.Keys == r.jsonBody.value.Keys + {"method", "path"} &&
              forall k :: k in r.jsonBody.value && k != "method" && k != "path" ==> p.value[k] == r.jsonBody.value[k]
    ensures p.Some? && r.httpMethod == "POST" && !IsJsonContent(r) ==>
              p.value.Keys == r.postForm.Keys + {"method", "path"} &&
              forall k :: k in r.postForm && k != "method" && k != "path" ==> p.value[k] == Str(r.postForm[k].first)
    ensures p.Some? && r.httpMethod != "POST" ==>
              p.value.Keys == r.bound.value.Keys + {"method", "path"} &&
              forall k :: k in r.bound.value && k != "method" && k != "path" ==> p.value[k] == Str(r.bound.value[k])
  {
    match RequestFields(r)
    case None => None
    case Some(fields) => Some(fields["method" := Str(r.httpMethod)]["path" := Str(r.path)])
  }

  /**
   * `getParams(c)`: builds the map field by field. The framework's parsers may read the body
   * stream, so nothing is promised about `c.body` afterwards.
   */
  method GetParams(c: Context) returns (params: Option<ParamMap>)
    modifies c`body
    ensures params == Params(c.request)
  {
    var r := c.request;
    var m: ParamMap := map[];
    if r.httpMethod == "POST" {
      var contentType := Header(r, "Content-Type");
      c.ConsumeBody();
      if Strings.Index(contentType, "json") >= 0 {
        if r.jsonBody.None? {
          return None;
        }
        m := r.jsonBody.value;
      } else {
        var todo := r.postForm.Keys;
        while todo != {}
          invariant todo <= r.postForm.Keys
          invariant m == map k | k in r.postForm.Keys - todo :: Str(r.postForm[k].first)
          decreases todo
        {
          var k :| k in todo;
          m := m[k := Str(r.postForm[k].first)];
          todo := todo - {k};
        }
        assert r.postForm.Keys - todo == r.postForm.Keys;
      }
    } else {
      if r.bound.None? {
        return None;
      }
      var fields := r.bound.value;
      var todo := fields.Keys;
      while todo != {}
        invariant todo <= fields.Keys
        invariant m == map k | k in fields.Keys - todo :: Str(fields[k])
        decreases todo
      {
        var k :| k in todo;
        m := m[k := Str(fields[k])];
        todo := todo - {k};
      }
      assert fields.Keys - todo == fields.Keys;
    }
    m := m["method" := Str(r.httpMethod)];
    m := m["path" := Str(r.path)];
    params := Some(m);
  }

  /** The signer `signature.New(key, secret, timeout)` builds. */
  datatype Signer = Signer(key: string, secret: string, timeout: int)

  /** The result `(ok, err)` of `Verify`: whether the signature is valid, and whether an error came back. */
  datatype Verdict = Verdict(ok: bool, failed: bool)

  /** `st.Verify(authorization, timestamp, params)`; nil params are None. */
  type Verifier = (Signer, string, int, Option<ParamMap>) -> Verdict

  /** What the handler does with a request: let it through to the next handler, or answer with an error. */
  datatype Decision = Proceed | Reject(err: Errno)

  /** The `Auth` header value of the request. */
  function Authorization(r: Request): string
  {
    Header(r, HeaderSignToken)
  }

  /** The timestamp the handler works with: the parsed `Auth-Date`, its error discarded. */
  function Timestamp(r: Request): int
  {
    Strconv.ParseInt(Header(r, HeaderSignTokenDate)).value
  }

  /** The guard chain of the handler `VerifySign` returns, as a decision on one request. */
  function Decide(h: SignHandler, r: Request, verify: Verifier): (d: Decision)
    ensures d == Proceed || d == Reject(ErrSignParam)
    ensures r.path in h.opts.except ==> d == Proceed
    ensures d == Proceed <==>
              r.path in h.opts.except ||
              (var auth := Authorization(r);
               && auth != ""
               && Timestamp(r) != 0
               && ' ' in auth
               && var key := auth[..Strings.FirstIndexOf(auth, ' ')];
                  var v := verify(Signer(key, h.secretKey, HeaderSignTokenTimeout), auth, Timestamp(r), Params(r));
                  v.ok && !v.failed)
  {
    if r.path in h.opts.except then Proceed
    else
      var authorization := Authorization(r);
      if authorization == "" then Reject(ErrSignParam)
      else
        var timestamp := Timestamp(r);
        if timestamp == 0 then Reject(ErrSignParam)
        else
          var authorizationSplit := Strings.Split(authorization, ' ');
          if |authorizationSplit| < 2 then Reject(ErrSignParam)
          else
            var key := authorizationSplit[0];
            Strings.SplitHeadIsTextBeforeFirst(authorization, ' ');
            var st := Signer(key, h.secretKey, HeaderSignTokenTimeout);
            var v := verify(st, authorization, timestamp, Params(r));
            if v.failed || !v.ok then Reject(ErrSignParam) else Proceed
  }

  /**
   * The handler `VerifySign` returns, run on `c`. It runs the next handler exactly when
   * `Decide` says Proceed, and answers `ErrSignParam` otherwise. Whatever happens, the body
   * is afterwards the bytes it held before, and the next handler reads those bytes.
   */
  method Handle(h: SignHandler, c: Context, verify: Verifier)
    modifies c
    ensures c.body == old(c.body)
    ensures c.events == old(c.events) +
              [if Decide(h, c.request, verify) == Proceed then RanNext(old(c.body)) else Failed(ErrSignParam)]
  {
    var except := h.opts.except;
    for i := 0 to |except|
      invariant c.request.path !in except[..i]
    {
      if c.request.path == except[i] {
        c.Next();
        return;
      }
    }
    assert except[..|except|] == except;

    var authorization := Header(c.request, HeaderSignToken);
    if authorization == "" {
      c.Error(ErrSignParam);
      return;
    }

    var timestamp := Strconv.ParseInt(Header(c.request, HeaderSignTokenDate)).value;
    if timestamp == 0 {
      c.Error(ErrSignParam);
      return;
    }

    var authorizationSplit := Strings.Split(authorization, ' ');
    if |authorizationSplit| < 2 {
      c.Error(ErrSignParam);
      return;
    }
    var key := authorizationSplit[0];

    var data := c.GetRawData();
    c.SetBody(data);
    var params := GetParams(c);
    c.SetBody(data);

    var st := Signer(key, h.secretKey, HeaderSignTokenTimeout);
    var v := verify(st, authorization, timestamp, params);
    if v.failed || !v.ok {
      c.Error(ErrSignParam);
      return;
    }
    c.Next();
  }

  /** An empty or missing `Auth` header is rejected, unless the path is excepted. */
  lemma EmptyAuthorizationRejected(h: SignHandler, r: Request, verify: Verifier)
    requires r.path !in h.opts.except
    requires Authorization(r) == ""
    ensures Decide(h, r, verify) == Reject(ErrSignParam)
  {
  }

  /**
   * An `Auth-Date` that is missing, not a number, or a spelling of zero gives timestamp 0,
   * because the parse error is discarded, and the request is rejected.
   */
  lemma ZeroTimestampRejected(h: SignHandler, r: Request, verify: Verifier)
    requires r.path !in h.opts.except
    requires var date := Header(r, HeaderSignTokenDate);
             Strconv.ParseInt(date).err == Strconv.ErrSyntax ||
             (Strconv.WellFormed(date) && Strconv.Decimal(Strconv.Unsigned(date)) == 0)
    ensures Timestamp(r) == 0
    ensures Decide(h, r, verify) == Reject(ErrSignParam)
  {
    Strconv.ParseIntZero(Header(r, HeaderSignTokenDate));
  }

  /** In particular a request without an `Auth-Date` header is rejected. */
  lemma MissingDateRejected(h: SignHandler, r: Request, verify: Verifier)
    requires r.path !in h.opts.except
    requires HeaderSignTokenDate !in r.headers
    ensures Decide(h, r, verify) == Reject(ErrSignParam)
  {
    Strconv.ParseIntNoLeadingDigit("");
  }

  /** An `Auth` value without a space splits into a single piece and is rejected. */
  lemma NoSpaceRejected(h: SignHandler, r: Request, verify: Verifier)
    requires r.path !in h.opts.except
    requires ' ' !in Authorization(r)
    ensures Decide(h, r, verify) == Reject(ErrSignParam)
  {
  }

  /**
   * The validity period set with `WithTimeout` has no effect on any request: the signer is
   * always built with the constant one minute.
   */
  lemma ConfiguredTimeoutIgnored(h: SignHandler, timeout: int, r: Request, verify: Verifier)
    ensures Decide(h.(opts := h.opts.(timeout := timeout)), r, verify) == Decide(h, r, verify)
  {
  }

  /**
   * A request that reaches the signature check with `Auth` = `key + " " + rest` is checked with
   * that key, the whole header (further spaces included) and the configured secret.
   */
  lemma KeyIsTextBeforeFirstSpace(h: SignHandler, r: Request, verify: Verifier, key: string, rest: string)
    requires r.path !in h.opts.except
    requires Authorization(r) == key + " " + rest && ' ' !in key
    requires Timestamp(r) != 0
    ensures var v := verify(Signer(key, h.secretKey, HeaderSignTokenTimeout), Authorization(r), Timestamp(r), Params(r));
            Decide(h, r, verify) == if v.ok && !v.failed then Proceed else Reject(ErrSignParam)
  {
    var auth := Authorization(r);
    assert auth[|key|] == ' ';
    assert auth[..|key|] == key;
  }
}
