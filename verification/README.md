# Request guards and configuration cache of gin-pkg, in Dafny

This project models the core of `gin-pkg`, a set of middlewares and helpers for the gin web
framework:

- **The signature middleware** (`middleware/verify_sign.go`). `VerifySign(secretKey, opts...)`
  builds a handler from its options (`WithTimeout`, `WithExcept`). The handler lets excepted
  paths through. Otherwise it requires a non-empty `Auth` header, a non-zero `Auth-Date`
  timestamp and a space in `Auth`. It then reads the body, builds the flat parameter map
  (`getParams`), puts the body back, and asks the signature package whether the signature is
  valid. Any failure answers `ErrSignParam`.
- **The limiters** (`middleware/limit.go`). `MaxLimiter(n)` holds one of `n` slots while the rest
  of the chain runs, and `n == 0` turns it off. `IPLimiter(limit, expire)` keeps a Redis counter
  per client address under `ip-limit:<ip>`. It answers 429 once the counter has reached `limit`.
  Otherwise it runs the chain, then increments the counter and resets its expiry.
- **The configuration loader** (`config/config.go`, `config/options.go`). `New(opts...)` builds a
  `Config` from defaults and option closures and installs it as the package default.
  `LoadWithType` caches the loaded configuration per file name. `Load` also decodes it.

Files:

| file | module | models |
|---|---|---|
| `wrappers.dfy` | `Wrappers` | `Option` (nil) and `Result` (value or error) |
| `strings.dfy` | `Strings` | Go's `strings.Index` and `strings.Split`, with `Join` as the inverse of `Split` |
| `strconv.dfy` | `Strconv` | Go's `strconv.ParseInt(s, 10, 64)`, with `FormatInt` as its inverse |
| `gin.dfy` | `Gin` | the request, and a `Context` class with the body stream and a log of `Next`/abort/error |
| `verify_sign.dfy` | `Sign` | `middleware/verify_sign.go` |
| `redis.dfy` | `Redis` | the Redis counter store: `GET`+`Int()`, `INCR`, `EXPIRE`, with expiry against a `now` parameter |
| `limit.dfy` | `Limit` | `middleware/limit.go` |
| `options.dfy` | `ConfigOptions` | `config/options.go` |
| `config.dfy` | `Config` | `config/config.go` |

How the model stands in for what it cannot see:

- The signature package (`signature.New(...).Verify`) is the function parameter `verify`. It
  receives the signer (key, secret, validity period), the `Auth` header, the timestamp and the
  parameter map, and returns `(ok, err != nil)`.
- The results of gin's binders are fields of the request value: the JSON object, the parsed
  form, and the bound query/form map. `ClientIP()` is a field too.
- `c.Next()`, `c.AbortWithStatusJSON` and `app.Error` append an event to the context's log.
  `Next` records the body bytes the next handler can read.
- The Redis server is a `Store` object: a map from key to entry (counter or non-integer value,
  optional expiry instant) and a flag saying whether it answers. Time is the parameter `now`,
  in nanoseconds like `time.Duration`.
- The viper loader (`c.load`) is the function parameter `load`. It receives the settings, the
  file name and the hook, and may fail. Decoding (`v.Unmarshal`) is the parameter `unmarshal`.
- Go's package-level `conf` variable is the `conf` field of a `Package` object.

Behaviour of the code worth knowing (the model follows it):

- The validity period set with `WithTimeout` is never used. The signer is always built with the
  constant one minute (`middleware/verify_sign.go:95`). `Sign.ConfiguredTimeoutIgnored` states it.
- A timestamp that does not parse is not a separate error: the parse error is discarded and the
  value 0 is rejected. A value too large for int64 parses to the int64 maximum, which is not 0,
  so it passes this check.
- `Auth` is split on every space, and only "at least two pieces" is checked. The key is the text
  before the first space, and the whole header, further spaces included, goes to the verifier.
- Only a `POST` request keeps non-string JSON values and takes the first value of each form
  field. Every other method binds through `ShouldBind` into a map from string to string, using
  the binder gin picks for the request.
- The IP limiter resets the expiry on every request it lets through. A counter lasts `expire`
  after the last such request.
- With an `expire` that is not positive, the `EXPIRE` after each `INCR` deletes the counter,
  so the IP limiter never turns a client away. `Limit.NonPositiveExpireNeverLimits` states it.
- The read of the counter and the pipelined writes are separate calls to Redis. A request
  whose writes are lost after a successful read passes without being counted.

## Model

| member | source | states |
|---|---|---|
| `Strings.Index` | middleware/verify_sign.go:110-111 | the result is the first position where the substring occurs, or -1 exactly when it occurs nowhere |
| `Strings.Split` | middleware/verify_sign.go:82-83 | at least one piece; no piece holds the separator; joining the pieces gives the input back; two or more pieces exactly when the separator occurs; the first piece is a prefix followed by the separator |
| `Strings.SplitHeadIsTextBeforeFirst` | middleware/verify_sign.go:82-87 | the key (first piece) is the text before the first space |
| `Strconv.ParseInt` | middleware/verify_sign.go:75 | the value is always an int64; a syntax error gives 0; a result without error comes from a well-formed string and is the number it denotes |
| `Strconv.ParseIntWellFormed` | middleware/verify_sign.go:75 | a well-formed string parses to its number when that fits int64, and to the int64 bound with a range error otherwise |
| `Strconv.ParseIntZero` | middleware/verify_sign.go:75-79 | the timestamp is 0 exactly when the header has a syntax error (missing, empty, non-numeric) or spells zero |
| `Strconv.ParseIntNoLeadingDigit` | middleware/verify_sign.go:75-79 | an empty header, or one with no digit after the sign, parses to 0 with a syntax error |
| `Strconv.ParseFormat` | middleware/verify_sign.go:75 | every int64 written by `FormatInt` parses back to itself without error |
| `Gin.Header` | middleware/verify_sign.go:68 | a missing header reads as the empty string |
| `Gin.Context.GetRawData` | middleware/verify_sign.go:89 | returns the unread body and leaves the stream empty |
| `Gin.Context.SetBody` | middleware/verify_sign.go:91 | the body stream afterwards holds exactly the given bytes |
| `Gin.Context.Next` | middleware/verify_sign.go:102 | records that the next handler ran, with the body it could read |
| `Gin.Context.Error` | middleware/verify_sign.go:70 | records the error answer |
| `Gin.Context.ConsumeBody` | middleware/verify_sign.go:111-116 | a body parser of the framework leaves the stream empty |
| `Gin.Context.AbortWithStatusJSON` | middleware/limit.go:44-47 | records the aborting JSON answer with its status, code and message |
| `Sign.Apply` | middleware/verify_sign.go:35-45 | `WithTimeout` sets only the timeout, `WithExcept` sets only the except list |
| `Sign.ApplyAll` | middleware/verify_sign.go:49-55 | each option field ends with the value of the last option that sets it, or keeps its starting value |
| `Sign.VerifySign` | middleware/verify_sign.go:48-55 | starts from one minute and no excepted path, and applies the options in order |
| `Sign.Params` | middleware/verify_sign.go:107-134 | nil exactly when the JSON bind (JSON POST) or the query bind (non-POST) fails; otherwise `method` and `path` are the request method and path, overriding body fields, and every other field is exactly the JSON value, the first form value, or the bound query value; JSON is recognised by `json` anywhere in Content-Type |
| `Sign.GetParams` | middleware/verify_sign.go:107-134 | builds, field by field, exactly the map `Params` describes |
| `Sign.Decide` | middleware/verify_sign.go:57-103 | an excepted path always proceeds; otherwise the request proceeds exactly when `Auth` is non-empty, the timestamp non-zero, `Auth` holds a space, and the verifier, given the text before the first space as key, the configured secret and the constant one minute, answers ok without error; every rejection is `ErrSignParam` |
| `Sign.Handle` | middleware/verify_sign.go:57-103 | runs the next handler exactly when `Decide` says proceed, answers `ErrSignParam` otherwise, and leaves the body exactly as it was; the next handler reads the original bytes |
| `Sign.EmptyAuthorizationRejected` | middleware/verify_sign.go:68-72 | an empty or missing `Auth` header is rejected |
| `Sign.ZeroTimestampRejected` | middleware/verify_sign.go:75-79 | an `Auth-Date` with a syntax error or spelling zero gives timestamp 0 and is rejected |
| `Sign.MissingDateRejected` | middleware/verify_sign.go:75-79 | a request without `Auth-Date` is rejected |
| `Sign.NoSpaceRejected` | middleware/verify_sign.go:82-86 | an `Auth` value without a space is rejected |
| `Sign.ConfiguredTimeoutIgnored` | middleware/verify_sign.go:95 | changing the configured timeout never changes the decision |
| `Sign.KeyIsTextBeforeFirstSpace` | middleware/verify_sign.go:82-102 | with `Auth = key + " " + rest`, the decision is the verifier's answer for that key and the whole header |
| `Limit.MaxLimiter.constructor` | middleware/limit.go:17-19 | an empty pool of capacity `n` |
| `Limit.MaxLimiter.Acquire` | middleware/limit.go:18 | takes one slot, never beyond the capacity |
| `Limit.MaxLimiter.Release` | middleware/limit.go:19 | gives back one slot |
| `Limit.MaxLimiter.Handle` | middleware/limit.go:20-28 | with `n == 0` the next handler runs and the pool is untouched; otherwise one slot is taken, the handler runs holding it within the capacity, and the slot is given back, so the count in use returns to its prior value |
| `Limit.LimitKey` | middleware/limit.go:39 | the key is `ip-limit:` followed by the address |
| `Limit.LimitKeyInjective` | middleware/limit.go:39 | distinct addresses never share a counter |
| `Limit.Admit` | middleware/limit.go:34-55 | `limit == 0` lets the request through and writes nothing. A counter that is missing, expired or not an integer, or a read that fails, counts as 0. The request passes exactly when the count is below `limit`. A rejected request writes nothing, and neither does a passed one whose writes are lost. For a passed request with `expire > 0`, the counter goes up by exactly 1 and expires `expire` after now, while a non-integer value stays and only gets the new expiry. With `expire <= 0`, the key is deleted. Other keys never change |
| `Limit.IPLimiter` | middleware/limit.go:33-57 | without a store the next handler runs. Otherwise the store ends as `Admit` says, with the read going through when the server answers and the writes when it also receives the pipeline. The context logs the next handler, or the 429 answer `{code: 429, msg: "too many request"}` |
| `Limit.RunFrom` | middleware/limit.go:41-55 | from a counter at `c`, with no expiry in between, the next `limit - c` requests pass and the one after is rejected |
| `Limit.LimitThenReject` | middleware/limit.go:41-55 | from no live counter, requests 1 to `limit` pass and request `limit + 1` is rejected |
| `Limit.WindowReset` | middleware/limit.go:41-43 | once the counter has expired, the next request passes |
| `Limit.NonPositiveExpireNeverLimits` | middleware/limit.go:52-55 | with `expire <= 0`, a client without a counter is never turned away, however many requests it sends |
| `Redis.ReadCount` | middleware/limit.go:41 | a non-zero count comes only from a live integer counter |
| `Redis.AfterIncr` | middleware/limit.go:53 | a live counter goes up by one and keeps its expiry; an absent or expired key becomes 1; other keys unchanged |
| `Redis.AfterExpire` | middleware/limit.go:54 | a live key expires `ttl` after now, or is deleted for `ttl <= 0`; other keys unchanged |
| `Redis.Store.GetInt` | middleware/limit.go:41 | the live counter, or 0 with a failure when missing, not an integer, or unreachable |
| `Redis.Store.Incr` | middleware/limit.go:53 | applies `INCR` when the server answers, nothing otherwise |
| `Redis.Store.Expire` | middleware/limit.go:54 | applies `EXPIRE` when the server answers, nothing otherwise |
| `ConfigOptions.Apply` | config/options.go:11-39 | the three file-type options set `yaml`, `json`, `toml`; `WithDir` sets the directory; `WithEnvPrefix` sets the prefix; each leaves the other fields alone |
| `ConfigOptions.OptionChangesOneField` | config/options.go:9-39 | every option differs from its input in exactly its own field |
| `Config.ApplyAll` | config/config.go:31-33 | the file type is kept or is one of `yaml`, `json`, `toml`. The last option of each kind wins, as stated by `Config.LastFileTypeWins`, `Config.LastDirWins` and `Config.LastEnvPrefixWins` |
| `Config.LastFileTypeWins` | config/config.go:31-33 | the file type is set by the last file-type option, or stays as it was |
| `Config.LastDirWins` | config/config.go:31-33 | the directory is set by the last `WithDir`, or stays as it was |
| `Config.LastEnvPrefixWins` | config/config.go:31-33 | the prefix is set by the last `WithEnvPrefix`, or stays as it was |
| `Config.New` | config/config.go:25-38 | a fresh config with prefix `app`, file type `yaml`, the options applied in order and an empty cache, installed as the package default |
| `Config.Lookup` | config/config.go:77-92 | a cached name returns its value and leaves the cache; a miss returns the loader's answer; a failure leaves the cache unchanged; a success stores exactly that entry and keeps all others |
| `Config.LookupIdempotent` | config/config.go:81-91 | after a successful call, every later call for that name returns the same value and changes nothing, whatever hook and loader it gets |
| `Config.Config.LoadWithType` | config/config.go:77-92 | result and new cache are those of `Lookup` on the old cache |
| `Config.Config.Load` | config/config.go:51-59 | an error of `LoadWithType` is returned unchanged; otherwise the decoding error, if any; the cache changes as in `LoadWithType` |
| `Config.LoadWithType` | config/config.go:46-48 | delegates to the package default instance |
| `Config.Load` | config/config.go:41-43 | delegates to the package default instance |

## Left out

- The signature algorithm is out of scope, being in a package that is not part of this model:
  canonical ordering, the HMAC, key lookup and the timestamp window. It is the parameter `verify`.
- gin internals are abstracted as values of the request: the binders (`ShouldBindBodyWith`,
  `ParseMultipartForm`, `ShouldBind`), `ClientIP` and header-name canonicalisation.
  `app.Error` is not part of this model. The model records only the error code it answers with.
- A JSON body that is the literal `null` is not modelled. The JSON binder's result is either an
  object or a failure. In Go, `null` would leave `params` nil, and the later `params["method"]`
  write would panic.
- A read error of `GetRawData` is not modelled: the body is always read whole.
- Sign.GetParams: the framework's parsers may read the body stream, and the model promises
  nothing about the body after `getParams`. `Sign.Handle` shows that the body is restored anyway.
- Strconv.ParseInt works on characters rather than bytes, which agrees for the ASCII signs and digits it accepts.
- Limit.MaxLimiter.Handle: requires a free slot instead of blocking until one is freed. Goroutine
  scheduling, concurrent holders and the channel itself are not modelled. A panic downstream is
  not modelled, so the `defer` release is shown only on the normal return path.
- The panic of `make(chan struct{}, n)` for negative `n` is a precondition of the constructor, not a modelled outcome.
- Limit.IPLimiter: the race between the read and the increment of concurrent requests is not
  modelled. Requests are sequential, and the handler's own duration is not modelled: read and
  write use the same `now`.
- Redis.AfterIncr: `INCR` overflow beyond int64 is not modelled.
- Redis.AfterExpire: the Redis client's rounding of the TTL to whole seconds is not modelled. A
  sub-second TTL becomes one second there.
- The viper side of loading is not modelled: file reading, environment binding, the hook's effect
  on the instance, `WatchConfig`/`OnConfigChange` hot reload and its panic, and writing the
  decoded value into `val`. `load` and `unmarshal` are parameters.
- Config.LoadWithType, Config.Load: the free functions require `pkg.conf != null`. A call before
  `New` dereferences the nil default instance and panics in Go, and that panic is not modelled.
- The `sync.Mutex` in `LoadWithType` is not modelled. Calls are sequential.
- Other files are not part of this model: `app/db.go`, `app/config.go` and `examples/test.go`.
