/**
 * The configuration loader. A `Config` keeps its settings and a cache from file name to the
 * loaded configuration. Loading a file (a viper instance reading it from the directory, with the
 * file type and the environment prefix, after the caller's hook has adjusted it) is the
 * parameter `load`, which may fail with an error message.
 */
module Config {
  import Wrappers
  import opened ConfigOptions

  /** The settings `New` starts from: prefix `app`, no directory, YAML files. */
  const Defaults: Settings := Settings("app", "", FileTypeYaml)

  /** The settings after running the option closures `opts` in order on `s`. */
  function ApplyAll(s: Settings, opts: seq<Option>): (r: Settings)
    ensures r.fileType == s.fileType || r.fileType in {FileTypeYaml, FileTypeJson, FileTypeToml}
    decreases |opts|
  {
    if opts == [] then s else Apply(opts[|opts| - 1], ApplyAll(s, opts[..|opts| - 1]))
  }

  /** The file type is set by the last option that sets one, and stays as it was when none does. */
  lemma {:induction false} LastFileTypeWins(s: Settings, opts: seq<Option>)
    ensures (forall i :: 0 <= i < |opts| ==> !SetsFileType(opts[i])) ==> ApplyAll(s, opts).fileType == s.fileType
    ensures forall i :: 0 <= i < |opts| && SetsFileType(opts[i]) && (forall j :: i < j < |opts| ==> !SetsFileType(opts[j]))
              ==> ApplyAll(s, opts).fileType == FileTypeOf(opts[i])
    decreases |opts|
  {
    if opts != [] {
      var init, last := opts[..|opts| - 1], opts[|opts| - 1];
      assert forall i :: 0 <= i < |init| ==> init[i] == opts[i];
      LastFileTypeWins(s, init);
      if !SetsFileType(last) {
        assert ApplyAll(s, opts).fileType == ApplyAll(s, init).fileType;
      }
    }
  }

  /** The directory is set by the last `WithDir`, and stays as it was when there is none. */
  lemma {:induction false} LastDirWins(s: Settings, opts: seq<Option>)
    ensures (forall i :: 0 <= i < |opts| ==> !opts[i].WithDir?) ==> ApplyAll(s, opts).dir == s.dir
    ensures forall i :: 0 <= i < |opts| && opts[i].WithDir? && (forall j :: i < j < |opts| ==> !opts[j].WithDir?)
              ==> ApplyAll(s, opts).dir == opts[i].dir
    decreases |opts|
  {
    if opts != [] {
      var init := opts[..|opts| - 1];
      assert forall i :: 0 <= i < |init| ==> init[i] == opts[i];
      LastDirWins(s, init);
    }
  }

  /** The environment prefix is set by the last `WithEnvPrefix`, and stays as it was when there is none. */
  lemma {:induction false} LastEnvPrefixWins(s: Settings, opts: seq<Option>)
    ensures (forall i :: 0 <= i < |opts| ==> !opts[i].WithEnvPrefix?) ==> ApplyAll(s, opts).envPrefix == s.envPrefix
    ensures forall i :: 0 <= i < |opts| && opts[i].WithEnvPrefix? && (forall j :: i < j < |opts| ==> !opts[j].WithEnvPrefix?)
              ==> ApplyAll(s, opts).envPrefix == opts[i].prefix
    decreases |opts|
  {
    if opts != [] {
      var init := opts[..|opts| - 1];
      assert forall i :: 0 <= i < |init| ==> init[i] == opts[i];
      LastEnvPrefixWins(s, init);
    }
  }

  /**
   * `LoadWithType` on the cache `cache`: the result and the cache afterwards. A cached file
   * name gives its cached value and the loader is not consulted. Otherwise the loader runs;
   * its error is returned with the cache unchanged, and its value is returned and stored under
   * that file name, every other entry staying as it was.
   */
  function Lookup<V, H>(cache: map<string, V>, settings: Settings, filename: string, hook: H,
                        load: (Settings, string, H) -> Wrappers.Result<V, string>): (res: (Wrappers.Result<V, string>, map<string, V>))
    ensures filename in cache ==> res.0 == Wrappers.Ok(cache[filename]) && res.1 == cache
    ensures filename !in cache ==> res.0 == load(settings, filename, hook)
    ensures res.0.Err? ==> res.1 == cache
    ensures res.0.Ok? ==> filename in res.1 && res.1[filename] == res.0.value
    ensures res.1.Keys == if res.0.Ok? then cache.Keys + {filename} else cache.Keys
    ensures forall k :: k in cache ==> res.1[k] == cache[k]
  {
    if filename in cache then (Wrappers.Ok(cache[filename]), cache)
    else
      var loaded := load(settings, filename, hook);
      if loaded.Err? then (loaded, cache) else (loaded, cache[filename := loaded.value])
  }

  /**
   * After a call that returns a value, every later call for the same file name returns that
   * value and leaves the cache as it is, whatever hook and loader it is given.
   */
  lemma LookupIdempotent<V, H>(cache: map<string, V>, settings: Settings, filename: string, hook: H,
                               load: (Settings, string, H) -> Wrappers.Result<V, string>,
                               settings': Settings, hook': H, load': (Settings, string, H) -> Wrappers.Result<V, string>)
    requires Lookup(cache, settings, filename, hook, load).0.Ok?
    ensures var (r, after) := Lookup(cache, settings, filename, hook, load);
            Lookup(after, settings', filename, hook', load') == (r, after)
  {
  }

  class Config<V> {
    var settings: Settings
    var val: map<string, V>

    constructor (settings: Settings)
      ensures this.settings == settings && val == map[]
    {
      this.settings := settings;
      val := map[];
    }

    /** `c.LoadWithType(filename, hook)`: the cached value, or the loaded one, then cached. */
    method LoadWithType<H>(filename: string, hook: H, load: (Settings, string, H) -> Wrappers.Result<V, string>)
      returns (r: Wrappers.Result<V, string>)
      modifies this`val
      ensures (r, val) == Lookup(old(val), settings, filename, hook, load)
    {
      if filename in val {
        return Wrappers.Ok(val[filename]);
      }
      r := load(settings, filename, hook);
      if r.Err? {
        return Wrappers.Err(r.error);
      }
      val := val[filename := r.value];
    }

    /**
     * `c.Load(filename, val, hook)`: an error of `LoadWithType` is returned unchanged; otherwise
     * the loaded configuration is decoded (`unmarshal`) and the decoding error, if any, returned.
     */
    method Load<H>(filename: string, hook: H, load: (Settings, string, H) -> Wrappers.Result<V, string>,
                   unmarshal: V -> Wrappers.Option<string>)
      returns (err: Wrappers.Option<string>)
      modifies this`val
      ensures var (r, cache) := Lookup(old(val), settings, filename, hook, load);
              && val == cache
              && err == if r.Err? then Wrappers.Some(r.error) else unmarshal(r.value)
    {
      var r := LoadWithType(filename, hook, load);
      if r.Err? {
        return Wrappers.Some(r.error);
      }
      err := unmarshal(r.value);
    }
  }

  /** The package-level default instance `conf` that the free functions use. */
  class Package<V> {
    var conf: Config?<V>

    constructor ()
      ensures conf == null
    {
      conf := null;
    }
  }

  /** `New(opts...)`: the defaults with the options applied in order and an empty cache, installed as the package default. */
  method New<V>(pkg: Package<V>, opts: seq<Option>) returns (c: Config<V>)
    modifies pkg
    ensures fresh(c) && pkg.conf == c
    ensures c.settings == ApplyAll(Defaults, opts) && c.val == map[]
  {
    var s := Defaults;
    for i := 0 to |opts|
      invariant s == ApplyAll(Defaults, opts[..i])
    {
      assert opts[..i + 1][..i] == opts[..i];
      s := Apply(opts[i], s);
    }
    assert opts[..|opts|] == opts;
    c := new Config(s);
    pkg.conf := c;
  }

  /** The free function `LoadWithType`: the package default's `LoadWithType`. */
  method LoadWithType<V, H>(pkg: Package<V>, filename: string, hook: H, load: (Settings, string, H) -> Wrappers.Result<V, string>)
    returns (r: Wrappers.Result<V, string>)
    requires pkg.conf != null
    modifies pkg.conf`val
    ensures (r, pkg.conf.val) == Lookup(old(pkg.conf.val), pkg.conf.settings, filename, hook, load)
  {
    r := pkg.conf.LoadWithType(filename, hook, load);
  }

  /** The free function `Load`: the package default's `Load`. */
  method Load<V, H>(pkg: Package<V>, filename: string, hook: H, load: (Settings, string, H) -> Wrappers.Result<V, string>,
                    unmarshal: V -> Wrappers.Option<string>)
    returns (err: Wrappers.Option<string>)
    requires pkg.conf != null
    modifies pkg.conf`val
    ensures var (r, cache) := Lookup(old(pkg.conf.val), pkg.conf.settings, filename, hook, load);
            && pkg.conf.val == cache
            && err == if r.Err? then Wrappers.Some(r.error) else unmarshal(r.value)
  {
    err := pkg.conf.Load(filename, hook, load, unmarshal);
  }
}
