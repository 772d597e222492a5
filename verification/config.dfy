/**
  The interactive shell's session configuration, `GlobalConfig`: connection
  URLs with their defaults, display toggles, and the variable store with its
  dotted-path `get`, bulk `add_env_vars`, and the `KV` query result.
 */
module Config {
  import opened Wrappers
  import opened SerdeJson
  import opened Segments
  import opened Resolver

  const DEFAULT_CKB_URL: string := "http://127.0.0.1:8114"
  const DEFAULT_CKB_INDEXER_URL: string := "http://127.0.0.1:8116"

  /** The networks of the SDK; the configuration only stores and returns one. */
  datatype NetworkType = Mainnet | Testnet | Preview | Staging | Dev

  /** The printer's output formats; the configuration only stores and returns one. */
  datatype OutputFormat = Yaml | Json

  /** The variable store: name to value, one entry per name. */
  type Store = map<string, Value>

  /**
    The session configuration. The getters of the source (`color()`,
    `debug()`, `network()`, …) are this record's destructors. `path` is the
    working directory captured at construction, kept as uninterpreted text.
   */
  datatype GlobalConfig = GlobalConfig(
    url: Option<string>,
    ckbIndexerUrl: Option<string>,
    network: Option<NetworkType>,
    color: bool,
    debug: bool,
    noSync: bool,
    outputFormat: OutputFormat,
    path: string,
    completionStyle: bool,
    editStyle: bool,
    envVariable: Store)

  /** The fields of `GlobalConfig`, to say which one an update may touch. */
  datatype Field =
    | UrlField | CkbIndexerUrlField | NetworkField | ColorField | DebugField | NoSyncField
    | OutputFormatField | PathField | CompletionStyleField | EditStyleField | EnvVariableField

  /** `a` and `b` agree on every field except possibly `f`. */
  predicate SameExcept(a: GlobalConfig, b: GlobalConfig, f: Field) {
    && (f == UrlField || a.url == b.url)
    && (f == CkbIndexerUrlField || a.ckbIndexerUrl == b.ckbIndexerUrl)
    && (f == NetworkField || a.network == b.network)
    && (f == ColorField || a.color == b.color)
    && (f == DebugField || a.debug == b.debug)
    && (f == NoSyncField || a.noSync == b.noSync)
    && (f == OutputFormatField || a.outputFormat == b.outputFormat)
    && (f == PathField || a.path == b.path)
    && (f == CompletionStyleField || a.completionStyle == b.completionStyle)
    && (f == EditStyleField || a.editStyle == b.editStyle)
    && (f == EnvVariableField || a.envVariable == b.envVariable)
  }

  /**
    `GlobalConfig::new`: the URLs are stored as given (no normalisation),
    colour and both styles on, debug and no-sync off, YAML output, no
    network, an empty store.
   */
  function New(url: Option<string>, ckbIndexerUrl: Option<string>, path: string): (r: GlobalConfig)
    ensures GetUrl(r) == url.GetOr(DEFAULT_CKB_URL)
    ensures GetCkbIndexerUrl(r) == ckbIndexerUrl.GetOr(DEFAULT_CKB_INDEXER_URL)
    ensures r.network.None? && r.outputFormat == Yaml && r.path == path
    ensures r.color && !r.debug && !r.noSync && r.completionStyle && r.editStyle
    ensures |r.envVariable| == 0
  {
    GlobalConfig(url, ckbIndexerUrl, None, true, false, false, Yaml, path, true, true, map[])
  }

  // ---------------------------------------------------------------------------
  // The variable store

  /** The stored value of a top-level variable, if any (`HashMap::get`). */
  function Find(env: Store, name: string): (r: Option<Value>)
    ensures r.Some? <==> name in env
    ensures r.Some? ==> r.value == env[name]
  {
    if name in env then Some(env[name]) else None
  }

  /** `set`: after it, `key` holds `value`, every other variable and every other field is as before. */
  function Set(c: GlobalConfig, key: string, value: Value): (r: GlobalConfig)
    ensures Find(r.envVariable, key) == Some(value)
    ensures forall k :: k != key ==> Find(r.envVariable, k) == Find(c.envVariable, k)
    ensures SameExcept(c, r, EnvVariableField)
  {
    c.(envVariable := c.envVariable[key := value])
  }

  /** The value of the last pair for `key` in `pairs`, if `key` occurs at all. */
  function LastFor(pairs: seq<(string, Value)>, key: string): Option<Value>
    decreases |pairs|
  {
    if |pairs| == 0 then None
    else if pairs[|pairs| - 1].0 == key then Some(pairs[|pairs| - 1].1)
    else LastFor(pairs[..|pairs| - 1], key)
  }

  /**
    `HashMap::extend`: the pairs are inserted in order, so for a name that
    occurs in `pairs` its last pair wins, and every other name keeps its
    entry (or its absence).
   */
  function Extend(env: Store, pairs: seq<(string, Value)>): (r: Store)
    ensures forall k :: Find(r, k) == (if LastFor(pairs, k).Some? then LastFor(pairs, k) else Find(env, k))
    decreases |pairs|
  {
    if |pairs| == 0 then env
    else
      var last := pairs[|pairs| - 1];
      Extend(env, pairs[..|pairs| - 1])[last.0 := last.1]
  }

  /** `add_env_vars`: extends the store; nothing else changes. */
  function AddEnvVars(c: GlobalConfig, pairs: seq<(string, Value)>): (r: GlobalConfig)
    ensures forall k :: Find(r.envVariable, k)
                        == (if LastFor(pairs, k).Some? then LastFor(pairs, k) else Find(c.envVariable, k))
    ensures SameExcept(c, r, EnvVariableField)
  {
    c.(envVariable := Extend(c.envVariable, pairs))
  }

  /** Adding a batch in two parts is adding the parts one after the other. */
  lemma {:induction false} ExtendAppend(env: Store, p: seq<(string, Value)>, q: seq<(string, Value)>)
    ensures Extend(env, p + q) == Extend(Extend(env, p), q)
    decreases |q|
  {
    if |q| == 0 {
      assert p + q == p;
    } else {
      assert (p + q)[..|p + q| - 1] == p + q[..|q| - 1];
      assert (p + q)[|p + q| - 1] == q[|q| - 1];
      ExtendAppend(env, p, q[..|q| - 1]);
    }
  }

  /** A one-pair batch is a `set`. */
  lemma AddOneIsSet(c: GlobalConfig, key: string, value: Value)
    ensures AddEnvVars(c, [(key, value)]) == Set(c, key, value)
  {
    var pairs := [(key, value)];
    assert pairs[..0] == [];
    assert Extend(c.envVariable, pairs) == Extend(c.envVariable, [])[key := value];
  }

  /** A second `set` of the same name replaces the first: one entry, holding the second value. */
  lemma SetTwice(c: GlobalConfig, key: string, v1: Value, v2: Value)
    ensures Set(Set(c, key, v1), key, v2) == Set(c, key, v2)
  {
  }

  // ---------------------------------------------------------------------------
  // `get`

  /**
    `get(Some(key))`: the key is split on `.` (always at least one segment),
    the first segment names a variable, the others descend into its value.
   */
  function Lookup(c: GlobalConfig, key: string): (r: Option<Value>)
    ensures Split(key)[0] !in c.envVariable ==> r.None?
    ensures |Split(key)| == 1 ==> r == Find(c.envVariable, key)
  {
    var parts := Split(key);
    Walk(Find(c.envVariable, parts[0]), parts[1..])
  }

  /** A name without a dot, the empty name included, resolves to exactly its stored value. */
  lemma LookupBareName(c: GlobalConfig, name: string)
    requires DotFree(name)
    ensures Lookup(c, name) == Find(c.envVariable, name)
  {
    SplitDotFree(name);
  }

  /** A dotted path is the walk of its segments from the named variable. */
  lemma LookupPath(c: GlobalConfig, name: string, segs: seq<string>)
    requires DotFree(name) && AllDotFree(segs)
    ensures Lookup(c, Join([name] + segs)) == Walk(Find(c.envVariable, name), segs)
  {
    var all := [name] + segs;
    assert AllDotFree(all) by {
      forall i | 0 <= i < |all| ensures DotFree(all[i]) {
        if i > 0 { assert all[i] == segs[i - 1]; }
      }
    }
    SplitJoin(all);
    assert all[1..] == segs;
  }

  /** An absent variable resolves to nothing, and so does every path below it. */
  lemma LookupMissingName(c: GlobalConfig, name: string, rest: string)
    requires DotFree(name) && name !in c.envVariable
    ensures Lookup(c, name) == None
    ensures Lookup(c, name + "." + rest) == None
  {
    LookupBareName(c, name);
    SplitAtFirstDot(name, rest);
    assert ([name] + Split(rest))[1..] == Split(rest);
    WalkFromNothing(Split(rest));
  }

  /** `set` then `get` of the same dot-free name returns the value set; other names are unaffected. */
  lemma SetThenLookup(c: GlobalConfig, key: string, value: Value, other: string)
    requires DotFree(key) && DotFree(other) && other != key
    ensures Lookup(Set(c, key, value), key) == Some(value)
    ensures Lookup(Set(c, key, value), other) == Lookup(c, other)
  {
    LookupBareName(Set(c, key, value), key);
    LookupBareName(Set(c, key, value), other);
    LookupBareName(c, other);
  }

  /** The query result: the known names, or one resolved value (or its absence). */
  datatype KV = Value(v: Option<Value>) | Keys(names: seq<string>)

  /** No name occurs twice. */
  predicate Distinct(names: seq<string>) {
    forall i, j :: 0 <= i < j < |names| ==> names[i] != names[j]
  }

  /** `names` lists every element of `keys` exactly once and nothing else. */
  predicate ListsExactly(names: seq<string>, keys: set<string>) {
    && Distinct(names)
    && (forall i :: 0 <= i < |names| ==> names[i] in keys)
    && (forall k :: k in keys ==> k in names)
  }

  /** The store's names in the (unspecified) order `HashMap::keys` yields them. */
  method KeyList(env: Store) returns (names: seq<string>)
    ensures ListsExactly(names, env.Keys)
    ensures |names| == |env|
  {
    names := [];
    var rest := env.Keys;
    while rest != {}
      invariant rest <= env.Keys
      invariant Distinct(names)
      invariant forall i :: 0 <= i < |names| ==> names[i] in env.Keys && names[i] !in rest
      invariant forall k :: k in env.Keys ==> k in rest || k in names
      invariant |names| + |rest| == |env.Keys|
      decreases rest
    {
      var k :| k in rest;
      names := names + [k];
      rest := rest - {k};
    }
  }

  /** `get`: with no key, every stored name exactly once; with a key, the resolved value. */
  method Get(c: GlobalConfig, key: Option<string>) returns (kv: KV)
    ensures key.Some? ==> kv == Value(Lookup(c, key.value))
    ensures key.None? ==> kv.Keys? && ListsExactly(kv.names, c.envVariable.Keys)
  {
    match key
    case Some(k) =>
      kv := Value(Lookup(c, k));
    case None =>
      var names := KeyList(c.envVariable);
      kv := Keys(names);
  }

  /**
    `Iterator::next` for `KV`: yields the resolved value (or nothing) and
    leaves the query as it was; a key listing yields nothing.
   */
  function Next(kv: KV): (r: (Option<Value>, KV))
    ensures r.1 == kv
    ensures kv.Keys? ==> r.0.None?
  {
    match kv
    case Value(v) => (v, kv)
    case Keys(_) => (None, kv)
  }

  /** The items of `n` successive calls of `next`. */
  function NextN(kv: KV, n: nat): seq<Option<Value>>
    decreases n
  {
    if n == 0 then [] else
      var (item, after) := Next(kv);
      [item] + NextN(after, n - 1)
  }

  /** `next` never consumes: every call yields what the first did. */
  lemma {:induction false} NextRepeats(kv: KV, n: nat)
    ensures |NextN(kv, n)| == n
    ensures forall i :: 0 <= i < n ==> NextN(kv, n)[i] == (if kv.Value? then kv.v else None)
    decreases n
  {
    if n > 0 {
      NextRepeats(kv, n - 1);
    }
  }

  // ---------------------------------------------------------------------------
  // URLs

  /** `starts_with("http://") || starts_with("https://")`. */
  predicate HasScheme(s: string) {
    "http://" <= s || "https://" <= s
  }

  /** The text `set_url` stores: kept when it has a scheme, else prefixed with `http://`. */
  function NormalizeUrl(s: string): (r: string)
    ensures HasScheme(r)
    ensures HasScheme(s) ==> r == s
    ensures r == s || r == "http://" + s
  {
    if HasScheme(s) then s else "http://" + s
  }

  /** Normalising twice is normalising once. */
  lemma NormalizeIdempotent(s: string)
    ensures NormalizeUrl(NormalizeUrl(s)) == NormalizeUrl(s)
  {
  }

  function SetUrl(c: GlobalConfig, value: string): (r: GlobalConfig)
    ensures GetUrl(r) == NormalizeUrl(value)
    ensures SameExcept(c, r, UrlField)
  {
    c.(url := Some(NormalizeUrl(value)))
  }

  /** The node URL, or the default when none is configured. */
  function GetUrl(c: GlobalConfig): (r: string)
    ensures c.url.None? ==> r == DEFAULT_CKB_URL && HasScheme(r)
    ensures c.url.Some? ==> r == c.url.value
  {
    c.url.GetOr(DEFAULT_CKB_URL)
  }

  function SetCkbIndexerUrl(c: GlobalConfig, value: string): (r: GlobalConfig)
    ensures GetCkbIndexerUrl(r) == NormalizeUrl(value)
    ensures SameExcept(c, r, CkbIndexerUrlField)
  {
    c.(ckbIndexerUrl := Some(NormalizeUrl(value)))
  }

  /** The indexer URL, or the default when none is configured. */
  function GetCkbIndexerUrl(c: GlobalConfig): (r: string)
    ensures c.ckbIndexerUrl.None? ==> r == DEFAULT_CKB_INDEXER_URL && HasScheme(r)
    ensures c.ckbIndexerUrl.Some? ==> r == c.ckbIndexerUrl.value
  {
    c.ckbIndexerUrl.GetOr(DEFAULT_CKB_INDEXER_URL)
  }

  /** Both configured URLs, if any, carry a scheme: what `set_url`/`set_ckb_indexer_url` establish. */
  predicate UrlsNormalized(c: GlobalConfig) {
    (c.url.None? || HasScheme(c.url.value))
    && (c.ckbIndexerUrl.None? || HasScheme(c.ckbIndexerUrl.value))
  }

  /**
    With normalised URLs both getters always have a scheme, and setting a
    URL to what its getter returns changes neither getter.
   */
  lemma UrlRoundTrip(c: GlobalConfig)
    requires UrlsNormalized(c)
    ensures HasScheme(GetUrl(c)) && HasScheme(GetCkbIndexerUrl(c))
    ensures GetUrl(SetUrl(c, GetUrl(c))) == GetUrl(c)
    ensures GetCkbIndexerUrl(SetCkbIndexerUrl(c, GetCkbIndexerUrl(c))) == GetCkbIndexerUrl(c)
    ensures UrlsNormalized(SetUrl(c, GetUrl(c))) && UrlsNormalized(SetCkbIndexerUrl(c, GetCkbIndexerUrl(c)))
  {
  }

  /** `new` stores a scheme-less URL as given, so setting the URL to its getter's value changes it. */
  lemma NewKeepsRawUrl(path: string)
    ensures var c := New(Some("127.0.0.1:8114"), None, path);
            GetUrl(c) == "127.0.0.1:8114"
            && GetUrl(SetUrl(c, GetUrl(c))) == "http://127.0.0.1:8114"
  {
    var c := New(Some("127.0.0.1:8114"), None, path);
    assert !HasScheme("127.0.0.1:8114") by {
      assert "127.0.0.1:8114"[0] != "http://"[0];
      assert "127.0.0.1:8114"[0] != "https://"[0];
    }
  }

  // ---------------------------------------------------------------------------
  // Plain settings

  function SetNetwork(c: GlobalConfig, network: Option<NetworkType>): (r: GlobalConfig)
    ensures r.network == network && SameExcept(c, r, NetworkField)
  {
    c.(network := network)
  }

  function SwitchColor(c: GlobalConfig): (r: GlobalConfig)
    ensures r.color != c.color && SameExcept(c, r, ColorField)
  {
    c.(color := !c.color)
  }

  function SwitchDebug(c: GlobalConfig): (r: GlobalConfig)
    ensures r.debug != c.debug && SameExcept(c, r, DebugField)
  {
    c.(debug := !c.debug)
  }

  function SwitchCompletionStyle(c: GlobalConfig): (r: GlobalConfig)
    ensures r.completionStyle != c.completionStyle && SameExcept(c, r, CompletionStyleField)
  {
    c.(completionStyle := !c.completionStyle)
  }

  function SwitchEditStyle(c: GlobalConfig): (r: GlobalConfig)
    ensures r.editStyle != c.editStyle && SameExcept(c, r, EditStyleField)
  {
    c.(editStyle := !c.editStyle)
  }

  /** Every toggle is an involution. */
  lemma SwitchTwice(c: GlobalConfig)
    ensures SwitchColor(SwitchColor(c)) == c
    ensures SwitchDebug(SwitchDebug(c)) == c
    ensures SwitchCompletionStyle(SwitchCompletionStyle(c)) == c
    ensures SwitchEditStyle(SwitchEditStyle(c)) == c
  {
  }

  function SetColor(c: GlobalConfig, value: bool): (r: GlobalConfig)
    ensures r.color == value && SameExcept(c, r, ColorField)
  {
    c.(color := value)
  }

  function SetDebug(c: GlobalConfig, value: bool): (r: GlobalConfig)
    ensures r.debug == value && SameExcept(c, r, DebugField)
  {
    c.(debug := value)
  }

  function SetNoSync(c: GlobalConfig, value: bool): (r: GlobalConfig)
    ensures r.noSync == value && SameExcept(c, r, NoSyncField)
  {
    c.(noSync := value)
  }

  function SetOutputFormat(c: GlobalConfig, value: OutputFormat): (r: GlobalConfig)
    ensures r.outputFormat == value && SameExcept(c, r, OutputFormatField)
  {
    c.(outputFormat := value)
  }

  function SetCompletionStyle(c: GlobalConfig, value: bool): (r: GlobalConfig)
    ensures r.completionStyle == value && SameExcept(c, r, CompletionStyleField)
  {
    c.(completionStyle := value)
  }

  function SetEditStyle(c: GlobalConfig, value: bool): (r: GlobalConfig)
    ensures r.editStyle == value && SameExcept(c, r, EditStyleField)
  {
    c.(editStyle := value)
  }
}
