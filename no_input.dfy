/**
 The `NoInput` handler of the Akeyless custom producer: its configuration
 defaults, the `authentication` default installed by `configure`, the
 endpoint-path composition of `_finalize_configuration`, the ordered checks
 of `_check_configuration`, the exact-match routing of `handle` and
 `check_payload`.

 The configuration is a Python dictionary, modelled as a `Config` map; the
 calls into the framework base classes (`super()...`, `_schema_to_columns`,
 `_check_schema`) are parameters whose outcome the caller supplies.
 */
module NoInput {
  import opened Values
  import opened Slashes

  /** The keys `_finalize_configuration` rewrites, in the order it rewrites them. */
  const EndpointKeys: seq<string> := ["create_endpoint", "revoke_endpoint", "rotate_endpoint"]

  /** The keys `_check_configuration` checks in its loop, in order. */
  const CallableKeys: seq<string> := ["create_callable", "revoke_callable"]

  /**
   The class's `_configuration_defaults` table: finalization can run on it,
   rotation is on, no callable is given, and it has no `schema` key (it
   declares `payload_schema` instead).
   */
  function Defaults(): (r: Config)
    ensures "base_url" in r && r["base_url"].StrValue?
    ensures forall k :: k in EndpointKeys ==> k in r && r[k].StrValue?
    ensures "can_rotate" in r && Truthy(r["can_rotate"])
    ensures forall k :: k in CallableKeys || k == "rotate_callable" ==> k in r && !Truthy(r[k])
    ensures "schema" !in r
  {
    map[
      "base_url" := StrValue(""),
      "can_rotate" := BoolValue(true),
      "create_callable" := NoneValue,
      "revoke_callable" := NoneValue,
      "rotate_callable" := NoneValue,
      "payload_schema" := NoneValue,
      "create_endpoint" := StrValue("sync/create"),
      "revoke_endpoint" := StrValue("sync/revoke"),
      "rotate_endpoint" := StrValue("sync/rotate")
    ]
  }

  // ---------------------------------------------------------------------
  // configure
  // ---------------------------------------------------------------------

  /**
   The handler's own part of `configure`: when the caller gave no
   `authentication` entry, the public (no authentication) policy
   `publicPolicy` is inserted; every entry the caller gave is kept as is.
   */
  function Configure(config: Config, publicPolicy: Value): (r: Config)
    ensures r.Keys == config.Keys + {"authentication"}
    ensures forall k :: k in config ==> r[k] == config[k]
    ensures "authentication" !in config ==> r["authentication"] == publicPolicy
  {
    if "authentication" !in config then config["authentication" := publicPolicy] else config
  }

  /** Configuring twice changes nothing more than configuring once. */
  lemma ConfigureIdempotent(config: Config, publicPolicy: Value, otherPolicy: Value)
    ensures Configure(Configure(config, publicPolicy), otherPolicy) == Configure(config, publicPolicy)
  {
  }

  // ---------------------------------------------------------------------
  // Endpoint path composition (_finalize_configuration)
  // ---------------------------------------------------------------------

  /** The path one endpoint gets: `(base_url.strip('/') + '/' + endpoint.strip('/')).lstrip('/')`. */
  function ComposePath(baseUrl: string, endpoint: string): string {
    LStrip(Strip(baseUrl) + "/" + Strip(endpoint))
  }

  /**
   A composed path never starts with a slash; with a base URL made of
   slashes only it is the trimmed endpoint, otherwise the trimmed base and
   the trimmed endpoint joined by `/`.
   */
  lemma ComposeShape(baseUrl: string, endpoint: string)
    ensures !StartsWithSlash(ComposePath(baseUrl, endpoint))
    ensures AllSlashes(baseUrl) ==> ComposePath(baseUrl, endpoint) == Strip(endpoint)
    ensures !AllSlashes(baseUrl) ==> ComposePath(baseUrl, endpoint) == Strip(baseUrl) + "/" + Strip(endpoint)
  {
    var b, e := Strip(baseUrl), Strip(endpoint);
    StripShape(baseUrl);
    StripShape(endpoint);
    if b == [] {
      LStripSlashPrefix(e);
    } else {
      assert (b + "/" + e)[0] == b[0];
    }
  }

  /**
   A composed path ends with a slash exactly when the base URL is not made
   of slashes only and the endpoint is: the promise "doesn't end with a
   slash" holds whenever the endpoint has some other character.
   */
  lemma ComposeEndsWithSlash(baseUrl: string, endpoint: string)
    ensures EndsWithSlash(ComposePath(baseUrl, endpoint)) <==> !AllSlashes(baseUrl) && AllSlashes(endpoint)
  {
    var e := Strip(endpoint);
    ComposeShape(baseUrl, endpoint);
    StripShape(endpoint);
    if !AllSlashes(baseUrl) {
      var r := ComposePath(baseUrl, endpoint);
      if e == [] {
        assert r[|r| - 1] == '/';
      } else {
        assert r[|r| - 1] == e[|e| - 1];
      }
    }
  }

  /** A composed path is empty exactly when both the base URL and the endpoint are made of slashes. */
  lemma ComposeEmpty(baseUrl: string, endpoint: string)
    ensures ComposePath(baseUrl, endpoint) == [] <==> AllSlashes(baseUrl) && AllSlashes(endpoint)
  {
    ComposeShape(baseUrl, endpoint);
    StripShape(endpoint);
  }

  /** Base `/api/` with endpoint `sync/create` gives `api/sync/create`. */
  lemma ComposeExample()
    ensures ComposePath("/api/", "sync/create") == "api/sync/create"
  {
    assert "/api/"[..4] == "/api";
    assert RStrip("/api/") == "/api";
    assert "/api"[1..] == "api";
    assert Strip("/api/") == "api";
    StripUnchanged("sync/create");
    assert !StartsWithSlash("api/sync/create");
  }

  /** Composing a second time with a base URL made of slashes changes nothing. */
  lemma ComposeAgainWithoutBase(baseUrl: string, endpoint: string)
    requires AllSlashes(baseUrl)
    ensures ComposePath(baseUrl, ComposePath(baseUrl, endpoint)) == ComposePath(baseUrl, endpoint)
  {
    ComposeShape(baseUrl, endpoint);
    ComposeShape(baseUrl, ComposePath(baseUrl, endpoint));
    StripIdempotent(endpoint);
  }

  /**
   Composing a second time with any other base URL prefixes the trimmed
   base once more: `b/b/e`, or `b/b` when the endpoint is all slashes
   (the first pass gave `b/`). Either way the result differs from the first.
   */
  lemma ComposeAgainWithBase(baseUrl: string, endpoint: string)
    requires !AllSlashes(baseUrl)
    ensures var b, e := Strip(baseUrl), Strip(endpoint);
      var twice := ComposePath(baseUrl, ComposePath(baseUrl, endpoint));
      && (!AllSlashes(endpoint) ==> twice == b + "/" + b + "/" + e)
      && (AllSlashes(endpoint) ==> twice == b + "/" + b)
      && twice != ComposePath(baseUrl, endpoint)
  {
    var b, e := Strip(baseUrl), Strip(endpoint);
    StripShape(baseUrl);
    StripShape(endpoint);
    var once := b + "/" + e;
    ComposeShape(baseUrl, endpoint);
    assert once[0] == b[0];
    if e == [] {
      assert once[..|once| - 1] == b;
      assert RStrip(once) == RStrip(b) == b;
      assert Strip(once) == b;
      ComposeShape(baseUrl, once);
      assert |b + "/" + b| > |once|;
    } else {
      assert once[|once| - 1] == e[|e| - 1];
      StripUnchanged(once);
      ComposeShape(baseUrl, once);
      assert |b + "/" + once| > |once|;
    }
  }

  // ---------------------------------------------------------------------
  // _finalize_configuration
  // ---------------------------------------------------------------------

  /** What `_finalize_configuration` raises before it finishes. */
  datatype FinalizeError =
    | KeyError(key: string)        // `configuration[key]` with `key` absent
    | AttributeError(key: string)  // `.strip('/')` on a value that is not a string

  /**
   The dictionary as `_finalize_configuration` leaves it, and what it raised
   if anything: the rewrites done before an exception stay in place.
   */
  datatype Finalization = Finalization(config: Config, error: Option<FinalizeError>)

  /** One pass of the loop body: `configuration[key] = compose(base_url, configuration[key])`. */
  function RewriteEndpoint(config: Config, baseUrl: string, key: string): (f: Finalization)
    ensures f.config.Keys == config.Keys
  {
    if key !in config then Finalization(config, Some(KeyError(key)))
    else if !config[key].StrValue? then Finalization(config, Some(AttributeError(key)))
    else Finalization(config[key := StrValue(ComposePath(baseUrl, config[key].s))], None)
  }

  /** The loop over `keys`, stopping at the first exception. */
  function RewriteEndpoints(config: Config, baseUrl: string, keys: seq<string>): (f: Finalization)
    ensures f.config.Keys == config.Keys
    decreases |keys|
  {
    if keys == [] then Finalization(config, None)
    else
      var before := RewriteEndpoints(config, baseUrl, keys[..|keys| - 1]);
      if before.error.Some? then before else RewriteEndpoint(before.config, baseUrl, keys[|keys| - 1])
  }

  /**
   The whole of `_finalize_configuration` up to its call into the base
   class: trim the base URL, rewrite the three endpoints, then convert
   `schema` with `toColumns` (the library's `_schema_to_columns`) when it is truthy.
   */
  function Finalize(config: Config, toColumns: Value -> Value): (f: Finalization)
    ensures f.config.Keys == config.Keys
  {
    if "base_url" !in config then Finalization(config, Some(KeyError("base_url")))
    else if !config["base_url"].StrValue? then Finalization(config, Some(AttributeError("base_url")))
    else
      var rewritten := RewriteEndpoints(config, config["base_url"].s, EndpointKeys);
      if rewritten.error.Some? then rewritten
      else if Truthy(Get(rewritten.config, "schema")) then
        Finalization(rewritten.config["schema" := toColumns(rewritten.config["schema"])], None)
      else rewritten
  }

  /**
   `_finalize_configuration` as the source runs it: trims the base URL,
   runs the loop over the endpoint keys, then converts a truthy `schema`.
   */
  method FinalizeConfiguration(config: Config, toColumns: Value -> Value)
    returns (updated: Config, error: Option<FinalizeError>)
    ensures Finalization(updated, error) == Finalize(config, toColumns)
  {
    if "base_url" !in config {
      return config, Some(KeyError("base_url"));
    }
    if !config["base_url"].StrValue? {
      return config, Some(AttributeError("base_url"));
    }
    updated, error := RewriteInPlace(config, config["base_url"].s, EndpointKeys);
    if error.None? && Truthy(Get(updated, "schema")) {
      updated := updated["schema" := toColumns(updated["schema"])];
    }
  }

  /**
   The `for endpoint in ...` loop: each key in turn is read, trimmed,
   joined to the trimmed base URL and written back, until one raises.
   */
  method RewriteInPlace(config: Config, baseUrl: string, keys: seq<string>)
    returns (updated: Config, error: Option<FinalizeError>)
    ensures Finalization(updated, error) == RewriteEndpoints(config, baseUrl, keys)
  {
    var trimmedBase := Strip(baseUrl);
    updated := config;
    for i := 0 to |keys|
      invariant Finalization(updated, None) == RewriteEndpoints(config, baseUrl, keys[..i])
    {
      var endpoint := keys[i];
      assert keys[..i + 1][..i] == keys[..i];
      if endpoint !in updated {
        ErrorPersists(config, baseUrl, keys, i + 1);
        return updated, Some(KeyError(endpoint));
      }
      if !updated[endpoint].StrValue? {
        ErrorPersists(config, baseUrl, keys, i + 1);
        return updated, Some(AttributeError(endpoint));
      }
      updated := updated[endpoint := StrValue(LStrip(trimmedBase + "/" + Strip(updated[endpoint].s)))];
    }
    assert keys[..|keys|] == keys;
    error := None;
  }

  /** Once an iteration raises, the loop's outcome is fixed. */
  lemma {:induction false} ErrorPersists(config: Config, baseUrl: string, keys: seq<string>, n: nat)
    requires n <= |keys|
    requires RewriteEndpoints(config, baseUrl, keys[..n]).error.Some?
    ensures RewriteEndpoints(config, baseUrl, keys) == RewriteEndpoints(config, baseUrl, keys[..n])
    decreases |keys|
  {
    if n < |keys| {
      var shorter := keys[..|keys| - 1];
      assert shorter[..n] == keys[..n];
      ErrorPersists(config, baseUrl, shorter, n);
    } else {
      assert keys[..n] == keys;
    }
  }

  /** Every key of `keys` occurs once. */
  predicate Distinct(keys: seq<string>) {
    forall i, j :: 0 <= i < j < |keys| ==> keys[i] != keys[j]
  }

  lemma EndpointKeysDistinct()
    ensures Distinct(EndpointKeys)
  {
  }

  /** Every key of `keys` is present and holds a string, so `.strip('/')` applies. */
  predicate StringsAt(config: Config, keys: seq<string>) {
    forall k :: k in keys ==> k in config && config[k].StrValue?
  }

  /** The loop leaves every entry outside `keys` as it was, whether or not it raises. */
  lemma {:induction false} RewriteKeepsOthers(config: Config, baseUrl: string, keys: seq<string>)
    ensures var f := RewriteEndpoints(config, baseUrl, keys);
      forall k :: k in config && k !in keys ==> f.config[k] == config[k]
  {
    if keys != [] {
      var shorter := keys[..|keys| - 1];
      assert forall k :: k in shorter ==> k in keys;
      RewriteKeepsOthers(config, baseUrl, shorter);
    }
  }

  /**
   The loop over distinct keys raises exactly when some key is missing or
   not a string, and the key it names is the first such key in `keys`:
   KeyError when it is missing, AttributeError when it holds something else.
   */
  lemma {:induction false} RewriteFails(config: Config, baseUrl: string, keys: seq<string>)
    requires Distinct(keys)
    ensures var f := RewriteEndpoints(config, baseUrl, keys);
      && (f.error.None? <==> StringsAt(config, keys))
      && (f.error.Some? ==> !(f.error.value.key in config && config[f.error.value.key].StrValue?))
      && (f.error.Some? ==> (f.error.value.KeyError? <==> f.error.value.key !in config))
      && (f.error.Some? ==> exists n :: 0 <= n < |keys| && keys[n] == f.error.value.key && StringsAt(config, keys[..n]))
  {
    if keys != [] {
      var shorter := keys[..|keys| - 1];
      var last := keys[|keys| - 1];
      assert forall k :: k in keys <==> k in shorter || k == last;
      assert last !in shorter;
      RewriteFails(config, baseUrl, shorter);
      RewriteKeepsOthers(config, baseUrl, shorter);
      var before := RewriteEndpoints(config, baseUrl, shorter);
      if before.error.Some? {
        var n :| 0 <= n < |shorter| && shorter[n] == before.error.value.key && StringsAt(config, shorter[..n]);
        assert keys[..n] == shorter[..n];
        assert keys[n] == shorter[n];
      } else {
        assert keys[..|keys| - 1] == shorter;
      }
    }
  }

  /** When every key holds a string, the loop sets each one to its composed path. */
  lemma {:induction false} RewriteComposes(config: Config, baseUrl: string, keys: seq<string>)
    requires Distinct(keys) && StringsAt(config, keys)
    ensures var f := RewriteEndpoints(config, baseUrl, keys);
      && f.error.None?
      && forall k :: k in keys ==> f.config[k] == StrValue(ComposePath(baseUrl, config[k].s))
  {
    if keys != [] {
      var shorter := keys[..|keys| - 1];
      var last := keys[|keys| - 1];
      assert forall k :: k in keys <==> k in shorter || k == last;
      assert last !in shorter;
      RewriteComposes(config, baseUrl, shorter);
      RewriteKeepsOthers(config, baseUrl, shorter);
    }
  }

  /** The dictionary `_finalize_configuration` can finish on. */
  predicate FinalizeReady(config: Config) {
    "base_url" in config && config["base_url"].StrValue? && StringsAt(config, EndpointKeys)
  }

  /**
   Finalization raises exactly when `base_url` or an endpoint is missing or
   not a string, and names the first such key: `base_url` before any
   endpoint, then the endpoints in their order. It never touches any other
   entry before raising.
   */
  lemma FinalizeFails(config: Config, toColumns: Value -> Value)
    ensures var f := Finalize(config, toColumns);
      && (f.error.None? <==> FinalizeReady(config))
      && (f.error.Some? ==> f.error.value.key == "base_url" || f.error.value.key in EndpointKeys)
      && (f.error.Some? ==> !(f.error.value.key in config && config[f.error.value.key].StrValue?))
      && (f.error.Some? ==> (f.error.value.KeyError? <==> f.error.value.key !in config))
      && (f.error.Some? && f.error.value.key != "base_url" ==>
            "base_url" in config && config["base_url"].StrValue?
            && exists n :: 0 <= n < |EndpointKeys| && EndpointKeys[n] == f.error.value.key
                 && StringsAt(config, EndpointKeys[..n]))
      && (f.error.Some? ==> forall k :: k in config && k !in EndpointKeys ==> f.config[k] == config[k])
  {
    if "base_url" in config && config["base_url"].StrValue? {
      EndpointKeysDistinct();
      RewriteFails(config, config["base_url"].s, EndpointKeys);
      RewriteKeepsOthers(config, config["base_url"].s, EndpointKeys);
    }
  }

  /** A successful finalization sets each endpoint to its composed path. */
  lemma FinalizeComposes(config: Config, toColumns: Value -> Value)
    requires FinalizeReady(config)
    ensures var f := Finalize(config, toColumns);
      && f.error.None?
      && forall k :: k in EndpointKeys ==> f.config[k] == StrValue(ComposePath(config["base_url"].s, config[k].s))
  {
    var rewritten := RewriteEndpoints(config, config["base_url"].s, EndpointKeys);
    var f := Finalize(config, toColumns);
    EndpointKeysDistinct();
    RewriteComposes(config, config["base_url"].s, EndpointKeys);
    assert f.config == if Truthy(Get(rewritten.config, "schema"))
      then rewritten.config["schema" := toColumns(rewritten.config["schema"])] else rewritten.config;
    assert forall k :: k in EndpointKeys ==> f.config[k] == rewritten.config[k];
  }

  /**
   Scope of finalization: apart from the three endpoints, only `schema` can
   change, and only when it is truthy; every other entry is unchanged.
   */
  lemma FinalizeKeepsOthers(config: Config, toColumns: Value -> Value)
    requires FinalizeReady(config)
    ensures var f := Finalize(config, toColumns);
      && (forall k :: k in config && k !in EndpointKeys && k != "schema" ==> f.config[k] == config[k])
      && (Truthy(Get(config, "schema")) ==> f.config["schema"] == toColumns(config["schema"]))
      && (!Truthy(Get(config, "schema")) ==> Get(f.config, "schema") == Get(config, "schema"))
  {
    var rewritten := RewriteEndpoints(config, config["base_url"].s, EndpointKeys);
    EndpointKeysDistinct();
    RewriteFails(config, config["base_url"].s, EndpointKeys);
    RewriteKeepsOthers(config, config["base_url"].s, EndpointKeys);
    assert Finalize(config, toColumns).config == if Truthy(Get(rewritten.config, "schema"))
      then rewritten.config["schema" := toColumns(rewritten.config["schema"])] else rewritten.config;
    assert "schema" !in EndpointKeys;
    assert Get(rewritten.config, "schema") == Get(config, "schema");
  }

  /** Every finalized endpoint is a string that does not start with a slash. */
  lemma FinalizedNoLeadingSlash(config: Config, toColumns: Value -> Value, key: string)
    requires FinalizeReady(config) && key in EndpointKeys
    ensures var f := Finalize(config, toColumns).config;
      f[key].StrValue? && !StartsWithSlash(f[key].s)
  {
    FinalizeComposes(config, toColumns);
    ComposeShape(config["base_url"].s, config[key].s);
  }

  /**
   A finalized endpoint ends with a slash exactly when the base URL is not
   all slashes and the configured endpoint is.
   */
  lemma FinalizedTrailingSlash(config: Config, toColumns: Value -> Value, key: string)
    requires FinalizeReady(config) && key in EndpointKeys
    ensures var f := Finalize(config, toColumns).config;
      f[key].StrValue?
      && (EndsWithSlash(f[key].s) <==> !AllSlashes(config["base_url"].s) && AllSlashes(config[key].s))
  {
    FinalizeComposes(config, toColumns);
    ComposeEndsWithSlash(config["base_url"].s, config[key].s);
  }

  /**
   Finalization changes nothing when the base URL is made of slashes only,
   no endpoint has a slash at either end and `schema` is not truthy.
   */
  lemma FinalizeNormalized(config: Config, toColumns: Value -> Value)
    requires FinalizeReady(config) && AllSlashes(config["base_url"].s) && !Truthy(Get(config, "schema"))
    requires forall k :: k in EndpointKeys ==> !StartsWithSlash(config[k].s) && !EndsWithSlash(config[k].s)
    ensures Finalize(config, toColumns) == Finalization(config, None)
  {
    var f := Finalize(config, toColumns);
    FinalizeComposes(config, toColumns);
    FinalizeKeepsOthers(config, toColumns);
    forall k | k in config ensures f.config[k] == config[k] {
      if k in EndpointKeys {
        ComposeShape(config["base_url"].s, config[k].s);
        StripUnchanged(config[k].s);
      }
    }
    assert f.config == config;
  }

  /** With the defaults (empty base URL, no `schema` entry) finalization changes nothing. */
  lemma FinalizeDefaults(toColumns: Value -> Value)
    ensures Finalize(Defaults(), toColumns) == Finalization(Defaults(), None)
  {
    FinalizeNormalized(Defaults(), toColumns);
  }

  /**
   Finalizing an already finalized dictionary gives it back when the base
   URL trims to nothing and `schema` is not truthy.
   */
  lemma FinalizeTwiceWithoutBase(config: Config, toColumns: Value -> Value)
    requires FinalizeReady(config) && AllSlashes(config["base_url"].s) && !Truthy(Get(config, "schema"))
    ensures var once := Finalize(config, toColumns);
      Finalize(once.config, toColumns) == once
  {
    var once := Finalize(config, toColumns);
    FinalizeComposes(config, toColumns);
    FinalizeKeepsOthers(config, toColumns);
    assert once.config["base_url"] == config["base_url"];
    assert FinalizeReady(once.config);
    var twice := Finalize(once.config, toColumns);
    FinalizeComposes(once.config, toColumns);
    FinalizeKeepsOthers(once.config, toColumns);
    forall k | k in once.config ensures twice.config[k] == once.config[k] {
      if k in EndpointKeys {
        ComposeAgainWithoutBase(config["base_url"].s, config[k].s);
      }
    }
    assert twice.config == once.config;
  }

  /** A second finalization composes each endpoint of the first one again with the same base URL. */
  lemma FinalizeAgain(config: Config, toColumns: Value -> Value, key: string)
    requires FinalizeReady(config) && key in EndpointKeys
    ensures var once := Finalize(config, toColumns).config; var baseUrl := config["base_url"].s;
      && once[key] == StrValue(ComposePath(baseUrl, config[key].s))
      && Finalize(once, toColumns).config[key] == StrValue(ComposePath(baseUrl, ComposePath(baseUrl, config[key].s)))
  {
    var once := Finalize(config, toColumns).config;
    FinalizeComposes(config, toColumns);
    FinalizeKeepsOthers(config, toColumns);
    assert once["base_url"] == config["base_url"];
    assert FinalizeReady(once);
    FinalizeComposes(once, toColumns);
  }

  /**
   With a base URL that is not all slashes, a second finalization
   prefixes the base again on every endpoint, whatever it holds:
   finalization is not idempotent.
   */
  lemma FinalizeTwiceWithBase(config: Config, toColumns: Value -> Value, key: string)
    requires FinalizeReady(config) && key in EndpointKeys
    requires !AllSlashes(config["base_url"].s)
    ensures var once := Finalize(config, toColumns).config; var twice := Finalize(once, toColumns).config;
      var b, e := Strip(config["base_url"].s), Strip(config[key].s);
      && (!AllSlashes(config[key].s) ==> twice[key] == StrValue(b + "/" + b + "/" + e))
      && (AllSlashes(config[key].s) ==> twice[key] == StrValue(b + "/" + b))
      && twice[key] != once[key]
  {
    FinalizeAgain(config, toColumns, key);
    ComposeAgainWithBase(config["base_url"].s, config[key].s);
  }

  // ---------------------------------------------------------------------
  // _check_configuration
  // ---------------------------------------------------------------------

  /** The outcome of a configuration check: passes, or raises `ValueError(message)`. */
  datatype Check = Pass | Fail(message: string)

  /** `error_prefix`, for a handler class named `className`. */
  function ErrorPrefix(className: string): string {
    "Configuration error for handler '" + className + "':"
  }

  const RotateMissingText := " you must provide the rotate callable or set 'can_rotate' to False"

  function MissingCallable(prefix: string, name: string): Check {
    Fail(prefix + " you must provide '" + name + "'")
  }

  function NotCallable(prefix: string, name: string): Check {
    Fail(prefix + " '" + name + "' must be a callable but was something else")
  }

  /** A value that passes both checks of a callable setting: truthy, then callable. */
  predicate Usable(v: Value) {
    Truthy(v) && IsCallable(v)
  }

  /** The error for the first failing check of a callable setting holding `v`. */
  function CallableProblem(prefix: string, name: string, v: Value): Check {
    if !Truthy(v) then MissingCallable(prefix, name) else NotCallable(prefix, name)
  }

  /**
   The loop over callable settings: each must be truthy and then callable;
   the first failure is raised. It passes exactly when every setting is usable.
   */
  function CheckCallables(config: Config, prefix: string, names: seq<string>): (r: Check)
    ensures r == Pass <==> forall n :: n in names ==> Usable(Get(config, n))
    ensures r.Fail? ==> prefix <= r.message
  {
    if names == [] then Pass
    else
      var v := Get(config, names[0]);
      if !Truthy(v) then MissingCallable(prefix, names[0])
      else if !IsCallable(v) then NotCallable(prefix, names[0])
      else
        assert forall n :: n in names <==> n == names[0] || n in names[1..];
        CheckCallables(config, prefix, names[1..])
  }

  /** The callable loop reports the problem of the first unusable setting. */
  lemma {:induction false} CheckCallablesFirst(config: Config, prefix: string, names: seq<string>, i: nat)
    requires i < |names| && !Usable(Get(config, names[i]))
    requires forall j :: 0 <= j < i ==> Usable(Get(config, names[j]))
    ensures CheckCallables(config, prefix, names) == CallableProblem(prefix, names[i], Get(config, names[i]))
  {
    if i > 0 {
      CheckCallablesFirst(config, prefix, names[1..], i - 1);
    }
  }

  /** The callable loop reads only the settings it names. */
  lemma {:induction false} CheckCallablesReads(config: Config, other: Config, prefix: string, names: seq<string>)
    requires forall n :: n in names ==> Get(config, n) == Get(other, n)
    ensures CheckCallables(config, prefix, names) == CheckCallables(other, prefix, names)
  {
    if names != [] {
      assert forall n :: n in names[1..] ==> n in names;
      CheckCallablesReads(config, other, prefix, names[1..]);
    }
  }

  /** The rotate callable is required exactly when `can_rotate` is truthy. */
  predicate RotateReady(config: Config) {
    Truthy(Get(config, "can_rotate")) ==> Usable(Get(config, "rotate_callable"))
  }

  /**
   `_check_configuration`: the base class's check (`baseCheck`) first, then
   the rotate callable when `can_rotate` is truthy, then `create_callable`
   and `revoke_callable`, and last the library's schema check
   (`schemaCheck`) when `schema` is not `None`. The first failure is raised;
   every failure raised here carries the handler's error prefix.
   */
  function CheckConfiguration(config: Config, className: string, baseCheck: Check, schemaCheck: Check): (r: Check)
    ensures r == Pass <==>
      && baseCheck == Pass
      && RotateReady(config)
      && Usable(Get(config, "create_callable"))
      && Usable(Get(config, "revoke_callable"))
      && (Get(config, "schema") != NoneValue ==> schemaCheck == Pass)
    ensures r.Fail? ==> r == baseCheck || r == schemaCheck || ErrorPrefix(className) <= r.message
  {
    if baseCheck.Fail? then baseCheck
    else
      var prefix := ErrorPrefix(className);
      var canRotate := Truthy(Get(config, "can_rotate"));
      var rotate := Get(config, "rotate_callable");
      if canRotate && !Truthy(rotate) then Fail(prefix + RotateMissingText)
      else if canRotate && !IsCallable(rotate) then NotCallable(prefix, "rotate_callable")
      else
        var callables := CheckCallables(config, prefix, CallableKeys);
        if callables.Fail? then callables
        else if Get(config, "schema") != NoneValue then schemaCheck
        else Pass
  }

  /** With `can_rotate` truthy, a missing or falsy rotate callable is reported first. */
  lemma CheckRotateMissing(config: Config, className: string, schemaCheck: Check)
    requires Truthy(Get(config, "can_rotate")) && !Truthy(Get(config, "rotate_callable"))
    ensures CheckConfiguration(config, className, Pass, schemaCheck) == Fail(ErrorPrefix(className) + RotateMissingText)
  {
  }

  /** With `can_rotate` truthy, a truthy rotate callable that cannot be called is reported first. */
  lemma CheckRotateNotCallable(config: Config, className: string, schemaCheck: Check)
    requires Truthy(Get(config, "can_rotate")) && Truthy(Get(config, "rotate_callable"))
    requires !IsCallable(Get(config, "rotate_callable"))
    ensures CheckConfiguration(config, className, Pass, schemaCheck) == NotCallable(ErrorPrefix(className), "rotate_callable")
  {
  }

  /** With `can_rotate` falsy, the rotate callable is never examined. */
  lemma CheckIgnoresRotateWhenDisabled(config: Config, className: string, baseCheck: Check, schemaCheck: Check, rotate: Value)
    requires !Truthy(Get(config, "can_rotate"))
    ensures CheckConfiguration(config["rotate_callable" := rotate], className, baseCheck, schemaCheck)
         == CheckConfiguration(config, className, baseCheck, schemaCheck)
  {
    var other := config["rotate_callable" := rotate];
    assert Get(other, "can_rotate") == Get(config, "can_rotate");
    assert Get(other, "schema") == Get(config, "schema");
    CheckCallablesReads(other, config, ErrorPrefix(className), CallableKeys);
  }

  /**
   Once the rotate check passes, an unusable `create_callable` is reported,
   whatever `revoke_callable` holds.
   */
  lemma CheckReportsCreateFirst(config: Config, className: string, schemaCheck: Check)
    requires RotateReady(config) && !Usable(Get(config, "create_callable"))
    ensures CheckConfiguration(config, className, Pass, schemaCheck)
         == CallableProblem(ErrorPrefix(className), "create_callable", Get(config, "create_callable"))
  {
    CheckCallablesFirst(config, ErrorPrefix(className), CallableKeys, 0);
  }

  /** With the rotate and create checks passing, an unusable `revoke_callable` is reported. */
  lemma CheckReportsRevoke(config: Config, className: string, schemaCheck: Check)
    requires RotateReady(config) && Usable(Get(config, "create_callable"))
    requires !Usable(Get(config, "revoke_callable"))
    ensures CheckConfiguration(config, className, Pass, schemaCheck)
         == CallableProblem(ErrorPrefix(className), "revoke_callable", Get(config, "revoke_callable"))
  {
    CheckCallablesFirst(config, ErrorPrefix(className), CallableKeys, 1);
  }

  /**
   When the handler's own checks pass, the outcome is the schema check's
   if `schema` is not `None`, and a pass otherwise.
   */
  lemma CheckSchemaLast(config: Config, className: string, schemaCheck: Check)
    requires RotateReady(config) && Usable(Get(config, "create_callable")) && Usable(Get(config, "revoke_callable"))
    ensures CheckConfiguration(config, className, Pass, schemaCheck)
         == if Get(config, "schema") != NoneValue then schemaCheck else Pass
  {
  }

  /** The defaults alone are rejected: rotation is on and no rotate callable is given. */
  lemma CheckRejectsDefaults(className: string, schemaCheck: Check)
    ensures CheckConfiguration(Defaults(), className, Pass, schemaCheck) == Fail(ErrorPrefix(className) + RotateMissingText)
  {
  }

  /**
   The defaults declare `payload_schema`, not `schema`: with usable callables
   added to them, the schema check is never consulted.
   */
  lemma CheckDefaultsWithCallables(className: string, schemaCheck: Check, create: Value, revoke: Value, rotate: Value)
    requires Usable(create) && Usable(revoke) && Usable(rotate)
    ensures var config := Defaults()["create_callable" := create]["revoke_callable" := revoke]["rotate_callable" := rotate];
      CheckConfiguration(config, className, Pass, schemaCheck) == Pass
  {
  }

  // ---------------------------------------------------------------------
  // handle
  // ---------------------------------------------------------------------

  datatype Operation = Create | Revoke | Rotate

  /** What `handle` does with a request: call one operation, or answer with an error. */
  datatype Response = Invoke(operation: Operation) | Error(message: string, status: int)

  const NotFound := Error("Page not found", 404)

  /** The configuration entries `handle` reads; the defaults table supplies all of them. */
  predicate Routable(config: Config) {
    "create_endpoint" in config && "revoke_endpoint" in config && "rotate_endpoint" in config && "can_rotate" in config
  }

  function EndpointKey(op: Operation): string {
    match op
    case Create => "create_endpoint"
    case Revoke => "revoke_endpoint"
    case Rotate => "rotate_endpoint"
  }

  /** The order in which `handle` tries the operations. */
  function Precedence(op: Operation): nat {
    match op
    case Create => 0
    case Revoke => 1
    case Rotate => 2
  }

  /** `path` is exactly the endpoint of `op`, and `op` is enabled (rotate needs `can_rotate`). */
  predicate Serves(config: Config, path: string, op: Operation)
    requires Routable(config)
  {
    StrValue(path) == config[EndpointKey(op)] && (op == Rotate ==> Truthy(config["can_rotate"]))
  }

  /**
   `handle`, with the request path as a parameter: exact, case-sensitive
   comparison against create, then revoke, then rotate when `can_rotate` is
   truthy; anything else is a 404 "Page not found".
   */
  function Route(config: Config, path: string): (r: Response)
    requires Routable(config)
    ensures r.Error? ==> r == NotFound
    ensures r.Invoke? ==> Serves(config, path, r.operation)
  {
    if StrValue(path) == config["create_endpoint"] then Invoke(Create)
    else if StrValue(path) == config["revoke_endpoint"] then Invoke(Revoke)
    else if StrValue(path) == config["rotate_endpoint"] && Truthy(config["can_rotate"]) then Invoke(Rotate)
    else NotFound
  }

  /**
   Routing picks the first operation, in precedence order, that serves the
   path; in particular the create endpoint always wins.
   */
  lemma RouteIsFirstMatch(config: Config, path: string, op: Operation)
    requires Routable(config)
    ensures Route(config, path) == Invoke(op) <==>
      Serves(config, path, op) && forall other :: Precedence(other) < Precedence(op) ==> !Serves(config, path, other)
  {
  }

  /** A request gets the 404 exactly when no enabled operation serves its path. */
  lemma RouteNotFound(config: Config, path: string)
    requires Routable(config)
    ensures Route(config, path) == NotFound <==> forall op :: !Serves(config, path, op)
  {
  }

  /**
   With rotation disabled, a request to the rotate endpoint is answered
   exactly like a request to a path no endpoint has.
   */
  lemma RouteDisabledRotateLooksUnknown(config: Config, rotatePath: string, unknownPath: string)
    requires Routable(config) && !Truthy(config["can_rotate"])
    requires StrValue(rotatePath) == config["rotate_endpoint"]
    requires StrValue(rotatePath) != config["create_endpoint"] && StrValue(rotatePath) != config["revoke_endpoint"]
    requires forall op :: StrValue(unknownPath) != config[EndpointKey(op)]
    ensures Route(config, rotatePath) == Route(config, unknownPath) == NotFound
  {
  }

  /** After finalization no endpoint starts with a slash, so a path that does is never routed. */
  lemma RouteLeadingSlashAfterFinalize(config: Config, toColumns: Value -> Value, path: string)
    requires FinalizeReady(config) && Routable(config) && StartsWithSlash(path)
    ensures Route(Finalize(config, toColumns).config, path) == NotFound
  {
    var f := Finalize(config, toColumns).config;
    FinalizedNoLeadingSlash(config, toColumns, "create_endpoint");
    FinalizedNoLeadingSlash(config, toColumns, "revoke_endpoint");
    FinalizedNoLeadingSlash(config, toColumns, "rotate_endpoint");
    assert StrValue(path) != f["create_endpoint"];
    assert StrValue(path) != f["revoke_endpoint"];
    assert StrValue(path) != f["rotate_endpoint"];
  }

  /**
   With the defaults finalized and rotation switched off, `sync/rotate`
   gets the 404 while `sync/create` is routed to create.
   */
  lemma RouteDefaultsRotateDisabled(toColumns: Value -> Value)
    ensures var config := Defaults()["can_rotate" := BoolValue(false)];
      && Finalize(config, toColumns).error.None?
      && Route(Finalize(config, toColumns).config, "sync/rotate") == NotFound
      && Route(Finalize(config, toColumns).config, "sync/create") == Invoke(Create)
  {
    var config := Defaults()["can_rotate" := BoolValue(false)];
    FinalizeNormalized(config, toColumns);
  }

  /** `handle` as written compares an undefined name, so Python raises `NameError`. */
  datatype Handled = Responded(response: Response) | NameError(name: string)

  /** `handle` as written: its first comparison reads the undefined name `full_path`. */
  function HandleAsWritten(config: Config, request: Value): Handled {
    NameError("full_path")
  }

  /** As written, `handle` never routes any request, for any configuration. */
  lemma HandleAsWrittenNeverResponds(config: Config, request: Value)
    ensures !HandleAsWritten(config, request).Responded?
  {
  }

  // ---------------------------------------------------------------------
  // check_payload
  // ---------------------------------------------------------------------

  /**
   `check_payload`: it returns early when `schema` is falsy and has no
   statement after that return, so both paths accept every payload.
   */
  function CheckPayload(config: Config, payload: Value): (r: Check)
    ensures r == Pass
  {
    if !Truthy(Get(config, "schema")) then
      Pass  // the early `return`
    else
      Pass  // falls off the end of the method
  }
}
