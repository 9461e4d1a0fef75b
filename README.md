# NoInput handler of the Akeyless custom producer, in Dafny

This project models the `NoInput` request handler of
`clearskies-akeyless-custom-producer`. The handler is the credential-lifecycle
endpoint: it serves create, revoke and (optionally) rotate requests and hands
the work to callables supplied by the integration author. The model covers the
handler's own logic:

- the configuration defaults table;
- `configure`, which installs a public (no authentication) policy when none is given;
- `_finalize_configuration`, which composes each endpoint path from the base URL;
- `_check_configuration`, which checks the rotate, create and revoke callables in a fixed order;
- `handle`, which routes a request by exact match on its path;
- `check_payload`.

Files:

- `slashes.dfy` (module `Slashes`): Python's `str.lstrip('/')`, `str.rstrip('/')`
  and `str.strip('/')`, with lemmas that characterise what each removes.
- `values.dfy` (module `Values`): the Python values a configuration dictionary
  holds (`None`, booleans, integers, strings, lists, opaque objects), Python
  truthiness, `callable()` and `dict.get`. An opaque object carries its own
  truthiness and callability as given facts, so `callable()` is abstract.
- `no_input.dfy` (module `NoInput`): the handler itself. A configuration is a
  `map<string, Value>`.

Where the code and the prose descriptions of this handler differ, the model
follows the code:

- The code never checks an `id_column_name` setting.
- The code never decodes or validates a payload envelope; `check_payload` only returns.
- The code does not shape responses; `create`, `revoke`, `rotate` and `error`
  are not defined in this file.
- Finalization is described as idempotent. The code prefixes the trimmed base
  URL again on every run. Idempotence needs a base URL made of slashes only
  (`NoInput.FinalizeTwiceWithBase`). With such a base and a falsy `schema` it
  holds (`NoInput.FinalizeTwiceWithoutBase`). A truthy `schema` is converted
  again on every run, so whether a second run keeps it depends on
  `_schema_to_columns`, which is not part of this model.
- The defaults table declares `payload_schema`, but the code reads `schema`.
  Finalization tests that key for truthiness; the check tests it for `is not None`.
  The model keeps both as written.

## Model

| member | source | states |
|---|---|---|
| `NoInput.Defaults` | src/clearskies_akeyless_custom_producer/handlers/no_input.py:3-13 | the defaults table has a string `base_url` and string endpoints, so finalization can run on it. Rotation is on, no callable is given, and there is no `schema` key, because the table declares `payload_schema`. |
| `NoInput.Configure` | src/clearskies_akeyless_custom_producer/handlers/no_input.py:18-22 | the result has exactly the caller's keys plus `authentication`. Every caller-supplied entry, including an existing `authentication`, keeps its value. A missing `authentication` is set to the public policy. |
| `NoInput.ConfigureIdempotent` | src/clearskies_akeyless_custom_producer/handlers/no_input.py:20-21 | configuring a second time, with any policy, changes nothing |
| `Slashes.LStripRemovesLeadingRun` | src/clearskies_akeyless_custom_producer/handlers/no_input.py:28 | `lstrip('/')` leaves a suffix of the input. Everything removed is a slash, and the result does not start with one. |
| `Slashes.RStripRemovesTrailingRun` | src/clearskies_akeyless_custom_producer/handlers/no_input.py:26 | the right-hand half of `strip('/')` leaves a prefix of the input. Everything removed is a slash, and the result does not end with one. |
| `Slashes.StripShape` | src/clearskies_akeyless_custom_producer/handlers/no_input.py:26 | `strip('/')` leaves no slash at either end. Its result is empty exactly when the input is all slashes. |
| `Slashes.StripIsInfix` | src/clearskies_akeyless_custom_producer/handlers/no_input.py:26 | `strip('/')` returns an infix `s[i..j]`, where everything before `i` and from `j` on is a slash |
| `Slashes.StripIdempotent` | src/clearskies_akeyless_custom_producer/handlers/no_input.py:26-28 | stripping a second time changes nothing |
| `NoInput.ComposeShape` | src/clearskies_akeyless_custom_producer/handlers/no_input.py:26-28 | a composed endpoint never starts with `/`. With an all-slash base URL it is `strip(endpoint)`; otherwise it is `strip(base) + "/" + strip(endpoint)`. |
| `NoInput.ComposeEndsWithSlash` | src/clearskies_akeyless_custom_producer/handlers/no_input.py:25-28 | a composed endpoint ends with `/` if and only if the base URL is not all slashes and the endpoint is. So the comment's "doesn't end with a slash" holds only partly. |
| `NoInput.ComposeEmpty` | src/clearskies_akeyless_custom_producer/handlers/no_input.py:26-28 | a composed endpoint is empty if and only if both the base URL and the endpoint are all slashes |
| `NoInput.ComposeExample` | src/clearskies_akeyless_custom_producer/handlers/no_input.py:26-28 | base `/api/` with endpoint `sync/create` gives `api/sync/create` |
| `NoInput.ComposeAgainWithoutBase` | src/clearskies_akeyless_custom_producer/handlers/no_input.py:26-28 | with an all-slash base URL, composing an already composed endpoint again changes nothing |
| `NoInput.ComposeAgainWithBase` | src/clearskies_akeyless_custom_producer/handlers/no_input.py:26-28 | with any other base URL, composing again gives `b/b/e`, or `b/b` when the endpoint is all slashes, and in both cases differs from the first result |
| `NoInput.Finalize` | src/clearskies_akeyless_custom_producer/handlers/no_input.py:24-30 | finalization keeps the dictionary's key set, whether or not it raises |
| `NoInput.FinalizeConfiguration` | src/clearskies_akeyless_custom_producer/handlers/no_input.py:24-30 | the method, with its in-place loop, leaves the dictionary and raises the error exactly as the `Finalize` definition prescribes |
| `NoInput.RewriteInPlace` | src/clearskies_akeyless_custom_producer/handlers/no_input.py:27-28 | the `for` loop over the endpoint keys updates the dictionary key by key and stops at the first raised error, as `RewriteEndpoints` prescribes |
| `NoInput.ErrorPersists` | src/clearskies_akeyless_custom_producer/handlers/no_input.py:27-28 | once an iteration raises, later keys have no effect on the outcome |
| `NoInput.RewriteKeepsOthers` | src/clearskies_akeyless_custom_producer/handlers/no_input.py:27-28 | the loop never changes an entry outside its key list, whether or not it raises |
| `NoInput.RewriteFails` | src/clearskies_akeyless_custom_producer/handlers/no_input.py:27-28 | the loop raises if and only if some key is missing or not a string. The raised error names the first such key in loop order, and that key is missing or holds a non-string: `KeyError` exactly when it is missing, `AttributeError` when it holds a non-string. |
| `NoInput.RewriteComposes` | src/clearskies_akeyless_custom_producer/handlers/no_input.py:27-28 | when every key holds a string, the loop succeeds and sets each key to its composed path |
| `NoInput.FinalizeFails` | src/clearskies_akeyless_custom_producer/handlers/no_input.py:26-28 | finalization raises if and only if `base_url` or an endpoint is missing or not a string. It names the first such key (`base_url` first, then the endpoints in order), which is missing (`KeyError`) or holds a non-string (`AttributeError`), and leaves every non-endpoint entry untouched. |
| `NoInput.FinalizeComposes` | src/clearskies_akeyless_custom_producer/handlers/no_input.py:26-28 | a successful finalization sets each of the three endpoints to its composed path |
| `NoInput.FinalizeKeepsOthers` | src/clearskies_akeyless_custom_producer/handlers/no_input.py:26-30 | only the endpoints and a truthy `schema` change. A truthy `schema` becomes its converted columns; a falsy one is left as it was. Every other entry is unchanged. |
| `NoInput.FinalizedNoLeadingSlash` | src/clearskies_akeyless_custom_producer/handlers/no_input.py:28 | every finalized endpoint is a string that does not start with `/` |
| `NoInput.FinalizedTrailingSlash` | src/clearskies_akeyless_custom_producer/handlers/no_input.py:25-28 | a finalized endpoint ends with `/` if and only if the base URL is not all slashes and the configured endpoint is |
| `NoInput.FinalizeNormalized` | src/clearskies_akeyless_custom_producer/handlers/no_input.py:26-30 | finalization is the identity when the base URL is all slashes, no endpoint has a slash at either end, and `schema` is falsy |
| `NoInput.FinalizeDefaults` | src/clearskies_akeyless_custom_producer/handlers/no_input.py:3-30 | finalizing the defaults table leaves it unchanged, so the endpoints stay `sync/create`, `sync/revoke`, `sync/rotate` |
| `NoInput.FinalizeTwiceWithoutBase` | src/clearskies_akeyless_custom_producer/handlers/no_input.py:26-30 | with an all-slash base URL and a falsy `schema`, finalizing a second time returns the same dictionary |
| `NoInput.FinalizeAgain` | src/clearskies_akeyless_custom_producer/handlers/no_input.py:26-28 | a second finalization composes each already composed endpoint again with the same base URL |
| `NoInput.FinalizeTwiceWithBase` | src/clearskies_akeyless_custom_producer/handlers/no_input.py:26-28 | with any other base URL, a second finalization prefixes the base again on every endpoint (`b/b/e`, or `b/b` for an all-slash endpoint), so finalization is not idempotent |
| `NoInput.CheckCallables` | src/clearskies_akeyless_custom_producer/handlers/no_input.py:41-45 | the loop over callable names passes if and only if every named setting is truthy and callable. Each failure it raises starts with the error prefix. |
| `NoInput.CheckCallablesFirst` | src/clearskies_akeyless_custom_producer/handlers/no_input.py:41-45 | the loop raises the first unusable setting's problem: "you must provide" when the setting is falsy, "must be a callable" when it is truthy but not callable |
| `NoInput.CheckCallablesReads` | src/clearskies_akeyless_custom_producer/handlers/no_input.py:41-45 | the loop's outcome depends only on the settings it names |
| `NoInput.CheckConfiguration` | src/clearskies_akeyless_custom_producer/handlers/no_input.py:33-47 | validation passes if and only if all of these hold: the base check passes; the rotate callable is usable when `can_rotate` is truthy; `create_callable` and `revoke_callable` are usable; and the schema check passes when `schema` is not `None`. Each failure is the base check's, the schema check's, or starts with `Configuration error for handler '<ClassName>':`. |
| `NoInput.CheckRotateMissing` | src/clearskies_akeyless_custom_producer/handlers/no_input.py:36-38 | with `can_rotate` truthy, a missing or falsy rotate callable is reported first, with the "provide the rotate callable" message |
| `NoInput.CheckRotateNotCallable` | src/clearskies_akeyless_custom_producer/handlers/no_input.py:36-40 | with `can_rotate` truthy, a truthy but uncallable rotate callable is reported first, with the "must be a callable" message |
| `NoInput.CheckIgnoresRotateWhenDisabled` | src/clearskies_akeyless_custom_producer/handlers/no_input.py:36-40 | with `can_rotate` falsy, replacing `rotate_callable` by any value never changes the outcome |
| `NoInput.CheckReportsCreateFirst` | src/clearskies_akeyless_custom_producer/handlers/no_input.py:41-45 | after the rotate check passes, an unusable `create_callable` is reported, whatever `revoke_callable` holds |
| `NoInput.CheckReportsRevoke` | src/clearskies_akeyless_custom_producer/handlers/no_input.py:41-45 | with the rotate and create checks passing, an unusable `revoke_callable` is reported |
| `NoInput.CheckSchemaLast` | src/clearskies_akeyless_custom_producer/handlers/no_input.py:46-47 | once the handler's own checks pass, the outcome is the schema check's when `schema` is not `None`, and a pass otherwise |
| `NoInput.CheckRejectsDefaults` | src/clearskies_akeyless_custom_producer/handlers/no_input.py:3-40 | the defaults alone fail with the "provide the rotate callable" message |
| `NoInput.CheckDefaultsWithCallables` | src/clearskies_akeyless_custom_producer/handlers/no_input.py:3-47 | the defaults plus three usable callables pass, whatever the schema check says, because the defaults declare no `schema` key |
| `NoInput.Route` | src/clearskies_akeyless_custom_producer/handlers/no_input.py:49-56 | every error answer is the 404 `Page not found`. Every invoked operation has the request path as its endpoint and is enabled. |
| `NoInput.RouteIsFirstMatch` | src/clearskies_akeyless_custom_producer/handlers/no_input.py:50-55 | a request goes to operation `op` if and only if the path is `op`'s endpoint, `op` is enabled, and no earlier operation in the order create, revoke, rotate matches. So the create endpoint always wins. |
| `NoInput.RouteNotFound` | src/clearskies_akeyless_custom_producer/handlers/no_input.py:50-56 | the answer is the 404 if and only if no enabled operation has the request path as its endpoint |
| `NoInput.RouteDisabledRotateLooksUnknown` | src/clearskies_akeyless_custom_producer/handlers/no_input.py:54-56 | with rotation off, a request to the rotate endpoint gets the same 404 as a path no endpoint has |
| `NoInput.RouteLeadingSlashAfterFinalize` | src/clearskies_akeyless_custom_producer/handlers/no_input.py:28-56 | after finalization, a path that starts with `/` always gets the 404 |
| `NoInput.RouteDefaultsRotateDisabled` | src/clearskies_akeyless_custom_producer/handlers/no_input.py:3-56 | with the defaults finalized and `can_rotate = False`, `sync/rotate` gets the 404 and `sync/create` routes to create |
| `NoInput.HandleAsWrittenNeverResponds` | src/clearskies_akeyless_custom_producer/handlers/no_input.py:50 | as written, `handle` raises `NameError` on `full_path` for every request and never routes |
| `NoInput.CheckPayload` | src/clearskies_akeyless_custom_producer/handlers/no_input.py:58-60 | `check_payload` accepts every payload on both of its paths: the early return when `schema` is falsy, and falling off the end otherwise |

## Left out

- The base-class calls are not part of this model. `super().configure` is left out. `super()._check_configuration` and `_check_schema` enter as the given outcomes `baseCheck` and `schemaCheck`. `_schema_to_columns` enters as the given function `toColumns`. `super()._finalize_configuration` is not modelled: the model ends just before it.
- How and in what order the framework merges the defaults into a caller's configuration is not part of this model. The defaults table itself is `NoInput.Defaults`.
- `clearskies.authentication.public()` is a foreign object. It enters `Configure` as the opaque value `publicPolicy`.
- `create`, `revoke`, `rotate` and `self.error` are not defined in this file. Routing returns the operation to invoke, or the 404 error it would answer with.
- `documentation`, `documentation_security_schemes` and `documentation_models` only return empty constants.
- `__init__` only calls the base class.
- Python's `callable()` and the truthiness of arbitrary objects are abstract: each opaque object carries them as given flags. The model has no object whose `strip` method is user-defined; calling `.strip` on any non-string raises `AttributeError`.
- `configure` and `_finalize_configuration` mutate the caller's dictionary in place. The model returns the updated dictionary instead, which is what the caller sees afterwards. Aliasing of that dictionary elsewhere is not modelled.
- `NoInput.Route`: takes the request path as a parameter, because the source reads an undefined `full_path` (see Findings). It requires the four keys it reads to be present, as the defaults table provides them. What the framework's `configuration(key)` accessor does with a missing key is not part of this model.
- `NoInput.CheckPayload`: reads `schema` with `get` semantics. Whether the framework accessor would raise for the absent key is not part of this model.
- Payload decoding, schema validation of payloads and response shaping are not implemented in this file, so they are not modelled.

## Findings

| source | as written | input that shows it | evidently intended | confidence | as-written member | corrected member |
|---|---|---|---|---|---|---|
| src/clearskies_akeyless_custom_producer/handlers/no_input.py:50 | `handle` compares `full_path`, a name bound nowhere in the method or the module, so Python raises `NameError` before any comparison | any request, under any configuration | compare the request's path with the three endpoints | not executed | `NoInput.HandleAsWrittenNeverResponds` | `NoInput.Route` |
