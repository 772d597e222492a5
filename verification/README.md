# ckb-cli session configuration and variable store, in Dafny

This project models `GlobalConfig` from ckb-cli's `src/utils/config.rs`. `GlobalConfig` is the
interactive shell's session state. It has three parts:

- **Connection and display settings.** These are the node URL, the indexer URL, the network, the
  colour/debug/no-sync switches, the output format and the completion/edit styles. The two URLs
  are normalised to carry a scheme and have defaults.
- **The variable store.** This is a map from names to JSON values. It has `set` and `add_env_vars`,
  and `get`. Given a dotted path, `get` resolves a nested value. Given no path, it lists the
  variable names. Its result is the `KV` query type, which is also an iterator.
- **Template substitution, `replace_cmd`.** This rewrites the placeholders of a command line with
  the text of the values they resolve to.

Modules:

- `Wrappers` (wrappers.dfy): `Option`.
- `SerdeJson` (serde_json.dfy): the JSON value as a tagged union (`Null | Bool | Num | Str | Arr |
  Obj`). It also has `serde_json::Value::get` for a `usize` index and for a `&str` key.
- `Decimal` (decimal.dfy): `str::parse::<usize>` on a 64-bit target, written as the digit loop
  with its overflow check. This module also states which text that loop accepts, and renders an
  integer as decimal text.
- `Segments` (segments.dfy): `str::split('.')` and its inverse.
- `Resolver` (resolver.dfy): one descent step of `get`, and the short-circuiting fold over the
  remaining segments.
- `Config` (config.dfy): the `GlobalConfig` record, the store operations, `get`, `KV` and its
  `next`, the URL setters and getters, the toggles and the plain setters. The source's getters
  (`color()`, `debug()`, `no_sync()`, `output_format()`, `completion_style()`, `edit_style()`,
  `network()`) are the record's destructors.
- `Template` (template.dfy): `replace_cmd`, as a scan-and-splice loop over the match spans that
  the regex engine produces. It is proved equal to a recursive reference splice.
- `Scenarios` (scenarios.dfy): concrete sessions. They cover a placeholder replaced by a number, a
  missing path erased, a nested array index, index-before-key precedence, empty path segments, and
  a dotted name that cannot be read back.

Behaviours of the code worth knowing:

- **The empty key.** `split('.')` always yields at least one segment. So an empty key looks up
  the variable named `""`. It does not fail outright, and the `None => None` arm of the match on
  the first segment can never run.
- **Variable names.** `set` accepts every name, including the empty one and names containing a
  dot. A dotted name is stored, but `get` splits it on its dots, so it cannot be read back
  (`Scenarios.DottedNameUnreachable`).
- **`next` on `KV`.** `next` does not consume anything. It returns the same item on every call:
  the resolved value, or nothing for a key listing.
- **Key listing.** The names come as a sequence in the map's unspecified order.
- **URLs passed to `new`.** `new` stores its URLs without normalising them. So
  `set_url(get_url())` can change the URL of a freshly built configuration
  (`Config.NewKeepsRawUrl`). The round trip holds once the URLs are normalised
  (`Config.UrlRoundTrip`).

## Model

| member | source | states |
|---|---|---|
| Decimal.ParseDigits | src/utils/config.rs:60 | the digit loop behind `parse::<usize>` (checked multiply and add) accepts exactly the all-digit strings whose value is at most `usize::MAX`, and yields that value; it stops at the first bad digit or overflow |
| Decimal.ParseUsize | src/utils/config.rs:60 | `parse::<usize>` succeeds exactly on an optional `+` followed by one or more ASCII digits whose value fits in a `usize`, and returns that value; `""`, `"+"` and `-` signs fail |
| Decimal.ParseRendered | src/utils/config.rs:60 | parsing the canonical decimal text of any `usize` gives that number back |
| Decimal.NonCanonicalIndexText | src/utils/config.rs:60-65 | a leading `0` or `+` parses to the same index as the canonical text but is a different string, so the key-fallback text differs from the index |
| Decimal.NatToString | src/utils/config.rs:98 | a natural number's decimal text is non-empty, all digits, without a leading zero (except `0` itself), and denotes the number |
| Decimal.IntToString | src/utils/config.rs:98 | a number's text is canonical decimal: a `-` exactly for negatives, then non-empty digits without a leading zero (except `0`) that denote the magnitude; so the text of a `usize`-range number parses back to it |
| Segments.Split | src/utils/config.rs:54 | splitting a key on `.` yields at least one segment, no segment contains a dot, and joining the segments with dots gives the key back |
| Segments.SplitDotFree | src/utils/config.rs:54 | a key without a dot (the empty key included) splits into exactly itself |
| Segments.SplitAtFirstDot | src/utils/config.rs:54 | a dot-free name followed by `.` and a rest splits into the name followed by the rest's segments |
| Segments.SplitJoin | src/utils/config.rs:54 | splitting the dot-join of dot-free segments gives the segments back |
| Resolver.Step | src/utils/config.rs:60-66 | on an array a step succeeds exactly when the segment parses as a `usize` inside the bounds, and then yields that element; on an object it looks up the literal segment text; on a scalar it yields nothing |
| Resolver.Walk | src/utils/config.rs:56-70 | the fold over the remaining segments: with no segments the result is the starting value, and from an absent value the result is absent |
| Resolver.WalkAppend | src/utils/config.rs:56-70 | resolving segments `a + b` is resolving `a`, then resolving `b` from the result |
| Resolver.WalkFromNothing | src/utils/config.rs:67-70 | once the value is absent, any further segments leave it absent; the result is never an error |
| Resolver.FailureIsAbsorbing | src/utils/config.rs:59-70 | if a prefix of the segments resolves to nothing, every extension of it does too |
| Resolver.ResolvedPrefix | src/utils/config.rs:56-70 | a path that resolves has every prefix resolving |
| Config.New | src/utils/config.rs:30-44 | a fresh configuration reports the given URLs (or the defaults), colour and both styles on, debug and no-sync off, YAML output, no network, the given path and no variables |
| Config.Set | src/utils/config.rs:46-49 | after `set(k, v)`, `k` holds `v`, every other name keeps its entry or its absence, and no other field changes |
| Config.SetTwice | src/utils/config.rs:46-49 | setting the same name twice equals setting it once to the second value |
| Config.Extend | src/utils/config.rs:84-89 | extending the store with pairs gives each name that occurs in them the value of its last pair, and leaves every other name as it was |
| Config.AddEnvVars | src/utils/config.rs:84-89 | `add_env_vars` changes the store with last-pair-wins semantics and no other field |
| Config.ExtendAppend | src/utils/config.rs:84-89 | adding `p + q` at once equals adding `p` and then `q` |
| Config.AddOneIsSet | src/utils/config.rs:46-89 | adding a single pair is the same as `set` |
| Config.Find | src/utils/config.rs:58 | `env_variable.get(name)` yields a value exactly when the name is stored, and then the stored value |
| Config.Lookup | src/utils/config.rs:53-73 | `get(Some(key))`: when the key's first segment names no variable the result is absent, and a key with a single segment yields exactly its stored value |
| Config.LookupBareName | src/utils/config.rs:51-73 | `get(Some(name))` for a dot-free name (the empty name included) yields exactly the stored value of `name`, or nothing when it is absent |
| Config.LookupPath | src/utils/config.rs:51-73 | `get` of `name.s1.….sn` with dot-free segments starts from the stored value of `name` and descends one step per segment |
| Config.LookupMissingName | src/utils/config.rs:55-70 | an absent name resolves to nothing, and so does every path below it |
| Config.SetThenLookup | src/utils/config.rs:46-73 | after `set(k, v)` with a dot-free `k`, `get(k)` yields `v`, and any other dot-free name resolves as before |
| Config.KeyList | src/utils/config.rs:75-80 | the listing has every stored name exactly once and nothing else |
| Config.Get | src/utils/config.rs:51-82 | `get(None)` is a key listing holding exactly the store's names, each once; `get(Some(k))` is a value query holding the resolution of `k` |
| Config.Next | src/utils/config.rs:278-286 | `next` leaves the query unchanged, and yields nothing for a key listing |
| Config.NextRepeats | src/utils/config.rs:281-286 | any number of `next` calls yield the same item each time: the resolved value (or nothing) for a value query, nothing for a key listing |
| Config.NormalizeUrl | src/utils/config.rs:108-114 | the stored URL always starts with `http://` or `https://`; it is the input when the input has one of those prefixes, and `http://` plus the input otherwise |
| Config.NormalizeIdempotent | src/utils/config.rs:108-114 | normalising a normalised URL changes nothing |
| Config.SetUrl | src/utils/config.rs:108-114 | after `set_url(s)`, `get_url()` is the normalised `s`, and no other field changes |
| Config.GetUrl | src/utils/config.rs:115-117 | `get_url()` is the configured URL, or `http://127.0.0.1:8114` when none is set |
| Config.SetCkbIndexerUrl | src/utils/config.rs:119-125 | after `set_ckb_indexer_url(s)`, `get_ckb_indexer_url()` is the normalised `s`, and no other field changes |
| Config.GetCkbIndexerUrl | src/utils/config.rs:126-130 | `get_ckb_indexer_url()` is the configured URL, or `http://127.0.0.1:8116` when none is set |
| Config.UrlRoundTrip | src/utils/config.rs:108-130 | with normalised URLs both getters have a scheme, and setting either URL to its getter's value leaves the getter's value unchanged and the URLs normalised |
| Config.NewKeepsRawUrl | src/utils/config.rs:30-117 | `new` with a scheme-less URL reports it raw, and `set_url(get_url())` then prefixes it with `http://` |
| Config.SetNetwork | src/utils/config.rs:132-137 | `network()` returns what `set_network` stored, and no other field changes |
| Config.SwitchColor | src/utils/config.rs:139-141 | `switch_color` negates the colour flag and changes nothing else |
| Config.SwitchDebug | src/utils/config.rs:143-145 | `switch_debug` negates the debug flag and changes nothing else |
| Config.SwitchCompletionStyle | src/utils/config.rs:147-149 | `switch_completion_style` negates the completion-style flag and changes nothing else |
| Config.SwitchEditStyle | src/utils/config.rs:151-153 | `switch_edit_style` negates the edit-style flag and changes nothing else |
| Config.SwitchTwice | src/utils/config.rs:139-153 | applying any toggle twice restores the configuration |
| Config.SetColor | src/utils/config.rs:155-157 | `color()` returns the value `set_color` stored, and no other field changes |
| Config.SetDebug | src/utils/config.rs:159-161 | `debug()` returns the value `set_debug` stored, and no other field changes |
| Config.SetNoSync | src/utils/config.rs:163-165 | `no_sync()` returns the value `set_no_sync` stored, and no other field changes |
| Config.SetOutputFormat | src/utils/config.rs:167-169 | `output_format()` returns the value `set_output_format` stored, and no other field changes |
| Config.SetCompletionStyle | src/utils/config.rs:171-173 | `completion_style()` returns the value `set_completion_style` stored, and no other field changes |
| Config.SetEditStyle | src/utils/config.rs:175-177 | `edit_style()` returns the value `set_edit_style` stored, and no other field changes |
| Template.ValueText | src/utils/config.rs:96-100 | a string value contributes its raw text, a number its canonical decimal text (a `-` exactly for negatives, then digits without a leading zero, except `0`, that denote the magnitude), and every other kind of value the empty string |
| Template.Replacement | src/utils/config.rs:93-103 | a placeholder becomes the raw text of a resolved string or the decimal text of a resolved number; a missing `key` capture, an unresolved path, or a resolved null, boolean, array or object become the empty string |
| Template.SpliceOwnText | src/utils/config.rs:91-106 | the splice keeps the unmatched text verbatim: splicing each match back in with its own text gives the original line |
| Template.NoMatchNoChange | src/utils/config.rs:91-106 | a line without matches is returned unchanged |
| Template.ReplaceCmd | src/utils/config.rs:91-106 | the scan-and-splice loop produces the reference splice: the unmatched text verbatim, each match replaced by its replacement, in order |
| Scenarios.NestedIndex | src/utils/config.rs:51-73 | with `user = {"name": "alice", "tags": ["x", "y"]}`, `user.tags.1` resolves to `"y"` |
| Scenarios.IndexKeyPrecedence | src/utils/config.rs:60-65 | with `x = {"0": "a", "arr": [10, 20]}`, `x.arr.0` resolves to `10` (an index into the array) and `x.0` to `"a"` (a key of the object) |
| Scenarios.NonCanonicalSegments | src/utils/config.rs:60-65 | `01` and `+1` index position 1 of an array, `a` indexes nothing, and on an object `01` is the key `"01"` |
| Scenarios.EmptySegments | src/utils/config.rs:54 | `a..b` splits into `a`, `""`, `b`; `a.` into `a`, `""`; the empty key into one empty segment |
| Scenarios.DottedNameUnreachable | src/utils/config.rs:46-73 | a variable set under the name `a.b` cannot be read with `get("a.b")` when no `a` exists |
| Scenarios.AmountPlaceholder | src/utils/config.rs:91-106 | with `amount = 300`, `send ${amount} now` becomes `send 300 now` |
| Scenarios.MissingPlaceholder | src/utils/config.rs:91-106 | with no `missing` variable, `x${missing.path}y` becomes `xy` |

## Left out

- `print` (src/utils/config.rs:203-254) is not modelled. It writes to standard output, colours text with ANSI escapes and includes the crate version.
- `Printable::render` for `KV` is not modelled. For a present value it delegates to the external printer. For a key listing and an absent value it is display formatting only.
- The working directory is not queried. `New` takes the `path` field as a parameter, because `env::current_dir()` reads the process environment. The path is kept as uninterpreted text.
- The regular expression engine is not modelled. `Template.ReplaceCmd` takes the engine's matches as input: each match's span, and the span of its `key` capture. Its precondition is what such an engine guarantees: the spans lie inside the line, come in order and do not overlap, and each capture lies inside its match.
- Numbers are unbounded integers. `serde_json::Number` is an `i64`, a `u64` or an `f64`. Floating-point numbers and their text form are not modelled.
- `usize` is taken to be 64 bits wide.
- `NetworkType` and `OutputFormat` come from other crates. They are enumerations here, with only store-and-return behaviour.
- Config.New: always succeeds. `env::current_dir().unwrap()` panics when the working directory cannot be read; that failure is not modelled, because the path is a parameter.
- Template.ReplaceCmd: takes character positions into a Dafny string. The regex crate reports match and capture spans as byte offsets into the UTF-8 line; the caller converts them to character positions.
- `Config.KeyList` does not fix the order of the names. `HashMap::keys` does not specify one.
- test/src/spec/udt/xudt.rs is not part of this model. It drives the command-line tool and a test chain, and holds no logic of the configuration.
