# Dependency decoding/encoding and empty-value filtering, in Dafny

This project models two pieces of the project-spec data layer of a
project-file generator (XcodeGen):

- `Dependency` (Sources/ProjectSpec/Dependency.swift): a dependency a target
  declares, that is, a `target`, `framework`, `carthage` or `sdk` reference
  plus its `embed`, `codeSign`, `link`, `removeHeaders`, `implicit` and
  `weakLink` flags. The model covers the memberwise initialiser, the decoder
  from a JSON dictionary (`init(jsonDictionary:)`), the encoder back to one
  (`toJSONDictionary()`) and the reference-only hash.
- `filterEmpty(value:)` (Sources/ProjectSpec/Encoding.swift): the helper
  encoders use to drop nil values, empty arrays and empty dictionaries from
  a dictionary.

Files:

- `Wrappers.dfy`: `Option` (a Swift optional) and `Result` (a throwing
  initialiser).
- `Json.dfy`: the JSON value type, `Document = map<string, JValue>`, and the
  lenient typed lookups `GetString` / `GetBool`. These return a value only
  when the key exists and holds that type.
- `Dependency.dfy`: module `Dependencies`. The Swift field `type` is a
  Dafny keyword, so it is called `kind`. `Dependency` is a value type, and
  Dafny's `==` on it compares every field, as the synthesised `Equatable`
  does (strings compared character by character; see "Left out").
  `Decode` follows the source's if-chain. `FirstStringKey` is an independent
  list-search definition of the kind priority, and `Decode` is proved
  against it. `Encode` is the document `toJSONDictionary()` builds, stated
  key by key: `EncodedValue` says what, if anything, is written under each
  key. The round trip and the economy lemmas are proved about it.
- `Encoding.dfy`: module `Encoding`, with `FilterOut`, `FilterEmpty` and
  their properties.

Equality is not reference-only. `Dependency` declares `Equatable` without
a custom `==` (Dependency.swift:4), so equality compares every field. Only
`hash(into:)` (Dependency.swift:41-45) looks at the reference alone.
`HashKeyCoarserThanEquality` exhibits two unequal dependencies with the
same hash key.

## Model

| member | source | states |
|---|---|---|
| `Json.GetString` | Sources/ProjectSpec/Dependency.swift:50 | a string lookup yields a value exactly when the key is present and holds a string, and then yields that string |
| `Json.GetBool` | Sources/ProjectSpec/Dependency.swift:67 | a boolean lookup yields a value exactly when the key is present and holds a boolean, and then yields that boolean |
| `Dependencies.Make` | Sources/ProjectSpec/Dependency.swift:10-31 | the memberwise initialiser always gives `removeHeaders == true` and stores every argument unchanged; omitted arguments take their defaults |
| `Dependencies.ResolveKind` | Sources/ProjectSpec/Dependency.swift:50-65 | the kind search fails exactly when none of `target`, `framework`, `carthage`, `sdk` holds a string; a found kind's own key holds the found reference; `carthage` carries the boolean lookup of `findFrameworks` |
| `Dependencies.Decode` | Sources/ProjectSpec/Dependency.swift:49-80 | a failed decode is always `invalidDependency` carrying the input document itself |
| `Dependencies.FirstStringKey` | Sources/ProjectSpec/Dependency.swift:50-65 | the priority search finds nothing exactly when none of the keys holds a string; otherwise it finds one of the keys, and that key holds a string |
| `Dependencies.FirstStringKeyIsFirst` | Sources/ProjectSpec/Dependency.swift:50-63 | first match wins: the key found comes no later in the priority order than any key holding a string |
| `Dependencies.DecodeFollowsKeyPriority` | Sources/ProjectSpec/Dependency.swift:50-65 | decoding fails exactly when the search over `target`, `framework`, `carthage`, `sdk` finds nothing; on success the kind is the one named by the first string-holding key, and the reference is that key's string |
| `Dependencies.DecodeTargetWins` | Sources/ProjectSpec/Dependency.swift:50-52 | a string under `target` gives a `target` dependency with that reference, whatever the other kind keys hold |
| `Dependencies.DecodeFailsIff` | Sources/ProjectSpec/Dependency.swift:63-64 | decoding fails, carrying the document, exactly when none of the four kind keys holds a string |
| `Dependencies.DecodeFindFrameworks` | Sources/ProjectSpec/Dependency.swift:56-59 | for a `carthage` dependency, `findFrameworks` is the boolean lookup: unset (not false) exactly when the key is missing or does not hold a boolean |
| `Dependencies.DecodeIgnoresFindFrameworks` | Sources/ProjectSpec/Dependency.swift:50-62 | `findFrameworks` is read only in the `carthage` branch: for a dependency of another kind, removing that key from the document leaves the result unchanged |
| `Dependencies.DecodeFlagDefaults` | Sources/ProjectSpec/Dependency.swift:67-79 | after a successful decode, `embed`/`codeSign`/`link` are the boolean lookups (unset when missing or not boolean); `removeHeaders` is false only for a boolean false under `removeHeaders`; `implicit`/`weakLink` are true only for a boolean true under `implicit`/`weak` |
| `Dependencies.DecodeIgnoresUnrecognisedKeys` | Sources/ProjectSpec/Dependency.swift:49-80 | lenient parsing: documents that agree on the eleven keys the decoder reads decode to the same dependency, or both fail |
| `Dependencies.Encode` | Sources/ProjectSpec/Dependency.swift:84-121 | the encoding writes only keys the decoder reads, and always writes the dependency's kind key mapped to its reference |
| `Dependencies.EncodeWritesOneKindKey` | Sources/ProjectSpec/Dependency.swift:106-118 | exactly one kind key is written, the one for the dependency's kind, mapped to the reference; `findFrameworks` is written exactly for `carthage` with a set value, and holds that value |
| `Dependencies.EncodeIsEconomical` | Sources/ProjectSpec/Dependency.swift:87-104 | `removeHeaders` is written exactly when false, `implicit` and `weak` exactly when true, `embed`/`codeSign`/`link` exactly when set, each with its value; no key outside the decoder's eleven is written |
| `Dependencies.EncodeDefaultsIsOneKey` | Sources/ProjectSpec/Dependency.swift:85-120 | a dependency with every flag at its default encodes to the one-entry document kind key ↦ reference |
| `Dependencies.EncodedKindIsResolved` | Sources/ProjectSpec/Dependency.swift:50-65 | the kind search over an encoding finds the dependency's own kind (with its `findFrameworks`) and its reference |
| `Dependencies.EncodedFlagsAreRead` | Sources/ProjectSpec/Dependency.swift:67-79 | the flag lookups over an encoding give back every flag; a default that was left out is restored by the decoder's default |
| `Dependencies.RoundTrip` | Sources/ProjectSpec/Dependency.swift:49-121 | decoding the encoding of any dependency succeeds with a structurally equal dependency (`findFrameworks` included), which therefore has the same hash key |
| `Dependencies.HashKey` | Sources/ProjectSpec/Dependency.swift:41-45 | the value fed to the hasher is the reference and nothing else |
| `Dependencies.HashKeyByReference` | Sources/ProjectSpec/Dependency.swift:41-45 | equal dependencies have equal hash keys, and two hash keys are equal exactly when the references are |
| `Dependencies.HashKeyCoarserThanEquality` | Sources/ProjectSpec/Dependency.swift:4-45 | two dependencies that differ only in `embed` are unequal under the synthesised equality yet have the same hash key |
| `Encoding.FilterOut` | Sources/ProjectSpec/Encoding.swift:11-19 | nil, an empty array and an empty dictionary become nil; any other value passes through unchanged |
| `Encoding.FilterEmpty` | Sources/ProjectSpec/Encoding.swift:10-21 | the result's keys are a subset of the input's; nil values, empty arrays and empty dictionaries are dropped; every other entry is kept with its value unchanged |
| `Encoding.FilterEmptyIsOneLevel` | Sources/ProjectSpec/Encoding.swift:12-18 | a non-empty array or dictionary is kept as it is, even if it holds empty collections or nulls |
| `Encoding.FilterEmptyLeavesNoEmpty` | Sources/ProjectSpec/Encoding.swift:12-20 | no value of the result is an empty array or an empty dictionary |
| `Encoding.FilterEmptyIdempotent` | Sources/ProjectSpec/Encoding.swift:10-21 | filtering an already filtered map again, each value wrapped as present, returns the same map |

## Left out

- Key paths: `json(atKeyPath:)` also splits a key on `.` and walks nested
  dictionaries. The model looks keys up exactly, since the decoder only
  passes plain keys. The JSON library that implements it is not part of
  this model.
- Number/boolean bridging: Foundation may read a number as a boolean. The
  model has no number value; a value that is not a string or a boolean
  reads as absent.
- `Dependencies.HashKey` models `hash(into:)` only as the value it feeds
  the hasher (the reference). The hasher's state and its output values are
  not modelled.
- The in-place building of the local dictionary in `toJSONDictionary()`
  (Dependency.swift:85-120) is modelled by the document it ends with
  (`Encode`). The insertions use distinct keys, so their order does not
  affect that document.
- `Dependencies.HashKey` and `Dependency` equality compare `reference` as a
  sequence of characters, not by Unicode canonical equivalence as Swift's
  `String` does: references such as "\u{E9}" and "e\u{301}" are equal in
  Swift and distinct in the model.
- `pathProperties` (Dependency.swift:124-131) is metadata for a separate
  path-rewriting pass and has no behaviour here.
- The `JSONEncodable.toJSONValue()` requirement (Encoding.swift:4-7) has
  no body. Swift's dynamic casts from `Any` are replaced by the `JValue`
  datatype.
- `SpecParsingError` is defined elsewhere. Only the `invalidDependency`
  case, which carries the document, is modelled.
