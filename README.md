# readability-js: the Rust wrapper around Readability.js, in Dafny

readability-js runs Mozilla's Readability.js article extractor inside an
embedded QuickJS engine and gives Rust callers a typed interface to it. This
project models the Rust side of that interface. That is everything the Rust
code decides on its own:

- **Base-URL validation** (`validate_base_url`). A base URL starting with
  `javascript:` or `data:` is refused outright. Any other base URL must
  parse with scheme `http` or `https`, and is then passed on unchanged.
- **The options object** (`ReadabilityOptions`, its builder setters and
  `build`). `build` writes one JavaScript property per option that is set,
  under the key the JavaScript side expects.
- **Classifying the engine's answer** (`extract`). An object carrying a
  string `errorType` is turned into a `ReadabilityError`: `HtmlParseError`,
  `ExtractionError`, `RuntimeError` (a JavaScript-evaluation error), or an
  unknown tag (an extraction error naming it). Its message is the `error`
  string, or "Unknown error" when there is none. Any other value is decoded
  as an article.
- **Decoding an article** (`Article::try_from`). Ten fields are read in the
  source's order, and the first one that does not convert decides the error
  and its context text. Optional fields accept `null` and `undefined`. The
  `dir` field accepts `"ltr"` and `"rtl"`, and reads any other string as an
  unknown direction.
- **The command line's URL recognition** (`try_parse_url`). The argument is
  accepted as a URL when it parses as HTTP(S) with a plausible host.
  Otherwise it is parsed once more with `https://` in front.

The extraction algorithm runs inside the engine and is not part of this
model. The engine's `extract` function is a parameter (`JsContext`), and so
is the URL parser (`Urls.UrlParser`). What these are assumed to do is
listed under "Left out".

The modules:

- `Wrappers`: `Option` and `Result`.
- `Strings`: prefix and substring search, with the lemmas that pin `Contains` down.
- `JsValues`: JavaScript values and the property reads of rquickjs.
- `Urls`: a parsed URL, abstractly.
- `FieldMaps`: maps built from a set of fields, independent of any concrete key.
- `ReadabilityCore`: errors, articles, options, base-URL validation, classification and the entry points.
- `Cli`: the command line's URL recognition.

## Model

| member | source | states |
|---|---|---|
| ReadabilityCore.DecodeOptionalString | core/src/readability.rs:68-85 | `null`/`undefined` give no value, a string gives that string, anything else is a conversion error carrying the field's context; the error happens exactly in that last case |
| ReadabilityCore.DecodeDirection | core/src/readability.rs:87-107 | `"ltr"` and `"rtl"` give the two directions, any other string and `null`/`undefined` give no direction, a non-string is the "failed to get dir as string" kind of error, and only then |
| ReadabilityCore.DecodeFields | core/src/readability.rs:61-214 | the ten properties convert exactly when each has a convertible type (strings, optional strings, a `u32` length below 2^32); the article then carries exactly those values; a non-string title is the "failed to get title" error; every failure is a JavaScript-conversion error |
| ReadabilityCore.EarlyFailureDecides | core/src/readability.rs:68-120 | when every earlier property converts and `byline`, `dir`, `content` or `textContent` does not, the error is the JavaScript-conversion error with that field's own context text |
| ReadabilityCore.LateFailureDecides | core/src/readability.rs:121-201 | likewise for `length`, `excerpt`, `siteName`, `lang` and `publishedTime` |
| ReadabilityCore.DecodeArticle | core/src/readability.rs:54-215 | a value that is not an object is the extraction error "Expected JavaScript object, got a different type"; an object decodes exactly when its properties are well formed, into the article they describe; errors on objects are JavaScript-evaluation errors |
| ReadabilityCore.DecodeDeterminedByFields | core/src/readability.rs:54-215 | decoding yields article `a` if and only if the properties describe `a` |
| ReadabilityCore.ArticleRoundTrip | core/src/readability.rs:54-215 | every article comes back unchanged from an object carrying its fields (`null` for absent ones), both through `try_from` and through `extract`'s classification (such an object is never taken for an error) |
| ReadabilityCore.DecodeString | core/src/readability.rs:61-66 | converts exactly the string values, to that string; any other value is a JavaScript-conversion error with the field's context |
| ReadabilityCore.DecodeU32 | core/src/readability.rs:121-127 | converts exactly the integers below 2^32, to that integer; any other value is a JavaScript-conversion error with the field's context |
| ReadabilityCore.ReadArticleFields | core/src/readability.rs:61-201 | on a plain object each of the ten fields is the property of that name, `undefined` when absent; an array or other non-plain object has no `title` |
| ReadabilityCore.NonPlainObjectResult | core/src/readability.rs:55-66 | an array, function or other non-plain object returned by the engine, carrying no `errorType` or `title` property, is reported as "failed to get title", not as "not an object" |
| ReadabilityCore.ReadabilityOptions.New | core/src/readability.rs:251-253 | no option is set |
| ReadabilityCore.ReadabilityOptions.SetMaxElemsToParse | core/src/readability.rs:262-265 | the result is this record with `maxElemsToParse` set to the given value and every other field as it was |
| ReadabilityCore.ReadabilityOptions.SetNbTopCandidates | core/src/readability.rs:275-278 | the result is this record with `nbTopCandidates` set to the given value, every other field as it was |
| ReadabilityCore.ReadabilityOptions.SetCharThreshold | core/src/readability.rs:288-291 | the result is this record with `charThreshold` set to the given value, every other field as it was |
| ReadabilityCore.ReadabilityOptions.SetClassesToPreserve | core/src/readability.rs:300-303 | the result is this record with `classesToPreserve` set to the given list, every other field as it was |
| ReadabilityCore.ReadabilityOptions.SetKeepClasses | core/src/readability.rs:312-315 | the result is this record with `keepClasses` set to the given value, every other field as it was |
| ReadabilityCore.ReadabilityOptions.SetDisableJsonLd | core/src/readability.rs:325-328 | the result is this record with `disableJSONLD` set to the given value, every other field as it was |
| ReadabilityCore.ReadabilityOptions.SetLinkDensityModifier | core/src/readability.rs:338-341 | the result is this record with `linkDensityModifier` set to the given value, every other field as it was |
| ReadabilityCore.ReadabilityOptions.Build | core/src/readability.rs:343-400 | the object built by the seven conditional writes, in the source's order, is the order-independent description: one key per option that is set, holding that option's value |
| ReadabilityCore.EncodedOptionsKeys | core/src/readability.rs:343-400 | the options object has no key outside the seven option names; an option's key is present exactly when the option is set, and then holds its value |
| ReadabilityCore.DefaultOptionsEncodeEmpty | core/src/readability.rs:251-253 | the options of `new()` build the empty object |
| ReadabilityCore.EncodeAfterSet | core/src/readability.rs:262-341 | a setter changes the built object in exactly one key, the one of the option it sets |
| JsValues.StrArray | core/src/readability.rs:370-377 | the list of class names becomes an array of the same length holding those strings in order |
| ReadabilityCore.OptionsObject | core/src/readability.rs:796-799 | present options give an options object, absent ones none; the object has only option keys, one per option that is set, holding its value |
| ReadabilityCore.ValidateBaseUrl | core/src/readability.rs:647-661 | a URL starting with `javascript:` or `data:` is refused with "Invalid base URL scheme"; a URL is accepted if and only if it has neither prefix and parses with scheme `http` or `https`; an accepted URL is returned unchanged; every refusal is an invalid-options error |
| ReadabilityCore.BaseUrlScenarios | core/src/readability.rs:647-661 | `javascript:alert(1)` is refused whatever the parser says; `https://example.com/a` passes unchanged when it parses as `https` |
| ReadabilityCore.ErrorFromTag | core/src/readability.rs:813-824 | the three known tags give `HtmlParseError`, `ExtractionError` (both with the message) and a JavaScript-evaluation error of source `Unknown` whose context contains the message; any other tag gives an extraction error naming both the tag and the message; never an invalid-options or readability-check error |
| ReadabilityCore.ErrorMessage | core/src/readability.rs:809-811 | the message is the `error` property when that is a string, and "Unknown error" otherwise |
| ReadabilityCore.ClassifyResult | core/src/readability.rs:805-830 | an object with a string `errorType` is the error for that tag and message; its message is the `error` string, and a missing or non-string `error` gives the tag's error with "Unknown error"; anything else is `try_from` of the value; an `Ok` comes only from a non-error object that describes the article |
| ReadabilityCore.ValidateOptionalBaseUrl | core/src/readability.rs:787-790 | an absent base URL stays absent; a present one is validated and, when accepted, passed on as given |
| ReadabilityCore.Readability.Extract | core/src/readability.rs:781-830 | a refused base URL stops extraction with the validation error before the engine is touched; an invalid-options error arises only from that refusal; a missing `extract` function gives "extract function not found"; otherwise the engine is called with the HTML, the validated base URL and the built options object, a failed call gives "Failed to call extract", and a returned value is classified; `ReadabilityCheckFailed` never results |
| ReadabilityCore.Readability.Parse | core/src/readability.rs:711-713 | never an invalid-options error; with a working engine the result is the classification of `extract(html, None, None)` |
| ReadabilityCore.Readability.ParseWithUrl | core/src/readability.rs:741-743 | a `javascript:` or `data:` base URL is refused with "Invalid base URL scheme"; a success implies the base URL parsed as HTTP(S) |
| ReadabilityCore.Readability.ParseWithOptions | core/src/readability.rs:772-779 | an invalid-options error needs a base URL; a success implies the base URL was accepted |
| Cli.IsValidHttpUrl | cli/src/main.rs:87-93 | true if and only if the scheme is `http` or `https` and the host is present, non-empty, has a dot at some index and no two dots at adjacent indices (both directions stated in index form) |
| Cli.TryParseUrl | cli/src/main.rs:85-110 | a result is always a valid HTTP(S) URL and is either the parse of the input or of `https://` + input; a valid parse of the input wins; otherwise the prefixed parse is taken if valid, else nothing |
| Strings.ContainsIff | cli/src/main.rs:91-92 | substring search succeeds exactly when the pattern occurs at some index |
| Strings.ContainsPair | cli/src/main.rs:91 | a string contains a two-character pattern exactly when those characters are adjacent somewhere in it |
| Strings.ContainsInfix | core/src/readability.rs:816-823 | a string built around a part contains that part (used for the formatted error texts) |

## Left out

- The extraction algorithm (Readability.js, the bundled JavaScript) is not modelled. The engine's `extract` function is the parameter `JsContext.extractFn`, a fixed function of its arguments; state the engine keeps between calls is not modelled.
- Creating the QuickJS runtime and evaluating the bundle (`Readability::new`) is not modelled. A context whose `extract` lookup fails stands for any broken initialisation.
- The command line's input and output is not modelled: reading files, standard input, fetching with ureq, and printing.
- Cli.TryParseUrl: the `info!` log lines it writes on each attempt are not modelled.
- The URL parser (`url::Url::parse`) is not modelled. It is the parameter `UrlParser`, and only its scheme and host results are used.
- ReadabilityCore.ReadabilityOptions.Build: the failure of `Object::new` or of `obj.set` (engine faults, "failed to create options object", "failed to set … option") is not modelled. Building always succeeds.
- ReadabilityCore.Readability.Extract: there is no error path for a failing options `build`, for the same reason. Rquickjs error values are reduced to the three kinds in `JsValues.EngineError`.
- ReadabilityCore.DecodeFields: reading a property is assumed never to throw (no getters). So the "failed to get …" contexts of the raw property reads, such as "failed to get byline", never occur.
- JsValues.JsValue: JavaScript strings are modelled as sequences of Unicode scalar values. A string holding an unpaired surrogate, which does not convert to a Rust `String` (so `get::<String>` fails on it), is not represented. For such a `title`, `errorType` or `error` the Rust code gives "failed to get title", no error dispatch, or "Unknown error" respectively.
- JsValues: JavaScript numbers are modelled as naturals in `Num` and as opaque 32-bit float patterns in `Float`. So `get::<u32>` of a negative, fractional or floating-point number is modelled only as "does not convert".
- There is no `f32` arithmetic. `link_density_modifier` is carried as its bit pattern.
- JsValues.Get: of an array only `length` is modelled. Named properties set on an array (an `errorType`, a `title`, ...) are not represented, so such an array is read as having none of them, where the Rust code would classify or decode them like those of a plain object.
- JsValues.OpaqueObject: functions, constructors, promises and other engine objects that are not plain objects carry no modelled properties; every read gives `undefined`.
- ReadabilityCore.ReadabilityOptions.Build: a `usize` option above 2^53 reaches the engine rounded to the nearest double; the model keeps it exact (`Num(val)`).
- The `Display` texts of `ReadabilityError` are left out. Only the texts the code builds itself are modelled.
- The commented-out readability-check options block is left out.
- The benchmarks and the crate root (`lib.rs`) are left out.
- `ReadabilityCheckFailed` is declared and documented as a possible result of extraction, but the Rust code never constructs it. The model follows the code: `Extract` is proved never to return it. Whatever the JavaScript side reports arrives as an `errorType` tag (`ErrorFromTag`) or as a value `try_from` rejects.
