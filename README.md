# PowerBI embedding SDK utilities, modelled in Dafny

This project models the utility layer of the PowerBI JavaScript embedding SDK (`src/util.ts`) and proves what its functions promise:

- the embed-URL trust gate `validateEmbedUrl`, with its two host allow-lists;
- the embed-mode classifiers `isRDLEmbed`, `autoAuthInEmbedUrl` and `isCreate`;
- `addParamToUrl`;
- the array helpers `findIndex`, `find` and `remove`;
- the shallow merge `assign`;
- the correlation-identifier generators `createRandomString` and `generateUUID`;
- `calculatePercentage` and `getTimeDiffInMilliseconds`.

Modules:

- `Wrappers`: `Option`, which stands for `undefined`, and `Result`, which stands for a thrown error.
- `JsStrings`: the ECMAScript string built-ins the code relies on: ASCII `toLowerCase`, `indexOf` with its characterisation, and the line terminators a regular-expression `.` refuses.
- `HostPatterns`: each of the two allow-list regular expressions appears twice:
  - as an independent statement of what the pattern accepts. For the commercial pattern this is a ghost predicate that follows `RegExp.prototype.test`: the pattern is unanchored at the start and its `.+` matches any run of non-line-terminator characters. The sovereign pattern is anchored at both ends, so its statement is the constant set `SovereignHosts` of the six hostnames it denotes;
  - as the executable string check the authoriser uses (for the sovereign pattern, one test per alternative, with `GovCloudAlternative` for the `app(\.mil\.` / `\.high\.` / `\.)powerbigov\.us` alternative).

  Lemmas prove that the two forms agree on every hostname and that the two lists are disjoint.
- `EmbedUrl`: `validateEmbedUrl`, the classifiers and `addParamToUrl`. The URL parser (`new URL`) is a function parameter that returns `ParseError` or `Parsed(protocol, hostname)`. `decodeURIComponent` is a function parameter that may fail.
- `Identifiers`: covers the following.
  - `Number.prototype.toString(radix)`, with its round trip and its digit-count bound.
  - `createRandomString`, with the random draw as a parameter.
  - `generateUUID`: a method over the clock seed and one draw per placeholder. Its loop shifts the seed as the source does, and the result is proved to depend on the draws alone.
- `ArrayHelpers`: `findIndex` and `find` are loops over the array contents. `remove` changes a `JsArray` object in place. As in the source, when nothing matches, `splice(undefined, 1)` removes element 0.
- `ObjectAssign`: `assign` works on `JsObject` objects. Each object's `props` map holds its own enumerable properties. The nested loops copy each source onto the target in place, and the case where a source is the target itself is covered.
- `Arithmetic`: percentages over reals and time differences over integers.

The doc comment of `createRandomString` (src/util.ts:122) promises "5 to 6 characters". The code gives that only for draws of at least 36^5; a draw of 0 gives the empty string. `CreateRandomString` states the exact bounds and `ShortRandomStrings` exhibits short results.

## Model

| member | source | states |
|---|---|---|
| `JsStrings.IndexOfFrom` | src/util.ts:193 | `indexOf` returns the least index at which the pattern occurs, or -1 exactly when it occurs nowhere |
| `HostPatterns.SuffixAfterOneCharIsTest` | src/util.ts:10 | one alternative `/.+LIT$/` of the commercial pattern matches iff the host ends with LIT and the character just before LIT is not a line terminator |
| `HostPatterns.IsCommercialHost` | src/util.ts:9-10 | the executable commercial check accepts a host iff the commercial regular expression's `test` does: one of `.powerbi.com`, `.fabric.microsoft.com`, `.analysis.windows-int.net`, `.analysis-df.windows.net` ends it, with at least one character in front |
| `HostPatterns.GovCloudAlternativeHosts` | src/util.ts:15 | the middle alternative of the sovereign pattern (`app`, then `.mil.`, `.high.` or `.`, then `powerbigov.us`) accepts exactly `app.powerbigov.us`, `app.mil.powerbigov.us` and `app.high.powerbigov.us` |
| `HostPatterns.IsSovereignHost` | src/util.ts:15 | the sovereign check accepts exactly the six sovereign hostnames and nothing else |
| `HostPatterns.AllowListsDisjoint` | src/util.ts:9-15 | no hostname passes both allow-lists |
| `HostPatterns.LookalikeHostsRejected` | src/util.ts:10-15 | `powerbi.com`, `.powerbi.com`, `x.powerbi.com.evil.com` and `evil.app.powerbi.cn` are refused; `app.powerbi.com` is accepted |
| `EmbedUrl.ValidateEmbedUrl` | src/util.ts:247-259 | falsy input gives `undefined`; a lower-cased URL that fails to parse gives `false`; otherwise the result is `true` iff the protocol is exactly `https:` and the hostname matches the commercial regular expression or is one of the six sovereign hosts |
| `EmbedUrl.NonHttpsNeverTrusted` | src/util.ts:256-257 | a parsed URL whose scheme is not `https:` is refused whatever its hostname |
| `EmbedUrl.IsRdlEmbed` | src/util.ts:192-194 | true iff the lower-cased URL contains `/rdlembed?`; false for missing input |
| `EmbedUrl.AutoAuthInEmbedUrl` | src/util.ts:203-205 | a decoding error propagates; a successful decoding never fails and gives true iff the decoded, lower-cased URL contains `autoauth=true`; falsy input is not auto-auth |
| `EmbedUrl.IsCreate` | src/util.ts:239-241 | only strings with no upper-case letter are accepted |
| `EmbedUrl.IsCreateRejectsCaseVariants` | src/util.ts:239-241 | `isCreate` accepts `create` and `quickcreate`, and is case-sensitive: it accepts only lower-case strings, and of two different strings with the same lower-case form at most one is accepted |
| `EmbedUrl.AddParamToUrl` | src/util.ts:161-165 | the result is the url followed by a separator and then `name=value`; the separator is `&` iff the url contains `?` and does not start with it, and `?` otherwise |
| `Identifiers.ToRadixString` | src/util.ts:128 | `toString(radix)` yields at least one digit, every character a digit below the radix, with no leading zero for a positive number |
| `Identifiers.RadixRoundTrip` | src/util.ts:128 | parsing the digits of `toString(radix)` gives the number back |
| `Identifiers.RadixLength` | src/util.ts:128 | a number renders in at most k digits iff it is below radix^k |
| `Identifiers.TailValue` | src/util.ts:128 | dropping the first digit of `n.toString(radix)` leaves the digits of `n` modulo radix^(digits left) |
| `Identifiers.CreateRandomString` | src/util.ts:121-129 | the token is the draw's low base-36 digits (its value is the draw modulo 36^length); it is empty iff the draw is below 36, and a token of length L ≥ 1 comes from a draw in [36^L, 36^(L+1)); so it has at most 6 digits, at least 5 iff the draw is at least 36^5, and exactly 6 iff the draw is at least 36^6 |
| `Identifiers.ShortRandomStrings` | src/util.ts:122-128 | a draw of 0 yields the empty token, and the draw 35·36² yields a 2-character token |
| `Identifiers.UuidOf` | src/util.ts:142-149 | the identifier has 20 characters; character i is the lower-case hex digit whose value is `draws[i] % 16` |
| `Identifiers.UuidDeterminedByDraws` | src/util.ts:142-149 | two identifiers are equal iff their draws agree modulo 16 at every placeholder |
| `Identifiers.GenerateUUID` | src/util.ts:137-150 | the loop over the 20 placeholders yields exactly the identifier the draws determine; the clock seed it shifts has no influence on the result |
| `ArrayHelpers.FirstMatchIsFirst` | src/util.ts:55-69 | the first-match index is the least index whose element satisfies the predicate, and is `undefined` only when no element does |
| `ArrayHelpers.FindIndex` | src/util.ts:55-69 | the `some` loop returns the least matching index, or `undefined` when nothing matches |
| `ArrayHelpers.Find` | src/util.ts:80-83 | returns `undefined` iff no element matches; otherwise the element at the first matching index |
| `ArrayHelpers.RemoveFirstDeletesFirstMatch` | src/util.ts:85-88 | when some element matches, removal deletes exactly the first match: the rest keep their order and one fewer element remains |
| `ArrayHelpers.RemoveWithoutMatchDropsHead` | src/util.ts:85-88 | when nothing matches, `splice(undefined, 1)` still removes the first element of a non-empty array |
| `ArrayHelpers.Remove` | src/util.ts:85-88 | the array's new contents are what first-match removal leaves of its old contents |
| `ObjectAssign.Contributions` | src/util.ts:108-110 | each argument contributes its own properties, except `null`/`undefined` arguments and the target itself, which contribute nothing |
| `ObjectAssign.CopyOwnProperties` | src/util.ts:111-115 | the inner loop overlays all own properties of the source onto the output, also when both are the same object |
| `ObjectAssign.Assign` | src/util.ts:99-119 | a `null`/`undefined` target throws `TypeError`; otherwise the target itself is returned and its properties become the merge of its old properties with the sources, in order |
| `ObjectAssign.LastOwnerWins` | src/util.ts:108-116 | a key owned by some source takes the value of the last source that owns it |
| `ObjectAssign.UnownedKeyKept` | src/util.ts:103-116 | a key no source owns is present afterwards iff the target had it, with the target's value |
| `Arithmetic.CalculatePercentage` | src/util.ts:267-272 | a zero total gives 0; otherwise result × total = part × 100 |
| `Arithmetic.PercentageSign` | src/util.ts:267-272 | negating the part or the total negates the result; negating both leaves it unchanged |
| `Arithmetic.PercentageLinear` | src/util.ts:271 | for a fixed total the result is additive and homogeneous in the part |
| `Arithmetic.PercentageExamples` | test/util.test.ts:4-34 | the unit tests' expected values, computed over exact reals |
| `Arithmetic.TimeDiffInMilliseconds` | src/util.ts:228-230 | the result is non-negative and is one of the two differences of the timestamps |
| `Arithmetic.TimeDiffSymmetric` | src/util.ts:228-230 | swapping the timestamps does not change the difference |

## Left out

- `raiseCustomEvent` (src/util.ts:30-44) is not modelled: it only builds a DOM event and dispatches it through the browser.
- `getRandomValue` (src/util.ts:210-218) is a call into `window.crypto`. Its draws are parameters (`Uint32`) of `CreateRandomString` and `GenerateUUID`.
- `isSavedInternal` (src/util.ts:176-183) is not modelled. It is an async wrapper over the `http-post-message` transport, which is not part of this model; its only logic is negating the response body and re-throwing a rejection's body.
- URL parsing (`new URL`, the WHATWG URL Standard) is a parameter of `ValidateEmbedUrl`, and `decodeURIComponent` is a parameter of `AutoAuthInEmbedUrl`. Neither is modelled.
- The regular-expression engine is not modelled. Each of the two fixed patterns is restated by hand as a predicate that follows `RegExp.prototype.test`.
- `toLowerCase` lower-cases only the ASCII letters here. Unicode case mapping (for example the Kelvin sign) is not modelled.
- The `Array.isArray` check in `findIndex` (src/util.ts:56-58) is ruled out by the types: the model always receives a sequence.
- `findIndex` and `find` take the predicate as a pure function. A predicate that mutates the array, and sparse arrays whose holes `some` skips, are not modelled.
- `assign` is modelled for object arguments only. The following are not modelled: inherited enumerable properties (the model holds own properties only, which are what `hasOwnProperty` keeps), key enumeration order, and `Object(target)` boxing a primitive target into a new object.
- `assign` never fails for a non-null target in the model. The source calls `source.hasOwnProperty` (src/util.ts:112), which throws `TypeError` for a source with a null prototype (`Object.create(null)`) or one whose own `hasOwnProperty` is not a function, as soon as that source has a key; this failure is not modelled.
- `assign` writes with an ordinary property assignment (src/util.ts:113), modelled as a map update. Setters, read-only or non-writable target properties, and a source's own `__proto__` key (which replaces the target's prototype instead of adding an own property, so `LastOwnerWins` does not describe that key) are not modelled.
- `calculatePercentage` is modelled over exact reals. IEEE-754 rounding, `NaN`, infinities and the `Number.MAX_VALUE`/`Number.MIN_VALUE` tests are not modelled.
- `getTimeDiffInMilliseconds` takes the two `getTime()` values as integers. Invalid dates (`NaN`) are not modelled.
- `GenerateUUID` takes the clock seed as an integer in milliseconds. The fractional part that `performance.now()` adds is dropped; the seed never reaches the output.
- ArrayHelpers.Find: a matched element that is itself `undefined` is returned by the source as `undefined`, the same value as no match (src/util.ts:82); the model returns `Some` of that element and so keeps the two outcomes apart.
- EmbedUrl.IsRdlEmbed: returns `false` for falsy input, where the source returns the falsy input itself (`""`, `null` or `undefined`); both are falsy to every caller.
- EmbedUrl.AutoAuthInEmbedUrl: returns `false` for falsy input, where the source returns the falsy input itself; both are falsy to every caller.
