# DFU targeting query of notehub-dfu-action

This project models the part of the notehub-dfu-action client that decides
which devices a Notehub host-firmware update targets. It covers three layers.

- **`addCommaSeparatedParams`** takes one raw configuration field such as
  `"warehouse, factory , office"` and processes it in four steps:
  - split it on `,`;
  - trim the white space from each piece;
  - drop the pieces that end up empty;
  - add the rest, in order, as repeated values of one query parameter.

  Its body is in the implementation file, which is not among the sources
  of this model. The model assumes the usual Go calls for these steps: `strings.Split`,
  `strings.TrimSpace` and `url.Values.Add` (see "## Left out").
- **`TriggerDFU`'s query** applies that normalizer to the eight targeting
  fields of a `DeploymentConfig`, always in the same order and under the same
  parameter names: `deviceUID`, `tags`, `serialNumber`, `fleetUID`,
  `productUID`, `notecardFirmware`, `location`, `sku`.
- **The request URL** is `{base}/projects/{projectUID}/dfu/host/update`.
  When the query has at least one key, `?` and the query's encoding follow.
  The encoding is Go's `url.Values.Encode`:
  - keys in increasing order;
  - each key's values in the order they were added;
  - `key=value` elements joined by `&`;
  - both sides of each element escaped with `url.QueryEscape`.

The modules follow those layers. Each one is given here with what it holds.

- `Text` holds Go's string primitives and the string order:
  - `unicode.IsSpace`;
  - `strings.TrimSpace`;
  - `strings.Split` with its inverse `Join`;
  - `strings.Cut`, used to read a URL back at its `?`;
  - the string order.
- `Utf8` and `Escape` hold `url.QueryEscape` over UTF-8 octets and its
  inverse `QueryUnescape`.
- `Values` holds `url.Values`:
  - `Add`;
  - `Encode`;
  - `Decode`, which is `url.ParseQuery` and the inverse of `Encode`.
- `Normalizer` holds `addCommaSeparatedParams`.
- `Dfu` holds `DeploymentConfig`, the query assembly and the URL.
- `Examples` and `UrlExamples` discharge the expectations of the table-driven
  tests against the model.

The implementation file, which defines `addCommaSeparatedParams`,
`TriggerDFU` and `DeploymentConfig`, is not among the sources of this model;
they are known only through src/main_test.go. The behaviour
comes from three places:
- the repository's tests, which assert on `addCommaSeparatedParams`;
- the tests' own query and URL assembly, which they describe as "the same
  logic as TriggerDFU" and which fixes the base URL to
  `https://api.notefile.net/v1`;
- the documented behaviour of the Go standard library calls those lines make
  (`url.Values.Encode`, `fmt.Sprintf`), plus the assumed calls inside
  `addCommaSeparatedParams` named above.

## Model

| member | source | states |
|---|---|---|
| Normalizer.AddCommaSeparatedParams | src/main_test.go:202-226 | The named parameter ends up with the values it had, followed by the value's tokens in input order. Every other parameter keeps exactly its values. The name becomes a key only if the value yields a token, so an empty or blank value adds no key. |
| Normalizer.AddPieces | src/main_test.go:205 | The loop over the pieces assumed inside `addCommaSeparatedParams`, which the test calls here: the parameter gains the trimmed non-empty pieces in order, every other parameter keeps its values, and the name becomes a key only if some piece survives. |
| Normalizer.AddToFresh | src/main_test.go:202-226 | Starting from an empty query, the result is exactly `{name: tokens}`, or the empty query when there are no tokens. This is the whole map each test compares, with no unexpected parameter. |
| Normalizer.Tokens | src/main_test.go:155-229 | Every token is non-empty, free of commas and trimmed at both ends. |
| Normalizer.TokensArePieces | src/main_test.go:178-185 | Every token is the trim of one of the comma-separated pieces of the value. |
| Normalizer.TokensSingle | src/main_test.go:162-169 | A non-empty, comma-free value with no white space at either end yields exactly one token, the value itself. |
| Normalizer.TokensAround | src/main_test.go:170-177 | The tokens of `a,b` are the tokens of `a` followed by the tokens of `b`, so splitting keeps left-to-right order. |
| Normalizer.TokensJoin | src/main_test.go:170-177 | Joining clean entries with commas and normalizing the result gives back the same entries in the same order. |
| Normalizer.TokensPadded | src/main_test.go:178-185 | White space around a value is not part of its token. |
| Normalizer.TokensEmpty | src/main_test.go:186-199 | A value yields no token exactly when it contains only commas and white space. |
| Normalizer.AddEmptyValue | src/main_test.go:186-191 | Adding an empty value leaves the query unchanged, with no key added. |
| Text.IsSpace | src/main_test.go:178-185 | The white-space set assumed for trimming, Go's `unicode.IsSpace`. Its use is stated by `Text.TrimSpaceIsTrim`. |
| Text.TrimSpace | src/main_test.go:178-185 | The assumed `strings.TrimSpace`. `Text.TrimSpaceIsTrim`, `Text.TrimUnique` and `Text.TrimSpaceAround` pin it down. |
| Text.TrimSpaceIsTrim | src/main_test.go:178-185 | `TrimSpace` removes exactly a run of white space from each end, and its result is empty only for an all-white-space string. |
| Text.TrimUnique | src/main_test.go:178-185 | A string has only one trim. |
| Text.TrimSpaceAround | src/main_test.go:178-185 | A trimmed core surrounded by white space trims to that core. |
| Text.Join | src/main_test.go:170-177 | Go's `strings.Join`, the inverse that `Text.Split` and `Text.SplitJoin` are stated against. |
| Text.Split | src/main_test.go:170-177 | The pieces contain no separator, and joining them with the separator gives back the input. |
| Text.SplitJoin | src/main_test.go:170-177 | Splitting a join of separator-free parts returns those parts. |
| Text.Cut | src/main_test.go:401-403 | Go's `strings.Cut`: the text before the first separator is separator-free and, with the separator and the rest, rebuilds the input. Without a separator the whole input comes back. Used to read a URL back at its `?`. |
| Text.LessEqTotal | src/main_test.go:381 | Any two keys are comparable, so sorting the keys is well defined. |
| Text.LessEqAntisymmetric | src/main_test.go:381 | Two keys that are each at most the other are equal. |
| Text.LessEqTransitive | src/main_test.go:381 | The key order is transitive. |
| Values.Add | src/main_test.go:170-177 | The value goes after the values the key already holds, and no other key changes. |
| Values.SortedKeys | src/main_test.go:381 | The keys are in strictly increasing order, and each key of the set appears exactly once. |
| Values.SortedUnique | src/main_test.go:366 | Two strictly sorted listings of the same keys are identical. |
| Values.SortedByNeighbours | src/main_test.go:381 | Keys that each come before the next are strictly sorted. |
| Values.Encode | src/main_test.go:403 | Go's `url.Values.Encode`. `Values.Pairs` fixes its element order and `Values.DecodeEncode` shows it loses nothing. |
| Values.Decode | src/main_test.go:403 | The reading of an encoded query back into values (Go's `url.ParseQuery`), which `Values.DecodeEncode` shows inverts `Values.Encode`. |
| Values.Pairs | src/main_test.go:381 | The encoded pairs have non-decreasing keys. Every key's values appear in the order they were added. No key outside the query appears. |
| Values.EncodeByKeys | src/main_test.go:366 | A strictly sorted listing of a query's keys fixes the element order of its encoding. |
| Values.EncodeSingle | src/main_test.go:339 | One key holding one value, both unescaped, encodes as `key=value`. |
| Values.RenderPlain | src/main_test.go:381 | An element whose key and value need no escaping is written as they stand. |
| Values.DecodeEncode | src/main_test.go:403 | Decoding the encoding of a query with no empty value lists gives back the same query. |
| Escape.QueryEscape | src/main_test.go:403 | The escape contains only unreserved characters, `+` and `%`. It never contains `&`, `=` or `?`. |
| Escape.QueryUnescape | src/main_test.go:403 | Go's `url.QueryUnescape`, which `Escape.QueryUnescapeEscape` shows inverts `Escape.QueryEscape`. |
| Escape.QueryUnescapeEscape | src/main_test.go:403 | Unescaping an escaped string gives back the string. |
| Escape.QueryEscapeInjective | src/main_test.go:403 | Distinct strings have distinct escapes. |
| Escape.QueryEscapeUnreserved | src/main_test.go:339 | A string of unreserved characters is left as it is. |
| Utf8.Encode | src/main_test.go:403 | The UTF-8 octets `url.QueryEscape` escapes. `Utf8.DecodeEncode` shows the encoding loses nothing. |
| Utf8.DecodeEncode | src/main_test.go:403 | Decoding the UTF-8 encoding of a string gives back the string. |
| Dfu.Targeting | src/main_test.go:390-397 | The eight targeting fields, each paired with its parameter name, in the order the normalizer is applied. `Dfu.BuildQueryFields` states what each name receives. |
| Dfu.AddFields | src/main_test.go:294-301 | Each key gets the tokens of every field with that name, in field order, after the values it had. A key is present exactly when it was present already or some field named after it yields a token. |
| Dfu.BuildQuery | src/main_test.go:294-301 | Every targeting parameter holds exactly its own field's tokens. The only keys are parameter names that received at least one token. |
| Dfu.BuildQueryFields | src/main_test.go:390-397 | `deviceUID` holds the tokens of `DeviceUID`, and likewise for `Tag`, `SerialNumber`, `FleetUID`, `ProductUID`, `NotecardFirmware`, `Location` and `SKU`. |
| Dfu.BuildQueryShape | src/main_test.go:317-322 | The query's keys are all parameter names, and no key holds an empty list. |
| Dfu.BuildQueryEquals | src/main_test.go:270-284 | Any query made of parameter names, with no empty lists, that agrees with every field's tokens is the built query. |
| Dfu.Endpoint | src/main_test.go:400-401 | `{base}/projects/{projectUID}/dfu/host/update`, with `projectUID` spliced in unescaped as `%s` does. `Dfu.ParseDfuURL` shows it is recovered from the URL when neither part holds a `?`. |
| Dfu.DfuURL | src/main_test.go:401-404 | The endpoint, followed by `?` and the encoded query only when the query has a key. `Dfu.DfuURLMark` and `Dfu.ParseDfuURL` pin it down. |
| Dfu.TriggerURL | src/main_test.go:388-404 | The URL for a configuration: its built query placed after its project's endpoint. `Dfu.TriggerURLMark` and `Dfu.ParseTriggerURL` pin it down. |
| Dfu.ParseURL | src/main_test.go:401-403 | Reads a URL back: the part before the first `?`, and the decoded query after it. A URL without `?` reads as an empty query. |
| Dfu.QueryNonEmpty | src/main_test.go:402 | The query has a key exactly when some targeting field yields a token. |
| Dfu.DfuURLMark | src/main_test.go:401-404 | For a base and a `projectUID` without `?`, the URL carries a `?` exactly when the query has a key. `projectUID` goes in unescaped, so this needs the hypothesis. |
| Dfu.TriggerURLMark | src/main_test.go:399-404 | For a base and a `projectUID` without `?`, the request URL carries a `?` exactly when some targeting field yields a token. |
| Dfu.ParseDfuURL | src/main_test.go:401-403 | For a base and a `projectUID` without `?` and a query with no empty list, cutting the URL at its first `?` and decoding the rest gives back the endpoint and the query. |
| Dfu.ParseTriggerURL | src/main_test.go:399-404 | For a base and a `projectUID` without `?`, the request URL reads back as the project's endpoint and the built query. |
| Examples.SingleValue | src/main_test.go:162-169 | `device-123` is one token, itself, and the query becomes exactly `{deviceUID: [device-123]}`. |
| Examples.MultipleValues | src/main_test.go:170-177 | `production,sensor,outdoor` yields its three entries in order, and the query is exactly `{tags: [production, sensor, outdoor]}`. |
| Examples.ValuesWithSpaces | src/main_test.go:178-185 | `warehouse, factory , office` yields `warehouse`, `factory`, `office`, and the query is exactly `{location: [warehouse, factory, office]}`. |
| Examples.EmptyValue | src/main_test.go:186-191 | An empty value yields no token and adds no parameter: `sku` with `""` leaves the empty query empty. |
| Examples.EmptySegments | src/main_test.go:192-199 | `SN001,,SN003,` yields `SN001`, `SN003`, and the query is exactly `{serialNumber: [SN001, SN003]}`. |
| UrlExamples.SingleTagQuery | src/main_test.go:334-340 | A configuration with only a tag builds the query `tags=[production]`. |
| UrlExamples.SingleTagURL | src/main_test.go:334-340 | That configuration's URL is the project endpoint followed by `?tags=production`. |
| UrlExamples.AllParametersQuery | src/main_test.go:367-382 | Eight fields of two entries each build the query holding both entries under each of the eight names. |
| UrlExamples.AllParametersURL | src/main_test.go:367-382 | That configuration's URL is the endpoint, `?`, and sixteen elements joined by `&`. The keys come in sorted order and each key's two values in input order. |
| UrlExamples.RenderTwoEach | src/main_test.go:381 | When each listed key holds two unreserved values, the rendered elements go key by key, with each key's values in order. |

## Left out

- `NewNotehubClient`, `Authenticate`, `UploadFirmware`, the HTTP request `TriggerDFU` sends and its 30-second timeout are left out. They are network, filesystem and clock behaviour. Only the base URL is kept, as the constant `Dfu.BaseURL`.
- The configuration checks at src/main_test.go:44-59 and 114-153 are left out. They only read back fields the test itself set.
- The implementation file is not among the sources of this model. The query assembly and the URL follow the tests' own copy of `TriggerDFU`'s logic (src/main_test.go:293-301 and 387-404). The normalizer follows the tests' expectations and the assumption on the next line.
- `addCommaSeparatedParams` is assumed to split with `strings.Split`, trim with `strings.TrimSpace` and append with `url.Values.Add`. No line of the tests names these calls. The tests only use ASCII spaces (src/main_test.go:181, 273, 275, 276), so trimming the rest of the `unicode.IsSpace` set is part of the assumption.
- Dfu.DfuURLMark: stated only for a base and a `projectUID` without `?`. `projectUID` is spliced in unescaped (src/main_test.go:401), so a `?` inside it would move the query mark. The model says nothing about that case.
- Dfu.TriggerURLMark: the same `?`-free hypothesis on the base and `projectUID`, for the same reason.
- Dfu.ParseDfuURL: the same `?`-free hypothesis on the base and `projectUID`, for the same reason.
- Dfu.ParseTriggerURL: the same `?`-free hypothesis on the base and `projectUID`, for the same reason.
- Not every test case is an example lemma. The URL cases at src/main_test.go:341-366 and the query cases at src/main_test.go:237-284 are covered by the general lemmas, `Dfu.BuildQuery` and `Values.Pairs`. Only the single-tag and all-parameter URLs are worked out literally.
- The expected URLs are stated as `Endpoint(BaseURL, project) + "?" + Join(elements, '&')`, not as one literal string.
- Keys are sorted by code point. Go sorts the UTF-8 bytes, which gives the same order; that equality is not proved here.
- `Values.Decode` models `url.ParseQuery` only for its use as the inverse of `Encode`. A malformed element makes the whole decode fail, where Go skips the element and reports the first error.
- Strings are sequences of Unicode scalar values, so the invalid UTF-8 that a Go string can hold is not modelled.
