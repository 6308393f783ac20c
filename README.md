# Asset warranty client — a Dafny model

This project models the core of `Asset`, a PHP client for a vendor's asset
information API. Given service tags (the vendor's identifiers of physical
assets), the client queries one of four REST endpoints. It normalizes the JSON
answer into one map from service tag to asset record, held in its only mutable
field. From that map it derives the ship date, the system description (model)
and the latest warranty end date of each asset.

The HTTP call and JSON decoding are replaced by a `Response` input: a status code
and a body that is either a list of records or one record.

- `StringOrder` is the string order PHP's `>` applies to two non-numeric strings.
  It is lexicographic. The module proves the order irreflexive, transitive and
  total, with `""` below every other string.
- `Normalization` holds the records, the response shapes and the body-to-map
  normalization. A list body is re-indexed by `serviceTag`: left to right, later
  duplicates overwrite earlier ones. A single record is keyed by the requested tag
  string. The module also holds the `array_column` field projection.
- `Warranty` is the end-date reduction. A running maximum over each record's
  entitlements starts from `""` and is replaced only on a strictly greater date.
  The inner and outer loops are two methods. Both are proved against a pointwise
  specification, and that specification is shown to determine the result.
- `Configuration` is the environment check that runs before the token
  exchange. See "## Findings".
- `AssetApi` holds the class `Asset`, with the field `assets`, the URL builders,
  `Get` and the wrappers and views built on it. A ghost log `sent` records each
  GET's endpoint and query parameters. The class invariant `Valid()` says that no
  two entries hold records with the same `serviceTag`. `Get` preserves it, and
  it makes the projections and the reduction independent of PHP's array order.
- `Scenarios` holds concrete runs: two ship dates, a duplicate tag, a single
  object keyed by the request, and the latest of three end dates.

The model follows the code as written on these points:

- A non-200 status is not reported as an error. It only leaves `assets` unchanged.
- The endpoint name is not validated.
- End dates compare as strings, not as dates.
- Only `CLIENT_ID` is validated. That is the finding below; the rest of the model
  uses the corrected check.

## Model

| member | source | states |
|---|---|---|
| StringOrder.Less | src/Asset/Asset.php:160 | the order `>` applies to two end-date strings: lexicographic, a proper prefix first; nothing sorts below `""`, and `""` sorts below exactly the non-empty strings |
| StringOrder.EmptyIsLeast | src/Asset/Asset.php:158-160 | starting the scan from `""`: `""` is below every non-empty string, and nothing is below `""` |
| StringOrder.LessIrreflexive | src/Asset/Asset.php:160 | no end date is strictly greater than itself |
| StringOrder.LessTransitive | src/Asset/Asset.php:160 | the string order `>` uses is transitive |
| StringOrder.LessTotal | src/Asset/Asset.php:160 | any two different strings are ordered one way or the other |
| Normalization.Index | src/Asset/Asset.php:99-101 | re-indexing a list by `serviceTag`: the keys are exactly the tags in the list, and every entry holds a record carrying its key |
| Normalization.IndexLastWins | src/Asset/Asset.php:101 | each tag maps to the last record in list order that carries it |
| Normalization.TagsBound | src/Asset/Asset.php:101 | a list has no more distinct tags than elements |
| Normalization.TagsDistinct | src/Asset/Asset.php:101 | with pairwise distinct tags there are as many tags as elements |
| Normalization.IndexSize | src/Asset/Asset.php:99-111 | the count after re-indexing is the number of distinct tags, at most the list length, and equal to it when no tag repeats |
| Normalization.Normalize | src/Asset/Asset.php:96-105 | the map after a response keeps the invariant that no two entries hold records with the same tag, whichever branch is taken |
| Normalization.NormalizedSize | src/Asset/Asset.php:97-111 | after a 200 response the count is the number of distinct tags of a list (at most its length), or 1 for a single object |
| Normalization.Project | src/Asset/Asset.php:137-147 | `array_column(assets, field, 'serviceTag')`: every record carrying the field appears under its own tag with its value; every key comes from such a record |
| Normalization.ProjectIndex | src/Asset/Asset.php:99-101 | projecting a re-indexed list: a tag is present exactly when its last record has the field, and holds that record's value |
| Warranty.LatestEndDate | src/Asset/Asset.php:158-163 | the running maximum of one record's end dates: starts at `""`, replaced only by a strictly greater date, so it is `""` or one of the end dates |
| Warranty.LatestIsUpperBound | src/Asset/Asset.php:158-163 | no entitlement end date is greater than the running maximum |
| Warranty.LatestIsFirstMaximal | src/Asset/Asset.php:158-163 | a non-empty maximum is the end date of an entitlement, and every earlier end date is strictly smaller (the first maximal one, as `>` is strict) |
| Warranty.LatestEmptyIff | src/Asset/Asset.php:157-165 | the maximum stays `""` exactly when the entitlements are empty or all end dates are `""` |
| Warranty.ReducedUnique | src/Asset/Asset.php:154-167 | the pointwise specification of the reduction determines the result |
| Warranty.ReducedMeaning | src/Asset/Asset.php:157-165 | a record's tag is in the result iff some end date is non-empty; then its value is one of the record's end dates and no end date exceeds it |
| Warranty.ReducedStep | src/Asset/Asset.php:157-165 | reducing one more record adds at most that record's own tag, which no earlier record produced (the maximum is reset per record) |
| Warranty.ScanEntitlements | src/Asset/Asset.php:158-164 | the inner loop ends with the running maximum of the record's end dates, and has written it under the record's tag exactly when it is not `""`, changing nothing else |
| Warranty.ReduceEndDates | src/Asset/Asset.php:157-165 | the outer loop produces, for each record, its running-maximum end date under its own tag, no key for a record whose maximum is `""`, and no other key |
| Configuration.GetEnv | src/Asset/Asset.php:70-71 | `getenv(name)`: a set variable reads as its value; `required(name)->notEmpty()` passes exactly when the result is not blank once trimmed, and then the result is non-empty |
| Configuration.LoadCredentialsAsWritten | src/Asset/Asset.php:66-71 | the check as written succeeds iff `CLIENT_ID` is set and not blank once trimmed, whatever `CLIENT_SECRET` holds, and then yields the id and getenv's secret |
| Configuration.BlankIdRejected | src/Asset/Asset.php:66-67 | a whitespace-only `CLIENT_ID` fails the check, as written and as intended, because `notEmpty()` trims before testing |
| Configuration.AsWrittenAcceptsMissingSecret | src/Asset/Asset.php:66-71 | the check as written passes an environment without a client secret (or with an empty one), and getenv's result is handed on as the secret (`false` in PHP for an unset variable, read as `""` here) |
| Configuration.LoadCredentials | src/Asset/Asset.php:66-71 | the corrected check succeeds iff both CLIENT_ID and CLIENT_SECRET are set and not blank once trimmed, and yields their values |
| Configuration.CorrectedRefinesAsWritten | src/Asset/Asset.php:66-67 | the corrected check accepts what the written one accepts, less a missing, empty or blank secret, and then agrees with it |
| AssetApi.Asset.constructor | src/Asset/Asset.php:62-90 | construction needs valid credentials; it starts with the default domain, an empty map and no requests sent |
| AssetApi.Asset.GetBaseAccessTokenUrl | src/Asset/Asset.php:33-36 | the token URL is the API domain followed by `/auth/oauth/v2/token` |
| AssetApi.Asset.GetBaseApiEndpointUrl | src/Asset/Asset.php:43-47 | the endpoint base is the API domain followed by `/PROD/sbil/eapi/v5` |
| AssetApi.Asset.GetApiEndpointUrl | src/Asset/Asset.php:56-60 | an endpoint URL is domain, version path, `/` and the endpoint name, and the name can be read back from it |
| AssetApi.EndpointUrlInjective | src/Asset/Asset.php:56-60 | different endpoints have different URLs |
| AssetApi.TokenUrlIsNoEndpointUrl | src/Asset/Asset.php:33-60 | the token URL is never an endpoint URL |
| AssetApi.Asset.Get | src/Asset/Asset.php:92-106 | one GET is logged; a non-200 status leaves `assets` unchanged; a 200 list gives exactly the list's tags, each keyed by its own record; a 200 single object is the one entry under the requested tag string |
| AssetApi.Asset.GetNumAssets | src/Asset/Asset.php:108-111 | the number of entries in the map held |
| AssetApi.Asset.GetAssets | src/Asset/Asset.php:113-117 | a GET on `assets` with parameter `servicetags`; returns the map after the call |
| AssetApi.Asset.GetAssetsWarranty | src/Asset/Asset.php:119-123 | a GET on `asset-entitlements` with parameter `servicetags`; returns the map after the call |
| AssetApi.Asset.GetAssetsDetails | src/Asset/Asset.php:125-129 | a GET on `asset-components` with parameter `servicetags`; returns the map after the call |
| AssetApi.Asset.GetAssetSummary | src/Asset/Asset.php:131-135 | a GET on `asset-entitlement-components` with the singular parameter `servicetag`; returns the map after the call |
| AssetApi.Asset.GetShipDate | src/Asset/Asset.php:137-141 | fetches the assets, then projects `shipDate` by record tag |
| AssetApi.Asset.GetSystemDescription | src/Asset/Asset.php:143-147 | fetches the assets, then projects `systemDescription` by record tag |
| AssetApi.Asset.GetModel | src/Asset/Asset.php:149-152 | the same request, new state and result as `GetSystemDescription` |
| AssetApi.Asset.GetWarrantyEndDate | src/Asset/Asset.php:154-167 | fetches the warranties, then returns their reduction to latest end dates by record tag |
| Scenarios.ShipDatesOfList | src/Asset/Asset.php:137-141 | the list `[A: 2021-01-01, B: 2021-02-02]` gives ship dates `{A: 2021-01-01, B: 2021-02-02}` |
| Scenarios.DuplicateTagOverwrites | src/Asset/Asset.php:99-101 | two records tagged `A` leave one entry, the later record |
| Scenarios.SingleObjectKeyedByRequest | src/Asset/Asset.php:102-104 | a single object tagged `Y` requested as `Z` is stored under `Z` only |
| Scenarios.LatestOfThree | src/Asset/Asset.php:157-163 | end dates `2022-01-01, 2023-06-15, 2020-03-03` reduce to `2023-06-15` |

## Left out

- The constructor's Dotenv loading, the OAuth2 client-credentials token exchange, `exit` on a provider error and the `Authorization: Bearer` header are external library and network calls. Only the variable check is modelled.
- The REST client's GET and `decode_response` JSON decoding are network and library calls. They become the `Response` parameter. How the REST client joins its base URL with the endpoint name is not modelled; the log records the endpoint name and the query parameters.
- The unused `$options` list: the code validates no endpoint, and neither does the model.
- PHP compares numeric-looking strings as numbers under `>`. The model uses plain lexicographic order, comparing characters by code point; that equals byte order for UTF-8.
- Before the first successful response, PHP's `assets` is `null`. The model starts from an empty map instead. This changes three things. `count(null)` in `getNumAssets` (line 110) fails in PHP; the model returns 0. `array_column(null, …)` in `getShipDate` and `getSystemDescription` (lines 140, 146) is a TypeError under PHP 8; the model returns an empty map. `foreach` over `null` in `getWarrantyEndDate` (line 157) warns in PHP; the model runs no iteration.
- `getWarrantyEndDate` returns an undefined variable when no entry is written. The model returns an empty map.
- `array_column` gives rows without a `serviceTag` integer keys. Every modelled record carries a `serviceTag`.
- PHP turns integer-like string keys into integers. Tags stay strings here.
- Records hold string fields and an entitlement list only. Other nested values and a `null` end date are not modelled.
- PHP arrays are ordered; `assets` is a Dafny `map`, so the order of entries in returned arrays is not modelled.
- The `notEmpty()` rule is phpdotenv's: it trims the value with PHP's default `trim` characters (space, tab, newline, carriage return, NUL, vertical tab) and rejects an empty result. The library itself is not part of this model; `Configuration.Blank` states that rule.
- Configuration.GetEnv: an unset variable reads as `""`, where PHP's getenv returns `false`. So for an unset secret the model hands on `""` where PHP hands on `false`. What the OAuth library then sends is not modelled.
- Normalization.Project: requires that no two records share a tag. Every map the client holds meets this (`Normalize` ensures it, `Valid()` keeps it). With a repeated tag PHP's result would depend on array order, which is not modelled.
- Warranty.ReduceEndDates: requires the same distinct-tag condition as `Project`, for the same reason.

## Findings

| source | as written | input that shows it | evidently intended | confidence | as-written member | corrected member |
|---|---|---|---|---|---|---|
| src/Asset/Asset.php:66-67 | `CLIENT_ID` is required non-empty twice and `CLIENT_SECRET` is never checked | an environment with `CLIENT_ID=id` and no `CLIENT_SECRET` passes, and getenv's `false` is handed on as the secret | the second line requires `CLIENT_SECRET` | high; not executed | Configuration.AsWrittenAcceptsMissingSecret | Configuration.LoadCredentials |
