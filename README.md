# quake — verified model of the event feed, detail and geography core

This project models the server-side core of the quake earthquake-information
service in Dafny:

- **Event listing** (`GetJMAEvents`). There are two copies,
  server/controller/event.go and internal/jmafeed/event.go. Each one walks the
  Japan Meteorological Agency real-time feed and then the long-term feed. It
  keeps the links that contain a supported report-type token. It turns each
  kept link into an event ID by trimming the data-URL prefix and the `.xml`
  suffix. The algorithm is written once (`EventIds`), over a token list. Each
  copy instantiates it with its own tokens: `ControllerEvents` and
  `JmaFeedEvents`.
- **Event details** (`GetEventDetailsJson`, server/controller/detail.go). It
  builds the report URL (the fixture source in debug mode), fetches and
  decodes the report, and dispatches on the event ID:
  - tsunami (`_VTSE41`);
  - earthquake early warning (`_VXSE43`);
  - otherwise an earthquake report.

  It then applies the validation policy to the validator's findings and
  serves the JSON. `log.Fatalf` ends the process; it is the outcome
  `Aborted`, distinct from a returned error (`Failed`). Module `Detail`.
- **Geography** (server/geo/jma.go). This covers:
  - the binary search `localCodeToCityCode` over the ascending city-level codes;
  - the parent-code chain class20s → class15s → class10s → offices → centers
    through the area table;
  - the forecast-code override for offices 014030 and 460040.

  Module `Geo`. A Go run-time panic is the error `IndexOutOfRange`.
- **Intensity colours** (src/color.ts): the fill colour of each JMA
  seismic-intensity scale code and the black/white text threshold. Module
  `Color`.

`Wrappers` holds `Option`/`Result`. `GoStrings` models the parts of Go's
`strings` package in use (`Contains`, `TrimPrefix`, `TrimSuffix`) and Go's
byte-wise string ordering. For the ASCII codes compared here, that ordering
is lexicographic order on characters.

Several points follow the code as written:

- the long-term loop's "skip if already present" scan has no effect, so
  duplicates are kept;
- a tsunami conversion failure, blocked tsunami findings and a failed JSON
  encoding of a tsunami or quake record end the process instead of returning
  an error;
- blocked quake warnings are reported with the same "validation errors"
  message as errors. The model keeps the findings in the error, not the text.

## Model

| member | source | states |
|---|---|---|
| `EventIds.CollectEvents` | server/controller/event.go:26-56 | Feed errors are returned first: the real-time error, then the long-term one. Otherwise the result is the real-time feed's selected IDs followed by the long-term feed's, in feed order, duplicates included. The loop invariants tie each prefix of a feed to its extracted IDs. |
| `EventIds.ExtractIds` | server/controller/event.go:30-37 | One feed loop yields at most one ID per item. |
| `EventIds.ExtractIdsAppend` | server/controller/event.go:30-54 | Extraction distributes over concatenation of items. The output order is the item order. |
| `EventIds.ExtractIdsMember` | server/controller/event.go:32-35 | An ID is in the output exactly when some item's link is selected and trims to that ID. |
| `EventIds.ExtractIdsLength` | server/controller/event.go:30-37 | The number of IDs equals the number of selected items. |
| `EventIds.ExtractIdRoundTrip` | server/controller/event.go:34 | For the link `DataBaseUrl + x + ".xml"`, extraction gives `x`. The event-data URL of that ID is the link again. |
| `EventIds.ExtractIdRebuildsLink` | server/feed/fetch.go:40-41 | A link with the data prefix and then `.xml` is exactly the URL that FetchEventData builds from its extracted ID. |
| `EventIds.UnderscoreNotInDataBaseUrl` | server/controller/event.go:34 | The data prefix contains no `_`, so it cannot overlap a report-type token. |
| `EventIds.ExtractIdKeepsToken` | server/controller/event.go:32-34 | If a token's first character is not in the prefix and it shares no character with `.xml`, the trimmed ID still contains it. |
| `EventIds.ExtractedIdsKeepTokens` | server/controller/event.go:30-37 | With such tokens, every extracted ID is itself selected by the tokens. |
| `EventIds.DuplicateIdKept` | server/controller/event.go:45-52 | As written, an item selected in both feeds appears twice in the output. |
| `EventIds.AppendNewSpec` | server/controller/event.go:45-52 | The intended append keeps the collected IDs at the front and yields exactly the union of the values. It appends nothing already collected and introduces no duplicate. |
| `EventIds.IsPresent` | server/controller/event.go:46-50 | The scan over the collected IDs reports true exactly when the ID is among them. |
| `EventIds.CollectEventsDedup` | server/controller/event.go:39-54 | Corrected long-term loop: errors as before. The result is the real-time IDs followed by each long-term ID not yet collected. It holds exactly the IDs of both feeds, and no ID twice when the real-time feed has no repeats. |
| `ControllerEvents.SelectedIff` | server/controller/event.go:32 | A link is selected iff it contains `_VXSE51_`, `_VXSE53_` or `_VTSE41`. |
| `ControllerEvents.TokensSurviveTrim` | server/controller/event.go:32-34 | None of the three tokens can be cut by the prefix or suffix trim. |
| `ControllerEvents.GetJMAEvents` | server/controller/event.go:13-57 | Covers the error cases and the exact ID list. The count equals the number of selected items, and every returned ID contains one of the three tokens. |
| `ControllerEvents.ExampleLink` | server/controller/event.go:34 | A `_VXSE53_` data link is selected and yields its file name without `.xml`. |
| `JmaFeedEvents.SelectedIff` | internal/jmafeed/event.go:32 | A link is selected iff it contains `_VXSE51_` or `_VXSE53_`. |
| `JmaFeedEvents.TokensSurviveTrim` | internal/jmafeed/event.go:42-44 | Neither token can be cut by the trim. |
| `JmaFeedEvents.GetJMAEvents` | internal/jmafeed/event.go:13-59 | Same as the controller copy, with every returned ID containing `_VXSE51_` or `_VXSE53_`. |
| `JmaFeedEvents.TsunamiOnlyLinkDropped` | internal/jmafeed/event.go:42 | A tsunami-only link contributes nothing here, while the controller copy keeps its ID. |
| `Detail.CheckFindings` | server/controller/detail.go:95-109 | The two loops over the findings decide exactly the policy verdict, for either way of recognising a kind (type assertion or `errors.As`). Errors block unless forced; then warnings block unless forced or ignored; other errors never block. |
| `Detail.ExactSeesLess` | server/controller/detail.go:50-57 | The tsunami loops' type assertion recognises exactly a bare validation error or warning, and whatever it recognises `errors.As` recognises too. |
| `Detail.WrappedErrorBlocksOnlyQuake` | server/controller/detail.go:95-101 | A wrapped validation error, next to an unrelated error, is passed by the tsunami loops and blocks the quake loops under the source's switches. |
| `Detail.ForceNeverBlocks` | server/controller/detail.go:98 | With `force`, every set of findings is accepted. |
| `Detail.IgnoreWarningBlocksOnlyErrors` | server/controller/detail.go:103-109 | Without `force` but with `ignoreWarning`, the findings are accepted iff there is no error, and warnings never block. |
| `Detail.SourcePolicyAcceptsOnlyUnflagged` | server/controller/detail.go:18-19 | With both switches false, the findings are accepted iff the loops recognise none of them as a validation error or warning; any bare validation error or warning blocks. |
| `Detail.GetEventDetailsJson` | server/controller/detail.go:21-122 | The method's outcome is the request function `EventDetails` of its inputs. |
| `Detail.OnlyReportUrlFetched` | server/controller/detail.go:22-27 | Only the URL base + ID + `.xml` is fetched, with the fixture base in debug mode. Fetchers that agree on it give the same outcome. |
| `Detail.FeedLinkFetchedAsIs` | server/controller/detail.go:17 | Outside debug mode, the ID extracted from a data link is fetched from that very link. |
| `Detail.EarlyFailuresReturned` | server/controller/detail.go:27-38 | A fetch failure, then a decode failure, is returned as an error before any dispatch. |
| `Detail.TsunamiTokenWins` | server/controller/detail.go:40-70 | An ID with `_VTSE41` takes the tsunami path whatever else it contains. After a decode it is served or aborts, and never returns an error. |
| `Detail.EarlyWarningUnvalidated` | server/controller/detail.go:71-85 | An early-warning ID is converted without validation: validators and policy are irrelevant, and it never aborts. |
| `Detail.QuakeFindingsPolicy` | server/controller/detail.go:86-118 | On the quake path, blocking errors or warnings are returned as an error carrying the findings, and `force` never returns an error. A served JSON is the encoder's output. |
| `Detail.TsunamiFindingsPolicy` | server/controller/detail.go:40-66 | On the tsunami path, a conversion failure, blocking errors and then blocking warnings each end the process. With `force`, the request is served or aborts only in JSON encoding. |
| `Detail.SourcePolicyServesOnlyClean` | server/controller/detail.go:49-61 | With the source's switches, a served tsunami record had no bare validation error or warning among its findings, and a served quake record none that is or wraps one. |
| `Geo.FloorIndex` | server/geo/jma.go:124-128 | Reference for "nearest city-level code": the index of the last code `<=` the input, or -1. Every later code is above the input. |
| `Geo.FloorIsGreatestAtMost` | server/geo/jma.go:124-128 | In an ascending list, the reference index is -1 iff every code is above the input. Otherwise it holds the greatest code not above it. |
| `Geo.LocalCodeToCityCode` | server/geo/jma.go:129-149 | The binary search as written equals `CityCodeAsWritten` case by case. It panics on an empty list, and on a code below the first when there are at most two codes. Inside the range it returns the floor; from the last code up, the second-to-last. |
| `Geo.ListedCodeKept` | server/geo/jma.go:124-127 | A city-level code other than the last comes back unchanged. |
| `Geo.LastCityCodeMisses` | server/geo/jma.go:129-149 | As written, the last city-level code maps to the code before it. |
| `Geo.NearestKeepsListedCode` | server/geo/jma.go:124-127 | With the intended search, every listed code, the last included, maps to itself. |
| `Geo.AsWrittenAgreesInRange` | server/geo/jma.go:129-149 | Between the first and the last code, the search as written agrees with the intended result. |
| `Geo.CityCode` | server/geo/jma.go:124-149 | Corrected search: it returns exactly the nearest city-level code not above the input, or none. |
| `Geo.LookupString` | server/geo/jma.go:151-161 | The string stored under class, code and field is returned, or "" when any step is missing or not a string. |
| `Geo.ForecastCode` | server/geo/jma.go:190-198 | The code changes iff the office is 014030 or 460040. The result is never one of those two, so the override is idempotent. |
| `Geo.CityOfLocalCode` | server/geo/jma.go:181-209 | A panic of the search is passed on. Otherwise the result is the city record of the code found. |
| `Geo.CityChain` | server/geo/jma.go:184-188 | class20s is the city code with "00" appended, and each level is the parent entry of the level below. In a table without empty codes, a missing level empties every level above it and the forecast code. |
| `Geo.MissingOfficeEmptiesForecast` | server/geo/jma.go:184-202 | A city with no class20s parent gets empty class10s, offices, centers, forecast code and prefecture name. |
| `Color.QuakeScaleColor` | src/color.ts:1-14 | Each of the seven colours is returned for exactly its listed codes (45/50 share one, 55/60 another). Grey is returned iff the scale is not a listed code. |
| `Color.QuakeScaleColorText` | src/color.ts:16-18 | The text is "black" iff the scale is at most 40, otherwise "white". |
| `Color.ScaleCodesOrdered` | src/color.ts:2-11 | The scale codes rise strictly with the intensity level, and the listed codes are exactly the nine levels' codes. |
| `Color.EveryLevelColoured` | src/color.ts:2-12 | No intensity level is drawn grey. |
| `Color.SharedColours` | src/color.ts:7-10 | Two distinct levels share a colour iff they are the two halves of intensity 5 or of intensity 6. |
| `Color.TextColourByLevel` | src/color.ts:17 | Levels up to intensity 4 get black text; from 5-lower up, white. |
| `Color.TextColourByFill` | src/color.ts:1-18 | Among the listed codes, text is black exactly on the four lightest fills. |

## Left out

- Network access is not modelled: `feed.FetchFeed`, `feed.FetchEventData`, the geocoder call `latLonToLocalCode` and the area-table download in `init`. Feed results and fetched bytes are inputs; only the URL concatenation of server/feed/fetch.go:41 is modelled.
- XML, RSS and JSON decoding and encoding are not modelled. The same goes for the converters (`Vtse2Epsp`, `Vxse2EpspEEW`, `Vxse2EpspQuake`) and the validators, whose code is not part of this model. They are function-valued parameters (`Detail.Collaborators`), and the area table is a nested map.
- The error of `io.ReadAll` is ignored by the source. The fetch parameter returns the bytes directly.
- The log lines (`fmt.Printf`, `log.Printf`) are not modelled. The messages of returned errors are not modelled either; errors carry their cause instead.
- A nil versus an empty slice: no feed items gives an empty list here, which the source returns as a nil slice.
- The unreachable `return nil, nil` after the three branches of `GetEventDetailsJson` is not modelled.
- The HTTP handlers (api/) and `main` are not modelled.
- Detail.Finding: a wrap chain is a single chain; errors joined with `errors.Join` (several wrapped errors) and pointer-typed validation errors are not modelled, and messages are not matched.
- The area-table dereference when `init` failed is not modelled: the table is always present here.
- Non-string JSON values in the area table are not modelled; `JOther` stands for all of them.
- The embedded list of city codes is not modelled. The search takes any list given as a parameter, required to be strictly ascending.
- Latitude and longitude are not modelled (floating point): `CityOfLocalCode` starts from the municipal code.
- Color.QuakeScaleColor: a TypeScript number is a `real` here. NaN and the infinities are not modelled.

## Findings

| source | as written | input that shows it | evidently intended | confidence | as-written member | corrected member |
|---|---|---|---|---|---|---|
| server/controller/event.go:45-52 (and internal/jmafeed/event.go:46-53) | `continue` only skips to the next collected ID, so the scan never prevents the append | a report linked in both the real-time and the long-term feed | an ID already collected is not appended again | high (not executed) | `EventIds.DuplicateIdKept` | `EventIds.CollectEventsDedup` |
| server/geo/jma.go:129-149 | the search never probes the last position, and from the last code up it returns the second-to-last code | the list's last city code, e.g. codes `["01100", "01202", "47382"]` and the input `47382` gives `01202` | a city-level code comes back unchanged, as the function's comment says | medium (not executed) | `Geo.LastCityCodeMisses` | `Geo.CityCode` |
