# housing-prices-fi: PX-Web extraction, modelled in Dafny

This project models the extraction core of housing-prices-fi, a client of Statistics Finland's
PX-Web API that fetches housing prices per postal code. The core has these parts:

- **Query building.** The default query selects every value of every metadata variable. The
  configuration query covers the four axes year (`Vuosi`), postal code (`Postinumero`), building
  type (`Talotyyppi`) and metric (`Tiedot`). The latest-data query selects the `top` N values of
  time variables.
- **Validation.** A caller's configuration is restricted to the values the dataset declares.
- **Batching.** Postal codes are split into batches of at most `batchSize` codes. The caller
  chooses `batchSize`, and the TypeScript signature defaults it to 30.
- **Batched extraction.** One POST is made per batch, with a 500 ms pause between consecutive
  requests, and failed batches are skipped.
- **Postal-code configuration.** This covers the municipality tables, the sorted municipality
  and postal-code lists, the capital-region (PKS) list, and the year range starting at 2018.
- **Kotlin client.** Its `extract` uses a fixed test query and accepts only status 200. Its
  metadata source rewrites PX-Web page URLs into API URLs and reads the metadata JSON.

The network is a parameter. An `Http.Endpoint` maps an API URL and a POSTed query to a response,
which is either a status with a body or a transport failure. Each client's success test is
modelled explicitly:
- the TypeScript `fetch` client accepts any 2xx status (`response.ok`);
- the Kotlin client accepts 200 only.

A batched run returns its results together with a trace of the POSTs and pauses it performs, in
order.

Modules, one per file:
- `Wrappers`: `Option` and `Result`.
- `Sequences`: flattening and subsequences.
- `Text`: `trimEnd`, `contains` and `replace` on strings.
- `Decimal`: decimal rendering of integers.
- `StringOrder`: JavaScript's default string sort.
- `Models`: the data model.
- `Json`: JSON values and the kotlinx primitive accessors.
- `PostalCodes`: the configuration tables.
- `Queries`: the query builders shared by both clients.
- `QueryJson`: the request body's JSON shape.
- `Http`: the `executeQuery` status rules.
- `Extraction`: the TypeScript `DatasetExtractor`.
- `KotlinExtraction`: the Kotlin `DatasetExtractor`.
- `PxWebSource`: the Kotlin `PxWebDatasetSource`.

Behaviour of the code worth knowing:
- `buildLatestDataQuery` renders any `topN`, including zero and negative values. Nothing
  rejects them.
- `extractBatched` does not check its batch size. For a batch size of 0 or less and at least one
  validated postal code, the source's `chunk` loop never ends. The model therefore requires a
  positive batch size unless there is no validated postal code. An empty list is fine with any
  size.
- The TypeScript `executeQuery` succeeds on any 2xx status, not only on 200. The Kotlin client
  accepts only 200.
- The Kotlin `extract` sends the fixed test query (year 2024, postal code 00400, building types
  1/2/3/5, both metrics), not the all-values default query.
- A variable's `elimination` and `time` flags are optional booleans (`Option<bool>`). The Kotlin
  `Variable` constructor defaults them to `false` (app/src/main/kotlin/model/Models.kt:26-27), but `parseVariable`
  always passes them explicitly, so a flag that is missing or not a boolean is absent (`None`),
  not `false`. The query builders treat absent and `false` alike.
- `QueryConfig` is not defined in `src/model/Models.ts`. Its shape is taken from its uses in
  `DatasetExtractor.ts`: postal codes, years, optional building types and optional metrics.

## Model

| member | source | states |
|---|---|---|
| Text.TrimEnd | app/src/main/kotlin/source/PxWebDatasetSource.kt:52 | The trimmed URL is a prefix of the input, does not end in '/', and everything dropped was '/' |
| Text.ReplaceAllPresent | app/src/main/kotlin/source/PxWebDatasetSource.kt:60 | When the pattern occurs, the rewritten string contains the replacement |
| Text.ReplaceAllAbsent | app/src/main/kotlin/source/PxWebDatasetSource.kt:60 | When the pattern does not occur, `replace` leaves the string unchanged |
| Text.ReplaceAllKeepsLast | app/src/main/kotlin/source/PxWebDatasetSource.kt:60 | A string whose last character differs from the pattern's last character keeps that last character after `replace` |
| Text.FirstOccurrence | app/src/main/kotlin/source/PxWebDatasetSource.kt:55 | Finds nothing exactly when the pattern does not occur; otherwise a position where the pattern fits and occurs, with no earlier occurrence (`FirstAt`) |
| Text.FirstAtMeans | app/src/main/kotlin/source/PxWebDatasetSource.kt:55 | `FirstAt(s, p, k)` holds iff `p` starts at position `k` of `s` and at no position before `k` |
| Text.FirstAtIsFirstOccurrence | app/src/main/kotlin/source/PxWebDatasetSource.kt:55 | The position `FirstAt` names is the one `FirstOccurrence` returns, so it is unique |
| Text.ReplaceAllSplit | app/src/main/kotlin/source/PxWebDatasetSource.kt:60 | `replace` keeps the text before the first occurrence, writes the replacement in its place, and continues on the rest after it |
| Text.ReplaceAllAtFirst | app/src/main/kotlin/source/PxWebDatasetSource.kt:60 | The same split at the position `FirstOccurrence` finds, for any string that holds the pattern |
| PxWebSource.ConvertToApiUrl | app/src/main/kotlin/source/PxWebDatasetSource.kt:50-61 | The API URL never ends in '/'. A URL already holding "/api/v1/", or holding no "/PXWeb/pxweb/", comes back only trimmed. Any other URL comes back holding "/api/v1/": its text up to the first "/PXWeb/pxweb/" is kept, that occurrence becomes "/PXWeb/api/v1/", and the rest of the URL is rewritten the same way |
| PxWebSource.RewriteFacts | app/src/main/kotlin/source/PxWebDatasetSource.kt:59-60 | Rewriting "/PXWeb/pxweb/" to "/PXWeb/api/v1/" keeps the URL free of a trailing '/', leaves a URL without the page path unchanged, makes any other URL an API URL, and rewrites it at the first occurrence |
| PxWebSource.ContainsWithin | app/src/main/kotlin/source/PxWebDatasetSource.kt:55 | A URL holding "/PXWeb/api/v1/" passes the "/api/v1/" check |
| PxWebSource.ConvertToApiUrlIdempotent | app/src/main/kotlin/source/PxWebDatasetSource.kt:50-61 | Converting an already converted URL changes nothing |
| PxWebSource.PrimitiveContent | app/src/main/kotlin/source/PxWebDatasetSource.kt:92 | `jsonPrimitive.content` succeeds exactly when the value is neither an array nor an object. JSON null reads as "null", a boolean as "true" or "false", a number as its literal and a string as its text; an array or object fails naming the field |
| PxWebSource.Contents | app/src/main/kotlin/source/PxWebDatasetSource.kt:95-101 | Mapping `jsonPrimitive.content` over an array succeeds iff every element is a primitive; the result keeps length, order and each element's content |
| PxWebSource.ParseVariable | app/src/main/kotlin/source/PxWebDatasetSource.kt:91-114 | Parsing succeeds iff the element is an object whose code and text are primitives when present, whose values and valueTexts are arrays of primitives when present, and whose flags are primitives when present. On success, code and text default to "" and are otherwise read from their content; values and valueTexts default to empty and are otherwise the elements' contents in order; the flags are absent when missing and otherwise go through `booleanOrNull` |
| PxWebSource.ParseVariables | app/src/main/kotlin/source/PxWebDatasetSource.kt:75-77 | The variables list parses iff every element parses, and keeps the elements' order |
| PxWebSource.ParseMetadata | app/src/main/kotlin/source/PxWebDatasetSource.kt:66-86 | Parsing succeeds iff the document is an object whose title, source, updated and description are primitives when present, and whose variable list, when present, is an array of parsable variables. On success the title defaults to "Unknown" and is otherwise its content. Source, updated and description are absent when missing or JSON null, and otherwise their content. The variables default to none and are otherwise each element's parse, in order |
| PxWebSource.NullTitleIsText | app/src/main/kotlin/source/PxWebDatasetSource.kt:70-71 | A JSON-null title reads as the text "null", not "Unknown", while a JSON-null source reads as absent |
| PxWebSource.VariableRoundTrip | app/src/main/kotlin/source/PxWebDatasetSource.kt:91-114 | Parsing the API document of any variable gives that variable back |
| PxWebSource.MetadataRoundTrip | app/src/main/kotlin/source/PxWebDatasetSource.kt:66-114 | Parsing the API document of any metadata value gives that value back, so the defaulting rules lose nothing |
| Json.BooleanOrNull | app/src/main/kotlin/source/PxWebDatasetSource.kt:103-104 | A flag is true or false exactly when its content spells "true" or "false" in any letter case; otherwise it is absent |
| PxWebSource.BooleanRoundTrip | app/src/main/kotlin/source/PxWebDatasetSource.kt:103-104 | The content of a JSON boolean reads back as that boolean |
| Decimal.NatToDecimal | src/config/postalCodes.ts:107 | `String(y)` of a natural number is non-empty, all digits and without a leading zero |
| Decimal.DecimalRoundTrip | src/config/postalCodes.ts:107 | Reading a rendered natural number back gives the number |
| Decimal.DecimalInjective | src/config/postalCodes.ts:107 | Different numbers render differently |
| Decimal.CanonicalUnique | src/config/postalCodes.ts:107 | A digit string without a leading zero is the rendering of its value, so no other spelling such as "02018" is canonical |
| Decimal.IntToString | src/extractor/DatasetExtractor.ts:247 | For `topN` below 10^21 in magnitude, `topN.toString()` of a non-negative number is canonical digits with that value. A negative number gets a leading '-' followed by canonical digits of its magnitude |
| StringOrder.LessEqTotal | src/config/postalCodes.ts:79 | The default sort's string order compares any two strings |
| StringOrder.LessEqTransitive | src/config/postalCodes.ts:79 | The default sort's string order is transitive |
| StringOrder.LessEqAntisymmetric | src/config/postalCodes.ts:79 | Two strings ordered both ways are equal |
| StringOrder.Sort | src/config/postalCodes.ts:79-82 | `sort()` returns a sorted permutation of its input |
| StringOrder.SortedPermutationUnique | src/config/postalCodes.ts:79-82 | Two sorted permutations of the same list are equal, so the result does not depend on the sorting algorithm |
| PostalCodes.MunicipalityCodesMatchTable | src/config/postalCodes.ts:8-76 | The code table and the postal-code table name the same eight municipalities in the same order, and no code is used twice |
| PostalCodes.Municipalities | src/config/postalCodes.ts:79 | `MUNICIPALITIES` is sorted and a permutation of the table's municipality names |
| PostalCodes.MunicipalitiesSpelledOut | src/config/postalCodes.ts:79 | `MUNICIPALITIES` is Espoo, Helsinki, Kangasala, Nokia, Pirkkala, Tampere, Vantaa, Ylöjärvi |
| PostalCodes.AllPostalCodes | src/config/postalCodes.ts:82 | `ALL_POSTAL_CODES` is sorted and a permutation of all municipalities' codes |
| PostalCodes.PksPostalCodes | src/config/postalCodes.ts:85-94 | The PKS list is the codes of the table's first three municipalities (Helsinki, Espoo, Vantaa), in table order |
| PostalCodes.PksAmongAll | src/config/postalCodes.ts:82-94 | Every PKS code is in `ALL_POSTAL_CODES` |
| PostalCodes.PrefixMembers | src/config/postalCodes.ts:82-94 | Every code of any leading part of the table survives flattening and sorting |
| PostalCodes.GenerateYearRange | src/config/postalCodes.ts:97-110 | One year per year from 2018 up to the current year, ascending; entry i is canonical digits with value 2018 + i, that is `String(2018 + i)`; none when the current year precedes 2018 |
| Queries.BuildDefaultQuery | src/extractor/DatasetExtractor.ts:180-193 | One `item` selection per metadata variable, in order, with that variable's code and all its values |
| Queries.DefaultQuerySelectsEveryValue | app/src/main/kotlin/extractor/DatasetExtractor.kt:63-78 | With distinct variable codes, the default query selects every value of each variable and mentions exactly the variables' codes |
| Queries.BuildConfigQuery | src/extractor/DatasetExtractor.ts:134-146 | Four `item` selections, for Vuosi, Postinumero, Talotyyppi and Tiedot in that order, with the requested format |
| Queries.AxisCodesDistinct | src/extractor/DatasetExtractor.ts:139-142 | The four axis codes are pairwise different |
| Queries.ConfigQueryAxes | src/extractor/DatasetExtractor.ts:135-142 | The configuration query selects the years and postal codes as given, and the building types and metrics as given or else the defaults |
| Queries.BuildLatestDataQuery | src/extractor/DatasetExtractor.ts:235-266 | Same codes as the default query. A time variable gets a `top` selection of the one value `topN`; every other variable gets its default selection |
| Queries.LatestSelectionByTimeFlag | app/src/main/kotlin/extractor/DatasetExtractor.kt:160-179 | A variable whose time flag is unset or false gets all its values. For a non-negative `topN`, a time variable gets `top` with one value, the canonical digits of `topN` |
| Queries.LatestWithoutTimeIsDefault | src/extractor/DatasetExtractor.ts:240-260 | For metadata without time variables, the latest-data query is the default query |
| QueryJson.QueryRoundTrip | src/extractor/DatasetExtractor.ts:204 | The JSON request body, with keys query, response, code, selection, filter, values and format, decodes back to the query |
| QueryJson.SelectionRoundTrip | app/src/main/kotlin/extractor/DatasetExtractor.kt:130 | A serialised variable selection decodes back to itself |
| Http.ExecuteQuery | src/extractor/DatasetExtractor.ts:198-230 | Success iff a response arrives with an accepted status. The result then carries the body, the requested format and the unchanged metadata; a rejected status gives an error with that status and body |
| Http.Exactly200Narrower | app/src/main/kotlin/extractor/DatasetExtractor.kt:141-143 | Whatever the Kotlin rule accepts, the TypeScript rule accepts with the same result; a 204 separates the two |
| Extraction.FindVariable | src/extractor/DatasetExtractor.ts:97-99 | `find` returns the first variable with the code, or nothing exactly when no variable has it |
| Extraction.KeepDeclared | src/extractor/DatasetExtractor.ts:102 | `filter(includes)` keeps, in order and with multiplicity, exactly the requested codes that are declared |
| Extraction.RestrictionIsKeepDeclared | src/extractor/DatasetExtractor.ts:101-112 | Any in-order selection with those counts is the filter's result, so the restriction is unique |
| Extraction.ValidateConfig | src/extractor/DatasetExtractor.ts:96-129 | Postal codes, years and building types (defaulted first) are restricted to the first matching variable's values, or left as they are without one. Metrics are unchanged, and the dropped counts are the non-negative length differences |
| Extraction.ValidationDropsUnknownCode | src/extractor/DatasetExtractor.ts:101-114 | With declared codes 00100 and 00200, a request for 00100 and 00999 keeps 00100 and drops one |
| Extraction.Chunk | src/extractor/DatasetExtractor.ts:148-154 | Each batch holds 1 to `size` items, and all but the last hold exactly `size` |
| Extraction.ChunkFlatten | src/extractor/DatasetExtractor.ts:148-154 | The batches concatenate to the input |
| Extraction.ChunkCount | src/extractor/DatasetExtractor.ts:148-154 | The number of batches is the input length divided by `size`, rounded up |
| Extraction.ChunkSlices | src/extractor/DatasetExtractor.ts:150-151 | Batch i is the slice from i·size to min(i·size + size, length) |
| Extraction.ChunkSixtyFive | src/extractor/DatasetExtractor.ts:55 | 65 postal codes at the default batch size of 30 give three batches of 30, 30 and 5 |
| Extraction.Successes | src/extractor/DatasetExtractor.ts:74-81 | The kept results are exactly the successful outcomes, never more than there were batches, and all of them when no batch failed |
| Extraction.SuccessesOne | src/extractor/DatasetExtractor.ts:74-81 | One batch contributes its dataset when it succeeds and nothing when it fails |
| Extraction.SuccessesSnoc | src/extractor/DatasetExtractor.ts:74-81 | One more batch appends its dataset, if it succeeded, after the results so far |
| Extraction.SuccessesAppend | src/extractor/DatasetExtractor.ts:65-81 | The results of two runs of batches in sequence are the first run's results followed by the second's, so order and multiplicity are kept |
| Extraction.MiddleBatchFails | src/extractor/DatasetExtractor.ts:74-81 | When the second of three batches fails, the results are the first and the third, in order |
| Extraction.RunIsSchedule | src/extractor/DatasetExtractor.ts:65-87 | Issuing the requests one by one yields a POST at every even position and a 500 ms pause at every odd one, with none after the last POST |
| Extraction.RunBatches | src/extractor/DatasetExtractor.ts:65-87 | The loop POSTs every query in order and pauses only between consecutive requests. It returns the successful results of the per-query outcomes, in order and with multiplicity (`SuccessesAppend`) |
| Extraction.ExtractBatched | src/extractor/DatasetExtractor.ts:51-91 | Validates, batches and runs one configuration query per batch. Every result carries the requested format and the metadata |
| Extraction.ScheduleCounts | src/extractor/DatasetExtractor.ts:84-86 | Request i is at position 2i, a pause follows every request but the last, and no validated postal code means no request |
| Extraction.BatchQueriesPartitionPostalCodes | src/extractor/DatasetExtractor.ts:60-72 | Across the batch queries, the postal-code selections concatenate to the validated postal codes; each query carries the validated years and building types and the given or default metrics |
| Extraction.Extract | src/extractor/DatasetExtractor.ts:32-45 | One default-query request; success iff a 2xx response arrives, with the body, format and metadata |
| KotlinExtraction.BuildTestQuery | app/src/main/kotlin/extractor/DatasetExtractor.kt:82-119 | The test query has the four axes in configuration order and the requested format |
| KotlinExtraction.TestQueryIsConfigQuery | app/src/main/kotlin/extractor/DatasetExtractor.kt:82-119 | The test query is the configuration query for year 2024 and postal code 00400 with default building types and metrics, whatever the metadata |
| KotlinExtraction.Extract | app/src/main/kotlin/extractor/DatasetExtractor.kt:32-41 | One test-query request; success iff status 200 arrives, with the body, format and metadata; any other status is an error carrying it |
| KotlinExtraction.ExtractIgnoresMetadata | app/src/main/kotlin/extractor/DatasetExtractor.kt:37-40 | Success and returned data do not depend on the metadata; only the attached metadata differs |

## Left out

- HTTP transport, redirects, headers and timeouts are left out. The endpoint is a parameter, and
  it is assumed to answer the same (URL, query) pair the same way every time.
- JSON text is not modelled. Serialising queries with `JSON.stringify`/`encodeToString`, and
  parsing metadata text with `parseToJsonElement` and kotlinx's lenient mode, are below the level
  of the JSON value tree.
- The pause itself (`delay`, `setTimeout`) is left out. Only its place and length in the request
  trace are modelled.
- Logging with pino and the log messages of `validateConfig` and `extractBatched` are left out.
  The counts of dropped postal codes and years are modelled as values.
- `extractWithQuery`, in both clients, is `executeQuery` with the caller's query, which is
  `Http.ExecuteQuery` here.
- `fetchMetadata` is left out because it is an HTTP GET. Its URL is `PxWebSource.ConvertToApiUrl`
  and its body parser is `PxWebSource.ParseMetadata`.
- `DEFAULT_YEARS` reads the clock. `PostalCodes.GenerateYearRange` takes the current year as a
  parameter instead.
- Extraction.Chunk: the batch size is an integer. Fractional and NaN sizes are not modelled: with
  JavaScript's truncating `slice`, `chunk(arr, 2.5)` alternates batches of 2 and 3, and a NaN size
  gives one empty batch for a non-empty input.
- Default arguments are not modelled: `batchSize = 30`, `format = 'json-stat2'` and `topN = 1`.
  Every model operation takes these values from its caller.
- Queries.BuildLatestDataQuery: `topN` is an integer below 10^21 in magnitude. JavaScript writes
  larger numbers in exponent form (`"1e+21"`) and the model does not; fractional numbers are not
  modelled.
- Decimal.IntToString: plain digits are what JavaScript's `toString` writes only below 10^21 in
  magnitude (and integers above 2^53 are not held exactly there). Kotlin's `Int.toString` always
  writes plain digits.
- Json.BooleanOrNull: letter case is folded for ASCII only. Kotlin's `equals(ignoreCase = true)`
  also folds other letters, for example the long s.
- StringOrder.LessEq: characters compare by code point. This equals JavaScript's UTF-16
  code-unit order for characters of the Basic Multilingual Plane, which every municipality name
  and postal code uses.
- The command-line entry points, the database and HTTP API routes, the transformer, the frontend
  and the `DatasetSource` interfaces are not part of this model.
