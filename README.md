# QC requests and quality checks of the OneRoot field app

The field app is used by inspectors who visit coconut farms. This project
models, in Dafny, the part of the app that handles quality checks (QCs).

- **The QC tab of the home page** (`QcListing`). It lists the
  `qc_requests` documents that have the status chosen in its select. It
  attaches to each request the `crops` and `users` documents the request
  names. Two refs decide when the list is queried again.
- **The QC request grid** (`QcGrid`). It covers what every column shows
  for a request row, when the "create QC" button is disabled, and the label
  and palette key of the status chip.
- **The QC form's schema and initial values** (`QcForm`). Every field has
  one rule. The failing fields are reported in schema order.
- **The form's submit handler** (`QcSubmit`). From the form values and
  the request it builds the QC document. The request is marked
  "completed" first, and then the QC is added to `qcs` under its generated
  key. The class `QcStore` holds the two collections the handler writes.
  Its invariant is that every stored QC names itself and a request that is
  already completed.
- **Shared helpers** (`Utils`): `capitalizeString`, the naming and result
  filtering of `uploadImagesHandler`, and `isApiResponse`/`isRTKResponse`.

Three support modules hold what these depend on:

- `JsValues` has JavaScript values: truthiness, `typeof`, property access
  and optional chaining. Every Firestore document and grid row is a
  `map<string, Json>`.
- `JsStrings` has the string built-ins: case mapping, `trim`, `split`,
  `join`, the `/\s+/g` replacement, and decimal writing of integers.
- `CivilDate` has the calendar and the `YYYY-MM-DD` format. The handler
  uses it to normalise dates and to add seven days.

The operations that change state are methods on two classes:

- `QcTab` holds the rows, the selected status and the two refs.
- `QcStore` holds `qc_requests` and `qcs`.

Everything else consists of functions, with lemmas that relate them.

## Model

| member | source | states |
|---|---|---|
| QcForm.RuleOf | src/components/forms/qc/create.js:46-159 | the flags are exactly the three boolean fields, the zero-allowing amounts exactly the hard-shell and chute percentages, and the required texts exactly the three dates and the crop list |
| QcForm.ValueOf | src/components/forms/qc/create.js:46-159 | every field of the form holds a value of the kind its schema rule checks (select, text, number, boolean) |
| QcForm.ChoiceOk | src/components/forms/qc/create.js:47-51 | a required select passes exactly when it holds a non-empty string; `null` and `""` fail |
| QcForm.TextOk | src/components/forms/qc/create.js:52-53 | a required text field fails exactly when it is empty |
| QcForm.NonZeroAmountOk | src/components/forms/qc/create.js:54-58 | a count that must be non-zero passes exactly for strictly positive numbers; zero, negatives and NaN fail |
| QcForm.NonNegativeAmountOk | src/components/forms/qc/create.js:134-140 | a percentage that may be zero passes exactly for numbers that are at least 0; NaN and negatives fail |
| QcForm.FieldOk | src/components/forms/qc/create.js:46-159 | per rule kind, when a field passes, stated in terms of its value; booleans always pass |
| QcForm.FailingAmong | src/components/forms/qc/create.js:46-159 | a field is listed exactly when it is among those checked and fails, and the list is no longer than the checked fields |
| QcForm.Errors | src/components/forms/qc/create.js:46-159 | a field is among the errors exactly when it fails its rule |
| QcForm.Valid | src/components/forms/qc/create.js:195 | the form is accepted exactly when every field passes |
| QcForm.DefaultDraft | src/components/forms/qc/create.js:161-185 | the three dates are today's date formatted, the crop list is empty, no select has a value, every amount is 0 and every flag is false |
| QcForm.DefaultFieldOk | src/components/forms/qc/create.js:161-185 | with the initial values, a field fails exactly when it is a select, a non-zero amount, or the crop list |
| QcForm.DefaultDraftErrors | src/components/forms/qc/create.js:161-185 | the initial values are rejected, with the inspector and the tree height among the errors, and the errors are exactly those fields |
| CivilDate.NextDay | src/components/forms/qc/create.js:234 | the next day is a valid date whose day number is one more |
| CivilDate.AddDays | src/components/forms/qc/create.js:234 | adding n days gives a valid date n day numbers later |
| CivilDate.DayNumberInjective | src/components/forms/qc/create.js:234 | distinct valid dates have distinct day numbers, so the date n days later is unique |
| CivilDate.FormatIso | src/components/forms/qc/create.js:163 | a formatted date is at least ten characters long |
| CivilDate.ParseIso | src/components/forms/qc/create.js:224-226 | a parsed date is valid and lies in the years 100 to 9999; the year written 0000 to 0099 is read as 1900 to 1999, as JavaScript's `Date` constructor does |
| CivilDate.ParseFormatted | src/components/forms/qc/create.js:224-226 | formatting a date of the years 100 to 9999 and then parsing it gives the date back |
| CivilDate.FormattedParse | src/components/forms/qc/create.js:224-226 | text that parses, with a year written 0100 or later, is the formatting of the date it names (the other round trip) |
| CivilDate.NormalizeDate | src/components/forms/qc/create.js:224-226 | text that parses is rewritten as text naming the same date, and kept unchanged when its year is written 0100 or later; text that does not parse becomes "Invalid Date" |
| CivilDate.ExpirationDate | src/components/forms/qc/create.js:234 | the expiration is the formatting of a valid date seven day numbers after the parsed inspection date; text that does not parse gives "Invalid Date" |
| CivilDate.ExpirationOfFormatted | src/components/forms/qc/create.js:234 | the expiration of a formatted date of the years 100 to 9999 is the formatted date seven days later |
| CivilDate.FormatExamples | src/components/forms/qc/create.js:163 | 1 May 2024 is written "2024-05-01" and 8 May 2024 is written "2024-05-08" |
| CivilDate.ExpirationExample | src/components/forms/qc/create.js:234 | "2024-05-01" expires on "2024-05-08"; empty text gives "Invalid Date" |
| CivilDate.TwoDigitYearExample | src/components/forms/qc/create.js:224-234 | "0050-03-01" is stored as "1950-03-01" and expires on "1950-03-08" |
| JsStrings.Trim | src/components/forms/qc/create.js:229 | the trimmed text is a contiguous part of the input, what is cut off is white space, and it neither starts nor ends with white space |
| JsStrings.TrimStart | src/components/forms/qc/create.js:229 | the result is a suffix of the input, the dropped prefix is white space, and the result does not start with white space |
| JsStrings.TrimEnd | src/components/forms/qc/create.js:229 | the result is a prefix of the input, the dropped suffix is white space, and the result does not end with white space |
| JsStrings.TrimKeepsCharacters | src/components/forms/qc/create.js:229 | every character of the trimmed text occurs in the input |
| JsStrings.SplitOn | src/components/forms/qc/create.js:227-228 | there is one more piece than there are separators, and no piece contains the separator |
| JsStrings.SplitJoin | src/components/forms/qc/create.js:227-228 | joining the pieces with the separator gives back the input |
| JsStrings.SplitWithoutSeparator | src/utils/index.js:36 | text without the separator splits into itself alone |
| JsStrings.SplitLastAfterSeparator | src/utils/index.js:36 | the last piece of `a + sep + b` is the last piece of `b`, whatever `a` is |
| JsStrings.ToUpperCase | src/components/grids/qc/index.js:57 | the result has the same length, maps each character to upper case, and holds no lower-case ASCII letter |
| JsStrings.ToLowerCase | src/components/grids/qc/index.js:65 | the result has the same length, maps each character to lower case, and holds no upper-case ASCII letter |
| JsStrings.CollapseSpaces | src/components/grids/qc/index.js:65 | the result holds no white space, is no longer than the input, and text without white space is unchanged |
| JsStrings.CollapseWord | src/components/grids/qc/index.js:65 | text without white space in front is kept as it is |
| JsStrings.CollapseSpaceRun | src/components/grids/qc/index.js:65 | a maximal run of white space becomes exactly one "-"; together with CollapseWord this fixes the result for every input |
| JsStrings.DecimalString | src/utils/index.js:38 | the digits denote the number and have no leading zero |
| JsStrings.PadNumber | src/components/forms/qc/create.js:224 | the padded digits denote the number and are as wide as requested, or wider when the number needs it |
| QcSubmit.CropList | src/components/forms/qc/create.js:227-229 | there is one crop entry per comma-separated piece, empty pieces included |
| QcSubmit.CropListPiece | src/components/forms/qc/create.js:227-229 | each entry is the trimmed piece at its position, holds no comma, and has no surrounding white space |
| QcSubmit.CropListJson | src/components/forms/qc/create.js:227-229 | the stored array holds the crop names in order, as strings |
| QcSubmit.CopiedFormValues | src/components/forms/qc/create.js:207-214 | no form value copied through `...rest` is `undefined` |
| QcSubmit.QcPayload | src/components/forms/qc/create.js:222-238 | the payload's keys are the copied form keys plus the computed ones |
| QcSubmit.AssembleFields | src/components/forms/qc/create.js:222-238 | the document literal holds each computed field with the value the handler gives it |
| QcSubmit.AssembleKeys | src/components/forms/qc/create.js:222-238 | the literal's keys are the copied keys plus the computed ones, and a copied value survives unless a computed field overrides it |
| QcSubmit.AssembleDefined | src/components/forms/qc/create.js:222-238 | the literal has no `undefined` field unless the crop or request reference is `undefined` |
| QcSubmit.PayloadLinks | src/components/forms/qc/create.js:222-238 | the payload has a null id, the request's crop and id as links, the location, the normalised date, the expiration date, and one crop per piece |
| QcSubmit.PayloadDates | src/components/forms/qc/create.js:224-234 | a canonical inspection date is stored unchanged and expires exactly seven calendar days later |
| QcSubmit.PayloadUndefinedOnlyWithoutCrop | src/components/forms/qc/create.js:236-240 | the store refuses the payload exactly when the request has no `cropId` |
| QcSubmit.QcRecord | src/components/forms/qc/create.js:240-244 | the stored QC has the payload's keys, and its own key as `id` |
| QcSubmit.QcRecordLinks | src/components/forms/qc/create.js:240-244 | the stored QC carries its own key as `id` and keeps its crop, its request and its expiration date |
| QcSubmit.RequestKey | src/components/forms/qc/create.js:216 | a document reference exists exactly when the row's `id` is a non-empty string, and it names that string |
| QcSubmit.MarkCompleted | src/components/forms/qc/create.js:218-220 | the request's status becomes "completed" and no other field changes |
| QcSubmit.CompletingKeepsConsistent | src/components/forms/qc/create.js:218-220 | completing a request keeps every stored QC linked to a completed request |
| QcSubmit.AddingRecordKeepsConsistent | src/components/forms/qc/create.js:240-244 | adding a QC that names itself and a completed request keeps the collections consistent |
| QcSubmit.QcStore.constructor | src/components/forms/qc/create.js:216-244 | the store starts with the given collections |
| QcSubmit.QcStore.Submit | src/components/forms/qc/create.js:201-258 | the outcome and both new collections are those `Submitted` gives (see the list below the table); consistency is kept |
| QcSubmit.QcStore.CompleteAndAdd | src/components/forms/qc/create.js:218-244 | the request is completed; the QC is refused when the payload has an `undefined` field, and otherwise stored under its new key with that key as `id`; consistency is kept |
| QcSubmit.QcStore.CompleteRequest | src/components/forms/qc/create.js:216-220 | exactly the one request is marked completed, the QCs are unchanged, and consistency is kept |
| QcSubmit.QcStore.AddRecord | src/components/forms/qc/create.js:240-244 | exactly the one QC is added, with its key patched in as `id`; requests are unchanged, and consistency is kept when its request is completed |
| QcSubmit.QcStore.HandleSubmit | src/components/forms/qc/create.js:195-262 | a draft the schema rejects is reported as its failing fields and writes nothing; a valid one has the outcome and new collections `Submitted` gives; a created QC belongs to a request that is now completed; consistency is kept |
| QcListing.Matching | src/components/tabs/home/qc.js:64-74 | an empty status returns the whole collection; otherwise a request is returned exactly when it has the status |
| QcListing.MatchingConcat | src/components/tabs/home/qc.js:70-74 | the query keeps the collection's order |
| QcListing.MatchingCounts | src/components/tabs/home/qc.js:70-74 | every matching copy of a request is returned, and nothing else |
| QcListing.AttachRelation | src/components/tabs/home/qc.js:87-110 | a falsy key leaves the row alone; a non-string key throws; otherwise the field holds the document or `null`, and the other fields are unchanged |
| QcListing.EnrichRow | src/components/tabs/home/qc.js:83-112 | the loop body throws exactly when `cropId` or `userId` is truthy and not a string |
| QcListing.EnrichRowFields | src/components/tabs/home/qc.js:83-112 | the enriched row keeps the stored fields, and has `crop`/`user` exactly when the key is truthy, each holding the document or `null` |
| QcListing.EnrichAll | src/components/tabs/home/qc.js:81-113 | one enriched row per request, in order; the loop aborts exactly when some lookup throws |
| QcListing.FetchedDetermined | src/components/tabs/home/qc.js:60-126 | the rows a fetch leaves are decided by the rows before, the store and the status |
| QcListing.Listed | src/components/tabs/home/qc.js:66-74 | the query result holds, in order, the stored document for each key |
| QcListing.CompletedRequestNotPending | src/components/forms/qc/create.js:218-220 | once the form completed a request, the "pending" query no longer returns it and the "completed" query does |
| QcListing.QcTab.constructor | src/components/tabs/home/qc.js:35-54 | no rows, the select on "pending", the load ref set, and the status ref on "pending" |
| QcListing.QcTab.FetchQCs | src/components/tabs/home/qc.js:60-126 | the new rows are those `Fetched` gives: unchanged after a failed query or lookup, empty for an empty result, otherwise the enriched matching requests in order; the select and refs are unchanged |
| QcListing.QcTab.MountEffect | src/components/tabs/home/qc.js:128-134 | on the first mount, fetches once with the rows `Fetched` gives and clears the load ref; later, the rows are unchanged |
| QcListing.QcTab.StatusEffect | src/components/tabs/home/qc.js:138-144 | after the mount, fetches exactly when the status differs from the last one fetched, leaving the rows `Fetched` gives, then records it; otherwise the rows are unchanged |
| QcListing.QcTab.Mount | src/components/tabs/home/qc.js:128-144 | a fresh tab fetches exactly once, with the rows `Fetched` gives; running the effects again on a mounted tab fetches nothing and keeps the rows |
| QcListing.QcTab.SelectStatus | src/components/tabs/home/qc.js:136-144 | choosing a different status fetches exactly once, with the rows `Fetched` gives for that status; choosing the same one fetches nothing and keeps the rows |
| QcListing.QcTab.Refetch | src/components/tabs/home/qc.js:56-58 | fetches once, leaving the rows `Fetched` gives, and leaves the select and refs as they were |
| QcGrid.OrNotAvailable | src/components/grids/qc/index.js:103 | the result is always truthy: the value when truthy, "N/A" otherwise |
| QcGrid.TextColumn | src/components/grids/qc/index.js:103-260 | a text column shows the crop's field when truthy, and "N/A" for a missing crop or a falsy field |
| QcGrid.TemplateColumn | src/components/grids/qc/index.js:152-159 | as written: the column always shows the template text and never "N/A" |
| QcGrid.TemplateColumnWithoutCrop | src/components/grids/qc/index.js:152-159 | a row without a crop shows "undefined years" and "undefined ft." |
| QcGrid.TemplateColumnIntended | src/components/grids/qc/index.js:152-159 | corrected: the value and its unit when the crop has one, "N/A" otherwise |
| QcGrid.JsToString | src/components/grids/qc/index.js:152-159 | a template literal writes a string as itself, `undefined` as "undefined", `null` as "null", booleans as "true"/"false", and an empty array as "" |
| QcGrid.JoinItems | src/components/grids/qc/index.js:226 | joining no items gives "", and one item gives that item's text |
| QcGrid.ElementTexts | src/components/grids/qc/index.js:226 | `join` writes one text per element |
| QcGrid.CropsAvailable | src/components/grids/qc/index.js:222-230 | an array is joined with ", ", another truthy value is shown as it is, and anything else is "N/A" |
| QcGrid.CropsAvailableOfNames | src/components/grids/qc/index.js:222-230 | an array of names shows exactly those names, in order, separated by ", " |
| QcGrid.YesNoColumn | src/components/grids/qc/index.js:237-246 | the column shows only "Yes" or "No", and "Yes" exactly when the crop's flag is truthy |
| QcGrid.TagsCellOf | src/components/grids/qc/index.js:291-308 | a non-empty tag array gives one chip per tag, in order, and anything else gives "N/A" |
| QcGrid.ActionDisabled | src/components/grids/qc/index.js:325 | the button is disabled exactly for completed and cancelled requests |
| QcGrid.CompletedRequestDisabled | src/components/grids/qc/index.js:325 | a request the form completed can no longer get a QC; a pending one can |
| QcGrid.StatusLabel | src/components/grids/qc/index.js:57 | the label is as long as the status, maps each character to upper case, and holds no lower-case letter |
| QcGrid.PaletteKey | src/components/grids/qc/index.js:64-66 | the key is "qc-" and the lower-cased status with white space collapsed: no white space or upper-case letter after "qc-", and at most as long as the status |
| QcGrid.PlainPaletteKey | src/components/grids/qc/index.js:64-66 | a status of lower-case letters gives the key "qc-" and the status |
| QcGrid.PendingPaletteKey | src/components/grids/qc/index.js:64-66 | the key of "pending" is "qc-pending" |
| QcGrid.WordsPaletteKey | src/components/grids/qc/index.js:64-66 | two words separated by any run of white space give "qc-", the first word lower-cased, "-", and the second word lower-cased; leading and trailing runs also become "-" |
| Utils.Capitalize | src/utils/index.js:95-96 | same length; the first character upper-cased and the rest unchanged |
| Utils.CapitalizeIdempotent | src/utils/index.js:95-96 | capitalising twice is capitalising once |
| Utils.Extension | src/utils/index.js:36 | the extension holds no dot |
| Utils.ExtensionOfPlainName | src/utils/index.js:36 | a name without a dot is its own extension |
| Utils.ExtensionAfterDot | src/utils/index.js:36 | the extension is the text after the last dot, whatever comes before |
| Utils.UploadName | src/utils/index.js:36-38 | the upload name starts with the file's name and "-", and has the same extension |
| Utils.ContentType | src/utils/index.js:43 | the content type is "image/" and then text without a dot |
| Utils.UploadRequests | src/utils/index.js:29-44 | no request when `files` is not an array; otherwise one per file, in order, with the file's extension and content type |
| Utils.Settled | src/utils/index.js:57-64 | the result is the body's `url` after status 200, and `undefined` after any other status or an exception |
| Utils.DropNull | src/utils/index.js:69 | no `null` is kept, and the result is no longer than the input |
| Utils.DropNullCounts | src/utils/index.js:69 | every non-null value is kept exactly as often as it occurs |
| Utils.DropNullConcat | src/utils/index.js:69 | the filter keeps the order of the results |
| Utils.UploadImages | src/utils/index.js:28-72 | no result without files; no `null` in the result; at most one result per file |
| Utils.FailedUploadKept | src/utils/index.js:57-69 | a failed upload stays in the result as `undefined` |
| Utils.UploadedUrlKept | src/utils/index.js:57-69 | the url of every successful upload is in the result |
| Utils.IsApiResponse | src/utils/index.js:98-105 | true exactly for an object whose `status` is a number |
| Utils.IsRTKResponse | src/utils/index.js:74-81 | true exactly for an object whose `status` is a number |
| Utils.ResponseChecksAgree | src/utils/index.js:74-105 | the two checks agree on every value |

`QcSubmit.Submitted` states what `QcSubmit.QcStore.Submit` does. It checks its conditions in this order:

1. If the location is unavailable, nothing is written.
2. If the request row has no usable `id`, or names no stored request,
   nothing is written.
3. Otherwise the request is marked completed, whatever happens next.
4. Without a `cropId` the QC is refused. With one, the QC record is stored
   under its new key.
5. In every case, consistency is kept.

## Left out

- Rendering (React, MUI, the loader, modals), toasts and console logging
  are not modelled. They do not affect stored data or the rows shown.
- The network and Firestore itself are not modelled. The collections are
  maps, and a query returns the documents in the order of a sequence. A
  store that cannot be reached is the `available` flag of `Store`.
- The calls run one after another: the asynchronous steps of a submission
  or a fetch are never interleaved.
- The device location is the parameter `Position`. The key the store
  generates for a new QC is the parameter `newId`, assumed unused.
- The clock reading is a parameter: `today` for the form's initial values,
  and one stamp per file for uploads. `Date.now()` and `dayjs()` are not
  modelled.
- CivilDate.ParseIso reads only canonical `YYYY-MM-DD` text that names a
  calendar date. The date library also accepts one- and two-digit months
  and days, other separators and times, rolls out-of-range days over into
  the next month, and uses the local time zone. None of this is modelled:
  such text is "Invalid Date" in this model.
- Case mapping covers ASCII letters only. Other letters are left as they
  are, and no mapping that changes length is modelled.
- How a number is written inside a template literal is the `show`
  parameter of the grid functions. JavaScript's number-to-string rules are
  not modelled.
- The "Request Date" column (`convertFromTimestampToDate`), `formatDate`
  and `formatTime` are not part of this model: they only format times for
  display.
- `getUserAgent` and `getUserToken` are not part of this model: they read
  the browser and its cookies.
- `getCurrentLocation` wraps the browser's geolocation call, so its answer
  is the `Position` parameter.
- The zod error messages are not modelled. Only which fields fail is
  modelled.
- The upload transport is not modelled: `FormData`, the endpoint URL built
  from the environment, and the headers. Each upload's outcome is the
  `Response` parameter.
- Utils.DropNull and Utils.UploadImages keep `undefined` results (failed
  uploads), exactly as the source's filter does. Their contracts do not
  promise that the result holds only URLs.
- Utils.Extension: its contract states only that the extension holds no
  dot. What the extension is is stated by `ExtensionOfPlainName` and
  `ExtensionAfterDot`.
- QcSubmit.QcStore.Submit does not include the `refetch()` and modal close
  that follow a successful submission. The tab's refetch is
  `QcListing.QcTab.Refetch`.
- A document reference is modelled as valid when it names a non-empty
  string. Firestore's other rules for document ids are not modelled.
- A status that is not a string would make the chip throw while
  rendering. That case is not modelled: `QcGrid.StatusLabel` and
  `QcGrid.PaletteKey` take strings.
- `QcListing.QcTab` counts queries in a ghost field, `fetches`, so that
  its contracts can say when a query happens.

## Findings

| source | as written | input that shows it | evidently intended | confidence | as-written member | corrected member |
|---|---|---|---|---|---|---|
| src/components/grids/qc/index.js:152-159 | `` `${row.crop?.ageOfTree} years` \|\| "N/A" ``: the template text is never empty, so the fallback never applies | a row with no `crop` (or a crop without `ageOfTree`) shows "undefined years"; likewise "undefined ft." for the height | "N/A" when the crop has no value, otherwise the value and its unit | not executed | QcGrid.TemplateColumn (with QcGrid.TemplateColumnWithoutCrop) | QcGrid.TemplateColumnIntended |
