# Project Kisan — a verified model of the views and forms

Project Kisan is a web app for farmers. This project models the part of it
that has logic of its own. The React rendering and the calls to hosted AI
models are left out.

- **Mandi price dashboard.**
  - The price chart lists the distinct commodities in order of first
    appearance. It selects the first one, and plots that commodity's
    (date, price) points in ascending date order.
  - The price table shows a copy of the records sorted newest first, one
    row per record.
- **Language provider.** It holds a language code starting at `en` and
  publishes that language's sidebar labels, falling back to English. The
  `useLanguage` hook fails outside a provider.
- **Five forms.** These are the scheme finder, price predictor,
  agricultural advice, expert advice and crop image analyzer. Each
  validates its fields with minimum-length rules (a non-empty file for the
  analyzer). A valid submission clears the previous result and calls the
  AI flow. The flow's reply is then stored exactly, or `result` stays null
  and an error toast is raised.

Module layout:

- **Wrappers:** `Option` and `Result`.
- **Dates:** ECMAScript time values of `YYYY-MM-DD` dates.
  - Record dates are the calendar date form of section 4.1.2.2 of ISO
    8601:2004 (extended, complete representation).
  - ECMAScript parses such a string as UTC midnight. Its time value is
    `MakeDay(y, m, d) * msPerDay`, on the proleptic Gregorian calendar.
    This follows ECMA-262's `DayFromYear`, `MakeDay` and `MakeDate`
    abstract operations.
  - The main theorem is `TimeOrderIsLexOrder`: on well-formed dates, the
    order of time values is the lexicographic order of the strings, and
    equal time values mean equal strings.
- **StableSort:** what `Array.prototype.sort` returns for a comparator of
  the form `key(a) - key(b)`.
  - The sort must be stable (ECMA-262, 2019 edition onward). That means the
    result is ascending by key, and each key's elements keep their input
    order.
  - `SortBy` is one such sort. `StableSortUnique` proves any sort with
    these two properties gives the same sequence, so the engine's choice of
    algorithm does not matter.
- **PriceRecords:** the `PriceRecord` type.
- **PriceChart** and **PriceTable:** the two price views.
- **Decimal:** the decimal text of an index, as in `` `item-${index}` ``.
- **Language:** the translation tables, the provider and the hook.
- **Forms:** the shared form controller.
  - The `FormController` class holds the react-hook-form values and
    errors, and the `result`, `isPending` and toast state.
  - Its methods give the submit protocol: `Submit`, `Settle` and
    `SubmitAndAwait`.
- **Form modules:** `SchemeFinder`, `PricePredictor`, `AgriculturalAdvice`,
  `ExpertAdvice` and `CropAnalyzer`. Each holds one form's schema, default
  values, reply type and view.

The AI flows are modelled as parameters:

- The submit protocol gets the flow as a function `V -> Outcome<R>`. It
  returns `Replied(reply)` or `Failed`.
- `Settle` receives the flow's outcome.
- The crop analyzer also receives the outcome of reading the file as a
  data URL, as an `Option`.

Notes on the code:

- **Trend length.** The price trend is passed to the chart as the flow
  returns it. The "seven days" appears only in the prompt text, and the
  output schema does not limit the length. So the model allows any length
  and proves the chart shows exactly the reply's points.
- **Prediction title.** The title reads the crop field's current value when
  the card is rendered (`form.getValues`), not the value that was
  submitted. `PricePredictor.Card` takes that current value as a
  parameter.

## Model

| member | source | states |
|---|---|---|
| Dates.TimeOrderIsLexOrder | src/lib/types.ts:5 | for two well-formed `YYYY-MM-DD` dates, `new Date(a).getTime() < new Date(b).getTime()` iff a is lexicographically before b, and the time values are equal iff the strings are equal |
| Dates.TimeValue | src/components/price-dashboard/price-chart.tsx:28 | `new Date(s).getTime()` of a date-only string is a whole number of days, as a date-only form is read as midnight UTC |
| Dates.TimeValueExamples | src/components/price-dashboard/price-table.tsx:13 | the epoch 1970-01-01 has time value 0, and 2024-03-01 has 1709251200000, as ECMAScript gives them |
| StableSort.SortBy | src/components/price-dashboard/price-chart.tsx:28 | `sort` with a `key(a) - key(b)` comparator returns a permutation of its input, ascending by key, in which the elements of each key keep their input order |
| StableSort.StableSortUnique | src/components/price-dashboard/price-table.tsx:13 | two sequences that are both ascending by key and agree on every key's subsequence are equal, so every stable sort gives the same result |
| PriceChart.Distinct | src/components/price-dashboard/price-chart.tsx:18 | `[...new Set(xs)]` has no duplicates, contains exactly the values of xs, and lists them in the order of their first occurrence in xs |
| PriceChart.Commodities | src/components/price-dashboard/price-chart.tsx:18 | the commodity list has no duplicates, holds c iff some record has commodity c, and is ordered by each commodity's first record |
| PriceChart.FirstCommodityIsFirstRecord | src/components/price-dashboard/price-chart.tsx:18-19 | no data gives no commodities; otherwise the first commodity listed is the first record's |
| PriceChart.InitialSelection | src/components/price-dashboard/price-chart.tsx:19 | the initial selection is the first record's commodity, and nothing (`undefined`) for empty data |
| PriceChart.Matching | src/components/price-dashboard/price-chart.tsx:22 | the filter is the subsequence of records tagged with the selection, in data order; it keeps exactly the records whose commodity is the selection, each as many times as it occurs; with no selection it keeps none |
| PriceChart.CompareByDate | src/components/price-dashboard/price-chart.tsx:28 | the comparator is the difference of the `PointTime` sort keys, negative on well-formed dates iff a's date string comes first, and zero iff the dates are equal |
| PriceChart.Project | src/components/price-dashboard/price-chart.tsx:23-26 | each point carries its record's date and price and nothing else, one point per record, in order |
| PriceChart.ProjectedFromRecords | src/components/price-dashboard/price-chart.tsx:22-26 | every projected point comes from a record of the data whose commodity is the selection |
| PriceChart.SortedByTimeIsLexAscending | src/components/price-dashboard/price-chart.tsx:28 | points sorted by time value are in ascending date-string order |
| PriceChart.TimeFilterIsDateFilter | src/components/price-dashboard/price-chart.tsx:28 | among well-formed dates, the points with a given time value are those with a given date string |
| PriceChart.ChartPoints | src/components/price-dashboard/price-chart.tsx:21-29 | `chartData` is empty with no selection, has one point per matching record, is a permutation of the projected matches, holds only points of selected records, is ascending by date, and keeps equal-date points in data order |
| PriceChart.ChartOrderIsUnique | src/components/price-dashboard/price-chart.tsx:28 | any ordering of the selected points that is ascending by date and keeps equal-date points in data order is `chartData` |
| PriceChart.PriceChartView.constructor | src/components/price-dashboard/price-chart.tsx:18-19 | the chart starts with the data prop and the first record's commodity selected |
| PriceChart.PriceChartView.SelectCommodity | src/components/price-dashboard/price-chart.tsx:34 | picking a listed commodity selects exactly it |
| PriceChart.PriceChartView.ReceiveData | src/components/price-dashboard/price-chart.tsx:18-19 | a new data prop replaces the data; the selection state is kept, not reset |
| PriceChart.PriceChartView.Options | src/components/price-dashboard/price-chart.tsx:39-43 | the picker offers each commodity of the data once, exactly those, in first-seen order |
| PriceChart.PriceChartView.Chart | src/components/price-dashboard/price-chart.tsx:50 | the chart is given no points without a selection, only points of records with the selected commodity, oldest first, and as a permutation of the projected matches |
| PriceTable.KeyFilterIsDateFilter | src/components/price-dashboard/price-table.tsx:13 | among well-formed dates, the records with a given sort key are those with a given date string |
| PriceTable.CompareNewestFirst | src/components/price-dashboard/price-table.tsx:13 | the comparator is the difference of the `NewestFirst` sort keys, negative on well-formed dates iff a's date string comes later, and zero iff the dates are equal |
| PriceTable.SortedRecords | src/components/price-dashboard/price-table.tsx:13 | `sortedData` is a permutation of `data`, descending by time value (newest first, as date strings too), with equal-date records in input order |
| PriceTable.TableOrderIsUnique | src/components/price-dashboard/price-table.tsx:13 | any newest-first ordering of the records that keeps equal-date records in input order is `sortedData` |
| PriceTable.Rows | src/components/price-dashboard/price-table.tsx:26-34 | exactly one row per record, row i has key i and shows the i-th record of `sortedData`, so the rows are a permutation of the records, newest first |
| PriceTable.RenderTable | src/components/price-dashboard/price-table.tsx:12-13 | rendering leaves the caller's array as it was and yields one row per element, in sorted order |
| Decimal.ParseNatToString | src/components/schemes/scheme-finder.tsx:118 | the decimal text of an index reads back as that index |
| Decimal.PrefixedKeysDistinct | src/components/schemes/scheme-finder.tsx:118 | `item-${m}` and `item-${n}` are equal iff m equals n |
| Language.EveryTableDefinesSidebar | src/hooks/use-language.tsx:6-44 | the table has exactly en, hi and kn, and each table labels exactly the five sidebar keys, none blank |
| Language.Lookup | src/hooks/use-language.tsx:56 | a code with a table gets that table, any other code gets English |
| Language.LookupDefinesSidebar | src/hooks/use-language.tsx:56 | whatever the code, the translations in use label exactly the five sidebar keys, none blank |
| Language.KnownCodesHaveTheirOwnTable | src/hooks/use-language.tsx:16-44 | en, hi and kn give their own tables, and the Hindi and Kannada tables differ from English |
| Language.ReadProperty | src/hooks/use-language.tsx:56 | `translations[code]` is the own table, else an inherited `Object.prototype` member, else `undefined` |
| Language.LookupAsWritten | src/hooks/use-language.tsx:56 | `translations[language] \|\| translations.en` always yields a truthy value |
| Language.AsWrittenAgreesOffPrototype | src/hooks/use-language.tsx:56 | for every code that is not an `Object.prototype` member name, the expression as written gives the corrected lookup's table |
| Language.AsWrittenMissesFallback | src/hooks/use-language.tsx:56 | for the code "toString", which has no table, the expression as written yields no table, while the corrected lookup gives English |
| Language.LanguageProvider.constructor | src/hooks/use-language.tsx:55 | the language starts as "en" and the published translations are English |
| Language.LanguageProvider.Context | src/hooks/use-language.tsx:56-59 | the context publishes the current code and its translations by the corrected lookup, which for every code that is not an `Object.prototype` member name is what line 56 as written yields |
| Language.LanguageProvider.SetLanguage | src/hooks/use-language.tsx:55-59 | setting a code changes only the language, and the published translations follow it by the corrected lookup, agreeing with line 56 as written off the `Object.prototype` names |
| Language.UseLanguage | src/hooks/use-language.tsx:65-71 | inside a provider the hook returns its context; outside one it fails with "useLanguage must be used within a LanguageProvider" |
| Forms.MinLength | src/components/schemes/scheme-finder.tsx:24 | a `.min(n, message)` rule passes iff the value has at least n characters, and otherwise reports exactly its message for its field |
| Forms.MinLengthFlags | src/components/expert-system/agricultural-advice-form.tsx:26-31 | a rule flags a name iff it is the rule's own field and the value is too short |
| Forms.FlagsOfAppend | src/components/expert-system/agricultural-advice-form.tsx:26-31 | errors reported one rule after another flag a field iff one of the rules flags it |
| Forms.FormController.constructor | src/components/schemes/scheme-finder.tsx:30-39 | a form starts with its defaults, no errors, a null result, nothing pending and no toasts |
| Forms.FormController.Edit | src/components/schemes/scheme-finder.tsx:68-79 | editing a field sets the values and, once a submit has been tried, re-validates them; nothing else changes |
| Forms.FormController.SetValue | src/components/crop-analyzer/crop-analyzer-view.tsx:36 | `setValue` changes only the values |
| Forms.FormController.ClearErrors | src/components/crop-analyzer/crop-analyzer-view.tsx:37 | `clearErrors` removes the field errors and changes nothing else |
| Forms.FormController.Submit | src/components/schemes/scheme-finder.tsx:41-44 | while pending nothing happens; otherwise the values are validated, invalid values only show errors and never reach the flow, and valid ones set `result` to null, start pending and go to the flow unchanged |
| Forms.FormController.Settle | src/components/schemes/scheme-finder.tsx:45-54 | on a reply `result` becomes exactly that reply; on a failure `result` stays null and one "An error occurred" toast with the form's description is added |
| Forms.FormController.ShowsLoading | src/components/schemes/scheme-finder.tsx:89 | the loading card is shown exactly while a submission is pending |
| Forms.FormController.ShowsResult | src/components/schemes/scheme-finder.tsx:104 | a result card is shown exactly when there is a result |
| Forms.FormController.SubmitAndAwait | src/components/schemes/scheme-finder.tsx:41-56 | a whole submission marks the form submitted and shows exactly the values' errors; valid values end with `result` equal to the flow's reply on them, or null with one more toast, and never pending; invalid values leave result, requests and toasts as they were |
| Forms.FormController.LoadingHidesResult | src/components/schemes/scheme-finder.tsx:89-104 | with the state updates of a submission applied in one step (see "Overlapping work" under Left out), the loading card and the result card are never shown together |
| SchemeFinder.Errors | src/components/schemes/scheme-finder.tsx:23-25 | a query is accepted iff it has at least 5 characters, else "Please enter a more detailed query." |
| SchemeFinder.DefaultsRejected | src/components/schemes/scheme-finder.tsx:36-38 | the default empty query fails validation |
| SchemeFinder.Mount | src/components/schemes/scheme-finder.tsx:30-39 | the form starts with the empty query, this schema and this failure message, no errors, not yet submitted, and no result |
| SchemeFinder.Items | src/components/schemes/scheme-finder.tsx:117-119 | one accordion item per scheme, in order, item i valued `item-i` and titled with the scheme name |
| SchemeFinder.Card | src/components/schemes/scheme-finder.tsx:111-140 | the count is the number of schemes; an empty list shows the "no schemes found" message; otherwise the items show the schemes in order, with distinct values, the first one open |
| SchemeFinder.ResultArea | src/components/schemes/scheme-finder.tsx:104 | a card is shown iff there is a result, and it is that result's card |
| PricePredictor.Errors | src/components/price-dashboard/price-predictor.tsx:18-20 | a crop name is accepted iff it has at least 2 characters, else "Please enter a valid crop name." |
| PricePredictor.DefaultsRejected | src/components/price-dashboard/price-predictor.tsx:38-40 | the default empty crop name fails validation |
| PricePredictor.Mount | src/components/price-dashboard/price-predictor.tsx:32-41 | the form starts with the empty crop name, this schema and this failure message, no errors, not yet submitted, and no result |
| PricePredictor.Card | src/components/price-dashboard/price-predictor.tsx:96-112 | the card is titled with the crop field's current value, shows the summary, and charts every trend point in order |
| PricePredictor.ChartIsTrend | src/components/price-dashboard/price-predictor.tsx:112 | a trend of any length reaches the chart unchanged |
| AgriculturalAdvice.Errors | src/components/expert-system/agricultural-advice-form.tsx:26-31 | accepted iff crop type ≥ 2, condition ≥ 3, location ≥ 2 and details ≥ 10 characters; every error is one of the four rules' own messages |
| AgriculturalAdvice.ErrorsFlag | src/components/expert-system/agricultural-advice-form.tsx:26-31 | a field is flagged iff it is one of the four schema fields and its value is shorter than its minimum; no other name is ever flagged |
| AgriculturalAdvice.ErrorsFlagFields | src/components/expert-system/agricultural-advice-form.tsx:26-31 | each of the four fields is flagged iff it is too short |
| AgriculturalAdvice.EveryConditionOptionAccepted | src/components/expert-system/agricultural-advice-form.tsx:106-109 | every value the condition picker offers meets the condition rule |
| AgriculturalAdvice.DefaultsRejected | src/components/expert-system/agricultural-advice-form.tsx:42-47 | the all-empty defaults fail validation on all four fields |
| AgriculturalAdvice.Mount | src/components/expert-system/agricultural-advice-form.tsx:36-48 | the form starts with empty values, this schema and this failure message, no errors, not yet submitted, and no result |
| ExpertAdvice.Errors | src/components/expert-system/expert-advice-form.tsx:25-31 | accepted iff crop details ≥ 2, location ≥ 2 and challenges ≥ 10 characters; every error is one of the three rules' own messages |
| ExpertAdvice.ErrorsFlag | src/components/expert-system/expert-advice-form.tsx:25-31 | a field is flagged iff it is one of the three schema fields and its value is shorter than its minimum; no other name is ever flagged |
| ExpertAdvice.ErrorsFlagFields | src/components/expert-system/expert-advice-form.tsx:25-31 | each of the three fields is flagged iff it is too short |
| ExpertAdvice.DefaultsRejected | src/components/expert-system/expert-advice-form.tsx:42-46 | the all-empty defaults fail validation on all three fields |
| ExpertAdvice.Mount | src/components/expert-system/expert-advice-form.tsx:36-47 | the form starts with empty values, this schema and this failure message, no errors, not yet submitted, and no result |
| CropAnalyzer.PhotoErrors | src/components/crop-analyzer/crop-analyzer-view.tsx:17-19 | a photo is accepted iff it is a file of size > 0; no file fails the type check alone, an empty file gets "Please upload an image." |
| CropAnalyzer.EmptyFileRejected | src/components/crop-analyzer/crop-analyzer-view.tsx:18 | an empty file is rejected with "Please upload an image." |
| CropAnalyzer.CropAnalyzerView.constructor | src/components/crop-analyzer/crop-analyzer-view.tsx:24-31 | the view starts with no photo, no preview, no errors, not yet submitted, no result and nothing pending |
| CropAnalyzer.CropAnalyzerView.HandleFileChange | src/components/crop-analyzer/crop-analyzer-view.tsx:33-37 | no file changes nothing; otherwise the first file becomes the photo and the photo error is cleared, and the submitted flag, result, pending state, requests and toasts are untouched |
| CropAnalyzer.CropAnalyzerView.PreviewLoadEnd | src/components/crop-analyzer/crop-analyzer-view.tsx:38-42 | the preview becomes the reader's result, null when the read failed |
| CropAnalyzer.CropAnalyzerView.SubmitEnabled | src/components/crop-analyzer/crop-analyzer-view.tsx:117 | the button is enabled iff nothing is pending and a non-empty preview exists |
| CropAnalyzer.CropAnalyzerView.Submit | src/components/crop-analyzer/crop-analyzer-view.tsx:55-57 | a disabled button does nothing; otherwise the form is marked submitted and shows the photo's errors, only a non-empty file starts a submission, which clears `result`, and a refused photo leaves result, pending state and requests as they were |
| CropAnalyzer.CropAnalyzerView.Settle | src/components/crop-analyzer/crop-analyzer-view.tsx:58-69 | a failed file read and a failed flow call both leave `result` null and add the toast; a reply becomes `result` exactly; values, errors, the submitted flag and requests are kept |
| CropAnalyzer.CropAnalyzerView.ShowsAwaiting | src/components/crop-analyzer/crop-analyzer-view.tsx:145-173 | the "Awaiting Analysis" card shows iff there is no result and nothing is pending |

## Left out

- **AI flows.** The flows and their prompt templates call a hosted model
  through a library this model does not include. Each flow is the
  parameter `flow` (an `Outcome` per input). Their output schemas appear
  only as the reply datatypes.
- **Browser file reading.** `FileReader` and data-URL encoding are browser
  I/O. The preview's result and the submission's read are parameters
  (`PreviewLoadEnd`, `Settle`), and either may fail.
- **Overlapping work.** `useTransition` scheduling and overlapping async
  work are treated as sequential. This covers two preview reads finishing
  out of order, and a submission overlapping another. The button being
  disabled while pending is modelled.
- **Rendering.** JSX, toasts' styling, icons and chart axes are not
  modelled. Neither are `toLocaleDateString`, `price.toFixed(2)` and the
  `₹` formatting. `price` is an uninterpreted real that is only carried.
- **Malformed dates.** These give `NaN` comparisons in both sorts. The
  price views require every date to be a well-formed `YYYY-MM-DD`;
  `TimeValue` of any other string is an arbitrary 0 and is not used.
- **Years before 0000 or after 9999.** These need a signed six-digit form
  that record dates do not use.
- Forms.MinLength: counts characters, not UTF-16 code units. zod's
  `.min(n)` compares `.length`, which counts code units, so the two differ
  only for characters outside the Basic Multilingual Plane.
- Language.LanguageProvider.Context: publishes the corrected `Lookup`, not
  `translations[language] || translations.en` as written. For an
  `Object.prototype` member name such as "toString" the source publishes
  the inherited member, while the model publishes English; see the
  Findings row. For every other code the two agree, as its contract states.
- Language.LanguageProvider.SetLanguage: for the same reason, after setting
  an `Object.prototype` member name the model publishes English, not the
  inherited member the source would publish.
- **Error logging.** `console.error` calls are output only.
- **Form library internals.** Only what the forms rely on is modelled:
  values, submit-time validation, re-validation on change after a submit
  was tried, `setValue` and `clearErrors`.
- **The sidebar labels' use.** The consuming layout (which calls
  `setLanguage` with en, hi or kn only) is not part of this model.
- **History components and the page header.** They only render fixed data.

## Findings

| source | as written | input that shows it | evidently intended | confidence | as-written member | corrected member |
|---|---|---|---|---|---|---|
| src/hooks/use-language.tsx:56 | `translations[language] \|\| translations.en` reads the property through the prototype chain | language "toString" (or any other `Object.prototype` member name, such as "constructor" or "__proto__") yields an inherited function or object, which is truthy, so there is no fallback and `translations.sidebar` is undefined | any code without its own table falls back to English | not executed; the app's language menu only sets en, hi or kn, so the case is not reachable from the shipped UI | Language.LookupAsWritten (counterexample: Language.AsWrittenMissesFallback) | Language.Lookup |
