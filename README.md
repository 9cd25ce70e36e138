# Analyzer engine and analyzer controller, modelled in Dafny

This project models the page analyzer of a browser extension. It has two parts.

- **Background analyzer engine** (`AnalyzerEngine`). It holds a runtime scan session: a state machine over `_runtimeActive`, `_runtimeStartedAt`, `_runtimeDataset` and `_runtimeTotalScans`. It also runs one-shot scans through a single `resultCallback` slot and a settle-once `finish`, with three outcomes: result, injection failure and 8000 ms timeout. It stores scan records and finished runs in local storage under `analyzerResults_<ms>` and `analyzerRuntime_<ms>` keys. It lists these back, with runs sorted newest first and the last run chosen. Finally, it extracts a structural summary from each page (`processHtml` and its recursive `getDepth`).
- **UI-side analyzer controller** (`AnalyzerReactController`). It keeps a `Set` of subscriber objects. `onMessage` returns an unsubscribe function. A single message listener, installed once, calls each subscriber's hook for the message type.

Modules, one file each:

- `js_core.dfy` (`JsCore`): the JavaScript string operations the core relies on. These are truthy `||` and `??`, `startsWith`, `trim` with the ECMAScript whitespace set, ASCII `toLowerCase`, the two `https?` regular expressions, `/^\d+$/`, `split("_")[1]`, `Number` on digits and the decimal rendering of `Date.now()`.
- `extractor.dfy` (`Extractor`): the document as an element tree (tag, attributes, children, text) and `processHtml` over it.
- `counting.dfy` (`Counting`): the sum of a map's values, used for `totalScans` and `tagCount`.
- `records.dfy` (`Records`): scan records, runs, stored values, the key formats, and the runtime dataset with its scan total.
- `key_listing.dfy` (`KeyListing`): `browser.storage.local` as an ordered list of entries (`Object.entries` order), covering `getLocalScanResults`, `getAllRuntimeResults` (a stable newest-first sort) and `getLastRuntimeResults`.
- `engine.dfy` (`Engine`): the class `AnalyzerEngine`, its message listener and the one-shot requests.
- `finish_as_written.dfy` (`FinishAsWritten`): `finish` exactly as written. See Findings.
- `react_controller.dfy` (`ReactController`): the class `AnalyzerReactController` and its dispatch loop.

Inputs of the model:

- Every browser call becomes an input: the tab `tabs.get` returns, the tabs `tabs.query` returns, whether an injection resolved, and whether a storage write succeeded.
- The clock (`Date.now()`) is an input.
- So is the tree cheerio parses from a page's html.
- Timer expiry is an explicit event (`TimerFires`). So is the return of the injection attempt (`InjectionReturned`).
- Storage is a set of fields of the engine. The `onUpdate` and `onComplete` callbacks are flags, and the methods return the reports those callbacks would receive.

Behaviour of the code that the model keeps as it is:

- **Stop keeps the counters.** `stopRuntimeScan` leaves `_runtimeDataset` and `_runtimeTotalScans` as they are, so `getRuntimeStatus` after a stop reports the last run's counts. Only the next `startRuntimeScan` resets them.
- **One slot for all tabs.** The code has a single one-shot `resultCallback` slot shared by all tabs. A new `runOneTimeScan` overwrites the slot without settling the earlier request, and any `finish` clears it, even the `finish` of an older request.
- **Live set during dispatch.** The dispatch loop iterates the live `Set` of subscribers. In the model, hooks do not change the set (see Left out).

## Model

| member | source | states |
|---|---|---|
| JsCore.InjectableUrlIff | src/background/analyzer/analyzerEngine.js:102-105 | `_isInjectableUrl` holds exactly when the lower-cased url starts with `http://` or `https://`. |
| JsCore.HttpSchemeUrlIff | src/background/analyzer/analyzerEngine.js:173 | The runtime tab test `/^https?:/i` holds exactly when the lower-cased url starts with `http:` or `https:`. |
| JsCore.InjectableIsHttpScheme | src/background/analyzer/analyzerEngine.js:182 | Every url the one-shot scan accepts passes the runtime tab test. The converse fails: `http:x` passes the runtime test and is refused by the one-shot test. |
| JsCore.TrimIsMiddleSlice | src/background/analyzer/analyzerEngine.js:297 | `trim()` returns the slice of the text between its leading and trailing whitespace. Only whitespace is dropped, and the result has none at either end. |
| JsCore.TrimIdempotent | src/background/analyzer/analyzerEngine.js:306 | Trimming twice is trimming once. |
| JsCore.ToLowerAscii | src/background/analyzer/analyzerEngine.js:314 | ASCII `toLowerCase()`, as applied to tag names and to the regular expressions' `i` flag, leaves no upper-case ASCII letter in the result and leaves every other character as it was. |
| JsCore.ToLowerAsciiIdempotent | src/background/analyzer/analyzerEngine.js:314 | Lower-casing a lower-cased text changes nothing. |
| JsCore.DecimalRoundTrip | src/background/analyzer/analyzerEngine.js:207 | The decimal text of a timestamp is all digits, contains no `_`, and `Number` reads it back as the same timestamp. |
| JsCore.UpToUnderscore | src/background/analyzer/analyzerEngine.js:246 | The segment before the first `_` is a prefix of the text without `_`, followed in the text by `_` or by nothing. |
| JsCore.SplitSecond | src/background/analyzer/analyzerEngine.js:246 | `split("_")[1]` is undefined exactly when the text has no `_`. |
| JsCore.SplitSecondAfterPrefix | src/background/analyzer/analyzerEngine.js:246 | After a prefix with one `_`, at its end, `split("_")[1]` is the rest of the text up to its next `_`. |
| Extractor.WithTag | src/background/analyzer/analyzerEngine.js:335 | A tag selector keeps only elements whose tag is in the selector's list, and no more elements than it was given. |
| Extractor.WithTagIff | src/background/analyzer/analyzerEngine.js:335 | A tag selector returns every element whose tag is in the list, and nothing else. |
| Extractor.WithTagAppend | src/background/analyzer/analyzerEngine.js:335 | Selecting over two consecutive runs of elements is selecting over each in turn, so the selection keeps document order. |
| Extractor.ElementsWithinAreElements | src/background/analyzer/analyzerEngine.js:285 | A descendant selector (`head link`) returns only elements of the tree. |
| Extractor.ElementsWithinAllAreElements | src/background/analyzer/analyzerEngine.js:289 | The same holds over a list of sibling subtrees. |
| Extractor.ElementsWithinInside | src/background/analyzer/analyzerEngine.js:285 | Below a matching ancestor, every element in document order qualifies. |
| Extractor.ElementsWithinAllInside | src/background/analyzer/analyzerEngine.js:289 | The same holds over a list of sibling subtrees. |
| Extractor.Depth | src/background/analyzer/analyzerEngine.js:272-276 | `getDepth(node, depth)` is never less than `depth`. |
| Extractor.MaxDepth | src/background/analyzer/analyzerEngine.js:275 | The maximum over the element children is at least the child depth when there is an element child. |
| Extractor.MaxDepthBounds | src/background/analyzer/analyzerEngine.js:275 | `Math.max` bounds the depth of every element child. |
| Extractor.MaxDepthAttained | src/background/analyzer/analyzerEngine.js:275 | Some element child attains the maximum. |
| Extractor.DepthBoundsPaths | src/background/analyzer/analyzerEngine.js:272-276 | `getDepth(node, d)` is at least `d` plus the length of every downward chain of nested elements. |
| Extractor.DepthAttained | src/background/analyzer/analyzerEngine.js:272-276 | Some downward chain attains `getDepth(node, d) - d`, so the depth is the longest chain. |
| Extractor.DepthOffset | src/background/analyzer/analyzerEngine.js:272-276 | Starting at `d` adds exactly `d` to the depth from 0. |
| Extractor.NestDepth | src/background/analyzer/analyzerEngine.js:272-276 | A root with `k` levels of single nesting has depth `d + k`. |
| Extractor.TagNamesCountSelection | src/background/analyzer/analyzerEngine.js:349 | Over a list of elements, a tag occurs among `$("*").map(el => el.tagName)` exactly as often as the tag selector `$(t)` finds an element in that list. |
| Extractor.ElementsAreElements | src/background/analyzer/analyzerEngine.js:346 | `$("*")` lists only elements. |
| Extractor.TagCountIsSelection | src/background/analyzer/analyzerEngine.js:349-352 | `tagCount[t]` is the number of elements `$(t)` selects, and `t` is a key of `tagCount` exactly when that number is not 0. |
| Extractor.TallyCounts | src/background/analyzer/analyzerEngine.js:349-352 | The reduce adds exactly the counted names as keys. Each entry is its start value plus the number of occurrences. |
| Extractor.TallySum | src/background/analyzer/analyzerEngine.js:349-352 | The reduce adds one to the total of the entries per name. |
| Extractor.TagCountFacts | src/background/analyzer/analyzerEngine.js:347-352 | `tagCount` has an entry exactly for each tag that occurs. Each entry is its number of occurrences, at least 1, and the entries add up to `totalElements`. |
| Extractor.ProcessHtmlStats | src/background/analyzer/analyzerEngine.js:346-353 | `stats` counts every element. Its `tagCount` entries are at least 1 and sum to `totalElements`, and its `depth` is the length of the longest chain of nested elements. |
| Extractor.ControlsOf | src/background/analyzer/analyzerEngine.js:311-317 | One input record per form control, in order. |
| Extractor.RowsOf | src/background/analyzer/analyzerEngine.js:340-342 | One list of cell texts per row, in order. |
| Extractor.FormMethodDefault | src/background/analyzer/analyzerEngine.js:308-310 | One record per `form`. Its `method` is the attribute when that is non-empty, else `GET`, so it is never empty. |
| Extractor.ImageAltDefault | src/background/analyzer/analyzerEngine.js:319-322 | One record per `img`. Its `alt` is the attribute when that is non-empty, else the empty string. |
| Extractor.ControlTypeDefault | src/background/analyzer/analyzerEngine.js:311-317 | One input per `input`/`select`/`textarea`/`button` below the form. Each keeps its tag, and its `type` is the attribute when non-empty, else the lower-cased tag name, never empty. |
| Extractor.TableOf | src/background/analyzer/analyzerEngine.js:339-343 | Corrected table rows: one entry per `tr` below the table, each that row's `th`/`td` texts. |
| Extractor.FlattenLength | src/background/analyzer/analyzerEngine.js:340-342 | The flattened list has exactly as many entries as there are cells over all rows. |
| Extractor.TableRowsAsWrittenLength | src/background/analyzer/analyzerEngine.js:339-343 | The as-written `rows` of a table holds one text per `th`/`td` cell over all its `tr` rows, with no row boundaries. |
| Extractor.TableRowsAsWrittenLosesRows | src/background/analyzer/analyzerEngine.js:340-342 | A one-row table with two cells and a two-row table with one cell each give the same as-written rows, while their corrected rows differ. |
| Records.KeyFormatsDistinct | src/background/analyzer/analyzerEngine.js:207-208 | A results key is never a runtime key. A runtime key is never the key `analyzerRuntime_lastKey`, and a results key does not start with `analyzerRuntime_`. |
| Records.Append | src/background/analyzer/analyzerEngine.js:68-69 | Appending a record creates the entry when absent and puts the record at its end. Every other entry is unchanged. |
| Records.AppendPages | src/background/analyzer/analyzerEngine.js:68-74 | The page count grows by one exactly when the key is new. |
| Records.AppendCounts | src/background/analyzer/analyzerEngine.js:69-70 | The sum of entry lengths grows by exactly one per appended record. |
| Records.AppendAllTotal | src/background/analyzer/analyzerEngine.js:67-70 | N accepted events add N to the sum of entry lengths. |
| Records.EventKeys | src/background/analyzer/analyzerEngine.js:67 | The page keys of a list of events are exactly the keys some event names. |
| Records.AppendAllKeys | src/background/analyzer/analyzerEngine.js:67-68 | The dataset's keys after the events are the keys before plus the events' page keys. |
| Records.SessionCounts | src/background/analyzer/analyzerEngine.js:67-76 | From the empty dataset, N events give `totalScans == N` and `pagesCount` equal to the number of distinct page keys. |
| Records.EmptyDatasetCounts | src/background/analyzer/analyzerEngine.js:167-168 | The reset dataset holds no records. |
| KeyListing.Lookup | src/background/analyzer/analyzerEngine.js:238 | `all[key]` is a stored entry with that key, and is undefined only when no entry has the key. |
| KeyListing.Put | src/background/analyzer/analyzerEngine.js:208 | After `storage.local.set({[key]: v})` the key holds `v` and every other key reads as before. |
| KeyListing.Where | src/background/analyzer/analyzerEngine.js:156-157 | A key filter keeps only entries whose key passes. |
| KeyListing.WhereIff | src/background/analyzer/analyzerEngine.js:156-157 | An entry is kept exactly when it is stored and its key passes. |
| KeyListing.WhereSame | src/background/analyzer/analyzerEngine.js:244-248 | Filters that agree on the stored keys keep the same entries. |
| KeyListing.WhereAll | src/background/analyzer/analyzerEngine.js:244-248 | A filter every stored key passes keeps everything. |
| KeyListing.LocalScanResultsIff | src/background/analyzer/analyzerEngine.js:154-159 | `getLocalScanResults` lists exactly the stored `analyzerResults_` entries. |
| KeyListing.ScanResultIsListed | src/background/analyzer/analyzerEngine.js:154-159 | A record stored by the one-shot listener is listed by `getLocalScanResults`. |
| KeyListing.Insert | src/background/analyzer/analyzerEngine.js:251 | One step of the sort keeps every entry (a permutation with the new entry added). |
| KeyListing.SortNewestFirst | src/background/analyzer/analyzerEngine.js:251 | The sort is a permutation of its input. |
| KeyListing.InsertNewestFirst | src/background/analyzer/analyzerEngine.js:251 | Inserting into a newest-first list keeps it newest first. |
| KeyListing.SortNewestFirstSorted | src/background/analyzer/analyzerEngine.js:251 | The sorted listing is ordered by decreasing suffix number. |
| KeyListing.InsertWithRank | src/background/analyzer/analyzerEngine.js:251 | Insertion places an entry before the entries of equal rank, and keeps their order. |
| KeyListing.SortNewestFirstStable | src/background/analyzer/analyzerEngine.js:251 | The sort is stable: entries of equal suffix number keep their store order, as `Array.prototype.sort` requires. |
| KeyListing.AllRuntimeResultsSpec | src/background/analyzer/analyzerEngine.js:241-253 | `getAllRuntimeResults` lists exactly the stored `analyzerRuntime_<digits>` entries. They are newest first, with ties in store order. |
| KeyListing.RunKeyRank | src/background/analyzer/analyzerEngine.js:246-251 | For a listed key, the sort's `Number(split("_")[1])` is the value of its digit suffix. |
| KeyListing.RuntimeKeyIsRunKey | src/background/analyzer/analyzerEngine.js:244-251 | A key `stopRuntimeScan` writes passes the listing filter and sorts by its stop time. |
| KeyListing.StoppedRunIsListed | src/background/analyzer/analyzerEngine.js:241-253 | A run stored by `stopRuntimeScan` is listed by `getAllRuntimeResults`. |
| KeyListing.Newest | src/background/analyzer/analyzerEngine.js:234-235 | The chosen fallback entry is stored, and no candidate has a larger suffix number. |
| KeyListing.SortHeadIsNewest | src/background/analyzer/analyzerEngine.js:234-235 | The head of the newest-first sort is that newest entry. |
| KeyListing.LastKey | src/background/analyzer/analyzerEngine.js:230-237 | The last-run key, when there is one, is never empty. |
| KeyListing.StoppedRunIsLast | src/background/analyzer/analyzerEngine.js:228-239 | Right after a stop has stored its run and `analyzerRuntime_lastKey`, `getLastRuntimeResults` returns that key and run. |
| KeyListing.LastAgreesWithListing | src/background/analyzer/analyzerEngine.js:228-253 | With no `analyzerRuntime_lastKey` value and only well-formed runtime keys, the last run is the head of `getAllRuntimeResults`. |
| Engine.PageKeyRule | src/background/analyzer/analyzerEngine.js:60-67 | A runtime record is filed under the reported url, else the tab's url, else `(url_sconosciuto)`. The key is never empty. |
| Engine.EligibleTabsIff | src/background/analyzer/analyzerEngine.js:181-185 | The start of a runtime scan injects into exactly the tabs with a non-zero id and an http(s) url. |
| Engine.Finish | src/background/analyzer/analyzerEngine.js:118-124 | The first call settles the request with its outcome and stops its timer. A call on a settled request changes nothing. |
| Engine.FinishOnce | src/background/analyzer/analyzerEngine.js:119-120 | A request settles at most once: a second `finish` keeps the first outcome. |
| Engine.AnalyzerEngine.constructor | src/background/analyzer/analyzerEngine.js:5-16 | No session, empty dataset, zero counts, empty slot, no tabs listener. The local and session storage tiers are kept as they were given, since they outlive the background page. |
| Engine.AnalyzerEngine.StartRuntimeScan | src/background/analyzer/analyzerEngine.js:162-193 | Already active: nothing changes and nothing is injected. Otherwise the session becomes active at `now` with an empty dataset and count 0, and the listener is installed. It injects into exactly the eligible tabs, in query order, and reports 0/0 to `onUpdate` when that was given. |
| Engine.AnalyzerEngine.OnTabUpdated | src/background/analyzer/analyzerEngine.js:171-176 | A completed tab gets the runtime script exactly when the session is active and its url starts with `http:` or `https:`, case-insensitively. |
| Engine.AnalyzerEngine.OnRuntimeScanResult | src/background/analyzer/analyzerEngine.js:54-78 | Inactive: nothing changes and no report. Active: exactly one record is appended under its page key and the total grows by one. The report carries the new total, the number of pages and the unchanged start time. |
| Engine.AnalyzerEngine.StopRuntimeScan | src/background/analyzer/analyzerEngine.js:195-217 | Inactive: fails with `Runtime non attivo` and changes nothing. Active: returns the pre-stop counts and dataset under `analyzerRuntime_<now>`, stores the run and `analyzerRuntime_lastKey` when the write succeeds, and deactivates. A stop that follows a completed stop therefore fails. |
| Engine.AnalyzerEngine.GetRuntimeStatus | src/background/analyzer/analyzerEngine.js:219-226 | The reported total is the number of records in the dataset and the page count its number of keys. |
| Engine.AnalyzerEngine.RunOneTimeScan | src/background/analyzer/analyzerEngine.js:107-131 | A tab whose url is not http(s) is refused with the protocol message before anything changes. Otherwise a fresh pending request takes the slot, and settled requests keep their outcome. |
| Engine.AnalyzerEngine.InjectionReturned | src/background/analyzer/analyzerEngine.js:133-150 | A failed injection rejects the request with `Iniezione non riuscita su questa pagina.` and empties the slot if it was unsettled. A successful one arms the 8000 ms timer. |
| Engine.AnalyzerEngine.TimerFires | src/background/analyzer/analyzerEngine.js:148-150 | An unsettled request is rejected with the timeout message and the slot is emptied. A settled one keeps its outcome; only its timer is recorded as fired. |
| Engine.AnalyzerEngine.StoreOneTimeRecord | src/background/analyzer/analyzerEngine.js:25-41 | The record goes under `analyzerResults_<now>` in local storage. In session storage it becomes the last result and, for a sender with a tab id, that tab's last result. Each of the three writes succeeds or fails on its own, and a failed write leaves its value unchanged. |
| Engine.AnalyzerEngine.DeliverResult | src/background/analyzer/analyzerEngine.js:43-47 | The slot is emptied before the wrapper runs, and the request in it is resolved with the results. With an empty slot, no request changes, so a duplicate result reaches no callback. |
| Engine.AnalyzerEngine.OnScanResult | src/background/analyzer/analyzerEngine.js:22-51 | The one-shot branch: the three independent storage writes, then the delivery to the request in the slot, which is resolved with the results. |
| Engine.AnalyzerEngine.OnMessage | src/background/analyzer/analyzerEngine.js:19-79 | Only a result with html is acknowledged. It makes exactly the one-shot storage writes and resolves the request in the slot, leaving the runtime session alone. A runtime result with html appends exactly when the session is active and reports to `onUpdate`, leaving the one-shot state alone. A message of another type, or one without html, changes nothing. |
| FinishAsWritten.FinishAsWritten | src/background/analyzer/analyzerEngine.js:116-151 | As written, `finish` before the timer exists marks the request settled and throws before emptying the slot or settling the promise. Once the timer is set, it is the corrected `finish`. |
| FinishAsWritten.InjectionFailureStaysPending | src/background/analyzer/analyzerEngine.js:143-145 | As written, a failed injection leaves the promise pending for good and the slot occupied. The corrected `finish` rejects it. |
| FinishAsWritten.EarlyResultStaysPending | src/background/analyzer/analyzerEngine.js:128-150 | As written, a result arriving before the injection returns leaves the promise pending for good, and the later timeout is ignored. The corrected `finish` resolves it. |
| FinishAsWritten.AgreesOnceTimerExists | src/background/analyzer/analyzerEngine.js:118-148 | Once `timer` is initialised, the as-written and corrected `finish` agree. |
| ReactController.HookMapping | src/sections/analyzer/analyzerController.js:15-27 | `analyzer_scanComplete` calls `onScanComplete(data)`, and `analyzer_runtimeScanUpdate` calls `onRuntimeScanUpdate(url, data)`. `analyzer_runtimeScanComplete` calls `onRuntimeScanComplete(allResults)`, and `analyzer_scanError` calls `onScanError(message)`. |
| ReactController.CallsOnAppend | src/sections/analyzer/analyzerController.js:14 | The calls a subscriber receives over two runs of the loop are those of each run, in order. |
| ReactController.UnknownTypeCallsNothing | src/sections/analyzer/analyzerController.js:28-30 | A message of any other type calls no hook on any subscriber. |
| ReactController.DispatchOncePerSubscriber | src/sections/analyzer/analyzerController.js:14-32 | Each subscriber receives exactly its matching hook once when it defines it, and nothing otherwise. A non-subscriber receives nothing. |
| ReactController.Removed | src/sections/analyzer/analyzerController.js:45 | Deleting never grows the set. |
| ReactController.AddedSpec | src/sections/analyzer/analyzerController.js:44 | Adding keeps the subscribers distinct and adds exactly the new one. Adding the same object again changes nothing. |
| ReactController.RemovedSpec | src/sections/analyzer/analyzerController.js:45 | Unsubscribe removes exactly that subscriber, and the others remain. |
| ReactController.RemovedDistinct | src/sections/analyzer/analyzerController.js:45 | Deleting keeps the subscribers distinct. |
| ReactController.RemovedAbsent | src/sections/analyzer/analyzerController.js:45 | Unsubscribing an absent subscriber, as a second call does, changes nothing. |
| ReactController.RemovedAdded | src/sections/analyzer/analyzerController.js:44-45 | Unsubscribing a new subscriber restores the set it joined. |
| ReactController.Subscriber.constructor | src/sections/analyzer/analyzerController.js:5 | A subscriber object defines exactly the hooks it was given. |
| ReactController.AnalyzerReactController.constructor | src/sections/analyzer/analyzerController.js:4-7 | A new controller has no subscribers and has installed its listener once. |
| ReactController.AnalyzerReactController.InitMessageListenerOnce | src/sections/analyzer/analyzerController.js:9-13 | The listener is installed at most once per controller: a second call changes nothing. |
| ReactController.AnalyzerReactController.OnMessage | src/sections/analyzer/analyzerController.js:43-44 | Subscribing adds the callbacks object with `Set` semantics. |
| ReactController.AnalyzerReactController.Unsubscribe | src/sections/analyzer/analyzerController.js:45 | The unsubscribe function deletes that object and reports whether it was present. |
| ReactController.AnalyzerReactController.Dispatch | src/sections/analyzer/analyzerController.js:13-33 | One message makes, in subscriber order, exactly the calls `DispatchOncePerSubscriber` describes. |

## Left out

- Browser I/O is not modelled. This covers `tabs.get`, `tabs.query`, `scripting.executeScript` and `tabs.executeScript`, `runtime.onMessage` and `sendResponse`, listener add and remove, and the storage calls. Their results are inputs. Errors from the storage writes, `tabs.query` and listener handling are swallowed as in the source. A failed `executeScript` in `runOneTimeScan` is not swallowed: it is the injection-failure outcome, modelled by `InjectionReturned`. The three `browser.storage.local.get(null)` reads in `getLocalScanResults`, `getLastRuntimeResults` and `getAllRuntimeResults` are not caught, so a failed read rejects them; the model has no read failure.
- `Date.now()`, `setTimeout` and `clearTimeout` are not modelled as such. The time is a parameter, the timer is a `Timer` value, and its expiry is the `TimerFires` event.
- `async` interleaving is not modelled. Each method runs to completion. `startRuntimeScan` is taken as one step, so a result that arrives during its awaits is not interleaved. Steps of `runOneTimeScan` on either side of its awaits are separate methods.
- Engine.AnalyzerEngine.StopRuntimeScan: the await on the storage write runs while `_runtimeActive` is still true, and the model does not interleave it. In that window a second `stopRuntimeScan` also succeeds, writing a second run and calling `onComplete` twice. A runtime result arriving then is pushed into `_runtimeDataset`, which is the returned `run.dataset` itself, so that run can hold more records than its `totalScans`. The contract, "a stop after a completed stop fails" and `totalScans` equal to the dataset's records, holds for calls that do not overlap.
- Extractor.HeadOf and Extractor.BodyOf: the head `meta`, `links` and `scripts`, and the body `headings`, `links`, `videos`, `audios`, `iframes` and `lists`, are modelled field by field as in the source. They carry no contracts of their own; only `forms`, `images`, `tables` and `stats` have lemmas.
- Extractor.BodyOf: `tables` uses the corrected, nested `TableOf` (see Findings). The source, and so every `ScanRecord` it stores, has flat `rows`; the as-written form is `TableRowsAsWritten`.
- Extractor.Attr: cheerio's `attr` has special cases the model does not follow. It returns "on" as the `value` of a checkbox or radio button that has no `value` attribute, so the source's `inputs[].value` is "on" where the model has none. This comes from cheerio's behaviour, not from the files modelled.
- Extractor.ScriptOf: `slice(0, 50)` counts UTF-16 code units; the model counts characters, which differs for text outside the Basic Multilingual Plane.
- Cheerio's parser is not modelled. The tree is an input, and tag names are taken as the parser reports them.
- Cheerio's `html()` of a script is taken as its text.
- A `processHtml` that throws is not modelled; the runtime branch's `catch` would swallow it.
- The order of `storage.local.get(null)` is the storage backend's. In the model, writing an existing key replaces it in place and a new key goes at the end.
- KeyListing.LastKey: when any `analyzerRuntime_…` key has no numeric suffix, the source's comparator returns `NaN` for it. A single such key between numeric ones already makes the comparator inconsistent (5 and 9 each compare equal to it, yet 5 sorts after 9), so the order is left to the JavaScript engine. The model picks the first entry with the largest numeric suffix, else the first candidate. The model's `Number` reads only decimal digits, while JavaScript's also reads a sign, an exponent, a hexadecimal prefix and surrounding whitespace. A stray key such as `analyzerRuntime_-5` or `analyzerRuntime_1e3` is therefore ranked as NaN here but as a number by the source. Listed runs are unaffected, because their suffix must be all digits.
- An `analyzerRuntime_lastKey` value that is not a string is treated as absent.
- Numbers beyond 2^53, where `Number` loses precision, are not modelled.
- Keys that collide with `Object.prototype` members are not modelled. In `tagCount`, a tag named `constructor` would start from that member. In the runtime dataset, a page url equal to such a name (`constructor`, `__proto__`) makes the `if (!dataset[key])` test skip the initialisation. The `push` that follows then throws, and the `catch` drops the event; the model appends it.
- `null` and `undefined` are not distinguished. Both are `None`.
- Hook payloads are abstract values. A hook that throws, or that subscribes or unsubscribes during dispatch, is not modelled: the set does not change during the loop.
- The session getters and sender methods of the UI controller are not modelled (src/sections/analyzer/analyzerController.js:48-93). They only send messages or read storage.
- src/background/analyzerController.js, the React pages and the router are not part of this model.
- Logging is not modelled.

## Findings

| source | as written | input that shows it | evidently intended | confidence | as-written member | corrected member |
|---|---|---|---|---|---|---|
| src/background/analyzer/analyzerEngine.js:118-148 | `finish` calls `clearTimeout(timer)` but `const timer` is declared after the injection, so a `finish` before then throws in the temporal dead zone after setting `settled` | a failing injection (`InjectionReturned` with `ok == false`) | the promise rejects with the injection error and the slot is emptied | not executed | FinishAsWritten.InjectionFailureStaysPending | Engine.Finish |
| src/background/analyzer/analyzerEngine.js:128-150 | a result delivered while the injection is still awaited runs `finish`, which throws the same way; the timer armed later fires into a settled request | a result message before `executeScript` resolves | the promise resolves with the results | not executed | FinishAsWritten.EarlyResultStaysPending | Engine.AnalyzerEngine.DeliverResult |
| src/background/analyzer/analyzerEngine.js:339-343 | cheerio's `.map` flattens arrays returned by its callback, so `rows` is one flat list of cell texts | a table with one row of cells `a`, `b` versus a table with rows `a` and `b` | one list of cell texts per row | not executed | Extractor.TableRowsAsWrittenLosesRows | Extractor.TableOf |
