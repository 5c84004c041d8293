# winproxy backend, modelled in Dafny

`proxy_backend.py` is the engine behind a Windows proxy tester. The
`ProxyBackend` object keeps three things:

- a candidate list `proxy_list`, loaded from a text file, a cache file of
  working proxies, manual entry or the clipboard;
- the results of a concurrent test run, `test_results`;
- the best proxy found so far, `best_proxy`.

It compiles statistics over the results, sorts, filters and exports them,
appends every fast working proxy to the cache file, and can make a proxy the
system proxy through `netsh winhttp`.

This project models that backend and proves what it promises:

- **Line normaliser** (module `Normalizer`). `_parse_proxy_line` takes three
  input shapes (`user:pass@host:port`, `host:port:user:pass`, `host:port`) to
  `host:port`, or to `""` for anything else.
- **Candidate registry** (module `Registry`). Loading a proxy file replaces
  `proxy_list` with the file's non-empty normalised lines, in first-seen
  order and without duplicates, and then merges the cache file in. The cache,
  manual and clipboard loaders merge into the list without replacing it: the old list stays a prefix, only non-empty new
  values are appended, in first-seen order, and no duplicate ever enters.
  Files are modelled as their sequences of lines.
- **Probe of one proxy** (module `Probe`). The outcome of `test_proxy_async`
  follows from its inputs: the TCP outcome, the reply to each test URL, the
  geolocation lookup and the anonymity reflector. That includes the HTTP stage
  and the HTTPS fallback, the geolocation and anonymity rule, and the 3000 ms
  cut-off for persisting a proxy.
- **Aggregation** (module `Aggregation`). It covers the best-proxy rule,
  `_compile_final_stats` and `get_stats`, stable sorting by a field,
  filtering, the export of working proxies, and `get_smart_best_proxy`'s
  choice.
- **Cache file** (module `Cache`). `save_proxy` appends the proxy and a line
  break unless the file already holds it.
- **Backend object** (module `Backend`, class `ProxyBackend`). The
  list-changing operations, and the `run_full_test_async` loop over
  completions with a stop request at any point.
- **System proxy** (module `Activation`). The validation in
  `set_windows_proxy`, and how `verify_proxy_setting` and
  `_check_current_proxy` read the output of `netsh winhttp show proxy`.

Python's string operations (`strip`, `split`, `count`, `startswith`, `in`,
`isdigit`, `int`, `lower`) are written out in module `Text`. Its lemmas state
the properties that the rest of the model uses.

Network replies, file contents, clipboard text, command runs, the wall-clock
timestamp and the order in which tasks complete are all parameters of the
model.

## Model

| member | source | states |
|---|---|---|
| Normalizer.ParseProxyLine | proxy_backend.py:153-174 | the result is `""` or holds a `:` |
| Normalizer.ParseFixpoints | proxy_backend.py:153-174 | a stripped non-empty line is its own normal form exactly when it has one `:`, an all-digit port and no credential part |
| Normalizer.ParseIgnoresOuterSpace | proxy_backend.py:155 | normalising the stripped line gives the same result as normalising the raw line |
| Normalizer.ParseIdempotentOnPlain | proxy_backend.py:168-172 | a raw line whose stripped text is a plain `host:port` without credentials normalises to that text, and normalising it again changes nothing |
| Normalizer.ParseCredentialShape | proxy_backend.py:157-161 | `user@host:port` yields `host:port`, whatever the port looks like |
| Normalizer.ParseFourFieldShape | proxy_backend.py:163-166 | `host:port:user:pass` yields `host:port` |
| Normalizer.ParsePlainShape | proxy_backend.py:168-174 | `host:port` yields itself when the port is digits, `""` otherwise |
| Normalizer.ParseRejectsColonless | proxy_backend.py:168-174 | a line without `:` yields `""` |
| Normalizer.ParseNotIdempotent | proxy_backend.py:157-172 | normalising is not idempotent: `u@h:x` gives `h:x`, which gives `""` |
| Normalizer.ParseCredentialExample | proxy_backend.py:157-161 | `user:pw@1.2.3.4:8080` gives `1.2.3.4:8080` |
| Normalizer.ParseFourFieldExample | proxy_backend.py:163-166 | `1.2.3.4:8080:user:pw` gives `1.2.3.4:8080` |
| Normalizer.ParseBareAddressExample | proxy_backend.py:168-174 | a bare address without a port gives `""` |
| Normalizer.ParseEmptyPortExample | proxy_backend.py:169-171 | `host:` gives `""`, because an empty port is not digits |
| Registry.FileCandidate | proxy_backend.py:132-136 | a file line that is a comment once stripped yields nothing; every line yields `""` or a candidate holding a `:` |
| Registry.CacheEntries | proxy_backend.py:181-182 | the cache entries are stripped and non-empty, one per kept line at most; the `#` test applies to the raw line |
| Registry.AppendNew | proxy_backend.py:185-188 | a merge keeps the old list as a prefix |
| Registry.Merged | proxy_backend.py:186-188 | one merge step: the value is held afterwards exactly when it is non-empty or was held before; the old list stays a prefix and at most one entry is added |
| Registry.AppendNewNoDup | proxy_backend.py:185-188 | a duplicate-free list stays duplicate-free through a merge |
| Registry.WellFormedAppend | proxy_backend.py:680-682 | appending a new, non-empty candidate holding a `:` keeps the registry distinct and well-formed |
| Registry.AppendNewMembers | proxy_backend.py:185-188 | after a merge the list holds exactly the old entries and the non-empty merged values |
| Registry.AppendNewIsFirstSeen | proxy_backend.py:137-139 | a merge appends exactly the non-empty values not seen before, in first-seen order |
| Registry.AppendNewWellFormed | proxy_backend.py:185-188 | merging normaliser outputs keeps the list distinct, non-empty and made of `host:port` candidates |
| Registry.MergeRepeated | proxy_backend.py:137-139 | a value that repeats is merged once |
| Registry.LoadExample | proxy_backend.py:129-141 | a file holding one line twice loads it once, followed by the other line |
| Registry.FileCandidatesOfCanonical | proxy_backend.py:132-136 | lines that are already canonical load as themselves |
| Registry.PlainLineLoads | proxy_backend.py:132-136 | a clean `host:port` line with a digit port loads as itself |
| Backend.FileProxies | proxy_backend.py:129-139 | the file loop builds exactly the first-seen merge of the file's candidates into an empty list |
| Backend.ProxyBackend.constructor | proxy_backend.py:65-85 | a new backend has an empty list, no results, no best proxy and is not testing; its settings are the defaults |
| Backend.ProxyBackend.LoadProxiesFromFile | proxy_backend.py:120-151 | a missing file changes nothing; an unreadable file leaves the list alone and reports the error; otherwise the list is replaced by the file's merge, followed by the cache's merge |
| Backend.ProxyBackend.LoadWorkingProxies | proxy_backend.py:176-193 | the cache candidates are merged after the current list; the registry invariant is kept |
| Backend.ProxyBackend.Merge | proxy_backend.py:186-188 | the registry takes one `Merged` step; the result says whether the value was appended; nothing else changes |
| Backend.ProxyBackend.MergeAll | proxy_backend.py:771-775 | the loop merges every candidate in order, giving the `AppendNew` merge, and counts exactly the entries added; nothing else changes |
| Backend.ProxyBackend.AddProxyManual | proxy_backend.py:672-689 | the call succeeds exactly when the normalised text is non-empty and new; the list grows by that one entry; one message for each of the three outcomes |
| Backend.ProxyBackend.ImportFromClipboard | proxy_backend.py:763-783 | every clipboard line is merged after the list; the call succeeds exactly when the list grew, and the message gives the number added; a clipboard error changes nothing |
| Backend.ProxyBackend.ClearAll | proxy_backend.py:732-737 | list, results and best proxy are emptied, and testing stops |
| Backend.ProxyBackend.StopTesting | proxy_backend.py:453-455 | only the testing flag changes, to false |
| Backend.ProxyBackend.RunFullTest | proxy_backend.py:363-451 | it refuses while a run is active and when no candidates are loaded; otherwise the results are the probe results of the consumed completions in completion order, the best proxy is the incremental rule over them, progress is reported once per non-skipped completion, the reply carries the final statistics, and testing has stopped |
| Backend.ProxyBackend.LaunchTasks | proxy_backend.py:395-400 | tasks are launched for the candidates before the stop request, and no others |
| Backend.ProxyBackend.RecordResult | proxy_backend.py:420-433 | a result is appended and the best proxy moves by the incremental rule, so it stays the best of all results so far; nothing else changes |
| Backend.ProxyBackend.ConsumeCompletions | proxy_backend.py:402-443 | the loop over completions collects results, keeps the best proxy and reports progress, as `Collected`, `IncrementalBest` and `Reports` describe |
| Backend.ProxyBackend.GetSmartBestProxy | proxy_backend.py:785-815 | the scan yields `SmartBest`: the best active result, else the first cache entry |
| Backend.Launched | proxy_backend.py:396-400 | fewer tasks than candidates are launched exactly when a stop comes during the launch loop |
| Backend.Consumed | proxy_backend.py:405-415 | no more completions are consumed than were launched, and all of them when there is no stop |
| Backend.Produced | proxy_backend.py:418-420 | a task adds a result exactly when it was consumed and produced one |
| Backend.Reported | proxy_backend.py:419-443 | progress is reported at most once per consumed completion |
| Backend.Reports | proxy_backend.py:436-443 | the progress reports are `(1, total)`, `(2, total)`, … in order |
| Backend.CollectedIsProduced | proxy_backend.py:418-420 | the j-th result is the probe result of the j-th completion that produced one |
| Backend.ProducedDistinct | proxy_backend.py:405-420 | each candidate contributes at most one result |
| Backend.CollectedPrefix | proxy_backend.py:405-415 | the results of a stopped run are a prefix of those of a longer run |
| Backend.RunBestIsScanBest | proxy_backend.py:424-433 | with distinct candidates, the best proxy kept during the run is the best active result over the whole collection |
| Backend.FullRunCoversAll | proxy_backend.py:396-420 | without a stop, every candidate's probe result is among the results |
| Probe.DefaultSettings | proxy_backend.py:74-85 | the defaults have HTTPS fallback on and four test URLs |
| Probe.FirstHit | proxy_backend.py:250-264 | the first URL of the scheme that answered 200 is found, and none before it did |
| Probe.TestStage | proxy_backend.py:246-291 | a stage succeeds exactly when some URL of its scheme answered 200, reports that reply's time, and 9999 on failure |
| Probe.DetectProxyInfo | proxy_backend.py:293-326 | Elite is never assigned; a failed lookup leaves the defaults; Transparent exactly when the reflector answered 200 with a `via`/`x-forwarded-for` header, Anonymous when it answered 200 without one; after a 200 reply whose body says `"status": "success"`, the country, country code and ISP are the body's values, or "Unknown", "XX" and "Unknown" for a missing key; otherwise they keep those defaults |
| Probe.StageResult | proxy_backend.py:246-291 | a stage reports success exactly when some URL of its scheme answered 200; the time is that of the first such URL in list order, and 9999 on failure |
| Probe.ProbeConnected | proxy_backend.py:212-242 | after a successful connection the result is Active exactly when some stage that ran answered 200, with the TCP time as ping and the country, country code, anonymity and ISP that `DetectProxyInfo` gives; its time is that of the first HTTP URL that answered 200, or, when none did, of the first HTTPS URL that did, and HTTPS is tried only with `test_https` on; otherwise Failed with the TCP time and 9999; persisted exactly when Active under 3000 ms |
| Probe.TestProxy | proxy_backend.py:195-245 | the result names the proxy and is never Timeout; a malformed proxy gives Error/9999/9999; a refused connection gives Failed/9999/9999; any other connect exception gives Error/9999/9999; the result is Active exactly when connected and some stage answered 200, with the TCP time as ping, the country, country code, anonymity and ISP that `DetectProxyInfo` gives, and the time of the first 200 of the HTTP stage, or else of the HTTPS fallback; the proxy is persisted exactly when Active under 3000 ms |
| Probe.ProbeNeverElite | proxy_backend.py:195-245 | no probe result is ever Elite |
| Aggregation.BestIndex | proxy_backend.py:424-433 | the best result is active and beats every other active result on HTTP time, then ping, then position; there is none exactly when no result is active |
| Aggregation.BestIsUnique | proxy_backend.py:424-433 | at most one position is best |
| Aggregation.FirstWithProxy | proxy_backend.py:428 | the lookup returns a result with that proxy; it returns none exactly when no result has that proxy |
| Aggregation.FirstWithProxyDistinct | proxy_backend.py:428 | with distinct proxies the lookup finds the very result |
| Aggregation.UpdateBest | proxy_backend.py:424-433 | an inactive result leaves the best unchanged; otherwise the best becomes either the old best or the new result |
| Aggregation.IncrementalMatchesScan | proxy_backend.py:424-433 | with distinct non-empty proxies, the incremental rule picks the best result of the whole sequence |
| Aggregation.IncrementalIgnoresInactive | proxy_backend.py:424 | an inactive result never changes the best proxy |
| Aggregation.BestRuleExample | proxy_backend.py:430-433 | a tie on HTTP time is broken by the lower ping |
| Aggregation.Actives | proxy_backend.py:460 | the active results, all of status Active |
| Aggregation.ActivesInactivesPartition | proxy_backend.py:460-461 | active plus failed results make up all results |
| Aggregation.ActivesMembers | proxy_backend.py:460 | a result is listed as active exactly when it is a result with status Active |
| Aggregation.Min | proxy_backend.py:466-468 | `min` is a member, and no element is smaller |
| Aggregation.MinAtMostMean | proxy_backend.py:466-469 | the minimum does not exceed the floored mean |
| Aggregation.SuccessRateBounds | proxy_backend.py:481 | the rate is a percentage; 100 exactly when every tested proxy is active; 0 exactly when none is |
| Aggregation.FinalStatsCounts | proxy_backend.py:458-484 | active plus failed equals tested; no result is active exactly when none has Active status; the success rate is a percentage, 0 when nothing was tested |
| Aggregation.FinalStatsBestAttained | proxy_backend.py:458-484 | the best ping and HTTP time belong to some active result and do not exceed the floored averages; all four are 0 without an active result |
| Aggregation.FinalStatsBestIsMinimal | proxy_backend.py:458-484 | no active result has a lower ping or HTTP time than the reported best |
| Aggregation.GetStats | proxy_backend.py:486-489 | no statistics exactly when nothing was tested |
| Aggregation.GetStatsAgrees | proxy_backend.py:486-505 | `get_stats` agrees with `_compile_final_stats` on every field they share |
| Aggregation.SmartBest | proxy_backend.py:785-815 | the best active result is chosen when there is one with a non-empty proxy; otherwise the first cache entry is chosen whenever the cache file has one, and a cache proxy is never chosen in any other case; with neither, the answer is none (or the empty best proxy itself) |
| Aggregation.ParseSortField | proxy_backend.py:611-622 | the five field names are recognised, and any other leaves the order alone |
| Aggregation.StrLeTotal | proxy_backend.py:618-620 | string order is total |
| Aggregation.StrLeTrans | proxy_backend.py:618-620 | string order is transitive |
| Aggregation.StrLeAntisym | proxy_backend.py:618-620 | string order is antisymmetric |
| Aggregation.KeyLeTrans | proxy_backend.py:611-620 | key order is transitive |
| Aggregation.SortBy | proxy_backend.py:611-620 | sorting permutes the results |
| Aggregation.SortBySorted | proxy_backend.py:611-620 | sorting orders the results by the field |
| Aggregation.SortByStable | proxy_backend.py:611-620 | results with equal keys keep their relative order, as Python's sort does |
| Aggregation.SortedResults | proxy_backend.py:606-624 | the output is a permutation of the results, and an unknown field keeps their order |
| Aggregation.SortedResultsOrdered | proxy_backend.py:606-624 | a known field yields a stable sort by that field |
| Aggregation.KeepSubsequence | proxy_backend.py:633-643 | each filter keeps a subsequence |
| Aggregation.KeepMembers | proxy_backend.py:633-643 | each filter keeps exactly the results that pass it |
| Aggregation.KeepKeep | proxy_backend.py:631-643 | two filters in a row act as their conjunction |
| Aggregation.FilteredIsOnePass | proxy_backend.py:626-645 | the chain of filters keeps exactly the results matching every given criterion, in their original order |
| Aggregation.ActiveProxies | proxy_backend.py:513-514 | one exported proxy per active result |
| Aggregation.ExportLines | proxy_backend.py:516-519 | a `#` header line, then one line per active result, every line ending with a line break |
| Aggregation.ExportRoundTrip | proxy_backend.py:507-519 | when every active proxy is non-empty, has no surrounding whitespace and does not start with `#`, reading an exported file as a cache yields exactly the exported proxies |
| Aggregation.SaveWorkingProxies | proxy_backend.py:507-523 | the save succeeds exactly when the write does, and then the file written is `ExportLines` under the given or default name, and the reply reports the count and the file name; a failed write reports its error |
| Aggregation.SavedExportReadsBack | proxy_backend.py:507-523 | under the same condition as `ExportRoundTrip`, the file a successful save writes reads back as a cache file as exactly the active proxies |
| Aggregation.ExportFileName | proxy_backend.py:509-510 | a given file name is used as it is |
| Cache.StoredEntries | proxy_backend.py:337-344 | the stored entries are non-empty, stripped, and not comments |
| Cache.StoredEntriesHas | proxy_backend.py:341-344 | every entry line is in the set, wherever it stands |
| Cache.AppendText | proxy_backend.py:348-349 | appending text in mode `'a'` grows the file's text by exactly that text: a new last line after a terminated file, the end of the last line otherwise |
| Cache.SaveProxy | proxy_backend.py:334-352 | the file is `SavedFile`: unchanged when the proxy is already stored, otherwise its text grows by the proxy and a line break; a missing file is created; an unreadable one is left alone |
| Cache.SaveKeepsTerminated | proxy_backend.py:348-349 | a save keeps a file whose last line ends with a line break in that shape |
| Cache.SaveIdempotent | proxy_backend.py:347-349 | saving the same proxy twice into a missing or terminated file changes it once |
| Cache.UnterminatedSaveJoinsLines | proxy_backend.py:347-349 | a one-line file without a final line break absorbs the proxy into its line: the proxy is not read back, and a second save appends again |
| Cache.StoredIsCacheEntry | proxy_backend.py:181-182 | an entry `save_proxy` sees is also an entry for the cache reader |
| Cache.SavedProxyIsLoaded | proxy_backend.py:176-188 | after a save into a missing or terminated file, the next load of the cache sees the proxy |
| Activation.ValidateProxy | proxy_backend.py:527-535 | a bad format means no `:` at all; the unpack error means more than one `:`; an accepted proxy is `host:port` with a decimal port from 1 to 65535 |
| Activation.AcceptsHostPort | proxy_backend.py:527-535 | every `host:port` with a colon-free host and a port in range is accepted, as those two parts |
| Activation.RejectsPortOutOfRange | proxy_backend.py:534-535 | a digit port outside 1..65535 gives "Invalid port number" |
| Activation.CanonicalEntryValidation | proxy_backend.py:527-535 | a candidate the normaliser keeps as it is passes the format checks, and is accepted exactly when its port is in range |
| Activation.FailureText | proxy_backend.py:562-565 | the failure text is never empty; it is the stripped stderr when that has content, the stripped stdout when stderr is empty and stdout has content, and "Command failed with code N" when the chosen text is blank |
| Activation.SetWindowsProxy | proxy_backend.py:525-576 | success exactly when validation accepts and the set command exits with 0; then "Proxy set" exactly when the read-back confirms, and "Proxy set (verification pending)" otherwise; the two validation messages; the unpack error, timeout, raised-error and "Failed: " + failure-text messages of the failure paths |
| Activation.RefusedRunsNothing | proxy_backend.py:527-535 | a refused proxy fails whatever the commands would do |
| Activation.FirstMention | proxy_backend.py:591-592 | the first line that mentions the proxy server; no line before it does |
| Activation.FieldAsWritten | proxy_backend.py:593 | the value read as written never holds a `:` |
| Activation.FieldsAgreeOnOneColon | proxy_backend.py:593 | on a line with a single `:`, both readings give the same value |
| Activation.ReadBack | proxy_backend.py:578-604 | confirmation only after a zero exit code and without a "no proxy" report; a "no proxy" report gives its message; a raised error or a timeout gives "Verification error"; a non-zero exit code gives "Verification command failed" with stderr |
| Activation.VerifyProxySettingAsWritten | proxy_backend.py:578-604 | it confirms only after a zero exit code and without a "no proxy" report |
| Activation.VerifyProxySetting | proxy_backend.py:578-604 | the same, reading the whole value after the first `:` |
| Activation.AsWrittenNeverConfirmsHostPort | proxy_backend.py:593-597 | as written, no proxy containing a `:` is ever confirmed |
| Activation.NoneReadsAsNoProxy | proxy_backend.py:586-587 | any output mentioning `none`, such as a bypass list shown as `(none)`, reads as "no proxy set" |
| Activation.ReportLines | proxy_backend.py:590-592 | output made of lines joined by line breaks splits back into those lines, and the first that mentions the proxy server is the report line when no line before it does |
| Activation.ConfirmsReportedProxy | proxy_backend.py:584-595 | corrected, output of any number of lines whose first proxy-server line is `Proxy Server(s) : <proxy>` confirms that proxy, colon and port included, unless it mentions direct access or `none` |
| Activation.MatchesReportedProxy | proxy_backend.py:590-597 | corrected, output whose first proxy-server line reports a value confirms exactly when that value contains the expected proxy, and otherwise gives "Proxy mismatch" naming both |
| Activation.ReadingsDisagreeOnHostPort | proxy_backend.py:593 | on such output, the as-written reading fails and the corrected one confirms |
| Activation.SetAndVerified | proxy_backend.py:547-559 | a validated proxy whose set command succeeds, and whose read-back output reports it on its first proxy-server line, is announced as set |
| Activation.CurrentProxy | proxy_backend.py:710-724 | any exception gives "Unknown"; output mentioning "Direct access" gives "No Proxy" |
| Activation.CheckCurrentProxyAsWritten | proxy_backend.py:710-724 | as written, the status never holds a `:`, so it never shows a port |
| Activation.CheckCurrentProxy | proxy_backend.py:710-724 | the corrected reader, with the same exception and "No Proxy" cases |
| Activation.ShowsReportedProxy | proxy_backend.py:714-721 | corrected, output of any number of lines whose first `Proxy Server` line is `Proxy Server(s) : <proxy>` shows the whole proxy, unless it mentions `Direct access` |
| Activation.StatusDropsPort | proxy_backend.py:721 | as written, the same output shows something else whenever the proxy holds a `:` |

## Left out

- Network I/O: TCP connects, HTTP(S) requests, the geolocation lookup and the reflector. Their outcomes and elapsed milliseconds are inputs (`Probe.ProbeEnv`); `time.time()` and `datetime.now()` are not modelled, and the timestamps are input strings.
- Concurrency: the semaphore and `max_workers`, task creation, cancellation and `gather`. Completion order is an arbitrary permutation of the launched tasks. A stop request is one point in the launch loop or the completion loop.
- Backend.ProxyBackend.RunFullTest: the `except` branch that turns an unexpected exception in the run into `{"error": ...}` is not modelled. A task whose result raises is an outcome that counts for progress but adds no result.
- Backend.ProxyBackend.RunFullTest: the persisting of fast proxies is a flag on each probe outcome (`ProbeOutcome.persist`). The threaded append to the cache file is modelled separately by `Cache.SaveProxy`, and the run does not thread a cache file through its loop. The thread's 2-second `join` timeout is not modelled.
- `result_callback`, `progress_callback` (kept as the list of reports), logging and `winsound` beeps.
- Running `netsh` and the clipboard access (`tkinter`): their results are inputs (`Activation.CommandRun`, `Backend.ClipboardRead`).
- `load_settings`, `save_settings`, `update_settings` and `export_results_json` (JSON files), `_ensure_working_proxies_file` (creating the cache file's header), `test_single_proxy` (event-loop plumbing around `test_proxy_async`), `auto_set_best_proxy` (a call of `set_windows_proxy` on `best_proxy`) and `get_connection_status` (an HTTP request wrapped around `_check_current_proxy`).
- Probe.DetectProxyInfo: a JSON `null` or a non-string value for `country`, `countryCode` or `isp` is not modelled. Each key is a string or absent, so where `.get` would return `None` or that value, the model has the default or a string.
- Aggregation.SaveWorkingProxies: a write that raises partway through leaves a partial file; the model records no written file for a failed save.
- `success_rate` is a real number, not a floating-point value.
- `isdigit`, `int()` and `lower()` work on ASCII only. Other Unicode digits and letters are not modelled.
- Files are sequences of lines. Line endings are kept on each line and removed by `strip()`, as with `readlines()`. Text appended to a file whose last line has no line break continues that line (`Cache.AppendText`).
- Cache.SaveIdempotent, Cache.SavedProxyIsLoaded: both require a missing cache file or one whose last line ends with a line break, as the backend writes it. For a hand-edited file without that final line break they are false: `save_proxy` runs the proxy into the last line (`Cache.UnterminatedSaveJoinsLines`).
- Activation.ValidateProxy: the unpack error message is CPython's wording before 3.13 ("too many values to unpack (expected 2)").
- Backend.ProxyBackend.ImportFromClipboard: the lines are normalised before the merge loop (`Registry.LineCandidates`) rather than one by one inside it. Normalising is pure, so the merged list and the count are the same. `Backend.ProxyBackend.LoadWorkingProxies` does the same with the cache entries.
- Backend.FileProxies: the file loop of `load_proxies_from_file` works on local variables, so it is a module-level method whose result the class method assigns.
- Activation.SetWindowsProxy: it uses the corrected read-back `VerifyProxySetting`. With the read-back as written, it never reports "Proxy set" for a valid proxy (`Activation.AsWrittenNeverConfirmsHostPort`).

## Findings

| source | as written | input that shows it | evidently intended | confidence | as-written member | corrected member |
|---|---|---|---|---|---|---|
| proxy_backend.py:593 | `line.split(':')[1].strip()` keeps only the text between the first and second `:` of the `Proxy Server` line | expected `1.2.3.4:8080`, output line `    Proxy Server(s) :  1.2.3.4:8080`: the value read is `1.2.3.4`, so the result is "Proxy mismatch". Separately, line 586 reports "No proxy set" for any output containing `none`, such as a `Bypass List : (none)` line, whichever reading is used (`Activation.NoneReadsAsNoProxy`) | compare with everything after the first `:` (`split(':', 1)[1]`) | not executed | Activation.AsWrittenNeverConfirmsHostPort | Activation.ConfirmsReportedProxy |
| proxy_backend.py:721 | `_check_current_proxy` reads the proxy with the same `split(':')[1]` | output line `    Proxy Server(s) :  1.2.3.4:8080`: the status is `1.2.3.4`, and the port is lost | report everything after the first `:` | not executed | Activation.StatusDropsPort | Activation.ShowsReportedProxy |
