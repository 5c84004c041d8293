/**
 * `ProxyBackend`: the candidate registry, the results of the last run and
 * the best candidate, updated in place by the loaders, the manual and
 * clipboard imports, `clear_all`, `stop_testing` and the test run.
 *
 * What the outside world supplies is a parameter: the contents of the
 * candidate file and of the cache file, the clipboard text, and for a run
 * the outcome of every candidate's task, the order in which the tasks
 * complete and the moment, if any, at which `stop_testing` is called.
 */
module Backend {
  import opened Wrappers
  import opened Text
  import opened Normalizer
  import opened Registry
  import opened Probe
  import opened Aggregation

  /** What `tk.Tk().clipboard_get()` gives: the text, or the error it raised. */
  datatype ClipboardRead = ClipboardText(text: string) | ClipboardRaised(error: string)

  /** What a task of the run ends with: a probe, `None` (it saw the stop flag), or an exception. */
  datatype TaskOutcome = Probed(env: ProbeEnv) | Skipped | TaskRaised

  /**
   * When `stop_testing` runs during a test: just before the launch loop
   * checks the flag for candidate `at` (`at` = number of candidates: after
   * the last launch), or just before the completion loop checks it for the
   * `at`-th completed task. A moment the run never reaches never happens.
   */
  datatype StopRequest = NoStop | DuringLaunch(at: nat) | DuringCompletion(at: nat)

  /** The reply of `run_full_test_async`: an error, or the final statistics. */
  datatype RunReply = Refused(error: string) | Finished(stats: FinalStats)

  /** How many tasks the launch loop creates for `n` candidates. */
  function Launched(n: nat, stop: StopRequest): (m: nat)
    ensures m <= n
    ensures m < n <==> stop.DuringLaunch? && stop.at < n
  {
    if stop.DuringLaunch? && stop.at < n then stop.at else n
  }

  /** How many completed tasks the completion loop examines before it sees the flag down. */
  function Consumed(n: nat, stop: StopRequest): (m: nat)
    ensures m <= Launched(n, stop)
    ensures stop.NoStop? ==> m == n
  {
    if stop.DuringLaunch? && stop.at <= n then 0
    else if stop.DuringCompletion? && stop.at < n then stop.at
    else Launched(n, stop)
  }

  /** `order[k]` is the candidate whose task is the `k`-th to complete: a permutation of the launched ones. */
  predicate IsCompletionOrder(order: seq<nat>, m: nat) {
    && |order| == m
    && (forall k :: 0 <= k < m ==> order[k] < m)
    && (forall k, l :: 0 <= k < l < m ==> order[k] != order[l])
    && (forall i :: 0 <= i < m ==> i in order)
  }

  /** One outcome per candidate, and every probe sees one attempt per test URL. */
  predicate Consistent(settings: Settings, proxies: seq<string>, outcomes: seq<TaskOutcome>) {
    && |outcomes| == |proxies|
    && forall i :: 0 <= i < |outcomes| && outcomes[i].Probed? ==> |outcomes[i].env.attempts| == |settings.testUrls|
  }

  predicate IndicesBelow(idx: seq<nat>, n: nat) {
    forall k :: 0 <= k < |idx| ==> idx[k] < n
  }

  /** The result of the task of candidate `i`, which ran its probe. */
  function ResultOf(settings: Settings, proxies: seq<string>, outcomes: seq<TaskOutcome>, i: nat): ProxyResult
    requires Consistent(settings, proxies, outcomes) && i < |proxies| && outcomes[i].Probed?
  {
    TestProxy(settings, proxies[i], outcomes[i].env).result
  }

  /** The results appended to `test_results` when the tasks of `idx` complete in that order. */
  function Collected(settings: Settings, proxies: seq<string>, outcomes: seq<TaskOutcome>, idx: seq<nat>): seq<ProxyResult>
    requires Consistent(settings, proxies, outcomes) && IndicesBelow(idx, |proxies|)
    decreases |idx|
  {
    if idx == [] then []
    else
      var i := idx[|idx| - 1];
      Collected(settings, proxies, outcomes, idx[..|idx| - 1])
        + (if outcomes[i].Probed? then [ResultOf(settings, proxies, outcomes, i)] else [])
  }

  /** The candidates, in completion order, whose task produced a result. */
  function Produced(outcomes: seq<TaskOutcome>, idx: seq<nat>): (ps: seq<nat>)
    requires IndicesBelow(idx, |outcomes|)
    ensures forall i :: i in ps <==> i in idx && outcomes[i].Probed?
    ensures |ps| <= |idx|
    decreases |idx|
  {
    if idx == [] then []
    else
      var i := idx[|idx| - 1];
      var init := idx[..|idx| - 1];
      assert idx == init + [i];
      Produced(outcomes, init) + (if outcomes[i].Probed? then [i] else [])
  }

  /** How many completed tasks moved the progress counter: all but the skipped ones. */
  function Reported(outcomes: seq<TaskOutcome>, idx: seq<nat>): (n: nat)
    requires IndicesBelow(idx, |outcomes|)
    ensures n <= |idx|
    decreases |idx|
  {
    if idx == [] then 0
    else Reported(outcomes, idx[..|idx| - 1]) + (if outcomes[idx[|idx| - 1]].Skipped? then 0 else 1)
  }

  /** The `progress_callback(completed, total)` calls of a run that reported `m` times. */
  function Reports(m: nat, total: nat): (ps: seq<(nat, nat)>)
    ensures |ps| == m
    ensures forall j :: 0 <= j < m ==> ps[j] == (j + 1, total)
  {
    seq(m, j requires 0 <= j < m => (j + 1, total))
  }

  lemma ReportsStep(m: nat, total: nat)
    ensures Reports(m + 1, total) == Reports(m, total) + [(m + 1, total)]
  {
  }

  /** One more completion examined: its result (if any) is appended, its report (if any) counted. */
  lemma CompletionStep(settings: Settings, proxies: seq<string>, outcomes: seq<TaskOutcome>, order: seq<nat>, k: nat)
    requires Consistent(settings, proxies, outcomes) && IndicesBelow(order, |proxies|) && k < |order|
    ensures var i := order[k];
      && Collected(settings, proxies, outcomes, order[..k + 1])
         == Collected(settings, proxies, outcomes, order[..k])
            + (if outcomes[i].Probed? then [ResultOf(settings, proxies, outcomes, i)] else [])
      && Reported(outcomes, order[..k + 1]) == Reported(outcomes, order[..k]) + (if outcomes[i].Skipped? then 0 else 1)
  {
    assert order[..k + 1][..k] == order[..k];
  }

  /** The `j`-th collected result is the probe result of the `j`-th producing candidate. */
  lemma {:induction false} CollectedIsProduced(settings: Settings, proxies: seq<string>, outcomes: seq<TaskOutcome>, idx: seq<nat>)
    requires Consistent(settings, proxies, outcomes) && IndicesBelow(idx, |proxies|)
    ensures var c, ps := Collected(settings, proxies, outcomes, idx), Produced(outcomes, idx);
      && |c| == |ps|
      && forall j :: 0 <= j < |c| ==> ps[j] < |proxies| && outcomes[ps[j]].Probed?
                                      && c[j] == ResultOf(settings, proxies, outcomes, ps[j])
    decreases |idx|
  {
    if idx != [] {
      CollectedIsProduced(settings, proxies, outcomes, idx[..|idx| - 1]);
    }
  }

  /** The producing candidates keep the order of `idx`, so distinct positions stay distinct. */
  lemma {:induction false} ProducedDistinct(outcomes: seq<TaskOutcome>, idx: seq<nat>)
    requires IndicesBelow(idx, |outcomes|)
    requires forall k, l :: 0 <= k < l < |idx| ==> idx[k] != idx[l]
    ensures var ps := Produced(outcomes, idx); forall k, l :: 0 <= k < l < |ps| ==> ps[k] != ps[l]
    decreases |idx|
  {
    if idx != [] {
      var init := idx[..|idx| - 1];
      var i := idx[|idx| - 1];
      ProducedDistinct(outcomes, init);
      assert idx == init + [i];
      assert i !in init;
      assert i !in Produced(outcomes, init);
    }
  }

  /** The results of a stopped run are a prefix of those of a run consuming more completions. */
  lemma {:induction false} CollectedPrefix(settings: Settings, proxies: seq<string>, outcomes: seq<TaskOutcome>, idx: seq<nat>, m: nat)
    requires Consistent(settings, proxies, outcomes) && IndicesBelow(idx, |proxies|) && m <= |idx|
    ensures var short, long := Collected(settings, proxies, outcomes, idx[..m]), Collected(settings, proxies, outcomes, idx);
      |short| <= |long| && long[..|short|] == short
    decreases |idx|
  {
    if m < |idx| {
      var init := idx[..|idx| - 1];
      assert idx[..m] == init[..m];
      CollectedPrefix(settings, proxies, outcomes, init, m);
    } else {
      assert idx[..m] == idx;
    }
  }

  /**
   * When the candidates are distinct, the best candidate the run keeps
   * while results arrive is the best result of the whole collection, the
   * one a scan in result order finds.
   */
  lemma RunBestIsScanBest(settings: Settings, proxies: seq<string>, outcomes: seq<TaskOutcome>, idx: seq<nat>)
    requires Consistent(settings, proxies, outcomes) && IndicesBelow(idx, |proxies|)
    requires WellFormed(proxies)
    requires forall k, l :: 0 <= k < l < |idx| ==> idx[k] != idx[l]
    ensures var c := Collected(settings, proxies, outcomes, idx); IncrementalBest(c) == ProxyAt(c, BestIndex(c))
  {
    var c := Collected(settings, proxies, outcomes, idx);
    var ps := Produced(outcomes, idx);
    CollectedIsProduced(settings, proxies, outcomes, idx);
    ProducedDistinct(outcomes, idx);
    assert DistinctProxies(c) by {
      forall k, l | 0 <= k < l < |c|
        ensures c[k].proxy != c[l].proxy
      {
        assert c[k].proxy == proxies[ps[k]] && c[l].proxy == proxies[ps[l]];
      }
    }
    IncrementalMatchesScan(c);
  }

  /** A run nobody stops holds one result for every candidate whose task did not raise. */
  lemma FullRunCoversAll(settings: Settings, proxies: seq<string>, outcomes: seq<TaskOutcome>, order: seq<nat>, i: nat)
    requires Consistent(settings, proxies, outcomes)
    requires IsCompletionOrder(order, |proxies|)
    requires i < |proxies| && outcomes[i].Probed?
    ensures ResultOf(settings, proxies, outcomes, i) in Collected(settings, proxies, outcomes, order)
  {
    var ps := Produced(outcomes, order);
    CollectedIsProduced(settings, proxies, outcomes, order);
    assert i in ps;
    var j :| 0 <= j < |ps| && ps[j] == i;
    assert Collected(settings, proxies, outcomes, order)[j] == ResultOf(settings, proxies, outcomes, i);
  }

  /**
   * The loop of `load_proxies_from_file` over the file's lines: the
   * candidates, each kept the first time it is seen.
   */
  method FileProxies(lines: seq<string>) returns (loaded: seq<string>)
    ensures loaded == AppendNew([], FileCandidates(lines))
  {
    ghost var cs := FileCandidates(lines);
    loaded := [];
    var seen: set<string> := {};
    var i := 0;
    while i < |lines|
      invariant 0 <= i <= |lines|
      invariant loaded == AppendNew([], cs[..i])
      invariant forall x :: x in seen <==> x in loaded
    {
      AppendNewStep([], cs, i);
      var line := Strip(lines[i]);
      if line != [] && !StartsWith(line, "#") {
        var proxy := ParseProxyLine(line);
        assert proxy == cs[i];
        if proxy != "" && proxy !in seen {
          loaded := loaded + [proxy];
          seen := seen + {proxy};
        }
      } else {
        assert cs[i] == "";
      }
      i := i + 1;
    }
    assert cs[..|lines|] == cs;
  }

  /** The source of a candidate merge with the cache file: its entries when it can be read. */
  function CacheMerge(cache: FileRead): seq<string> {
    if cache.Lines? then CacheCandidates(cache.lines) else []
  }

  class ProxyBackend {
    var proxyList: seq<string>
    var testResults: seq<ProxyResult>
    var bestProxy: Option<string>
    var isTesting: bool
    var settings: Settings

    /** The registry invariant: distinct, non-empty normalised candidates. */
    predicate Valid()
      reads this
    {
      WellFormed(proxyList)
    }

    /** A fresh backend with the default settings (reading the config file is not modelled). */
    constructor ()
      ensures Valid()
      ensures proxyList == [] && testResults == [] && bestProxy == None && !isTesting
      ensures settings == DefaultSettings()
    {
      proxyList := [];
      testResults := [];
      bestProxy := None;
      isTesting := false;
      settings := DefaultSettings();
    }

    /**
     * `load_proxies_from_file`: a missing file changes nothing; an unreadable
     * one is reported; otherwise the registry is REPLACED by the file's
     * candidates in first-seen order, then the cache file is merged in.
     */
    method LoadProxiesFromFile(file: FileRead, cache: FileRead) returns (ok: bool, msg: string)
      modifies this
      requires Valid()
      ensures Valid()
      ensures testResults == old(testResults) && bestProxy == old(bestProxy)
      ensures isTesting == old(isTesting) && settings == old(settings)
      ensures file.Missing? ==> ok && proxyList == old(proxyList)
                                && msg == "No proxy file found. Please load a proxy file or add proxies manually."
      ensures file.Unreadable? ==> !ok && proxyList == old(proxyList) && msg == "❌ Error loading file: " + file.error
      ensures file.Lines? ==> ok && proxyList == AppendNew(AppendNew([], FileCandidates(file.lines)), CacheMerge(cache))
                              && msg == "✅ " + NatToString(|proxyList|) + " unique proxies loaded"
    {
      match file
      case Missing =>
        return true, "No proxy file found. Please load a proxy file or add proxies manually.";
      case Unreadable(e) =>
        return false, "❌ Error loading file: " + e;
      case Lines(lines) =>
        var loaded := FileProxies(lines);
        FileCandidatesNormalised(lines);
        AppendNewWellFormed([], FileCandidates(lines));
        proxyList := loaded;
        LoadWorkingProxies(cache);
        return true, "✅ " + NatToString(|proxyList|) + " unique proxies loaded";
    }

    /**
     * `_load_working_proxies`: merge the cache file's entries, normalised,
     * into the registry; a missing or unreadable cache file changes nothing.
     */
    method LoadWorkingProxies(cache: FileRead)
      modifies this
      requires Valid()
      ensures Valid()
      ensures proxyList == AppendNew(old(proxyList), CacheMerge(cache))
      ensures testResults == old(testResults) && bestProxy == old(bestProxy)
      ensures isTesting == old(isTesting) && settings == old(settings)
    {
      if cache.Lines? {
        var _ := MergeAll(CacheCandidates(cache.lines));
      }
      CacheCandidatesNormalised(if cache.Lines? then cache.lines else []);
      AppendNewWellFormed(old(proxyList), CacheMerge(cache));
    }

    /**
     * The merge step every loader runs on the registry: `proxy` is appended
     * when it is non-empty and not yet held.
     */
    method Merge(proxy: string) returns (added: bool)
      modifies this
      ensures added <==> proxy != "" && proxy !in old(proxyList)
      ensures proxyList == Merged(old(proxyList), proxy)
      ensures testResults == old(testResults) && bestProxy == old(bestProxy)
      ensures isTesting == old(isTesting) && settings == old(settings)
    {
      added := proxy != "" && proxy !in proxyList;
      if added {
        proxyList := proxyList + [proxy];
      }
    }

    /**
     * The loop shared by `_load_working_proxies` and `import_from_clipboard`:
     * each candidate merged in order, counting the ones appended.
     */
    method MergeAll(cs: seq<string>) returns (imported: nat)
      modifies this
      ensures proxyList == AppendNew(old(proxyList), cs)
      ensures imported == |proxyList| - |old(proxyList)|
      ensures testResults == old(testResults) && bestProxy == old(bestProxy)
      ensures isTesting == old(isTesting) && settings == old(settings)
    {
      imported := 0;
      var i := 0;
      while i < |cs|
        invariant 0 <= i <= |cs|
        invariant proxyList == AppendNew(old(proxyList), cs[..i])
        invariant imported == |proxyList| - |old(proxyList)|
        invariant testResults == old(testResults) && bestProxy == old(bestProxy)
        invariant isTesting == old(isTesting) && settings == old(settings)
      {
        AppendNewStep(old(proxyList), cs, i);
        var added := Merge(cs[i]);
        if added {
          imported := imported + 1;
        }
        i := i + 1;
      }
      assert cs[..|cs|] == cs;
    }

    /**
     * `add_proxy_manual`: the normalised candidate is appended when it is
     * accepted and new; the merge of one value.
     */
    method AddProxyManual(proxy: string) returns (ok: bool, msg: string)
      modifies this
      requires Valid()
      ensures Valid()
      ensures ok <==> ParseProxyLine(proxy) != "" && ParseProxyLine(proxy) !in old(proxyList)
      ensures proxyList == AppendNew(old(proxyList), [ParseProxyLine(proxy)])
      ensures ParseProxyLine(proxy) == "" ==> msg == "Invalid format. Use IP:PORT or host:PORT"
      ensures ParseProxyLine(proxy) != "" && !ok ==> msg == "Proxy already exists"
      ensures ok ==> msg == "✅ Added: " + ParseProxyLine(proxy)
      ensures testResults == old(testResults) && bestProxy == old(bestProxy)
      ensures isTesting == old(isTesting) && settings == old(settings)
    {
      var parsed := ParseProxyLine(proxy);
      AppendOne(proxyList, parsed);
      if parsed == "" {
        return false, "Invalid format. Use IP:PORT or host:PORT";
      }
      if parsed in proxyList {
        return false, "Proxy already exists";
      }
      WellFormedAppend(proxyList, parsed);
      proxyList := proxyList + [parsed];
      return true, "✅ Added: " + parsed;
    }

    /**
     * `import_from_clipboard`: every line of the clipboard text merged in,
     * with the number of new candidates reported; an empty merge is a failure.
     */
    method ImportFromClipboard(clip: ClipboardRead) returns (ok: bool, msg: string)
      modifies this
      requires Valid()
      ensures Valid()
      ensures clip.ClipboardRaised? ==> !ok && proxyList == old(proxyList)
                                        && msg == "❌ Error importing from clipboard: " + clip.error
      ensures clip.ClipboardText? ==> proxyList == AppendNew(old(proxyList), ClipboardCandidates(clip.text))
      ensures clip.ClipboardText? ==> (ok <==> |proxyList| > |old(proxyList)|)
      ensures clip.ClipboardText? && ok ==> msg == "✅ " + NatToString(|proxyList| - |old(proxyList)|) + " proxies imported from clipboard"
      ensures clip.ClipboardText? && !ok ==> msg == "❌ No valid proxies found in clipboard"
      ensures testResults == old(testResults) && bestProxy == old(bestProxy)
      ensures isTesting == old(isTesting) && settings == old(settings)
    {
      if clip.ClipboardRaised? {
        return false, "❌ Error importing from clipboard: " + clip.error;
      }
      var lines := Split(clip.text, '\n');
      ClipboardCandidatesNormalised(clip.text);
      AppendNewWellFormed(proxyList, LineCandidates(lines));
      var imported := MergeAll(LineCandidates(lines));
      if imported > 0 {
        return true, "✅ " + NatToString(imported) + " proxies imported from clipboard";
      }
      return false, "❌ No valid proxies found in clipboard";
    }

    /** `clear_all`: registry, results and best candidate emptied, and no test running. */
    method ClearAll()
      modifies this
      ensures Valid()
      ensures proxyList == [] && testResults == [] && bestProxy == None && !isTesting
      ensures settings == old(settings)
    {
      proxyList := [];
      testResults := [];
      bestProxy := None;
      isTesting := false;
    }

    /** `stop_testing`: lower the flag the run polls; nothing else changes. */
    method StopTesting()
      modifies this
      ensures !isTesting
      ensures proxyList == old(proxyList) && testResults == old(testResults)
      ensures bestProxy == old(bestProxy) && settings == old(settings)
    {
      isTesting := false;
    }

    /**
     * `run_full_test_async`. Refused while a test runs or when the registry
     * is empty. Otherwise the results and the best candidate are reset, one
     * task is launched per candidate until the flag is seen down, and the
     * completed tasks are consumed in completion order until the flag is
     * seen down: each probe result is appended and folded into the best
     * candidate, and each non-skipped completion moves the progress counter.
     * The flag is down at the end and the reply is the final statistics.
     */
    method RunFullTest(order: seq<nat>, outcomes: seq<TaskOutcome>, stop: StopRequest)
        returns (ok: bool, reply: RunReply, progress: seq<(nat, nat)>)
      modifies this
      requires Valid()
      requires Consistent(settings, proxyList, outcomes)
      requires IsCompletionOrder(order, Launched(|proxyList|, stop))
      ensures Valid()
      ensures proxyList == old(proxyList) && settings == old(settings)
      ensures old(isTesting) ==> && !ok && reply == Refused("Test already in progress") && progress == []
                                  && testResults == old(testResults) && bestProxy == old(bestProxy) && isTesting
      ensures !old(isTesting) && proxyList == [] ==> && !ok && reply == Refused("No proxies loaded") && progress == []
                                                      && testResults == old(testResults) && bestProxy == old(bestProxy) && !isTesting
      ensures !old(isTesting) && proxyList != [] ==>
        var consumed := order[..Consumed(|proxyList|, stop)];
        && ok && !isTesting
        && testResults == Collected(settings, proxyList, outcomes, consumed)
        && bestProxy == IncrementalBest(testResults)
        && progress == Reports(Reported(outcomes, consumed), Launched(|proxyList|, stop))
        && reply == Finished(CompileFinalStats(|proxyList|, testResults, bestProxy))
    {
      progress := [];
      if isTesting {
        return false, Refused("Test already in progress"), progress;
      }
      if proxyList == [] {
        return false, Refused("No proxies loaded"), progress;
      }
      isTesting := true;
      testResults := [];
      bestProxy := None;
      var launched := LaunchTasks(stop);
      progress := ConsumeCompletions(order, outcomes, stop, launched);
      var stats := CompileFinalStats(|proxyList|, testResults, bestProxy);
      isTesting := false;
      return true, Finished(stats), progress;
    }

    /** The launch loop of a run: one task per candidate while the flag is up. */
    method LaunchTasks(stop: StopRequest) returns (launched: nat)
      modifies this
      requires isTesting
      ensures launched == Launched(|proxyList|, stop)
      ensures isTesting <==> !(stop.DuringLaunch? && stop.at <= |proxyList|)
      ensures proxyList == old(proxyList) && settings == old(settings)
      ensures testResults == old(testResults) && bestProxy == old(bestProxy)
    {
      var n := |proxyList|;
      launched := 0;
      while launched < n
        invariant launched <= n && isTesting
        invariant !(stop.DuringLaunch? && stop.at < launched)
        invariant proxyList == old(proxyList) && settings == old(settings)
        invariant testResults == old(testResults) && bestProxy == old(bestProxy)
      {
        if stop == DuringLaunch(launched) {
          StopTesting();
        }
        if !isTesting {
          break;
        }
        launched := launched + 1;
      }
      if stop == DuringLaunch(n) {
        StopTesting();
      }
    }

    /**
     * The completion loop of a run: completed tasks in completion order
     * while the flag is up; each result is appended and folded into the best
     * candidate, and each non-skipped completion reports progress.
     */
    method ConsumeCompletions(order: seq<nat>, outcomes: seq<TaskOutcome>, stop: StopRequest, total: nat)
        returns (progress: seq<(nat, nat)>)
      modifies this
      requires Consistent(settings, proxyList, outcomes)
      requires total == Launched(|proxyList|, stop) && IsCompletionOrder(order, total)
      requires isTesting <==> !(stop.DuringLaunch? && stop.at <= |proxyList|)
      requires testResults == [] && bestProxy == None
      ensures proxyList == old(proxyList) && settings == old(settings)
      ensures var consumed := order[..Consumed(|proxyList|, stop)];
        && testResults == Collected(settings, proxyList, outcomes, consumed)
        && bestProxy == IncrementalBest(testResults)
        && progress == Reports(Reported(outcomes, consumed), total)
    {
      var n := |proxyList|;
      progress := [];
      var completed := 0;
      var k := 0;
      while k < |order|
        invariant 0 <= k <= |order|
        invariant isTesting <==> !(stop.DuringLaunch? && stop.at <= n)
        invariant stop.DuringLaunch? && stop.at <= n ==> k == 0
        invariant stop.DuringCompletion? ==> k <= stop.at
        invariant proxyList == old(proxyList) && settings == old(settings)
        invariant testResults == Collected(settings, proxyList, outcomes, order[..k])
        invariant bestProxy == IncrementalBest(testResults)
        invariant completed == Reported(outcomes, order[..k])
        invariant progress == Reports(completed, total)
      {
        if stop == DuringCompletion(k) {
          StopTesting();
        }
        if !isTesting {
          break;
        }
        var i := order[k];
        CompletionStep(settings, proxyList, outcomes, order, k);
        if outcomes[i].Probed? {
          var result := TestProxy(settings, proxyList[i], outcomes[i].env).result;
          RecordResult(result);
          completed := completed + 1;
          ReportsStep(completed - 1, total);
          progress := progress + [(completed, total)];
        } else if outcomes[i].TaskRaised? {
          completed := completed + 1;
          ReportsStep(completed - 1, total);
          progress := progress + [(completed, total)];
        }
        k := k + 1;
      }
      assert k == Consumed(n, stop);
    }

    /**
     * One produced result: appended to the results and folded into the best
     * candidate by the rule of `UpdateBest`.
     */
    method RecordResult(result: ProxyResult)
      modifies this
      requires bestProxy == IncrementalBest(testResults)
      ensures testResults == old(testResults) + [result]
      ensures bestProxy == UpdateBest(old(bestProxy), testResults, result)
      ensures bestProxy == IncrementalBest(testResults)
      ensures proxyList == old(proxyList) && settings == old(settings) && isTesting == old(isTesting)
    {
      IncrementalBestStep(testResults, result);
      testResults := testResults + [result];
      bestProxy := UpdateBest(bestProxy, testResults, result);
    }

    /**
     * `get_smart_best_proxy`: scan the results for the best Active one
     * (quickest HTTP answer, then lowest ping, first among equals); without
     * one, fall back to the first entry of the cache file.
     */
    method GetSmartBestProxy(cache: FileRead) returns (best: Option<string>)
      ensures best == SmartBest(testResults, cache)
    {
      best := None;
      var found := false;
      var bestHttp := 0;
      var bestPing := 0;
      var i := 0;
      while i < |testResults|
        invariant 0 <= i <= |testResults|
        invariant found <==> BestIndex(testResults[..i]).Some?
        invariant found ==> var b := BestIndex(testResults[..i]).value;
          && b < i && bestHttp == testResults[b].httpTime && bestPing == testResults[b].ping
          && best == Some(testResults[b].proxy)
        invariant !found ==> best == None
      {
        var r := testResults[i];
        assert testResults[..i + 1][..i] == testResults[..i];
        if r.status == Active {
          if !found || r.httpTime < bestHttp {
            bestHttp := r.httpTime;
            bestPing := r.ping;
            best := Some(r.proxy);
            found := true;
          } else if r.httpTime == bestHttp && r.ping < bestPing {
            bestPing := r.ping;
            best := Some(r.proxy);
          }
        }
        i := i + 1;
      }
      assert testResults[..|testResults|] == testResults;
      if (best.None? || best.value == "") && cache.Lines? {
        var entries := CacheEntries(cache.lines);
        if entries != [] {
          best := Some(entries[0]);
        }
      }
    }
  }
}
