/**
 * The views over `test_results`: the best-candidate order shared by the run
 * and by `get_smart_best_proxy`, `_compile_final_stats`, `get_stats`,
 * `get_sorted_results`, `get_filtered_results` and the lines
 * `save_working_proxies` writes.
 */
module Aggregation {
  import opened Wrappers
  import opened Text
  import opened Registry
  import opened Probe

  // ---------------------------------------------------------------------
  // The best candidate
  // ---------------------------------------------------------------------

  /** `r` is strictly preferable to `s`: quicker HTTP answer, or as quick with a lower ping. */
  predicate Better(r: ProxyResult, s: ProxyResult) {
    r.httpTime < s.httpTime || (r.httpTime == s.httpTime && r.ping < s.ping)
  }

  /**
   * Position `i` holds the best result: it is Active, no Active result is
   * preferable to it, and it is preferable to every earlier Active result
   * (so among equals the first one wins).
   */
  predicate IsBestAt(rs: seq<ProxyResult>, i: int) {
    && 0 <= i < |rs| && rs[i].status == Active
    && (forall j :: 0 <= j < |rs| && rs[j].status == Active ==> !Better(rs[j], rs[i]))
    && (forall j :: 0 <= j < i && rs[j].status == Active ==> Better(rs[i], rs[j]))
  }

  /** Where the best result is, scanning in list order; none when nothing is Active. */
  function BestIndex(rs: seq<ProxyResult>): (b: Option<nat>)
    ensures b.Some? ==> IsBestAt(rs, b.value)
    ensures b.None? <==> forall j :: 0 <= j < |rs| ==> rs[j].status != Active
    decreases |rs|
  {
    if rs == [] then None
    else
      var init := rs[..|rs| - 1];
      var last := rs[|rs| - 1];
      var b := BestIndex(init);
      assert forall j :: 0 <= j < |init| ==> init[j] == rs[j];
      if last.status == Active && (b.None? || Better(last, init[b.value])) then
        Some(|rs| - 1)
      else
        b
  }

  /** There is at most one best position. */
  lemma BestIsUnique(rs: seq<ProxyResult>, i: int, j: int)
    requires IsBestAt(rs, i) && IsBestAt(rs, j)
    ensures i == j
  {
  }

  /** The proxy at an optional position. */
  function ProxyAt(rs: seq<ProxyResult>, b: Option<nat>): Option<string>
    requires b.Some? ==> b.value < |rs|
  {
    match b
    case None => None
    case Some(i) => Some(rs[i].proxy)
  }

  /** `next((r for r in rs if r.proxy == p), None)`. */
  function FirstWithProxy(rs: seq<ProxyResult>, p: string): (r: Option<ProxyResult>)
    ensures r.Some? ==> r.value in rs && r.value.proxy == p
    ensures r.None? <==> forall j :: 0 <= j < |rs| ==> rs[j].proxy != p
    decreases |rs|
  {
    if rs == [] then None
    else if rs[0].proxy == p then Some(rs[0])
    else
      var r := FirstWithProxy(rs[1..], p);
      assert forall j :: 1 <= j < |rs| ==> rs[j] == rs[1..][j - 1];
      r
  }

  predicate DistinctProxies(rs: seq<ProxyResult>) {
    forall i, j :: 0 <= i < j < |rs| ==> rs[i].proxy != rs[j].proxy
  }

  lemma {:induction false} FirstWithProxyDistinct(rs: seq<ProxyResult>, b: nat)
    requires DistinctProxies(rs) && b < |rs|
    ensures FirstWithProxy(rs, rs[b].proxy) == Some(rs[b])
    decreases |rs|
  {
    if b > 0 {
      assert rs[0].proxy != rs[b].proxy;
      assert rs[1..][b - 1] == rs[b];
      FirstWithProxyDistinct(rs[1..], b - 1);
    }
  }

  /**
   * One step of the run's best-candidate rule, after `r` has been appended to
   * `results`: a non-Active result changes nothing; with no best yet (or an
   * empty name) `r` becomes best; otherwise `r` replaces the best when it is
   * preferable to the first result carrying the best's name.
   */
  function UpdateBest(best: Option<string>, results: seq<ProxyResult>, r: ProxyResult): (b: Option<string>)
    ensures r.status != Active ==> b == best
    ensures b == best || b == Some(r.proxy)
  {
    if r.status != Active then best
    else if best.None? || best.value == "" then Some(r.proxy)
    else
      match FirstWithProxy(results, best.value)
      case None => best
      case Some(current) =>
        if r.httpTime < current.httpTime then Some(r.proxy)
        else if r.httpTime == current.httpTime && r.ping < current.ping then Some(r.proxy)
        else best
  }

  /** The best candidate after the results arrived one by one in this order. */
  function IncrementalBest(rs: seq<ProxyResult>): Option<string>
    decreases |rs|
  {
    if rs == [] then None else UpdateBest(IncrementalBest(rs[..|rs| - 1]), rs, rs[|rs| - 1])
  }

  /** One more result: the rule is applied to it, with the results up to and including it. */
  lemma IncrementalBestStep(rs: seq<ProxyResult>, r: ProxyResult)
    ensures IncrementalBest(rs + [r]) == UpdateBest(IncrementalBest(rs), rs + [r], r)
  {
    assert (rs + [r])[..|rs|] == rs;
  }

  /**
   * When the results carry distinct, non-empty proxy names, the rule applied
   * one result at a time ends at the best result of the whole list, the one
   * the scan of `get_smart_best_proxy` finds.
   */
  lemma {:induction false} IncrementalMatchesScan(rs: seq<ProxyResult>)
    requires DistinctProxies(rs)
    requires forall i :: 0 <= i < |rs| ==> rs[i].proxy != ""
    ensures IncrementalBest(rs) == ProxyAt(rs, BestIndex(rs))
    decreases |rs|
  {
    if rs != [] {
      var init := rs[..|rs| - 1];
      var last := rs[|rs| - 1];
      assert forall j :: 0 <= j < |init| ==> init[j] == rs[j];
      IncrementalMatchesScan(init);
      var b := BestIndex(init);
      if last.status == Active && b.Some? {
        FirstWithProxyDistinct(rs, b.value);
      }
    }
  }

  /** Non-Active results never change the best candidate. */
  lemma IncrementalIgnoresInactive(rs: seq<ProxyResult>, r: ProxyResult)
    requires r.status != Active
    ensures IncrementalBest(rs + [r]) == IncrementalBest(rs)
  {
    assert (rs + [r])[..|rs|] == rs;
  }

  /** A(100 ms, ping 50), then B(100, 30) wins on ping, then C(90, 999) wins on time. */
  lemma BestRuleExample()
    ensures IncrementalBest([
      Plain("A", 50, 100, Active), Plain("B", 30, 100, Active), Plain("C", 999, 90, Active)]) == Some("C")
  {
    var a, b, c := Plain("A", 50, 100, Active), Plain("B", 30, 100, Active), Plain("C", 999, 90, Active);
    var rs := [a, b, c];
    assert rs[..2] == [a, b] && [a, b][..1] == [a] && [a][..0] == [];
    assert IncrementalBest([a]) == Some("A");
    assert FirstWithProxy([a, b], "A") == Some(a);
    assert IncrementalBest([a, b]) == Some("B");
    assert FirstWithProxy([a, b, c], "B") == Some(b) by {
      assert [a, b, c][1..] == [b, c];
    }
  }

  // ---------------------------------------------------------------------
  // Statistics
  // ---------------------------------------------------------------------

  /** `[r for r in rs if r.status == ACTIVE]`. */
  function Actives(rs: seq<ProxyResult>): (a: seq<ProxyResult>)
    ensures |a| <= |rs|
    ensures forall i :: 0 <= i < |a| ==> a[i].status == Active
    decreases |rs|
  {
    if rs == [] then [] else (if rs[0].status == Active then [rs[0]] else []) + Actives(rs[1..])
  }

  /** `[r for r in rs if r.status != ACTIVE]`. */
  function Inactives(rs: seq<ProxyResult>): seq<ProxyResult>
    decreases |rs|
  {
    if rs == [] then [] else (if rs[0].status != Active then [rs[0]] else []) + Inactives(rs[1..])
  }

  /** Every result is counted once, as Active or as failed. */
  lemma {:induction false} ActivesInactivesPartition(rs: seq<ProxyResult>)
    ensures |Actives(rs)| + |Inactives(rs)| == |rs|
    decreases |rs|
  {
    if rs != [] {
      ActivesInactivesPartition(rs[1..]);
    }
  }

  /** The Active results are exactly the results whose status is Active. */
  lemma {:induction false} ActivesMembers(rs: seq<ProxyResult>)
    ensures forall r :: r in Actives(rs) <==> r in rs && r.status == Active
    decreases |rs|
  {
    if rs != [] {
      ActivesMembers(rs[1..]);
      assert rs == [rs[0]] + rs[1..];
    }
  }

  /** An empty Active list means no result is Active. */
  lemma ActivesEmpty(rs: seq<ProxyResult>)
    ensures Actives(rs) == [] <==> forall j :: 0 <= j < |rs| ==> rs[j].status != Active
  {
    ActivesMembers(rs);
    if Actives(rs) != [] {
      assert Actives(rs)[0] in Actives(rs);
    } else {
      forall j | 0 <= j < |rs| ensures rs[j].status != Active {
        assert rs[j] in rs;
      }
    }
  }

  function Pings(rs: seq<ProxyResult>): (xs: seq<int>)
    ensures |xs| == |rs| && forall i :: 0 <= i < |rs| ==> xs[i] == rs[i].ping
  {
    seq(|rs|, i requires 0 <= i < |rs| => rs[i].ping)
  }

  function HttpTimes(rs: seq<ProxyResult>): (xs: seq<int>)
    ensures |xs| == |rs| && forall i :: 0 <= i < |rs| ==> xs[i] == rs[i].httpTime
  {
    seq(|rs|, i requires 0 <= i < |rs| => rs[i].httpTime)
  }

  function Sum(xs: seq<int>): int
    decreases |xs|
  {
    if xs == [] then 0 else xs[0] + Sum(xs[1..])
  }

  /** Python's `min` on a non-empty list. */
  function Min(xs: seq<int>): (m: int)
    requires |xs| > 0
    ensures m in xs
    ensures forall i :: 0 <= i < |xs| ==> m <= xs[i]
    decreases |xs|
  {
    if |xs| == 1 then xs[0]
    else
      var rest := Min(xs[1..]);
      assert forall i :: 1 <= i < |xs| ==> xs[i] == xs[1..][i - 1];
      if xs[0] <= rest then xs[0] else rest
  }

  /** The minimum is no more than the floor of the mean. */
  lemma {:induction false} MinTimesCountAtMostSum(xs: seq<int>, m: int)
    requires forall i :: 0 <= i < |xs| ==> m <= xs[i]
    ensures m * |xs| <= Sum(xs)
    decreases |xs|
  {
    if xs != [] {
      assert forall i :: 0 <= i < |xs| - 1 ==> xs[1..][i] == xs[i + 1];
      MinTimesCountAtMostSum(xs[1..], m);
    }
  }

  lemma MulMonotone(a: int, b: int, n: nat)
    requires a <= b
    ensures a * n <= b * n
  {
    assert b * n - a * n == (b - a) * n;
  }

  /** Floor division by a positive count: a lower bound of the product bounds the quotient. */
  lemma FloorDivLowerBound(m: int, s: int, n: int)
    requires n > 0 && m * n <= s
    ensures m <= s / n
  {
    var q := s / n;
    assert s == q * n + s % n && s % n < n;
    if m > q {
      MulMonotone(q + 1, m, n);
      assert false;
    }
  }

  lemma MinAtMostMean(xs: seq<int>)
    requires |xs| > 0
    ensures Min(xs) <= Sum(xs) / |xs|
  {
    MinTimesCountAtMostSum(xs, Min(xs));
    FloorDivLowerBound(Min(xs), Sum(xs), |xs|);
  }

  /** `min(xs)` if non-empty else 0. */
  function MinOrZero(xs: seq<int>): int {
    if xs == [] then 0 else Min(xs)
  }

  /** `sum(xs) // len(xs)` if non-empty else 0 (floor division; the divisor is positive). */
  function MeanOrZero(xs: seq<int>): int {
    if xs == [] then 0 else Sum(xs) / |xs|
  }

  /** `len(active) / len(results) * 100`, or 0 without results (Python's float modelled as a real). */
  function SuccessRate(active: nat, tested: nat): real {
    if tested == 0 then 0.0 else (active as real) / (tested as real) * 100.0
  }

  lemma SuccessRateBounds(active: nat, tested: nat)
    requires active <= tested
    ensures 0.0 <= SuccessRate(active, tested) <= 100.0
    ensures SuccessRate(active, tested) == 100.0 <==> active == tested && tested > 0
    ensures SuccessRate(active, tested) == 0.0 <==> active == 0
  {
    if tested > 0 {
      var q := (active as real) / (tested as real);
      assert q * (tested as real) == active as real;
      assert 0.0 <= q <= 1.0;
    }
  }

  datatype FinalStats = FinalStats(
    total: nat,
    tested: nat,
    active: nat,
    failed: nat,
    bestPing: int,
    avgPing: int,
    bestHttpTime: int,
    avgHttpTime: int,
    bestProxy: Option<string>,
    successRate: real)

  /** `_compile_final_stats`, given `len(proxy_list)`, the results and the best proxy. */
  function CompileFinalStats(total: nat, rs: seq<ProxyResult>, best: Option<string>): FinalStats {
    var act := Actives(rs);
    var pings, times := Pings(act), HttpTimes(act);
    FinalStats(
      total, |rs|, |act|, |Inactives(rs)|,
      MinOrZero(pings), MeanOrZero(pings), MinOrZero(times), MeanOrZero(times),
      best, SuccessRate(|act|, |rs|))
  }

  /**
   * The counts of the final statistics: every result is either active or
   * failed, none is active exactly when no result is Active, and the success
   * rate is a percentage, 0 when nothing was tested.
   */
  lemma FinalStatsCounts(total: nat, rs: seq<ProxyResult>, best: Option<string>)
    ensures var st := CompileFinalStats(total, rs, best);
      && st.total == total && st.tested == |rs| && st.bestProxy == best
      && st.active + st.failed == st.tested
      && (st.active == 0 <==> forall i :: 0 <= i < |rs| ==> rs[i].status != Active)
      && (st.tested == 0 ==> st.successRate == 0.0)
      && 0.0 <= st.successRate <= 100.0
  {
    ActivesInactivesPartition(rs);
    ActivesEmpty(rs);
    SuccessRateBounds(|Actives(rs)|, |rs|);
  }

  /**
   * The best ping and HTTP time are those of some Active result and do not
   * exceed the floored averages; all four are 0 without an Active result.
   */
  lemma FinalStatsBestAttained(total: nat, rs: seq<ProxyResult>, best: Option<string>)
    ensures var st := CompileFinalStats(total, rs, best);
      && st.bestPing <= st.avgPing && st.bestHttpTime <= st.avgHttpTime
      && (st.active == 0 ==> st.bestPing == 0 && st.avgPing == 0 && st.bestHttpTime == 0 && st.avgHttpTime == 0)
      && (st.active > 0 ==> exists i :: 0 <= i < |rs| && rs[i].status == Active && rs[i].ping == st.bestPing)
      && (st.active > 0 ==> exists i :: 0 <= i < |rs| && rs[i].status == Active && rs[i].httpTime == st.bestHttpTime)
  {
    var act := Actives(rs);
    var pings, times := Pings(act), HttpTimes(act);
    ActivesMembers(rs);
    if act != [] {
      MinAtMostMean(pings);
      MinAtMostMean(times);
      var k :| 0 <= k < |pings| && pings[k] == Min(pings);
      assert act[k] in act;
      var l :| 0 <= l < |times| && times[l] == Min(times);
      assert act[l] in act;
    }
  }

  /** No Active result beats the best ping or the best HTTP time. */
  lemma FinalStatsBestIsMinimal(total: nat, rs: seq<ProxyResult>, best: Option<string>)
    ensures var st := CompileFinalStats(total, rs, best);
      forall i :: 0 <= i < |rs| && rs[i].status == Active ==> st.bestPing <= rs[i].ping && st.bestHttpTime <= rs[i].httpTime
  {
    var act := Actives(rs);
    var pings, times := Pings(act), HttpTimes(act);
    ActivesMembers(rs);
    forall i | 0 <= i < |rs| && rs[i].status == Active
      ensures MinOrZero(pings) <= rs[i].ping && MinOrZero(times) <= rs[i].httpTime
    {
      assert rs[i] in act;
      var m :| 0 <= m < |act| && act[m] == rs[i];
      assert pings[m] == rs[i].ping && times[m] == rs[i].httpTime;
    }
  }

  datatype Stats = Stats(
    totalProxies: nat,
    testedProxies: nat,
    activeProxies: nat,
    successRate: real,
    bestProxy: Option<string>,
    bestPing: int,
    bestHttpTime: int)

  /** `get_stats`: nothing (the empty dictionary) before any result, the summary otherwise. */
  function GetStats(total: nat, rs: seq<ProxyResult>, best: Option<string>): (s: Option<Stats>)
    ensures s.None? <==> rs == []
  {
    if rs == [] then None
    else
      var act := Actives(rs);
      Some(Stats(total, |rs|, |act|, SuccessRate(|act|, |rs|), best,
                 MinOrZero(Pings(act)), MinOrZero(HttpTimes(act))))
  }

  /** `get_stats` reports the same figures as the final statistics of the run. */
  lemma GetStatsAgrees(total: nat, rs: seq<ProxyResult>, best: Option<string>)
    requires rs != []
    ensures var s, st := GetStats(total, rs, best).value, CompileFinalStats(total, rs, best);
      && s.totalProxies == st.total && s.testedProxies == st.tested
      && s.activeProxies == st.active && s.successRate == st.successRate
      && s.bestProxy == st.bestProxy && s.bestPing == st.bestPing
      && s.bestHttpTime == st.bestHttpTime
  {
  }

  // ---------------------------------------------------------------------
  // The smart best proxy
  // ---------------------------------------------------------------------

  /**
   * `get_smart_best_proxy`: the best tested result; when there is none (or
   * its name is empty) the first entry of a readable cache file, if any.
   */
  function SmartBest(rs: seq<ProxyResult>, cache: FileRead): (p: Option<string>)
    ensures BestIndex(rs).Some? && rs[BestIndex(rs).value].proxy != "" ==> p == Some(rs[BestIndex(rs).value].proxy)
    ensures p.Some? && p.value != "" && BestIndex(rs).None? ==> cache.Lines? && CacheEntries(cache.lines) != [] && p == Some(CacheEntries(cache.lines)[0])
    ensures ((BestIndex(rs).None? || rs[BestIndex(rs).value].proxy == "") && cache.Lines? && CacheEntries(cache.lines) != [])
              ==> p == Some(CacheEntries(cache.lines)[0])
    ensures BestIndex(rs).None? && !(cache.Lines? && CacheEntries(cache.lines) != []) ==> p == None
    ensures (BestIndex(rs).Some? && rs[BestIndex(rs).value].proxy == "" && !(cache.Lines? && CacheEntries(cache.lines) != []))
              ==> p == Some("")
  {
    var scanned := ProxyAt(rs, BestIndex(rs));
    if (scanned.None? || scanned.value == "") && cache.Lines? && CacheEntries(cache.lines) != [] then
      Some(CacheEntries(cache.lines)[0])
    else
      scanned
  }

  // ---------------------------------------------------------------------
  // Sorting
  // ---------------------------------------------------------------------

  /** The `sort_by` names `get_sorted_results` knows. */
  datatype SortField = ByPing | ByHttpTime | ByStatus | ByProxy | ByCountry

  function ParseSortField(sortBy: string): (f: Option<SortField>)
    ensures f.Some? <==> sortBy in ["ping", "http_time", "status", "proxy", "country"]
  {
    if sortBy == "ping" then Some(ByPing)
    else if sortBy == "http_time" then Some(ByHttpTime)
    else if sortBy == "status" then Some(ByStatus)
    else if sortBy == "proxy" then Some(ByProxy)
    else if sortBy == "country" then Some(ByCountry)
    else None
  }

  datatype SortKey = IntKey(n: int) | StrKey(s: string)

  function KeyOf(f: SortField, r: ProxyResult): SortKey {
    match f
    case ByPing => IntKey(r.ping)
    case ByHttpTime => IntKey(r.httpTime)
    case ByStatus => StrKey(r.status.Value())
    case ByProxy => StrKey(r.proxy)
    case ByCountry => StrKey(r.country)
  }

  /** Python's `<=` on strings: lexicographic by code point. */
  predicate StrLe(a: string, b: string)
    decreases |a|
  {
    a == [] || (b != [] && (a[0] < b[0] || (a[0] == b[0] && StrLe(a[1..], b[1..]))))
  }

  lemma {:induction false} StrLeTotal(a: string, b: string)
    ensures StrLe(a, b) || StrLe(b, a)
    decreases |a|
  {
    if a != [] && b != [] && a[0] == b[0] {
      StrLeTotal(a[1..], b[1..]);
    }
  }

  lemma {:induction false} StrLeTrans(a: string, b: string, c: string)
    requires StrLe(a, b) && StrLe(b, c)
    ensures StrLe(a, c)
    decreases |a|
  {
    if a != [] && b != [] && c != [] && a[0] == b[0] && b[0] == c[0] {
      StrLeTrans(a[1..], b[1..], c[1..]);
    }
  }

  lemma {:induction false} StrLeAntisym(a: string, b: string)
    requires StrLe(a, b) && StrLe(b, a)
    ensures a == b
    decreases |a|
  {
    if a != [] {
      StrLeAntisym(a[1..], b[1..]);
      assert a == [a[0]] + a[1..] && b == [b[0]] + b[1..];
    }
  }

  /** The order on keys; keys of one field always have the same shape. */
  predicate KeyLe(a: SortKey, b: SortKey) {
    match (a, b)
    case (IntKey(x), IntKey(y)) => x <= y
    case (StrKey(x), StrKey(y)) => StrLe(x, y)
    case (IntKey(_), StrKey(_)) => true
    case (StrKey(_), IntKey(_)) => false
  }

  lemma KeyLeTotal(a: SortKey, b: SortKey)
    ensures KeyLe(a, b) || KeyLe(b, a)
  {
    if a.StrKey? && b.StrKey? {
      StrLeTotal(a.s, b.s);
    }
  }

  lemma KeyLeTrans(a: SortKey, b: SortKey, c: SortKey)
    requires KeyLe(a, b) && KeyLe(b, c)
    ensures KeyLe(a, c)
  {
    if a.StrKey? && b.StrKey? && c.StrKey? {
      StrLeTrans(a.s, b.s, c.s);
    }
  }

  lemma KeyLeAntisym(a: SortKey, b: SortKey)
    requires KeyLe(a, b) && KeyLe(b, a)
    ensures a == b
  {
    if a.StrKey? && b.StrKey? {
      StrLeAntisym(a.s, b.s);
    }
  }

  lemma KeyLeRefl(a: SortKey)
    ensures KeyLe(a, a)
  {
    KeyLeTotal(a, a);
  }

  predicate SortedBy(f: SortField, rs: seq<ProxyResult>) {
    forall i, j :: 0 <= i < j < |rs| ==> KeyLe(KeyOf(f, rs[i]), KeyOf(f, rs[j]))
  }

  /** Put `x` in front of the first element whose key is not below its own. */
  function Insert(f: SortField, x: ProxyResult, s: seq<ProxyResult>): (r: seq<ProxyResult>)
    ensures multiset(r) == multiset{x} + multiset(s)
    decreases |s|
  {
    if s == [] || KeyLe(KeyOf(f, x), KeyOf(f, s[0])) then [x] + s
    else
      assert s == [s[0]] + s[1..];
      [s[0]] + Insert(f, x, s[1..])
  }

  /** `sorted(rs, key=...)`: an insertion sort that keeps equal keys in their order. */
  function SortBy(f: SortField, rs: seq<ProxyResult>): (r: seq<ProxyResult>)
    ensures multiset(r) == multiset(rs)
    decreases |rs|
  {
    if rs == [] then []
    else
      var rest := SortBy(f, rs[1..]);
      assert rs == [rs[0]] + rs[1..];
      Insert(f, rs[0], rest)
  }

  /** A result no greater than any element of a sorted sequence can go in front of it. */
  lemma SortedCons(f: SortField, y: ProxyResult, t: seq<ProxyResult>)
    requires SortedBy(f, t)
    requires forall j :: 0 <= j < |t| ==> KeyLe(KeyOf(f, y), KeyOf(f, t[j]))
    ensures SortedBy(f, [y] + t)
  {
    var r := [y] + t;
    forall i, j | 0 <= i < j < |r|
      ensures KeyLe(KeyOf(f, r[i]), KeyOf(f, r[j]))
    {
      assert r[j] == t[j - 1];
      if i > 0 {
        assert r[i] == t[i - 1];
      }
    }
  }

  /** Inserting keeps a lower bound on the keys. */
  lemma InsertAbove(f: SortField, k: SortKey, x: ProxyResult, s: seq<ProxyResult>)
    requires KeyLe(k, KeyOf(f, x))
    requires forall j :: 0 <= j < |s| ==> KeyLe(k, KeyOf(f, s[j]))
    ensures forall j :: 0 <= j < |Insert(f, x, s)| ==> KeyLe(k, KeyOf(f, Insert(f, x, s)[j]))
  {
    var t := Insert(f, x, s);
    forall j | 0 <= j < |t|
      ensures KeyLe(k, KeyOf(f, t[j]))
    {
      assert t[j] in multiset(t);
      if t[j] != x {
        assert t[j] in multiset(s);
        var m :| 0 <= m < |s| && s[m] == t[j];
      }
    }
  }

  lemma {:induction false} InsertSorted(f: SortField, x: ProxyResult, s: seq<ProxyResult>)
    requires SortedBy(f, s)
    ensures SortedBy(f, Insert(f, x, s))
    decreases |s|
  {
    if s == [] {
      SortedCons(f, x, s);
    } else if KeyLe(KeyOf(f, x), KeyOf(f, s[0])) {
      forall j | 0 <= j < |s|
        ensures KeyLe(KeyOf(f, x), KeyOf(f, s[j]))
      {
        if j > 0 {
          KeyLeTrans(KeyOf(f, x), KeyOf(f, s[0]), KeyOf(f, s[j]));
        }
      }
      SortedCons(f, x, s);
    } else {
      var y, rest := s[0], s[1..];
      KeyLeTotal(KeyOf(f, x), KeyOf(f, y));
      assert SortedBy(f, rest);
      assert forall j :: 0 <= j < |rest| ==> KeyLe(KeyOf(f, y), KeyOf(f, rest[j])) by {
        forall j | 0 <= j < |rest|
          ensures KeyLe(KeyOf(f, y), KeyOf(f, rest[j]))
        {
          assert rest[j] == s[j + 1];
        }
      }
      InsertSorted(f, x, rest);
      InsertAbove(f, KeyOf(f, y), x, rest);
      SortedCons(f, y, Insert(f, x, rest));
    }
  }

  lemma {:induction false} SortBySorted(f: SortField, rs: seq<ProxyResult>)
    ensures SortedBy(f, SortBy(f, rs))
    decreases |rs|
  {
    if rs != [] {
      SortBySorted(f, rs[1..]);
      InsertSorted(f, rs[0], SortBy(f, rs[1..]));
    }
  }

  /** The results whose key is `k`, in order. */
  function WithKey(f: SortField, rs: seq<ProxyResult>, k: SortKey): seq<ProxyResult>
    decreases |rs|
  {
    if rs == [] then [] else (if KeyOf(f, rs[0]) == k then [rs[0]] else []) + WithKey(f, rs[1..], k)
  }

  lemma WithKeyCons(f: SortField, y: ProxyResult, s: seq<ProxyResult>, k: SortKey)
    ensures WithKey(f, [y] + s, k) == (if KeyOf(f, y) == k then [y] else []) + WithKey(f, s, k)
  {
    assert ([y] + s)[1..] == s;
  }

  /** Two results of which at most one has key `k` can swap without changing the `k`-subsequence. */
  lemma WithKeySwap(f: SortField, x: ProxyResult, y: ProxyResult, s: seq<ProxyResult>, k: SortKey)
    requires KeyOf(f, x) != k || KeyOf(f, y) != k
    ensures WithKey(f, [y] + ([x] + s), k) == WithKey(f, [x] + ([y] + s), k)
  {
    WithKeyCons(f, y, [x] + s, k);
    WithKeyCons(f, x, s, k);
    WithKeyCons(f, x, [y] + s, k);
    WithKeyCons(f, y, s, k);
  }

  lemma {:induction false} InsertStable(f: SortField, x: ProxyResult, s: seq<ProxyResult>, k: SortKey)
    ensures WithKey(f, Insert(f, x, s), k) == WithKey(f, [x] + s, k)
    decreases |s|
  {
    if s != [] && !KeyLe(KeyOf(f, x), KeyOf(f, s[0])) {
      var y, t := s[0], s[1..];
      var ins := Insert(f, x, t);
      assert Insert(f, x, s) == [y] + ins;
      InsertStable(f, x, t, k);
      WithKeyCons(f, y, ins, k);
      WithKeyCons(f, y, [x] + t, k);
      if KeyOf(f, x) == k && KeyOf(f, y) == k {
        KeyLeRefl(k);
      }
      WithKeySwap(f, x, y, t, k);
      assert [x] + ([y] + t) == [x] + s;
    }
  }

  /** Sorting is stable: the results sharing a key keep their relative order. */
  lemma {:induction false} SortByStable(f: SortField, rs: seq<ProxyResult>, k: SortKey)
    ensures WithKey(f, SortBy(f, rs), k) == WithKey(f, rs, k)
    decreases |rs|
  {
    if rs != [] {
      SortByStable(f, rs[1..], k);
      InsertStable(f, rs[0], SortBy(f, rs[1..]), k);
      assert ([rs[0]] + SortBy(f, rs[1..]))[1..] == SortBy(f, rs[1..]);
    }
  }

  /** `get_sorted_results`: sorted on a known key, the stored order for an unknown one. */
  function SortedResults(rs: seq<ProxyResult>, sortBy: string): (r: seq<ProxyResult>)
    ensures multiset(r) == multiset(rs)
    ensures ParseSortField(sortBy).None? ==> r == rs
  {
    if rs == [] then []
    else
      match ParseSortField(sortBy)
      case None => rs
      case Some(f) => SortBy(f, rs)
  }

  /** The sorted view is ordered by the key and stable. */
  lemma SortedResultsOrdered(rs: seq<ProxyResult>, sortBy: string, k: SortKey)
    requires ParseSortField(sortBy).Some?
    ensures SortedBy(ParseSortField(sortBy).value, SortedResults(rs, sortBy))
    ensures WithKey(ParseSortField(sortBy).value, SortedResults(rs, sortBy), k) == WithKey(ParseSortField(sortBy).value, rs, k)
  {
    var f := ParseSortField(sortBy).value;
    if rs != [] {
      SortBySorted(f, rs);
      SortByStable(f, rs, k);
    }
  }

  // ---------------------------------------------------------------------
  // Filtering
  // ---------------------------------------------------------------------

  /** The filter dictionary; `false`, `0` and `""` mean "not set", as Python's truthiness has it. */
  datatype Filters = Filters(activeOnly: bool, maxPing: int, maxHttpTime: int, country: string)

  /** `[r for r in rs if keep(r)]`. */
  function Keep(rs: seq<ProxyResult>, keep: ProxyResult -> bool): seq<ProxyResult>
    decreases |rs|
  {
    if rs == [] then [] else (if keep(rs[0]) then [rs[0]] else []) + Keep(rs[1..], keep)
  }

  /** `get_filtered_results`: the set filters applied one after another. */
  function FilteredResults(rs: seq<ProxyResult>, f: Filters): seq<ProxyResult> {
    if rs == [] then []
    else
      var a := if f.activeOnly then Keep(rs, (r: ProxyResult) => r.status == Active) else rs;
      var b := if f.maxPing != 0 then Keep(a, (r: ProxyResult) => r.ping <= f.maxPing) else a;
      var c := if f.maxHttpTime != 0 then Keep(b, (r: ProxyResult) => r.httpTime <= f.maxHttpTime) else b;
      if f.country != "" then Keep(c, (r: ProxyResult) => AsciiLower(r.country) == AsciiLower(f.country)) else c
  }

  /** A result passes every filter that is set. */
  predicate Matches(f: Filters, r: ProxyResult) {
    && (f.activeOnly ==> r.status == Active)
    && (f.maxPing != 0 ==> r.ping <= f.maxPing)
    && (f.maxHttpTime != 0 ==> r.httpTime <= f.maxHttpTime)
    && (f.country != "" ==> AsciiLower(r.country) == AsciiLower(f.country))
  }

  /** `a` is `b` with some elements left out, the rest in order. */
  predicate IsSubsequence(a: seq<ProxyResult>, b: seq<ProxyResult>)
    decreases |b|
  {
    a == [] || (b != [] && ((a[0] == b[0] && IsSubsequence(a[1..], b[1..])) || IsSubsequence(a, b[1..])))
  }

  lemma {:induction false} KeepSubsequence(rs: seq<ProxyResult>, keep: ProxyResult -> bool)
    ensures IsSubsequence(Keep(rs, keep), rs)
    decreases |rs|
  {
    if rs != [] {
      KeepSubsequence(rs[1..], keep);
      var k := Keep(rs[1..], keep);
      if keep(rs[0]) {
        assert Keep(rs, keep) == [rs[0]] + k;
        assert ([rs[0]] + k)[1..] == k;
      } else {
        assert Keep(rs, keep) == k;
      }
    }
  }

  lemma {:induction false} KeepMembers(rs: seq<ProxyResult>, keep: ProxyResult -> bool)
    ensures forall r :: r in Keep(rs, keep) <==> r in rs && keep(r)
    decreases |rs|
  {
    if rs != [] {
      KeepMembers(rs[1..], keep);
      assert rs == [rs[0]] + rs[1..];
    }
  }

  /** Two filters in a row keep what their conjunction keeps. */
  lemma {:induction false} KeepKeep(rs: seq<ProxyResult>, p: ProxyResult -> bool, q: ProxyResult -> bool, pq: ProxyResult -> bool)
    requires forall r :: pq(r) == (p(r) && q(r))
    ensures Keep(Keep(rs, p), q) == Keep(rs, pq)
    decreases |rs|
  {
    if rs != [] {
      KeepKeep(rs[1..], p, q, pq);
      var k := Keep(rs[1..], p);
      if p(rs[0]) {
        assert Keep(rs, p) == [rs[0]] + k;
        assert ([rs[0]] + k)[1..] == k;
      } else {
        assert Keep(rs, p) == k;
      }
    }
  }

  lemma {:induction false} KeepAll(rs: seq<ProxyResult>, p: ProxyResult -> bool)
    requires forall r :: p(r)
    ensures Keep(rs, p) == rs
    decreases |rs|
  {
    if rs != [] {
      KeepAll(rs[1..], p);
    }
  }

  /**
   * The successive filters amount to a single pass keeping exactly the
   * results that pass every set filter: an order-preserving subsequence.
   */
  lemma FilteredIsOnePass(rs: seq<ProxyResult>, f: Filters)
    ensures FilteredResults(rs, f) == Keep(rs, (r: ProxyResult) => Matches(f, r))
    ensures IsSubsequence(FilteredResults(rs, f), rs)
    ensures forall r :: r in FilteredResults(rs, f) <==> r in rs && Matches(f, r)
  {
    var m1: ProxyResult -> bool := (r: ProxyResult) => f.activeOnly ==> r.status == Active;
    var m2: ProxyResult -> bool := (r: ProxyResult) => m1(r) && (f.maxPing != 0 ==> r.ping <= f.maxPing);
    var m3: ProxyResult -> bool := (r: ProxyResult) => m2(r) && (f.maxHttpTime != 0 ==> r.httpTime <= f.maxHttpTime);
    var m4: ProxyResult -> bool := (r: ProxyResult) => Matches(f, r);
    if rs != [] {
      var a := if f.activeOnly then Keep(rs, (r: ProxyResult) => r.status == Active) else rs;
      assert a == Keep(rs, m1) by {
        if !f.activeOnly {
          KeepAll(rs, m1);
        } else {
          KeepAll(rs, (r: ProxyResult) => true);
          KeepKeep(rs, (r: ProxyResult) => true, (r: ProxyResult) => r.status == Active, m1);
        }
      }
      var b := if f.maxPing != 0 then Keep(a, (r: ProxyResult) => r.ping <= f.maxPing) else a;
      assert b == Keep(rs, m2) by {
        if f.maxPing != 0 {
          KeepKeep(rs, m1, (r: ProxyResult) => r.ping <= f.maxPing, m2);
        } else {
          KeepKeep(rs, m1, (r: ProxyResult) => true, m2);
          KeepAll(Keep(rs, m1), (r: ProxyResult) => true);
        }
      }
      var c := if f.maxHttpTime != 0 then Keep(b, (r: ProxyResult) => r.httpTime <= f.maxHttpTime) else b;
      assert c == Keep(rs, m3) by {
        if f.maxHttpTime != 0 {
          KeepKeep(rs, m2, (r: ProxyResult) => r.httpTime <= f.maxHttpTime, m3);
        } else {
          KeepKeep(rs, m2, (r: ProxyResult) => true, m3);
          KeepAll(Keep(rs, m2), (r: ProxyResult) => true);
        }
      }
      if f.country != "" {
        KeepKeep(rs, m3, (r: ProxyResult) => AsciiLower(r.country) == AsciiLower(f.country), m4);
      } else {
        KeepKeep(rs, m3, (r: ProxyResult) => true, m4);
        KeepAll(Keep(rs, m3), (r: ProxyResult) => true);
      }
    }
    KeepSubsequence(rs, m4);
    KeepMembers(rs, m4);
  }

  // ---------------------------------------------------------------------
  // Export of the working proxies
  // ---------------------------------------------------------------------

  /** `[result.proxy for result in rs if result.status == ACTIVE]`. */
  function ActiveProxies(rs: seq<ProxyResult>): (ps: seq<string>)
    ensures |ps| == |Actives(rs)|
  {
    var act := Actives(rs);
    seq(|act|, i requires 0 <= i < |act| => act[i].proxy)
  }

  /** The header line `save_working_proxies` writes before the proxies, without its line break. */
  function ExportHeader(stamp: string): string {
    "# Working Proxies - Exported " + stamp
  }

  /** Each text followed by a line break: the lines of `f.write(p + '\n')` for each `p`. */
  function WithLineEnds(ps: seq<string>): (ls: seq<string>)
    ensures |ls| == |ps|
    ensures forall i :: 0 <= i < |ls| ==> ls[i] != [] && ls[i][|ls[i]| - 1] == '\n'
  {
    if ps == [] then [] else [ps[0] + "\n"] + WithLineEnds(ps[1..])
  }

  /**
   * The lines `save_working_proxies` writes, each with its line break: the
   * header, then one Active proxy per line.
   */
  function ExportLines(rs: seq<ProxyResult>, stamp: string): (lines: seq<string>)
    ensures |lines| == 1 + |Actives(rs)|
    ensures StartsWith(lines[0], "#")
    ensures forall i :: 0 <= i < |lines| ==> lines[i] != [] && lines[i][|lines[i]| - 1] == '\n'
  {
    [ExportHeader(stamp) + "\n"] + WithLineEnds(ActiveProxies(rs))
  }

  /** A proxy the cache reader gives back exactly as it was written. */
  predicate CleanLine(p: string) {
    p != "" && NoOuterSpace(p) && p[0] != '#'
  }

  lemma {:induction false} CacheEntriesOfClean(ps: seq<string>)
    requires forall q :: q in ps ==> CleanLine(q)
    ensures CacheEntries(WithLineEnds(ps)) == ps
    decreases |ps|
  {
    if ps != [] {
      assert forall q :: q in ps[1..] ==> q in ps;
      CacheEntriesOfClean(ps[1..]);
      assert ps[0] in ps;
      CacheEntriesWritten(ps[0], WithLineEnds(ps[1..]));
      assert [ps[0]] + ps[1..] == ps;
    }
  }

  /**
   * Reading an export back as a cache file (the `_load_working_proxies`
   * comprehension) gives exactly the exported proxies, header skipped, as
   * long as no proxy has surrounding whitespace or starts with `#`.
   */
  lemma ExportRoundTrip(rs: seq<ProxyResult>, stamp: string)
    requires forall r :: r in rs && r.status == Active ==> r.proxy != "" && NoOuterSpace(r.proxy) && r.proxy[0] != '#'
    ensures CacheEntries(ExportLines(rs, stamp)) == ActiveProxies(rs)
  {
    var ps := ActiveProxies(rs);
    ActivesMembers(rs);
    forall q | q in ps
      ensures CleanLine(q)
    {
      var i :| 0 <= i < |ps| && ps[i] == q;
      assert Actives(rs)[i] in Actives(rs);
    }
    CacheEntriesOfClean(ps);
    CacheEntriesConcat([ExportHeader(stamp) + "\n"], WithLineEnds(ps));
    StartsWithChar(ExportHeader(stamp) + "\n", '#');
  }

  /** How writing the export file went. */
  datatype WriteOutcome = Written | WriteRaised(error: string)

  /** A file written by the export: its name and its lines. */
  datatype ExportedFile = ExportedFile(name: string, lines: seq<string>)

  /** The reply of `save_working_proxies`, with the file it wrote when the write went through. */
  datatype ExportReply = ExportReply(ok: bool, message: string, written: Option<ExportedFile>)

  /**
   * `save_working_proxies`: the file name (a timestamped default when none is
   * given), the lines written, and the reply.
   */
  function SaveWorkingProxies(rs: seq<ProxyResult>, filename: string, fileStamp: string, stamp: string, write: WriteOutcome): (r: ExportReply)
    ensures r.ok <==> write.Written?
    ensures r.ok <==> r.written.Some?
    ensures r.ok ==> r.message == "✅ " + NatToString(|Actives(rs)|) + " working proxies saved to " + ExportFileName(filename, fileStamp)
    ensures r.written.Some? ==> r.written.value == ExportedFile(ExportFileName(filename, fileStamp), ExportLines(rs, stamp))
    ensures !r.ok ==> r.message == "❌ Error saving file: " + write.error
  {
    var name := ExportFileName(filename, fileStamp);
    match write
    case Written =>
      ExportReply(true, "✅ " + NatToString(|ActiveProxies(rs)|) + " working proxies saved to " + name,
                  Some(ExportedFile(name, [ExportHeader(stamp) + "\n"] + WithLineEnds(ActiveProxies(rs)))))
    case WriteRaised(e) => ExportReply(false, "❌ Error saving file: " + e, None)
  }

  /**
   * A successful export, read back as a cache file, gives exactly the
   * exported proxies, as long as no proxy has surrounding whitespace or
   * starts with `#`.
   */
  lemma SavedExportReadsBack(rs: seq<ProxyResult>, filename: string, fileStamp: string, stamp: string)
    requires forall r :: r in rs && r.status == Active ==> r.proxy != "" && NoOuterSpace(r.proxy) && r.proxy[0] != '#'
    ensures SaveWorkingProxies(rs, filename, fileStamp, stamp, Written).written.Some?
    ensures CacheEntries(SaveWorkingProxies(rs, filename, fileStamp, stamp, Written).written.value.lines) == ActiveProxies(rs)
  {
    ExportRoundTrip(rs, stamp);
  }

  function ExportFileName(filename: string, fileStamp: string): (name: string)
    ensures filename != "" ==> name == filename
  {
    if filename == "" then "working_proxies_" + fileStamp + ".txt" else filename
  }
}
