/**
 * Probing one candidate: `ProxyBackend.test_proxy_async` with its helpers
 * `_test_http_proxy`, `_test_https_proxy` and `_detect_proxy_info`.
 *
 * Everything the network and the clock would decide is an input: the TCP
 * connect outcome and its duration, what each test URL answers through the
 * proxy (status and elapsed milliseconds, or an exception), the geolocation
 * reply, the header names of the reflector reply, and the timestamp.
 */
module Probe {
  import opened Wrappers
  import opened Text

  /** `ProxyStatus`; `Timeout` exists but is never produced. */
  datatype Status = Active | Failed | Timeout | Error {
    /** The enum's `.value`, the text `get_sorted_results` sorts on. */
    function Value(): string {
      match this
      case Active => "Active"
      case Failed => "Failed"
      case Timeout => "Timeout"
      case Error => "Error"
    }
  }

  /** `AnonymityLevel`; `Elite` exists but is never produced. */
  datatype Anonymity = Elite | Anonymous | Transparent | Unknown

  /** The `ProxyResult` record, with its defaults spelled out by `Plain`. */
  datatype ProxyResult = ProxyResult(
    proxy: string,
    ping: int,
    httpTime: int,
    status: Status,
    country: string,
    countryCode: string,
    anonymity: Anonymity,
    lastChecked: Option<string>,
    isp: string)

  /** `ProxyResult(proxy, ping, http_time, status)` with every other field at its default. */
  function Plain(proxy: string, ping: int, httpTime: int, status: Status): ProxyResult {
    ProxyResult(proxy, ping, httpTime, status, "Unknown", "XX", Unknown, None, "Unknown")
  }

  /** The sentinel time for "never answered". */
  const NoTime := 9999

  /** Answers quicker than this (in milliseconds) are written to the cache file. */
  const PersistBelow := 3000

  /** The backend's `settings` dictionary. */
  datatype Settings = Settings(
    maxWorkers: int,
    timeout: int,
    testUrls: seq<string>,
    enableSound: bool,
    testHttps: bool)

  /** The settings a fresh backend starts with (before any config file is read). */
  function DefaultSettings(): (s: Settings)
    ensures s.testHttps && |s.testUrls| == 4
  {
    Settings(50, 8, ["http://www.google.com", "http://www.cloudflare.com", "http://www.github.com", "https://httpbin.org/ip"], true, true)
  }

  /** How the TCP connect went: connected after `ms`, one of the caught errors, or any other exception. */
  datatype TcpOutcome = Connected(ms: int) | ConnectFailed | ConnectCrashed

  /** What one test URL answered through the proxy. */
  datatype Attempt = Reply(status: int, ms: int) | Raised

  /** An attempt that counts as a success for a URL of the stage's scheme. */
  predicate Hit(urls: seq<string>, attempts: seq<Attempt>, scheme: string, i: int)
    requires |urls| == |attempts|
  {
    0 <= i < |urls| && StartsWith(urls[i], scheme) && attempts[i].Reply? && attempts[i].status == 200
  }

  /**
   * The position a stage stops at: the first URL of its scheme that answers
   * 200, in list order, or none.
   */
  function FirstHit(urls: seq<string>, attempts: seq<Attempt>, scheme: string): (r: Option<nat>)
    requires |urls| == |attempts|
    ensures r.Some? ==> Hit(urls, attempts, scheme, r.value)
    ensures r.Some? ==> forall j :: 0 <= j < r.value ==> !Hit(urls, attempts, scheme, j)
    ensures r.None? <==> forall j :: 0 <= j < |urls| ==> !Hit(urls, attempts, scheme, j)
    decreases |urls|
  {
    if urls == [] then None
    else if StartsWith(urls[0], scheme) && attempts[0].Reply? && attempts[0].status == 200 then
      assert Hit(urls, attempts, scheme, 0);
      Some(0)
    else
      var rest := FirstHit(urls[1..], attempts[1..], scheme);
      assert forall j :: 1 <= j < |urls| ==> (Hit(urls, attempts, scheme, j) <==> Hit(urls[1..], attempts[1..], scheme, j - 1));
      match rest
      case None => None
      case Some(k) => Some(k + 1)
  }

  /** Some URL of the stage's scheme answered 200. */
  predicate StageHits(urls: seq<string>, attempts: seq<Attempt>, scheme: string)
    requires |urls| == |attempts|
  {
    exists i :: 0 <= i < |urls| && Hit(urls, attempts, scheme, i)
  }

  /** Position `i` is where the stage stops: a hit with no hit before it. */
  predicate FirstHitAt(urls: seq<string>, attempts: seq<Attempt>, scheme: string, i: int)
    requires |urls| == |attempts|
  {
    Hit(urls, attempts, scheme, i) && forall j :: 0 <= j < i ==> !Hit(urls, attempts, scheme, j)
  }

  /** The `(time, success)` pair a stage returns. */
  function StageResult(urls: seq<string>, attempts: seq<Attempt>, scheme: string): (r: (int, bool))
    requires |urls| == |attempts|
    ensures r.1 <==> StageHits(urls, attempts, scheme)
    ensures r.1 ==> exists i :: FirstHitAt(urls, attempts, scheme, i) && r.0 == attempts[i].ms
    ensures !r.1 ==> r.0 == NoTime
  {
    match FirstHit(urls, attempts, scheme)
    case Some(i) => (attempts[i].ms, true)
    case None => (NoTime, false)
  }

  /**
   * `_test_http_proxy` (scheme `http://`) and `_test_https_proxy` (scheme
   * `https://`): try the URLs of the scheme in order, skipping the others and
   * any that raises, and stop at the first status 200.
   */
  method TestStage(urls: seq<string>, attempts: seq<Attempt>, scheme: string) returns (ms: int, ok: bool)
    requires |urls| == |attempts|
    ensures ok <==> exists i :: Hit(urls, attempts, scheme, i)
    ensures ok ==> exists i :: Hit(urls, attempts, scheme, i) && ms == attempts[i].ms
                              && forall j :: 0 <= j < i ==> !Hit(urls, attempts, scheme, j)
    ensures !ok ==> ms == NoTime
    ensures (ms, ok) == StageResult(urls, attempts, scheme)
  {
    var k := 0;
    while k < |urls|
      invariant 0 <= k <= |urls|
      invariant forall j :: 0 <= j < k ==> !Hit(urls, attempts, scheme, j)
      decreases |urls| - k
    {
      if !StartsWith(urls[k], scheme) {
        k := k + 1;
        continue;
      }
      if attempts[k].Reply? && attempts[k].status == 200 {
        assert Hit(urls, attempts, scheme, k);
        return attempts[k].ms, true;
      }
      k := k + 1;
    }
    return NoTime, false;
  }

  /** The geolocation reply: an exception, or a status and a body. */
  datatype GeoLookup = GeoRaised | GeoReply(status: int, body: GeoBody)

  /**
   * The decoded body of the geolocation reply: decoding raised (not JSON, or
   * not an object), or the four keys the code reads, each possibly absent.
   */
  datatype GeoBody = BodyRaised | GeoJson(apiStatus: Option<string>, country: Option<string>, countryCode: Option<string>, isp: Option<string>)

  /** The reflector reply: an exception, or a status and the response header names as sent. */
  datatype Reflection = ReflectorRaised | ReflectorReply(status: int, headerNames: seq<string>)

  datatype ProxyInfo = ProxyInfo(country: string, countryCode: string, anonymity: Anonymity, isp: string)

  /** An exception inside the geolocation step abandons the whole lookup. */
  predicate GeoAborts(geo: GeoLookup) {
    geo.GeoRaised? || (geo.status == 200 && geo.body.BodyRaised?)
  }

  /** The geolocation reply is a 200 whose JSON body says `"status": "success"`. */
  predicate GeoLocated(geo: GeoLookup) {
    geo.GeoReply? && geo.status == 200 && geo.body.GeoJson? && geo.body.apiStatus == Some("success")
  }

  /** The header rule: exact, case-sensitive names `via` or `x-forwarded-for`. */
  predicate Reveals(headerNames: seq<string>) {
    "via" in headerNames || "x-forwarded-for" in headerNames
  }

  /**
   * `_detect_proxy_info`: country, code and ISP from a successful geolocation
   * reply (a missing key gives the default), then the anonymity from the
   * reflector's header names. Any exception ends the lookup with whatever was
   * found so far.
   */
  function DetectProxyInfo(geo: GeoLookup, reflector: Reflection): (r: ProxyInfo)
    ensures r.anonymity != Elite
    ensures GeoAborts(geo) ==> r == ProxyInfo("Unknown", "XX", Unknown, "Unknown")
    ensures r.anonymity == Transparent <==>
              !GeoAborts(geo) && reflector.ReflectorReply? && reflector.status == 200 && Reveals(reflector.headerNames)
    ensures r.anonymity == Anonymous <==>
              !GeoAborts(geo) && reflector.ReflectorReply? && reflector.status == 200 && !Reveals(reflector.headerNames)
    ensures GeoLocated(geo) ==>
              r.country == geo.body.country.GetOr("Unknown") && r.countryCode == geo.body.countryCode.GetOr("XX") && r.isp == geo.body.isp.GetOr("Unknown")
    ensures !GeoLocated(geo) ==> r.country == "Unknown" && r.countryCode == "XX" && r.isp == "Unknown"
  {
    var defaults := ProxyInfo("Unknown", "XX", Unknown, "Unknown");
    if GeoAborts(geo) then defaults
    else
      var located :=
        if geo.status == 200 && geo.body.apiStatus == Some("success") then
          ProxyInfo(geo.body.country.GetOr("Unknown"), geo.body.countryCode.GetOr("XX"), Unknown, geo.body.isp.GetOr("Unknown"))
        else defaults;
      match reflector
      case ReflectorRaised => located
      case ReflectorReply(status, names) =>
        if status != 200 then located
        else if Reveals(names) then located.(anonymity := Transparent)
        else located.(anonymity := Anonymous)
  }

  /** Everything one probe is given besides the candidate and the settings. */
  datatype ProbeEnv = ProbeEnv(tcp: TcpOutcome, attempts: seq<Attempt>, geo: GeoLookup, reflector: Reflection, now: string)

  /** The result of a probe, and whether it appends the candidate to the cache file. */
  datatype ProbeOutcome = ProbeOutcome(result: ProxyResult, persist: bool)

  /** The candidate splits into exactly `ip` and a port `int()` accepts. */
  predicate WellShaped(proxy: string) {
    var parts := Split(proxy, ':');
    |parts| == 2 && IsIntLiteral(parts[1])
  }

  /** Some URL of the stages that ran answered 200. */
  predicate Reachable(settings: Settings, attempts: seq<Attempt>)
    requires |attempts| == |settings.testUrls|
  {
    StageHits(settings.testUrls, attempts, "http://") || (settings.testHttps && StageHits(settings.testUrls, attempts, "https://"))
  }

  /**
   * `test_proxy_async`. A candidate that does not unpack into two fields or
   * whose port `int()` refuses is an Error; a TCP failure is Failed; a TCP
   * success is Active if the HTTP stage, or else (with `test_https` on) the
   * HTTPS stage, got a 200, and Failed otherwise. Only an Active result
   * quicker than 3000 ms is persisted.
   */
  function TestProxy(settings: Settings, proxy: string, env: ProbeEnv): (o: ProbeOutcome)
    requires |env.attempts| == |settings.testUrls|
    ensures o.result.proxy == proxy && o.result.status != Timeout
    ensures !WellShaped(proxy) ==> o == ProbeOutcome(Plain(proxy, NoTime, NoTime, Error), false)
    ensures WellShaped(proxy) && env.tcp.ConnectFailed? ==> o == ProbeOutcome(Plain(proxy, NoTime, NoTime, Failed), false)
    ensures WellShaped(proxy) && env.tcp.ConnectCrashed? ==> o == ProbeOutcome(Plain(proxy, NoTime, NoTime, Error), false)
    ensures o.result.status == Active <==> WellShaped(proxy) && env.tcp.Connected? && Reachable(settings, env.attempts)
    ensures o.result.status == Active ==> o.result.ping == env.tcp.ms && o.result.lastChecked == Some(env.now)
    ensures o.result.status == Active ==>
              ProxyInfo(o.result.country, o.result.countryCode, o.result.anonymity, o.result.isp) == DetectProxyInfo(env.geo, env.reflector)
    ensures (o.result.status == Active && StageHits(settings.testUrls, env.attempts, "http://"))
              ==> exists i :: FirstHitAt(settings.testUrls, env.attempts, "http://", i) && o.result.httpTime == env.attempts[i].ms
    ensures (o.result.status == Active && !StageHits(settings.testUrls, env.attempts, "http://"))
              ==> settings.testHttps && exists i :: FirstHitAt(settings.testUrls, env.attempts, "https://", i) && o.result.httpTime == env.attempts[i].ms
    ensures o.result.status == Failed && env.tcp.Connected? ==> o.result == Plain(proxy, env.tcp.ms, NoTime, Failed)
    ensures o.persist <==> o.result.status == Active && o.result.httpTime < PersistBelow
  {
    var parts := Split(proxy, ':');
    if |parts| != 2 || !IsIntLiteral(parts[1]) then
      ProbeOutcome(Plain(proxy, NoTime, NoTime, Error), false)
    else
      match env.tcp
      case ConnectFailed => ProbeOutcome(Plain(proxy, NoTime, NoTime, Failed), false)
      case ConnectCrashed => ProbeOutcome(Plain(proxy, NoTime, NoTime, Error), false)
      case Connected(connectTime) => ProbeConnected(settings, proxy, connectTime, env)
  }

  /**
   * The rest of `test_proxy_async` once the TCP connection succeeded: the
   * HTTP stage, the HTTPS stage when that found nothing and `test_https` is
   * on, then the lookup for an Active result.
   */
  function ProbeConnected(settings: Settings, proxy: string, connectTime: int, env: ProbeEnv): (o: ProbeOutcome)
    requires |env.attempts| == |settings.testUrls|
    ensures o.result.status == Active || o.result == Plain(proxy, connectTime, NoTime, Failed)
    ensures o.result.proxy == proxy
    ensures o.result.status == Active <==> Reachable(settings, env.attempts)
    ensures o.result.status == Active ==> o.result.ping == connectTime && o.result.lastChecked == Some(env.now)
    ensures o.result.status == Active ==>
              ProxyInfo(o.result.country, o.result.countryCode, o.result.anonymity, o.result.isp) == DetectProxyInfo(env.geo, env.reflector)
    ensures (o.result.status == Active && StageHits(settings.testUrls, env.attempts, "http://"))
              ==> exists i :: FirstHitAt(settings.testUrls, env.attempts, "http://", i) && o.result.httpTime == env.attempts[i].ms
    ensures (o.result.status == Active && !StageHits(settings.testUrls, env.attempts, "http://"))
              ==> settings.testHttps && exists i :: FirstHitAt(settings.testUrls, env.attempts, "https://", i) && o.result.httpTime == env.attempts[i].ms
    ensures o.persist <==> o.result.status == Active && o.result.httpTime < PersistBelow
  {
    var http := StageResult(settings.testUrls, env.attempts, "http://");
    var stage := if !http.1 && settings.testHttps then StageResult(settings.testUrls, env.attempts, "https://") else http;
    if stage.1 then
      var info := DetectProxyInfo(env.geo, env.reflector);
      var result := ProxyResult(proxy, connectTime, stage.0, Active, info.country, info.countryCode, info.anonymity, Some(env.now), info.isp);
      ProbeOutcome(result, stage.0 < PersistBelow)
    else
      ProbeOutcome(Plain(proxy, connectTime, NoTime, Failed), false)
  }

  /** No probe result is ever Elite: only the reflector rule sets the anonymity, and it never picks Elite. */
  lemma ProbeNeverElite(settings: Settings, proxy: string, env: ProbeEnv)
    requires |env.attempts| == |settings.testUrls|
    ensures TestProxy(settings, proxy, env).result.anonymity != Elite
  {
  }
}
