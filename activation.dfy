/**
 * Making a proxy the system proxy: `set_windows_proxy` validates the proxy
 * text and runs `netsh winhttp set proxy`, `verify_proxy_setting` reads the
 * setting back from `netsh winhttp show proxy`, and `_check_current_proxy`
 * extracts the proxy that command reports.
 *
 * The commands are not run here: each run of a command is an input, its exit
 * code and captured output, or the exception it raised.
 */
module Activation {
  import opened Text
  import opened Normalizer

  /** What one `subprocess.run` call gave back. */
  datatype CommandRun =
    | Completed(returncode: int, stdout: string, stderr: string)
    | TimedOut
    | Raised(error: string)

  /** How `set_windows_proxy` classifies its argument before running anything. */
  datatype Validation =
    | BadFormat                              // empty, or no `:` at all
    | TooManyFields                          // `ip, port = proxy.split(':')` raises
    | BadPort                                // port not all digits, or outside 1..65535
    | Accepted(host: string, port: string)

  const MaxPort := 65535

  /** `str()` of the `ValueError` raised when unpacking more than two fields. */
  const UnpackError := "too many values to unpack (expected 2)"

  /** `str()` of the `TimeoutExpired` raised by the 10-second read-back. */
  const ReadBackTimeout := "Command 'netsh winhttp show proxy' timed out after 10 seconds"

  /**
   * The checks `set_windows_proxy` makes before building the command: the
   * proxy needs a `:`, exactly one (two fields to unpack), and a decimal port
   * from 1 to 65535 after it.
   */
  function ValidateProxy(proxy: string): (v: Validation)
    ensures v.BadFormat? <==> ':' !in proxy
    ensures v.TooManyFields? <==> Count(proxy, ':') > 1
    ensures v.Accepted? ==> && proxy == v.host + ":" + v.port && ':' !in v.host
                            && IsDigits(v.port) && 1 <= DecimalValue(v.port) <= MaxPort
  {
    if proxy == [] || ':' !in proxy then BadFormat
    else
      var parts := Split(proxy, ':');
      if |parts| != 2 then TooManyFields
      else if !IsDigits(parts[1]) || !(1 <= DecimalValue(parts[1]) <= MaxPort) then BadPort
      else
        SplitTwo(proxy, ':');
        Accepted(parts[0], parts[1])
  }

  /** Every host without a `:` and every port in range is accepted, split back into the same two parts. */
  lemma AcceptsHostPort(host: string, port: string)
    requires ':' !in host && IsDigits(port) && 1 <= DecimalValue(port) <= MaxPort
    ensures ValidateProxy(host + ":" + port) == Accepted(host, port)
  {
    DigitsExclude(port, ':');
    SplitPair(host, port, ':');
  }

  /** A port out of range is refused, whatever the host. */
  lemma RejectsPortOutOfRange(host: string, port: string)
    requires ':' !in host && IsDigits(port) && !(1 <= DecimalValue(port) <= MaxPort)
    ensures ValidateProxy(host + ":" + port) == BadPort
  {
    DigitsExclude(port, ':');
    SplitPair(host, port, ':');
  }

  /**
   * A registry entry the normaliser keeps as it is (the plain `host:port`
   * shape) passes the format checks, and is accepted exactly when its port
   * is in range.
   */
  lemma CanonicalEntryValidation(entry: string)
    requires entry != "" && NoOuterSpace(entry) && ParseProxyLine(entry) == entry
    ensures IsPlainHostPort(entry)
    ensures ValidateProxy(entry).Accepted? <==> 1 <= DecimalValue(Split(entry, ':')[1]) <= MaxPort
    ensures !ValidateProxy(entry).Accepted? ==> ValidateProxy(entry) == BadPort
  {
    ParseFixpoints(entry);
  }

  /** The error text of a failed `netsh winhttp set proxy`: stderr, else stdout, else the exit code. */
  function FailureText(returncode: int, stdout: string, stderr: string): (e: string)
    ensures e != []
    ensures Strip(stderr) != [] ==> e == Strip(stderr)
    ensures stderr == [] && Strip(stdout) != [] ==> e == Strip(stdout)
    ensures (if stderr != [] then Strip(stderr) else Strip(stdout)) == [] ==> e == "Command failed with code " + IntToString(returncode)
  {
    var text := if stderr != [] then Strip(stderr) else Strip(stdout);
    if text == [] then "Command failed with code " + IntToString(returncode) else text
  }

  /**
   * `set_windows_proxy`, with the command runs as inputs: `setRun` for
   * `netsh winhttp set proxy`, `verifyRun` for the read-back. The read-back
   * is `VerifyProxySetting`, the corrected reading of the command output.
   */
  function SetWindowsProxy(proxy: string, setRun: CommandRun, verifyRun: CommandRun): (r: (bool, string))
    ensures r.0 <==> ValidateProxy(proxy).Accepted? && setRun.Completed? && setRun.returncode == 0
    ensures r.0 ==> (r.1 == "✅ Proxy set: " + proxy <==> VerifyProxySetting(proxy, verifyRun).0)
    ensures ValidateProxy(proxy).BadFormat? ==> r == (false, "Invalid proxy format")
    ensures ValidateProxy(proxy).BadPort? ==> r == (false, "Invalid port number")
    ensures ValidateProxy(proxy).TooManyFields? ==> r == (false, "❌ Error: " + UnpackError)
    ensures ValidateProxy(proxy).Accepted? && setRun.TimedOut? ==> r == (false, "❌ Timeout setting proxy")
    ensures ValidateProxy(proxy).Accepted? && setRun.Raised? ==> r == (false, "❌ Error: " + setRun.error)
    ensures (ValidateProxy(proxy).Accepted? && setRun.Completed? && setRun.returncode != 0) ==>
              r == (false, "❌ Failed: " + FailureText(setRun.returncode, setRun.stdout, setRun.stderr))
    ensures r.0 && !VerifyProxySetting(proxy, verifyRun).0 ==> r.1 == "⚠️ Proxy set (verification pending): " + proxy
  {
    match ValidateProxy(proxy)
    case BadFormat => (false, "Invalid proxy format")
    case TooManyFields => (false, "❌ Error: " + UnpackError)
    case BadPort => (false, "Invalid port number")
    case Accepted(_, _) =>
      match setRun
      case TimedOut => (false, "❌ Timeout setting proxy")
      case Raised(e) => (false, "❌ Error: " + e)
      case Completed(code, out, err) =>
        if code != 0 then (false, "❌ Failed: " + FailureText(code, out, err))
        else if VerifyProxySetting(proxy, verifyRun).0 then (true, "✅ Proxy set: " + proxy)
        else (true, "⚠️ Proxy set (verification pending): " + proxy)
  }

  /** A proxy refused by validation runs no command: the outcome is the same whatever the runs would have been. */
  lemma RefusedRunsNothing(proxy: string, a: CommandRun, b: CommandRun, c: CommandRun, d: CommandRun)
    requires !ValidateProxy(proxy).Accepted?
    ensures SetWindowsProxy(proxy, a, b) == SetWindowsProxy(proxy, c, d)
    ensures !SetWindowsProxy(proxy, a, b).0
  {
  }

  /** The read-back reports no proxy: its lower-cased output mentions direct access, or `none` anywhere. */
  predicate ReportsNoProxy(out: string) {
    Contains(AsciiLower(out), "direct access") || Contains(AsciiLower(out), "none")
  }

  /**
   * The line test of the two readers: `verify_proxy_setting` looks for
   * `proxy server` in the lower-cased line, `_check_current_proxy` for
   * `Proxy Server` as it stands.
   */
  predicate Mentions(line: string, caseless: bool) {
    if caseless then Contains(AsciiLower(line), "proxy server") else Contains(line, "Proxy Server")
  }

  /** The first line that mentions the proxy server, or `|lines|` when none does. */
  function FirstMention(lines: seq<string>, caseless: bool): (k: nat)
    ensures k <= |lines|
    ensures k < |lines| ==> Mentions(lines[k], caseless)
    ensures forall j :: 0 <= j < k ==> !Mentions(lines[j], caseless)
    decreases |lines|
  {
    if lines == [] then 0
    else if Mentions(lines[0], caseless) then 0
    else
      var k := 1 + FirstMention(lines[1..], caseless);
      assert forall j :: 1 <= j < k ==> lines[j] == lines[1..][j - 1];
      k
  }

  /** `line.split(':')[1].strip()`: only the text between the first and the second `:`. */
  function FieldAsWritten(line: string): (v: string)
    requires ':' in line
    ensures ':' !in v
  {
    SecondField(line, ':');
    Strip(Split(line, ':')[1])
  }

  /** Everything after the first `:`, stripped, as `line.split(':', 1)[1].strip()` gives it. */
  function FieldAfterColon(line: string): (v: string)
    requires ':' in line
    ensures NoOuterSpace(v)
  {
    Strip(AfterFirst(line, ':'))
  }

  /** On a line with a single `:` the two readings agree; they differ only when a second `:` follows. */
  lemma FieldsAgreeOnOneColon(line: string)
    requires Count(line, ':') == 1
    ensures FieldAsWritten(line) == FieldAfterColon(line)
  {
    var i := IndexOf(line, ':');
    var rest := AfterFirst(line, ':');
    CountConcat(line[..i] + [':'], rest, ':');
    CountConcat(line[..i], [':'], ':');
    SecondField(line, ':');
  }

  /**
   * `verify_proxy_setting` with the command run as an input; `afterColon`
   * chooses how the proxy is read from the matched line (`false`: as
   * written, `true`: corrected).
   */
  function ReadBack(expected: string, run: CommandRun, afterColon: bool): (r: (bool, string))
    ensures r.0 ==> run.Completed? && run.returncode == 0 && !ReportsNoProxy(run.stdout)
    ensures (run.Completed? && run.returncode == 0 && ReportsNoProxy(run.stdout))
              ==> r == (false, "No proxy set (direct access)")
    ensures run.Raised? ==> r == (false, "Verification error: " + run.error)
    ensures run.TimedOut? ==> r == (false, "Verification error: " + ReadBackTimeout)
    ensures run.Completed? && run.returncode != 0 ==> r == (false, "Verification command failed: " + run.stderr)
  {
    match run
    case TimedOut => (false, "Verification error: " + ReadBackTimeout)
    case Raised(e) => (false, "Verification error: " + e)
    case Completed(code, out, err) =>
      if code != 0 then (false, "Verification command failed: " + err)
      else if ReportsNoProxy(out) then (false, "No proxy set (direct access)")
      else
        var lines := Split(out, '\n');
        var k := FirstMention(lines, true);
        if k == |lines| then (false, "Proxy server not found in output")
        else
          var line := lines[k];
          var setProxy := if ':' !in line then Strip(line)
                          else if afterColon then FieldAfterColon(line) else FieldAsWritten(line);
          if Contains(setProxy, expected) then (true, "Verified: " + setProxy)
          else (false, "Proxy mismatch. Expected: " + expected + ", Got: " + setProxy)
  }

  /** `verify_proxy_setting` as written, reading the proxy with `line.split(':')[1]`. */
  function VerifyProxySettingAsWritten(expected: string, run: CommandRun): (r: (bool, string))
    ensures r.0 ==> run.Completed? && run.returncode == 0 && !ReportsNoProxy(run.stdout)
  {
    ReadBack(expected, run, false)
  }

  /** `verify_proxy_setting` reading the whole text after the first `:`. */
  function VerifyProxySetting(expected: string, run: CommandRun): (r: (bool, string))
    ensures r.0 ==> run.Completed? && run.returncode == 0 && !ReportsNoProxy(run.stdout)
  {
    ReadBack(expected, run, true)
  }

  /**
   * As written, the read-back never confirms a proxy that holds a `:`, and
   * every proxy `set_windows_proxy` gets this far with is `host:port`: the
   * value it compares against stops at the port's colon.
   */
  lemma {:induction false} AsWrittenNeverConfirmsHostPort(expected: string, run: CommandRun)
    requires ':' in expected
    ensures !VerifyProxySettingAsWritten(expected, run).0
  {
    if VerifyProxySettingAsWritten(expected, run).0 {
      var lines := Split(run.stdout, '\n');
      var line := lines[FirstMention(lines, true)];
      var setProxy := if ':' !in line then Strip(line) else FieldAsWritten(line);
      ContainsChars(setProxy, expected, ':');
    }
  }

  /** Any output mentioning `none`, such as an empty bypass list shown as `(none)`, reads as no proxy. */
  lemma NoneReadsAsNoProxy(expected: string, out: string, err: string)
    requires Contains(AsciiLower(out), "none")
    ensures VerifyProxySetting(expected, Completed(0, out, err)) == (false, "No proxy set (direct access)")
    ensures VerifyProxySettingAsWritten(expected, Completed(0, out, err)) == (false, "No proxy set (direct access)")
  {
  }

  /**
   * Output of `netsh winhttp show proxy` as lines joined by line breaks,
   * one of them the report `head:value` naming the proxy.
   */
  function Report(pre: seq<string>, head: string, value: string, post: seq<string>): string {
    Join(pre + [head + ":" + value] + post, '\n')
  }

  /**
   * The shape of such output for one reader: no line holds a line break,
   * the head has no `:` and mentions the proxy server, and no line before
   * it does.
   */
  predicate ReportShape(pre: seq<string>, head: string, value: string, post: seq<string>, caseless: bool) {
    && ':' !in head && '\n' !in head && '\n' !in value
    && Mentions(head, caseless)
    && (forall i :: 0 <= i < |pre| ==> '\n' !in pre[i] && !Mentions(pre[i], caseless))
    && (forall i :: 0 <= i < |post| ==> '\n' !in post[i])
  }

  /** In the report line the first `:` is the one after the head. */
  lemma ReportFields(head: string, value: string)
    requires ':' !in head
    ensures ':' in head + ":" + value
    ensures AfterFirst(head + ":" + value, ':') == value
  {
    var out := head + ":" + value;
    assert out == head + [':'] + value;
    AfterPrefix(head, value, ':');
  }

  /** The report line mentions the proxy server when its head does, in either reader's sense. */
  lemma ReportMentions(head: string, value: string, caseless: bool)
    requires Mentions(head, caseless)
    ensures Mentions(head + ":" + value, caseless)
  {
    if caseless {
      AsciiLowerConcat(head, ":" + value);
      assert head + ":" + value == head + (":" + value);
      ContainsExtend(AsciiLower(head), AsciiLower(":" + value), "proxy server");
    } else {
      assert head + ":" + value == head + (":" + value);
      ContainsExtend(head, ":" + value, "Proxy Server");
    }
  }

  /** Split into lines, the output gives back its lines, and the first that mentions the proxy server is the report. */
  lemma ReportLines(pre: seq<string>, head: string, value: string, post: seq<string>, caseless: bool)
    requires ReportShape(pre, head, value, post, caseless)
    ensures Split(Report(pre, head, value, post), '\n') == pre + [head + ":" + value] + post
    ensures FirstMention(pre + [head + ":" + value] + post, caseless) == |pre|
  {
    var line := head + ":" + value;
    var lines := pre + [line] + post;
    assert '\n' !in line by {
      assert line == head + [':'] + value;
    }
    assert forall i :: 0 <= i < |lines| ==> '\n' !in lines[i] by {
      forall i | 0 <= i < |lines|
        ensures '\n' !in lines[i]
      {
        if i < |pre| {
          assert lines[i] == pre[i];
        } else if i > |pre| {
          assert lines[i] == post[i - |pre| - 1];
        }
      }
    }
    SplitJoin(lines, '\n');
    ReportMentions(head, value, caseless);
    assert lines[|pre|] == line;
    assert forall j :: 0 <= j < |pre| ==> lines[j] == pre[j];
  }

  /**
   * Corrected, the read-back confirms the proxy it finds: output whose
   * first proxy-server line reports `expected` verifies it, colon and all.
   */
  lemma ConfirmsReportedProxy(expected: string, pre: seq<string>, head: string, value: string, post: seq<string>, err: string)
    requires ReportShape(pre, head, value, post, true)
    requires Strip(value) == expected
    requires !ReportsNoProxy(Report(pre, head, value, post))
    ensures VerifyProxySetting(expected, Completed(0, Report(pre, head, value, post), err)) == (true, "Verified: " + expected)
  {
    ReportLines(pre, head, value, post, true);
    ReportFields(head, value);
    var lines := pre + [head + ":" + value] + post;
    assert lines[|pre|] == head + ":" + value;
    assert FieldAfterColon(lines[|pre|]) == expected;
    assert StartsWith(expected, expected) by {
      assert expected[..|expected|] == expected;
    }
  }

  /**
   * Corrected, the read-back of such output compares against the reported
   * value: it confirms exactly when that value contains `expected`, and
   * otherwise reports the mismatch with both proxies.
   */
  lemma MatchesReportedProxy(expected: string, pre: seq<string>, head: string, value: string, post: seq<string>, err: string)
    requires ReportShape(pre, head, value, post, true)
    requires !ReportsNoProxy(Report(pre, head, value, post))
    ensures VerifyProxySetting(expected, Completed(0, Report(pre, head, value, post), err)).0 <==> Contains(Strip(value), expected)
    ensures !Contains(Strip(value), expected) ==>
              VerifyProxySetting(expected, Completed(0, Report(pre, head, value, post), err))
              == (false, "Proxy mismatch. Expected: " + expected + ", Got: " + Strip(value))
  {
    ReportLines(pre, head, value, post, true);
    ReportFields(head, value);
    var lines := pre + [head + ":" + value] + post;
    assert lines[|pre|] == head + ":" + value;
    assert FieldAfterColon(lines[|pre|]) == Strip(value);
  }

  /**
   * The same output, read as written, is a mismatch whenever the proxy holds
   * a `:`, while the corrected reading verifies it.
   */
  lemma ReadingsDisagreeOnHostPort(expected: string, pre: seq<string>, head: string, value: string, post: seq<string>, err: string)
    requires ReportShape(pre, head, value, post, true)
    requires Strip(value) == expected && ':' in expected
    requires !ReportsNoProxy(Report(pre, head, value, post))
    ensures !VerifyProxySettingAsWritten(expected, Completed(0, Report(pre, head, value, post), err)).0
    ensures VerifyProxySetting(expected, Completed(0, Report(pre, head, value, post), err)).0
  {
    AsWrittenNeverConfirmsHostPort(expected, Completed(0, Report(pre, head, value, post), err));
    ConfirmsReportedProxy(expected, pre, head, value, post, err);
  }

  /**
   * A validated proxy whose setting succeeds and whose read-back reports it
   * is announced as set and verified.
   */
  lemma SetAndVerified(proxy: string, out: string, err: string, pre: seq<string>, head: string, value: string, post: seq<string>, err2: string)
    requires ValidateProxy(proxy).Accepted?
    requires ReportShape(pre, head, value, post, true) && Strip(value) == proxy
    requires !ReportsNoProxy(Report(pre, head, value, post))
    ensures SetWindowsProxy(proxy, Completed(0, out, err), Completed(0, Report(pre, head, value, post), err2))
            == (true, "✅ Proxy set: " + proxy)
  {
    ConfirmsReportedProxy(proxy, pre, head, value, post, err2);
  }

  /**
   * `_check_current_proxy` with the command run as an input; `afterColon`
   * as in `ReadBack`. A matched line without `:` makes `split(':')[1]` raise,
   * which the bare `except` turns into "Unknown".
   */
  function CurrentProxy(run: CommandRun, afterColon: bool): (status: string)
    ensures !run.Completed? ==> status == "Unknown"
    ensures run.Completed? && Contains(run.stdout, "Direct access") ==> status == "No Proxy"
  {
    match run
    case Completed(_, out, _) =>
      if Contains(out, "Direct access") then "No Proxy"
      else if Contains(out, "Proxy Server") then
        var lines := Split(out, '\n');
        var k := FirstMention(lines, false);
        if k == |lines| || ':' !in lines[k] then "Unknown"
        else if afterColon then FieldAfterColon(lines[k])
        else FieldAsWritten(lines[k])
      else "Unknown"
    case _ => "Unknown"
  }

  /** `_check_current_proxy` as written: whatever the output, the status it gives holds no `:`, so never a port. */
  function CheckCurrentProxyAsWritten(run: CommandRun): (status: string)
    ensures ':' !in status
  {
    var s := CurrentProxy(run, false);
    assert ':' !in "Unknown" && ':' !in "No Proxy";
    s
  }

  /** `_check_current_proxy` reading the whole text after the first `:`. */
  function CheckCurrentProxy(run: CommandRun): (status: string)
    ensures !run.Completed? ==> status == "Unknown"
    ensures run.Completed? && Contains(run.stdout, "Direct access") ==> status == "No Proxy"
  {
    CurrentProxy(run, true)
  }

  /** Corrected, the status is the whole proxy the first proxy-server line reports, port included. */
  lemma ShowsReportedProxy(pre: seq<string>, head: string, value: string, post: seq<string>, code: int, err: string)
    requires ReportShape(pre, head, value, post, false)
    requires !Contains(Report(pre, head, value, post), "Direct access")
    ensures CheckCurrentProxy(Completed(code, Report(pre, head, value, post), err)) == Strip(value)
  {
    ReportLines(pre, head, value, post, false);
    ReportFields(head, value);
    ReportMentions(head, value, false);
    var lines := pre + [head + ":" + value] + post;
    assert lines[|pre|] == head + ":" + value;
    JoinContains(lines, '\n', |pre|, "Proxy Server");
    assert FieldAfterColon(lines[|pre|]) == Strip(value);
  }

  /** As written, the same output shows a different status whenever the reported proxy holds a `:`. */
  lemma StatusDropsPort(pre: seq<string>, head: string, value: string, post: seq<string>, code: int, err: string)
    requires ReportShape(pre, head, value, post, false)
    requires !Contains(Report(pre, head, value, post), "Direct access")
    requires ':' in Strip(value)
    ensures CheckCurrentProxyAsWritten(Completed(code, Report(pre, head, value, post), err))
            != CheckCurrentProxy(Completed(code, Report(pre, head, value, post), err))
  {
    ShowsReportedProxy(pre, head, value, post, code, err);
  }
}
