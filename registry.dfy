/**
 * The candidate registry, `ProxyBackend.proxy_list`: an ordered list without
 * duplicates that only ever grows by appending candidates it does not hold yet
 * (or is replaced wholesale by a fresh file load, or cleared).
 *
 * Files are modelled as the sequence of their lines, as `readlines()` and
 * `for line in f` see them; what the loaders extract from them is specified
 * here, and the loops that do the extracting live in `Backend.ProxyBackend`.
 */
module Registry {
  import opened Text
  import opened Normalizer

  /** The outcome of opening and reading a text file. */
  datatype FileRead = Missing | Unreadable(error: string) | Lines(lines: seq<string>)

  predicate NoDup(s: seq<string>) {
    forall i, j :: 0 <= i < j < |s| ==> s[i] != s[j]
  }

  /** What `proxy_list` always holds: distinct, non-empty normalised candidates. */
  predicate WellFormed(list: seq<string>) {
    && NoDup(list)
    && forall i :: 0 <= i < |list| ==> list[i] != "" && ':' in list[i]
  }

  /** Every entry is a normaliser output: empty or holding a `:`. */
  predicate Normalised(xs: seq<string>) {
    forall i :: 0 <= i < |xs| ==> xs[i] == "" || ':' in xs[i]
  }

  /**
   * `load_proxies_from_file`, one line: stripped, skipped when blank or a
   * comment, normalised otherwise ("" means "nothing to add").
   */
  function FileCandidate(line: string): (p: string)
    ensures p == "" || ':' in p
    ensures StartsWith(Strip(line), "#") ==> p == ""
  {
    var t := Strip(line);
    if t == [] || StartsWith(t, "#") then "" else ParseProxyLine(t)
  }

  function FileCandidates(lines: seq<string>): seq<string> {
    seq(|lines|, i requires 0 <= i < |lines| => FileCandidate(lines[i]))
  }

  /**
   * The comprehension of `_load_working_proxies` and `get_smart_best_proxy`:
   * the stripped lines that are not blank and whose RAW text does not start
   * with `#` (an indented `#` line is kept).
   */
  function CacheEntries(lines: seq<string>): (es: seq<string>)
    ensures |es| <= |lines|
    ensures forall e :: e in es ==> e != [] && NoOuterSpace(e)
    decreases |lines|
  {
    if lines == [] then []
    else
      var rest := CacheEntries(lines[1..]);
      var t := Strip(lines[0]);
      if t != [] && !StartsWith(lines[0], "#") then [t] + rest else rest
  }

  /** One line in front: it contributes its stripped text exactly when it passes the filter. */
  lemma CacheEntriesCons(line: string, rest: seq<string>)
    ensures CacheEntries([line] + rest)
            == (if Strip(line) != [] && !StartsWith(line, "#") then [Strip(line)] else []) + CacheEntries(rest)
  {
    assert ([line] + rest)[1..] == rest;
  }

  /** A proxy written with its line break, in front of other lines, is read back as itself. */
  lemma CacheEntriesWritten(p: string, tail: seq<string>)
    requires p != [] && NoOuterSpace(p) && p[0] != '#'
    ensures CacheEntries([p + "\n"] + tail) == [p] + CacheEntries(tail)
  {
    StripLineEnd(p);
    StartsWithChar(p + "\n", '#');
    CacheEntriesCons(p + "\n", tail);
  }

  lemma {:induction false} CacheEntriesConcat(a: seq<string>, b: seq<string>)
    ensures CacheEntries(a + b) == CacheEntries(a) + CacheEntries(b)
    decreases |a|
  {
    if a != [] {
      var x, rest := a[0], a[1..];
      assert [x] + rest == a;
      assert [x] + (rest + b) == a + b;
      CacheEntriesConcat(rest, b);
      CacheEntriesCons(x, rest + b);
      CacheEntriesCons(x, rest);
    } else {
      assert a + b == b;
    }
  }

  /** `_load_working_proxies`: each cache entry normalised before it is merged. */
  function CacheCandidates(lines: seq<string>): seq<string> {
    var es := CacheEntries(lines);
    seq(|es|, i requires 0 <= i < |es| => ParseProxyLine(es[i]))
  }

  /** `import_from_clipboard`, one line: stripped and normalised; there is no comment filter. */
  function ClipboardCandidate(line: string): (p: string)
    ensures p == "" || ':' in p
  {
    ParseProxyLine(Strip(line))
  }

  /** `import_from_clipboard`: every line of the text, split at `\n`. */
  function ClipboardCandidates(text: string): seq<string> {
    LineCandidates(Split(text, '\n'))
  }

  function LineCandidates(ls: seq<string>): seq<string> {
    seq(|ls|, i requires 0 <= i < |ls| => ClipboardCandidate(ls[i]))
  }

  /**
   * The merge shared by every loader: walk `xs` in order and append each
   * non-empty entry not yet in the list. The old list stays a prefix, nothing
   * but entries of `xs` is added, and no duplicate is ever introduced.
   */
  function AppendNew(acc: seq<string>, xs: seq<string>): (r: seq<string>)
    ensures |acc| <= |r| && r[..|acc|] == acc
    decreases |xs|
  {
    if xs == [] then acc
    else Merged(AppendNew(acc, xs[..|xs| - 1]), xs[|xs| - 1])
  }

  /** One merge step, `if proxy and proxy not in proxy_list: append`. */
  function Merged(list: seq<string>, x: string): (r: seq<string>)
    ensures x in r <==> x != "" || x in list
    ensures |list| <= |r| <= |list| + 1 && r[..|list|] == list
  {
    if x != "" && x !in list then list + [x] else list
  }

  /** The merged list holds the old entries and every non-empty merged value, and nothing else. */
  lemma {:induction false} AppendNewMembers(acc: seq<string>, xs: seq<string>)
    ensures forall x :: x in AppendNew(acc, xs) <==> x in acc || (x != "" && x in xs)
    decreases |xs|
  {
    if xs != [] {
      var init := xs[..|xs| - 1];
      AppendNewMembers(acc, init);
      assert xs == init + [xs[|xs| - 1]];
    }
  }

  /** A merge never introduces a duplicate. */
  lemma {:induction false} AppendNewNoDup(acc: seq<string>, xs: seq<string>)
    requires NoDup(acc)
    ensures NoDup(AppendNew(acc, xs))
    decreases |xs|
  {
    if xs != [] {
      AppendNewNoDup(acc, xs[..|xs| - 1]);
    }
  }

  /** Merging one more value: appended when non-empty and not yet present. */
  lemma AppendNewStep(acc: seq<string>, xs: seq<string>, i: nat)
    requires i < |xs|
    ensures AppendNew(acc, xs[..i + 1]) == Merged(AppendNew(acc, xs[..i]), xs[i])
  {
    assert xs[..i + 1][..i] == xs[..i];
  }

  /**
   * The reference definition of what a merge adds: the positions of `xs`
   * holding a non-empty value that is neither in `acc` nor earlier in `xs`,
   * in the order of `xs`.
   */
  function FirstSeen(acc: seq<string>, xs: seq<string>): seq<string>
    decreases |xs|
  {
    if xs == [] then []
    else
      var init := xs[..|xs| - 1];
      var x := xs[|xs| - 1];
      FirstSeen(acc, init) + (if x != "" && x !in acc && x !in init then [x] else [])
  }

  /** The merge appends exactly the first-seen new values, in first-seen order. */
  lemma {:induction false} AppendNewIsFirstSeen(acc: seq<string>, xs: seq<string>)
    ensures AppendNew(acc, xs) == acc + FirstSeen(acc, xs)
    decreases |xs|
  {
    if xs != [] {
      var init := xs[..|xs| - 1];
      AppendNewIsFirstSeen(acc, init);
      AppendNewMembers(acc, init);
    }
  }

  /** Merging preserves the registry invariant when the merged values are normaliser outputs. */
  lemma AppendNewWellFormed(acc: seq<string>, xs: seq<string>)
    requires WellFormed(acc) && Normalised(xs)
    ensures WellFormed(AppendNew(acc, xs))
  {
    var r := AppendNew(acc, xs);
    AppendNewNoDup(acc, xs);
    AppendNewMembers(acc, xs);
    forall i | 0 <= i < |r|
      ensures r[i] != "" && ':' in r[i]
    {
      assert r[i] in r;
      if r[i] !in acc {
        var k :| 0 <= k < |xs| && xs[k] == r[i];
      }
    }
  }

  /** Merging a single value: appended exactly when it is non-empty and new. */
  lemma AppendOne(acc: seq<string>, x: string)
    ensures AppendNew(acc, [x]) == Merged(acc, x)
  {
    assert [x][..0] == [];
  }

  /** Appending a new, non-empty candidate holding a `:` keeps the registry invariant. */
  lemma WellFormedAppend(list: seq<string>, x: string)
    requires WellFormed(list) && x != "" && ':' in x && x !in list
    ensures WellFormed(list + [x])
  {
    var r := list + [x];
    forall i, j | 0 <= i < j < |r|
      ensures r[i] != r[j]
    {
      if j == |list| {
        assert r[i] == list[i];
      }
    }
  }

  lemma FileCandidatesNormalised(lines: seq<string>)
    ensures Normalised(FileCandidates(lines))
  {
  }

  lemma CacheCandidatesNormalised(lines: seq<string>)
    ensures Normalised(CacheCandidates(lines))
  {
  }

  lemma ClipboardCandidatesNormalised(text: string)
    ensures Normalised(ClipboardCandidates(text))
  {
  }

  /** A candidate line that is already canonical loads as itself. */
  lemma FileCandidateOfPlain(line: string)
    requires NoOuterSpace(line) && line != [] && !StartsWith(line, "#")
    requires ParseProxyLine(line) == line
    ensures FileCandidate(line) == line
  {
  }

  /** A repeated value is merged once. */
  lemma MergeRepeated(a: string, b: string)
    requires a != "" && b != "" && a != b
    ensures AppendNew([], [a, a, b]) == [a, b]
  {
    assert [a, a, b][..2] == [a, a] && [a, a][..1] == [a] && [a][..0] == [];
    assert AppendNew([], [a]) == [a];
  }

  /** Lines that are all canonical load as themselves, position by position. */
  lemma FileCandidatesOfCanonical(lines: seq<string>)
    requires forall i :: 0 <= i < |lines| ==> FileCandidate(lines[i]) == lines[i]
    ensures FileCandidates(lines) == lines
  {
  }

  lemma LoadExample()
    ensures AppendNew([], FileCandidates(["1.1.1.1:80", "1.1.1.1:80", "2.2.2.2:80"])) == ["1.1.1.1:80", "2.2.2.2:80"]
  {
    var ls := ["1.1.1.1:80", "1.1.1.1:80", "2.2.2.2:80"];
    forall i | 0 <= i < |ls|
      ensures FileCandidate(ls[i]) == ls[i]
    {
      if i < 2 {
        assert ls[i] == "1.1.1.1:80";
        FirstLoads();
      } else {
        assert ls[i] == "2.2.2.2:80";
        SecondLoads();
      }
    }
    FileCandidatesOfCanonical(ls);
    assert "1.1.1.1:80"[0] != "2.2.2.2:80"[0];
    MergeRepeated("1.1.1.1:80", "2.2.2.2:80");
  }

  lemma FirstLoads()
    ensures FileCandidate("1.1.1.1:80") == "1.1.1.1:80"
  {
    assert "1.1.1.1:80" == "1.1.1.1" + ":" + "80";
    PlainLineLoads("1.1.1.1:80", "1.1.1.1", "80");
  }

  lemma SecondLoads()
    ensures FileCandidate("2.2.2.2:80") == "2.2.2.2:80"
  {
    assert "2.2.2.2:80" == "2.2.2.2" + ":" + "80";
    PlainLineLoads("2.2.2.2:80", "2.2.2.2", "80");
  }

  lemma PlainLineLoads(line: string, host: string, port: string)
    requires line == host + ":" + port && ':' !in host && ':' !in port && '@' !in line
    requires NoOuterSpace(line) && IsDigits(port) && line[0] != '#'
    ensures FileCandidate(line) == line
  {
    ParsePlainShape(line, host, port);
    FileCandidateOfPlain(line);
  }
}
