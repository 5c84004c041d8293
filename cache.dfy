/**
 * The cache file of working proxies, as `save_proxy` (the worker of
 * `_save_working_proxy_immediately`) updates it: append the proxy and a
 * line break unless it is already one of the file's entries.
 *
 * A file is the list of lines `readlines()` gives, each keeping its line
 * break; only the last line may lack one.
 */
module Cache {
  import opened Text
  import opened Registry

  /** A line `save_proxy` counts as an entry: not blank, and not starting with `#` once stripped. */
  predicate IsStoredLine(line: string) {
    Strip(line) != [] && !StartsWith(Strip(line), "#")
  }

  /** The `existing_proxies` set `save_proxy` builds from the file's lines. */
  function StoredEntries(lines: seq<string>): (es: set<string>)
    ensures forall e :: e in es ==> e != [] && NoOuterSpace(e) && !StartsWith(e, "#")
    decreases |lines|
  {
    if lines == [] then {}
    else (if IsStoredLine(lines[0]) then {Strip(lines[0])} else {}) + StoredEntries(lines[1..])
  }

  /** Every entry line is in the set, whatever its position. */
  lemma {:induction false} StoredEntriesHas(lines: seq<string>, k: nat)
    requires k < |lines| && IsStoredLine(lines[k])
    ensures Strip(lines[k]) in StoredEntries(lines)
    decreases k
  {
    if k > 0 {
      assert lines[1..][k - 1] == lines[k];
      StoredEntriesHas(lines[1..], k - 1);
    }
  }

  /** The text of a file given by its lines. */
  function Content(lines: seq<string>): string {
    if lines == [] then "" else Content(lines[..|lines| - 1]) + lines[|lines| - 1]
  }

  /** The file is empty or its last line ends with a line break, so appended text starts a line of its own. */
  predicate Terminated(lines: seq<string>) {
    lines == [] || (lines[|lines| - 1] != [] && lines[|lines| - 1][|lines[|lines| - 1]| - 1] == '\n')
  }

  /**
   * The lines of the file after appending `text` (open mode `'a'`): a new
   * last line after a terminated file, otherwise the end of the unterminated
   * last line.
   */
  function AppendText(lines: seq<string>, text: string): (r: seq<string>)
    ensures Content(r) == Content(lines) + text
    ensures Terminated(lines) ==> |r| == |lines| + 1 && r[..|lines|] == lines
    ensures !Terminated(lines) ==> |r| == |lines| && r[..|lines| - 1] == lines[..|lines| - 1]
  {
    if Terminated(lines) then
      var r := lines + [text];
      assert r[..|r| - 1] == lines;
      r
    else
      var init := lines[..|lines| - 1];
      var r := init + [lines[|lines| - 1] + text];
      assert r[..|r| - 1] == init;
      r
  }

  /** The entries from position `i` on: that line's, if it is one, and those after it. */
  lemma StoredEntriesStep(lines: seq<string>, i: nat)
    requires i < |lines|
    ensures StoredEntries(lines[i..]) == (if IsStoredLine(lines[i]) then {Strip(lines[i])} else {}) + StoredEntries(lines[i + 1..])
  {
    assert lines[i..][1..] == lines[i + 1..];
  }

  /**
   * The cache file after `save_proxy(proxy)`: a missing file is created
   * holding the proxy and a line break, an unreadable one is left alone (the
   * error is only logged), and a readable one gets the proxy and a line
   * break appended unless it is already stored.
   */
  function SavedFile(file: FileRead, proxy: string): FileRead {
    match file
    case Missing => Lines([proxy + "\n"])
    case Unreadable(_) => file
    case Lines(ls) => if proxy in StoredEntries(ls) then file else Lines(AppendText(ls, proxy + "\n"))
  }

  /** `save_proxy`: build the set of stored entries line by line, then append if absent. */
  method SaveProxy(file: FileRead, proxy: string) returns (saved: FileRead)
    ensures saved == SavedFile(file, proxy)
    ensures file.Lines? ==> saved.Lines? && (saved == file || Content(saved.lines) == Content(file.lines) + proxy + "\n")
  {
    if file.Unreadable? {
      return file;
    }
    var lines := if file.Lines? then file.lines else [];
    var existing: set<string> := {};
    var i := 0;
    while i < |lines|
      invariant 0 <= i <= |lines|
      invariant StoredEntries(lines) == existing + StoredEntries(lines[i..])
    {
      StoredEntriesStep(lines, i);
      var line := Strip(lines[i]);
      if line != [] && !StartsWith(line, "#") {
        existing := existing + {line};
      }
      i := i + 1;
    }
    if proxy !in existing {
      saved := Lines(AppendText(lines, proxy + "\n"));
    } else {
      saved := file;
    }
  }

  /** A proxy fit to be an entry: no surrounding whitespace, not empty, not a comment. */
  predicate Storable(proxy: string) {
    proxy != [] && NoOuterSpace(proxy) && !StartsWith(proxy, "#")
  }

  /** The line `save_proxy` writes for a storable proxy reads back as that proxy. */
  lemma WrittenLine(proxy: string)
    requires Storable(proxy)
    ensures Strip(proxy + "\n") == proxy && IsStoredLine(proxy + "\n")
  {
    StripLineEnd(proxy);
  }

  /** A save keeps a terminated file terminated, so later saves start lines of their own too. */
  lemma SaveKeepsTerminated(file: FileRead, proxy: string)
    requires file.Lines? ==> Terminated(file.lines)
    ensures SavedFile(file, proxy).Lines? ==> Terminated(SavedFile(file, proxy).lines)
  {
  }

  /** Saving the same proxy twice into a terminated (or missing) file changes it once. */
  lemma SaveIdempotent(file: FileRead, proxy: string)
    requires Storable(proxy)
    requires file.Lines? ==> Terminated(file.lines)
    ensures SavedFile(SavedFile(file, proxy), proxy) == SavedFile(file, proxy)
  {
    WrittenLine(proxy);
    match file
    case Missing =>
      StoredEntriesHas([proxy + "\n"], 0);
    case Unreadable(_) =>
    case Lines(ls) =>
      if proxy !in StoredEntries(ls) {
        StoredEntriesHas(ls + [proxy + "\n"], |ls|);
      }
  }

  /** The entries of a one-line file. */
  lemma StoredEntriesOne(line: string)
    ensures StoredEntries([line]) == if IsStoredLine(line) then {Strip(line)} else {}
  {
    assert [line][1..] == [];
  }

  /** Appending to a one-line file whose line lacks its line break extends that line. */
  lemma AppendToUnterminated(first: string, text: string)
    requires first != [] && first[|first| - 1] != '\n'
    ensures AppendText([first], text) == [first + text]
  {
    assert !Terminated([first]);
  }

  /** Saving into a one-line file whose line lacks its line break extends that line. */
  lemma SaveExtendsLine(first: string, proxy: string)
    requires Storable(first) && first != proxy
    ensures SavedFile(Lines([first]), proxy) == Lines([first + proxy + "\n"])
  {
    StoredEntriesOne(first);
    AppendToUnterminated(first, proxy + "\n");
    assert first + (proxy + "\n") == first + proxy + "\n";
  }

  /** The extended line reads back as the two texts run together. */
  lemma ExtendedLineEntries(first: string, proxy: string)
    requires Storable(first) && Storable(proxy)
    ensures CacheEntries([first + proxy + "\n"]) == [first + proxy]
    ensures StoredEntries([first + proxy + "\n"]) == {first + proxy}
  {
    var joined := first + proxy;
    assert NoOuterSpace(joined) by {
      assert joined[0] == first[0] && joined[|joined| - 1] == proxy[|proxy| - 1];
    }
    StartsWithChar(first, '#');
    CacheEntriesWritten(joined, []);
    assert [joined + "\n"] + [] == [joined + "\n"];
    StripLineEnd(joined);
    StoredEntriesOne(joined + "\n");
  }

  /**
   * A file whose last line lacks its line break absorbs the proxy into that
   * line: the entry read back is not the proxy, and a second save appends
   * again. `first` is `1.1.1.1:80` and `proxy` is `2.2.2.2:80`, for one.
   */
  lemma UnterminatedSaveJoinsLines(first: string, proxy: string)
    requires Storable(first) && Storable(proxy) && first != proxy
    ensures SavedFile(Lines([first]), proxy) == Lines([first + proxy + "\n"])
    ensures proxy !in CacheEntries(SavedFile(Lines([first]), proxy).lines)
    ensures SavedFile(SavedFile(Lines([first]), proxy), proxy) != SavedFile(Lines([first]), proxy)
  {
    SaveExtendsLine(first, proxy);
    ExtendedLineEntries(first, proxy);
    assert |first + proxy| > |proxy|;
  }

  /** A line stored by `save_proxy` is also an entry for the cache reader, which tests `#` on the raw line. */
  lemma {:induction false} StoredIsCacheEntry(lines: seq<string>, proxy: string)
    requires Storable(proxy) && proxy in StoredEntries(lines)
    ensures proxy in CacheEntries(lines)
    decreases |lines|
  {
    var l, rest := lines[0], lines[1..];
    assert lines == [l] + rest;
    if IsStoredLine(l) && Strip(l) == proxy {
      StripHash(l);
      CacheEntriesCons(l, rest);
    } else {
      assert proxy in StoredEntries(rest);
      StoredIsCacheEntry(rest, proxy);
      CacheEntriesCons(l, rest);
    }
  }

  /**
   * After a save into a terminated (or missing) file, the next load sees the
   * proxy: it is an entry of the cache file.
   */
  lemma SavedProxyIsLoaded(file: FileRead, proxy: string)
    requires Storable(proxy) && !file.Unreadable?
    requires file.Lines? ==> Terminated(file.lines)
    ensures SavedFile(file, proxy).Lines?
    ensures proxy in CacheEntries(SavedFile(file, proxy).lines)
  {
    var saved := SavedFile(file, proxy);
    WrittenLine(proxy);
    var ls := saved.lines;
    if file.Missing? {
      StoredEntriesHas(ls, 0);
    } else if proxy !in StoredEntries(file.lines) {
      StoredEntriesHas(ls, |ls| - 1);
    }
    StoredIsCacheEntry(ls, proxy);
  }
}
