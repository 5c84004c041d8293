/**
 * The few Python string operations the proxy backend relies on, with the
 * properties the rest of the model needs: `str.strip()`, `str.split(sep)`,
 * `str.count(ch)`, `str.startswith`, the `in` substring test, `str.isdigit()`,
 * `int()` on text, `str.lower()` and decimal formatting of a count.
 *
 * Python strings are modelled as `seq<char>` (Unicode scalar values).
 * `isdigit`, `int()` and `lower()` are modelled on ASCII only.
 */
module Text {

  /** The characters `str.isspace()` accepts, i.e. what a bare `strip()` removes. */
  predicate IsSpace(c: char) {
    || c == ' ' || c == '\t' || c == '\n' || c == '\r'
    || c == '\U{B}' || c == '\U{C}'
    || ('\U{1C}' <= c <= '\U{1F}')
    || c == '\U{85}' || c == '\U{A0}' || c == '\U{1680}'
    || ('\U{2000}' <= c <= '\U{200A}')
    || c == '\U{2028}' || c == '\U{2029}' || c == '\U{202F}' || c == '\U{205F}' || c == '\U{3000}'
  }

  /** `s` without its leading whitespace. */
  function TrimLeft(s: string): (r: string)
    ensures |r| <= |s| && r == s[|s| - |r|..]
    ensures r == [] || !IsSpace(r[0])
    ensures forall k :: 0 <= k < |s| - |r| ==> IsSpace(s[k])
    decreases |s|
  {
    if s != [] && IsSpace(s[0]) then TrimLeft(s[1..]) else s
  }

  /** `s` without its trailing whitespace. */
  function TrimRight(s: string): (r: string)
    ensures |r| <= |s| && r == s[..|r|]
    ensures r == [] || !IsSpace(r[|r| - 1])
    ensures forall k :: |r| <= k < |s| ==> IsSpace(s[k])
    decreases |s|
  {
    if s != [] && IsSpace(s[|s| - 1]) then TrimRight(s[..|s| - 1]) else s
  }

  /** Python's `s.strip()`. */
  function Strip(s: string): (r: string)
    ensures forall c :: c in r ==> c in s
    ensures NoOuterSpace(r)
    ensures NoOuterSpace(s) ==> r == s
    ensures r == [] <==> forall k :: 0 <= k < |s| ==> IsSpace(s[k])
  {
    var l := TrimLeft(s);
    var r := TrimRight(l);
    assert forall c :: c in r ==> c in l;
    assert r == [] ==> l == [];
    r
  }

  /** Neither end of `s` is whitespace: `Strip` leaves it as it is. */
  predicate NoOuterSpace(s: string) {
    s == [] || (!IsSpace(s[0]) && !IsSpace(s[|s| - 1]))
  }

  lemma StripIdempotent(s: string)
    ensures Strip(Strip(s)) == Strip(s)
  {
  }

  /** Starting with a one-character prefix is having that character first. */
  lemma StartsWithChar(s: string, c: char)
    ensures StartsWith(s, [c]) <==> s != [] && s[0] == c
  {
    if s != [] {
      assert s[..1] == [s[0]];
    }
  }

  /** `#` is not whitespace, so stripping keeps a leading `#`. */
  lemma StripHash(s: string)
    ensures StartsWith(s, "#") ==> StartsWith(Strip(s), "#")
  {
    if StartsWith(s, "#") {
      assert s[0] == '#' && !IsSpace(s[0]);
      assert TrimLeft(s) == s;
      var r := TrimRight(s);
      assert r != [] && r[0] == '#';
      assert r[..1] == "#";
    }
  }

  /** A line ending after text with no outer whitespace is all that `strip()` removes. */
  lemma StripLineEnd(p: string)
    requires p != [] && NoOuterSpace(p)
    ensures Strip(p + "\n") == p
  {
    var s := p + "\n";
    assert s[0] == p[0];
    assert TrimLeft(s) == s;
    assert s[..|s| - 1] == p;
    assert TrimRight(p) == p;
  }

  /** Python's `s.startswith(p)`. */
  predicate StartsWith(s: string, p: string) {
    |p| <= |s| && s[..|p|] == p
  }

  /** Python's `s.count(c)` for a one-character `c`. */
  function Count(s: string, c: char): (n: nat)
    ensures n == 0 <==> c !in s
    ensures n <= |s|
  {
    if s == [] then 0 else (if s[0] == c then 1 else 0) + Count(s[1..], c)
  }

  lemma CountConcat(a: string, b: string, c: char)
    ensures Count(a + b, c) == Count(a, c) + Count(b, c)
  {
    if a != [] {
      assert (a + b)[1..] == a[1..] + b;
      CountConcat(a[1..], b, c);
    } else {
      assert a + b == b;
    }
  }

  /** The inverse of `Split`: the fields glued back together with `c`. */
  function Join(parts: seq<string>, c: char): string
    requires |parts| > 0
  {
    if |parts| == 1 then parts[0] else parts[0] + [c] + Join(parts[1..], c)
  }

  /**
   * Python's `s.split(c)` for a one-character separator: never empty, one
   * field more than there are separators, and no field holds the separator.
   */
  function Split(s: string, c: char): (parts: seq<string>)
    ensures |parts| == Count(s, c) + 1
    ensures forall i :: 0 <= i < |parts| ==> c !in parts[i]
    decreases |s|
  {
    if s == [] then [""]
    else
      var rest := Split(s[1..], c);
      if s[0] == c then [""] + rest else [[s[0]] + rest[0]] + rest[1..]
  }

  /** An empty first field contributes only its separator. */
  lemma JoinEmptyFirst(parts: seq<string>, c: char)
    requires |parts| > 0
    ensures Join([""] + parts, c) == [c] + Join(parts, c)
  {
    assert ([""] + parts)[1..] == parts;
  }

  /** A character put in front of the first field comes out in front of the joined text. */
  lemma JoinExtendFirst(x: char, parts: seq<string>, c: char)
    requires |parts| > 0
    ensures Join([[x] + parts[0]] + parts[1..], c) == [x] + Join(parts, c)
  {
    var ps := [[x] + parts[0]] + parts[1..];
    if |parts| > 1 {
      assert ps[1..] == parts[1..];
    }
  }

  /** Joining the fields of a split with the separator gives the text back. */
  lemma {:induction false} JoinSplit(s: string, c: char)
    ensures Join(Split(s, c), c) == s
    decreases |s|
  {
    if s != [] {
      var rest := Split(s[1..], c);
      JoinSplit(s[1..], c);
      assert [s[0]] + s[1..] == s;
      if s[0] == c {
        SplitSep(s[1..], c);
        JoinEmptyFirst(rest, c);
      } else {
        SplitOther(s[0], s[1..], c);
        JoinExtendFirst(s[0], rest, c);
      }
    }
  }

  /** A string without the separator is a single field. */
  lemma {:induction false} SplitNone(s: string, c: char)
    requires c !in s
    ensures Split(s, c) == [s]
    decreases |s|
  {
    if s != [] {
      SplitNone(s[1..], c);
      assert [s[0]] + s[1..] == s;
    }
  }

  /** Splitting at the first separator: the text before it is the first field. */
  lemma {:induction false} SplitAt(a: string, b: string, c: char)
    requires c !in a
    ensures Split(a + [c] + b, c) == [a] + Split(b, c)
    decreases |a|
  {
    if a == [] {
      SplitSep(b, c);
      assert a + [c] + b == [c] + b;
    } else {
      var t := a[1..] + [c] + b;
      HeadTail(a, c, b);
      SplitAt(a[1..], b, c);
      SplitOther(a[0], t, c);
      assert [a[0]] + Split(t, c)[0] == a;
    }
  }

  /** `Split` undoes `Join` when no field holds the separator. */
  lemma {:induction false} SplitJoin(parts: seq<string>, c: char)
    requires |parts| > 0
    requires forall i :: 0 <= i < |parts| ==> c !in parts[i]
    ensures Split(Join(parts, c), c) == parts
    decreases |parts|
  {
    if |parts| == 1 {
      SplitNone(parts[0], c);
    } else {
      SplitJoin(parts[1..], c);
      SplitAt(parts[0], Join(parts[1..], c), c);
      assert [parts[0]] + parts[1..] == parts;
    }
  }

  /** Taking the first character off a text with a separator in it. */
  lemma HeadTail(a: string, c: char, b: string)
    requires a != []
    ensures a + [c] + b == [a[0]] + (a[1..] + [c] + b)
  {
    assert a == [a[0]] + a[1..];
  }

  /** A separator in front opens a new, empty first field. */
  lemma SplitSep(s: string, c: char)
    ensures Split([c] + s, c) == [""] + Split(s, c)
  {
    assert ([c] + s)[1..] == s;
  }

  /** Any other character in front extends the first field. */
  lemma SplitOther(x: char, s: string, c: char)
    requires x != c
    ensures Split([x] + s, c) == [[x] + Split(s, c)[0]] + Split(s, c)[1..]
  {
    assert ([x] + s)[1..] == s;
  }

  /** Two separator-free fields joined by the separator split back into those two. */
  lemma SplitPair(a: string, b: string, c: char)
    requires c !in a && c !in b
    ensures Split(a + [c] + b, c) == [a, b]
    ensures Count(a + [c] + b, c) == 1
  {
    SplitNone(b, c);
    SplitAt(a, b, c);
  }

  /** A two-field split puts exactly one separator between its fields. */
  lemma SplitTwo(s: string, c: char)
    requires |Split(s, c)| == 2
    ensures s == Split(s, c)[0] + [c] + Split(s, c)[1]
  {
    var p := Split(s, c);
    JoinSplit(s, c);
    assert Join(p, c) == p[0] + [c] + Join(p[1..], c);
    assert p[1..] == [p[1]];
  }

  /** Python's `t in s` for strings: `t` occurs in `s` as a contiguous piece. */
  predicate Contains(s: string, t: string)
    decreases |s|
  {
    StartsWith(s, t) || (s != [] && Contains(s[1..], t))
  }

  /** Whatever a string contains, it contains the characters of. */
  lemma {:induction false} ContainsChars(s: string, t: string, c: char)
    requires Contains(s, t) && c in t
    ensures c in s
    decreases |s|
  {
    if StartsWith(s, t) {
      assert t == s[..|t|];
    } else {
      ContainsChars(s[1..], t, c);
    }
  }

  lemma {:induction false} ContainsSuffix(s: string, t: string, k: nat)
    requires k <= |s| && Contains(s[k..], t)
    ensures Contains(s, t)
    decreases k
  {
    if k > 0 {
      assert s[1..][k - 1..] == s[k..];
      ContainsSuffix(s[1..], t, k - 1);
    }
  }

  /** What is contained in a string is contained in any extension of it. */
  lemma {:induction false} ContainsExtend(s: string, u: string, t: string)
    requires Contains(s, t)
    ensures Contains(s + u, t)
    decreases |s|
  {
    if !StartsWith(s, t) {
      assert (s + u)[1..] == s[1..] + u;
      ContainsExtend(s[1..], u, t);
    } else {
      assert (s + u)[..|t|] == s[..|t|];
    }
  }

  /** Text contained in one field is contained in the fields joined. */
  lemma {:induction false} JoinContains(parts: seq<string>, c: char, i: nat, t: string)
    requires i < |parts| && Contains(parts[i], t)
    ensures Contains(Join(parts, c), t)
    decreases |parts|
  {
    if |parts| > 1 {
      var rest := Join(parts[1..], c);
      if i == 0 {
        assert Join(parts, c) == parts[0] + ([c] + rest);
        ContainsExtend(parts[0], [c] + rest, t);
      } else {
        JoinContains(parts[1..], c, i - 1, t);
        assert Join(parts, c)[|parts[0]| + 1..] == rest;
        ContainsSuffix(Join(parts, c), t, |parts[0]| + 1);
      }
    }
  }

  /** Python's `s.index(c)`: the position of the first `c`. */
  function IndexOf(s: string, c: char): (i: nat)
    requires c in s
    ensures i < |s| && s[i] == c && c !in s[..i]
    decreases |s|
  {
    if s[0] == c then 0
    else
      var i := 1 + IndexOf(s[1..], c);
      assert s[..i] == [s[0]] + s[1..][..i - 1];
      i
  }

  /** The first separator after a separator-free prefix is the one right after it. */
  lemma {:induction false} IndexAfterPrefix(a: string, b: string, c: char)
    requires c !in a
    ensures IndexOf(a + [c] + b, c) == |a|
    decreases |a|
  {
    if a != [] {
      assert (a + [c] + b)[1..] == a[1..] + [c] + b;
      IndexAfterPrefix(a[1..], b, c);
    }
  }

  /** Python's `s.split(c, 1)[1]`: everything after the first `c`. */
  function AfterFirst(s: string, c: char): (r: string)
    requires c in s
    ensures s == s[..IndexOf(s, c)] + [c] + r
  {
    var i := IndexOf(s, c);
    assert s == s[..i] + [c] + s[i + 1..];
    s[i + 1..]
  }

  lemma AfterPrefix(a: string, b: string, c: char)
    requires c !in a
    ensures AfterFirst(a + [c] + b, c) == b
  {
    IndexAfterPrefix(a, b, c);
    assert (a + [c] + b)[|a| + 1..] == b;
  }

  /**
   * The second field of `s.split(c)` is the text after the first `c` up to the
   * next one, so it is all of that text only when no second `c` follows.
   */
  lemma SecondField(s: string, c: char)
    requires c in s
    ensures |Split(s, c)| >= 2
    ensures Split(s, c)[1] == Split(AfterFirst(s, c), c)[0]
    ensures Split(s, c)[1] == AfterFirst(s, c) <==> c !in AfterFirst(s, c)
  {
    var i := IndexOf(s, c);
    var rest := AfterFirst(s, c);
    SplitAt(s[..i], rest, c);
    if c !in rest {
      SplitNone(rest, c);
    }
  }

  predicate IsAsciiDigit(c: char) {
    '0' <= c <= '9'
  }

  predicate AllDigits(s: string) {
    forall i :: 0 <= i < |s| ==> IsAsciiDigit(s[i])
  }

  /** Python's `s.isdigit()`, on ASCII digits: non-empty and digits only. */
  predicate IsDigits(s: string) {
    |s| > 0 && AllDigits(s)
  }

  lemma DigitsExclude(s: string, c: char)
    requires AllDigits(s) && !IsAsciiDigit(c)
    ensures c !in s
  {
  }

  function DigitValue(c: char): (d: nat)
    requires IsAsciiDigit(c)
    ensures d < 10
  {
    (c as int) - ('0' as int)
  }

  function DigitChar(d: nat): (c: char)
    requires d < 10
    ensures IsAsciiDigit(c) && DigitValue(c) == d
  {
    (('0' as int) + d) as char
  }

  /** Python's `int(s)` on a string of ASCII digits. */
  function DecimalValue(s: string): nat
    requires AllDigits(s)
  {
    if s == [] then 0 else DecimalValue(s[..|s| - 1]) * 10 + DigitValue(s[|s| - 1])
  }

  /** Python's `f"{n}"` for a count; `DecimalValue` reads it back. */
  function NatToString(n: nat): (r: string)
    ensures IsDigits(r) && DecimalValue(r) == n
    decreases n
  {
    if n < 10 then [DigitChar(n)]
    else
      var p := NatToString(n / 10);
      var r := p + [DigitChar(n % 10)];
      assert r[..|r| - 1] == p;
      r
  }

  /** Python's `f"{n}"` for any integer. */
  function IntToString(n: int): (r: string)
    ensures n >= 0 ==> r == NatToString(n)
    ensures n < 0 ==> r == "-" + NatToString(-n)
  {
    if n < 0 then "-" + NatToString(-n) else NatToString(n)
  }

  /**
   * The texts Python's `int(s)` accepts (ASCII digits only): surrounding
   * whitespace, an optional sign, then digits with single underscores between
   * digits.
   */
  predicate IsIntLiteral(s: string) {
    var t := Strip(s);
    var body := if |t| > 0 && (t[0] == '+' || t[0] == '-') then t[1..] else t;
    && |body| > 0
    && IsAsciiDigit(body[0]) && IsAsciiDigit(body[|body| - 1])
    && (forall i :: 0 <= i < |body| ==> IsAsciiDigit(body[i]) || body[i] == '_')
    && (forall i :: 0 <= i < |body| - 1 ==> body[i] == '_' ==> body[i + 1] != '_')
  }

  function LowerChar(c: char): char {
    if 'A' <= c <= 'Z' then ((c as int) + 32) as char else c
  }

  /** Python's `s.lower()`, on ASCII letters. */
  function AsciiLower(s: string): (r: string)
    ensures |r| == |s|
  {
    seq(|s|, i requires 0 <= i < |s| => LowerChar(s[i]))
  }

  lemma AsciiLowerConcat(a: string, b: string)
    ensures AsciiLower(a + b) == AsciiLower(a) + AsciiLower(b)
  {
  }
}
