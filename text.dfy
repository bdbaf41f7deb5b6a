/**
 * The handful of Python `str` operations the gateway relies on, written out so that
 * their edge cases are explicit: `strip()`/`split()` with Python's whitespace set,
 * ASCII `upper()`/`lower()`, `int()` on decimal literals, `str(int)`, slicing with
 * negative bounds, `ljust`, `join`, and ordering of strings by code point.
 */
module Text {
  import opened Wrappers

  /** Python's `str.isspace()`: the characters `strip()` and `split()` treat as blanks. */
  predicate IsSpace(c: char) {
    || ('\t' <= c <= '\r')
    || ('\U{1C}' <= c <= '\U{1F}')
    || c == ' ' || c == '\U{85}' || c == '\U{A0}' || c == '\U{1680}'
    || ('\U{2000}' <= c <= '\U{200A}')
    || c == '\U{2028}' || c == '\U{2029}' || c == '\U{202F}' || c == '\U{205F}' || c == '\U{3000}'
  }

  /** `s.lstrip()` */
  function TrimStart(s: string): (r: string)
    ensures |r| <= |s| && r == s[|s| - |r|..]
    ensures r == [] || !IsSpace(r[0])
    ensures forall i :: 0 <= i < |s| - |r| ==> IsSpace(s[i])
  {
    if s != [] && IsSpace(s[0]) then
      var t := TrimStart(s[1..]);
      assert s[|s| - |t|..] == s[1..][|s| - 1 - |t|..];
      assert forall i :: 0 <= i < |s| - |t| ==> IsSpace(s[i]) by {
        forall i | 1 <= i < |s| - |t| ensures IsSpace(s[i]) { assert s[i] == s[1..][i - 1]; }
      }
      t
    else s
  }

  /** `s.rstrip()` */
  function TrimEnd(s: string): (r: string)
    ensures |r| <= |s| && r == s[..|r|]
    ensures r == [] || !IsSpace(r[|r| - 1])
    ensures forall i :: |r| <= i < |s| ==> IsSpace(s[i])
  {
    if s != [] && IsSpace(s[|s| - 1]) then TrimEnd(s[..|s| - 1]) else s
  }

  /** `s.strip()`: empty exactly when `s` is all blanks, otherwise it starts and ends with a non-blank. */
  function Strip(s: string): (r: string)
    ensures |r| <= |s|
    ensures r == [] <==> forall i :: 0 <= i < |s| ==> IsSpace(s[i])
    ensures r != [] ==> !IsSpace(r[0]) && !IsSpace(r[|r| - 1])
  {
    TrimEnd(TrimStart(s))
  }

  /** A string that neither starts nor ends with a blank is its own strip. */
  lemma StripNoBlankEnds(s: string)
    requires s == [] || (!IsSpace(s[0]) && !IsSpace(s[|s| - 1]))
    ensures Strip(s) == s
  {
  }

  /** Stripping twice is stripping once. */
  lemma StripIdempotent(s: string)
    ensures Strip(Strip(s)) == Strip(s)
  {
    StripNoBlankEnds(Strip(s));
  }

  /** ASCII `upper()` of one character. */
  function UpperChar(c: char): char {
    if 'a' <= c <= 'z' then (c as int - 32) as char else c
  }

  /** ASCII `lower()` of one character. */
  function LowerChar(c: char): char {
    if 'A' <= c <= 'Z' then (c as int + 32) as char else c
  }

  /** `s.upper()` on ASCII letters. */
  function Upper(s: string): (r: string)
    ensures |r| == |s| && forall i :: 0 <= i < |s| ==> r[i] == UpperChar(s[i])
  {
    seq(|s|, i requires 0 <= i < |s| => UpperChar(s[i]))
  }

  /** `s.lower()` on ASCII letters. */
  function Lower(s: string): (r: string)
    ensures |r| == |s| && forall i :: 0 <= i < |s| ==> r[i] == LowerChar(s[i])
  {
    seq(|s|, i requires 0 <= i < |s| => LowerChar(s[i]))
  }

  lemma UpperIdempotent(s: string)
    ensures Upper(Upper(s)) == Upper(s)
  {
  }

  lemma UpperKeepsBlanks(c: char)
    ensures IsSpace(UpperChar(c)) <==> IsSpace(c)
  {
  }

  lemma {:induction false} TrimStartUpper(s: string)
    ensures TrimStart(Upper(s)) == Upper(TrimStart(s))
    decreases |s|
  {
    if s != [] {
      UpperKeepsBlanks(s[0]);
      if IsSpace(s[0]) {
        assert Upper(s)[1..] == Upper(s[1..]);
        TrimStartUpper(s[1..]);
      }
    }
  }

  lemma {:induction false} TrimEndUpper(s: string)
    ensures TrimEnd(Upper(s)) == Upper(TrimEnd(s))
    decreases |s|
  {
    if s != [] {
      UpperKeepsBlanks(s[|s| - 1]);
      if IsSpace(s[|s| - 1]) {
        assert Upper(s)[..|s| - 1] == Upper(s[..|s| - 1]);
        TrimEndUpper(s[..|s| - 1]);
      }
    }
  }

  /** `s.strip().upper() == s.upper().strip()`: upper-casing never creates or removes blanks. */
  lemma UpperStripCommute(s: string)
    ensures Strip(Upper(s)) == Upper(Strip(s))
  {
    TrimStartUpper(s);
    TrimEndUpper(TrimStart(s));
  }

  /** The leading run of non-blank characters of `s`. */
  function TakeWord(s: string): (w: string)
    ensures |w| <= |s| && w == s[..|w|]
    ensures forall i :: 0 <= i < |w| ==> !IsSpace(w[i])
    ensures |w| < |s| ==> IsSpace(s[|w|])
  {
    if s == [] || IsSpace(s[0]) then [] else [s[0]] + TakeWord(s[1..])
  }

  /** A non-empty run of non-blank characters. */
  predicate IsWord(w: string) {
    |w| > 0 && forall i :: 0 <= i < |w| ==> !IsSpace(w[i])
  }

  /** `s.split()` with no separator: the maximal runs of non-blank characters, in order. */
  function Split(s: string): (r: seq<string>)
    ensures forall k :: 0 <= k < |r| ==> IsWord(r[k])
    decreases |s|
  {
    var t := TrimStart(s);
    if t == [] then []
    else
      var w := TakeWord(t);
      assert IsWord(w);
      [w] + Split(t[|w|..])
  }

  /** `s.split()` is empty exactly when `s.strip()` is empty. */
  lemma SplitEmptyIffBlank(s: string)
    ensures Split(s) == [] <==> Strip(s) == []
  {
    var t := TrimStart(s);
    if t != [] {
      assert !IsSpace(s[|s| - |t|]);
    }
  }

  lemma {:induction false} TakeWordUpper(s: string)
    ensures TakeWord(Upper(s)) == Upper(TakeWord(s))
    decreases |s|
  {
    if s != [] {
      UpperKeepsBlanks(s[0]);
      if !IsSpace(s[0]) {
        assert Upper(s)[1..] == Upper(s[1..]);
        TakeWordUpper(s[1..]);
      }
    }
  }

  /** Each string of `ss` upper-cased. */
  function UpperAll(ss: seq<string>): (r: seq<string>)
    ensures |r| == |ss| && forall k :: 0 <= k < |ss| ==> r[k] == Upper(ss[k])
  {
    seq(|ss|, k requires 0 <= k < |ss| => Upper(ss[k]))
  }

  lemma UpperAllCons(w: string, ss: seq<string>)
    ensures UpperAll([w] + ss) == [Upper(w)] + UpperAll(ss)
  {
  }

  /** One step of `split()`: the first token, then the tokens of what follows it. */
  lemma SplitStep(s: string)
    requires TrimStart(s) != []
    ensures Split(s) == [TakeWord(TrimStart(s))] + Split(TrimStart(s)[|TakeWord(TrimStart(s))|..])
  {
  }

  /** The first token of the upper-cased text is the upper-cased first token, and the rest follows. */
  lemma SplitUpperHead(s: string)
    requires TrimStart(s) != []
    ensures var t := TrimStart(s); var w := TakeWord(t);
      Split(Upper(s)) == [Upper(w)] + Split(Upper(t[|w|..]))
  {
    var t := TrimStart(s);
    var w := TakeWord(t);
    TrimStartUpper(s);
    TakeWordUpper(t);
    UpperDrop(t, |w|);
    SplitStep(Upper(s));
  }

  /** Upper-casing commutes with dropping a prefix. */
  lemma UpperDrop(t: string, k: nat)
    requires k <= |t|
    ensures Upper(t)[k..] == Upper(t[k..])
  {
  }

  /** Tokens of the upper-cased text are the upper-cased tokens. */
  lemma {:induction false} SplitUpper(s: string)
    ensures Split(Upper(s)) == UpperAll(Split(s))
    decreases |s|
  {
    var t := TrimStart(s);
    if t == [] {
      TrimStartUpper(s);
    } else {
      var w := TakeWord(t);
      var rest := t[|w|..];
      assert |w| >= 1 && |rest| < |s|;
      SplitUpperHead(s);
      SplitUpper(rest);
      SplitStep(s);
      UpperAllCons(w, Split(rest));
    }
  }

  /** `sep.join(parts)` */
  function Join(sep: string, parts: seq<string>): string {
    if parts == [] then ""
    else if |parts| == 1 then parts[0]
    else parts[0] + sep + Join(sep, parts[1..])
  }

  /** `sep.join(parts)` for the parts that are given one after another. */
  lemma JoinTwo(sep: string, a: string, b: string)
    ensures Join(sep, [a, b]) == a + sep + b
  {
    assert [a, b][1..] == [b];
  }

  /** One more part comes out at the end of the join, after one more separator. */
  lemma {:induction false} JoinSnoc(sep: string, parts: seq<string>, x: string)
    requires |parts| > 0
    ensures Join(sep, parts + [x]) == Join(sep, parts) + sep + x
    decreases |parts|
  {
    if |parts| == 1 {
      assert parts + [x] == [parts[0], x];
      JoinTwo(sep, parts[0], x);
    } else {
      assert (parts + [x])[1..] == parts[1..] + [x];
      JoinSnoc(sep, parts[1..], x);
    }
  }

  /** Each part with the separator in front of it, one after another. */
  function Prefixed(sep: string, parts: seq<string>): string {
    if parts == [] then "" else sep + parts[0] + Prefixed(sep, parts[1..])
  }

  /** A join is its first part followed by every other part with the separator in front. */
  lemma {:induction false} JoinAsPrefixed(sep: string, head: string, parts: seq<string>)
    ensures Join(sep, [head] + parts) == head + Prefixed(sep, parts)
    decreases |parts|
  {
    if parts == [] {
      assert [head] + parts == [head];
    } else {
      assert ([head] + parts)[1..] == parts;
      assert [parts[0]] + parts[1..] == parts;
      JoinAsPrefixed(sep, parts[0], parts[1..]);
    }
  }

  lemma {:induction false} PrefixedAppend(sep: string, a: seq<string>, b: seq<string>)
    ensures Prefixed(sep, a + b) == Prefixed(sep, a) + Prefixed(sep, b)
    decreases |a|
  {
    if a == [] {
      assert a + b == b;
    } else {
      assert (a + b)[1..] == a[1..] + b;
      PrefixedAppend(sep, a[1..], b);
    }
  }

  lemma ConcatAssoc(x: string, y: string, z: string)
    ensures x + (y + z) == x + y + z
  {
  }

  /**
   * `s.split(sep)` for a one-character separator: the pieces between separators,
   * empty pieces kept, so joining them back gives `s`.
   */
  function SplitOn(s: string, sep: char): (r: seq<string>)
    ensures |r| >= 1
    ensures forall i :: 0 <= i < |r| ==> sep !in r[i]
    ensures Join([sep], r) == s
  {
    if s == [] then [""]
    else
      var rest := SplitOn(s[1..], sep);
      if s[0] == sep then
        assert Join([sep], [""] + rest) == [sep] + Join([sep], rest) by {
          assert ([""] + rest)[1..] == rest;
        }
        [""] + rest
      else
        JoinGlue([sep], [s[0]], rest);
        assert s == [s[0]] + s[1..];
        [[s[0]] + rest[0]] + rest[1..]
  }

  /** Text glued to the front of the first part comes out at the front of the join. */
  lemma JoinGlue(sep: string, a: string, parts: seq<string>)
    requires |parts| >= 1
    ensures Join(sep, [a + parts[0]] + parts[1..]) == a + Join(sep, parts)
  {
    var q := [a + parts[0]] + parts[1..];
    if |parts| > 1 {
      assert q[1..] == parts[1..];
    }
  }

  /** The total length of the parts. */
  function TotalLength(items: seq<string>): nat {
    if items == [] then 0 else |items[0]| + TotalLength(items[1..])
  }

  /** `sep.join(parts)` is as long as the parts plus one separator between each two, and starts with the first part. */
  lemma {:induction false} JoinLength(sep: string, items: seq<string>)
    ensures |Join(sep, items)| == TotalLength(items) + (if |items| > 0 then (|items| - 1) * |sep| else 0)
    ensures |items| > 0 ==> items[0] <= Join(sep, items)
  {
    if |items| > 1 {
      JoinLength(sep, items[1..]);
      assert TotalLength(items[1..][1..]) + |items[1..][0]| == TotalLength(items[1..]);
      var rest := Join(sep, items[1..]);
      assert Join(sep, items) == items[0] + sep + rest;
      assert TotalLength(items) == |items[0]| + TotalLength(items[1..]);
      assert (items[0] + sep + rest)[..|items[0]|] == items[0];
    } else if |items| == 1 {
      assert TotalLength(items) == |items[0]| + TotalLength(items[1..]);
    }
  }

  predicate IsDigit(c: char) {
    '0' <= c <= '9'
  }

  /** `s.isdigit()` restricted to ASCII digits. */
  predicate IsDigits(s: string) {
    |s| > 0 && forall i :: 0 <= i < |s| ==> IsDigit(s[i])
  }

  /** The decimal value of a digit string. */
  function DigitsValue(s: string): nat
    requires forall i :: 0 <= i < |s| ==> IsDigit(s[i])
  {
    if s == [] then 0
    else
      assert IsDigit(s[|s| - 1]);
      DigitsValue(s[..|s| - 1]) * 10 + (s[|s| - 1] as int - '0' as int)
  }

  function DigitChar(d: nat): (c: char)
    requires d < 10
    ensures IsDigit(c) && c as int - '0' as int == d
  {
    ('0' as int + d) as char
  }

  /** `str(n)` for a natural number: a digit string whose value is `n`. */
  function NatToString(n: nat): (r: string)
    ensures IsDigits(r)
    ensures DigitsValue(r) == n
    ensures n == 0 <==> r == "0"
  {
    if n < 10 then [DigitChar(n)]
    else
      var p := NatToString(n / 10);
      var r := p + [DigitChar(n % 10)];
      assert r[..|r| - 1] == p;
      r
  }

  /** `str(i)` for an integer. */
  function IntToString(i: int): (r: string)
    ensures |r| > 0
    ensures i >= 0 ==> IsDigits(r)
    ensures i < 0 ==> r[0] == '-' && IsDigits(r[1..])
  {
    if i < 0 then "-" + NatToString(-i) else NatToString(i)
  }

  /**
   * `int(s)` on a decimal literal: surrounding blanks are ignored, then an optional
   * sign and one or more ASCII digits; anything else is a ValueError (None).
   */
  function ParseInt(s: string): Option<int> {
    var t := Strip(s);
    if |t| > 0 && (t[0] == '-' || t[0] == '+') then
      if IsDigits(t[1..]) then
        var v: int := DigitsValue(t[1..]);
        Some(if t[0] == '-' then -v else v)
      else None
    else if IsDigits(t) then Some(DigitsValue(t))
    else None
  }

  /** `int(str(i)) == i`: printing an integer and reading it back is the identity. */
  lemma ParseIntRoundTrip(i: int)
    ensures ParseInt(IntToString(i)) == Some(i)
  {
    var r := IntToString(i);
    assert !IsSpace(r[0]) && !IsSpace(r[|r| - 1]);
    StripNoBlankEnds(r);
    if i < 0 {
      assert r[1..] == NatToString(-i);
    }
  }

  /** Text that contains a character other than a digit, a sign or a blank is never an integer. */
  lemma ParseIntNeedsDigits(s: string, k: nat)
    requires k < |s| && !IsDigit(s[k]) && !IsSpace(s[k]) && s[k] != '-' && s[k] != '+'
    ensures ParseInt(s) == None
  {
    var j := StripKeeps(s, k);
    var u := Strip(s);
    if |u| > 0 && (u[0] == '-' || u[0] == '+') {
      NotDigitsAt(u[1..], j - 1);
    } else {
      NotDigitsAt(u, j);
    }
  }

  /** A non-blank character survives `strip()`, at index `j` of the result. */
  lemma StripKeeps(s: string, k: nat) returns (j: nat)
    requires k < |s| && !IsSpace(s[k])
    ensures j < |Strip(s)| && Strip(s)[j] == s[k]
  {
    var i := TrimStartKeeps(s, k);
    TrimEndKeeps(TrimStart(s), i);
    j := i;
  }

  /** A non-blank character survives `lstrip()`, at index `j` of the result. */
  lemma TrimStartKeeps(s: string, k: nat) returns (j: nat)
    requires k < |s| && !IsSpace(s[k])
    ensures j < |TrimStart(s)| && TrimStart(s)[j] == s[k]
  {
    var t := TrimStart(s);
    var off := |s| - |t|;
    if k < off {
      assert false;
    }
    j := k - off;
    assert t[j] == s[off..][j];
  }

  /** A non-blank character survives `rstrip()` at the same index. */
  lemma TrimEndKeeps(t: string, j: nat)
    requires j < |t| && !IsSpace(t[j])
    ensures j < |TrimEnd(t)| && TrimEnd(t)[j] == t[j]
  {
    var u := TrimEnd(t);
    if j >= |u| {
      assert false;
    }
    assert u[j] == t[..|u|][j];
  }

  /** A string with a non-digit in it is not a digit string. */
  lemma NotDigitsAt(x: string, i: nat)
    requires i < |x| && !IsDigit(x[i])
    ensures !IsDigits(x)
  {
  }

  /** A Python index for a sequence of length n: negative counts from the end, then clamped. */
  function PyIndex(i: int, n: nat): (k: nat)
    ensures k <= n
    ensures 0 <= i <= n ==> k == i
  {
    if i < 0 then (if i + n < 0 then 0 else i + n) else if i > n then n else i
  }

  /** `s[i:j]` with Python's rules for negative and out-of-range bounds. */
  function PySlice<T>(s: seq<T>, i: int, j: int): (r: seq<T>)
    ensures |r| <= |s|
    ensures 0 <= i <= j <= |s| ==> r == s[i..j]
  {
    var a, b := PyIndex(i, |s|), PyIndex(j, |s|);
    if a < b then s[a..b] else []
  }

  /** `c * n` for a one-character string. */
  function Repeat(c: char, n: int): (r: string)
    ensures |r| == if n > 0 then n else 0
    ensures forall i :: 0 <= i < |r| ==> r[i] == c
  {
    if n <= 0 then [] else [c] + Repeat(c, n - 1)
  }

  /** `s.ljust(w)`: pad on the right with blanks to width w; longer strings are unchanged. */
  function LJust(s: string, w: int): (r: string)
    ensures |r| == if w > |s| then w else |s|
    ensures r[..|s|] == s
  {
    s + Repeat(' ', w - |s|)
  }

  /** `s.split(c)[0]`: the text before the first `c`, or all of `s`. */
  function BeforeFirst(s: string, c: char): (r: string)
    ensures |r| <= |s| && r == s[..|r|]
    ensures c !in r
    ensures |r| < |s| ==> s[|r|] == c
  {
    if s == [] || s[0] == c then [] else [s[0]] + BeforeFirst(s[1..], c)
  }

  /** `s.split(c)[-1]`: the text after the last `c`, or all of `s`. */
  function AfterLast(s: string, c: char): (r: string)
    ensures |r| <= |s| && r == s[|s| - |r|..]
    ensures c !in r
    ensures |r| < |s| ==> s[|s| - |r| - 1] == c
  {
    if s == [] || s[|s| - 1] == c then [] else AfterLast(s[..|s| - 1], c) + [s[|s| - 1]]
  }

  /** Python's `a <= b` on strings: lexicographic by code point. */
  predicate LexLe(a: string, b: string) {
    a == [] || (b != [] && (a[0] < b[0] || (a[0] == b[0] && LexLe(a[1..], b[1..]))))
  }

  lemma {:induction false} LexLeTotal(a: string, b: string)
    ensures LexLe(a, b) || LexLe(b, a)
    decreases |a|
  {
    if a != [] && b != [] && a[0] == b[0] {
      LexLeTotal(a[1..], b[1..]);
    }
  }

  lemma {:induction false} LexLeTrans(a: string, b: string, c: string)
    requires LexLe(a, b) && LexLe(b, c)
    ensures LexLe(a, c)
    decreases |a|
  {
    if a != [] && a[0] == b[0] && b[0] == c[0] {
      LexLeTrans(a[1..], b[1..], c[1..]);
    }
  }

  lemma {:induction false} LexLeAntisym(a: string, b: string)
    requires LexLe(a, b) && LexLe(b, a)
    ensures a == b
    decreases |a|
  {
    if a != [] {
      LexLeAntisym(a[1..], b[1..]);
      assert a == [a[0]] + a[1..] && b == [b[0]] + b[1..];
    }
  }
}
