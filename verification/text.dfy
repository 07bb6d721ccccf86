/**
 * The handful of Python string operations the bot relies on: `str.isspace`,
 * `str.isdigit`, `str.lower`, `str.strip`, `str.split(sep)`,
 * `str.split(maxsplit=n)` and `int(...)` of a digit string.
 */
module Text {

  /**
   * Python's `str.isspace()` for one character: the ASCII controls TAB to CR
   * and FS to US, the space, and the Unicode separators. `strip()`, `split()`
   * and the regex class `\s` all use this set.
   */
  predicate IsSpace(c: char) {
    || c == '\t' || c == '\n' || c == '\U{B}' || c == '\U{C}' || c == '\r'
    || c == '\U{1C}' || c == '\U{1D}' || c == '\U{1E}' || c == '\U{1F}' || c == ' '
    || c == '\U{85}' || c == '\U{A0}' || c == '\U{1680}'
    || c == '\U{2000}' || c == '\U{2001}' || c == '\U{2002}' || c == '\U{2003}'
    || c == '\U{2004}' || c == '\U{2005}' || c == '\U{2006}' || c == '\U{2007}'
    || c == '\U{2008}' || c == '\U{2009}' || c == '\U{200A}'
    || c == '\U{2028}' || c == '\U{2029}' || c == '\U{202F}' || c == '\U{205F}' || c == '\U{3000}'
  }

  predicate NoSpace(s: string) {
    forall i :: 0 <= i < |s| ==> !IsSpace(s[i])
  }

  predicate IsDigit(c: char) {
    '0' <= c <= '9'
  }

  predicate AllDigits(s: string) {
    forall i :: 0 <= i < |s| ==> IsDigit(s[i])
  }

  /** `str.isdigit()` on ASCII digits: false for the empty string. */
  predicate IsDigits(s: string) {
    |s| > 0 && AllDigits(s)
  }

  /** `str.lower()` on one character, for the Latin and Cyrillic capitals. */
  function LowerChar(c: char): char {
    if 'A' <= c <= 'Z' then (c as int + 32) as char
    else if 0x410 <= c as int <= 0x42F then (c as int + 32) as char
    else if 0x400 <= c as int <= 0x40F then (c as int + 80) as char
    else c
  }

  function ToLower(s: string): (r: string)
    ensures |r| == |s|
  {
    seq(|s|, i requires 0 <= i < |s| => LowerChar(s[i]))
  }

  /** Lower-casing is idempotent: a lower-cased string is its own lower case. */
  lemma ToLowerIdempotent(s: string)
    ensures ToLower(ToLower(s)) == ToLower(s)
  {
    assert forall i :: 0 <= i < |s| ==> LowerChar(LowerChar(s[i])) == LowerChar(s[i]);
  }

  /** `s.lstrip()`. */
  function TrimLeft(s: string): string {
    if |s| > 0 && IsSpace(s[0]) then TrimLeft(s[1..]) else s
  }

  /** `s.rstrip()`. */
  function TrimRight(s: string): string {
    if |s| > 0 && IsSpace(s[|s| - 1]) then TrimRight(s[..|s| - 1]) else s
  }

  /** `s.strip()`. */
  function Strip(s: string): string {
    TrimRight(TrimLeft(s))
  }

  /** `lstrip` removes exactly the leading whitespace: what remains is a suffix that does not start with any. */
  lemma {:induction false} TrimLeftSpec(s: string)
    ensures var r := TrimLeft(s);
      && |r| <= |s| && r == s[|s| - |r|..]
      && (forall i :: 0 <= i < |s| - |r| ==> IsSpace(s[i]))
      && (r == [] || !IsSpace(r[0]))
  {
    if |s| > 0 && IsSpace(s[0]) {
      TrimLeftSpec(s[1..]);
      var r := TrimLeft(s[1..]);
      assert forall i :: 1 <= i < |s| - |r| ==> s[i] == s[1..][i - 1];
    }
  }

  /** `rstrip` removes exactly the trailing whitespace: what remains is a prefix that does not end with any. */
  lemma {:induction false} TrimRightSpec(s: string)
    ensures var r := TrimRight(s);
      && |r| <= |s| && r == s[..|r|]
      && (forall i :: |r| <= i < |s| ==> IsSpace(s[i]))
      && (r == [] || !IsSpace(r[|r| - 1]))
  {
    if |s| > 0 && IsSpace(s[|s| - 1]) {
      TrimRightSpec(s[..|s| - 1]);
    }
  }

  /** `strip` leaves a string that neither starts nor ends with whitespace. */
  lemma StripSpec(s: string)
    ensures var r := Strip(s); r == [] || (!IsSpace(r[0]) && !IsSpace(r[|r| - 1]))
  {
    TrimLeftSpec(s);
    var t := TrimLeft(s);
    TrimRightSpec(t);
    var r := TrimRight(t);
    if r != [] {
      assert r[0] == t[0];
    }
  }

  /** A string that neither starts nor ends with whitespace is its own strip. */
  lemma StripClean(s: string)
    requires s == [] || (!IsSpace(s[0]) && !IsSpace(s[|s| - 1]))
    ensures Strip(s) == s
  {
  }

  /** `strip` only removes characters: everything it keeps was in the input. */
  lemma StripKeeps(s: string, c: char)
    requires c !in s
    ensures c !in Strip(s)
  {
    TrimLeftSpec(s);
    TrimRightSpec(TrimLeft(s));
  }

  /** Once a string has something left after `lstrip`, appending to it does not change what `lstrip` removes. */
  lemma {:induction false} TrimLeftAppend(s: string, t: string)
    requires TrimLeft(s) != []
    ensures TrimLeft(s + t) == TrimLeft(s) + t
  {
    if |s| > 0 && IsSpace(s[0]) {
      assert (s + t)[1..] == s[1..] + t;
      TrimLeftAppend(s[1..], t);
    }
  }

  /** `lstrip` removes a whitespace prefix and stops at the first other character. */
  lemma {:induction false} TrimLeftSpaces(ws: string, t: string)
    requires forall i :: 0 <= i < |ws| ==> IsSpace(ws[i])
    requires t == [] || !IsSpace(t[0])
    ensures TrimLeft(ws + t) == t
  {
    if ws == [] {
      assert ws + t == t;
    } else {
      assert (ws + t)[1..] == ws[1..] + t;
      TrimLeftSpaces(ws[1..], t);
    }
  }

  /** A digit string is a word without whitespace, and `strip` leaves it alone. */
  lemma DigitsAreWord(s: string)
    requires IsDigits(s)
    ensures IsWord(s) && NoSpace(s)
    ensures TrimLeft(s) == s && Strip(s) == s
  {
  }

  /** `sep.join(parts)` for a one-character separator. */
  function JoinWith(parts: seq<string>, sep: char): string {
    if |parts| == 0 then ""
    else if |parts| == 1 then parts[0]
    else parts[0] + [sep] + JoinWith(parts[1..], sep)
  }

  /** Python's `s.split(sep)` for a one-character separator; there is always at least one part. */
  function SplitOn(s: string, sep: char): (parts: seq<string>)
    ensures |parts| >= 1
    decreases |s|
  {
    if |s| == 0 then [""]
    else
      var rest := SplitOn(s[1..], sep);
      if s[0] == sep then [""] + rest
      else [[s[0]] + rest[0]] + rest[1..]
  }

  /** The parts hold no separator, and joining them with it gives back `s`. */
  lemma {:induction false} SplitOnSpec(s: string, sep: char)
    ensures var parts := SplitOn(s, sep);
      && (forall i :: 0 <= i < |parts| ==> sep !in parts[i])
      && JoinWith(parts, sep) == s
    decreases |s|
  {
    if |s| > 0 {
      SplitOnSpec(s[1..], sep);
      var rest := SplitOn(s[1..], sep);
      var parts := SplitOn(s, sep);
      if s[0] == sep {
        assert parts == [""] + rest;
        assert parts[1..] == rest;
        assert forall i :: 1 <= i < |parts| ==> parts[i] == rest[i - 1];
      } else {
        assert parts == [[s[0]] + rest[0]] + rest[1..];
        assert parts[1..] == rest[1..];
        assert forall i :: 1 <= i < |parts| ==> parts[i] == rest[i];
        if |rest| == 1 {
          assert s == [s[0]] + s[1..];
        } else {
          assert JoinWith(rest, sep) == rest[0] + [sep] + JoinWith(rest[1..], sep);
          assert s == [s[0]] + s[1..];
        }
      }
    }
  }

  /** A separator-free prefix ends up glued to the first part. */
  lemma {:induction false} SplitOnPrefix(w: string, t: string, sep: char)
    requires sep !in w
    ensures SplitOn(w + t, sep) == [w + SplitOn(t, sep)[0]] + SplitOn(t, sep)[1..]
    decreases |w|
  {
    if w != [] {
      SplitOnPrefix(w[1..], t, sep);
      assert (w + t)[1..] == w[1..] + t;
      assert [w[0]] + (w[1..] + SplitOn(t, sep)[0]) == w + SplitOn(t, sep)[0];
    } else {
      assert w + t == t;
      assert w + SplitOn(t, sep)[0] == SplitOn(t, sep)[0];
    }
  }

  /** A separator-free part followed by the separator splits off first. */
  lemma SplitOnCons(w: string, t: string, sep: char)
    requires sep !in w
    ensures SplitOn(w + [sep] + t, sep) == [w] + SplitOn(t, sep)
  {
    SplitOnPrefix(w, [sep] + t, sep);
    assert w + [sep] + t == w + ([sep] + t);
    assert ([sep] + t)[1..] == t;
    assert SplitOn([sep] + t, sep) == [""] + SplitOn(t, sep);
    assert w + "" == w;
  }

  /** Splitting a join gives back the parts, provided no part holds the separator. */
  lemma {:induction false} SplitOnJoin(parts: seq<string>, sep: char)
    requires |parts| >= 1
    requires forall i :: 0 <= i < |parts| ==> sep !in parts[i]
    ensures SplitOn(JoinWith(parts, sep), sep) == parts
    decreases |parts|
  {
    if |parts| == 1 {
      SplitOnPrefix(parts[0], "", sep);
      assert parts[0] + "" == parts[0];
    } else {
      SplitOnJoin(parts[1..], sep);
      SplitOnCons(parts[0], JoinWith(parts[1..], sep), sep);
      assert parts == [parts[0]] + parts[1..];
    }
  }

  /** The length of the longest whitespace-free prefix of `s`. */
  function WordLength(s: string): (n: nat)
    ensures n <= |s|
    ensures n == |s| || IsSpace(s[n])
  {
    if |s| == 0 || IsSpace(s[0]) then 0 else 1 + WordLength(s[1..])
  }

  /** A whitespace-free word followed by whitespace (or nothing) is exactly one word long. */
  lemma {:induction false} WordLengthOf(w: string, t: string)
    requires NoSpace(w)
    requires t == [] || IsSpace(t[0])
    ensures WordLength(w + t) == |w|
    decreases |w|
  {
    if w == [] {
      assert w + t == t;
    } else {
      WordLengthOf(w[1..], t);
      assert (w + t)[1..] == w[1..] + t;
    }
  }

  /** A word of `split()`'s result: non-empty and not starting with whitespace. */
  predicate IsWord(w: string) {
    w != [] && !IsSpace(w[0])
  }

  /**
   * Python's `s.split(maxsplit=n)` (CPython's whitespace split): up to `n`
   * whitespace-free words, then the rest of the string with its leading
   * whitespace removed but its trailing whitespace kept.
   */
  function SplitWhitespace(s: string, maxsplit: nat): seq<string>
    decreases |s|
  {
    if |s| == 0 then []
    else if IsSpace(s[0]) then SplitWhitespace(s[1..], maxsplit)
    else if maxsplit == 0 then [s]
    else
      var n := WordLength(s);
      [s[..n]] + SplitWhitespace(s[n..], maxsplit - 1)
  }

  /** `maxsplit` bounds the number of pieces: at most `maxsplit + 1` come back. */
  lemma {:induction false} SplitWhitespaceLength(s: string, maxsplit: nat)
    ensures |SplitWhitespace(s, maxsplit)| <= maxsplit + 1
    decreases |s|
  {
    if |s| == 0 {
    } else if IsSpace(s[0]) {
      SplitWhitespaceLength(s[1..], maxsplit);
    } else if maxsplit > 0 {
      SplitWhitespaceLength(s[WordLength(s)..], maxsplit - 1);
    }
  }

  /** A single word splits into itself. */
  lemma SplitWhitespaceWord(w: string, maxsplit: nat)
    requires IsWord(w) && NoSpace(w)
    ensures SplitWhitespace(w, maxsplit) == [w]
  {
    if maxsplit > 0 {
      WordLengthOf(w, "");
      assert w + "" == w;
      assert w[|w|..] == [];
    }
  }

  /** A word followed by one space splits off first, leaving the rest for the remaining `maxsplit - 1` splits. */
  lemma SplitWhitespaceCons(w: string, t: string, maxsplit: nat)
    requires IsWord(w) && NoSpace(w) && maxsplit > 0
    requires IsWord(t)
    ensures SplitWhitespace(w + [' '] + t, maxsplit) == [w] + SplitWhitespace(t, maxsplit - 1)
  {
    var s := w + [' '] + t;
    assert s == w + ([' '] + t);
    assert s[0] == w[0];
    WordLengthOf(w, [' '] + t);
    assert s[..|w|] == w;
    assert s[|w|..] == [' '] + t;
    assert ([' '] + t)[1..] == t;
  }

  /** Words joined by single spaces split back into the same words when `maxsplit` allows them all. */
  lemma {:induction false} SplitWhitespaceJoin(words: seq<string>, maxsplit: nat)
    requires |words| >= 1 && |words| <= maxsplit + 1
    requires forall i :: 0 <= i < |words| ==> IsWord(words[i]) && NoSpace(words[i])
    ensures SplitWhitespace(JoinWith(words, ' '), maxsplit) == words
    decreases |words|
  {
    if |words| == 1 {
      SplitWhitespaceWord(words[0], maxsplit);
    } else {
      var tail := JoinWith(words[1..], ' ');
      SplitWhitespaceJoin(words[1..], maxsplit - 1);
      assert IsWord(tail) by {
        assert IsWord(words[1]);
        assert tail[0] == words[1][0];
      }
      SplitWhitespaceCons(words[0], tail, maxsplit);
      assert words == [words[0]] + words[1..];
    }
  }

  function DigitValue(c: char): nat
    requires IsDigit(c)
  {
    c as int - '0' as int
  }

  function DigitChar(d: nat): (c: char)
    requires d < 10
    ensures IsDigit(c) && DigitValue(c) == d
  {
    ('0' as int + d) as char
  }

  /** Python's `int(s)` for a string of ASCII digits (leading zeros allowed). */
  function DigitsValue(s: string): nat
    requires AllDigits(s)
  {
    if |s| == 0 then 0 else 10 * DigitsValue(s[..|s| - 1]) + DigitValue(s[|s| - 1])
  }

  /** Python's `str(n)` for a natural number; `int` reads it back. */
  function NatToDigits(n: nat): (s: string)
    ensures IsDigits(s)
    ensures DigitsValue(s) == n
  {
    if n < 10 then [DigitChar(n)]
    else
      var s := NatToDigits(n / 10) + [DigitChar(n % 10)];
      assert s[..|s| - 1] == NatToDigits(n / 10);
      s
  }
}
