/**
 * The Python string operations the backend relies on, over `string` (a sequence of Unicode
 * scalar values): `strip`, `lower`, `in`, `find`, `startswith`, slicing with Python's clamping
 * and negative ends, `str(int)`, `join` and `split("\n")`.
 */
module Text {

  /** Python's `str.isspace`: the characters `str.strip()` removes. */
  predicate IsSpace(c: char) {
    || ('\t' <= c <= '\r')
    || ('\U{1C}' <= c <= '\U{1F}')
    || c == ' ' || c == '\U{85}' || c == '\U{A0}' || c == '\U{1680}'
    || ('\U{2000}' <= c <= '\U{200A}')
    || c == '\U{2028}' || c == '\U{2029}' || c == '\U{202F}' || c == '\U{205F}' || c == '\U{3000}'
  }

  /** `s.lstrip()`. */
  function StripLeft(s: string): (r: string)
    ensures |r| <= |s| && r == s[|s| - |r|..]
    ensures r == [] || !IsSpace(r[0])
    ensures forall i :: 0 <= i < |s| - |r| ==> IsSpace(s[i])
  {
    if s != [] && IsSpace(s[0]) then
      var r := StripLeft(s[1..]);
      assert forall i :: 1 <= i < |s| ==> s[i] == s[1..][i - 1];
      r
    else s
  }

  /** `s.rstrip()`. */
  function StripRight(s: string): (r: string)
    ensures |r| <= |s| && r == s[..|r|]
    ensures r == [] || !IsSpace(r[|r| - 1])
    ensures forall i :: |r| <= i < |s| ==> IsSpace(s[i])
  {
    if s != [] && IsSpace(s[|s| - 1]) then
      var r := StripRight(s[..|s| - 1]);
      assert forall i :: 0 <= i < |s| - 1 ==> s[i] == s[..|s| - 1][i];
      r
    else s
  }

  /** `s.strip()`: the longest infix of `s` with no whitespace at either end. */
  function Strip(s: string): (r: string)
    ensures |r| <= |s|
    ensures r == [] || (!IsSpace(r[0]) && !IsSpace(r[|r| - 1]))
  {
    StripRight(StripLeft(s))
  }

  /** A string with no whitespace at either end is left unchanged by `strip()`. */
  lemma {:induction false} StripIdempotent(s: string)
    ensures Strip(Strip(s)) == Strip(s)
  {
    var r := Strip(s);
    assert r == [] || !IsSpace(r[0]);
    assert StripLeft(r) == r;
    assert r == [] || !IsSpace(r[|r| - 1]);
    assert StripRight(r) == r;
  }

  /** `s.strip(c)` for a one-character argument. */
  function StripChar(s: string, c: char): (r: string)
    ensures |r| <= |s|
    ensures r == [] || (r[0] != c && r[|r| - 1] != c)
  {
    var left := DropLeading(s, c);
    DropTrailing(left, c)
  }

  function DropLeading(s: string, c: char): (r: string)
    ensures |r| <= |s| && r == s[|s| - |r|..]
    ensures r == [] || r[0] != c
  {
    if s != [] && s[0] == c then DropLeading(s[1..], c) else s
  }

  function DropTrailing(s: string, c: char): (r: string)
    ensures |r| <= |s| && r == s[..|r|]
    ensures r == [] || r[|r| - 1] != c
    ensures s != [] && s[0] != c ==> r != [] && r[0] == s[0]
  {
    if s != [] && s[|s| - 1] == c then DropTrailing(s[..|s| - 1], c) else s
  }

  /** `strip()` removes exactly the whitespace around a text that has none at either end. */
  lemma StripSurrounded(pre: string, m: string, post: string)
    requires forall i | 0 <= i < |pre| :: IsSpace(pre[i])
    requires forall i | 0 <= i < |post| :: IsSpace(post[i])
    requires m != [] && !IsSpace(m[0]) && !IsSpace(m[|m| - 1])
    ensures Strip(pre + m + post) == m
  {
    assert pre + m + post == pre + (m + post);
    StripLeftSpaces(pre, m + post);
    StripRightSpaces(m, post);
  }

  lemma {:induction false} StripLeftSpaces(pre: string, t: string)
    requires forall i | 0 <= i < |pre| :: IsSpace(pre[i])
    requires t != [] && !IsSpace(t[0])
    ensures StripLeft(pre + t) == t
    decreases |pre|
  {
    if pre != [] {
      assert (pre + t)[1..] == pre[1..] + t;
      StripLeftSpaces(pre[1..], t);
    }
  }

  lemma {:induction false} StripRightSpaces(t: string, post: string)
    requires forall i | 0 <= i < |post| :: IsSpace(post[i])
    requires t != [] && !IsSpace(t[|t| - 1])
    ensures StripRight(t + post) == t
    decreases |post|
  {
    if post != [] {
      assert (t + post)[..|t + post| - 1] == t + post[..|post| - 1];
      StripRightSpaces(t, post[..|post| - 1]);
    }
  }

  /** `strip(c)` on the left removes the one `c` a text starts with. */
  lemma DropLeadingOnce(s: string, c: char)
    requires s != [] && s[0] == c && (|s| == 1 || s[1] != c)
    ensures DropLeading(s, c) == s[1..]
  {
  }

  /** `strip(c)` on the right removes the one `c` a text ends with. */
  lemma DropTrailingOnce(s: string, c: char)
    requires s != [] && s[|s| - 1] == c && (|s| == 1 || s[|s| - 2] != c)
    ensures DropTrailing(s, c) == s[..|s| - 1]
  {
  }

  /** `strip(c)` leaves a text that neither starts nor ends with `c` unchanged. */
  lemma StripCharKeeps(s: string, c: char)
    requires s != [] && s[0] != c && s[|s| - 1] != c
    ensures StripChar(s, c) == s
  {
  }

  /** `strip(c)` removes the one `c` on each side of a text that neither starts nor ends with `c`. */
  lemma StripCharOnce(k: string, c: char)
    requires k != [] && k[0] != c && k[|k| - 1] != c
    ensures StripChar([c] + k + [c], c) == k
  {
    var s := [c] + k + [c];
    assert s[1] == k[0];
    DropLeadingOnce(s, c);
    assert s[1..] == k + [c];
    DropTrailingOnce(k + [c], c);
    assert (k + [c])[..|k|] == k;
  }

  /** `c.lower()` on ASCII letters; every other character is kept. */
  function LowerChar(c: char): char {
    if 'A' <= c <= 'Z' then (c as int + 32) as char else c
  }

  /** `s.lower()`, folding ASCII letters. */
  function Lower(s: string): (r: string)
    ensures |r| == |s|
    ensures forall i :: 0 <= i < |s| ==> r[i] == LowerChar(s[i])
  {
    seq(|s|, i requires 0 <= i < |s| => LowerChar(s[i]))
  }

  lemma LowerIdempotent(s: string)
    ensures Lower(Lower(s)) == Lower(s)
  {
  }

  predicate StartsWith(s: string, prefix: string) {
    |prefix| <= |s| && s[..|prefix|] == prefix
  }

  /** `sub` occurs in `s` starting at index `i`. */
  predicate OccursAt(s: string, sub: string, i: int) {
    0 <= i <= |s| - |sub| && s[i..i + |sub|] == sub
  }

  /** `sub in s`. */
  predicate Contains(s: string, sub: string) {
    exists i | 0 <= i <= |s| - |sub| :: OccursAt(s, sub, i)
  }

  /** A string contains each of its own suffixes. */
  lemma ContainsSuffix(prefix: string, suffix: string)
    ensures Contains(prefix + suffix, suffix)
  {
    var s := prefix + suffix;
    assert OccursAt(s, suffix, |prefix|);
  }

  /** `s.find(sub, start)`: the first index at or after `start` where `sub` occurs, or -1. */
  function FindFrom(s: string, sub: string, start: nat): (r: int)
    decreases |s| - start
    ensures r == -1 || (start <= r && OccursAt(s, sub, r))
    ensures r == -1 ==> forall i :: start <= i ==> !OccursAt(s, sub, i)
    ensures r != -1 ==> forall i :: start <= i < r ==> !OccursAt(s, sub, i)
  {
    if start + |sub| > |s| then -1
    else if s[start..start + |sub|] == sub then start
    else FindFrom(s, sub, start + 1)
  }

  /** `s.find(sub)`. */
  function Find(s: string, sub: string): (r: int)
    ensures r == -1 <==> !Contains(s, sub)
    ensures r != -1 ==> OccursAt(s, sub, r) && forall i :: 0 <= i < r ==> !OccursAt(s, sub, i)
  {
    FindFrom(s, sub, 0)
  }

  /** Python's clamping of a slice bound against a length, negative bounds counting from the end. */
  function ClampIndex(i: int, len: nat): (r: nat)
    ensures r <= len
  {
    if i < 0 then (if len + i < 0 then 0 else len + i) else if i > len then len else i
  }

  /**
   * How many naturals lie below `n`: the length of `range(n)`, and how many times a counter
   * started at 0 passes the test `counter < n`.
   */
  function CountBelow(n: int): (r: nat)
    ensures n <= 0 ==> r == 0
    ensures n > 0 ==> r == n
  {
    if n < 0 then 0 else n
  }

  /** `s[start:end]` with Python's semantics. */
  function PySlice<T>(s: seq<T>, start: int, end: int): (r: seq<T>)
    ensures |r| <= |s|
  {
    var a := ClampIndex(start, |s|);
    var b := ClampIndex(end, |s|);
    if a >= b then [] else s[a..b]
  }

  /** `s[:n]` with Python's semantics: a negative `n` drops that many elements from the end. */
  function Take<T>(s: seq<T>, n: int): (r: seq<T>)
    ensures |r| <= |s|
    ensures r == s[..|r|]
    ensures 0 <= n ==> |r| == if n < |s| then n else |s|
    ensures n < 0 ==> |r| == if |s| + n < 0 then 0 else |s| + n
  {
    s[..ClampIndex(n, |s|)]
  }

  function DigitChar(d: nat): char
    requires d < 10
  {
    ('0' as int + d) as char
  }

  /** Decimal digits of a natural number, most significant first. */
  function NatToString(n: nat): (r: string)
    ensures |r| >= 1
    ensures forall i :: 0 <= i < |r| ==> '0' <= r[i] <= '9'
    decreases n
  {
    if n < 10 then [DigitChar(n)] else NatToString(n / 10) + [DigitChar(n % 10)]
  }

  /** `int(s)` for a string of decimal digits. */
  function DigitsValue(s: string): (r: nat)
    requires forall i :: 0 <= i < |s| ==> '0' <= s[i] <= '9'
    decreases |s|
  {
    if s == [] then 0 else DigitsValue(s[..|s| - 1]) * 10 + (s[|s| - 1] as int - '0' as int)
  }

  /** Reading the digits back gives the number: `int(str(n)) == n`, so `str` is injective on naturals. */
  lemma {:induction false} NatToStringRoundTrip(n: nat)
    ensures DigitsValue(NatToString(n)) == n
    decreases n
  {
    var r := NatToString(n);
    if n >= 10 {
      var prefix := NatToString(n / 10);
      assert r[..|r| - 1] == prefix;
      NatToStringRoundTrip(n / 10);
    }
  }

  /** `str(n)` for an integer. */
  function IntToString(n: int): (r: string)
    ensures |r| >= 1
  {
    if n < 0 then "-" + NatToString(-n) else NatToString(n)
  }

  /** `sep.join(parts)`. */
  function Join(parts: seq<string>, sep: string): string {
    if parts == [] then ""
    else if |parts| == 1 then parts[0]
    else parts[0] + sep + Join(parts[1..], sep)
  }

  /** The index of the first `c` in `s`. */
  function IndexOf(s: string, c: char): (r: nat)
    requires c in s
    ensures r < |s| && s[r] == c && c !in s[..r]
  {
    if s[0] == c then 0 else 1 + IndexOf(s[1..], c)
  }

  /** The index of the last `c` in `s`. */
  function LastIndexOf(s: string, c: char): (r: nat)
    requires c in s
    ensures r < |s| && s[r] == c && c !in s[r + 1..]
  {
    if s[|s| - 1] == c then |s| - 1
    else
      assert s[..|s| - 1] + [s[|s| - 1]] == s;
      LastIndexOf(s[..|s| - 1], c)
  }

  /**
   * The segments of `s` that are terminated by `'\n'`, in order, without their terminator
   * (what `while "\n" in buf: line, buf = buf.split("\n", 1)` takes off the front).
   */
  function CompleteLines(s: string): (r: seq<string>)
    ensures forall k :: 0 <= k < |r| ==> '\n' !in r[k]
    decreases |s|
  {
    if '\n' !in s then [] else
      var i := IndexOf(s, '\n');
      [s[..i]] + CompleteLines(s[i + 1..])
  }

  /** What follows the last `'\n'` of `s` (all of `s` when it has none). */
  function Tail(s: string): (r: string)
    ensures '\n' !in r
    ensures |r| <= |s|
    decreases |s|
  {
    if '\n' !in s then s else Tail(s[IndexOf(s, '\n') + 1..])
  }

  /** The first line and what follows it. */
  lemma FirstLine(s: string)
    requires '\n' in s
    ensures CompleteLines(s) == [s[..IndexOf(s, '\n')]] + CompleteLines(s[IndexOf(s, '\n') + 1..])
    ensures Tail(s) == Tail(s[IndexOf(s, '\n') + 1..])
  {
  }

  /** `s.split("\n")`. */
  function SplitNewlines(s: string): (r: seq<string>)
    ensures |r| >= 1
  {
    CompleteLines(s) + [Tail(s)]
  }

  /** Splitting on a newline that is known to be the first one. */
  lemma CompleteLinesCons(line: string, rest: string)
    requires '\n' !in line
    ensures CompleteLines(line + "\n" + rest) == [line] + CompleteLines(rest)
    ensures Tail(line + "\n" + rest) == Tail(rest)
  {
    var s := line + "\n" + rest;
    assert s[|line|] == '\n';
    assert s[..|line|] == line;
    assert IndexOf(s, '\n') == |line|;
    assert s[|line| + 1..] == rest;
  }

  /** What is left after the lines does not depend on where the text was split. */
  lemma {:induction false} TailAppend(s: string, t: string)
    ensures Tail(s + t) == Tail(Tail(s) + t)
    decreases |s|
  {
    if '\n' in s {
      var i := IndexOf(s, '\n');
      var line, rest := s[..i], s[i + 1..];
      assert s == line + "\n" + rest;
      assert s + t == line + "\n" + (rest + t);
      CompleteLinesCons(line, rest);
      CompleteLinesCons(line, rest + t);
      TailAppend(rest, t);
    }
  }

  /**
   * Cutting `s + t` into newline-terminated lines is cutting `s`, then cutting what was left
   * of `s` followed by `t`: the lines do not depend on where the text was split.
   */
  lemma {:induction false} CompleteLinesAppend(s: string, t: string)
    ensures CompleteLines(s + t) == CompleteLines(s) + CompleteLines(Tail(s) + t)
    decreases |s|
  {
    if '\n' in s {
      var i := IndexOf(s, '\n');
      var line, rest := s[..i], s[i + 1..];
      assert s == line + "\n" + rest;
      assert s + t == line + "\n" + (rest + t);
      CompleteLinesCons(line, rest);
      CompleteLinesCons(line, rest + t);
      CompleteLinesAppend(rest, t);
      calc {
        CompleteLines(s + t);
        [line] + CompleteLines(rest + t);
        [line] + (CompleteLines(rest) + CompleteLines(Tail(rest) + t));
        ([line] + CompleteLines(rest)) + CompleteLines(Tail(rest) + t);
      }
    }
  }

  /** Concatenation of a sequence of chunks. */
  function Concat(chunks: seq<string>): string {
    if chunks == [] then "" else chunks[0] + Concat(chunks[1..])
  }

  lemma {:induction false} ConcatSnoc(chunks: seq<string>, c: string)
    ensures Concat(chunks + [c]) == Concat(chunks) + c
  {
    if chunks == [] {
      assert [c][1..] == [];
    } else {
      assert (chunks + [c])[1..] == chunks[1..] + [c];
      ConcatSnoc(chunks[1..], c);
    }
  }
}
