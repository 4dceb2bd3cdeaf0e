/**
 * The JavaScript string built-ins the application relies on, restricted to ASCII:
 * `toLowerCase`, `trim`, `replace` with a string pattern, `replace(/ /g, ...)`,
 * number-to-decimal conversion, and `join`/`split` on one separator character.
 */
module Text {

  /** Lower-cases one ASCII letter; every other character is left alone. */
  function LowerChar(c: char): (r: char)
    ensures !('A' <= r <= 'Z')
    ensures 'A' <= c <= 'Z' ==> r as int == c as int + 32
    ensures !('A' <= c <= 'Z') ==> r == c
  {
    if 'A' <= c <= 'Z' then (c as int + 32) as char else c
  }

  /** `s.toLowerCase()` for ASCII text: same length, position by position. */
  function Lower(s: string): (r: string)
    ensures |r| == |s|
    ensures forall i :: 0 <= i < |s| ==> r[i] == LowerChar(s[i])
  {
    seq(|s|, i requires 0 <= i < |s| => LowerChar(s[i]))
  }

  /** The ASCII characters `String.prototype.trim` removes. */
  predicate IsSpace(c: char)
  {
    c == ' ' || c == '\t' || c == '\n' || c == '\r' || c as int == 11 || c as int == 12
  }

  predicate AllSpace(s: string)
  {
    forall i :: 0 <= i < |s| ==> IsSpace(s[i])
  }

  /** `s` without its leading white space. */
  function TrimStart(s: string): string
    decreases |s|
  {
    if s != [] && IsSpace(s[0]) then TrimStart(s[1..]) else s
  }

  /** `s` without its trailing white space. */
  function TrimEnd(s: string): string
    decreases |s|
  {
    if s != [] && IsSpace(s[|s| - 1]) then TrimEnd(s[..|s| - 1]) else s
  }

  /** What `TrimStart` removes is white space, and what it keeps does not start with any. */
  lemma {:induction false} TrimStartSpec(s: string)
    ensures var r := TrimStart(s);
            && |r| <= |s| && r == s[|s| - |r|..]
            && (r == [] || !IsSpace(r[0]))
            && AllSpace(s[..|s| - |r|])
    decreases |s|
  {
    if s != [] && IsSpace(s[0]) {
      var rest := s[1..];
      TrimStartSpec(rest);
      var r := TrimStart(rest);
      assert s[|s| - |r|..] == rest[|rest| - |r|..];
      var cut := s[..|s| - |r|];
      forall i | 0 <= i < |cut| ensures IsSpace(cut[i]) {
        if 0 < i {
          assert cut[i] == rest[..|rest| - |r|][i - 1];
        }
      }
    } else {
      assert s[|s| - |s|..] == s;
    }
  }

  /** What `TrimEnd` removes is white space, and what it keeps does not end with any. */
  lemma {:induction false} TrimEndSpec(s: string)
    ensures var r := TrimEnd(s);
            && |r| <= |s| && r == s[..|r|]
            && (r == [] || !IsSpace(r[|r| - 1]))
            && AllSpace(s[|r|..])
    decreases |s|
  {
    if s != [] && IsSpace(s[|s| - 1]) {
      var front := s[..|s| - 1];
      TrimEndSpec(front);
      var r := TrimEnd(front);
      assert s[..|r|] == front[..|r|];
      var cut := s[|r|..];
      forall i | 0 <= i < |cut| ensures IsSpace(cut[i]) {
        if i < |cut| - 1 {
          assert cut[i] == front[|r|..][i];
        }
      }
    } else {
      assert s[..|s|] == s;
    }
  }

  /**
   * `s.trim()`: the longest infix of `s` that neither starts nor ends with white space
   * (`TrimSpec`).
   */
  function Trim(s: string): string
  {
    TrimEnd(TrimStart(s))
  }

  /**
   * The trimmed text neither starts nor ends with white space; it is empty exactly
   * when `s` is all white space, and a string with nothing to trim is left untouched.
   */
  lemma TrimSpec(s: string)
    ensures var r := Trim(s);
            && |r| <= |s|
            && (r == [] || (!IsSpace(r[0]) && !IsSpace(r[|r| - 1])))
            && (r == [] <==> AllSpace(s))
            && (s == [] || (!IsSpace(s[0]) && !IsSpace(s[|s| - 1])) ==> r == s)
  {
    var a := TrimStart(s);
    var r := TrimEnd(a);
    TrimStartSpec(s);
    TrimEndSpec(a);
    if r == [] {
      assert a[|r|..] == a;
      assert a == [];
      assert s[..|s| - |a|] == s;
    } else {
      assert r[0] == a[0];
      assert !IsSpace(s[|s| - |a|]);
    }
    if s != [] && !IsSpace(s[0]) && !IsSpace(s[|s| - 1]) {
      assert a == s;
    }
  }

  /**
   * The check `text.trim() === ''` the application uses to drop empty turns, stated
   * directly: `TrimIsEmptyWhenBlank` shows the two agree.
   */
  predicate IsBlank(s: string)
  {
    AllSpace(s)
  }

  lemma TrimIsEmptyWhenBlank(s: string)
    ensures IsBlank(s) <==> Trim(s) == []
  {
    TrimSpec(s);
  }

  /** True when `pat` occurs in `s` starting at index `i`. */
  predicate OccursAt(s: string, pat: string, i: nat)
  {
    i + |pat| <= |s| && s[i..i + |pat|] == pat
  }

  /** `s.replace(pat, rep)` with a string pattern: only the first occurrence is replaced. */
  function ReplaceFirst(s: string, pat: string, rep: string): string
    requires pat != []
    decreases |s|
  {
    if |s| < |pat| then s
    else if s[..|pat|] == pat then rep + s[|pat|..]
    else [s[0]] + ReplaceFirst(s[1..], pat, rep)
  }

  /** A string in which the pattern does not occur is left as it is. */
  lemma {:induction false} ReplaceFirstAbsent(s: string, pat: string, rep: string)
    requires pat != []
    requires forall i :: 0 <= i < |s| ==> !OccursAt(s, pat, i)
    ensures ReplaceFirst(s, pat, rep) == s
    decreases |s|
  {
    if |s| >= |pat| {
      assert !OccursAt(s, pat, 0);
      forall i | 0 <= i < |s[1..]| ensures !OccursAt(s[1..], pat, i) {
        assert !OccursAt(s, pat, i + 1);
        if i + |pat| <= |s[1..]| {
          assert s[1..][i..i + |pat|] == s[i + 1..i + 1 + |pat|];
        }
      }
      ReplaceFirstAbsent(s[1..], pat, rep);
      assert [s[0]] + s[1..] == s;
    }
  }

  /**
   * When the first character of the pattern does not occur before the pattern, the
   * first occurrence is the one that follows `pre`, and it is the one replaced.
   */
  lemma {:induction false} ReplaceFirstAfter(pre: string, pat: string, rep: string, post: string)
    requires pat != [] && pat[0] !in pre
    ensures ReplaceFirst(pre + pat + post, pat, rep) == pre + rep + post
    decreases |pre|
  {
    var s := pre + pat + post;
    if pre == [] {
      assert s == pat + post;
      assert s[..|pat|] == pat;
      assert s[|pat|..] == post;
    } else {
      assert s[0] == pre[0] != pat[0];
      assert s[..|pat|] != pat;
      assert s[1..] == pre[1..] + pat + post;
      ReplaceFirstAfter(pre[1..], pat, rep, post);
      assert [pre[0]] + (pre[1..] + rep + post) == pre + rep + post;
    }
  }

  /** `s.replace(/x/g, y)` for a one-character pattern: every `from` becomes `to`. */
  function ReplaceChar(s: string, from: char, to: char): (r: string)
    ensures |r| == |s|
    ensures forall i :: 0 <= i < |s| ==> r[i] == (if s[i] == from then to else s[i])
    ensures from != to ==> from !in r
  {
    seq(|s|, i requires 0 <= i < |s| => if s[i] == from then to else s[i])
  }

  function DigitChar(d: nat): (c: char)
    requires d < 10
    ensures '0' <= c <= '9'
  {
    (48 + d) as char
  }

  /** The number a string of decimal digits denotes, read most significant digit first. */
  function DigitsValue(s: string): nat
    decreases |s|
  {
    if s == [] then 0
    else
      var c := s[|s| - 1];
      DigitsValue(s[..|s| - 1]) * 10 + (if '0' <= c <= '9' then c as int - '0' as int else 0)
  }

  /**
   * The decimal text of a natural number, as template literals render it: digits
   * that denote the number, with no leading zero unless the number is 0.
   */
  function NatToString(n: nat): (r: string)
    ensures r != []
    ensures forall i :: 0 <= i < |r| ==> '0' <= r[i] <= '9'
    ensures DigitsValue(r) == n
    ensures |r| > 1 ==> r[0] != '0'
    ensures n > 0 ==> r[0] != '0'
    decreases n
  {
    if n < 10 then
      var r := [DigitChar(n)];
      assert r[..0] == [];
      r
    else
      var front := NatToString(n / 10);
      var r := front + [DigitChar(n % 10)];
      assert r[..|r| - 1] == front;
      r
  }

  /**
   * The decimal text of an integer: a leading `-` exactly when it is negative, then
   * the decimal text of its magnitude.
   */
  function IntToString(i: int): (r: string)
    ensures r != []
    ensures (r[0] == '-') <==> i < 0
    ensures i < 0 ==> |r| > 1 && r[1..] == NatToString(-i) && DigitsValue(r[1..]) == -i
    ensures i >= 0 ==> r == NatToString(i) && DigitsValue(r) == i
  {
    if i < 0 then
      var r := "-" + NatToString(-i);
      assert r[1..] == NatToString(-i);
      r
    else NatToString(i)
  }

  /** `parts.join(sep)`. */
  function Join(parts: seq<string>, sep: char): (r: string)
    decreases |parts|
  {
    if parts == [] then ""
    else if |parts| == 1 then parts[0]
    else parts[0] + [sep] + Join(parts[1..], sep)
  }

  /** `s.split(sep)`: never empty; the pieces contain no separator. */
  function Split(s: string, sep: char): (r: seq<string>)
    ensures r != []
    ensures forall k :: 0 <= k < |r| ==> sep !in r[k]
    decreases |s|
  {
    if s == [] then [""]
    else
      var rest := Split(s[1..], sep);
      if s[0] == sep then [""] + rest
      else [[s[0]] + rest[0]] + rest[1..]
  }

  lemma {:induction false} SplitNoSeparator(p: string, sep: char)
    requires sep !in p
    ensures Split(p, sep) == [p]
    decreases |p|
  {
    if p != [] {
      SplitNoSeparator(p[1..], sep);
      assert [p[0]] + p[1..] == p;
    }
  }

  lemma {:induction false} SplitAtSeparator(p: string, sep: char, t: string)
    requires sep !in p
    ensures Split(p + [sep] + t, sep) == [p] + Split(t, sep)
    decreases |p|
  {
    var s := p + [sep] + t;
    if p == [] {
      assert s[0] == sep && s[1..] == t;
    } else {
      assert s[0] == p[0] != sep;
      assert s[1..] == p[1..] + [sep] + t;
      SplitAtSeparator(p[1..], sep, t);
      assert [p[0]] + p[1..] == p;
    }
  }

  /** Splitting a join on a separator that no part contains gives the parts back. */
  lemma {:induction false} SplitJoin(parts: seq<string>, sep: char)
    requires parts != []
    requires forall k :: 0 <= k < |parts| ==> sep !in parts[k]
    ensures Split(Join(parts, sep), sep) == parts
    decreases |parts|
  {
    if |parts| == 1 {
      SplitNoSeparator(parts[0], sep);
    } else {
      SplitAtSeparator(parts[0], sep, Join(parts[1..], sep));
      SplitJoin(parts[1..], sep);
      assert [parts[0]] + parts[1..] == parts;
    }
  }
}
