/** Python string behaviour the application relies on: what counts as whitespace
    (for `str.strip` and for the regular-expression class `\s`), the substring
    test `w in s`, `str.startswith`, `str.strip` and `str.lower`. */
module Text {

  /** Python's `str.isspace`; the class `\s` of a str pattern matches exactly these characters. */
  predicate IsSpace(c: char) {
    ('\t' <= c <= '\r') || ('\U{1c}' <= c <= ' ') || c == '\U{85}' || c == '\U{a0}' || c == '\U{1680}'
    || ('\U{2000}' <= c <= '\U{200a}') || c == '\U{2028}' || c == '\U{2029}' || c == '\U{202f}'
    || c == '\U{205f}' || c == '\U{3000}'
  }

  predicate AllSpace(s: string) {
    forall i :: 0 <= i < |s| ==> IsSpace(s[i])
  }

  /** `s.startswith(w)`. */
  predicate StartsWith(s: string, w: string) {
    |w| <= |s| && s[..|w|] == w
  }

  /** `w in s` on strings: `w` occurs in `s` as a contiguous run. */
  predicate Contains(s: string, w: string)
    decreases |s|
  {
    StartsWith(s, w) || (s != [] && Contains(s[1..], w))
  }

  /** Whatever surrounds it, a text contains itself. */
  lemma {:induction false} ContainsInfix(a: string, w: string, b: string)
    ensures Contains(a + w + b, w)
    decreases |a|
  {
    if a == [] {
      assert (a + w + b)[..|w|] == w;
    } else {
      assert (a + w + b)[1..] == a[1..] + w + b;
      ContainsInfix(a[1..], w, b);
    }
  }

  /** A text lacking the first character of `w` cannot contain `w`. */
  lemma {:induction false} NotContainsWithoutFirst(s: string, w: string)
    requires w != [] && w[0] !in s
    ensures !Contains(s, w)
    decreases |s|
  {
    if |w| <= |s| {
      assert s[..|w|][0] == s[0];
    }
    if s != [] {
      assert forall c :: c in s[1..] ==> c in s;
      NotContainsWithoutFirst(s[1..], w);
    }
  }

  /** No occurrence of `w` (at least three characters long) can begin inside `p`,
      judged from the first three characters of `w` alone. */
  predicate NoStartWithin(p: string, w: string)
    requires |w| >= 3
  {
    forall k :: 0 <= k < |p| && p[k] == w[0] ==> k + 2 < |p| && (p[k + 1] != w[1] || p[k + 2] != w[2])
  }

  /** Putting such a `p` in front of `s` neither creates nor hides an occurrence of `w`. */
  lemma {:induction false} ContainsAfter(p: string, s: string, w: string)
    requires |w| >= 3 && NoStartWithin(p, w)
    ensures Contains(p + s, w) <==> Contains(s, w)
    decreases |p|
  {
    if p == [] {
      assert p + s == s;
    } else {
      assert (p + s)[1..] == p[1..] + s;
      if |w| <= |p + s| {
        var head := (p + s)[..|w|];
        if p[0] == w[0] {
          assert head[1] != w[1] || head[2] != w[2];
        } else {
          assert head[0] != w[0];
        }
      }
      ContainsAfter(p[1..], s, w);
    }
  }

  /** `s.lstrip()`. */
  function TrimStart(s: string): string
    decreases |s|
  {
    if s != [] && IsSpace(s[0]) then TrimStart(s[1..]) else s
  }

  /** `s.rstrip()`. */
  function TrimEnd(s: string): string
    decreases |s|
  {
    if s != [] && IsSpace(s[|s| - 1]) then TrimEnd(s[..|s| - 1]) else s
  }

  /** `s.strip()`. */
  function Strip(s: string): string {
    TrimEnd(TrimStart(s))
  }

  /** `lstrip` removes exactly the longest all-whitespace prefix. */
  lemma {:induction false} TrimStartSpec(s: string)
    ensures var r := TrimStart(s);
      |r| <= |s| && r == s[|s| - |r|..] && AllSpace(s[..|s| - |r|]) && (r == [] || !IsSpace(r[0]))
    decreases |s|
  {
    if s != [] && IsSpace(s[0]) {
      TrimStartSpec(s[1..]);
      var r := TrimStart(s[1..]);
      assert s[..|s| - |r|] == [s[0]] + s[1..][..|s| - 1 - |r|];
    }
  }

  /** `rstrip` removes exactly the longest all-whitespace suffix. */
  lemma {:induction false} TrimEndSpec(s: string)
    ensures var r := TrimEnd(s);
      |r| <= |s| && r == s[..|r|] && AllSpace(s[|r|..]) && (r == [] || !IsSpace(r[|r| - 1]))
    decreases |s|
  {
    if s != [] && IsSpace(s[|s| - 1]) {
      TrimEndSpec(s[..|s| - 1]);
      var r := TrimEnd(s[..|s| - 1]);
      assert s[|r|..] == s[..|s| - 1][|r|..] + [s[|s| - 1]];
    }
  }

  /** `strip` keeps a contiguous piece of `s` that neither starts nor ends with
      whitespace, cutting only whitespace away on either side; it is empty exactly
      when `s` is all whitespace. */
  lemma StripSpec(s: string)
    ensures |TrimStart(s)| <= |s|
    ensures var r, k := Strip(s), |s| - |TrimStart(s)|;
      k + |r| <= |s| && r == s[k..k + |r|] && AllSpace(s[..k]) && AllSpace(s[k + |r|..])
      && (r == [] || (!IsSpace(r[0]) && !IsSpace(r[|r| - 1])))
      && (r == [] <==> AllSpace(s))
  {
    var t := TrimStart(s);
    var r := TrimEnd(t);
    var k := |s| - |t|;
    TrimStartSpec(s);
    TrimEndSpec(t);
    assert s[k + |r|..] == t[|r|..];
    if r == [] {
      assert s == s[..k];
    } else {
      assert s[k] == r[0];
    }
  }

  function LowerChar(c: char): char {
    if 'A' <= c <= 'Z' then (c as int + 32) as char else c
  }

  /** `s.lower()`, restricted to the ASCII letters (see README). */
  function Lower(s: string): (r: string)
    ensures |r| == |s|
    ensures forall i :: 0 <= i < |s| ==> r[i] == LowerChar(s[i])
  {
    seq(|s|, i requires 0 <= i < |s| => LowerChar(s[i]))
  }

  /** Lower-casing works character by character, so it distributes over appending one. */
  lemma LowerSnoc(s: string, c: char)
    ensures Lower(s + [c]) == Lower(s) + [LowerChar(c)]
  {
  }

  /** Lower-casing twice changes nothing more. */
  lemma LowerIdempotent(s: string)
    ensures Lower(Lower(s)) == Lower(s)
  {
    forall i | 0 <= i < |s| ensures LowerChar(LowerChar(s[i])) == LowerChar(s[i]) {
    }
  }

  /** Lower-cased text holds no capital letter, in particular no `F`. */
  lemma LowerHasNoCapitalF(s: string)
    ensures 'F' !in Lower(s)
  {
    var r := Lower(s);
    forall i | 0 <= i < |r| ensures r[i] != 'F' {
      assert r[i] == LowerChar(s[i]);
    }
  }
}
