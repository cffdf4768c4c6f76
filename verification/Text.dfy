/** Substring search, line splitting and trimming, shared by the stream reader and the managed-block injector. */
module Text {

  /** `m` occurs in `s` at position `i`. */
  predicate At(s: string, m: string, i: int) {
    0 <= i && i + |m| <= |s| && s[i..i + |m|] == m
  }

  ghost predicate Contains(s: string, m: string) {
    exists i :: At(s, m, i)
  }

  /** Position of the first occurrence at or after `k`, or -1. */
  function Find(s: string, m: string, k: nat): (i: int)
    requires k <= |s|
    ensures i == -1 || k <= i <= |s| - |m|
    decreases |s| - k
  {
    if At(s, m, k) then k else if k == |s| then -1 else Find(s, m, k + 1)
  }

  function IndexOf(s: string, m: string): (i: int)
    ensures i == -1 || 0 <= i <= |s| - |m|
  {
    Find(s, m, 0)
  }

  lemma {:induction false} FindFirst(s: string, m: string, k: nat)
    requires k <= |s|
    ensures var i := Find(s, m, k);
            && (i != -1 ==> At(s, m, i))
            && forall j :: k <= j && (i == -1 || j < i) ==> !At(s, m, j)
    decreases |s| - k
  {
    if !At(s, m, k) && k < |s| {
      FindFirst(s, m, k + 1);
    }
  }

  /** `IndexOf` is the first occurrence, and -1 exactly when there is none. */
  lemma IndexOfFirst(s: string, m: string)
    ensures var i := IndexOf(s, m);
            && (i == -1 <==> !Contains(s, m))
            && (i != -1 ==> At(s, m, i))
            && forall j :: 0 <= j < i ==> !At(s, m, j)
  {
    FindFirst(s, m, 0);
  }

  lemma IndexOfIs(s: string, m: string, i: nat)
    requires At(s, m, i)
    requires forall j :: 0 <= j < i ==> !At(s, m, j)
    ensures IndexOf(s, m) == i
  {
    FindFirst(s, m, 0);
  }

  /** Occurrences depend only on the characters they cover. */
  lemma AtPrefix(s: string, t: string, m: string, i: nat, n: nat)
    requires n <= |s| && n <= |t| && s[..n] == t[..n]
    requires i + |m| <= n
    ensures At(s, m, i) <==> At(t, m, i)
  {
    assert s[i..i + |m|] == s[..n][i..i + |m|];
    assert t[i..i + |m|] == t[..n][i..i + |m|];
  }

  lemma AtSuffix(s: string, t: string, m: string, i: nat)
    ensures At(s + t, m, |s| + i) <==> At(t, m, i)
  {
    if i + |m| <= |t| {
      assert (s + t)[|s| + i..|s| + i + |m|] == t[i..i + |m|];
    }
  }

  function Split(s: string, sep: char): (lines: seq<string>)
    ensures |lines| > 0
  {
    if s == [] then [""]
    else if s[0] == sep then [""] + Split(s[1..], sep)
    else
      var rest := Split(s[1..], sep);
      [[s[0]] + rest[0]] + rest[1..]
  }

  lemma {:induction false} SplitPlain(s: string, sep: char)
    requires sep !in s
    ensures Split(s, sep) == [s]
  {
    if s != [] {
      SplitPlain(s[1..], sep);
      assert [s[0]] + s[1..] == s;
    }
  }

  lemma {:induction false} SplitFirst(a: string, b: string, sep: char)
    requires sep !in a
    ensures Split(a + [sep] + b, sep) == [a] + Split(b, sep)
  {
    var s := a + [sep] + b;
    if a == [] {
      assert s[1..] == b;
    } else {
      assert s[1..] == a[1..] + [sep] + b;
      SplitFirst(a[1..], b, sep);
      assert [a[0]] + a[1..] == a;
      assert s[0] == a[0] != sep;
      var rest := Split(s[1..], sep);
      assert rest[0] == a[1..] && rest[1..] == Split(b, sep);
    }
  }

  function JoinBy(lines: seq<string>, sep: char): string {
    if lines == [] then "" else if |lines| == 1 then lines[0] else lines[0] + [sep] + JoinBy(lines[1..], sep)
  }

  /** The lines of a text hold no separator, and joined by it they are the text. */
  lemma {:induction false} SplitMeaning(s: string, sep: char)
    ensures JoinBy(Split(s, sep), sep) == s
    ensures forall i :: 0 <= i < |Split(s, sep)| ==> sep !in Split(s, sep)[i]
  {
    if s != [] {
      var lines, rest := Split(s, sep), Split(s[1..], sep);
      SplitMeaning(s[1..], sep);
      if s[0] == sep {
        assert lines[1..] == rest;
        assert JoinBy(lines, sep) == [sep] + s[1..];
      } else {
        assert lines[1..] == rest[1..];
        assert JoinBy(lines, sep) == [s[0]] + s[1..];
      }
    }
  }

  function TrimLeft(s: string, space: char -> bool): string {
    if s != [] && space(s[0]) then TrimLeft(s[1..], space) else s
  }

  function TrimRight(s: string, space: char -> bool): string {
    if s != [] && space(s[|s| - 1]) then TrimRight(s[..|s| - 1], space) else s
  }

  function TrimBy(s: string, space: char -> bool): string {
    TrimRight(TrimLeft(s, space), space)
  }

  ghost predicate AllSpace(s: string, space: char -> bool) {
    forall i :: 0 <= i < |s| ==> space(s[i])
  }

  /** `t` is `s` from `i` to `j`, and all the rest of `s` is space. */
  ghost predicate CutOut(s: string, space: char -> bool, i: int, j: int, t: string) {
    0 <= i <= j <= |s| && t == s[i..j] && AllSpace(s[..i], space) && AllSpace(s[j..], space)
  }

  lemma {:induction false} TrimLeftMeaning(s: string, space: char -> bool) returns (n: nat)
    ensures n <= |s| && TrimLeft(s, space) == s[n..] && AllSpace(s[..n], space)
    ensures n < |s| ==> !space(s[n])
    decreases |s|
  {
    if s != "" && space(s[0]) {
      var k := TrimLeftMeaning(s[1..], space);
      n := k + 1;
      assert s[..n] == [s[0]] + s[1..][..k];
    } else {
      n := 0;
    }
  }

  lemma {:induction false} TrimRightMeaning(s: string, space: char -> bool) returns (n: nat)
    ensures n <= |s| && TrimRight(s, space) == s[..n] && AllSpace(s[n..], space)
    ensures n > 0 ==> !space(s[n - 1])
    decreases |s|
  {
    if s != "" && space(s[|s| - 1]) {
      var r := s[..|s| - 1];
      n := TrimRightMeaning(r, space);
      assert s[n..] == r[n..] + [s[|s| - 1]];
    } else {
      n := |s|;
    }
  }

  /** Trimming takes white space from both ends, all of it, and nothing else. */
  lemma TrimMeaning(s: string, space: char -> bool)
    ensures exists i, j :: CutOut(s, space, i, j, TrimBy(s, space))
    ensures var t := TrimBy(s, space); t == "" || (!space(t[0]) && !space(t[|t| - 1]))
  {
    var l := TrimLeft(s, space);
    var i := TrimLeftMeaning(s, space);
    var n := TrimRightMeaning(l, space);
    assert l[..n] == s[i..i + n] && l[n..] == s[i + n..];
    assert CutOut(s, space, i, i + n, TrimBy(s, space));
  }

  /** The white space and line terminators that JavaScript's `trim` removes. */
  predicate JsSpace(c: char) {
    || '\t' <= c <= '\r' || c == ' ' || c == '\U{a0}' || c == '\U{1680}'
    || '\U{2000}' <= c <= '\U{200a}' || c == '\U{2028}' || c == '\U{2029}' || c == '\U{202f}'
    || c == '\U{205f}' || c == '\U{3000}' || c == '\U{feff}'
  }

  /** The white space that Python's `strip` removes. */
  predicate PySpace(c: char) {
    || '\t' <= c <= '\r' || '\U{1c}' <= c <= ' ' || c == '\U{85}' || c == '\U{a0}' || c == '\U{1680}'
    || '\U{2000}' <= c <= '\U{200a}' || c == '\U{2028}' || c == '\U{2029}' || c == '\U{202f}'
    || c == '\U{205f}' || c == '\U{3000}'
  }
}
