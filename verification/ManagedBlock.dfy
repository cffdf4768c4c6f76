/**
 The managed block that `init` keeps in AGENTS.md and CLAUDE.md. Injecting a block is the "put" of a lens
 whose "get" is the text between the first start marker and the first end marker; the laws are proved for
 any two markers of the right kind, then for the two blocks the program writes.
 */
module ManagedBlock {
  import opened Text

  /**
   The kind of marker pair the laws need: a first character that occurs nowhere else in either marker,
   neither a prefix of the other, and each on one line.
   */
  ghost predicate Markers(s: string, e: string) {
    && |s| > 0 && |e| > 0 && s[0] == e[0]
    && s[0] !in s[1..] && e[0] !in e[1..]
    && !(s <= e) && !(e <= s)
    && '\n' !in s && '\n' !in e
  }

  datatype Action = Created | Unchanged | Updated

  datatype File = Missing | Present(text: string)

  datatype Injection = Injection(file: File, action: Action)

  /** Python's slice: empty when the bounds cross. */
  function Slice(c: string, i: nat, j: nat): string
    requires i <= |c| && j <= |c|
  {
    if i <= j then c[i..j] else ""
  }

  function InjectText(c: string, b: string, s: string, e: string): (r: Injection) {
    var i, j := IndexOf(c, s), IndexOf(c, e);
    if i != -1 && j != -1 then
      var k := j + |e|;
      if Slice(c, i, k) == b then Injection(Present(c), Unchanged)
      else Injection(Present(c[..i] + b + c[k..]), Updated)
    else Injection(Present(b + "\n\n" + c), Updated)
  }

  function Inject(f: File, b: string, s: string, e: string): (r: Injection) {
    match f
    case Missing => Injection(Present(b + "\n"), Created)
    case Present(c) => InjectText(c, b, s, e)
  }

  // ---------------------------------------------------------------------------
  // Occurrences of the markers

  lemma Covered(t: string, m: string, k: nat)
    requires At(t, m, k)
    ensures forall q :: k <= q < k + |m| ==> t[q] == m[q - k]
  {
    assert forall q :: k <= q < k + |m| ==> t[k..k + |m|][q - k] == t[q];
  }

  lemma NotInside(t: string, m: string, k: nat, p: int)
    requires |m| > 0 && m[0] !in m[1..]
    requires At(t, m, k) && k < p < |t| && t[p] == m[0]
    ensures k + |m| <= p
  {
    Covered(t, m, k);
    assert forall r :: 0 < r < |m| ==> m[r] == m[1..][r - 1];
  }

  lemma OnOneLine(t: string, m: string, k: nat, p: int)
    requires '\n' !in m && At(t, m, k) && k <= p < |t| && t[p] == '\n'
    ensures k + |m| <= p
  {
    Covered(t, m, k);
  }

  /** Ahead of a position that holds the markers' first character, a marker lies entirely in the text before it. */
  lemma AheadOfMarker(pre: string, rest: string, m: string, k: nat)
    requires |m| > 0 && m[0] !in m[1..]
    requires |rest| > 0 && rest[0] == m[0]
    requires At(pre + rest, m, k) && k < |pre|
    ensures At(pre, m, k)
  {
    NotInside(pre + rest, m, k, |pre|);
    AtPrefix(pre + rest, pre, m, k, |pre|);
  }

  /** A block: both markers on lines of their own around a body. */
  function Block(body: string, s: string, e: string): string {
    s + "\n" + body + "\n" + e
  }

  lemma FirstStart(pre: string, b: string, post: string, s: string)
    requires |s| > 0 && s[0] !in s[1..] && s <= b
    requires !Contains(pre, s)
    ensures IndexOf(pre + b + post, s) == |pre|
  {
    var t := pre + b + post;
    assert t == pre + (b + post);
    assert t[|pre|..|pre| + |s|] == b[..|s|] == s;
    forall k | 0 <= k < |pre|
      ensures !At(t, s, k)
    {
      if At(t, s, k) {
        AheadOfMarker(pre, b + post, s, k);
      }
    }
    IndexOfIs(t, s, |pre|);
  }

  lemma NoEndBefore(body: string, rest: string, s: string, e: string, k: nat)
    requires Markers(s, e) && !Contains(body, e)
    requires k < |s| + 1 + |body| + 1
    ensures !At(s + "\n" + body + "\n" + rest, e, k)
  {
    var t := s + "\n" + body + "\n" + rest;
    var p := |s| + 1 + |body|;
    assert t[|s|] == '\n' && t[p] == '\n' && t[..|s|] == s;
    assert forall q :: 0 < q < |s| ==> t[q] == s[1..][q - 1];
    if At(t, e, k) {
      Covered(t, e, k);
      if |s| < k {
        OnOneLine(t, e, k, p);
        assert t == (s + "\n") + (body + ("\n" + rest));
        AtSuffix(s + "\n", body + ("\n" + rest), e, k - |s| - 1);
        AtPrefix(body + ("\n" + rest), body, e, k - |s| - 1, |body|);
      } else if k == 0 {
        OnOneLine(t, e, k, |s|);
      }
    }
  }

  lemma NoEarlierEnd(pre: string, body: string, post: string, s: string, e: string, k: nat)
    requires Markers(s, e) && !Contains(pre, e) && !Contains(body, e)
    requires k < |pre| + |Block(body, s, e)| - |e|
    ensures !At(pre + Block(body, s, e) + post, e, k)
  {
    var b := Block(body, s, e);
    var rest := s + "\n" + body + "\n" + (e + post);
    assert b + post == rest;
    assert pre + b + post == pre + rest;
    if k < |pre| {
      if At(pre + rest, e, k) { AheadOfMarker(pre, rest, e, k); }
    } else {
      AtSuffix(pre, rest, e, k - |pre|);
      NoEndBefore(body, e + post, s, e, k - |pre|);
    }
  }

  lemma FirstEnd(pre: string, body: string, post: string, s: string, e: string)
    requires Markers(s, e) && !Contains(pre, e) && !Contains(body, e)
    ensures IndexOf(pre + Block(body, s, e) + post, e) == |pre| + |Block(body, s, e)| - |e|
  {
    var b := Block(body, s, e);
    var t := pre + b + post;
    var q := |pre| + |b| - |e|;
    assert t[q..q + |e|] == e;
    forall k | 0 <= k < q
      ensures !At(t, e, k)
    {
      NoEarlierEnd(pre, body, post, s, e, k);
    }
    IndexOfIs(t, e, q);
  }

  // ---------------------------------------------------------------------------
  // The lens

  /** The first start marker does not come after the first end marker. */
  predicate WellPlaced(f: File, s: string, e: string) {
    match f
    case Missing => true
    case Present(c) => IndexOf(c, s) == -1 || IndexOf(c, e) == -1 || IndexOf(c, s) < IndexOf(c, e)
  }

  /** The text before and after the block, as the injector will keep it. */
  function Outside(f: File, s: string, e: string): (r: (string, string)) {
    match f
    case Missing => ("", "\n")
    case Present(c) =>
      var i, j := IndexOf(c, s), IndexOf(c, e);
      if i != -1 && j != -1 then (c[..i], c[j + |e|..]) else ("", "\n\n" + c)
  }

  lemma OutsideHasNoMarker(f: File, s: string, e: string)
    requires Markers(s, e) && WellPlaced(f, s, e)
    ensures !Contains(Outside(f, s, e).0, s) && !Contains(Outside(f, s, e).0, e)
  {
    var pre := Outside(f, s, e).0;
    forall k
      ensures !At(pre, s, k) && !At(pre, e, k)
    {
      if f.Present? && 0 <= k {
        var c := f.text;
        IndexOfFirst(c, s);
        IndexOfFirst(c, e);
        if k + |s| <= |pre| { AtPrefix(pre, c, s, k, |pre|); }
        if k + |e| <= |pre| { AtPrefix(pre, c, e, k, |pre|); }
      }
    }
  }

  /** Injecting puts the block between the text that was outside it, and changes nothing else. */
  lemma InjectedText(f: File, b: string, s: string, e: string)
    requires b != ""
    ensures var (pre, post) := Outside(f, s, e);
            Inject(f, b, s, e).file == Present(pre + b + post)
  {
    if f.Present? {
      var c := f.text;
      var i, j := IndexOf(c, s), IndexOf(c, e);
      if i != -1 && j != -1 {
        if Slice(c, i, j + |e|) == b { assert c == c[..i] + c[i..j + |e|] + c[j + |e|..]; }
      } else {
        assert "" + b + ("\n\n" + c) == b + "\n\n" + c;
      }
    }
  }

  /** A file without a block gets one: alone if there is no file, else before all its text. */
  lemma NewBlockPlaced(f: File, b: string, s: string, e: string)
    ensures f == Missing ==> Inject(f, b, s, e) == Injection(Present(b + "\n"), Created)
    ensures f.Present? && (!Contains(f.text, s) || !Contains(f.text, e)) ==>
              Inject(f, b, s, e) == Injection(Present(b + "\n\n" + f.text), Updated)
  {
    if f.Present? {
      IndexOfFirst(f.text, s);
      IndexOfFirst(f.text, e);
    }
  }

  lemma ThreePieces(pre: string, b: string, post: string)
    ensures var t := pre + b + post;
            t[..|pre|] == pre && t[|pre|..|pre| + |b|] == b && t[|pre| + |b|..] == post
  {
  }

  /** After injecting, the block is there, what is outside it is as before, and the markers are in order. */
  lemma PutGet(f: File, body: string, s: string, e: string)
    requires Markers(s, e) && WellPlaced(f, s, e) && !Contains(body, e)
    ensures var b := Block(body, s, e);
            var g := Inject(f, b, s, e).file;
            && g.Present? && WellPlaced(g, s, e)
            && Outside(g, s, e) == Outside(f, s, e)
            && IndexOf(g.text, s) != -1 && IndexOf(g.text, e) != -1
            && Slice(g.text, IndexOf(g.text, s), IndexOf(g.text, e) + |e|) == b
  {
    var b := Block(body, s, e);
    var (pre, post) := Outside(f, s, e);
    OutsideHasNoMarker(f, s, e);
    InjectedText(f, b, s, e);
    FirstStart(pre, b, post, s);
    FirstEnd(pre, body, post, s, e);
    ThreePieces(pre, b, post);
  }

  // ---------------------------------------------------------------------------
  // Exactly when a second injection leaves the file alone

  lemma NotBoth(c: string, s: string, e: string, i: nat)
    requires !(s <= e) && !(e <= s) && At(c, s, i)
    ensures !At(c, e, i)
  {
    if i + |e| <= |c| {
      if |s| <= |e| {
        assert c[i..i + |e|][..|s|] == c[i..i + |s|];
      } else {
        assert c[i..i + |s|][..|e|] == c[i..i + |e|];
      }
    }
  }

  lemma MarkersApart(c: string, s: string, e: string)
    requires Markers(s, e) && !WellPlaced(Present(c), s, e)
    ensures 0 <= IndexOf(c, e) && IndexOf(c, e) + |e| <= IndexOf(c, s)
  {
    var i, j := IndexOf(c, s), IndexOf(c, e);
    IndexOfFirst(c, s);
    IndexOfFirst(c, e);
    NotBoth(c, s, e, i);
    Covered(c, s, i);
    NotInside(c, e, j, i);
  }

  lemma PrefixKeepsFirst(c: string, t: string, m: string, n: nat)
    requires n <= |c| && n <= |t| && c[..n] == t[..n]
    requires 0 <= IndexOf(c, m) && IndexOf(c, m) + |m| <= n
    ensures IndexOf(t, m) == IndexOf(c, m)
  {
    IndexOfFirst(c, m);
    forall k | 0 <= k <= IndexOf(c, m)
      ensures At(t, m, k) <==> At(c, m, k)
    {
      AtPrefix(t, c, m, k, n);
    }
    IndexOfIs(t, m, IndexOf(c, m));
  }

  lemma BeforeFirst(c: string, m: string)
    requires |m| > 0 && IndexOf(c, m) != -1
    ensures !Contains(c[..IndexOf(c, m)], m)
  {
    var pre := c[..IndexOf(c, m)];
    IndexOfFirst(c, m);
    forall k
      ensures !At(pre, m, k)
    {
      if 0 <= k && k + |m| <= |pre| { AtPrefix(pre, c, m, k, |pre|); }
    }
  }

  lemma CrossedStaysCrossed(c: string, b: string, s: string, e: string)
    requires Markers(s, e) && s <= b && !WellPlaced(Present(c), s, e)
    ensures var r := Inject(Present(c), b, s, e);
            && r.action == Updated
            && !WellPlaced(r.file, s, e)
            && |r.file.text| >= |c| + |b|
  {
    var i, j := IndexOf(c, s), IndexOf(c, e);
    MarkersApart(c, s, e);
    var pre, post := c[..i], c[j + |e|..];
    var t := pre + b + post;
    PrefixKeepsFirst(c, t, e, i);
    BeforeFirst(c, s);
    FirstStart(pre, b, post, s);
    assert b != "";
  }

  lemma EarlyEnd(pre: string, body: string, post: string, s: string, e: string)
    requires Markers(s, e) && Contains(body, e)
    ensures var b := Block(body, s, e);
            0 <= IndexOf(pre + b + post, e) < |pre| + |b| - |e|
  {
    var b := Block(body, s, e);
    var t := pre + b + post;
    var r :| At(body, e, r);
    var k := |pre| + |s| + 1 + r;
    assert t[k..k + |e|] == body[r..r + |e|];
    assert At(t, e, k);
    IndexOfFirst(t, e);
    assert Contains(t, e);
  }

  lemma CutNotFound(f: File, body: string, s: string, e: string)
    requires Markers(s, e) && WellPlaced(f, s, e) && Contains(body, e)
    ensures var b := Block(body, s, e); Inject(Inject(f, b, s, e).file, b, s, e).action != Unchanged
  {
    var b := Block(body, s, e);
    var (pre, post) := Outside(f, s, e);
    OutsideHasNoMarker(f, s, e);
    InjectedText(f, b, s, e);
    FirstStart(pre, b, post, s);
    EarlyEnd(pre, body, post, s, e);
  }

  lemma CrossedNotFound(c: string, b: string, s: string, e: string)
    requires Markers(s, e) && s <= b && !WellPlaced(Present(c), s, e)
    ensures Inject(Inject(Present(c), b, s, e).file, b, s, e).action != Unchanged
  {
    CrossedStaysCrossed(c, b, s, e);
    CrossedStaysCrossed(Inject(Present(c), b, s, e).file.text, b, s, e);
  }

  /** A second injection of the same block finds nothing to do iff the markers were in order and the body has no end
      marker. */
  lemma IdempotentExactly(f: File, body: string, s: string, e: string)
    requires Markers(s, e)
    ensures var b := Block(body, s, e);
            Inject(Inject(f, b, s, e).file, b, s, e).action == Unchanged
            <==> WellPlaced(f, s, e) && !Contains(body, e)
  {
    if !WellPlaced(f, s, e) {
      CrossedNotFound(f.text, Block(body, s, e), s, e);
    } else if Contains(body, e) {
      CutNotFound(f, body, s, e);
    } else {
      PutGet(f, body, s, e);
    }
  }

  lemma PutPutHolds(f: File, body1: string, body2: string, s: string, e: string)
    requires Markers(s, e) && WellPlaced(f, s, e) && !Contains(body1, e)
    ensures Inject(Inject(f, Block(body1, s, e), s, e).file, Block(body2, s, e), s, e).file
            == Inject(f, Block(body2, s, e), s, e).file
  {
    var g := Inject(f, Block(body1, s, e), s, e).file;
    PutGet(f, body1, s, e);
    InjectedText(f, Block(body2, s, e), s, e);
    InjectedText(g, Block(body2, s, e), s, e);
  }

  lemma CrossedPlaces(c: string, b: string, s: string, e: string)
    requires Markers(s, e) && s <= b && !WellPlaced(Present(c), s, e)
    ensures var i, j := IndexOf(c, s), IndexOf(c, e);
            var t := c[..i] + b + c[j + |e|..];
            0 <= j && 0 <= i && IndexOf(t, s) == i && IndexOf(t, e) == j
  {
    var i, j := IndexOf(c, s), IndexOf(c, e);
    MarkersApart(c, s, e);
    PrefixKeepsFirst(c, c[..i] + b + c[j + |e|..], e, i);
    BeforeFirst(c, s);
    FirstStart(c[..i], b, c[j + |e|..], s);
  }

  lemma CrossedLength(c: string, b: string, s: string, e: string)
    requires Markers(s, e) && s <= b && !WellPlaced(Present(c), s, e)
    ensures var r := Inject(Present(c), b, s, e).file;
            && r.Present? && !WellPlaced(r, s, e) && |r.text| == |c| + |b| + IndexOf(c, s) - IndexOf(c, e) - |e|
            && IndexOf(r.text, s) == IndexOf(c, s) && IndexOf(r.text, e) == IndexOf(c, e)
            && |r.text| > |c|
  {
    MarkersApart(c, s, e);
    CrossedStaysCrossed(c, b, s, e);
    CrossedPlaces(c, b, s, e);
  }

  /** With the end marker first, the second block is inserted into a text that has grown. */
  lemma PutPutCrossed(c: string, b1: string, b2: string, s: string, e: string)
    requires Markers(s, e) && s <= b1 && s <= b2 && !WellPlaced(Present(c), s, e)
    ensures Inject(Inject(Present(c), b1, s, e).file, b2, s, e).file != Inject(Present(c), b2, s, e).file
  {
    CrossedLength(c, b1, s, e);
    CrossedLength(c, b2, s, e);
    CrossedLength(Inject(Present(c), b1, s, e).file.text, b2, s, e);
  }

  /** An end marker in the first body leaves the rest of that body behind. */
  lemma PutPutCut(pre: string, body1: string, post: string, b2: string, s: string, e: string)
    requires Markers(s, e) && Contains(body1, e) && s <= b2 && !Contains(pre, s) && !Contains(pre, e)
    ensures var t := pre + Block(body1, s, e) + post;
            Inject(Present(t), b2, s, e).file != Present(pre + b2 + post)
  {
    var b1 := Block(body1, s, e);
    var t := pre + b1 + post;
    FirstStart(pre, b1, post, s);
    EarlyEnd(pre, body1, post, s, e);
    var j := IndexOf(t, e);
    if Slice(t, |pre|, j + |e|) == b2 {
      assert |b2| < |b1|;
    }
    assert |Inject(Present(t), b2, s, e).file.text| > |pre + b2 + post|;
  }

  /** A second injection wins completely, as if the first had not been, iff the markers were in order and the first
      body has no end marker. */
  lemma PutPutExactly(f: File, body1: string, body2: string, s: string, e: string)
    requires Markers(s, e)
    ensures Inject(Inject(f, Block(body1, s, e), s, e).file, Block(body2, s, e), s, e).file
            == Inject(f, Block(body2, s, e), s, e).file
            <==> WellPlaced(f, s, e) && !Contains(body1, e)
  {
    var b1, b2 := Block(body1, s, e), Block(body2, s, e);
    if !WellPlaced(f, s, e) {
      PutPutCrossed(f.text, b1, b2, s, e);
    } else if Contains(body1, e) {
      var (pre, post) := Outside(f, s, e);
      OutsideHasNoMarker(f, s, e);
      InjectedText(f, b1, s, e);
      InjectedText(f, b2, s, e);
      PutPutCut(pre, body1, post, b2, s, e);
    } else {
      PutPutHolds(f, body1, body2, s, e);
    }
  }

  // ---------------------------------------------------------------------------
  // On disk: reading a file turns every line end into a newline

  /** The characters that the first character read stands for. */
  function First(raw: string): nat
    requires raw != ""
    ensures 1 <= First(raw) <= |raw|
  {
    if raw[0] == '\r' && |raw| > 1 && raw[1] == '\n' then 2 else 1
  }

  function Translated(raw: string): string {
    if raw == "" then "" else [if raw[0] == '\r' then '\n' else raw[0]] + Translated(raw[First(raw)..])
  }

  function ReadText(f: File): File {
    match f
    case Missing => Missing
    case Present(raw) => Present(Translated(raw))
  }

  /** Nothing is written if the block is there already. */
  function InjectFile(f: File, b: string, s: string, e: string): Injection {
    var r := Inject(ReadText(f), b, s, e);
    if r.action == Unchanged then Injection(f, Unchanged) else r
  }

  /** Both kinds of line end become one newline; every other character stays. */
  lemma LineEnds(c: char, rest: string)
    ensures Translated("") == ""
    ensures Translated("\r\n" + rest) == "\n" + Translated(rest)
    ensures rest == "" || rest[0] != '\n' ==> Translated("\r" + rest) == "\n" + Translated(rest)
    ensures c != '\r' ==> Translated([c] + rest) == [c] + Translated(rest)
  {
    assert ("\r\n" + rest)[2..] == rest && ("\r" + rest)[1..] == rest && ([c] + rest)[1..] == rest;
  }

  lemma {:induction false} TranslatedClean(raw: string)
    ensures '\r' !in Translated(raw)
  {
    if raw != "" { TranslatedClean(raw[First(raw)..]); }
  }

  lemma {:induction false} CleanTranslated(t: string)
    requires '\r' !in t
    ensures Translated(t) == t
  {
    if t != "" {
      CleanTranslated(t[1..]);
      assert [t[0]] + t[1..] == t;
    }
  }

  lemma {:induction false} TranslatedConcat(a: string, b: string)
    requires a == "" || b == "" || a[|a| - 1] != '\r' || b[0] != '\n'
    ensures Translated(a + b) == Translated(a) + Translated(b)
    decreases |a|
  {
    if a == "" {
      assert a + b == b;
    } else {
      var k := First(a);
      assert First(a + b) == k;
      assert (a + b)[k..] == a[k..] + b;
      TranslatedConcat(a[k..], b);
    }
  }

  /** A text with clean ends is translated in the middle only. */
  lemma TranslatedMiddle(x: string, d: string, y: string)
    requires '\r' !in x && '\r' !in y && y != "" && y[0] != '\n'
    ensures Translated(x + d + y) == x + Translated(d) + y
  {
    CleanTranslated(x);
    CleanTranslated(y);
    TranslatedConcat(x, d);
    TranslatedConcat(x + d, y);
  }

  predicate OnOneLineOnly(m: string) {
    '\n' !in m && '\r' !in m && m != ""
  }

  lemma {:induction false} TranslatedPrefix(raw: string, m: string)
    requires '\n' !in m && '\r' !in m
    ensures m <= Translated(raw) <==> m <= raw
  {
    if raw != "" && m != "" && raw[0] == m[0] {
      TranslatedPrefix(raw[1..], m[1..]);
      PrefixTail(m, raw);
      PrefixTail(m, Translated(raw));
      assert Translated(raw)[1..] == Translated(raw[1..]);
    }
  }

  lemma PrefixTail(m: string, t: string)
    requires m != "" && t != "" && m[0] == t[0]
    ensures m <= t <==> m[1..] <= t[1..]
  {
    if m[1..] <= t[1..] { assert forall i :: 1 <= i < |m| ==> m[i] == m[1..][i - 1] == t[1..][i - 1] == t[i]; }
    if m <= t { assert forall i :: 0 <= i < |m| - 1 ==> m[1..][i] == m[i + 1] == t[i + 1] == t[1..][i]; }
  }

  lemma ContainsHead(t: string, m: string)
    requires t != "" && m != ""
    ensures Contains(t, m) <==> m <= t || Contains(t[1..], m)
  {
    var head := [t[0]];
    assert t == head + t[1..];
    forall k | At(t, m, k)
      ensures m <= t || At(t[1..], m, k - 1)
    {
      if k > 0 { AtSuffix(head, t[1..], m, k - 1); }
    }
    forall k | At(t[1..], m, k)
      ensures At(t, m, k + 1)
    {
      AtSuffix(head, t[1..], m, k);
    }
    assert m <= t ==> At(t, m, 0);
  }

  /** Translating line ends neither makes nor breaks a text that lies on one line. */
  lemma {:induction false} TranslatedContains(raw: string, m: string)
    requires OnOneLineOnly(m)
    ensures Contains(Translated(raw), m) <==> Contains(raw, m)
  {
    if raw != "" {
      TranslatedPrefix(raw, m);
      ContainsHead(raw, m);
      ContainsHead(Translated(raw), m);
      TranslatedContains(raw[First(raw)..], m);
      assert Translated(raw)[1..] == Translated(raw[First(raw)..]);
      if First(raw) == 2 {
        assert raw[1..][0] == '\n' && raw[1..][1..] == raw[2..];
        ContainsHead(raw[1..], m);
      }
    }
  }

  /** What is read after an injection is what injecting into the text read before gives. */
  lemma ReadInjected(f: File, b: string, s: string, e: string)
    requires '\r' !in b
    ensures ReadText(InjectFile(f, b, s, e).file) == Inject(ReadText(f), b, s, e).file
  {
    var r := Inject(ReadText(f), b, s, e);
    if f.Present? { TranslatedClean(f.text); }
    assert '\r' !in r.file.text;
    CleanTranslated(r.file.text);
  }

  /** A block with a carriage return is never found again. */
  lemma NeverFound(f: File, b: string, s: string, e: string)
    requires '\r' in b
    ensures InjectFile(f, b, s, e).action != Unchanged
  {
    if f.Present? { TranslatedClean(f.text); }
  }

  lemma BlockClean(body: string, s: string, e: string)
    requires '\r' !in s && '\r' !in e
    ensures '\r' in Block(body, s, e) <==> '\r' in body
  {
    var b := Block(body, s, e);
    assert forall i :: 0 <= i < |body| ==> b[|s| + 1 + i] == body[i];
  }

  /** On disk a carriage return in the body matters as well. */
  lemma FileIdempotentExactly(f: File, body: string, s: string, e: string)
    requires Markers(s, e) && '\r' !in s && '\r' !in e
    ensures var b := Block(body, s, e);
            InjectFile(InjectFile(f, b, s, e).file, b, s, e).action == Unchanged
            <==> WellPlaced(ReadText(f), s, e) && !Contains(body, e) && '\r' !in body
  {
    var b := Block(body, s, e);
    BlockClean(body, s, e);
    if '\r' in body {
      NeverFound(InjectFile(f, b, s, e).file, b, s, e);
    } else {
      ReadInjected(f, b, s, e);
      IdempotentExactly(ReadText(f), body, s, e);
    }
  }

  lemma FileOutside(f: File, body: string, s: string, e: string)
    requires Markers(s, e) && '\r' !in s && '\r' !in e && '\r' !in body
    requires WellPlaced(ReadText(f), s, e) && !Contains(body, e)
    ensures var g := ReadText(InjectFile(f, Block(body, s, e), s, e).file);
            WellPlaced(g, s, e) && Outside(g, s, e) == Outside(ReadText(f), s, e)
  {
    BlockClean(body, s, e);
    ReadInjected(f, Block(body, s, e), s, e);
    PutGet(ReadText(f), body, s, e);
  }

  // ---------------------------------------------------------------------------
  // The blocks the program writes

  const MARKER_START: string := "<!-- @cpt:root-agents -->"
  const MARKER_END: string := "<!-- /@cpt:root-agents -->"

  lemma ProgramMarkers()
    ensures Markers(MARKER_START, MARKER_END)
  {
    assert forall i :: 0 < i < |MARKER_START| ==> MARKER_START[i] != '<';
    assert forall i :: 0 < i < |MARKER_END| ==> MARKER_END[i] != '<';
    assert MARKER_START[5] == '@' && MARKER_END[5] == '/';
    assert forall i :: 0 <= i < |MARKER_START| ==> MARKER_START[i] != '\n';
    assert forall i :: 0 <= i < |MARKER_END| ==> MARKER_END[i] != '\n';
  }

  const TITLE: string := "## Cypilot AI Agent Navigation\n\n"
  const REMEMBER: string := "**Remember these variables "
  const IN_PROJECT: string := "while working in this project:**\n\n"
  const VARIABLE: string := "```toml\ncypilot_path = "
  const RULES: string := "\n```\n\n## Navigation Rules\n\n"
  const OPEN: string := "ALWAYS open and follow `{cypilot_path}"
  const GENERATED: string := "/.gen/AGENTS.md` FIRST\n\n"
  const CONFIGURED: string := "/config/AGENTS.md` FIRST\n\n"
  const INVOKE: string := "ALWAYS invoke `{cypilot_path}/.core/skills"
  const SKILL: string := "/cypilot/SKILL.md` WHEN user asks "
  const ANYTHING: string := "to do something with Cypilot\n"
  const STOP: string := "STOP and READ `AGENTS.md` in project root "
  const BEFORE: string := "before ANY tool calls or skill invocation"

  function AgentsHead(): string {
    TITLE + REMEMBER + IN_PROJECT + VARIABLE
  }

  function AgentsTail(): string {
    RULES + OPEN + GENERATED + OPEN + CONFIGURED + INVOKE + SKILL + ANYTHING
  }

  function ClaudeBody(): string {
    STOP + BEFORE
  }

  /** Free of the markers' first character and of carriage returns. */
  predicate Plain(t: string) {
    forall i :: 0 <= i < |t| ==> t[i] != '<' && t[i] != '\r'
  }

  lemma PlainHead()
    ensures Plain(AgentsHead())
  {
    assert Plain(TITLE) && Plain(REMEMBER);
    assert Plain(IN_PROJECT) && Plain(VARIABLE);
  }

  lemma PlainRules()
    ensures Plain(RULES) && Plain(OPEN)
  {
  }

  lemma PlainTargets()
    ensures Plain(GENERATED) && Plain(CONFIGURED)
  {
  }

  lemma PlainSkill()
    ensures Plain(INVOKE) && Plain(SKILL) && Plain(ANYTHING)
  {
  }

  lemma PlainTail()
    ensures Plain(AgentsTail())
  {
    PlainRules();
    PlainTargets();
    PlainSkill();
  }

  function AgentsBody(installDir: string): string {
    AgentsHead() + "\"" + installDir + "\"" + AgentsTail()
  }

  function AgentsBlock(installDir: string): string {
    Block(AgentsBody(installDir), MARKER_START, MARKER_END)
  }

  function ClaudeBlock(): string {
    Block(ClaudeBody(), MARKER_START, MARKER_END)
  }

  lemma QuotedAt(head: string, d: string, tail: string, m: string, k: nat)
    requires k + |m| <= |d|
    ensures At(head + "\"" + d + "\"" + tail, m, |head| + 1 + k) <==> At(d, m, k)
  {
    assert head + "\"" + d + "\"" + tail == (head + "\"") + (d + ("\"" + tail));
    AtSuffix(head + "\"", d + ("\"" + tail), m, k);
    AtPrefix(d + ("\"" + tail), d, m, k, |d|);
  }

  lemma QuotedOnlyInside(head: string, d: string, tail: string, m: string, k: nat)
    requires |m| > 0 && m[0] !in head && m[0] !in tail && '"' !in m
    requires At(head + "\"" + d + "\"" + tail, m, k)
    ensures |head| + 1 <= k && k + |m| <= |head| + 1 + |d|
  {
    var t := head + "\"" + d + "\"" + tail;
    var n := |head| + 1;
    Covered(t, m, k);
    assert t[k] == m[0] && t[n - 1] == '"' && t[n + |d|] == '"';
    assert forall i :: 0 <= i < |head| ==> t[i] == head[i];
    assert forall i :: n + |d| < i < |t| ==> t[i] == tail[i - n - |d| - 1];
  }

  /** Text without the marker's first character around a quoted text adds no occurrence of the marker. */
  lemma QuotedContains(head: string, d: string, tail: string, m: string)
    requires |m| > 0 && m[0] !in head && m[0] !in tail && '"' !in m
    ensures Contains(head + "\"" + d + "\"" + tail, m) <==> Contains(d, m)
  {
    var t := head + "\"" + d + "\"" + tail;
    if Contains(t, m) {
      var k :| At(t, m, k);
      QuotedOnlyInside(head, d, tail, m, k);
      QuotedAt(head, d, tail, m, k - |head| - 1);
    }
    if Contains(d, m) {
      var k :| At(d, m, k);
      QuotedAt(head, d, tail, m, k);
    }
  }

  lemma AgentsBodyContainsEnd(installDir: string)
    ensures Contains(AgentsBody(installDir), MARKER_END) <==> Contains(installDir, MARKER_END)
  {
    PlainHead();
    PlainTail();
    assert forall i :: 0 <= i < |MARKER_END| ==> MARKER_END[i] != '"';
    assert MARKER_END[0] == '<';
    QuotedContains(AgentsHead(), installDir, AgentsTail(), MARKER_END);
  }

  lemma PlainStop()
    ensures Plain(STOP)
  {
  }

  lemma PlainBefore()
    ensures Plain(BEFORE)
  {
  }

  lemma PlainClaude()
    ensures Plain(ClaudeBody())
  {
    PlainStop();
    PlainBefore();
  }

  lemma FirstCovered(t: string, m: string, k: int)
    requires |m| > 0
    ensures At(t, m, k) ==> t[k] == m[0]
  {
    if At(t, m, k) { assert t[k..k + |m|][0] == t[k]; }
  }

  lemma PlainContainsNone(t: string, m: string)
    requires Plain(t) && |m| > 0 && m[0] == '<'
    ensures !Contains(t, m)
  {
    forall k
      ensures !At(t, m, k)
    {
      FirstCovered(t, m, k);
    }
  }

  lemma StripBlock(body: string)
    ensures TrimBy(Block(body, MARKER_START, MARKER_END), PySpace) == Block(body, MARKER_START, MARKER_END)
  {
    var b := Block(body, MARKER_START, MARKER_END);
    assert b[0] == '<' && b[|b| - 1] == '>';
  }

  lemma MarkersClean()
    ensures '\r' !in MARKER_START && '\r' !in MARKER_END
  {
    assert forall i :: 0 <= i < |MARKER_START| ==> MARKER_START[i] != '\r';
    assert forall i :: 0 <= i < |MARKER_END| ==> MARKER_END[i] != '\r';
  }

  lemma QuotedHas(head: string, d: string, tail: string, c: char)
    requires c !in head && c !in tail && c != '"'
    ensures c in head + "\"" + d + "\"" + tail <==> c in d
  {
    var t := head + "\"" + d + "\"" + tail;
    assert forall i :: 0 <= i < |d| ==> t[|head| + 1 + i] == d[i];
  }

  lemma AgentsBodyClean(installDir: string)
    ensures '\r' in AgentsBody(installDir) <==> '\r' in installDir
  {
    PlainHead();
    PlainTail();
    QuotedHas(AgentsHead(), installDir, AgentsTail(), '\r');
  }

  function InjectAgents(f: File, installDir: string): Injection {
    InjectFile(f, AgentsBlock(installDir), MARKER_START, MARKER_END)
  }

  predicate InOrder(f: File) {
    WellPlaced(ReadText(f), MARKER_START, MARKER_END)
  }

  /** The text outside the block, as it is read. */
  function Around(f: File): (string, string) {
    Outside(ReadText(f), MARKER_START, MARKER_END)
  }

  /** A second run on AGENTS.md finds nothing to do iff the markers were in order or incomplete, and the install
      directory contains neither the end marker nor a carriage return. */
  lemma AgentsIdempotent(f: File, d: string)
    ensures InjectAgents(InjectAgents(f, d).file, d).action == Unchanged
            <==> InOrder(f) && !Contains(d, MARKER_END) && '\r' !in d
  {
    ProgramMarkers();
    MarkersClean();
    AgentsBodyContainsEnd(d);
    AgentsBodyClean(d);
    FileIdempotentExactly(f, AgentsBody(d), MARKER_START, MARKER_END);
  }

  /** Unless the block is there already, the file becomes the new block between the text that was outside it. */
  lemma AgentsWritten(f: File, d: string)
    ensures var r := InjectAgents(f, d);
            if r.action == Unchanged then r.file == f
            else r.file == Present(Around(f).0 + AgentsBlock(d) + Around(f).1)
  {
    ProgramMarkers();
    InjectedText(ReadText(f), AgentsBlock(d), MARKER_START, MARKER_END);
  }

  function BlockLeft(s: string, head: string): string {
    s + "\n" + head + "\""
  }

  function BlockRight(tail: string, e: string): string {
    "\"" + tail + "\n" + e
  }

  lemma BlockInThree(s: string, head: string, d: string, tail: string, e: string)
    ensures Block(head + "\"" + d + "\"" + tail, s, e) == BlockLeft(s, head) + d + BlockRight(tail, e)
  {
  }

  lemma TranslatedQuoted(pre: string, s: string, head: string, d: string, tail: string, e: string, post: string)
    requires '\r' !in pre && '\r' !in s && '\r' !in head && '\r' !in tail && '\r' !in e && '\r' !in post
    ensures Translated(pre + Block(head + "\"" + d + "\"" + tail, s, e) + post)
            == pre + Block(head + "\"" + Translated(d) + "\"" + tail, s, e) + post
  {
    var x, y := pre + BlockLeft(s, head), BlockRight(tail, e) + post;
    BlockInThree(s, head, d, tail, e);
    BlockInThree(s, head, Translated(d), tail, e);
    assert pre + (BlockLeft(s, head) + d + BlockRight(tail, e)) + post == x + d + y;
    assert pre + (BlockLeft(s, head) + Translated(d) + BlockRight(tail, e)) + post == x + Translated(d) + y;
    TranslatedMiddle(x, d, y);
  }

  lemma OutsideClean(f: File, s: string, e: string)
    ensures '\r' !in Outside(ReadText(f), s, e).0 && '\r' !in Outside(ReadText(f), s, e).1
  {
    if f.Present? { TranslatedClean(f.text); }
  }

  lemma TranslatedBlock(pre: string, d: string, post: string)
    requires '\r' !in pre && '\r' !in post
    ensures Translated(pre + AgentsBlock(d) + post) == pre + AgentsBlock(Translated(d)) + post
  {
    PlainHead();
    PlainTail();
    MarkersClean();
    TranslatedQuoted(pre, MARKER_START, AgentsHead(), d, AgentsTail(), MARKER_END, post);
  }

  lemma FoundIsClean(f: File, d: string)
    requires InjectAgents(f, d).action == Unchanged
    ensures '\r' !in d
  {
    MarkersClean();
    AgentsBodyClean(d);
    BlockClean(AgentsBody(d), MARKER_START, MARKER_END);
    if '\r' in d { NeverFound(f, AgentsBlock(d), MARKER_START, MARKER_END); }
  }

  /** For every install directory: what is read after a run is the text read before with the block of the directory,
      its line ends translated, put in. */
  lemma ReadAgents(f: File, d: string)
    ensures ReadText(InjectAgents(f, d).file)
            == Inject(ReadText(f), AgentsBlock(Translated(d)), MARKER_START, MARKER_END).file
  {
    var (pre, post) := Around(f);
    InjectedText(ReadText(f), AgentsBlock(d), MARKER_START, MARKER_END);
    InjectedText(ReadText(f), AgentsBlock(Translated(d)), MARKER_START, MARKER_END);
    OutsideClean(f, MARKER_START, MARKER_END);
    if InjectAgents(f, d).action == Unchanged {
      FoundIsClean(f, d);
      CleanTranslated(d);
    } else {
      TranslatedBlock(pre, d, post);
    }
  }

  lemma TranslatedDirContainsEnd(d: string)
    ensures Contains(AgentsBody(Translated(d)), MARKER_END) <==> Contains(d, MARKER_END)
  {
    ProgramMarkers();
    MarkersClean();
    TranslatedContains(d, MARKER_END);
    AgentsBodyContainsEnd(Translated(d));
  }

  /** For an install directory without the end marker, the text outside the block is still outside it afterwards. */
  lemma AgentsOutside(f: File, d: string)
    requires InOrder(f) && !Contains(d, MARKER_END)
    ensures InOrder(InjectAgents(f, d).file) && Around(InjectAgents(f, d).file) == Around(f)
  {
    ProgramMarkers();
    ReadAgents(f, d);
    TranslatedDirContainsEnd(d);
    PutGet(ReadText(f), AgentsBody(Translated(d)), MARKER_START, MARKER_END);
  }

  /** A later run with another directory leaves what that run alone would have left, iff the markers were in order or
      incomplete and the first directory does not contain the end marker. */
  lemma AgentsPutPut(f: File, d1: string, d2: string)
    ensures ReadText(InjectAgents(InjectAgents(f, d1).file, d2).file) == ReadText(InjectAgents(f, d2).file)
            <==> InOrder(f) && !Contains(d1, MARKER_END)
  {
    ProgramMarkers();
    ReadAgents(f, d1);
    ReadAgents(f, d2);
    ReadAgents(InjectAgents(f, d1).file, d2);
    TranslatedDirContainsEnd(d1);
    PutPutExactly(ReadText(f), AgentsBody(Translated(d1)), AgentsBody(Translated(d2)), MARKER_START, MARKER_END);
  }

  function InjectClaude(f: File): Injection {
    InjectFile(f, ClaudeBlock(), MARKER_START, MARKER_END)
  }

  lemma ClaudeLaws(f: File)
    ensures InjectClaude(InjectClaude(f).file).action == Unchanged <==> InOrder(f)
    ensures InOrder(f) ==>
              && Around(InjectClaude(f).file) == Around(f)
              && ReadText(InjectClaude(f).file) == Present(Around(f).0 + ClaudeBlock() + Around(f).1)
  {
    ProgramMarkers();
    MarkersClean();
    PlainClaude();
    PlainContainsNone(ClaudeBody(), MARKER_END);
    FileIdempotentExactly(f, ClaudeBody(), MARKER_START, MARKER_END);
    if InOrder(f) {
      BlockClean(ClaudeBody(), MARKER_START, MARKER_END);
      ReadInjected(f, ClaudeBlock(), MARKER_START, MARKER_END);
      InjectedText(ReadText(f), ClaudeBlock(), MARKER_START, MARKER_END);
      FileOutside(f, ClaudeBody(), MARKER_START, MARKER_END);
    }
  }

  /** A file on disk. */
  class TextFile {
    var state: File

    constructor (initial: File)
      ensures state == initial
    {
      state := initial;
    }
  }

  /** Writes the block into the file, or only says what it would do. */
  method InjectManagedBlock(target: TextFile, body: string, dryRun: bool) returns (action: Action)
    modifies target
    ensures var r := InjectFile(old(target.state), Block(body, MARKER_START, MARKER_END), MARKER_START, MARKER_END);
            action == r.action && target.state == if dryRun then old(target.state) else r.file
  {
    var expected := Block(body, MARKER_START, MARKER_END);
    if target.state.Missing? {
      if !dryRun { target.state := Present(expected + "\n"); }
      return Created;
    }
    var content := Translated(target.state.text);
    var newContent;
    var startIdx, endIdx := IndexOf(content, MARKER_START), IndexOf(content, MARKER_END);
    if startIdx != -1 && endIdx != -1 {
      endIdx := endIdx + |MARKER_END|;
      StripBlock(body);
      if Slice(content, startIdx, endIdx) == TrimBy(expected, PySpace) {
        return Unchanged;
      }
      newContent := content[..startIdx] + expected + content[endIdx..];
    } else {
      newContent := expected + "\n\n" + content;
    }
    if !dryRun { target.state := Present(newContent); }
    return Updated;
  }

  method InjectRootAgents(agentsFile: TextFile, installDir: string, dryRun: bool) returns (action: Action)
    modifies agentsFile
    ensures var r := InjectAgents(old(agentsFile.state), installDir);
            action == r.action && agentsFile.state == if dryRun then old(agentsFile.state) else r.file
  {
    action := InjectManagedBlock(agentsFile, AgentsBody(installDir), dryRun);
  }

  method InjectRootClaude(claudeFile: TextFile, dryRun: bool) returns (action: Action)
    modifies claudeFile
    ensures var r := InjectClaude(old(claudeFile.state));
            action == r.action && claudeFile.state == if dryRun then old(claudeFile.state) else r.file
  {
    action := InjectManagedBlock(claudeFile, ClaudeBody(), dryRun);
  }
}
