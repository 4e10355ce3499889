/** The handful of string operations every gate of the repository leans on: Python's `strip`,
    `split`, `splitlines`, `find` and prefix tests, over sequences of Unicode characters.

    The laws about line splitting say that the two sides of a newline split separately, which is what
    lets files be read one after the other; those about `FlatMap` let the folds of the gates be cut at
    any point. */
module Text {

  // The characters `str.isspace` accepts.
  predicate IsSpace(c: char) {
    '\t' <= c <= '\r' || '\U{1c}' <= c <= ' ' || c == '\U{85}' || c == '\U{a0}' || c == '\U{1680}'
    || '\U{2000}' <= c <= '\U{200a}' || c == '\U{2028}' || c == '\U{2029}' || c == '\U{202f}'
    || c == '\U{205f}' || c == '\U{3000}'
  }

  // The characters at which `str.splitlines` ends a line.
  predicate IsBreak(c: char) {
    '\n' <= c <= '\r' || '\U{1c}' <= c <= '\U{1e}' || c == '\U{85}' || c == '\U{2028}' || c == '\U{2029}'
  }

  predicate Blank(s: string) {
    forall i | 0 <= i < |s| :: IsSpace(s[i])
  }

  predicate StartsWith(s: string, p: string) {
    |p| <= |s| && s[..|p|] == p
  }

  predicate EndsWith(s: string, p: string) {
    |p| <= |s| && s[|s| - |p|..] == p
  }

  predicate At(s: string, p: string, k: int) {
    0 <= k && k + |p| <= |s| && s[k..k + |p|] == p
  }

  lemma AtTail(s: string, p: string, k: int)
    requires 1 <= k <= |s|
    ensures At(s, p, k) == At(s[1..], p, k - 1)
  {
    if k + |p| <= |s| {
      assert s == [s[0]] + s[1..];
      assert s[k..k + |p|] == s[1..][k - 1..k - 1 + |p|];
    }
  }

  // `s.find(p)`: the first position at which `p` stands in `s`, or -1.
  function Find(s: string, p: string): (i: int)
    ensures -1 <= i <= |s|
    ensures i >= 0 ==> At(s, p, i) && forall k | 0 <= k < i :: !At(s, p, k)
    ensures i < 0 ==> forall k | 0 <= k <= |s| :: !At(s, p, k)
  {
    if At(s, p, 0) then 0
    else if s == "" then -1
    else
      var r := Find(s[1..], p);
      assert forall k {:trigger At(s, p, k)} | 1 <= k <= |s| :: At(s, p, k) == At(s[1..], p, k - 1) by {
        forall k | 1 <= k <= |s| ensures At(s, p, k) == At(s[1..], p, k - 1) { AtTail(s, p, k); }
      }
      if r < 0 then -1 else r + 1
  }

  predicate Contains(s: string, p: string) {
    Find(s, p) >= 0
  }

  function LStrip(s: string): (r: string)
    ensures |r| <= |s| && r == s[|s| - |r|..]
    ensures r != "" ==> !IsSpace(r[0])
    ensures r == "" <==> Blank(s)
  {
    if s != "" && IsSpace(s[0]) then
      assert Blank(s) <==> Blank(s[1..]) by { BlankCons(s); }
      LStrip(s[1..])
    else s
  }

  lemma BlankCons(s: string)
    requires s != ""
    ensures Blank(s) <==> IsSpace(s[0]) && Blank(s[1..])
  {
    if IsSpace(s[0]) && Blank(s[1..]) {
      forall i | 0 <= i < |s| ensures IsSpace(s[i]) {
        if i > 0 { assert s[i] == s[1..][i - 1]; }
      }
    }
  }

  function RStrip(s: string): (r: string)
    ensures |r| <= |s| && r == s[..|r|]
    ensures r != "" ==> !IsSpace(r[|r| - 1])
    ensures s != "" && !IsSpace(s[0]) ==> r != ""
  {
    if s != "" && IsSpace(s[|s| - 1]) then RStrip(s[..|s| - 1]) else s
  }

  function Strip(s: string): (r: string)
    ensures r != "" ==> !IsSpace(r[0]) && !IsSpace(r[|r| - 1])
    ensures r == "" <==> Blank(s)
  {
    RStrip(LStrip(s))
  }

  // The longest prefix of `s` free of whitespace.
  function Word(s: string): (w: string)
    ensures |w| <= |s| && w == s[..|w|]
    ensures forall i | 0 <= i < |w| :: !IsSpace(w[i])
    ensures |w| < |s| ==> IsSpace(s[|w|])
    ensures w == "" <==> s == "" || IsSpace(s[0])
  {
    if s == "" || IsSpace(s[0]) then ""
    else
      var w := Word(s[1..]);
      assert s[..|w| + 1] == [s[0]] + s[1..][..|w|];
      [s[0]] + w
  }

  // `s.split()`: the maximal runs of non-blank characters, in order.
  function Words(s: string): (ws: seq<string>)
    ensures ws == [] <==> Blank(s)
    ensures "" !in ws
    decreases |s|
  {
    var l := LStrip(s);
    if l == "" then []
    else
      var w := Word(l);
      [w] + Words(l[|w|..])
  }

  lemma {:induction false} LStripFront(s: string)
    ensures Blank(s[..|s| - |LStrip(s)|])
  {
    if s != "" && IsSpace(s[0]) {
      LStripFront(s[1..]);
      var n := |s| - |LStrip(s)|;
      assert s[..n] == [s[0]] + s[1..][..n - 1];
      BlankCons(s[..n]);
    }
  }

  // A text is its leading blanks and the rest.
  lemma Halves(s: string) returns (pad: string, t: string)
    ensures s == pad + t && t == LStrip(s) && Blank(pad) && |pad| == |s| - |t|
  {
    t := LStrip(s);
    pad := s[..|s| - |t|];
    LStripFront(s);
  }

  lemma {:induction false} LStripPad(pad: string, s: string)
    requires Blank(pad) && (s == "" || !IsSpace(s[0]))
    ensures LStrip(pad + s) == s
  {
    if pad == "" {
      assert pad + s == s;
    } else {
      assert (pad + s)[1..] == pad[1..] + s;
      BlankCons(pad);
      LStripPad(pad[1..], s);
    }
  }

  lemma {:induction false} RStripPad(s: string, pad: string)
    requires Blank(pad) && (s == "" || !IsSpace(s[|s| - 1]))
    ensures RStrip(s + pad) == s
  {
    if pad == "" {
      assert s + pad == s;
    } else {
      assert (s + pad)[..|s + pad| - 1] == s + pad[..|pad| - 1];
      RStripPad(s, pad[..|pad| - 1]);
    }
  }

  /** Stripping takes the blanks off both ends and nothing else. */
  lemma StripBack(front: string, s: string, back: string)
    requires Blank(front) && Blank(back) && s != "" && !IsSpace(s[0]) && !IsSpace(s[|s| - 1])
    ensures Strip(front + (s + back)) == s
  {
    assert (s + back)[0] == s[0];
    LStripPad(front, s + back);
    RStripPad(s, back);
  }

  lemma {:induction false} WordBack(w: string, rest: string)
    requires (forall i | 0 <= i < |w| :: !IsSpace(w[i])) && (rest == "" || IsSpace(rest[0]))
    ensures Word(w + rest) == w
  {
    if w == "" {
      assert w + rest == rest;
    } else {
      assert (w + rest)[1..] == w[1..] + rest;
      WordBack(w[1..], rest);
    }
  }

  /** The words of a text are what stands between its blanks: the first one, then those of the rest. */
  lemma WordsBack(pad: string, w: string, rest: string)
    requires Blank(pad) && w != "" && (forall i | 0 <= i < |w| :: !IsSpace(w[i])) && (rest == "" || IsSpace(rest[0]))
    ensures Words(pad + (w + rest)) == [w] + Words(rest)
  {
    LStripPad(pad, w + rest);
    WordBack(w, rest);
    assert (w + rest)[|w|..] == rest;
  }

  // `s.splitlines()`; "\r\n" ends one line, and a final line break opens no line.
  function SplitLines(s: string): seq<string> {
    LinesFrom(s, "")
  }

  // The lines still to come when `cur` has been read of the current one.
  function LinesFrom(s: string, cur: string): seq<string>
    decreases |s|
  {
    if s == "" then (if cur == "" then [] else [cur])
    else if IsBreak(s[0]) then [cur] + LinesFrom(s[BreakLength(s)..], "")
    else LinesFrom(s[1..], cur + [s[0]])
  }

  // A newline ends a line wherever it stands.
  lemma {:induction false} LinesAtNewline(a: string, b: string, cur: string)
    ensures LinesFrom(a + "\n" + b, cur) == LinesFrom(a + "\n", cur) + LinesFrom(b, "")
    decreases |a|
  {
    var whole, first := a + "\n" + b, a + "\n";
    if a == "" {
      assert first == "\n" && whole == "\n" + b && whole[1..] == b && first[1..] == "";
      assert BreakLength(first) == 1 && BreakLength(whole) == 1;
    } else if IsBreak(a[0]) {
      var n := BreakLength(whole);
      assert whole[0] == first[0] == a[0] && whole[1] == first[1];
      assert n == BreakLength(first);
      if n > |a| {
        assert first[n..] == "" && whole[n..] == b;
      } else {
        assert first[n..] == a[n..] + "\n" && whole[n..] == a[n..] + "\n" + b;
        LinesAtNewline(a[n..], b, "");
      }
    } else {
      assert first[1..] == a[1..] + "\n" && whole[1..] == a[1..] + "\n" + b;
      LinesAtNewline(a[1..], b, cur + [a[0]]);
    }
  }

  lemma {:induction false} UnbrokenLine(w: string, rest: string, cur: string)
    requires forall i | 0 <= i < |w| :: !IsBreak(w[i])
    ensures LinesFrom(w + rest, cur) == LinesFrom(rest, cur + w)
  {
    if w == "" {
      assert w + rest == rest && cur + w == cur;
    } else {
      assert (w + rest)[0] == w[0] && (w + rest)[1..] == w[1..] + rest;
      assert forall i | 0 <= i < |w| - 1 :: w[1..][i] == w[i + 1];
      UnbrokenLine(w[1..], rest, cur + [w[0]]);
      assert cur + [w[0]] + w[1..] == cur + w;
    }
  }

  lemma {:induction false} SomeLine(s: string, cur: string)
    requires s != "" || cur != ""
    ensures LinesFrom(s, cur) != []
    decreases |s|
  {
    if s != "" && !IsBreak(s[0]) {
      SomeLine(s[1..], cur + [s[0]]);
    }
  }

  // A line break at the end of a text adds at most one empty line.
  lemma {:induction false} LinesWithNewline(a: string, cur: string)
    ensures LinesFrom(a + "\n", cur) == LinesFrom(a, cur) || LinesFrom(a + "\n", cur) == LinesFrom(a, cur) + [""]
    decreases |a|
  {
    var first := a + "\n";
    if a == "" {
      assert first == "\n" && first[1..] == "" && BreakLength(first) == 1;
    } else if IsBreak(a[0]) {
      var n := BreakLength(first);
      assert first[0] == a[0];
      if n > |a| {
        assert first[n..] == "" && a[BreakLength(a)..] == "";
      } else {
        assert n == BreakLength(a) by { assert |a| > 1 ==> first[1] == a[1]; }
        assert first[n..] == a[n..] + "\n";
        LinesWithNewline(a[n..], "");
      }
    } else {
      assert first[1..] == a[1..] + "\n";
      LinesWithNewline(a[1..], cur + [a[0]]);
    }
  }

  function BreakLength(s: string): (n: nat)
    ensures n <= |s|
    ensures s != "" && IsBreak(s[0]) ==> n > 0
  {
    if s == "" || !IsBreak(s[0]) then 0
    else if |s| > 1 && s[0] == '\r' && s[1] == '\n' then 2
    else 1
  }

  // `sep.join(parts)`.
  function Join(sep: string, parts: seq<string>): string {
    if parts == [] then ""
    else if |parts| == 1 then parts[0]
    else parts[0] + sep + Join(sep, parts[1..])
  }

  lemma Regroup<T>(a: seq<T>, b: seq<T>, c: seq<T>)
    ensures a + (b + c) == (a + b) + c
  {}

  function Mapped<A, B>(f: A -> B, xs: seq<A>): (r: seq<B>)
    ensures |r| == |xs| && forall i | 0 <= i < |xs| :: r[i] == f(xs[i])
  {
    if xs == [] then [] else [f(xs[0])] + Mapped(f, xs[1..])
  }

  function FlatMap<A, B>(f: A -> seq<B>, xs: seq<A>): seq<B> {
    if xs == [] then [] else f(xs[0]) + FlatMap(f, xs[1..])
  }

  lemma {:induction false} FlatMapAppend<A, B>(f: A -> seq<B>, a: seq<A>, b: seq<A>)
    ensures FlatMap(f, a + b) == FlatMap(f, a) + FlatMap(f, b)
  {
    if a == [] {
      assert a + b == b;
    } else {
      assert (a + b)[0] == a[0] && (a + b)[1..] == a[1..] + b;
      FlatMapAppend(f, a[1..], b);
      Regroup(f(a[0]), FlatMap(f, a[1..]), FlatMap(f, b));
    }
  }

  lemma FlatMapOne<A, B>(f: A -> seq<B>, x: A)
    ensures FlatMap(f, [x]) == f(x)
  {
    assert FlatMap(f, [x]) == f(x) + [];
  }

  // `xs.index(x)`.
  function IndexOf<T(==)>(xs: seq<T>, x: T): (i: nat)
    requires x in xs
    ensures i < |xs| && xs[i] == x
    ensures x !in xs[..i]
  {
    if xs[0] == x then 0
    else
      var i := IndexOf(xs[1..], x);
      assert xs[..i + 1] == [xs[0]] + xs[1..][..i];
      i + 1
  }

  lemma {:induction false} IndexOfIs<T>(xs: seq<T>, x: T, i: nat)
    requires i < |xs| && xs[i] == x && x !in xs[..i]
    ensures IndexOf(xs, x) == i
  {
    if i > 0 {
      assert xs[0] == xs[..i][0];
      assert xs[1..][..i - 1] == xs[..i][1..];
      IndexOfIs(xs[1..], x, i - 1);
    }
  }
}
