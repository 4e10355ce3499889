/** Reading a text line by line, with backslash continuations joined and a state carried from line
    to line. `parse` says what one logical line does; the laws below hold for every parser.

    Reading is a homomorphism: a text read after another continues from the line under construction
    and the state the first one left. For parsers that carry a section, `SectionLaw` isolates the
    one thing the earlier text can change about the later one's items. */
module LineReader {
  import opened Common
  import opened Text
  import opened ShellLines

  datatype Parsed<+S, +D> = Parsed(state: S, items: seq<D>)

  type Parser<!S, D> = (S, string) -> Parsed<S, D>

  // What the lines still to come say when `buf` has been collected of the current logical line.
  function Read<S, D>(parse: Parser<S, D>, raws: seq<string>, buf: string, s: S): Parsed<S, D> {
    if raws == [] then (if buf == "" then Parsed(s, []) else parse(s, buf))
    else if Continues(raws[0]) then Read(parse, raws[1..], Grown(buf, raws[0]), s)
    else
      var p := parse(s, buf + raws[0]);
      Before(p.items, Read(parse, raws[1..], "", p.state))
  }

  function Grown(buf: string, raw: string): string
    requires Continues(raw)
  {
    buf + raw[..|raw| - 1] + " "
  }

  function Before<S, D>(items: seq<D>, p: Parsed<S, D>): Parsed<S, D> {
    Parsed(p.state, items + p.items)
  }

  // The same over logical lines.
  function Fold<S, D>(parse: Parser<S, D>, lines: seq<Logical>, s: S): Parsed<S, D> {
    if lines == [] then Parsed(s, [])
    else
      var p := parse(s, lines[0].text);
      Before(p.items, Fold(parse, lines[1..], p.state))
  }

  lemma {:induction false} FoldJoined<S, D>(parse: Parser<S, D>, raws: seq<string>, n: nat, buf: string, start: nat,
                                            s: S)
    ensures Fold(parse, Joined(raws, n, buf, start), s) == Read(parse, raws, buf, s)
  {
    var first := if buf == "" then n else start;
    var lines := Joined(raws, n, buf, start);
    if raws == [] {
      if buf != "" {
        assert lines[1..] == [];
        assert parse(s, buf).items + [] == parse(s, buf).items;
      }
    } else if Continues(raws[0]) {
      assert Grown(buf, raws[0]) != "";
      FoldJoined(parse, raws[1..], n + 1, Grown(buf, raws[0]), first, s);
    } else {
      FoldJoined(parse, raws[1..], n + 1, "", first, parse(s, buf + raws[0]).state);
      assert lines[0].text == buf + raws[0] && lines[1..] == Joined(raws[1..], n + 1, "", first);
    }
  }

  // Reading a block of lines whose last is not continued, then more.
  lemma {:induction false} ReadAppend<S, D>(parse: Parser<S, D>, xs: seq<string>, ys: seq<string>, buf: string, s: S)
    requires xs == [] ==> buf == ""
    requires xs != [] ==> !Continues(xs[|xs| - 1])
    ensures var p := Read(parse, xs, buf, s);
            Read(parse, xs + ys, buf, s) == Before(p.items, Read(parse, ys, "", p.state))
  {
    if xs == [] {
      assert xs + ys == ys;
      assert [] + Read(parse, ys, "", s).items == Read(parse, ys, "", s).items;
    } else {
      assert (xs + ys)[0] == xs[0] && (xs + ys)[1..] == xs[1..] + ys;
      if Continues(xs[0]) {
        ReadAppend(parse, xs[1..], ys, Grown(buf, xs[0]), s);
      } else {
        var p := parse(s, buf + xs[0]);
        ReadAppend(parse, xs[1..], ys, "", p.state);
        var inner := Read(parse, xs[1..], "", p.state);
        BeforeTwice(p.items, inner.items, Read(parse, ys, "", inner.state));
      }
    }
  }

  // Where reading stands when the lines run out: what the finished logical lines said, and what has been
  // collected of one that the last line continues.
  datatype Stand<+S, +D> = Stand(said: Parsed<S, D>, buf: string)

  function Stop<S, D>(parse: Parser<S, D>, raws: seq<string>, buf: string, s: S): Stand<S, D> {
    if raws == [] then Stand(Parsed(s, []), buf)
    else if Continues(raws[0]) then Stop(parse, raws[1..], Grown(buf, raws[0]), s)
    else
      var p := parse(s, buf + raws[0]);
      var rest := Stop(parse, raws[1..], "", p.state);
      Stand(Before(p.items, rest.said), rest.buf)
  }

  /** Reading more lines goes on where the first ones stand, whether or not the last was continued. */
  lemma {:induction false} ReadOn<S, D>(parse: Parser<S, D>, xs: seq<string>, ys: seq<string>, buf: string, s: S)
    ensures var at := Stop(parse, xs, buf, s);
            Read(parse, xs + ys, buf, s) == Before(at.said.items, Read(parse, ys, at.buf, at.said.state))
  {
    if xs == [] {
      assert xs + ys == ys;
      assert [] + Read(parse, ys, buf, s).items == Read(parse, ys, buf, s).items;
    } else {
      assert (xs + ys)[0] == xs[0] && (xs + ys)[1..] == xs[1..] + ys;
      if Continues(xs[0]) {
        ReadOn(parse, xs[1..], ys, Grown(buf, xs[0]), s);
      } else {
        var p := parse(s, buf + xs[0]);
        var at := Stop(parse, xs[1..], "", p.state);
        ReadOn(parse, xs[1..], ys, "", p.state);
        BeforeTwice(p.items, at.said.items, Read(parse, ys, at.buf, at.said.state));
      }
    }
  }

  lemma {:induction false} StopsOpen<S, D>(parse: Parser<S, D>, xs: seq<string>, buf: string, s: S)
    requires xs != []
    ensures Stop(parse, xs, buf, s).buf != "" <==> Continues(xs[|xs| - 1])
  {
    if |xs| > 1 {
      if Continues(xs[0]) {
        StopsOpen(parse, xs[1..], Grown(buf, xs[0]), s);
      } else {
        StopsOpen(parse, xs[1..], "", parse(s, buf + xs[0]).state);
      }
    }
  }

  lemma BeforeTwice<S, D>(a: seq<D>, b: seq<D>, p: Parsed<S, D>)
    ensures Before(a, Before(b, p)) == Before(a + b, p)
  {
    assert a + (b + p.items) == a + b + p.items;
  }

  // An empty last line says nothing, even when it ends a continued one.
  lemma {:induction false} ReadBlankEnd<S, D>(parse: Parser<S, D>, xs: seq<string>, buf: string, s: S)
    requires forall t :: parse(t, "") == Parsed(t, [])
    ensures Read(parse, xs + [""], buf, s) == Read(parse, xs, buf, s)
  {
    if xs == [] {
      assert (xs + [""])[1..] == [] && buf + "" == buf;
      assert parse(s, buf).items + [] == parse(s, buf).items;
    } else {
      assert (xs + [""])[0] == xs[0] && (xs + [""])[1..] == xs[1..] + [""];
      if Continues(xs[0]) {
        ReadBlankEnd(parse, xs[1..], Grown(buf, xs[0]), s);
      } else {
        ReadBlankEnd(parse, xs[1..], "", parse(s, buf + xs[0]).state);
      }
    }
  }

  // A line break at the end of a text changes nothing it says.
  lemma ReadNewlineEnd<S, D>(parse: Parser<S, D>, text: string, s: S)
    requires forall t :: parse(t, "") == Parsed(t, [])
    ensures Read(parse, SplitLines(text + "\n"), "", s) == Read(parse, SplitLines(text), "", s)
  {
    LinesWithNewline(text, "");
    ReadBlankEnd(parse, SplitLines(text), "", s);
  }

  // ------------------------------------------------------- sections

  // A parser whose state is the section in force: only headers change it, and only the lines of
  // the section `live` say anything.
  ghost predicate Sectioned<D>(parse: Parser<Option<string>, D>, live: string) {
    forall s, line ::
      (if parse(None, line).state.Some? then parse(s, line) == parse(None, line) && parse(None, line).items == []
       else parse(s, line) == Parsed(s, if s == Some(live) then parse(Some(live), line).items else []))
  }

  // What lines before the first header would say if they stood in the section `live`.
  function Leading<D>(parse: Parser<Option<string>, D>, live: string, raws: seq<string>, buf: string): seq<D> {
    if raws == [] then (if buf == "" then [] else parse(Some(live), buf).items)
    else if Continues(raws[0]) then Leading(parse, live, raws[1..], Grown(buf, raws[0]))
    else if parse(None, buf + raws[0]).state.Some? then []
    else parse(Some(live), buf + raws[0]).items + Leading(parse, live, raws[1..], "")
  }

  /** How the section a file starts in matters, exactly: only `live` does, and only through the
      lines before the first header. */
  lemma {:induction false} SectionLaw<D>(parse: Parser<Option<string>, D>, live: string, raws: seq<string>, buf: string,
                                         s: Option<string>)
    requires Sectioned(parse, live)
    ensures Read(parse, raws, buf, s).items
         == (if s == Some(live) then Leading(parse, live, raws, buf) else []) + Read(parse, raws, buf, None).items
  {
    if raws == [] {
      assert parse(s, buf).items == (if s == Some(live) then parse(Some(live), buf).items
               else []) + parse(None, buf).items;
    } else if Continues(raws[0]) {
      SectionLaw(parse, live, raws[1..], Grown(buf, raws[0]), s);
    } else {
      var line := buf + raws[0];
      var rest := Read(parse, raws[1..], "", None).items;
      if parse(None, line).state.Some? {
        assert parse(s, line) == parse(None, line);
        assert [] + Read(parse, raws, buf, None).items == Read(parse, raws, buf, None).items;
      } else {
        SectionLaw(parse, live, raws[1..], "", s);
        assert parse(None, line).items == [] && [] + rest == rest;
        if s == Some(live) {
          assert parse(s, line).items + (Leading(parse, live, raws[1..], "") + rest)
              == parse(s, line).items + Leading(parse, live, raws[1..], "") + rest;
        } else {
          assert parse(s, line).items == [] && [] + ([] + rest) == rest;
        }
      }
    }
  }

  // A file of one line that no continuation ends.
  lemma OneLineFile<D>(parse: Parser<Option<string>, D>, live: string, line: string, s: Option<string>)
    requires !Continues(line)
    ensures Read(parse, [line], "", s) == parse(s, line)
    ensures parse(None, line).state.None? ==> Leading(parse, live, [line], "") == parse(Some(live), line).items
  {
    assert "" + line == line && [line][1..] == [];
    assert parse(s, line).items + [] == parse(s, line).items;
    assert parse(Some(live), line).items + [] == parse(Some(live), line).items;
  }
}
