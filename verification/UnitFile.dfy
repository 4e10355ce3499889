/** Reading systemd unit files (os/repo-tools/check-egress-units.py): the directives of [Service],
    the values in force for a list directive, and the text a unit and its drop-ins make together. */
module UnitFile {
  // `MergeDirectives` is the exact law of merging: what the merged text says is what the unit says,
  // then what each drop-in says, plus one term the per-file reading does not have, the lines a
  // drop-in carries before its first section header, which the merged text reads as [Service]
  // lines when the file before it ended in [Service].

  import opened Common
  import opened Text
  import opened LineReader
  import opened ShellLines

  datatype Directive = Directive(key: string, value: string)

  type Section = Option<string>

  // One logical line: the section in force after it and the directive it carries, if any.
  function ParseLine(section: Section, text: string): Parsed<Section, Directive> {
    ParseStripped(section, Strip(text))
  }

  function ParseStripped(section: Section, line: string): Parsed<Section, Directive> {
    if line == "" || line[0] == '#' || line[0] == ';' then Parsed(section, [])
    else if line[0] == '[' && line[|line| - 1] == ']' then
      Parsed(Some(if |line| > 1 then line[1..|line| - 1] else ""), [])
    else if InService(section) && '=' in line then
      Parsed(section, [Assigned(line)])
    else Parsed(section, [])
  }

  predicate InService(section: Section) {
    section == Some("Service")
  }

  // What a text says from its first line on, and the section it ends in.
  function Reading(text: string): Parsed<Section, Directive> {
    Read(ParseLine, SplitLines(text), "", None)
  }

  function Says(text: string): seq<Directive> {
    Reading(text).items
  }

  method ServiceLines(text: string) returns (out: seq<Directive>)
    ensures out == Says(text)
  {
    var lines := LogicalLines(text);
    out := [];
    var section := None;
    for i := 0 to |lines|
      invariant Before(out, Fold(ParseLine, lines[i..], section)).items == Fold(ParseLine, lines, None).items
    {
      assert lines[i..][0] == lines[i] && lines[i..][1..] == lines[i + 1..];
      var p := ParseLine(section, lines[i].text);
      BeforeTwice(out, p.items, Fold(ParseLine, lines[i + 1..], p.state));
      out, section := out + p.items, p.state;
    }
    FoldJoined(ParseLine, SplitLines(text), 1, "", 1, None);
  }

  // ------------------------------------------------------- values in force

  // What `key` is assigned, in order.
  function Values(ds: seq<Directive>, key: string): seq<string> {
    if ds == [] then []
    else (if ds[0].key == key then [ds[0].value] else []) + Values(ds[1..], key)
  }

  // The assignments after the last empty one.
  function SinceReset(vs: seq<string>): (r: seq<string>)
    ensures "" !in r
  {
    if vs == [] || vs[|vs| - 1] == "" then [] else SinceReset(vs[..|vs| - 1]) + [vs[|vs| - 1]]
  }

  // A list directive's value: the words of every assignment since the last empty one.
  function InForce(ds: seq<Directive>, key: string): seq<string> {
    FlatMap(Words, SinceReset(Values(ds, key)))
  }

  // Every value `service_lines` yields is stripped, which is what makes "non-empty" mean "has words".
  predicate Tight(value: string) {
    value == "" || !IsSpace(value[0])
  }

  ghost predicate Stripped(ds: seq<Directive>) {
    AllValues(Tight, ds)
  }

  ghost predicate AllValues(ok: string -> bool, ds: seq<Directive>) {
    forall i | 0 <= i < |ds| :: ok(ds[i].value)
  }

  // The loop of `effective_values`, for any way to split a value into words.
  method Gather(words: string -> seq<string>, ds: seq<Directive>, key: string) returns (seen: bool, values: seq<string>)
    requires AllValues((v: string) => v == "" || words(v) != [], ds)
    ensures values == FlatMap(words, SinceReset(Values(ds, key)))
    ensures seen <==> values != []
  {
    values, seen := [], false;
    for i := 0 to |ds|
      invariant values == FlatMap(words, SinceReset(Values(ds[..i], key)))
      invariant seen <==> values != []
    {
      GatherMore(words, ds, i, key);
      if ds[i].key != key { continue; }
      if ds[i].value == "" {
        values, seen := [], false;
      } else {
        values, seen := values + words(ds[i].value), true;
      }
    }
    assert ds[..|ds|] == ds;
  }

  lemma GatherMore(words: string -> seq<string>, ds: seq<Directive>, i: nat, key: string)
    requires i < |ds|
    ensures var before := FlatMap(words, SinceReset(Values(ds[..i], key)));
            FlatMap(words, SinceReset(Values(ds[..i + 1], key)))
            == if ds[i].key != key then before else if ds[i].value == "" then [] else before + words(ds[i].value)
  {
    assert ds[..i + 1] == ds[..i] + [ds[i]];
    ValuesMore(ds[..i], ds[i], key);
    SinceMore(words, Values(ds[..i], key), ds[i].value);
  }

  method EffectiveValues(text: string, key: string) returns (seen: bool, values: seq<string>)
    ensures values == InForce(Says(text), key)
    ensures seen <==> values != []
  {
    var ds := ServiceLines(text);
    StrippedDirectives(SplitLines(text), "", None);
    forall i | 0 <= i < |ds| ensures ds[i].value == "" || Words(ds[i].value) != [] { TightWords(ds[i].value); }
    seen, values := Gather(Words, ds, key);
  }

  // One directive more, for any way to split a value into words.
  lemma SinceMore(words: string -> seq<string>, before: seq<string>, value: string)
    ensures FlatMap(words, SinceReset(before + [value]))
            == if value == "" then [] else FlatMap(words, SinceReset(before)) + words(value)
  {
    assert (before + [value])[..|before|] == before;
    if value != "" {
      FlatMapAppend(words, SinceReset(before), [value]);
      FlatMapOne(words, value);
    }
  }

  lemma ValuesMore(ds: seq<Directive>, d: Directive, key: string)
    ensures Values(ds + [d], key) == if d.key == key then Values(ds, key) + [d.value] else Values(ds, key)
  {
    ValuesAppend(ds, [d], key);
    assert Values([d], key) == if d.key == key then [d.value] else [];
    assert Values(ds, key) + [] == Values(ds, key);
  }

  lemma {:induction false} ValuesAppend(a: seq<Directive>, b: seq<Directive>, key: string)
    ensures Values(a + b, key) == Values(a, key) + Values(b, key)
  {
    if a == [] {
      assert a + b == b;
    } else {
      assert (a + b)[0] == a[0] && (a + b)[1..] == a[1..] + b;
      ValuesAppend(a[1..], b, key);
      Regroup(if a[0].key == key then [a[0].value] else [], Values(a[1..], key), Values(b, key));
    }
  }

  lemma {:induction false} SinceResetAppend(a: seq<string>, b: seq<string>)
    ensures SinceReset(a + b) == if "" in b then SinceReset(b) else SinceReset(a) + b
  {
    if b == [] {
      assert a + b == a;
    } else {
      var last := b[|b| - 1];
      assert (a + b)[..|a + b| - 1] == a + b[..|b| - 1];
      assert b == b[..|b| - 1] + [last];
      SinceResetAppend(a, b[..|b| - 1]);
      if last != "" {
        assert "" in b <==> "" in b[..|b| - 1];
      }
    }
  }

  ghost predicate Resets(ds: seq<Directive>, key: string) {
    "" in Values(ds, key)
  }

  /** Reading one file after another: append, or replace when the later file resets the list. */
  lemma InForceAppend(a: seq<Directive>, b: seq<Directive>, key: string)
    ensures InForce(a + b, key) == if Resets(b, key) then InForce(b, key) else InForce(a, key) + InForce(b, key)
  {
    ValuesAppend(a, b, key);
    SinceResetAppend(Values(a, key), Values(b, key));
    if !Resets(b, key) {
      NothingReset(Values(b, key));
      FlatMapAppend(Words, SinceReset(Values(a, key)), Values(b, key));
    }
  }

  lemma {:induction false} NothingReset(vs: seq<string>)
    requires "" !in vs
    ensures SinceReset(vs) == vs
  {
    if vs != [] {
      NothingReset(vs[..|vs| - 1]);
    }
  }

  // Assignment number `i` still counts: it is one of `key`, says something, and none of `key` behind it is empty.
  ghost predicate Counts(ds: seq<Directive>, key: string, i: nat) {
    i < |ds| && ds[i].key == key && ds[i].value != ""
    && forall j | i < j < |ds| :: !(ds[j].key == key && ds[j].value == "")
  }

  // Where the assignments that count are, in order.
  ghost predicate CountsAt(ds: seq<Directive>, key: string, at: seq<nat>) {
    (forall i | 0 <= i < |at| :: Counts(ds, key, at[i])) && (forall i, j | 0 <= i < j < |at| :: at[i] < at[j])
    && (forall i: nat | Counts(ds, key, i) :: i in at)
  }

  function ValuesAt(ds: seq<Directive>, at: seq<nat>): (vs: seq<string>)
    requires forall i | 0 <= i < |at| :: at[i] < |ds|
    ensures |vs| == |at| && forall i | 0 <= i < |at| :: vs[i] == ds[at[i]].value
  {
    if at == [] then [] else ValuesAt(ds, at[..|at| - 1]) + [ds[at[|at| - 1]].value]
  }

  /** What is in force for a list: the words of the assignments of that key with no empty one behind them,
      in the order of the file, and nothing else. */
  lemma InForceExactly(ds: seq<Directive>, key: string) returns (at: seq<nat>)
    ensures CountsAt(ds, key, at) && InForce(ds, key) == FlatMap(Words, ValuesAt(ds, at))
  {
    at := LastingValues(ds, key, Values(ds, key));
  }

  lemma {:induction false} LastingValues(ds: seq<Directive>, key: string, all: seq<string>) returns (at: seq<nat>)
    requires all == Values(ds, key)
    ensures CountsAt(ds, key, at) && SinceReset(all) == ValuesAt(ds, at)
  {
    at := [];
    if ds != [] {
      var n := |ds| - 1;
      var front := Values(ds[..n], key);
      var before := LastingValues(ds[..n], key, front);
      assert ds == ds[..n] + [ds[n]];
      ValuesMore(ds[..n], ds[n], key);
      at := OneMoreCounts(ds, key, before, front, all);
    }
  }

  lemma OneMoreCounts(ds: seq<Directive>, key: string, before: seq<nat>, front: seq<string>, all: seq<string>)
    returns (at: seq<nat>)
    requires ds != [] && CountsAt(ds[..|ds| - 1], key, before)
    requires SinceReset(front) == ValuesAt(ds[..|ds| - 1], before)
    requires all == if ds[|ds| - 1].key == key then front + [ds[|ds| - 1].value] else front
    ensures CountsAt(ds, key, at) && SinceReset(all) == ValuesAt(ds, at)
  {
    var last := ds[|ds| - 1];
    SameValues(ds, before);
    if last.key != key {
      at := before;
      PassedOver(ds, key, before);
    } else {
      SinceOne(front, last.value);
      if last.value == "" {
        at := [];
        Reset(ds, key);
      } else {
        at := before + [|ds| - 1];
        ValuesLast(ds, before, |ds| - 1);
        CountedIn(ds, key, before);
      }
    }
  }

  lemma SinceOne(vs: seq<string>, v: string)
    ensures SinceReset(vs + [v]) == if v == "" then [] else SinceReset(vs) + [v]
  {
    assert (vs + [v])[..|vs|] == vs;
  }

  lemma {:induction false} SameValues(ds: seq<Directive>, at: seq<nat>)
    requires ds != [] && forall i | 0 <= i < |at| :: at[i] < |ds| - 1
    ensures ValuesAt(ds, at) == ValuesAt(ds[..|ds| - 1], at)
  {
    if at != [] { SameValues(ds, at[..|at| - 1]); }
  }

  lemma ValuesLast(ds: seq<Directive>, at: seq<nat>, n: nat)
    requires n < |ds| && forall i | 0 <= i < |at| :: at[i] < |ds|
    ensures ValuesAt(ds, at + [n]) == ValuesAt(ds, at) + [ds[n].value]
  {
    assert (at + [n])[..|at|] == at;
  }

  lemma PassedOver(ds: seq<Directive>, key: string, at: seq<nat>)
    requires ds != [] && CountsAt(ds[..|ds| - 1], key, at) && ds[|ds| - 1].key != key
    ensures CountsAt(ds, key, at)
  {
    SameCounts(ds, key);
  }

  lemma Reset(ds: seq<Directive>, key: string)
    requires ds != [] && ds[|ds| - 1].key == key && ds[|ds| - 1].value == ""
    ensures CountsAt(ds, key, [])
  {}

  lemma CountedIn(ds: seq<Directive>, key: string, at: seq<nat>)
    requires ds != [] && CountsAt(ds[..|ds| - 1], key, at) && ds[|ds| - 1].key == key && ds[|ds| - 1].value != ""
    ensures CountsAt(ds, key, at + [|ds| - 1])
  {
    SameCounts(ds, key);
    var more := at + [|ds| - 1];
    assert Counts(ds, key, |ds| - 1) && more[|at|] == |ds| - 1;
    forall i: nat | Counts(ds, key, i) ensures i in more {
      if i < |ds| - 1 { assert i in at; }
    }
  }

  lemma SameCounts(ds: seq<Directive>, key: string)
    requires ds != [] && !(ds[|ds| - 1].key == key && ds[|ds| - 1].value == "")
    ensures forall i: nat | i < |ds| - 1 :: Counts(ds, key, i) <==> Counts(ds[..|ds| - 1], key, i)
  {
    var front := ds[..|ds| - 1];
    forall i: nat | i < |ds| - 1 ensures Counts(ds, key, i) <==> Counts(front, key, i) {
      assert forall j | 0 <= j < |front| :: front[j] == ds[j];
    }
  }

  lemma {:induction false} StrippedRead(parse: Parser<Section, Directive>, raws: seq<string>, buf: string,
                                        section: Section)
    requires forall at, text :: Stripped(parse(at, text).items)
    ensures Stripped(Read(parse, raws, buf, section).items)
  {
    if raws != [] {
      if Continues(raws[0]) {
        StrippedRead(parse, raws[1..], Grown(buf, raws[0]), section);
      } else {
        var p := parse(section, buf + raws[0]);
        StrippedRead(parse, raws[1..], "", p.state);
        StrippedBoth(p.items, Read(parse, raws[1..], "", p.state).items);
      }
    }
  }

  // Directive values come stripped.
  lemma StrippedDirectives(raws: seq<string>, buf: string, section: Section)
    ensures Stripped(Read(ParseLine, raws, buf, section).items)
  {
    forall at, text ensures Stripped(ParseLine(at, text).items) { StrippedLine(at, text); }
    StrippedRead(ParseLine, raws, buf, section);
  }

  lemma TightWords(v: string)
    requires Tight(v)
    ensures v == "" || Words(v) != []
  {}

  // The directive of an assignment line.
  function Assigned(line: string): (d: Directive)
    requires '=' in line
    ensures Tight(d.value)
  {
    Directive(Strip(Sides(line).0), Strip(Sides(line).1))
  }

  // What stands before and behind the first equals sign.
  function Sides(line: string): (string, string)
    requires '=' in line
  {
    (line[..IndexOf(line, '=')], line[IndexOf(line, '=') + 1..])
  }

  lemma StrippedLine(section: Section, text: string)
    ensures Stripped(ParseLine(section, text).items)
  {
    StrippedParse(section, Strip(text));
  }

  lemma StrippedParse(section: Section, line: string)
    ensures Stripped(ParseStripped(section, line).items)
  {
    if ParseStripped(section, line).items != [] {
      AssignmentRead(section, line);
      StrippedOne(Assigned(line));
    }
  }

  lemma StrippedOne(d: Directive)
    requires Tight(d.value)
    ensures Stripped([d])
  {}

  lemma StrippedBoth(a: seq<Directive>, b: seq<Directive>)
    requires Stripped(a) && Stripped(b)
    ensures Stripped(a + b)
  {}

  // ------------------------------------------------------- drop-ins

  datatype DropIn = DropIn(path: string, text: string)

  const MARK := "# --- drop-in: "

  function Marker(path: string): string {
    MARK + path
  }

  function Appended(text: string, d: DropIn): string {
    text + "\n" + Marker(d.path) + "\n" + d.text
  }

  // The unit as the gate assembles it: the file, then each drop-in behind a marker line.
  function Merged(unit: string, dropins: seq<DropIn>): string {
    if dropins == [] then unit
    else Appended(Merged(unit, dropins[..|dropins| - 1]), dropins[|dropins| - 1])
  }

  method MergedText(unit: string, dropins: seq<DropIn>) returns (text: string)
    ensures text == Merged(unit, dropins)
  {
    text := unit;
    for i := 0 to |dropins|
      invariant text == Merged(unit, dropins[..i])
    {
      assert dropins[..i + 1][..i] == dropins[..i];
      text := Appended(text, dropins[i]);
    }
    assert dropins[..|dropins|] == dropins;
  }

  // A continued last line that no line break ends.
  predicate Dangling(text: string) {
    var lines := SplitLines(text + "\n");
    lines != [] && Continues(lines[|lines| - 1])
  }

  // The [Service] lines a file would have before its first section header.
  function Headless(text: string): seq<Directive> {
    Leading(ParseLine, "Service", SplitLines(text), "")
  }

  lemma ParserIsSectioned()
    ensures Sectioned(ParseLine, "Service")
  {}

  lemma EmptyLine(section: Section)
    ensures ParseLine(section, "") == Parsed(section, [])
  {}

  lemma MarkerLine(section: Section, path: string)
    ensures ParseLine(section, Marker(path)) == Parsed(section, [])
  {
    MarkerStripped(Marker(path));
  }

  lemma MarkerStripped(line: string)
    requires line != "" && line[0] == '#'
    ensures Strip(line) != "" && Strip(line)[0] == '#'
  {
    assert LStrip(line) == line;
  }

  // A path that keeps its marker on one line of its own.
  ghost predicate PlainPath(path: string) {
    (forall i | 0 <= i < |path| :: !IsBreak(path[i])) && !Continues(path)
  }

  // Where the reading of a text stands once a line break ends it.
  function StandOf(text: string): Stand<Section, Directive> {
    Stop(ParseLine, SplitLines(text + "\n"), "", None)
  }

  // What the line a text leaves unfinished says if nothing follows.
  function LastSays(text: string): seq<Directive> {
    if StandOf(text).buf == "" then [] else ParseLine(StandOf(text).said.state, StandOf(text).buf).items
  }

  // The last logical line as the drop-in's marker completes it.
  function Marked(text: string, path: string): Parsed<Section, Directive> {
    ParseLine(StandOf(text).said.state, StandOf(text).buf + Marker(path))
  }

  /** The exact law of appending a drop-in to any text whatever. When the text ends in a continued line,
      that line is read with the marker as its end, and the section it would have opened may not be. */
  lemma AppendAnyDropIn(text: string, d: DropIn)
    requires PlainPath(d.path)
    ensures var m := Marked(text, d.path);
            Says(Appended(text, d))
            == StandOf(text).said.items
               + (m.items + ((if InService(m.state) then Headless(d.text) else []) + Says(d.text)))
    ensures Says(text) == StandOf(text).said.items + LastSays(text)
  {
    var xs, tail := SplitLines(text + "\n"), Marker(d.path) + "\n" + d.text;
    var at := StandOf(text);
    assert Appended(text, d) == text + "\n" + tail;
    LinesAtNewline(text, tail, "");
    ReadOn(ParseLine, xs, SplitLines(tail), "", None);
    MarkerLines(d);
    ReadMarked(SplitLines(tail), d, at.buf, at.said.state);
    ReadSectioned(d.text, Marked(text, d.path).state);
    StandReads(text);
  }

  // The line the marker completes is a continued one exactly when the text dangles.
  lemma StandDangles(text: string)
    ensures Dangling(text) <==> StandOf(text).buf != ""
  {
    SomeLine(text + "\n", "");
    StopsOpen(ParseLine, SplitLines(text + "\n"), "", None);
  }

  lemma ReadSectioned(text: string, section: Section)
    ensures Read(ParseLine, SplitLines(text), "", section).items
         == (if InService(section) then Headless(text) else []) + Says(text)
  {
    ParserIsSectioned();
    SectionLaw(ParseLine, "Service", SplitLines(text), "", section);
  }

  lemma ReadMarked(lines: seq<string>, d: DropIn, buf: string, section: Section)
    requires PlainPath(d.path) && lines == [Marker(d.path)] + SplitLines(d.text)
    ensures var m := ParseLine(section, buf + Marker(d.path));
            Read(ParseLine, lines, buf, section) == Before(m.items, Read(ParseLine, SplitLines(d.text), "", m.state))
  {
    assert !Continues(Marker(d.path)) by {
      assert d.path != "" ==> Marker(d.path)[|Marker(d.path)| - 1] == d.path[|d.path| - 1];
    }
    assert lines[1..] == SplitLines(d.text);
  }

  lemma StandReads(text: string)
    ensures var at := StandOf(text);
            Reading(text)
            == Before(at.said.items,
                      if at.buf == "" then Parsed(at.said.state, []) else ParseLine(at.said.state, at.buf))
    ensures StandOf(text).buf == "" ==> Reading(text) == StandOf(text).said
  {
    var at := StandOf(text);
    StandReadsOn(text, SplitLines(text + "\n"));
    assert at.said.items + [] == at.said.items;
  }

  lemma StandReadsOn(text: string, xs: seq<string>)
    requires xs == SplitLines(text + "\n")
    ensures var at := StandOf(text);
            Reading(text) == Before(at.said.items, Read(ParseLine, [], at.buf, at.said.state))
  {
    forall s: Section ensures ParseLine(s, "") == Parsed(s, []) { EmptyLine(s); }
    ReadNewlineEnd(ParseLine, text, None);
    ReadOn(ParseLine, xs, [], "", None);
    assert xs + [] == xs;
  }

  /** For any text: merging is reading the files one after the other exactly when the text's last logical
      line, completed by the marker, followed by what the drop-in has before its first header if the
      section in force is then [Service], says what that last line says alone. */
  lemma MergeAnyExactly(text: string, d: DropIn)
    requires PlainPath(d.path)
    ensures var m := Marked(text, d.path);
            Says(Appended(text, d)) == Says(text) + Says(d.text)
            <==> m.items + (if InService(m.state) then Headless(d.text) else []) == LastSays(text)
  {
    AppendAnyDropIn(text, d);
    var m := Marked(text, d.path);
    Between(StandOf(text).said.items, m.items, if InService(m.state) then Headless(d.text)
          else [], LastSays(text), Says(d.text));
  }

  lemma Between<T>(a: seq<T>, x: seq<T>, y: seq<T>, z: seq<T>, b: seq<T>)
    ensures a + (x + (y + b)) == a + z + b <==> x + y == z
  {
    var left, right := a + (x + (y + b)), a + z + b;
    assert left == a + (x + y) + b;
    if left == right {
      assert |x + y| == |z|;
      assert left[|a|..|a| + |z|] == x + y && right[|a|..|a| + |z|] == z;
    }
  }

  /** The same for a text that does not end in a continued line: the marker is a line of its own and
      says nothing. */
  lemma AppendDropIn(text: string, d: DropIn)
    requires !Dangling(text) && PlainPath(d.path)
    ensures var r := Reading(text);
            Says(Appended(text, d))
            == r.items + ((if InService(r.state) then Headless(d.text) else []) + Says(d.text))
  {
    var leak := (if InService(Reading(text).state) then Headless(d.text) else []) + Says(d.text);
    AppendAnyDropIn(text, d);
    StandDangles(text);
    StandReads(text);
    assert "" + Marker(d.path) == Marker(d.path);
    MarkerLine(StandOf(text).said.state, d.path);
    assert [] + leak == leak;
  }

  lemma MarkerLines(d: DropIn)
    requires PlainPath(d.path)
    ensures SplitLines(Marker(d.path) + "\n" + d.text) == [Marker(d.path)] + SplitLines(d.text)
  {
    var m := Marker(d.path);
    forall i | 0 <= i < |m| ensures !IsBreak(m[i]) {
      if i >= |MARK| { assert m[i] == d.path[i - |MARK|]; }
    }
    assert m + "\n" + d.text == m + ("\n" + d.text);
    UnbrokenLine(m, "\n" + d.text, "");
    assert ("\n" + d.text)[1..] == d.text && BreakLength("\n" + d.text) == 1;
    assert "" + m == m;
  }

  /** Merging is reading the files one after the other exactly when no [Service] section runs over
      into the lines before the drop-in's first header. */
  lemma MergeExactly(text: string, d: DropIn)
    requires !Dangling(text) && PlainPath(d.path)
    ensures Says(Appended(text, d)) == Says(text) + Says(d.text)
        <==> !(InService(Reading(text).state) && Headless(d.text) != [])
  {
    AppendDropIn(text, d);
    assert [] + Says(d.text) == Says(d.text);
    var extra := if InService(Reading(text).state) then Headless(d.text) else [];
    assert |Says(Appended(text, d))| == |Says(text)| + |extra| + |Says(d.text)|;
  }

  lemma DanglingAfter(a: string, b: string)
    ensures Dangling(a + "\n" + b) == Dangling(b)
  {
    assert a + "\n" + b + "\n" == a + "\n" + (b + "\n");
    LinesAtNewline(a, b + "\n", "");
    SomeLine(b + "\n", "");
  }

  // Files that merge the way systemd reads them: none ends in a continued line, and a drop-in has
  // no directive before its first section header.
  ghost predicate Mergeable(unit: string, dropins: seq<DropIn>) {
    !Dangling(unit)
    && forall i | 0 <= i < |dropins| ::
         PlainPath(dropins[i].path) && !Dangling(dropins[i].text) && Headless(dropins[i].text) == []
  }

  function SaysAll(unit: string, dropins: seq<DropIn>): seq<Directive> {
    if dropins == [] then Says(unit)
    else SaysAll(unit, dropins[..|dropins| - 1]) + Says(dropins[|dropins| - 1].text)
  }

  /** The merged text says what the unit says and then what each drop-in says, in order. */
  lemma {:induction false} MergeDirectives(unit: string, dropins: seq<DropIn>)
    requires Mergeable(unit, dropins)
    ensures Says(Merged(unit, dropins)) == SaysAll(unit, dropins) && !Dangling(Merged(unit, dropins))
  {
    if dropins != [] {
      var last := dropins[|dropins| - 1];
      var before := Merged(unit, dropins[..|dropins| - 1]);
      MergeDirectives(unit, dropins[..|dropins| - 1]);
      MergeExactly(before, last);
      DanglingAfter(before + "\n" + Marker(last.path), last.text);
    }
  }

  // One more file on top of the values in force: append, or replace when it resets.
  function Layer(values: seq<string>, ds: seq<Directive>, key: string): seq<string> {
    if "" in Values(ds, key) then InForce(ds, key) else values + InForce(ds, key)
  }

  function Layers(unit: string, dropins: seq<DropIn>, key: string): seq<string> {
    if dropins == [] then InForce(Says(unit), key)
    else Layer(Layers(unit, dropins[..|dropins| - 1], key), Says(dropins[|dropins| - 1].text), key)
  }

  /** The values in force in the merged text are the unit's, layered with each drop-in's in order. */
  lemma {:induction false} MergedInForce(unit: string, dropins: seq<DropIn>, key: string)
    requires Mergeable(unit, dropins)
    ensures InForce(Says(Merged(unit, dropins)), key) == Layers(unit, dropins, key)
  {
    MergeDirectives(unit, dropins);
    LayersOfSays(unit, dropins, key);
  }

  lemma {:induction false} LayersOfSays(unit: string, dropins: seq<DropIn>, key: string)
    ensures InForce(SaysAll(unit, dropins), key) == Layers(unit, dropins, key)
  {
    if dropins != [] {
      LayersOfSays(unit, dropins[..|dropins| - 1], key);
      InForceAppend(SaysAll(unit, dropins[..|dropins| - 1]), Says(dropins[|dropins| - 1].text), key);
    }
  }

  // ------------------------------------------------------- where merging and systemd part ways

  // A word that can stand as a key or as a value of a one-line directive.
  ghost predicate Plain(w: string) {
    w != "" && (forall i | 0 <= i < |w| :: !IsBreak(w[i]) && w[i] != '=' && w[i] != '\\')
    && !IsSpace(w[0]) && !IsSpace(w[|w| - 1]) && w[0] != '#' && w[0] != ';' && w[0] != '['
  }

  /** A drop-in without a section header is inert to systemd and live in the merged text, whatever
      it assigns and whatever unit ending in [Service] stands before it. */
  lemma HeadlessDropInLeaks(unit: string, path: string, key: string, value: string)
    requires !Dangling(unit) && InService(Reading(unit).state) && PlainPath(path) && Plain(key) && Plain(value)
    ensures Says(key + "=" + value) == []
    ensures Says(Appended(unit, DropIn(path, key + "=" + value))) == Says(unit) + [Directive(key, value)]
  {
    var drop := key + "=" + value;
    assert forall i | 0 <= i < |drop| :: !IsBreak(drop[i]);
    assert drop[|drop| - 1] == value[|value| - 1];
    OneLine(drop);
    DirectiveLine(Some("Service"), key, value);
    DirectiveLine(None, key, value);
    OneLineFile(ParseLine, "Service", drop, None);
    AppendDropIn(unit, DropIn(path, drop));
    assert [Directive(key, value)] + [] == [Directive(key, value)];
  }

  lemma DirectiveLine(section: Section, key: string, value: string)
    requires Plain(key) && value != "" && !IsSpace(value[0]) && !IsSpace(value[|value| - 1])
    ensures ParseLine(section, key + "=" + value)
         == Parsed(section, if InService(section) then [Directive(key, value)] else [])
  {
    var line := key + "=" + value;
    assert line[0] == key[0] && line[|line| - 1] == value[|value| - 1];
    TightLine(section, line);
    AssignedIs(line, key, value);
    AssignmentLine(section, line);
  }

  lemma TightLine(section: Section, line: string)
    requires line != "" && !IsSpace(line[0]) && !IsSpace(line[|line| - 1])
    ensures ParseLine(section, line) == ParseStripped(section, line)
  {
    Unspaced(line);
  }

  lemma AssignmentLine(section: Section, line: string)
    requires '=' in line && line[0] != '#' && line[0] != ';' && line[0] != '['
    ensures ParseStripped(section, line) == Parsed(section, if InService(section) then [Assigned(line)] else [])
  {}

  lemma AssignedIs(line: string, key: string, value: string)
    requires Plain(key) && value != "" && !IsSpace(value[0]) && !IsSpace(value[|value| - 1])
    requires line == key + "=" + value
    ensures '=' in line && Assigned(line) == Directive(key, value)
  {
    SplitDirective(line, key, value);
    Unspaced(key);
    Unspaced(value);
  }

  lemma SplitDirective(line: string, key: string, value: string)
    requires Plain(key) && line == key + "=" + value
    ensures '=' in line && IndexOf(line, '=') == |key|
    ensures line[..|key|] == key && line[|key| + 1..] == value
  {
    assert line[|key|] == '=';
    assert line[..|key|] == key;
    IndexOfIs(line, '=', |key|);
  }

  // The blanks at the end of a text that has something in front of them.
  function Trailing(s: string): (blanks: string)
    ensures LStrip(s) == Strip(s) + blanks && Blank(blanks)
  {
    Tail(LStrip(s))
  }

  function Tail(s: string): (blanks: string)
    ensures s == RStrip(s) + blanks && Blank(blanks)
  {
    RStripRest(s);
    s[|RStrip(s)|..]
  }

  // A value with the marker behind it, the blanks between them kept.
  function Swallowed(value: string, blanks: string, mark: string): string {
    if value == "" then mark else value + blanks + mark
  }

  /** A unit that ends in an unfinished assignment takes the marker of the drop-in after it into the value,
      whatever the unit and the drop-in say; the one exception is a line opening with a bracket that the
      marker turns into a section header. */
  lemma DanglingUnitSwallowsMarker(unit: string, drop: DropIn, d: Directive)
    requires PlainPath(drop.path) && LastSays(unit) == [d]
    requires !Bracketed(Strip(StandOf(unit).buf), Strip(Marker(drop.path)))
    ensures Says(unit) == StandOf(unit).said.items + [d]
    ensures var value := Swallowed(d.value, Trailing(StandOf(unit).buf), Strip(Marker(drop.path)));
            Says(Appended(unit, drop))
            == StandOf(unit).said.items + ([Directive(d.key, value)] + (Headless(drop.text) + Says(drop.text)))
  {
    AppendAnyDropIn(unit, drop);
    AloneRead(StandOf(unit).said.state, StandOf(unit).buf, Strip(StandOf(unit).buf), d);
    MarkerEnds(StandOf(unit).said.state, StandOf(unit).buf, Marker(drop.path), d);
  }

  // The line alone and the line the marker ends, as assignments.
  lemma MarkerEnds(section: Section, buf: string, mark: string, d: Directive)
    requires InService(section) && Assignment(Strip(buf), d) && !Blank(buf)
    requires mark != "" && mark[0] == '#' && !Bracketed(Strip(buf), Strip(mark))
    ensures ParseLine(section, buf + mark)
         == Parsed(section, [Directive(d.key, Swallowed(d.value, Trailing(buf), Strip(mark)))])
  {
    var line, blanks, m := StripEnds(buf, mark);
    EndedRead(section, buf + mark, line, blanks, m, d);
  }

  // A stripped line that assigns.
  predicate Assignment(line: string, d: Directive) {
    Statement(line) && '=' in line && Assigned(line) == d && !IsSpace(line[|line| - 1])
  }

  lemma AloneRead(section: Section, buf: string, line: string, d: Directive)
    requires ParseLine(section, buf).items == [d] && line == Strip(buf)
    ensures InService(section) && Assignment(line, d) && !Blank(buf)
  {
    ParsesStripped(section, buf, line);
    AssignmentRead(section, line);
  }

  lemma EndedRead(section: Section, marked: string, line: string, blanks: string, m: string, d: Directive)
    requires InService(section) && Assignment(line, d) && Blank(blanks)
    requires m != "" && m[0] == '#' && !IsSpace(m[|m| - 1]) && !Bracketed(line, m)
    requires Strip(marked) == line + blanks + m
    ensures ParseLine(section, marked) == Parsed(section, [Directive(d.key, Swallowed(d.value, blanks, m))])
  {
    var whole := line + blanks + m;
    EndedLine(line, blanks, m, whole, d);
    AssignmentLineRead(section, marked, whole, Directive(d.key, Swallowed(d.value, blanks, m)));
  }

  lemma EndedLine(line: string, blanks: string, m: string, whole: string, d: Directive)
    requires Assignment(line, d) && Blank(blanks) && whole == line + blanks + m
    requires m != "" && m[0] == '#' && !IsSpace(m[|m| - 1]) && !Bracketed(line, m)
    ensures Assignment(whole, Directive(d.key, Swallowed(d.value, blanks, m)))
  {
    EndedStatement(line, blanks, m, whole);
    AssignedMore(line, blanks, m, whole);
  }

  lemma AssignmentLineRead(section: Section, text: string, line: string, d: Directive)
    requires InService(section) && Assignment(line, d) && Strip(text) == line
    ensures ParseLine(section, text) == Parsed(section, [d])
  {
    ParsesStripped(section, text, line);
    ReadAssignment(section, line);
  }

  lemma ParsesStripped(section: Section, text: string, line: string)
    requires Strip(text) == line
    ensures ParseLine(section, text) == ParseStripped(section, line)
  {}

  // A line in brackets is a header, whatever is inside.
  predicate Bracketed(opening: string, end: string) {
    StartsWith(opening, "[") && EndsWith(end, "]")
  }

  lemma EndedStatement(line: string, blanks: string, m: string, whole: string)
    requires Statement(line) && m != "" && !Bracketed(line, m) && whole == line + blanks + m
    ensures Statement(whole)
  {
    assert whole[0] == line[0] && whole[|whole| - 1] == m[|m| - 1];
    assert line[..1] == [line[0]] && m[|m| - 1..] == [m[|m| - 1]];
  }

  lemma StripEnds(buf: string, mark: string) returns (line: string, blanks: string, m: string)
    requires !Blank(buf) && mark != "" && mark[0] == '#'
    ensures line == Strip(buf) && blanks == Trailing(buf) && m == Strip(mark)
    ensures Strip(buf + mark) == line + blanks + m && line != "" && Blank(blanks)
    ensures m != "" && m[0] == '#' && !IsSpace(m[|m| - 1])
  {
    line, blanks, m := Strip(buf), Trailing(buf), Strip(mark);
    MarkerStripped(mark);
    StripMore(buf, mark);
  }

  // A line that is neither a comment nor a header.
  predicate Statement(line: string) {
    line != "" && line[0] != '#' && line[0] != ';' && !(line[0] == '[' && line[|line| - 1] == ']')
  }

  lemma AssignmentRead(section: Section, line: string)
    requires ParseStripped(section, line).items != []
    ensures InService(section) && Statement(line) && '=' in line
    ensures ParseStripped(section, line).items == [Assigned(line)]
  {}

  lemma ReadAssignment(section: Section, line: string)
    requires InService(section) && Statement(line) && '=' in line
    ensures ParseStripped(section, line) == Parsed(section, [Assigned(line)])
  {}

  // What stands behind the equals sign grows, what stands in front of it does not.
  lemma AssignedMore(line: string, blanks: string, m: string, whole: string)
    requires '=' in line && !IsSpace(line[|line| - 1]) && Blank(blanks) && whole == line + blanks + m
    requires m != "" && !IsSpace(m[0]) && !IsSpace(m[|m| - 1])
    ensures '=' in whole
    ensures Assigned(whole) == Directive(Assigned(line).key, Swallowed(Assigned(line).value, blanks, m))
  {
    var (a, r) := Sides(line);
    SidesMore(line, blanks, m, whole);
    ValueMore(r, blanks, m);
    AssignedFrom(line, a, r);
    AssignedFrom(whole, a, r + (blanks + m));
  }

  lemma SidesMore(line: string, blanks: string, m: string, whole: string)
    requires '=' in line && !IsSpace(line[|line| - 1]) && whole == line + blanks + m
    ensures '=' in whole && Sides(whole) == (Sides(line).0, Sides(line).1 + (blanks + m))
    ensures var r := Sides(line).1; r == "" || !IsSpace(r[|r| - 1])
  {
    Regroup(line, blanks, m);
    IndexMore(line, blanks + m, whole, IndexOf(line, '='));
    BehindTight(line, IndexOf(line, '='));
  }

  lemma BehindTight(line: string, at: nat)
    requires at < |line| && !IsSpace(line[|line| - 1])
    ensures var r := line[at + 1..]; r == "" || !IsSpace(r[|r| - 1])
  {}

  lemma AssignedFrom(line: string, a: string, b: string)
    requires '=' in line && Sides(line) == (a, b)
    ensures Assigned(line) == Directive(Strip(a), Strip(b))
  {}

  lemma IndexMore(line: string, rest: string, whole: string, at: nat)
    requires '=' in line && at == IndexOf(line, '=') && whole == line + rest
    ensures '=' in whole && IndexOf(whole, '=') == at
    ensures whole[..at] == line[..at] && whole[at + 1..] == line[at + 1..] + rest
  {
    assert whole[at] == '=' && whole[..at] == line[..at];
    IndexOfIs(whole, '=', at);
  }

  lemma ValueMore(r: string, blanks: string, m: string)
    requires (r == "" || !IsSpace(r[|r| - 1])) && Blank(blanks)
    requires m != "" && !IsSpace(m[0]) && !IsSpace(m[|m| - 1])
    ensures Strip(r + (blanks + m)) == Swallowed(Strip(r), blanks, m)
  {
    assert RStrip(m) == m && LStrip(m) == m;
    if r == "" {
      assert r + (blanks + m) == blanks + m;
      LStripBlank(blanks, m);
    } else {
      assert !Blank(r);
      LStripMore(r, blanks + m);
      assert RStrip(LStrip(r)) == LStrip(r);
      RStripMore(blanks, m);
      RStripMore(LStrip(r), blanks + m);
      Regroup(LStrip(r), blanks, m);
    }
  }

  lemma StripMore(s: string, t: string)
    requires !Blank(s) && t != "" && !IsSpace(t[0])
    ensures Strip(s + t) == LStrip(s) + Strip(t)
  {
    LStripMore(s, t);
    assert LStrip(t) == t;
    RStripMore(LStrip(s), t);
  }

  lemma {:induction false} LStripMore(s: string, t: string)
    requires !Blank(s)
    ensures LStrip(s + t) == LStrip(s) + t
  {
    if IsSpace(s[0]) {
      assert (s + t)[1..] == s[1..] + t;
      BlankCons(s);
      LStripMore(s[1..], t);
    }
  }

  lemma {:induction false} LStripBlank(s: string, t: string)
    requires Blank(s)
    ensures LStrip(s + t) == LStrip(t)
  {
    if s == "" {
      assert s + t == t;
    } else {
      assert (s + t)[1..] == s[1..] + t;
      BlankCons(s);
      LStripBlank(s[1..], t);
    }
  }

  lemma {:induction false} RStripMore(s: string, t: string)
    requires RStrip(t) != ""
    ensures RStrip(s + t) == s + RStrip(t)
  {
    if IsSpace(t[|t| - 1]) {
      assert (s + t)[..|s + t| - 1] == s + t[..|t| - 1];
      RStripMore(s, t[..|t| - 1]);
    }
  }

  lemma {:induction false} RStripRest(s: string)
    ensures Blank(s[|RStrip(s)|..])
  {
    if s != "" && IsSpace(s[|s| - 1]) {
      RStripRest(s[..|s| - 1]);
      var n := |RStrip(s)|;
      assert s[n..] == s[..|s| - 1][n..] + [s[|s| - 1]];
    }
  }

  /** Such units there are: one header and one continued assignment, whatever it assigns. */
  lemma MarkerInValue(unit: string, key: string, value: string, path: string)
    requires unit == "[Service]" + "\n" + (key + "=" + value + "\\")
    requires Plain(key) && Plain(value) && PlainPath(path) && path != "" && !IsSpace(path[|path| - 1])
    ensures Says(unit) == [Directive(key, value)]
    ensures Says(Appended(unit, DropIn(path, ""))) == [Directive(key, value + (" " + Marker(path)))]
  {
    UnitStands(unit, "[Service]", key, value);
    SpacedLine(key, value);
    MarkedLine(key, value, path);
    StandAlone(unit, key + "=" + value + " ", path, Directive(key, value),
          Directive(key, value + (" " + Marker(path))));
  }

  lemma UnitStands(unit: string, head: string, key: string, value: string)
    requires head == "[Service]" && unit == head + "\n" + (key + "=" + value + "\\") && Plain(key) && Plain(value)
    ensures StandOf(unit) == Stand(Parsed(Some("Service"), []), key + "=" + value + " ")
  {
    HeaderLine(head);
    PlainLine(key, value);
    StandOfTwo(unit, head, key + "=" + value + "\\");
    GrownFirst(key + "=" + value);
  }

  lemma PlainLine(key: string, value: string)
    requires Plain(key) && Plain(value)
    ensures var last := key + "=" + value + "\\"; Continues(last) && forall i | 0 <= i < |last| :: !IsBreak(last[i])
  {}

  lemma StandAlone(unit: string, buf: string, path: string, alone: Directive, marked: Directive)
    requires PlainPath(path) && StandOf(unit) == Stand(Parsed(Some("Service"), []), buf) && buf != ""
    requires ParseLine(Some("Service"), buf) == Parsed(Some("Service"), [alone])
    requires ParseLine(Some("Service"), buf + Marker(path)) == Parsed(Some("Service"), [marked])
    ensures Says(unit) == [alone] && Says(Appended(unit, DropIn(path, ""))) == [marked]
  {
    AppendAnyDropIn(unit, DropIn(path, ""));
    assert SplitLines("") == [];
  }

  lemma StandOfTwo(unit: string, head: string, last: string)
    requires LinesFrom(head + "\n", "") == [head] && !Continues(head) && unit == head + "\n" + last
    requires ParseLine(None, "" + head) == Parsed(Some("Service"), [])
    requires Continues(last) && forall i | 0 <= i < |last| :: !IsBreak(last[i])
    ensures StandOf(unit) == Stand(Parsed(Some("Service"), []), Grown("", last))
  {
    TwoLines(head, last);
    StopTwo(head, last);
  }

  lemma GrownFirst(line: string)
    ensures Grown("", line + "\\") == line + " "
  {
    assert (line + "\\")[..|line|] == line && "" + line + " " == line + " ";
  }

  lemma TwoLines(head: string, last: string)
    requires LinesFrom(head + "\n", "") == [head] && last != "" && forall i | 0 <= i < |last| :: !IsBreak(last[i])
    ensures SplitLines(head + "\n" + last + "\n") == [head] + [last]
  {
    LinesAtNewline(head, last + "\n", "");
    assert head + "\n" + last + "\n" == head + "\n" + (last + "\n");
    UnbrokenLine(last, "\n", "");
    assert "" + last == last && LinesFrom("\n", last) == [last] by { assert "\n"[1..] == ""; }
  }

  lemma HeaderLine(head: string)
    requires head == "[Service]"
    ensures LinesFrom(head + "\n", "") == [head] && !Continues(head)
    ensures ParseLine(None, "" + head) == Parsed(Some("Service"), [])
  {
    HeaderText(head, "Service");
    HeaderAlone(head);
    HeaderOpens(head, "Service");
  }

  lemma HeaderText(head: string, name: string)
    requires head == "[Service]" && name == "Service"
    ensures head == ['['] + name + [']'] && "" + head == head && !Continues(head)
    ensures forall i | 0 <= i < |head| :: !IsBreak(head[i])
  {}

  lemma HeaderOpens(head: string, name: string)
    requires head == ['['] + name + [']']
    ensures ParseLine(None, head) == Parsed(Some(name), [])
  {
    TightLine(None, head);
    assert head[1..|head| - 1] == name;
  }

  lemma HeaderAlone(head: string)
    requires head != "" && forall i | 0 <= i < |head| :: !IsBreak(head[i])
    ensures LinesFrom(head + "\n", "") == [head]
  {
    UnbrokenLine(head, "\n", "");
    assert "" + head == head && LinesFrom("\n", head) == [head] by { assert "\n"[1..] == ""; }
  }

  lemma StopTwo(head: string, last: string)
    requires !Continues(head) && Continues(last) && ParseLine(None, "" + head) == Parsed(Some("Service"), [])
    ensures Stop(ParseLine, [head] + [last], "", None) == Stand(Parsed(Some("Service"), []), Grown("", last))
  {
    var none: seq<Directive> := [];
    assert ([head] + [last])[0] == head && ([head] + [last])[1..] == [last] && [last][1..] == [];
    assert Stop(ParseLine, [last], "", Some("Service")) == Stand(Parsed(Some("Service"), none), Grown("", last));
    assert none + none == none;
  }

  lemma SpacedLine(key: string, value: string)
    requires Plain(key) && Plain(value)
    ensures ParseLine(Some("Service"), key + "=" + value + " ") == Parsed(Some("Service"), [Directive(key, value)])
  {
    var line := key + "=" + value;
    assert line[0] == key[0] && line[|line| - 1] == value[|value| - 1];
    Unspaced(line);
    RStripSpace(line);
    DirectiveLine(Some("Service"), key, value);
  }

  lemma RStripSpace(line: string)
    requires line != "" && !IsSpace(line[0]) && !IsSpace(line[|line| - 1])
    ensures Strip(line + " ") == line
  {
    var t := line + " ";
    assert t[..|t| - 1] == line && t[0] == line[0];
    assert LStrip(t) == t && RStrip(line) == line && RStrip(t) == RStrip(t[..|t| - 1]);
  }

  // The same assignment with the marker behind it.
  lemma MarkedLine(key: string, value: string, path: string)
    requires Plain(key) && Plain(value) && path != "" && !IsSpace(path[|path| - 1])
    ensures ParseLine(Some("Service"), key + "=" + value + " " + Marker(path))
         == Parsed(Some("Service"), [Directive(key, value + (" " + Marker(path)))])
  {
    var more := " " + Marker(path);
    assert more[|more| - 1] == path[|path| - 1];
    assert key + "=" + value + " " + Marker(path) == key + "=" + (value + more);
    DirectiveLine(Some("Service"), key, value + more);
  }

  lemma OneLine(w: string)
    requires w != "" && !Continues(w) && forall i | 0 <= i < |w| :: !IsBreak(w[i])
    ensures SplitLines(w) == [w] == SplitLines(w + "\n") && !Dangling(w)
  {
    assert w + "" == w && "" + w == w;
    UnbrokenLine(w, "", "");
    UnbrokenLine(w, "\n", "");
    assert "\n"[1..] == "";
    assert LinesFrom("\n", w) == [w] + LinesFrom("", "");
  }

  lemma Unspaced(w: string)
    requires w != "" && !IsSpace(w[0]) && !IsSpace(w[|w| - 1])
    ensures Strip(w) == w
  {}
}
