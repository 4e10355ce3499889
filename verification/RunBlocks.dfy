/** `run_blocks` of os/repo-tools/check-workflow-quoting.py: every `run:` entry of a workflow, whether a
    single line or a block scalar (YAML 1.2.2, sections 8.1.2 Literal Style and 8.1.3 Folded Style). */
module RunBlocks {
  import opened Common
  import opened Text

  // ------------------------------------------------------- one line

  // A line holding `run:`: the width of its leading blanks, and the stripped text after it.
  datatype Head = Head(indent: nat, rest: string)

  function Indent(line: string): (n: nat)
    ensures n <= |line|
  {
    |line| - |LStrip(line)|
  }

  // The text after `run:` in a line already relieved of its leading blanks and its dash.
  function AfterRun(s: string): Option<string> {
    if StartsWith(s, "run:") then Some(Strip(s[4..])) else None
  }

  function HeadOf(line: string): Option<Head> {
    var s := LStrip(line);
    var rest :=
      if AfterRun(s).Some? then AfterRun(s)
      else if |s| > 1 && s[0] == '-' && IsSpace(s[1]) then AfterRun(LStrip(s[1..]))
      else None;
    if rest.Some? then Some(Head(Indent(line), rest.value)) else None
  }

  // `|` or `>`, a chomping mark, a comment.
  function StyleOf(rest: string): Option<char> {
    if rest == "" || !(rest[0] == '|' || rest[0] == '>') then None
    else
      var s := if |rest| > 1 && (rest[1] == '+' || rest[1] == '-') then rest[2..] else rest[1..];
      var t := LStrip(s);
      if t == "" || t[0] == '#' then Some(rest[0]) else None
  }

  // A chomping mark or none, blanks, and a comment or nothing.
  ghost predicate StyleTail(chomp: string, pad: string, tail: string) {
    (chomp == "" || chomp == "+" || chomp == "-") && Blank(pad) && (tail == "" || tail[0] == '#')
  }

  // What stands behind the first character and its chomping mark.
  function Unchomped(rest: string): string
    requires rest != ""
  {
    if |rest| > 1 && (rest[1] == '+' || rest[1] == '-') then rest[2..] else rest[1..]
  }

  lemma StyleReads(rest: string, c: char)
    ensures StyleOf(rest) == Some(c) <==>
              rest != "" && rest[0] == c && (c == '|' || c == '>')
              && var t := LStrip(Unchomped(rest)); t == "" || t[0] == '#'
  {}

  lemma NoMark(pad: string, tail: string)
    requires Blank(pad) && (tail == "" || tail[0] == '#')
    ensures var more := pad + tail; more != "" ==> more[0] != '+' && more[0] != '-'
  {
    assert pad != "" ==> IsSpace(pad[0]);
  }

  lemma UnchompedIs(c: char, chomp: string, more: string)
    requires chomp == "" || chomp == "+" || chomp == "-"
    requires more != "" ==> more[0] != '+' && more[0] != '-'
    ensures Unchomped([c] + (chomp + more)) == more
  {
    var rest := [c] + (chomp + more);
    if chomp == "" {
      assert chomp + more == more && rest[1..] == more;
    } else {
      assert rest[1] == chomp[0] && rest[2..] == more;
    }
  }

  lemma StyleBack(c: char, chomp: string, pad: string, tail: string)
    requires (c == '|' || c == '>') && StyleTail(chomp, pad, tail)
    ensures StyleOf([c] + (chomp + (pad + tail))) == Some(c)
  {
    NoMark(pad, tail);
    UnchompedIs(c, chomp, pad + tail);
    LStripTail(pad, tail);
    StyleReads([c] + (chomp + (pad + tail)), c);
  }

  lemma LStripTail(pad: string, tail: string)
    requires Blank(pad) && (tail == "" || tail[0] == '#')
    ensures LStrip(pad + tail) == tail
  {
    LStripPad(pad, tail);
  }

  lemma StyleSplit(rest: string, c: char) returns (chomp: string, pad: string, tail: string)
    requires StyleOf(rest) == Some(c)
    ensures (c == '|' || c == '>') && StyleTail(chomp, pad, tail) && rest == [c] + (chomp + (pad + tail))
  {
    StyleReads(rest, c);
    chomp := if |rest| > 1 && (rest[1] == '+' || rest[1] == '-') then [rest[1]] else "";
    pad, tail := Halves(Unchomped(rest));
    ChompedIs(rest, chomp);
  }

  lemma ChompedIs(rest: string, chomp: string)
    requires rest != "" && chomp == if |rest| > 1 && (rest[1] == '+' || rest[1] == '-') then [rest[1]] else ""
    ensures rest == [rest[0]] + (chomp + Unchomped(rest))
  {}

  /** A block opens exactly with a bar or an angle, then at most a chomping mark, blanks and a comment. */
  lemma StyleExactly(rest: string, c: char)
    ensures StyleOf(rest) == Some(c) <==>
              (c == '|' || c == '>')
              && exists chomp, pad, tail :: StyleTail(chomp, pad, tail) && rest == [c] + (chomp + (pad + tail))
  {
    if StyleOf(rest) == Some(c) {
      var chomp, pad, tail := StyleSplit(rest, c);
    }
    if c == '|' || c == '>' {
      if chomp, pad, tail :| StyleTail(chomp, pad, tail) && rest == [c] + (chomp + (pad + tail)) {
        StyleBack(c, chomp, pad, tail);
      }
    }
  }

  // The dash of a list entry and the blanks behind it, or nothing.
  ghost predicate DashOrNone(dash: string) {
    dash == "" || (|dash| > 1 && dash[0] == '-' && Blank(dash[1..]))
  }

  lemma RunRead(after: string)
    ensures AfterRun("run:" + after) == Some(Strip(after))
  {
    assert ("run:" + after)[..4] == "run:" && ("run:" + after)[4..] == after;
  }

  lemma RunStarts(s: string)
    ensures AfterRun(s).Some? <==> StartsWith(s, "run:")
  {}

  lemma PrefixSplit(s: string, p: string)
    requires StartsWith(s, p)
    ensures s == p + s[|p|..]
  {}

  // The text `HeadOf` looks for `run:` in.
  function Undashed(s: string): string {
    if AfterRun(s).None? && |s| > 1 && s[0] == '-' && IsSpace(s[1]) then LStrip(s[1..]) else s
  }

  lemma HeadReads(line: string)
    ensures var run := AfterRun(Undashed(LStrip(line)));
            HeadOf(line) == if run.Some? then Some(Head(Indent(line), run.value)) else None
  {}

  lemma UndashedIs(dash: string, after: string)
    requires DashOrNone(dash)
    ensures Undashed(dash + ("run:" + after)) == "run:" + after
  {
    var run := "run:" + after;
    var s := dash + run;
    if dash == "" {
      assert s == run;
      RunRead(after);
    } else {
      assert s[0] == '-' && s[1..] == dash[1..] + run && s[1] == dash[1..][0];
      LStripPad(dash[1..], run);
      NoRun(s);
    }
  }

  lemma NoRun(s: string)
    requires s != "" && s[0] != 'r'
    ensures AfterRun(s).None?
  {
    RunStarts(s);
    OtherPrefix(s, "run:");
  }

  lemma OtherPrefix(s: string, p: string)
    requires s != "" && p != "" && s[0] != p[0]
    ensures !StartsWith(s, p)
  {
    assert |p| <= |s| ==> s[..|p|][0] == s[0];
  }

  lemma LStripDashed(pad: string, dash: string, after: string)
    requires Blank(pad) && DashOrNone(dash)
    ensures LStrip(pad + (dash + ("run:" + after))) == dash + ("run:" + after)
  {
    var s := dash + ("run:" + after);
    assert s[0] == if dash == "" then 'r' else '-';
    LStripPad(pad, s);
  }

  lemma HeadBack(pad: string, dash: string, after: string)
    requires Blank(pad) && DashOrNone(dash)
    ensures HeadOf(pad + (dash + ("run:" + after))) == Some(Head(|pad|, Strip(after)))
  {
    LStripDashed(pad, dash, after);
    UndashedIs(dash, after);
    RunRead(after);
    HeadFrom(pad + (dash + ("run:" + after)), dash + ("run:" + after), "run:" + after, Strip(after), |pad|);
  }

  lemma HeadFrom(line: string, s: string, run: string, rest: string, n: nat)
    requires LStrip(line) == s && Undashed(s) == run && AfterRun(run) == Some(rest) && |line| == n + |s|
    ensures HeadOf(line) == Some(Head(n, rest))
  {
    HeadReads(line);
  }

  lemma UndashedSplit(s: string) returns (dash: string)
    ensures DashOrNone(dash) && s == dash + Undashed(s)
  {
    dash := "";
    if AfterRun(s).None? && |s| > 1 && s[0] == '-' && IsSpace(s[1]) { dash := DashSplit(s); }
  }

  lemma DashSplit(s: string) returns (dash: string)
    requires |s| > 1 && s[0] == '-' && IsSpace(s[1])
    ensures DashOrNone(dash) && s == dash + LStrip(s[1..])
  {
    var rest := s[1..];
    assert s == ['-'] + rest && rest[0] == s[1];
    var gap, t := Halves(rest);
    SpaceFirst(rest, gap);
    dash := ['-'] + gap;
    DashIs(gap);
    Regroup(['-'], gap, t);
  }

  lemma DashIs(gap: string)
    requires gap != "" && Blank(gap)
    ensures DashOrNone(['-'] + gap)
  {
    assert (['-'] + gap)[1..] == gap;
  }

  lemma SpaceFirst(s: string, gap: string)
    requires s != "" && IsSpace(s[0]) && |gap| == |s| - |LStrip(s)|
    ensures gap != ""
  {}

  lemma HeadSplit(line: string) returns (pad: string, dash: string, after: string)
    requires HeadOf(line).Some?
    ensures Blank(pad) && DashOrNone(dash) && line == pad + (dash + ("run:" + after))
  {
    var s;
    HeadReads(line);
    pad, s := Halves(line);
    dash := UndashedSplit(s);
    RunStarts(Undashed(s));
    PrefixSplit(Undashed(s), "run:");
    after := Undashed(s)[4..];
  }

  /** A line has an entry exactly when `run:` stands behind its leading blanks, or behind a dash and blanks
      there; the entry is what follows, stripped. */
  lemma HeadExactly(line: string, h: Head)
    ensures HeadOf(line) == Some(h) <==>
              exists pad, dash, after ::
                Blank(pad) && DashOrNone(dash) && line == pad + (dash + ("run:" + after))
                && h == Head(|pad|, Strip(after))
  {
    if HeadOf(line) == Some(h) {
      var pad, dash, after := HeadSplit(line);
      HeadBack(pad, dash, after);
    }
    if pad, dash, after :| Blank(pad) && DashOrNone(dash) && line == pad + (dash + ("run:" + after))
                           && h == Head(|pad|, Strip(after)) {
      HeadBack(pad, dash, after);
    }
  }

  // `s.replace(from, to)` for a two-character `from`.
  function Replace(s: string, from: string, to: string): string
    requires |from| == 2
    decreases |s|
  {
    if |s| < 2 then s
    else if s[..2] == from then to + Replace(s[2..], from, to)
    else [s[0]] + Replace(s[1..], from, to)
  }

  // The two YAML quoting styles, their escapes undone; a plain scalar as it is.
  function Unwrapped(rest: string): string {
    if |rest| >= 2 && rest[0] == rest[|rest| - 1] == '\'' then Replace(rest[1..|rest| - 1], "''", "'")
    else if |rest| >= 2 && rest[0] == rest[|rest| - 1] == '"' then
      Replace(Replace(rest[1..|rest| - 1], "\\\"", "\""), "\\\\", "\\")
    else rest
  }

  // ------------------------------------------------------- folding

  // `s.split(sep)`.
  function SplitOn(s: string, sep: string): seq<string>
    requires sep != ""
    decreases |s|
  {
    var i := Find(s, sep);
    if i < 0 then [s] else [s[..i]] + SplitOn(s[i + |sep|..], sep)
  }

  function Spaced(s: string): string {
    seq(|s|, i requires 0 <= i < |s| => if s[i] == '\n' then ' ' else s[i])
  }

  function SpacedAll(parts: seq<string>): seq<string> {
    seq(|parts|, i requires 0 <= i < |parts| => Spaced(parts[i]))
  }

  function ScriptOf(style: char, body: seq<string>): string {
    if style == '>' then Join("\n", SpacedAll(SplitOn(Join("\n", body), "\n\n"))) else Join("\n", body)
  }

  // ------------------------------------------------------- blocks

  // How lines are read; `YAML` below is the reading this file defines.
  datatype Reader = Reader(
    head: string -> Option<Head>, style: string -> Option<char>, unwrapped: string -> string,
    blank: string -> bool, indent: string -> nat, script: (char, seq<string>) -> string)

  const YAML := Reader(HeadOf, StyleOf, Unwrapped, s => Text.Blank(s), Indent, ScriptOf)

  // `line[n:]`.
  function Cut(line: string, n: nat): string {
    if n <= |line| then line[n..] else ""
  }

  predicate Ends(y: Reader, line: string, indent: nat) {
    !y.blank(line) && y.indent(line) <= indent
  }

  // The body of a block under a header at `indent`, one entry a line; `content` is its indentation once known.
  function Body(y: Reader, lines: seq<string>, indent: nat, content: Option<nat>): (body: seq<string>)
    ensures |body| <= |lines|
  {
    if lines == [] || Ends(y, lines[0], indent) then []
    else if y.blank(lines[0]) then [""] + Body(y, lines[1..], indent, content)
    else
      var n := if content.Some? then content.value else y.indent(lines[0]);
      [Cut(lines[0], n)] + Body(y, lines[1..], indent, Some(n))
  }

  // A script with the number of its first line.
  datatype Found = Found(line: nat, script: string)

  // What is found in the lines from number `at + 1` on.
  function Blocks(y: Reader, lines: seq<string>, at: nat): seq<Found>
    decreases |lines|
  {
    if lines == [] then []
    else
      var head := y.head(lines[0]);
      if head.None? then Blocks(y, lines[1..], at + 1)
      else
        var style := y.style(head.value.rest);
        if style.None? then
          var script := y.unwrapped(head.value.rest);
          (if script != "" then [Found(at + 1, script)] else []) + Blocks(y, lines[1..], at + 1)
        else
          var body := Body(y, lines[1..], head.value.indent, None);
          [Found(at + 2, y.script(style.value, body))] + Blocks(y, lines[1 + |body|..], at + 1 + |body|)
  }

  // One line of a body, read with `body` gathered so far.
  lemma BodyGrows(y: Reader, lines: seq<string>, j: nat, indent: nat, content: Option<nat>, body: seq<string>)
    requires j < |lines| && !Ends(y, lines[j], indent)
    ensures var n := if content.Some? then content.value else y.indent(lines[j]);
            body + Body(y, lines[j..], indent, content)
            == if y.blank(lines[j]) then (body + [""]) + Body(y, lines[j + 1..], indent, content)
               else (body + [Cut(lines[j], n)]) + Body(y, lines[j + 1..], indent, Some(n))
  {
    assert lines[j..][0] == lines[j] && lines[j..][1..] == lines[j + 1..];
    var n := if content.Some? then content.value else y.indent(lines[j]);
    Regroup(body, [""], Body(y, lines[j + 1..], indent, content));
    Regroup(body, [Cut(lines[j], n)], Body(y, lines[j + 1..], indent, Some(n)));
  }

  lemma BodyStops(y: Reader, lines: seq<string>, j: nat, indent: nat, content: Option<nat>)
    requires j <= |lines| && (j < |lines| ==> Ends(y, lines[j], indent))
    ensures Body(y, lines[j..], indent, content) == []
  {}

  method ReadBody(y: Reader, lines: seq<string>, start: nat, indent: nat) returns (body: seq<string>, j: nat)
    requires start <= |lines|
    ensures body == Body(y, lines[start..], indent, None) && j == start + |body| && j <= |lines|
  {
    body, j := [], start;
    var content: Option<nat> := None;
    while j < |lines|
      invariant start <= j <= |lines| && |body| == j - start
      invariant body + Body(y, lines[j..], indent, content) == Body(y, lines[start..], indent, None)
    {
      var line := lines[j];
      if Ends(y, line, indent) { break; }
      BodyGrows(y, lines, j, indent, content, body);
      if y.blank(line) {
        body := body + [""];
      } else {
        if content.None? { content := Some(y.indent(line)); }
        body := body + [Cut(line, content.value)];
      }
      j := j + 1;
    }
    BodyStops(y, lines, j, indent, content);
    assert body + [] == body;
  }

  // One turn of the scan: what line `i` yields, and where the scan goes on.
  method Entry(y: Reader, lines: seq<string>, i: nat) returns (more: seq<Found>, j: nat)
    requires i < |lines|
    ensures i < j <= |lines|
    ensures Blocks(y, lines[i..], i) == more + Blocks(y, lines[j..], j)
  {
    assert lines[i..][0] == lines[i] && lines[i..][1..] == lines[i + 1..];
    more, j := [], i + 1;
    var head := y.head(lines[i]);
    if head.None? { return; }
    var style := y.style(head.value.rest);
    if style.None? {
      var script := y.unwrapped(head.value.rest);
      if script != "" { more := [Found(i + 1, script)]; }
      return;
    }
    var body;
    body, j := ReadBody(y, lines, i + 1, head.value.indent);
    assert lines[i..][1 + |body|..] == lines[j..];
    more := [Found(i + 2, y.script(style.value, body))];
  }

  /** `run_blocks`: every script of the file in order, with the line it begins on. */
  method RunBlocks(y: Reader, lines: seq<string>) returns (found: seq<Found>)
    ensures found == Blocks(y, lines, 0)
  {
    found := [];
    var i := 0;
    while i < |lines|
      invariant 0 <= i <= |lines|
      invariant found + Blocks(y, lines[i..], i) == Blocks(y, lines, 0)
      decreases |lines| - i
    {
      var more, j := Entry(y, lines, i);
      found, i := found + more, j;
    }
    assert lines[i..] == [];
  }

  // ------------------------------------------------------- printing a workflow

  // A stretch of a workflow: a line without `run:`, a scalar on one line, or a block header with its
  // script, written `pad` deep. The script's lines include the blank ones up to the next piece.
  datatype Piece = Plain(line: string) | Single(line: string) | Block(header: string, pad: string, script: seq<string>)

  function Written(y: Reader, p: Piece): seq<string> {
    match p
    case Plain(line) => [line]
    case Single(line) => [line]
    case Block(header, pad, script) => [header] + Padded(y, pad, script)
  }

  function Padded(y: Reader, pad: string, script: seq<string>): (lines: seq<string>)
    ensures |lines| == |script|
  {
    if script == [] then []
    else [if y.blank(script[0]) then script[0] else pad + script[0]] + Padded(y, pad, script[1..])
  }

  function Lines(y: Reader, ps: seq<Piece>): seq<string> {
    if ps == [] then [] else Written(y, ps[0]) + Lines(y, ps[1..])
  }

  predicate GoodPiece(y: Reader, p: Piece) {
    match p
    case Plain(line) => y.head(line).None?
    case Single(line) => y.head(line).Some? && y.style(y.head(line).value.rest).None?
    case Block(header, pad, script) =>
      y.head(header).Some? && y.style(y.head(header).value.rest).Some? && |pad| > y.head(header).value.indent
      && PadsAll(y, pad, script)
  }

  // After a block comes a line that ends it, or nothing.
  ghost predicate Good(y: Reader, ps: seq<Piece>) {
    ps != [] ==>
      GoodPiece(y, ps[0]) && Good(y, ps[1..])
      && (ps[0].Block? && |ps| > 1 ==>
            var line := Written(y, ps[1])[0];
            !y.blank(line) && y.indent(line) <= y.head(ps[0].header).value.indent)
  }

  // What padding does to the reading of a line.
  predicate PadsLine(y: Reader, pad: string, line: string) {
    y.blank(line) || (!y.blank(pad + line) && y.indent(pad + line) == |pad| + y.indent(line))
  }

  predicate PadsAll(y: Reader, pad: string, script: seq<string>) {
    script != [] ==> PadsLine(y, pad, script[0]) && PadsAll(y, pad, script[1..])
  }

  // The indentation of the first line that is not blank.
  function FirstIndent(y: Reader, script: seq<string>): nat {
    if script == [] then 0 else if y.blank(script[0]) then FirstIndent(y, script[1..]) else y.indent(script[0])
  }

  // A script as a block gives it back: blank lines emptied, `n` characters cut off every other line.
  function Trimmed(y: Reader, script: seq<string>, n: nat): (lines: seq<string>)
    ensures |lines| == |script|
  {
    if script == [] then [] else [if y.blank(script[0]) then "" else Cut(script[0], n)] + Trimmed(y, script[1..], n)
  }

  function FoundIn(y: Reader, p: Piece, at: nat): seq<Found> {
    match p
    case Plain(_) => []
    case Single(line) =>
      var script := if y.head(line).Some? then y.unwrapped(y.head(line).value.rest) else "";
      if script != "" then [Found(at + 1, script)] else []
    case Block(header, pad, script) =>
      var style := if y.head(header).Some? then y.style(y.head(header).value.rest) else None;
      if style.None? then [] else [Found(at + 2, y.script(style.value, Trimmed(y, script, FirstIndent(y, script))))]
  }

  // One entry a piece, no more: nothing inside a block is looked at again.
  function FoundInAll(y: Reader, ps: seq<Piece>, at: nat): seq<Found> {
    if ps == [] then [] else FoundIn(y, ps[0], at) + FoundInAll(y, ps[1..], at + |Written(y, ps[0])|)
  }

  lemma CutPadded(pad: string, line: string, n: nat)
    ensures Cut(pad + line, |pad| + n) == Cut(line, n)
  {
    if n <= |line| { assert (pad + line)[|pad| + n..] == line[n..]; }
  }

  lemma PaddedSplit(y: Reader, pad: string, script: seq<string>, after: seq<string>)
    requires script != []
    ensures Padded(y, pad, script) + after
            == [if y.blank(script[0]) then script[0] else pad + script[0]] + (Padded(y, pad, script[1..]) + after)
  {}

  // The body read from `lines` is `body`.
  ghost predicate Reads(y: Reader, lines: seq<string>, indent: nat, content: Option<nat>, body: seq<string>) {
    Body(y, lines, indent, content) == body
  }

  lemma BlankReads(y: Reader, line: string, rest: seq<string>, indent: nat, content: Option<nat>, body: seq<string>)
    requires y.blank(line) && Reads(y, rest, indent, content, body)
    ensures Reads(y, [line] + rest, indent, content, [""] + body)
  {
    assert ([line] + rest)[0] == line && ([line] + rest)[1..] == rest;
  }

  lemma LineReads(y: Reader, line: string, rest: seq<string>, indent: nat, content: Option<nat>, n: nat,
                  body: seq<string>)
    requires !y.blank(line) && y.indent(line) > indent && n == (if content.Some? then content.value else y.indent(line))
    requires Reads(y, rest, indent, Some(n), body)
    ensures Reads(y, [line] + rest, indent, content, [Cut(line, n)] + body)
  {
    assert ([line] + rest)[0] == line && ([line] + rest)[1..] == rest;
  }

  lemma {:induction false} BodyOfPadded(y: Reader, indent: nat, pad: string, script: seq<string>, after: seq<string>,
                                        content: Option<nat>)
    requires PadsAll(y, pad, script) && |pad| > indent && (after == [] || Ends(y, after[0], indent))
    requires content.Some? ==> content.value >= |pad|
    ensures Reads(y, Padded(y, pad, script) + after, indent, content,
                  Trimmed(y, script, if content.Some? then content.value - |pad| else FirstIndent(y, script)))
  {
    if script == [] {
      assert Padded(y, pad, script) + after == after;
    } else {
      var n := if content.Some? then content.value - |pad| else FirstIndent(y, script);
      var rest := Padded(y, pad, script[1..]) + after;
      PaddedSplit(y, pad, script, after);
      if y.blank(script[0]) {
        BodyOfPadded(y, indent, pad, script[1..], after, content);
        BlankReads(y, script[0], rest, indent, content, Trimmed(y, script[1..], n));
      } else {
        BodyOfPadded(y, indent, pad, script[1..], after, Some(|pad| + n));
        LineReads(y, pad + script[0], rest, indent, content, |pad| + n, Trimmed(y, script[1..], n));
        CutPadded(pad, script[0], n);
      }
    }
  }

  lemma LinesHead(y: Reader, ps: seq<Piece>)
    requires ps != []
    ensures Lines(y, ps) != [] && Lines(y, ps)[0] == Written(y, ps[0])[0]
  {}

  lemma BlockRead(y: Reader, header: string, head: Head, style: char, tail: seq<string>, body: seq<string>, at: nat)
    requires y.head(header) == Some(head) && y.style(head.rest) == Some(style)
             && Reads(y, tail, head.indent, None, body)
    ensures |body| <= |tail|
    ensures Blocks(y, [header] + tail, at)
            == [Found(at + 2, y.script(style, body))] + Blocks(y, tail[|body|..], at + 1 + |body|)
  {
    var lines := [header] + tail;
    assert lines[0] == header && lines[1..] == tail;
    assert lines[1 + |body|..] == tail[|body|..];
  }

  lemma Layout<T>(head: T, lines: seq<T>, after: seq<T>)
    ensures [head] + (lines + after) == [head] + lines + after
    ensures (lines + after)[|lines|..] == after
  {}

  lemma BlockFound(y: Reader, header: string, head: Head, style: char, pad: string, script: seq<string>,
                   after: seq<string>, at: nat)
    requires y.head(header) == Some(head) && y.style(head.rest) == Some(style)
    requires PadsAll(y, pad, script) && |pad| > head.indent && (after == [] || Ends(y, after[0], head.indent))
    ensures Blocks(y, [header] + Padded(y, pad, script) + after, at)
            == [Found(at + 2, y.script(style, Trimmed(y, script, FirstIndent(y, script))))] + Blocks(y, after,
                  at + 1 + |script|)
  {
    var lines := Padded(y, pad, script);
    Layout(header, lines, after);
    BodyOfPadded(y, head.indent, pad, script, after, None);
    BlockRead(y, header, head, style, lines + after, Trimmed(y, script, FirstIndent(y, script)), at);
  }

  lemma LineFound(y: Reader, p: Piece, after: seq<string>, at: nat)
    requires !p.Block? && GoodPiece(y, p)
    ensures Blocks(y, Written(y, p) + after, at) == FoundIn(y, p, at) + Blocks(y, after, at + 1)
  {
    var lines := Written(y, p) + after;
    assert lines[0] == p.line && lines[1..] == after;
  }

  // The scan of `lines` finds exactly `found`.
  ghost predicate Finds(y: Reader, lines: seq<string>, at: nat, found: seq<Found>) {
    Blocks(y, lines, at) == found
  }

  // A good piece, whose block the lines after it end.
  ghost predicate Precedes(y: Reader, p: Piece, after: seq<string>) {
    GoodPiece(y, p) && (p.Block? ==> after == [] || Ends(y, after[0], y.head(p.header).value.indent))
  }

  lemma PieceFound(y: Reader, p: Piece, after: seq<string>, at: nat, found: seq<Found>)
    requires Precedes(y, p, after)
    requires Finds(y, after, at + |Written(y, p)|, found)
    ensures Finds(y, Written(y, p) + after, at, FoundIn(y, p, at) + found)
  {
    if p.Block? { BlockPieceFound(y, p, after, at); } else { LineFound(y, p, after, at); }
  }

  lemma BlockPieceFound(y: Reader, p: Piece, after: seq<string>, at: nat)
    requires p.Block? && Precedes(y, p, after)
    ensures Blocks(y, Written(y, p) + after, at) == FoundIn(y, p, at) + Blocks(y, after, at + |Written(y, p)|)
  {
    var head := y.head(p.header).value;
    BlockFound(y, p.header, head, y.style(head.rest).value, p.pad, p.script, after, at);
  }

  // A piece's successors end its block, and the rest is good too.
  lemma GoodHead(y: Reader, ps: seq<Piece>)
    requires Good(y, ps) && ps != []
    ensures Precedes(y, ps[0], Lines(y, ps[1..])) && Good(y, ps[1..])
  {
    if |ps| > 1 { LinesHead(y, ps[1..]); }
  }

  lemma Splits(y: Reader, ps: seq<Piece>, at: nat)
    requires ps != []
    ensures Lines(y, ps) == Written(y, ps[0]) + Lines(y, ps[1..])
    ensures FoundInAll(y, ps, at) == FoundIn(y, ps[0], at) + FoundInAll(y, ps[1..], at + |Written(y, ps[0])|)
  {}

  // The lines of a workflow give exactly what its pieces hold.
  ghost predicate GivesBack(y: Reader, ps: seq<Piece>, at: nat) {
    Finds(y, Lines(y, ps), at, FoundInAll(y, ps, at))
  }

  lemma OneMorePiece(y: Reader, ps: seq<Piece>, at: nat)
    requires ps != [] && Precedes(y, ps[0], Lines(y, ps[1..])) && GivesBack(y, ps[1..], at + |Written(y, ps[0])|)
    ensures GivesBack(y, ps, at)
  {
    Splits(y, ps, at);
    PieceInFront(y, ps[0], Lines(y, ps[1..]), at, FoundInAll(y, ps[1..], at + |Written(y, ps[0])|),
                 Lines(y, ps), FoundInAll(y, ps, at));
  }

  lemma PieceInFront(y: Reader, p: Piece, after: seq<string>, at: nat, found: seq<Found>, lines: seq<string>,
                     all: seq<Found>)
    requires Precedes(y, p, after)
    requires Finds(y, after, at + |Written(y, p)|, found)
    requires lines == Written(y, p) + after && all == FoundIn(y, p, at) + found
    ensures Finds(y, lines, at, all)
  {
    PieceFound(y, p, after, at, found);
  }

  /** The round trip of a workflow: the scan of its lines finds, in order and at their lines, the scripts
      of its `run:` entries and nothing else, however much a line of a script looks like one. */
  lemma {:induction false} WorkflowRoundTrip(y: Reader, ps: seq<Piece>, at: nat)
    requires Good(y, ps)
    ensures GivesBack(y, ps, at)
  {
    if ps == [] {
      assert GivesBack(y, [], at);
    } else {
      GoodHead(y, ps);
      var next := at + |Written(y, ps[0])|;
      WorkflowRoundTrip(y, ps[1..], next);
      OneMorePiece(y, ps, at);
    }
  }

  // ------------------------------------------------------- when a script comes back as it was

  // A script up to what its blank lines hold.
  function Emptied(y: Reader, script: seq<string>): seq<string> {
    if script == [] then [] else [if y.blank(script[0]) then "" else script[0]] + Emptied(y, script[1..])
  }

  lemma {:induction false} TrimmedExactly(y: Reader, script: seq<string>, n: nat)
    requires y.blank("")
    requires n == 0 || exists i :: 0 <= i < |script| && !y.blank(script[i])
    ensures Trimmed(y, script, n) == Emptied(y, script) <==> n == 0
  {
    if n == 0 {
      TrimmedByNone(y, script);
    } else {
      var i :| 0 <= i < |script| && !y.blank(script[i]);
      TrimmedShort(y, script, n, i);
    }
  }

  lemma {:induction false} TrimmedByNone(y: Reader, script: seq<string>)
    ensures Trimmed(y, script, 0) == Emptied(y, script)
  {
    if script != [] { TrimmedByNone(y, script[1..]); }
  }

  lemma {:induction false} TrimmedShort(y: Reader, script: seq<string>, n: nat, i: nat)
    requires y.blank("") && n > 0 && i < |script| && !y.blank(script[i])
    ensures Trimmed(y, script, n) != Emptied(y, script)
  {
    var a, b := Trimmed(y, script, n), Emptied(y, script);
    if i == 0 {
      assert |a[0]| < |b[0]|;
    } else {
      TrimmedShort(y, script[1..], n, i - 1);
      assert a[1..] == Trimmed(y, script[1..], n) && b[1..] == Emptied(y, script[1..]);
    }
  }

  lemma {:induction false} FirstIndentOf(y: Reader, script: seq<string>)
    ensures FirstIndent(y, script) > 0 ==> exists i :: 0 <= i < |script| && !y.blank(script[i])
  {
    if script != [] {
      if y.blank(script[0]) {
        FirstIndentOf(y, script[1..]);
        if FirstIndent(y, script) > 0 {
          var i :| 0 <= i < |script[1..]| && !y.blank(script[1..][i]);
          assert script[i + 1] == script[1..][i];
        }
      } else {
        assert !y.blank(script[0]);
      }
    }
  }

  // ------------------------------------------------------- YAML's own layout

  lemma {:induction false} LStripPadded(pad: string, line: string)
    requires Text.Blank(pad)
    ensures LStrip(pad + line) == LStrip(line)
  {
    if pad == "" {
      assert pad + line == line;
    } else {
      assert (pad + line)[0] == pad[0] && (pad + line)[1..] == pad[1..] + line;
      assert forall i | 0 <= i < |pad[1..]| :: pad[1..][i] == pad[i + 1];
      LStripPadded(pad[1..], line);
    }
  }

  lemma {:induction false} BlanksPad(pad: string, script: seq<string>)
    requires Text.Blank(pad)
    ensures PadsAll(YAML, pad, script)
  {
    if script != [] {
      LStripPadded(pad, script[0]);
      BlanksPad(pad, script[1..]);
    }
  }

  lemma BlanksThen(lead: string, s: string)
    requires Text.Blank(lead) && s != "" && !IsSpace(s[0])
    ensures LStrip(lead + s) == s && Indent(lead + s) == |lead|
  {
    LStripPadded(lead, s);
  }

  // `run:` after `lead` blanks, under a list dash or not.
  function Header(lead: string, dash: bool, rest: string): string {
    lead + ((if dash then "- run:" else "run:") + rest)
  }

  lemma AfterRunRead(rest: string)
    ensures AfterRun("run:" + rest) == Some(Strip(rest))
  {
    var t := "run:" + rest;
    assert t[..4] == "run:" && t[4..] == rest;
  }

  lemma OtherStart(s: string, p: string)
    requires s != "" && p != "" && s[0] != p[0]
    ensures !StartsWith(s, p)
  {
    if |p| <= |s| { assert s[..|p|][0] == s[0]; }
  }

  lemma PlainHeader(lead: string, rest: string)
    requires Text.Blank(lead)
    ensures HeadOf(Header(lead, false, rest)) == Some(Head(|lead|, Strip(rest)))
  {
    var t := "run:" + rest;
    assert t[0] == 'r';
    BlanksThen(lead, t);
    AfterRunRead(rest);
  }

  lemma HeadByDash(line: string, s: string, rest: string)
    requires LStrip(line) == s && AfterRun(s).None? && |s| > 1 && s[0] == '-' && IsSpace(s[1])
    requires AfterRun(LStrip(s[1..])) == Some(rest)
    ensures HeadOf(line) == Some(Head(Indent(line), rest))
  {}

  lemma DashText(rest: string)
    ensures ("- run:" + rest)[0] == '-' && ("- run:" + rest)[1] == ' ' && ("run:" + rest)[0] == 'r'
    ensures ("- run:" + rest)[1..] == " " + ("run:" + rest)
    ensures !IsSpace('-') && !IsSpace('r') && IsSpace(' ')
  {}

  lemma DashHeader(lead: string, rest: string)
    requires Text.Blank(lead)
    ensures HeadOf(Header(lead, true, rest)) == Some(Head(|lead|, Strip(rest)))
  {
    var t := "run:" + rest;
    var s := "- run:" + rest;
    DashText(rest);
    BlanksThen(lead, s);
    OtherStart(s, "run:");
    BlanksThen(" ", t);
    AfterRunRead(rest);
    HeadByDash(lead + s, s, Strip(rest));
  }

  lemma BarStyle()
    ensures StyleOf("|") == Some('|')
  {
    assert "|"[1..] == "" && LStrip("") == "";
  }

  lemma BarStrips()
    ensures Strip(" |") == "|"
  {
    assert " " + "|" == " |";
    BlanksThen(" ", "|");
  }

  lemma LiteralStyle()
    ensures StyleOf(Strip(" |")) == Some('|')
  {
    BarStrips();
    BarStyle();
  }

  lemma LiteralScript(body: seq<string>)
    ensures YAML.script('|', body) == Join("\n", body)
  {}

  lemma TrimmedByFirst(y: Reader, script: seq<string>)
    requires y.blank("")
    ensures Trimmed(y, script, FirstIndent(y, script)) == Emptied(y, script) <==> FirstIndent(y, script) == 0
  {
    FirstIndentOf(y, script);
    TrimmedExactly(y, script, FirstIndent(y, script));
  }

  lemma YamlHeader(lead: string, dash: bool)
    requires Text.Blank(lead)
    ensures YAML.head(Header(lead, dash, " |")) == Some(Head(|lead|, Strip(" |")))
            && YAML.style(Strip(" |")) == Some('|')
    ensures YAML.blank("")
  {
    if dash { DashHeader(lead, " |"); } else { PlainHeader(lead, " |"); }
    LiteralStyle();
  }

  lemma YamlEnds(line: string, indent: nat)
    requires !Text.Blank(line) && Indent(line) <= indent
    ensures Ends(YAML, line, indent)
  {}

  /** A script written as a literal block at any indentation, its lines any deeper, comes back as the
      same text up to the contents of blank lines if and only if its first line that is not blank does
      not begin with a blank; otherwise every line loses that line's leading blanks. */
  lemma LiteralRoundTrip(lead: string, dash: bool, pad: string, script: seq<string>, after: seq<string>, at: nat)
    requires Text.Blank(lead) && Text.Blank(pad) && |pad| > |lead|
    requires after == [] || (!Text.Blank(after[0]) && Indent(after[0]) <= |lead|)
    ensures var n := FirstIndent(YAML, script);
            Blocks(YAML, [Header(lead, dash, " |")] + Padded(YAML, pad, script) + after, at)
            == [Found(at + 2, Join("\n", Trimmed(YAML, script, n)))] + Blocks(YAML, after, at + 1 + |script|)
            && (Trimmed(YAML, script, n) == Emptied(YAML, script) <==> n == 0)
  {
    YamlHeader(lead, dash);
    BlanksPad(pad, script);
    if after != [] { YamlEnds(after[0], |lead|); }
    BlockFound(YAML, Header(lead, dash, " |"), Head(|lead|, Strip(" |")), '|', pad, script, after, at);
    TrimmedByFirst(YAML, script);
    LiteralScript(Trimmed(YAML, script, FirstIndent(YAML, script)));
  }

  // ------------------------------------------------------- quoted scalars

  function Doubled(s: string): string {
    if s == "" then "" else (if s[0] == '\'' then "''" else [s[0]]) + Doubled(s[1..])
  }

  // In YAML's double quotes, a backslash before each backslash and each quote.
  function Escaped(s: string): string {
    if s == "" then "" else (if s[0] == '\\' || s[0] == '"' then ['\\', s[0]] else [s[0]]) + Escaped(s[1..])
  }

  // With the quotes unescaped already.
  function HalfEscaped(s: string): string {
    if s == "" then "" else (if s[0] == '\\' then "\\\\" else [s[0]]) + HalfEscaped(s[1..])
  }

  lemma ReplacePair(s: string, from: string, to: string)
    requires |from| == 2
    ensures Replace(from + s, from, to) == to + Replace(s, from, to)
  {
    assert (from + s)[..2] == from && (from + s)[2..] == s;
  }

  lemma ReplaceSkip(c: char, s: string, from: string, to: string)
    requires |from| == 2 && (c != from[0] || s == "" || s[0] != from[1])
    ensures Replace([c] + s, from, to) == [c] + Replace(s, from, to)
  {
    var t := [c] + s;
    assert t[1..] == s;
    if |t| >= 2 { assert t[..2][0] == c && t[..2][1] == s[0]; }
  }

  lemma {:induction false} DoubledBack(s: string)
    ensures Replace(Doubled(s), "''", "'") == s
  {
    if s != "" {
      DoubledBack(s[1..]);
      if s[0] == '\'' {
        ReplacePair(Doubled(s[1..]), "''", "'");
      } else {
        ReplaceSkip(s[0], Doubled(s[1..]), "''", "'");
      }
    }
  }

  lemma EscapedStart(s: string)
    ensures Escaped(s) == "" || Escaped(s)[0] != '"'
  {}

  lemma QuoteBack(rest: string)
    ensures Replace(['\\', '"'] + rest, "\\\"", "\"") == ['"'] + Replace(rest, "\\\"", "\"")
  {
    assert ['\\', '"'] == "\\\"" && ['"'] == "\"";
    ReplacePair(rest, "\\\"", "\"");
  }

  // A doubled `b` in front of anything but `q` is no place for the pair `bq`.
  lemma PairStays(b: char, q: char, to: string, rest: string)
    requires b != q && (rest == "" || rest[0] != q)
    ensures Replace([b, b] + rest, [b, q], to) == [b, b] + Replace(rest, [b, q], to)
  {
    var one := [b] + rest;
    assert [b, b] + rest == [b] + one;
    ReplaceSkip(b, one, [b, q], to);
    ReplaceSkip(b, rest, [b, q], to);
    assert [b] + ([b] + Replace(rest, [b, q], to)) == [b, b] + Replace(rest, [b, q], to);
  }

  lemma BackslashStays(rest: string)
    requires rest == "" || rest[0] != '"'
    ensures Replace(['\\', '\\'] + rest, "\\\"", "\"") == "\\\\" + Replace(rest, "\\\"", "\"")
  {
    PairStays('\\', '"', "\"", rest);
  }

  lemma {:induction false} QuotesBack(s: string)
    ensures Replace(Escaped(s), "\\\"", "\"") == HalfEscaped(s)
  {
    if s != "" {
      var rest := Escaped(s[1..]);
      QuotesBack(s[1..]);
      EscapedStart(s[1..]);
      if s[0] == '"' {
        QuoteBack(rest);
      } else if s[0] == '\\' {
        BackslashStays(rest);
      } else {
        ReplaceSkip(s[0], rest, "\\\"", "\"");
      }
    }
  }

  lemma {:induction false} BackslashesBack(s: string)
    ensures Replace(HalfEscaped(s), "\\\\", "\\") == s
  {
    if s != "" {
      var rest := HalfEscaped(s[1..]);
      BackslashesBack(s[1..]);
      if s[0] == '\\' {
        ReplacePair(rest, "\\\\", "\\");
      } else {
        ReplaceSkip(s[0], rest, "\\\\", "\\");
      }
    }
  }

  /** A scalar on the `run:` line reads back in either quoting style, for every text. */
  lemma QuotedRoundTrip(s: string)
    ensures Unwrapped("'" + Doubled(s) + "'") == s
    ensures Unwrapped("\"" + Escaped(s) + "\"") == s
  {
    var a, b := "'" + Doubled(s) + "'", "\"" + Escaped(s) + "\"";
    assert a[1..|a| - 1] == Doubled(s) && b[1..|b| - 1] == Escaped(s);
    assert b[0] == '"';
    DoubledBack(s);
    QuotesBack(s);
    BackslashesBack(s);
  }

  // ------------------------------------------------------- folded blocks

  predicate Unbroken(line: string) {
    '\n' !in line
  }

  predicate AllUnbroken(b: seq<string>) {
    forall i | 0 <= i < |b| :: Unbroken(b[i])
  }

  // How many empty lines `b` opens with.
  function Empties(b: seq<string>): (n: nat)
    ensures n <= |b| && forall i | 0 <= i < n :: b[i] == ""
    ensures n < |b| ==> b[n] != ""
  {
    if b == [] || b[0] != "" then 0 else 1 + Empties(b[1..])
  }

  // A line that begins with white space, "more-indented".
  predicate Deeper(line: string) {
    line != "" && (line[0] == ' ' || line[0] == '\t')
  }

  function Newlines(n: nat): (s: string)
    ensures |s| == n && forall i | 0 <= i < n :: s[i] == '\n'
  {
    if n == 0 then "" else "\n" + Newlines(n - 1)
  }

  /** Folding as YAML 1.2.2 defines it (sections 6.5 and 8.1.3), before chomping: between two lines a
      single break is a blank; of a break followed by empty lines only the empty lines count; next to a
      deeper line every break stays; empty lines in front stay; those at the end are left to chomping. */
  function Folded(b: seq<string>): string {
    if Empties(b) == |b| then "" else Newlines(Empties(b)) + FoldedFrom(b[Empties(b)..])
  }

  function FoldedFrom(b: seq<string>): string
    requires b != [] && b[0] != ""
    decreases |b|
  {
    var n := Empties(b[1..]);
    var rest := b[1 + n..];
    if rest == [] then b[0] else b[0] + Break(b[0], n, rest[0]) + FoldedFrom(rest)
  }

  function Break(line: string, empties: nat, next: string): string {
    if Deeper(line) || Deeper(next) then Newlines(empties + 1) else if empties == 0 then " " else Newlines(empties)
  }

  // What the code makes of a body, line by line: an empty line between others is a newline, every
  // other break a blank.
  function Paired(b: seq<string>): string {
    if b == [] then ""
    else if |b| == 1 then b[0]
    else if b[1] == "" && |b| >= 3 then b[0] + "\n" + Paired(b[2..])
    else b[0] + " " + Paired(b[1..])
  }

  // The code's folding of a text.
  function FoldText(s: string): string {
    Join("\n", SpacedAll(SplitOn(s, "\n\n")))
  }

  lemma PairAt(t: string, k: nat)
    ensures At(t, "\n\n", k) <==> k + 2 <= |t| && t[k] == '\n' && t[k + 1] == '\n'
  {
    if k + 2 <= |t| { assert t[k..k + 2] == [t[k], t[k + 1]]; }
  }

  lemma FoldTextPair(s: string)
    requires |s| >= 2 && s[0] == '\n' && s[1] == '\n'
    ensures FoldText(s) == "\n" + FoldText(s[2..])
  {
    PairAt(s, 0);
    assert Find(s, "\n\n") == 0;
    var parts := SplitOn(s[2..], "\n\n");
    assert SplitOn(s, "\n\n") == [""] + parts;
    assert SpacedAll([""] + parts) == [""] + SpacedAll(parts);
    assert ([""] + SpacedAll(parts))[1..] == SpacedAll(parts);
  }

  lemma FoldTextOne(s: string)
    requires s != "" && !(s[0] == '\n' && |s| >= 2 && s[1] == '\n')
    ensures FoldText(s) == [if s[0] == '\n' then ' ' else s[0]] + FoldText(s[1..])
  {
    PairAt(s, 0);
    FindTail(s, "\n\n");
    if Find(s, "\n\n") < 0 { FoldTextLast(s); } else { FoldTextBefore(s, Find(s, "\n\n")); }
  }

  lemma FoldTextLast(s: string)
    requires s != "" && Find(s, "\n\n") < 0 && Find(s[1..], "\n\n") < 0
    ensures FoldText(s) == [if s[0] == '\n' then ' ' else s[0]] + FoldText(s[1..])
  {
    Alone(s);
    Alone(s[1..]);
    SpacedFirst(s);
  }

  lemma SpacedFirst(s: string)
    requires s != ""
    ensures Spaced(s) == [if s[0] == '\n' then ' ' else s[0]] + Spaced(s[1..])
  {}

  lemma Alone(s: string)
    requires Find(s, "\n\n") < 0
    ensures FoldText(s) == Spaced(s)
  {
    assert SplitOn(s, "\n\n") == [s];
    assert SpacedAll([s]) == [Spaced(s)];
  }

  lemma FoldTextBefore(s: string, i: nat)
    requires s != "" && i > 0 && Find(s, "\n\n") == i && Find(s[1..], "\n\n") == i - 1
    ensures FoldText(s) == [if s[0] == '\n' then ' ' else s[0]] + FoldText(s[1..])
  {
    FoldTextParts(s, i);
    FoldTextParts(s[1..], i - 1);
    SpacedFirst(s[..i]);
    TailParts(s, i);
    JoinFirst(if s[0] == '\n' then ' ' else s[0], Spaced(s[1..i]), SpacedAll(SplitOn(s[i + 2..], "\n\n")));
  }

  lemma TailParts(s: string, i: nat)
    requires 0 < i && i + 2 <= |s|
    ensures s[1..][i - 1 + 2..] == s[i + 2..] && s[1..][..i - 1] == s[1..i] == s[..i][1..] && s[..i][0] == s[0]
  {}

  lemma FoldTextParts(s: string, i: nat)
    requires Find(s, "\n\n") == i
    ensures i + 2 <= |s|
    ensures FoldText(s) == Join("\n", [Spaced(s[..i])] + SpacedAll(SplitOn(s[i + 2..], "\n\n")))
  {
    PairAt(s, i);
    SplitAtFirst(s, i);
    SpacedAllFirst(s[..i], SplitOn(s[i + 2..], "\n\n"));
  }

  lemma SplitAtFirst(s: string, i: nat)
    requires Find(s, "\n\n") == i && i + 2 <= |s|
    ensures SplitOn(s, "\n\n") == [s[..i]] + SplitOn(s[i + 2..], "\n\n")
  {}

  lemma SpacedAllFirst(first: string, more: seq<string>)
    ensures SpacedAll([first] + more) == [Spaced(first)] + SpacedAll(more)
  {}

  lemma FindTail(s: string, sep: string)
    requires s != "" && sep != "" && !At(s, sep, 0)
    ensures Find(s[1..], sep) == if Find(s, sep) < 0 then -1 else Find(s, sep) - 1
  {}

  lemma JoinFirst(c: char, first: string, more: seq<string>)
    ensures Join("\n", [[c] + first] + more) == [c] + Join("\n", [first] + more)
  {
    assert ([[c] + first] + more)[1..] == more == ([first] + more)[1..];
  }

  // A line passes through folding as it is.
  lemma {:induction false} FoldTextLine(line: string, rest: string)
    requires Unbroken(line)
    ensures FoldText(line + rest) == line + FoldText(rest)
  {
    if line == "" {
      assert line + rest == rest && "" + FoldText(rest) == FoldText(rest);
    } else {
      LineFirst(line, rest);
      FoldTextOne(line + rest);
      FoldTextLine(line[1..], rest);
      Text.Regroup([line[0]], line[1..], FoldText(rest));
    }
  }

  lemma LineFirst(line: string, rest: string)
    requires line != "" && Unbroken(line)
    ensures var s := line + rest; s != "" && s[0] == line[0] && s[0] != '\n' && s[1..] == line[1..] + rest
    ensures [line[0]] + line[1..] == line && Unbroken(line[1..])
  {
    assert line[0] in line;
  }

  lemma FoldTextEmpty()
    ensures FoldText("") == ""
  {
    Alone("");
    assert Spaced("") == "";
  }

  /** What the code makes of any folded block. */
  lemma {:induction false} FoldsInPairs(b: seq<string>)
    requires AllUnbroken(b)
    ensures FoldText(Join("\n", b)) == Paired(b)
    decreases |b|
  {
    if b == [] {
      FoldTextEmpty();
    } else if |b| == 1 {
      FoldsOne(b[0]);
    } else if b[1] == "" && |b| >= 3 {
      FoldsInPairs(b[2..]);
      JoinGap(b);
      FoldsGap(b[0], Join("\n", b[2..]));
    } else {
      FoldsInPairs(b[1..]);
      JoinMore(b);
      JoinStarts(b[1..]);
      FoldsBreak(b[0], Join("\n", b[1..]));
    }
  }

  lemma JoinMore(b: seq<string>)
    requires |b| >= 2
    ensures Join("\n", b) == b[0] + ("\n" + Join("\n", b[1..]))
  {}

  lemma JoinGap(b: seq<string>)
    requires |b| >= 3 && b[1] == ""
    ensures Join("\n", b) == b[0] + ("\n" + ("\n" + Join("\n", b[2..])))
  {
    JoinMore(b);
    JoinMore(b[1..]);
    assert b[1..][1..] == b[2..] && "" + ("\n" + Join("\n", b[2..])) == "\n" + Join("\n", b[2..]);
  }

  lemma FoldsOne(line: string)
    requires Unbroken(line)
    ensures FoldText(line) == line
  {
    FoldTextEmpty();
    FoldTextLine(line, "");
    assert line + "" == line;
  }

  // An empty line between two others is a newline.
  lemma FoldsGap(line: string, rest: string)
    requires Unbroken(line)
    ensures FoldText(line + ("\n" + ("\n" + rest))) == line + "\n" + FoldText(rest)
  {
    FoldTextLine(line, "\n" + ("\n" + rest));
    GapFolds(rest);
    Text.Regroup(line, "\n", FoldText(rest));
  }

  lemma GapFolds(rest: string)
    ensures FoldText("\n" + ("\n" + rest)) == "\n" + FoldText(rest)
  {
    var text := "\n" + ("\n" + rest);
    assert text[0] == '\n' && text[1] == '\n' && text[2..] == rest;
    FoldTextPair(text);
  }

  // Any other break is a blank.
  lemma FoldsBreak(line: string, rest: string)
    requires Unbroken(line) && (rest == "" || rest[0] != '\n')
    ensures FoldText(line + ("\n" + rest)) == line + " " + FoldText(rest)
  {
    FoldTextLine(line, "\n" + rest);
    BreakFolds(rest);
    Text.Regroup(line, " ", FoldText(rest));
  }

  lemma BreakFolds(rest: string)
    requires rest == "" || rest[0] != '\n'
    ensures FoldText("\n" + rest) == " " + FoldText(rest)
  {
    var text := "\n" + rest;
    assert text[0] == '\n' && text[1..] == rest && (|text| >= 2 ==> text[1] == rest[0]);
    FoldTextOne(text);
  }

  lemma JoinStarts(tail: seq<string>)
    requires tail != [] && Unbroken(tail[0]) && (tail[0] == "" ==> |tail| == 1)
    ensures Join("\n", tail) == "" || Join("\n", tail)[0] != '\n'
  {
    if tail[0] != "" {
      assert tail[0][0] in tail[0] && Join("\n", tail)[0] == tail[0][0];
    }
  }

  // ------------------------------------------------------- where the two foldings agree

  // The code's newlines are half the breaks: behind `n` empty lines the first `n / 2` characters are
  // newlines, and the next is none.
  lemma {:induction false} PairedLead(b: seq<string>)
    requires AllUnbroken(b) && Empties(b) < |b|
    ensures var k := Empties(b) / 2; k < |Paired(b)| && Paired(b)[k] != '\n'
    decreases |b|
  {
    var n := Empties(b);
    if n == 0 {
      assert b[0][0] in b[0];
      PairedAfter(b);
    } else if n == 1 {
      assert b[1] != "";
      assert Paired(b) == "" + " " + Paired(b[1..]);
    } else {
      EmptiesLess(b);
      PairedLead(b[2..]);
      assert Paired(b) == "" + "\n" + Paired(b[2..]);
      assert n / 2 == (n - 2) / 2 + 1;
    }
  }

  lemma EmptiesLess(b: seq<string>)
    requires 2 <= Empties(b) < |b|
    ensures b[0] == b[1] == "" && |b| >= 3 && Empties(b[2..]) == Empties(b) - 2
  {
    assert b[1..][1..] == b[2..];
  }

  // Behind a line the code's folding goes on as if the line were empty.
  lemma PairedAfter(b: seq<string>)
    requires b != []
    ensures Paired(b) == b[0] + Paired([""] + b[1..])
  {
    var c := [""] + b[1..];
    assert |c| == |b| && c[1..] == b[1..];
    if |b| == 1 {
      assert Paired(c) == "" && b[0] + "" == b[0];
    } else if b[1] == "" && |b| >= 3 {
      assert c[1] == "" && c[2..] == b[2..];
      PairedGap(b);
      PairedGap(c);
    } else {
      assert c[1] == b[1];
      PairedBreak(b);
      PairedBreak(c);
    }
  }

  lemma PairedGap(b: seq<string>)
    requires |b| >= 3 && b[1] == ""
    ensures Paired(b) == b[0] + ("\n" + Paired(b[2..]))
    ensures b[0] == "" ==> Paired(b) == "\n" + Paired(b[2..])
  {
    Text.Regroup(b[0], "\n", Paired(b[2..]));
    assert "" + ("\n" + Paired(b[2..])) == "\n" + Paired(b[2..]);
  }

  lemma PairedBreak(b: seq<string>)
    requires |b| >= 2 && (b[1] == "" ==> |b| == 2)
    ensures Paired(b) == b[0] + (" " + Paired(b[1..]))
    ensures b[0] == "" ==> Paired(b) == " " + Paired(b[1..])
  {
    Text.Regroup(b[0], " ", Paired(b[1..]));
    assert "" + (" " + Paired(b[1..])) == " " + Paired(b[1..]);
  }

  // More newlines than the code writes make the difference.
  lemma Differ(b: seq<string>, n: nat, rest: string)
    requires AllUnbroken(b) && Empties(b) < |b| && Empties(b) / 2 < n
    ensures Paired(b) != Newlines(n) + rest
  {
    PairedLead(b);
    assert (Newlines(n) + rest)[Empties(b) / 2] == '\n';
  }

  // The body the two foldings agree on, behind a first line that is not empty.
  predicate Plain(b: seq<string>)
    requires b != [] && b[0] != ""
    decreases |b|
  {
    var n := Empties(b[1..]);
    var rest := b[1 + n..];
    if rest == [] then n == 0 else !Deeper(b[0]) && !Deeper(rest[0]) && n <= 1 && Plain(rest)
  }

  lemma {:induction false} AgreeFrom(b: seq<string>)
    requires AllUnbroken(b) && b != [] && b[0] != ""
    ensures Paired(b) == FoldedFrom(b) <==> Plain(b)
    decreases |b|
  {
    var n := Empties(b[1..]);
    var rest := b[1 + n..];
    PairedAfter(b);
    if rest == [] {
      EndAgrees(b);
    } else {
      AgreeFrom(rest);
      AgreeMore(b, n, rest);
    }
  }

  lemma AgreeMore(b: seq<string>, n: nat, rest: seq<string>)
    requires AllUnbroken(b) && b != [] && b[0] != "" && n == Empties(b[1..])
    requires 1 + n < |b| && rest == b[1 + n..] && rest[0] != ""
    requires Paired(b) == b[0] + Paired([""] + b[1..]) && (Paired(rest) == FoldedFrom(rest) <==> Plain(rest))
    ensures Paired(b) == FoldedFrom(b) <==> Plain(b)
  {
    AgreeGap(b, n, rest);
    FoldedMore(b, n, rest);
    PlainMore(b, n, rest);
  }

  lemma FoldedMore(b: seq<string>, n: nat, rest: seq<string>)
    requires b != [] && b[0] != "" && n == Empties(b[1..]) && 1 + n < |b| && rest == b[1 + n..] && rest[0] != ""
    ensures FoldedFrom(b) == b[0] + Break(b[0], n, rest[0]) + FoldedFrom(rest)
  {}

  lemma PlainMore(b: seq<string>, n: nat, rest: seq<string>)
    requires b != [] && b[0] != "" && n == Empties(b[1..]) && 1 + n < |b| && rest == b[1 + n..] && rest[0] != ""
    ensures Plain(b) <==> !Deeper(b[0]) && !Deeper(rest[0]) && n <= 1 && Plain(rest)
  {}

  // Empty lines at the end, which the code keeps in part.
  lemma EndAgrees(b: seq<string>)
    requires b != [] && Paired(b) == b[0] + Paired([""] + b[1..])
    ensures Paired(b) == b[0] <==> b[1..] == []
  {
    if b[1..] == [] {
      assert Paired(b) == b[0];
    } else {
      assert Paired([""] + b[1..]) != "";
    }
  }

  lemma AgreeGap(b: seq<string>, n: nat, rest: seq<string>)
    requires AllUnbroken(b) && b != [] && n == Empties(b[1..]) && 1 + n < |b| && rest == b[1 + n..] && rest[0] != ""
    requires Paired(b) == b[0] + Paired([""] + b[1..])
    ensures Paired(b) == b[0] + Break(b[0], n, rest[0]) + FoldedFrom(rest)
            <==> !Deeper(b[0]) && !Deeper(rest[0]) && n <= 1 && Paired(rest) == FoldedFrom(rest)
  {
    var gap, after := Break(b[0], n, rest[0]), [""] + b[1..];
    SameFront(b[0], Paired(after), gap + FoldedFrom(rest));
    Text.Regroup(b[0], gap, FoldedFrom(rest));
    GapAgrees(b, n, rest);
  }

  lemma GapAgrees(b: seq<string>, n: nat, rest: seq<string>)
    requires AllUnbroken(b) && b != [] && n == Empties(b[1..]) && 1 + n < |b| && rest == b[1 + n..] && rest[0] != ""
    ensures Paired([""] + b[1..]) == Break(b[0], n, rest[0]) + FoldedFrom(rest)
            <==> !Deeper(b[0]) && !Deeper(rest[0]) && n <= 1 && Paired(rest) == FoldedFrom(rest)
  {
    if Deeper(b[0]) || Deeper(rest[0]) || n >= 2 {
      EmptiesAfter(b);
      BreakIsNewlines(b[0], n, rest[0]);
      Differ([""] + b[1..], |Break(b[0], n, rest[0])|, FoldedFrom(rest));
    } else {
      AfterGap(b, n);
      assert Newlines(1) == "\n";
      SameFront(Break(b[0], n, rest[0]), Paired(rest), FoldedFrom(rest));
    }
  }

  lemma BreakIsNewlines(line: string, n: nat, next: string)
    requires Deeper(line) || Deeper(next) || n >= 2
    ensures var gap := Break(line, n, next); gap == Newlines(|gap|) && (1 + n) / 2 < |gap|
  {}

  lemma SameFront(a: string, x: string, y: string)
    ensures a + x == a + y <==> x == y
  {
    assert (a + x)[|a|..] == x && (a + y)[|a|..] == y;
  }

  lemma EmptiesAfter(b: seq<string>)
    requires b != []
    ensures var after := [""] + b[1..]; Empties(after) == 1 + Empties(b[1..]) && |after| == |b|
    ensures AllUnbroken(b) ==> AllUnbroken([""] + b[1..])
  {
    assert ([""] + b[1..])[1..] == b[1..];
  }

  lemma AfterGap(b: seq<string>, n: nat)
    requires b != [] && n <= 1 && 1 + n < |b| && Empties(b[1..]) == n
    ensures Paired([""] + b[1..]) == (if n == 0 then " " else "\n") + Paired(b[1 + n..])
  {
    var after := [""] + b[1..];
    assert after[1] == b[1] && after[1..] == b[1..] && after[2..] == b[2..];
  }

  // The same in a reader's terms: no empty line at either end, no two in a row, no deeper line.
  ghost predicate Foldable(b: seq<string>) {
    |b| <= 1
    || (b[0] != "" && b[|b| - 1] != ""
        && (forall i | 0 <= i < |b| :: !Deeper(b[i])) && (forall i | 0 <= i < |b| - 1 :: b[i] != "" || b[i + 1] != ""))
  }

  lemma {:induction false} PlainIsFoldable(b: seq<string>)
    requires b != [] && b[0] != ""
    ensures Plain(b) <==> Foldable(b)
    decreases |b|
  {
    var n := Empties(b[1..]);
    var rest := b[1 + n..];
    if rest == [] {
      assert n > 0 ==> b[1..][n - 1] == b[|b| - 1];
    } else {
      assert b[1..][n] == b[1 + n] == rest[0];
      PlainIsFoldable(rest);
      FoldableRest(b, n);
    }
  }

  lemma FoldableRest(b: seq<string>, n: nat)
    requires b != [] && b[0] != "" && n == Empties(b[1..]) && 1 + n < |b|
    ensures Foldable(b) <==> !Deeper(b[0]) && !Deeper(b[1 + n]) && n <= 1 && Foldable(b[1 + n..])
  {
    var rest := b[1 + n..];
    assert forall i | 0 <= i < |rest| :: rest[i] == b[1 + n + i];
    assert forall i | 0 <= i < n :: b[1 + i] == b[1..][i];
    assert b[1 + n] == b[1..][n];
    assert n >= 2 ==> b[1] == "" && b[1 + 1] == "";
    if !Deeper(b[0]) && !Deeper(b[1 + n]) && n <= 1 && Foldable(rest) {
      forall i | 0 <= i < |b| ensures !Deeper(b[i]) && (i < |b| - 1 ==> b[i] != "" || b[i + 1] != "") {
        if i > n { assert b[i] == rest[i - 1 - n]; }
      }
    }
  }

  /** A folded block is what the shell gets exactly where the code's folding is YAML's, chomping apart:
      if and only if the body is one line, or has no empty line at either end, no two empty lines in a
      row and no line that begins with a blank. */
  lemma FoldsExactly(body: seq<string>)
    requires AllUnbroken(body)
    ensures ScriptOf('>', body) == Folded(body) <==> Foldable(body)
  {
    FoldsInPairs(body);
    var n := Empties(body);
    if n == |body| {
      if |body| >= 2 { assert Paired(body) != ""; }
    } else if n > 0 {
      Differ(body, n, FoldedFrom(body[n..]));
    } else {
      assert body[0..] == body && Newlines(0) + FoldedFrom(body) == FoldedFrom(body);
      AgreeFrom(body);
      PlainIsFoldable(body);
    }
  }

  /** A body on which they differ: a deeper line between two others, as in a list of options. The code
      joins all three by blanks; YAML keeps both breaks. */
  lemma DeeperLineIsJoined(first: string, deep: string, last: string)
    requires AllUnbroken([first, deep, last]) && first != "" && last != "" && Deeper(deep)
    requires !Deeper(first) && !Deeper(last)
    ensures ScriptOf('>', [first, deep, last]) == first + " " + (deep + " " + last)
    ensures Folded([first, deep, last]) == first + "\n" + (deep + "\n" + last)
  {
    var b := [first, deep, last];
    FoldsInPairs(b);
    assert b[1..] == [deep, last] && b[1..][1..] == [last] == b[2..] && b[0..] == b && [last][1..] == [];
    assert Paired([deep, last]) == deep + " " + last by { assert [deep, last][1..] == [last]; }
    assert Newlines(1) == "\n" && Newlines(0) == "";
    assert FoldedFrom([last]) == last;
    assert FoldedFrom([deep, last]) == deep + "\n" + last by { assert [deep, last][1..] == [last]; }
  }
}
