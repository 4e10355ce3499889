/** From the text of an installer to its simple commands (os/repo-tools/check-egress-units.py):
    joining backslash continuations, cutting a logical line into statements outside quotes, and
    handing each statement to the tokenizer. Both cutters are proved to undo a printer.

    The tokenizer itself is a parameter of `Tokenize`: it sees one statement at a time, already outside
    the reach of separators and continuations. */
module ShellLines {
  import opened Common
  import opened Text
  import opened ShellWalk

  datatype Logical = Logical(line: nat, text: string)

  predicate Continues(raw: string) {
    raw != "" && raw[|raw| - 1] == '\\'
  }

  // The lines still to come from `raws`, of which the first is line `n`, when `buf` has been
  // collected since line `start`.
  function Joined(raws: seq<string>, n: nat, buf: string, start: nat): seq<Logical> {
    if raws == [] then (if buf == "" then [] else [Logical(start, buf)])
    else
      var first := if buf == "" then n else start;
      if Continues(raws[0]) then Joined(raws[1..], n + 1, buf + raws[0][..|raws[0]| - 1] + " ", first)
      else [Logical(first, buf + raws[0])] + Joined(raws[1..], n + 1, "", first)
  }

  method LogicalLines(text: string) returns (out: seq<Logical>)
    ensures out == Joined(SplitLines(text), 1, "", 1)
  {
    var raws := SplitLines(text);
    out := [];
    var buf, start := "", 1;
    for n := 0 to |raws|
      invariant out + Joined(raws[n..], n + 1, buf, start) == Joined(raws, 1, "", 1)
    {
      assert raws[n..][0] == raws[n] && raws[n..][1..] == raws[n + 1..];
      if buf == "" {
        start := n + 1;
      }
      if Continues(raws[n]) {
        buf := buf + raws[n][..|raws[n]| - 1] + " ";
        continue;
      }
      assert out + ([Logical(start, buf + raws[n])] + Joined(raws[n + 1..], n + 2, "", start))
          == out + [Logical(start, buf + raws[n])] + Joined(raws[n + 1..], n + 2, "", start);
      out := out + [Logical(start, buf + raws[n])];
      buf := "";
    }
    if buf != "" {
      out := out + [Logical(start, buf)];
    }
  }

  // A logical line written over several physical ones: every piece but the last is continued.
  function Physical(pieces: seq<string>): seq<string>
    requires pieces != []
  {
    if |pieces| == 1 then pieces else [pieces[0] + "\\"] + Physical(pieces[1..])
  }

  function PhysicalAll(lines: seq<seq<string>>): seq<string>
    requires forall i | 0 <= i < |lines| :: lines[i] != []
  {
    if lines == [] then [] else Physical(lines[0]) + PhysicalAll(lines[1..])
  }

  function Numbered(lines: seq<seq<string>>, n: nat): seq<Logical> {
    if lines == [] then [] else [Logical(n, Join(" ", lines[0]))] + Numbered(lines[1..], n + |lines[0]|)
  }

  ghost predicate Ended(lines: seq<seq<string>>) {
    forall i | 0 <= i < |lines| :: lines[i] != [] && !Continues(lines[i][|lines[i]| - 1])
  }

  /** Continuation lines written out and joined again give back every logical line, its pieces
      separated by one blank, under the number of its first physical line. */
  lemma {:induction false} JoinUndoesContinuation(lines: seq<seq<string>>, n: nat, start: nat)
    requires Ended(lines)
    ensures Joined(PhysicalAll(lines), n, "", start) == Numbered(lines, n)
  {
    if lines != [] {
      JoinOne(lines[0], PhysicalAll(lines[1..]), n, "", start);
      JoinUndoesContinuation(lines[1..], n + |lines[0]|, n);
      assert "" + Join(" ", lines[0]) == Join(" ", lines[0]);
    }
  }

  lemma {:induction false} JoinOne(pieces: seq<string>, rest: seq<string>, n: nat, buf: string, start: nat)
    requires pieces != [] && !Continues(pieces[|pieces| - 1])
    ensures var first := if buf == "" then n else start;
            Joined(Physical(pieces) + rest, n, buf, start)
            == [Logical(first, buf + Join(" ", pieces))] + Joined(rest, n + |pieces|, "", first)
  {
    var first := if buf == "" then n else start;
    if |pieces| == 1 {
      assert (Physical(pieces) + rest)[1..] == rest;
    } else {
      var raw := pieces[0] + "\\";
      assert (Physical(pieces) + rest)[0] == raw;
      assert (Physical(pieces) + rest)[1..] == Physical(pieces[1..]) + rest;
      assert raw[..|raw| - 1] == pieces[0];
      JoinOne(pieces[1..], rest, n + 1, buf + pieces[0] + " ", first);
      assert buf + pieces[0] + " " + Join(" ", pieces[1..]) == buf + Join(" ", pieces);
    }
  }

  // ------------------------------------------------------- statements

  predicate IsQuote(c: char) {
    c == '"' || c == '\''
  }

  predicate IsSeparator(c: char) {
    c == ';' || c == '|' || c == '&'
  }

  // The length of the separator `s` opens with: `&&` and `||` count as one.
  function SeparatorLength(s: string): (n: nat)
    ensures n <= |s|
  {
    if s == "" || !IsSeparator(s[0]) then 0
    else if |s| > 1 && s[0] == s[1] && s[0] != ';' then 2
    else 1
  }

  predicate OpensComment(c: char, cur: string) {
    c == '#' && (cur == "" || IsSpace(cur[|cur| - 1]))
  }

  // A line cut into statements; what stands between them and the comment at its end are kept so
  // that the cut can be undone.
  datatype Cutting = Cutting(parts: seq<string>, separators: seq<string>, comment: string)

  // Cuts what is left of a line when `cur` has been read of the current statement, inside the
  // quote `quote` if there is one.
  function Cut(s: string, cur: string, quote: Option<char>): (r: Cutting)
    ensures |r.parts| == |r.separators| + 1
    decreases |s|
  {
    if s == "" then Cutting([cur], [], "")
    else if quote.Some? then Cut(s[1..], cur + [s[0]], if s[0] == quote.value then None else quote)
    else if IsQuote(s[0]) then Cut(s[1..], cur + [s[0]], Some(s[0]))
    else if s[0] == '\\' && |s| > 1 then Cut(s[2..], cur + s[..2], None)
    else if OpensComment(s[0], cur) then Cutting([cur], [], s)
    else if IsSeparator(s[0]) then
      var n := SeparatorLength(s);
      var rest := Cut(s[n..], "", None);
      Cutting([cur] + rest.parts, [s[..n]] + rest.separators, rest.comment)
    else Cut(s[1..], cur + [s[0]], None)
  }

  method SplitStatements(line: string) returns (parts: seq<string>)
    ensures parts == Cut(line, "", None).parts
  {
    parts := [];
    var cur, quote, i := "", None, 0;
    while i < |line|
      invariant 0 <= i <= |line|
      invariant parts + Cut(line[i..], cur, quote).parts == Cut(line, "", None).parts
    {
      var c := line[i];
      ghost var left := line[i..];
      assert left[0] == c && left[1..] == line[i + 1..];
      if quote.Some? {
        cur := cur + [c];
        if c == quote.value {
          quote := None;
        }
        i := i + 1;
        continue;
      }
      if IsQuote(c) {
        quote := Some(c);
        cur := cur + [c];
        i := i + 1;
        continue;
      }
      if c == '\\' && i + 1 < |line| {
        assert left[..2] == line[i..i + 2] && left[2..] == line[i + 2..];
        cur := cur + line[i..i + 2];
        i := i + 2;
        continue;
      }
      if OpensComment(c, cur) {
        break;
      }
      if IsSeparator(c) {
        var n := if i + 1 < |line| && line[i + 1] == c && c != ';' then 2 else 1;
        assert n == SeparatorLength(left) && left[n..] == line[i + n..];
        parts := parts + [cur];
        cur := "";
        i := i + n;
        continue;
      }
      cur := cur + [c];
      i := i + 1;
    }
    parts := parts + [cur];
  }

  // The line a cutting came from.
  function Weave(r: Cutting): string
    requires |r.parts| == |r.separators| + 1
    decreases |r.separators|
  {
    if r.separators == [] then r.parts[0] + r.comment
    else r.parts[0] + r.separators[0] + Weave(Cutting(r.parts[1..], r.separators[1..], r.comment))
  }

  /** Cutting loses nothing: statements, separators and comment woven together are the line. */
  lemma {:induction false} CutKeepsLine(s: string, cur: string, quote: Option<char>)
    ensures Weave(Cut(s, cur, quote)) == cur + s
    decreases |s|
  {
    if s == "" {
      assert cur + "" == cur;
    } else if quote.Some? {
      CutKeepsLine(s[1..], cur + [s[0]], if s[0] == quote.value then None else quote);
      assert cur + [s[0]] + s[1..] == cur + s;
    } else if IsQuote(s[0]) {
      CutKeepsLine(s[1..], cur + [s[0]], Some(s[0]));
      assert cur + [s[0]] + s[1..] == cur + s;
    } else if s[0] == '\\' && |s| > 1 {
      CutKeepsLine(s[2..], cur + s[..2], None);
      assert cur + s[..2] + s[2..] == cur + s;
    } else if OpensComment(s[0], cur) {
    } else if IsSeparator(s[0]) {
      var n := SeparatorLength(s);
      CutKeepsLine(s[n..], "", None);
      var r := Cut(s, cur, quote);
      var rest := Cut(s[n..], "", None);
      assert r.parts[1..] == rest.parts && r.separators[1..] == rest.separators;
      assert cur + s[..n] + s[n..] == cur + s;
    } else {
      CutKeepsLine(s[1..], cur + [s[0]], None);
      assert cur + [s[0]] + s[1..] == cur + s;
    }
  }

  // A statement as its author means it: characters, escapes and quoted stretches.
  datatype Piece = Bare(c: char) | Escaped(c: char) | Quoted(q: char, inside: string)

  function PieceText(p: Piece): string {
    match p
    case Bare(c) => [c]
    case Escaped(c) => ['\\', c]
    case Quoted(q, inside) => [q] + inside + [q]
  }

  function StatementText(ps: seq<Piece>): string {
    if ps == [] then "" else PieceText(ps[0]) + StatementText(ps[1..])
  }

  // A bare character is neither quote, backslash nor separator, and `#` only inside a word.
  ghost predicate Proper(ps: seq<Piece>, cur: string) {
    ps == [] || (ProperPiece(ps[0], cur) && Proper(ps[1..], cur + PieceText(ps[0])))
  }

  ghost predicate ProperPiece(p: Piece, cur: string) {
    match p
    case Bare(c) => !IsQuote(c) && !IsSeparator(c) && c != '\\' && !OpensComment(c, cur)
    case Escaped(_) => true
    case Quoted(q, inside) => IsQuote(q) && q !in inside
  }

  /** Character by character: the two quotes, the three separators, and the hash that begins a word. */
  lemma PiecesAre(p: Piece, cur: string)
    ensures ProperPiece(p, cur) <==>
              match p
              case Bare(c) =>
                c !in ['"', '\'', ';', '|', '&', '\\'] && !(c == '#' && (cur == "" || IsSpace(cur[|cur| - 1])))
              case Escaped(_) => true
              case Quoted(q, inside) => q in ['"', '\''] && q !in inside
  {}

  // A line of statements, each but the first behind its separator.
  function LineText(statements: seq<seq<Piece>>, separators: seq<string>): string
    requires |statements| == |separators| + 1
  {
    if separators == [] then StatementText(statements[0])
    else StatementText(statements[0]) + separators[0] + LineText(statements[1..], separators[1..])
  }

  function Texts(statements: seq<seq<Piece>>): seq<string> {
    if statements == [] then [] else [StatementText(statements[0])] + Texts(statements[1..])
  }

  // `;`, `|`, `&`, `||` or `&&`.
  predicate IsSeparatorText(sep: string) {
    sep == ";" || sep == "|" || sep == "&" || sep == "||" || sep == "&&"
  }

  // No statement opens with a separator character, so a separator ends where it was written.
  lemma {:induction false} ProperOpening(ps: seq<Piece>)
    requires Proper(ps, "") && ps != []
    ensures StatementText(ps) != "" && !IsSeparator(StatementText(ps)[0])
  {}

  lemma LineSplit(statements: seq<seq<Piece>>, separators: seq<string>)
    requires |statements| == |separators| + 1 && separators != []
    ensures LineText(statements, separators)
            == StatementText(statements[0]) + (separators[0] + LineText(statements[1..], separators[1..]))
    ensures Texts(statements) == [StatementText(statements[0])] + Texts(statements[1..])
    ensures separators == [separators[0]] + separators[1..]
  {}

  ghost predicate CutsTo(text: string, parts: seq<string>, separators: seq<string>) {
    |parts| == |separators| + 1 && Cut(text, "", None) == Cutting(parts, separators, "")
  }

  lemma LastStatement(ps: seq<Piece>)
    requires Proper(ps, "")
    ensures CutsTo(StatementText(ps), [StatementText(ps)], [])
  {
    CutStatement(ps, "", "");
    assert StatementText(ps) + "" == StatementText(ps) == "" + StatementText(ps);
  }

  lemma StatementThen(ps: seq<Piece>, sep: string, rest: string, parts: seq<string>, separators: seq<string>)
    requires Proper(ps, "") && IsSeparatorText(sep) && (rest == "" || !IsSeparator(rest[0]))
    requires CutsTo(rest, parts, separators)
    ensures CutsTo(StatementText(ps) + (sep + rest), [StatementText(ps)] + parts, [sep] + separators)
  {
    CutStatement(ps, "", sep + rest);
    assert "" + StatementText(ps) == StatementText(ps);
    CutSeparator(sep, rest, StatementText(ps));
  }

  /** A comment ends the line: what follows a hash that begins a word is no part of a statement. */
  lemma CommentCut(ps: seq<Piece>, comment: string)
    requires Proper(ps, "") && comment != "" && comment[0] == '#'
    requires var text := StatementText(ps); text == "" || IsSpace(text[|text| - 1])
    ensures Cut(StatementText(ps) + comment, "", None) == Cutting([StatementText(ps)], [], comment)
  {
    CutStatement(ps, "", comment);
    assert "" + StatementText(ps) == StatementText(ps);
  }

  /** Cutting undoes writing statements on one line: quoted and escaped separators never cut. */
  lemma {:induction false} CutUndoesLine(statements: seq<seq<Piece>>, separators: seq<string>)
    requires |statements| == |separators| + 1
    requires forall i | 0 <= i < |statements| :: Proper(statements[i], "")
    requires forall i | 0 < i < |statements| - 1 :: statements[i] != []
    requires forall i | 0 <= i < |separators| :: IsSeparatorText(separators[i])
    ensures CutsTo(LineText(statements, separators), Texts(statements), separators)
  {
    var ps := statements[0];
    if separators == [] {
      LastStatement(ps);
      assert Texts(statements) == [StatementText(ps)] by { assert statements[1..] == []; }
    } else {
      var sep := separators[0];
      var rest := LineText(statements[1..], separators[1..]);
      RestOpening(statements[1..], separators[1..]);
      CutUndoesLine(statements[1..], separators[1..]);
      StatementThen(ps, sep, rest, Texts(statements[1..]), separators[1..]);
      LineSplit(statements, separators);
    }
  }

  lemma CutSeparator(sep: string, rest: string, cur: string)
    requires IsSeparatorText(sep) && (rest == "" || !IsSeparator(rest[0]))
    ensures var after := Cut(rest, "", None);
            Cut(sep + rest, cur, None) == Cutting([cur] + after.parts, [sep] + after.separators, after.comment)
  {
    assert SeparatorLength(sep + rest) == |sep|;
    assert (sep + rest)[|sep|..] == rest && (sep + rest)[..|sep|] == sep;
  }

  lemma RestOpening(statements: seq<seq<Piece>>, separators: seq<string>)
    requires |statements| == |separators| + 1
    requires forall i | 0 <= i < |statements| :: Proper(statements[i], "")
    requires separators != [] ==> statements[0] != []
    ensures var text := LineText(statements, separators); text == "" || !IsSeparator(text[0])
  {
    if statements[0] != [] {
      ProperOpening(statements[0]);
    }
  }

  lemma {:induction false} CutStatement(ps: seq<Piece>, cur: string, rest: string)
    requires Proper(ps, cur)
    ensures Cut(StatementText(ps) + rest, cur, None) == Cut(rest, cur + StatementText(ps), None)
  {
    if ps == [] {
      assert StatementText(ps) + rest == rest && cur + StatementText(ps) == cur;
    } else {
      var p := PieceText(ps[0]);
      assert StatementText(ps) + rest == p + (StatementText(ps[1..]) + rest);
      CutPiece(ps[0], cur, StatementText(ps[1..]) + rest);
      CutStatement(ps[1..], cur + p, rest);
      assert cur + p + StatementText(ps[1..]) == cur + StatementText(ps);
    }
  }

  lemma CutBare(c: char, cur: string, tail: string)
    requires ProperPiece(Bare(c), cur)
    ensures Cut([c] + tail, cur, None) == Cut(tail, cur + [c], None)
  {
    assert ([c] + tail)[0] == c && ([c] + tail)[1..] == tail;
  }

  lemma CutEscaped(c: char, cur: string, tail: string)
    ensures Cut(['\\', c] + tail, cur, None) == Cut(tail, cur + ['\\', c], None)
  {
    var text := ['\\', c] + tail;
    assert text[0] == '\\' && text[..2] == ['\\', c] && text[2..] == tail;
  }

  lemma CutQuotation(q: char, inside: string, cur: string, tail: string)
    requires IsQuote(q) && q !in inside
    ensures Cut([q] + inside + [q] + tail, cur, None) == Cut(tail, cur + ([q] + inside + [q]), None)
  {
    var text := [q] + inside + [q] + tail;
    assert text[0] == q && text[1..] == inside + ([q] + tail);
    CutQuoted(q, inside, cur + [q], tail);
    assert cur + [q] + inside + [q] == cur + ([q] + inside + [q]);
  }

  lemma CutPiece(p: Piece, cur: string, tail: string)
    requires ProperPiece(p, cur)
    ensures Cut(PieceText(p) + tail, cur, None) == Cut(tail, cur + PieceText(p), None)
  {
    match p
    case Bare(c) => CutBare(c, cur, tail);
    case Escaped(c) => CutEscaped(c, cur, tail);
    case Quoted(q, inside) => CutQuotation(q, inside, cur, tail);
  }

  lemma {:induction false} CutQuoted(q: char, inside: string, cur: string, rest: string)
    requires q !in inside
    ensures Cut(inside + ([q] + rest), cur, Some(q)) == Cut(rest, cur + inside + [q], None)
  {
    var text := inside + ([q] + rest);
    if inside == "" {
      assert text == [q] + rest && text[1..] == rest && cur + "" + [q] == cur + [q];
    } else {
      assert text[0] == inside[0] && text[1..] == inside[1..] + ([q] + rest);
      CutQuoted(q, inside[1..], cur + [inside[0]], rest);
      assert cur + [inside[0]] + inside[1..] == cur + inside;
    }
  }

  // ------------------------------------------------------- from text to statements

  // The tokenizer of one statement, which may refuse it, and whether a statement names a systemd
  // directory.
  datatype Tokenizer = Tokenizer(words: string -> Option<seq<string>>, systemd: string -> bool)

  // The simple commands, and the statements that are errors because nobody can say what they install.
  datatype Script = Script(stmts: seq<Stmt>, refused: seq<Logical>)

  function Both(a: Script, b: Script): Script {
    Script(a.stmts + b.stmts, a.refused + b.refused)
  }

  // What one statement of line `n` comes to.
  function OneStatement(t: Tokenizer, n: nat, part: string): Script {
    if Blank(part) then Script([], [])
    else match t.words(part)
      case Some(argv) => Script([Stmt(n, argv)], [])
      case None => Script([], if t.systemd(part) then [Logical(n, part)] else [])
  }

  function LineScript(t: Tokenizer, n: nat, parts: seq<string>): Script {
    if parts == [] then Script([], [])
    else Both(LineScript(t, n, parts[..|parts| - 1]), OneStatement(t, n, parts[|parts| - 1]))
  }

  function ScriptOf(t: Tokenizer, lines: seq<Logical>): Script {
    if lines == [] then Script([], [])
    else
      var last := lines[|lines| - 1];
      Both(ScriptOf(t, lines[..|lines| - 1]), LineScript(t, last.line, Cut(last.text, "", None).parts))
  }

  // `_tokenize`: the statements of a text, with the numbers of their lines.
  method Tokenize(t: Tokenizer, text: string) returns (stmts: seq<Stmt>, refused: seq<Logical>)
    ensures Script(stmts, refused) == ScriptOf(t, Joined(SplitLines(text), 1, "", 1))
  {
    var lines := LogicalLines(text);
    stmts, refused := [], [];
    for k := 0 to |lines|
      invariant Script(stmts, refused) == ScriptOf(t, lines[..k])
    {
      assert lines[..k + 1][..k] == lines[..k];
      var more, bad := TokenizeLine(t, lines[k]);
      stmts, refused := stmts + more, refused + bad;
    }
    assert lines[..|lines|] == lines;
  }

  method TokenizeLine(t: Tokenizer, line: Logical) returns (stmts: seq<Stmt>, refused: seq<Logical>)
    ensures Script(stmts, refused) == LineScript(t, line.line, Cut(line.text, "", None).parts)
  {
    var parts := SplitStatements(line.text);
    stmts, refused := [], [];
    for k := 0 to |parts|
      invariant Script(stmts, refused) == LineScript(t, line.line, parts[..k])
    {
      assert parts[..k + 1][..k] == parts[..k];
      var part := parts[k];
      if !Blank(part) {
        var argv := t.words(part);
        if argv.Some? {
          stmts := stmts + [Stmt(line.line, argv.value)];
        } else if t.systemd(part) {
          refused := refused + [Logical(line.line, part)];
        }
      }
    }
    assert parts[..|parts|] == parts;
  }

  /** No statement of a text goes unaccounted for: each that is not blank, of whatever logical line, is a
      command at that line or, refused by the tokenizer while naming a systemd directory, an error there. */
  lemma {:induction false} NoStatementLost(t: Tokenizer, lines: seq<Logical>, k: nat, part: string)
    requires k < |lines| && part in Cut(lines[k].text, "", None).parts && !Blank(part)
    ensures var s := ScriptOf(t, lines);
            match t.words(part)
            case Some(argv) => Stmt(lines[k].line, argv) in s.stmts
            case None => t.systemd(part) ==> Logical(lines[k].line, part) in s.refused
  {
    var n := |lines| - 1;
    if k < n {
      NoStatementLost(t, lines[..n], k, part);
    } else {
      PartCounts(t, lines[k].line, Cut(lines[k].text, "", None).parts, part);
    }
  }

  lemma {:induction false} PartCounts(t: Tokenizer, n: nat, parts: seq<string>, part: string)
    requires part in parts && !Blank(part)
    ensures var s := LineScript(t, n, parts);
            match t.words(part)
            case Some(argv) => Stmt(n, argv) in s.stmts
            case None => t.systemd(part) ==> Logical(n, part) in s.refused
  {
    var m := |parts| - 1;
    if parts[m] != part {
      assert parts == parts[..m] + [parts[m]];
      PartCounts(t, n, parts[..m], part);
    }
  }
}
