/** Reading a PKGBUILD in os/repo-tools/check-desktop-inventory.py: joining array literals into logical
    lines, and which scope a provides=, conflicts= or replaces= belongs to.

    Assignments overwrite in the order of the text, so the last one that reaches a package decides;
    `OverrideByOrder` and `UsualLayout` say when that is the assignment in the package's own function,
    which is the one makepkg honours. */
module PkgScopes {
  import opened Common
  import opened Text

  // ------------------------------------------------------- logical lines

  // How a physical line is read: whole-line comments emptied, parentheses counted, an assignment known;
  // `strip` is `str.strip`.
  datatype Reader = Reader(visible: string -> string, net: string -> int, assigns: string -> bool,
                           strip: string -> string)

  datatype Logical = Logical(start: nat, text: string)

  predicate Continued(line: string) {
    line != "" && line[|line| - 1] == '\\'
  }

  function Uncontinued(line: string): string {
    if Continued(line) then line[..|line| - 1] else line
  }

  // `_joined` from physical line `n` on, with `buf` gathered since line `start`.
  function Joined(r: Reader, lines: seq<string>, n: nat, buf: string, start: nat, depth: int): seq<Logical>
    decreases |lines|
  {
    if lines == [] then (if r.strip(buf) != "" then [Logical(start, r.strip(buf))] else [])
    else
      var seen := r.visible(lines[0]);
      var from := if buf == "" then n else start;
      var line := Uncontinued(seen);
      var more, deep := buf + line + " ", depth + r.net(line);
      if Continued(seen) || (deep > 0 && r.assigns(r.strip(more))) then Joined(r, lines[1..], n + 1, more, from, deep)
      else [Logical(from, r.strip(more))] + Joined(r, lines[1..], n + 1, "", from, 0)
  }

  lemma JoinedHead(r: Reader, line: string, rest: seq<string>, n: nat, buf: string, start: nat, depth: int)
    ensures var seen := r.visible(line);
            var from := if buf == "" then n else start;
            var more, deep := buf + Uncontinued(seen) + " ", depth + r.net(Uncontinued(seen));
            Joined(r, [line] + rest, n, buf, start, depth)
            == if Continued(seen) || (deep > 0 && r.assigns(r.strip(more))) then
                Joined(r, rest, n + 1, more, from, deep)
               else [Logical(from, r.strip(more))] + Joined(r, rest, n + 1, "", from, 0)
  {
    assert ([line] + rest)[1..] == rest;
  }

  lemma JoinedStep(r: Reader, lines: seq<string>, i: nat, buf: string, start: nat, depth: int)
    requires i < |lines|
    ensures var seen := r.visible(lines[i]);
            var from := if buf == "" then i + 1 else start;
            var more, deep := buf + Uncontinued(seen) + " ", depth + r.net(Uncontinued(seen));
            Joined(r, lines[i..], i + 1, buf, start, depth)
            == if Continued(seen) || (deep > 0 && r.assigns(r.strip(more))) then
                Joined(r, lines[i + 1..], i + 2, more, from, deep)
               else [Logical(from, r.strip(more))] + Joined(r, lines[i + 1..], i + 2, "", from, 0)
  {
    assert lines[i..][0] == lines[i] && lines[i..][1..] == lines[i + 1..];
  }

  /** `_joined`. */
  method Join(r: Reader, lines: seq<string>) returns (out: seq<Logical>)
    ensures out == Joined(r, lines, 1, "", 1, 0)
  {
    out := [];
    var buf, start, depth, i := "", 1, 0, 0;
    while i < |lines|
      invariant 0 <= i <= |lines|
      invariant out + Joined(r, lines[i..], i + 1, buf, start, depth) == Joined(r, lines, 1, "", 1, 0)
    {
      JoinedStep(r, lines, i, buf, start, depth);
      var seen := r.visible(lines[i]);
      var line := Uncontinued(seen);
      if buf == "" { start := i + 1; }
      buf, depth := buf + line + " ", depth + r.net(line);
      i := i + 1;
      if Continued(seen) || (depth > 0 && r.assigns(r.strip(buf))) { continue; }
      Regroup(out, [Logical(start, r.strip(buf))], Joined(r, lines[i..], i + 1, "", start, 0));
      out := out + [Logical(start, r.strip(buf))];
      buf, depth := "", 0;
    }
    assert lines[i..] == [];
    if r.strip(buf) != "" { out := out + [Logical(start, r.strip(buf))]; }
  }

  // The lines of an array literal as one text.
  function Glued(r: Reader, lines: seq<string>): string {
    if lines == [] then "" else Glued(r, lines[..|lines| - 1]) + r.visible(lines[|lines| - 1]) + " "
  }

  function Net(r: Reader, lines: seq<string>): int {
    if lines == [] then 0 else Net(r, lines[..|lines| - 1]) + r.net(r.visible(lines[|lines| - 1]))
  }

  // The literal stays open before its last line, as an assignment, and closes there.
  ghost predicate Literal(r: Reader, lines: seq<string>) {
    lines != [] && Net(r, lines) <= 0
    && (forall i | 0 <= i < |lines| :: !EndsWith(r.visible(lines[i]), "\\"))
    && forall i | 0 < i < |lines| :: Net(r, lines[..i]) > 0 && r.assigns(r.strip(Glued(r, lines[..i])))
  }

  lemma GluedMore(r: Reader, lines: seq<string>, k: nat)
    requires k < |lines|
    ensures Glued(r, lines[..k + 1]) == Glued(r, lines[..k]) + r.visible(lines[k]) + " "
    ensures Net(r, lines[..k + 1]) == Net(r, lines[..k]) + r.net(r.visible(lines[k]))
    ensures k > 0 ==> Glued(r, lines[..k]) != ""
  {
    assert lines[..k + 1][..k] == lines[..k];
    assert k > 0 ==> |Glued(r, lines[..k])| > 0;
  }

  // A line inside the literal is gathered, and its last line ends it.
  lemma LiteralLine(r: Reader, lines: seq<string>, rest: seq<string>, n: nat, k: nat)
    requires Literal(r, lines) && 0 < k < |lines|
    ensures Joined(r, [lines[k]] + rest, n + k, Glued(r, lines[..k]), n, Net(r, lines[..k]))
         == if k + 1 < |lines| then Joined(r, rest, n + k + 1, Glued(r, lines[..k + 1]), n, Net(r, lines[..k + 1]))
            else [Logical(n, r.strip(Glued(r, lines)))] + Joined(r, rest, n + k + 1, "", n, 0)
  {
    JoinedHead(r, lines[k], rest, n + k, Glued(r, lines[..k]), n, Net(r, lines[..k]));
    ContinuedEnds(r.visible(lines[k]));
    GluedMore(r, lines, k);
    assert lines[..|lines|] == lines;
  }

  lemma {:induction false} LiteralFrom(r: Reader, lines: seq<string>, rest: seq<string>, n: nat, k: nat)
    requires Literal(r, lines) && 0 < k < |lines|
    ensures Joined(r, lines[k..] + rest, n + k, Glued(r, lines[..k]), n, Net(r, lines[..k]))
            == [Logical(n, r.strip(Glued(r, lines)))] + Joined(r, rest, n + |lines|, "", n, 0)
    decreases |lines| - k
  {
    TailAt(lines, rest, k);
    LiteralLine(r, lines, lines[k + 1..] + rest, n, k);
    if k + 1 < |lines| { LiteralFrom(r, lines, rest, n, k + 1); }
  }

  lemma TailAt(lines: seq<string>, rest: seq<string>, k: nat)
    requires k < |lines|
    ensures lines[k..] + rest == [lines[k]] + (lines[k + 1..] + rest)
    ensures k + 1 == |lines| ==> lines[k + 1..] + rest == rest
  {}

  lemma ContinuedEnds(line: string)
    ensures Continued(line) <==> EndsWith(line, "\\")
  {
    assert line != "" ==> line[|line| - 1..] == [line[|line| - 1]];
  }

  // The pieces of a continued line as one text, behind what has been gathered.
  function Pieced(pieces: seq<string>, buf: string): string {
    if pieces == [] then buf else Pieced(pieces[1..], buf + pieces[0] + " ")
  }

  // Each line but the last is a piece and a backslash, and nothing is left open behind the last.
  predicate Continues(r: Reader, lines: seq<string>, pieces: seq<string>, buf: string, depth: int) {
    |lines| == |pieces| > 0
    && var more, deep := buf + pieces[0] + " ", depth + r.net(pieces[0]);
    if |lines| > 1 then
      r.visible(lines[0]) == pieces[0] + "\\" && Continues(r, lines[1..], pieces[1..], more, deep)
    else
      r.visible(lines[0]) == pieces[0] && !EndsWith(pieces[0], "\\") && !(deep > 0 && r.assigns(r.strip(more)))
  }

  lemma UncontinuedPiece(piece: string)
    ensures Continued(piece + "\\") && Uncontinued(piece + "\\") == piece
  {
    assert (piece + "\\")[..|piece|] == piece;
  }

  lemma {:induction false} ContinuedFrom(r: Reader, lines: seq<string>, pieces: seq<string>, rest: seq<string>, n: nat,
                                         buf: string, start: nat, depth: int)
    requires Continues(r, lines, pieces, buf, depth)
    ensures var from := if buf == "" then n else start;
            Joined(r, lines + rest, n, buf, start, depth)
            == [Logical(from, r.strip(Pieced(pieces, buf)))] + Joined(r, rest, n + |lines|, "", from, 0)
  {
    assert lines + rest == [lines[0]] + (lines[1..] + rest);
    if |lines| > 1 {
      var from := if buf == "" then n else start;
      ContinuedOn(r, lines[0], pieces[0], lines[1..] + rest, n, buf, start, depth);
      ContinuedFrom(r, lines[1..], pieces[1..], rest, n + 1, buf + pieces[0] + " ", from, depth + r.net(pieces[0]));
    } else {
      ContinuedLast(r, lines[0], pieces[0], rest, n, buf, start, depth);
      assert lines[1..] + rest == rest && pieces[1..] == [];
    }
  }

  lemma ContinuedOn(r: Reader, line: string, piece: string, tail: seq<string>, n: nat, buf: string, start: nat,
                    depth: int)
    requires r.visible(line) == piece + "\\"
    ensures Joined(r, [line] + tail, n, buf, start, depth)
         == Joined(r, tail, n + 1, buf + piece + " ", if buf == "" then n else start, depth + r.net(piece))
  {
    UncontinuedPiece(piece);
    JoinedHead(r, line, tail, n, buf, start, depth);
  }

  lemma ContinuedLast(r: Reader, line: string, piece: string, rest: seq<string>, n: nat, buf: string, start: nat,
                      depth: int)
    requires r.visible(line) == piece && !EndsWith(piece, "\\")
    requires !(depth + r.net(piece) > 0 && r.assigns(r.strip(buf + piece + " ")))
    ensures var from := if buf == "" then n else start;
            Joined(r, [line] + rest, n, buf, start, depth)
            == [Logical(from, r.strip(buf + piece + " "))] + Joined(r, rest, n + 1, "", from, 0)
  {
    ContinuedEnds(piece);
    JoinedHead(r, line, rest, n, buf, start, depth);
  }

  /** A continued line, over any number of lines, is one logical line: the pieces with a blank behind each,
      stripped, numbered where it begins; what follows is read as if nothing had come before. */
  lemma ContinuationJoined(r: Reader, lines: seq<string>, pieces: seq<string>, rest: seq<string>, n: nat, start: nat)
    requires Continues(r, lines, pieces, "", 0)
    ensures Joined(r, lines + rest, n, "", start, 0)
         == [Logical(n, r.strip(Pieced(pieces, "")))] + Joined(r, rest, n + |lines|, "", n, 0)
  {
    ContinuedFrom(r, lines, pieces, rest, n, "", start, 0);
  }

  /** What the last lines leave unfinished is a logical line of its own, if it says anything. */
  lemma LeftOver(r: Reader, buf: string, n: nat, start: nat, depth: int)
    ensures Joined(r, [], n, buf, start, depth) == if r.strip(buf) == "" then [] else [Logical(start, r.strip(buf))]
  {}

  /** An array literal over any number of lines is one logical line, numbered where it opens, and what
      follows it is read as if nothing had come before. */
  lemma LiteralJoined(r: Reader, lines: seq<string>, rest: seq<string>, n: nat, start: nat)
    requires Literal(r, lines)
    ensures Joined(r, lines + rest, n, "", start, 0)
            == [Logical(n, r.strip(Glued(r, lines)))] + Joined(r, rest, n + |lines|, "", n, 0)
  {
    assert lines + rest == [lines[0]] + (lines[1..] + rest);
    JoinedHead(r, lines[0], lines[1..] + rest, n, "", start, 0);
    ContinuedEnds(r.visible(lines[0]));
    GluedMore(r, lines, 0);
    assert lines[..0] == [];
    if |lines| > 1 {
      LiteralFrom(r, lines, rest, n, 1);
    } else {
      assert lines[..1] == lines && lines[1..] + rest == rest;
    }
  }

  // ------------------------------------------------------- scopes

  // A logical line: a package function opens, closes, one of the three arrays is set, or anything else.
  datatype Line = Opens(name: string) | Closes | Sets(key: string, values: seq<string>) | Other

  // The scope after a line.
  function Scope(scope: Option<string>, line: Line): Option<string> {
    match line
    case Opens(name) => Some(name)
    case Closes => None
    case _ => scope
  }

  function ScopeAt(lines: seq<Line>): Option<string> {
    if lines == [] then None else Scope(ScopeAt(lines[..|lines| - 1]), lines[|lines| - 1])
  }

  // Whether an assignment under `scope` sets the arrays of package `p`: its own, or everybody's when the
  // scope is global or names no package of this file.
  predicate Reaches(pkgs: set<string>, scope: Option<string>, p: string) {
    scope == Some(p) || scope.None? || scope.value !in pkgs
  }

  // The values package `p` ends up with for `key`.
  function Final(pkgs: set<string>, lines: seq<Line>, p: string, key: string): seq<string> {
    if lines == [] then []
    else
      var before, last := lines[..|lines| - 1], lines[|lines| - 1];
      if last.Sets? && last.key == key && Reaches(pkgs, ScopeAt(before), p) then last.values
          else Final(pkgs, before, p, key)
  }

  type Arrays = map<(string, string), seq<string>>

  // `pkg.kind(key)[:] = vals` for each target.
  function Overwritten(arrays: Arrays, targets: set<string>, key: string, values: seq<string>): (now: Arrays)
    ensures forall p, k :: (p, k) in now <==> (p, k) in arrays
    ensures forall p, k :: (p, k) in arrays ==> now[(p, k)] == if k == key && p in targets then values
            else arrays[(p, k)]
  {
    map pk | pk in arrays :: if pk.1 == key && pk.0 in targets then values else arrays[pk]
  }

  lemma FinalMore(pkgs: set<string>, lines: seq<Line>, line: Line, p: string, key: string)
    ensures Final(pkgs, lines + [line], p, key)
            == if line.Sets? && line.key == key && Reaches(pkgs, ScopeAt(lines), p) then line.values
                else Final(pkgs, lines, p, key)
    ensures ScopeAt(lines + [line]) == Scope(ScopeAt(lines), line)
  {
    assert (lines + [line])[..|lines|] == lines;
  }

  ghost predicate Right(pkgs: set<string>, keys: set<string>, lines: seq<Line>, arrays: Arrays) {
    forall p, key :: p in pkgs && key in keys ==> (p, key) in arrays && arrays[(p, key)] == Final(pkgs, lines, p, key)
  }

  lemma RightMore(pkgs: set<string>, keys: set<string>, lines: seq<Line>, line: Line, arrays: Arrays)
    requires Right(pkgs, keys, lines, arrays)
    ensures ScopeAt(lines + [line]) == Scope(ScopeAt(lines), line)
    ensures !line.Sets? ==> Right(pkgs, keys, lines + [line], arrays)
  {
    FinalMore(pkgs, lines, line, "", "");
    if !line.Sets? {
      forall p, key | p in pkgs && key in keys ensures arrays[(p, key)] == Final(pkgs, lines + [line], p, key) {
        FinalMore(pkgs, lines, line, p, key);
      }
    }
  }

  lemma SetsRight(pkgs: set<string>, keys: set<string>, lines: seq<Line>, arrays: Arrays, key: string,
                  values: seq<string>)
    requires Right(pkgs, keys, lines, arrays)
    ensures var scope := ScopeAt(lines);
            var targets := if scope.Some? && scope.value in pkgs then {scope.value} else pkgs;
            Right(pkgs, keys, lines + [Sets(key, values)], Overwritten(arrays, targets, key, values))
  {
    forall p, k | p in pkgs && k in keys
      ensures Final(pkgs, lines + [Sets(key, values)], p, k)
              == if k == key && Reaches(pkgs, ScopeAt(lines), p) then values else Final(pkgs, lines, p, k)
    {
      FinalMore(pkgs, lines, Sets(key, values), p, k);
    }
  }

  /** `read_pkgbuild`'s scope pass: every package's arrays, overwritten in place as the lines go by. */
  method ReadScopes(pkgs: set<string>, keys: set<string>, lines: seq<Line>) returns (arrays: Arrays)
    requires forall i | 0 <= i < |lines| && lines[i].Sets? :: lines[i].key in keys
    ensures forall p, key ::
              p in pkgs && key in keys ==> (p, key) in arrays && arrays[(p, key)] == Final(pkgs, lines, p, key)
  {
    arrays := map p, key | p in pkgs && key in keys :: (p, key) := [];
    var scope: Option<string> := None;
    for i := 0 to |lines|
      invariant scope == ScopeAt(lines[..i])
      invariant Right(pkgs, keys, lines[..i], arrays)
    {
      assert lines[..i + 1] == lines[..i] + [lines[i]];
      RightMore(pkgs, keys, lines[..i], lines[i], arrays);
      match lines[i] {
        case Opens(name) => scope := Some(name);
        case Closes => scope := None;
        case Sets(key, values) =>
          var targets := if scope.Some? && scope.value in pkgs then {scope.value} else pkgs;
          SetsRight(pkgs, keys, lines[..i], arrays, key, values);
          arrays := Overwritten(arrays, targets, key, values);
        case Other =>
      }
    }
    assert lines[..|lines|] == lines;
  }

  // What makepkg does: a package's own function decides, wherever it stands, else the global scope.
  function Own(lines: seq<Line>, p: string, key: string): Option<seq<string>> {
    if lines == [] then None
    else
      var before, last := lines[..|lines| - 1], lines[|lines| - 1];
      if last.Sets? && last.key == key && ScopeAt(before) == Some(p) then Some(last.values) else Own(before, p, key)
  }

  // The last line setting `key` for p that is not in p's function; 0 if none, else its number.
  function LastForeign(pkgs: set<string>, lines: seq<Line>, p: string, key: string): (n: nat)
    ensures n <= |lines|
  {
    if lines == [] then 0
    else
      var before, last := lines[..|lines| - 1], lines[|lines| - 1];
      if last.Sets? && last.key == key && Reaches(pkgs, ScopeAt(before), p) && ScopeAt(before) != Some(p) then |lines|
      else LastForeign(pkgs, before, p, key)
  }

  // The number of the last line setting `key` in p's function; 0 if none.
  function LastOwn(lines: seq<Line>, p: string, key: string): (n: nat)
    ensures n <= |lines|
    ensures n > 0 <==> Own(lines, p, key).Some?
    ensures n > 0 ==> lines[n - 1].Sets? && Own(lines, p, key) == Some(lines[n - 1].values)
  {
    if lines == [] then 0
    else
      var before, last := lines[..|lines| - 1], lines[|lines| - 1];
      if last.Sets? && last.key == key && ScopeAt(before) == Some(p) then |lines| else LastOwn(before, p, key)
  }

  /** The override of a package function holds exactly as far as the text's order: what p ends up with is
      what its own function set last, unless a later assignment in the global scope, or in a function of
      no package here, set the key again, and then it is that one's values. */
  lemma {:induction false} OverrideByOrder(pkgs: set<string>, lines: seq<Line>, p: string, key: string)
    ensures var own, other := LastOwn(lines, p, key), LastForeign(pkgs, lines, p, key);
            (own > other ==> Some(Final(pkgs, lines, p, key)) == Own(lines, p, key))
            && (own < other ==> lines[other - 1].Sets? && Final(pkgs, lines, p, key) == lines[other - 1].values)
            && (own == other ==> own == 0 && Final(pkgs, lines, p, key) == [])
  {
    if lines != [] { OverrideByOrder(pkgs, lines[..|lines| - 1], p, key); }
  }

  lemma {:induction false} ForeignWithin(pkgs: set<string>, lines: seq<Line>, p: string, key: string, from: nat)
    requires forall i | from <= i < |lines| ::
               (ScopeAt(lines[..i]).Some? && ScopeAt(lines[..i]).value in pkgs) || !lines[i].Sets?
    ensures LastForeign(pkgs, lines, p, key) <= from
  {
    if |lines| > from {
      var n := |lines| - 1;
      assert forall i | from <= i < n :: lines[..n][..i] == lines[..i];
      ForeignWithin(pkgs, lines[..n], p, key, from);
    }
  }

  lemma {:induction false} OwnBeyond(lines: seq<Line>, p: string, key: string, from: nat)
    requires from <= |lines| && forall i | 0 <= i < from :: ScopeAt(lines[..i]).None?
    ensures LastOwn(lines, p, key) == 0 || LastOwn(lines, p, key) > from
  {
    if lines != [] {
      var n := |lines| - 1;
      var k := if from <= n then from else n;
      assert forall i | 0 <= i < k :: lines[..n][..i] == lines[..i];
      OwnBeyond(lines[..n], p, key, k);
      if from > n { assert lines[..n][..n] == lines[..n]; }
    }
  }

  /** In the usual layout, global assignments first and then functions of packages built here, the rule
      is makepkg's: a package that sets an array in its function has exactly that one. */
  lemma UsualLayout(pkgs: set<string>, lines: seq<Line>, from: nat, p: string, key: string)
    requires from <= |lines| && forall i | 0 <= i < from :: ScopeAt(lines[..i]).None?
    requires forall i | from <= i < |lines| ::
               (ScopeAt(lines[..i]).Some? && ScopeAt(lines[..i]).value in pkgs) || !lines[i].Sets?
    ensures Own(lines, p, key).Some? ==> Some(Final(pkgs, lines, p, key)) == Own(lines, p, key)
  {
    ForeignWithin(pkgs, lines, p, key, from);
    OwnBeyond(lines, p, key, from);
    OverrideByOrder(pkgs, lines, p, key);
  }
}
