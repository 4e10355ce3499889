/** Which programs a unit runs (os/repo-tools/check-egress-units.py, `exec_programs` and its
    helpers) and whether its address-family list lets it open an IP socket. */
module ExecStart {
  // A value of ExecStart is read by an `ExecReader`; `EveryLineCounts` holds of every honest one.
  // `ReaderFindsExactly` says which binaries the gate's own reader finds, in terms of how the words of
  // a value are spelled, and `GateReaderHonest` that it reports nothing else as a Lisa program.

  import opened Text
  import opened UnitFile

  // What one ExecStart= value contributes: the programs it names, whether they are Lisa binaries,
  // and whether they stand behind a shell or `env` wrapper.
  datatype Runs = Runs(names: seq<string>, lisa: bool, wrapped: bool)

  datatype Programs = Programs(names: seq<string>, wrapped: bool)

  predicate IsLisa(name: string) {
    name == "lisa" || StartsWith(name, "lisa-") || name == "xdg-desktop-portal-lisa"
  }

  // Reads one value; a field of every judgement below, so that the laws hold of any reader whose
  // Lisa names are Lisa names and whose other names are not.
  type ExecReader = string -> Runs

  ghost predicate Honest(lisa: string -> bool, reader: ExecReader) {
    forall v :: var r := reader(v);
      (forall i | 0 <= i < |r.names| :: lisa(r.names[i]) == r.lisa) && (r.wrapped ==> r.lisa && r.names != [])
      && (r.lisa ==> r.names != []) && (!r.lisa ==> |r.names| <= 1)
  }

  predicate Starts(d: Directive) {
    d.key == "ExecStart" && d.value != ""
  }

  // The ExecStart= values that are not empty, in order.
  function ExecValues(ds: seq<Directive>): seq<string> {
    if ds == [] then []
    else
      var last := ds[|ds| - 1];
      ExecValues(ds[..|ds| - 1]) + (if Starts(last) then [last.value] else [])
  }

  /** They are the values of the ExecStart lines that say something, and no others. */
  lemma {:induction false} ExecValuesAre(ds: seq<Directive>, v: string)
    ensures v in ExecValues(ds) <==> v != "" && exists i | 0 <= i < |ds| :: ds[i] == Directive("ExecStart", v)
  {
    if ds != [] {
      var n := |ds| - 1;
      ExecValuesAre(ds[..n], v);
      assert ds == ds[..n] + [ds[n]];
      if i :| 0 <= i < |ds| && ds[i] == Directive("ExecStart", v) {
        if i < n { assert ds[..n][i] == ds[i]; }
      }
      if i :| 0 <= i < n && ds[..n][i] == Directive("ExecStart", v) { assert ds[i] == Directive("ExecStart", v); }
    }
  }

  function AddRuns(p: Programs, r: Runs): Programs {
    if r.lisa then Programs(p.names + r.names, p.wrapped || r.wrapped)
    else if r.names != [] && r.names[0] !in p.names then Programs(p.names + [r.names[0]], p.wrapped)
    else p
  }

  function AllRuns(reader: ExecReader, values: seq<string>): Programs {
    if values == [] then Programs([], false)
    else AddRuns(AllRuns(reader, values[..|values| - 1]), reader(values[|values| - 1]))
  }

  method ExecPrograms(reader: ExecReader, text: string) returns (names: seq<string>, wrapped: bool)
    ensures Programs(names, wrapped) == AllRuns(reader, ExecValues(Says(text)))
  {
    var ds := ServiceLines(text);
    names, wrapped := GatherPrograms(reader, ds);
  }

  method GatherPrograms(reader: ExecReader, ds: seq<Directive>) returns (names: seq<string>, wrapped: bool)
    ensures Programs(names, wrapped) == AllRuns(reader, ExecValues(ds))
  {
    names, wrapped := [], false;
    for i := 0 to |ds|
      invariant Programs(names, wrapped) == AllRuns(reader, ExecValues(ds[..i]))
    {
      assert ds[..i + 1] == ds[..i] + [ds[i]];
      ExecValuesMore(ds[..i], ds[i]);
      if !Starts(ds[i]) { continue; }
      AllRunsMore(reader, ExecValues(ds[..i]), ds[i].value);
      var r := reader(ds[i].value);
      if r.lisa {
        names, wrapped := names + r.names, wrapped || r.wrapped;
      } else if r.names != [] && r.names[0] !in names {
        names := names + [r.names[0]];
      }
    }
    assert ds[..|ds|] == ds;
  }

  lemma ExecValuesMore(ds: seq<Directive>, d: Directive)
    ensures ExecValues(ds + [d]) == if Starts(d) then ExecValues(ds) + [d.value] else ExecValues(ds)
  {
    assert (ds + [d])[..|ds|] == ds;
    assert ExecValues(ds) + [] == ExecValues(ds);
  }

  lemma AllRunsMore(reader: ExecReader, values: seq<string>, v: string)
    ensures AllRuns(reader, values + [v]) == AddRuns(AllRuns(reader, values), reader(v))
  {
    assert (values + [v])[..|values|] == values;
  }

  // The Lisa binaries among some names, in order.
  function LisaAmong(lisa: string -> bool, names: seq<string>): (r: seq<string>)
    ensures forall n :: n in r <==> n in names && lisa(n)
  {
    if names == [] then []
    else LisaAmong(lisa, names[..|names| - 1]) + (if lisa(names[|names| - 1]) then [names[|names| - 1]] else [])
  }

  /** No ExecStart line hides a Lisa binary, and none is invented: a Lisa name is among the unit's
      programs exactly when some line names it, and the unit is wrapped exactly when some line is. */
  lemma {:induction false} EveryLineCounts(lisa: string -> bool, reader: ExecReader, values: seq<string>)
    requires Honest(lisa, reader)
    ensures var p := AllRuns(reader, values);
            (forall b | lisa(b) :: b in p.names <==> exists i | 0 <= i < |values| :: b in reader(values[i]).names)
            && (p.wrapped <==> exists i | 0 <= i < |values| :: reader(values[i]).wrapped)
  {
    if values != [] {
      var n := |values| - 1;
      var last := reader(values[n]);
      EveryLineCounts(lisa, reader, values[..n]);
      var before, after := AllRuns(reader, values[..n]), AllRuns(reader, values);
      assert forall i | 0 <= i < n :: values[..n][i] == values[i];
      forall b | lisa(b)
        ensures b in after.names <==> exists i | 0 <= i < |values| :: b in reader(values[i]).names
      {
        assert b in after.names <==> b in before.names || b in last.names;
      }
    }
  }

  // ------------------------------------------------------- the gate's reader

  const WRAPPERS := {"sh", "bash", "dash", "ash", "zsh", "ksh", "env", "setsid", "nohup", "stdbuf", "timeout",
                     "runuser", "setpriv", "chrt", "ionice", "nice", "systemd-inhibit"}
  const BIN_DIRS := {"/usr/bin", "/bin", "/usr/local/bin", "/usr/sbin", "/sbin", "/usr/lib/lisa", "/usr/libexec"}
  const LAUNCHERS := {"lisa-app"}

  function StripFront(s: string, chars: string): string {
    if s != "" && s[0] in chars then StripFront(s[1..], chars) else s
  }

  function StripBack(s: string, chars: string): string {
    if s != "" && s[|s| - 1] in chars then StripBack(s[..|s| - 1], chars) else s
  }

  const QUOTES := "'\""
  const PREFIXES := "-+!:@"

  function Unquote(token: string): string {
    StripBack(StripFront(token, QUOTES), QUOTES)
  }

  // The position after the last slash of `s`; 0 when there is none.
  function AfterLastSlash(s: string): (n: nat)
    ensures n <= |s|
    ensures n > 0 ==> s[n - 1] == '/'
    ensures forall i | n <= i < |s| :: s[i] != '/'
  {
    if s == "" then 0 else if s[|s| - 1] == '/' then |s| else AfterLastSlash(s[..|s| - 1])
  }

  // The program a token names, or "" if it is not a program at all.
  function ProgramName(token: string): string {
    var t := Unquote(token);
    var n := AfterLastSlash(t);
    if t == "" || n == 0 then t
    else if t[0] != '/' then ""
    else if t[..n - 1] in BIN_DIRS then t[n..]
    else ""
  }

  // The surface a launcher's first argument names, without its path and `.js`.
  function LaunchedSurface(args: seq<string>): string {
    if args == [] then ""
    else
      var arg := Unquote(args[0]);
      if StartsWith(arg, "-") then LaunchedSurface(args[1..])
      else
        var name := arg[AfterLastSlash(arg)..];
        if EndsWith(name, ".js") then name[..|name| - 3] else name
  }

  function LisaPrograms(args: seq<string>): (r: seq<string>)
    ensures forall i | 0 <= i < |r| :: IsLisa(r[i])
  {
    if args == [] then []
    else
      var n := ProgramName(args[0]);
      (if n != "" && IsLisa(n) then [n] else []) + LisaPrograms(args[1..])
  }

  function ReadExecStart(value: string): Runs {
    ReadArgs(Words(value))
  }

  function ReadArgs(argv: seq<string>): Runs {
    if argv == [] then Runs([], false, false)
    else
      var head := ProgramName(StripFront(argv[0], PREFIXES));
      var surface := if head in LAUNCHERS then LaunchedSurface(argv[1..]) else "";
      var hits := if head in WRAPPERS then LisaPrograms(argv[1..]) else [];
      Decide(head, surface, hits)
  }

  // The program a command line starts, or "".
  function CommandProgram(command: string): string {
    var argv := Words(command);
    if argv == [] then "" else ProgramName(StripFront(argv[0], PREFIXES))
  }

  function Decide(head: string, surface: string, hits: seq<string>): Runs {
    if surface != "" && IsLisa(surface) then Runs([surface], true, false)
    else if head != "" && IsLisa(head) then Runs([head], true, false)
    else if hits != [] then Runs(hits, true, true)
    else Runs(if head != "" then [head] else [], false, false)
  }

  lemma GateReaderHonest()
    ensures Honest(IsLisa, ReadExecStart)
  {
    forall v
      ensures var r := ReadExecStart(v);
              (forall i | 0 <= i < |r.names| :: IsLisa(r.names[i]) == r.lisa) && (r.wrapped ==> r.lisa && r.names != [])
              && (r.lisa ==> r.names != []) && (!r.lisa ==> |r.names| <= 1)
    {
      var argv := Words(v);
      if argv != [] {
        var head := ProgramName(StripFront(argv[0], PREFIXES));
        var surface := if head in LAUNCHERS then LaunchedSurface(argv[1..]) else "";
        var hits := if head in WRAPPERS then LisaPrograms(argv[1..]) else [];
        DecideHonest(head, surface, hits);
      }
    }
  }

  lemma DecideHonest(head: string, surface: string, hits: seq<string>)
    requires forall i | 0 <= i < |hits| :: IsLisa(hits[i])
    ensures var r := Decide(head, surface, hits);
            (forall i | 0 <= i < |r.names| :: IsLisa(r.names[i]) == r.lisa) && (r.wrapped ==> r.lisa && r.names != [])
            && (r.lisa ==> r.names != []) && (!r.lisa ==> |r.names| <= 1)
  {}

  // ------------------------------------------------------- what the gate's reader finds

  ghost predicate AllIn(s: string, chars: string) {
    forall i | 0 <= i < |s| :: s[i] in chars
  }

  // Where a program may stand for its name to count: nowhere, or in one of the program directories.
  predicate Directory(dir: string) {
    dir == "" || (dir[|dir| - 1] == '/' && dir[..|dir| - 1] in BIN_DIRS)
  }

  // A name that quotes and slashes leave whole.
  predicate Clean(name: string) {
    name != "" && '/' !in name && name[0] !in QUOTES && name[|name| - 1] !in QUOTES
  }

  // `token` spells the program `b`: the bare name or its path in a program directory, quoted or not.
  ghost predicate Spells(token: string, b: string) {
    Clean(b) && exists before, dir, after :: SpelledAs(token, before, dir, b, after)
  }

  ghost predicate SpelledAs(token: string, before: string, dir: string, b: string, after: string) {
    token == before + (dir + b) + after && AllIn(before, QUOTES) && AllIn(after, QUOTES) && Directory(dir)
  }

  // The same for a command, which systemd's prefixes may precede.
  ghost predicate CommandSpells(word: string, b: string) {
    exists prefix, token :: PrefixedAs(word, prefix, token, b)
  }

  ghost predicate PrefixedAs(word: string, prefix: string, token: string, b: string) {
    word == prefix + token && AllIn(prefix, PREFIXES) && Spells(token, b)
  }

  // An argument that is an option: a dash first, quoted or not.
  ghost predicate OptionWord(arg: string) {
    exists before, rest :: arg == before + (['-'] + rest) && AllIn(before, QUOTES)
  }

  // An argument that names the surface `b`: a path, the name, perhaps `.js`, quoted or not.
  ghost predicate SurfaceWord(arg: string, b: string) {
    '/' !in b && exists before, path, ext, after :: SurfaceAs(arg, before, path, b, ext, after)
  }

  ghost predicate SurfaceAs(arg: string, before: string, path: string, b: string, ext: string, after: string) {
    arg == before + (path + b + ext) + after && AllIn(before, QUOTES) && AllIn(after, QUOTES)
    && (path == "" || (path[|path| - 1] == '/' && path[0] !in QUOTES && path[0] != '-'))
    && (ext == ".js" || (ext == "" && !EndsWith(b, ".js") && b != "" && b[|b| - 1] !in QUOTES))
  }

  // The first argument that is no option names `b`.
  ghost predicate Launches(args: seq<string>, b: string) {
    args != []
    && (if OptionWord(args[0]) then Launches(args[1..], b) else SurfaceWord(args[0], b))
  }

  /** What it means for the words of an ExecStart= value to name the Lisa binary `b`: as the command, as
      the surface a launcher starts, or anywhere behind a shell-like wrapper. A launcher stands for
      itself only when it starts no Lisa surface. */
  ghost predicate NamedBy(words: seq<string>, b: string) {
    words != []
    && ((CommandSpells(words[0], b) && !(b in LAUNCHERS && LaunchesLisa(words[1..])))
        || (Heads(words[0], LAUNCHERS) && Launches(words[1..], b))
        || (Heads(words[0], WRAPPERS) && exists i | 1 <= i < |words| :: Spells(words[i], b)))
  }

  ghost predicate Heads(word: string, programs: set<string>) {
    exists head | head in programs :: CommandSpells(word, head)
  }

  ghost predicate LaunchesLisa(args: seq<string>) {
    exists b | IsLisa(b) :: Launches(args, b)
  }

  lemma {:induction false} StripFrontIs(pre: string, t: string, chars: string)
    requires AllIn(pre, chars) && (t == "" || t[0] !in chars)
    ensures StripFront(pre + t, chars) == t
  {
    if pre == "" {
      assert pre + t == t;
    } else {
      assert (pre + t)[0] in chars && (pre + t)[1..] == pre[1..] + t;
      assert forall i | 0 <= i < |pre| - 1 :: pre[1..][i] == pre[i + 1];
      StripFrontIs(pre[1..], t, chars);
    }
  }

  lemma {:induction false} StripFrontOf(s: string, chars: string) returns (pre: string)
    ensures s == pre + StripFront(s, chars) && AllIn(pre, chars)
    ensures var t := StripFront(s, chars); t == "" || t[0] !in chars
  {
    if s != "" && s[0] in chars {
      var rest := StripFrontOf(s[1..], chars);
      pre := [s[0]] + rest;
      assert s == [s[0]] + s[1..];
    } else {
      pre := "";
    }
  }

  lemma {:induction false} StripBackIs(t: string, post: string, chars: string)
    requires AllIn(post, chars) && (t == "" || t[|t| - 1] !in chars)
    ensures StripBack(t + post, chars) == t
  {
    if post == "" {
      assert t + post == t;
    } else {
      var n := |t + post| - 1;
      assert (t + post)[n] == post[|post| - 1] && (t + post)[..n] == t + post[..|post| - 1];
      StripBackIs(t, post[..|post| - 1], chars);
    }
  }

  lemma {:induction false} StripBackOf(s: string, chars: string) returns (post: string)
    ensures s == StripBack(s, chars) + post && AllIn(post, chars)
    ensures var t := StripBack(s, chars); t == "" || t[|t| - 1] !in chars
  {
    if s != "" && s[|s| - 1] in chars {
      var rest := StripBackOf(s[..|s| - 1], chars);
      post := rest + [s[|s| - 1]];
      assert s == s[..|s| - 1] + [s[|s| - 1]];
    } else {
      post := "";
    }
  }

  lemma UnquoteIs(before: string, t: string, after: string)
    requires AllIn(before, QUOTES) && AllIn(after, QUOTES)
    requires t != "" && t[0] !in QUOTES && t[|t| - 1] !in QUOTES
    ensures Unquote(before + t + after) == t
  {
    assert before + t + after == before + (t + after) && (t + after)[0] == t[0];
    StripFrontIs(before, t + after, QUOTES);
    StripBackIs(t, after, QUOTES);
  }

  lemma UnquoteOf(token: string) returns (before: string, after: string)
    ensures token == before + Unquote(token) + after && AllIn(before, QUOTES) && AllIn(after, QUOTES)
    ensures var t := Unquote(token); t != "" ==> t[0] !in QUOTES && t[|t| - 1] !in QUOTES
  {
    before := StripFrontOf(token, QUOTES);
    after := StripBackOf(StripFront(token, QUOTES), QUOTES);
    var t := Unquote(token);
    assert StripFront(token, QUOTES) == t + after;
    assert token == before + t + after;
  }

  lemma AfterLastSlashIs(dir: string, name: string)
    requires '/' !in name && (dir == "" || dir[|dir| - 1] == '/')
    ensures AfterLastSlash(dir + name) == |dir|
  {
    var whole := dir + name;
    assert forall i | |dir| <= i < |whole| :: whole[i] == name[i - |dir|];
    assert dir != "" ==> whole[|dir| - 1] == '/';
  }

  /** A token names a program exactly when it spells it: `/opt/x/lisa` spells nothing. */
  lemma ProgramNameExactly(token: string, b: string)
    requires b != "" && b[0] !in QUOTES
    ensures ProgramName(token) == b <==> Spells(token, b)
  {
    if ProgramName(token) == b { ProgramRead(token, b); }
    if Spells(token, b) {
      var before, dir, after :| SpelledAs(token, before, dir, b, after);
      ProgramSpelled(token, before, dir, b, after);
    }
  }

  lemma ProgramRead(token: string, b: string)
    requires b != "" && b[0] !in QUOTES && ProgramName(token) == b
    ensures Spells(token, b)
  {
    var before, after := UnquoteOf(token);
    var t := Unquote(token);
    var n := AfterLastSlash(t);
    var dir := t[..n];
    assert t == dir + b && (n > 0 ==> dir[..n - 1] == t[..n - 1]);
    assert SpelledAs(token, before, dir, b, after);
  }

  lemma ProgramSpelled(token: string, before: string, dir: string, b: string, after: string)
    requires Clean(b) && SpelledAs(token, before, dir, b, after)
    ensures ProgramName(token) == b
  {
    var t := dir + b;
    BinDirsRooted(dir);
    EndsOf(dir, b);
    UnquoteIs(before, t, after);
    PathParts(dir, b);
    ProgramOfPath(token, dir, b);
  }

  lemma EndsOf(a: string, b: string)
    requires b != ""
    ensures (a + b)[0] == (if a != "" then a[0] else b[0]) && (a + b)[|a + b| - 1] == b[|b| - 1]
  {}

  lemma PathParts(dir: string, name: string)
    requires '/' !in name && (dir == "" || dir[|dir| - 1] == '/')
    ensures var t := dir + name; AfterLastSlash(t) == |dir| && t[..|dir|] == dir && t[|dir|..] == name
    ensures dir != "" ==> (dir + name)[..|dir| - 1] == dir[..|dir| - 1]
  {
    AfterLastSlashIs(dir, name);
  }

  lemma ProgramOfPath(token: string, dir: string, b: string)
    requires Unquote(token) == dir + b && b != "" && (dir == "" || dir[0] == '/')
    requires AfterLastSlash(dir + b) == |dir| && (dir + b)[|dir|..] == b
    requires dir != "" ==> (dir + b)[..|dir| - 1] == dir[..|dir| - 1]
    ensures ProgramName(token) == if dir == "" || dir[..|dir| - 1] in BIN_DIRS then b else ""
  {}

  lemma BinDirsRooted(dir: string)
    requires Directory(dir)
    ensures dir != "" ==> dir[0] == '/' && |dir| > 1
  {
    assert forall d | d in BIN_DIRS :: |d| > 0 && d[0] == '/';
    assert dir != "" ==> dir[..|dir| - 1] in BIN_DIRS;
  }

  lemma CommandSpellsExactly(word: string, b: string)
    requires b != "" && b[0] !in PREFIXES && b[0] !in QUOTES
    ensures ProgramName(StripFront(word, PREFIXES)) == b <==> CommandSpells(word, b)
  {
    ProgramNameExactly(StripFront(word, PREFIXES), b);
    if Spells(StripFront(word, PREFIXES), b) {
      var prefix := StripFrontOf(word, PREFIXES);
      assert PrefixedAs(word, prefix, StripFront(word, PREFIXES), b);
    }
    if CommandSpells(word, b) {
      var prefix, token :| PrefixedAs(word, prefix, token, b);
      SpellingStarts(token, b);
      StripFrontIs(prefix, token, PREFIXES);
    }
  }

  // No spelling of a name begins with a command prefix.
  lemma SpellingStarts(token: string, b: string)
    requires Spells(token, b) && b[0] !in PREFIXES
    ensures token != "" && token[0] !in PREFIXES
  {
    var before, dir, after :| SpelledAs(token, before, dir, b, after);
    BinDirsRooted(dir);
    assert token[0] == if before != "" then before[0] else if dir != "" then dir[0] else b[0];
  }

  lemma OptionExactly(arg: string)
    ensures StartsWith(Unquote(arg), "-") <==> OptionWord(arg)
  {
    var before, after := UnquoteOf(arg);
    var t := Unquote(arg);
    if StartsWith(t, "-") {
      assert t[..1] == "-";
      assert arg == before + (['-'] + (t[1..] + after));
    }
    if OptionWord(arg) {
      var front, rest :| arg == front + (['-'] + rest) && AllIn(front, QUOTES);
      StripFrontIs(front, ['-'] + rest, QUOTES);
      StripBackKeeps(['-'] + rest);
    }
  }

  lemma {:induction false} StripBackKeeps(t: string)
    requires t != "" && t[0] == '-'
    ensures StartsWith(StripBack(t, QUOTES), "-")
  {
    if t[|t| - 1] in QUOTES {
      StripBackKeeps(t[..|t| - 1]);
    }
  }

  // The name an argument that is no option gives.
  function SurfaceOf(arg: string): string {
    var t := Unquote(arg);
    var name := t[AfterLastSlash(t)..];
    if EndsWith(name, ".js") then name[..|name| - 3] else name
  }

  lemma SurfaceExactly(arg: string, b: string)
    requires b != "" && b[0] !in QUOTES && b[0] != '-' && !OptionWord(arg)
    ensures SurfaceOf(arg) == b <==> SurfaceWord(arg, b)
  {
    if SurfaceOf(arg) == b { SurfaceRead(arg, b); }
    if SurfaceWord(arg, b) { SurfaceSpelled(arg, b); }
  }

  lemma SurfaceRead(arg: string, b: string)
    requires b != "" && !OptionWord(arg) && SurfaceOf(arg) == b
    ensures SurfaceWord(arg, b)
  {
    OptionExactly(arg);
    var before, after := UnquoteOf(arg);
    var t := Unquote(arg);
    var path, ext := SurfaceParts(t, b);
    assert t[..1] == [t[0]];
    assert path != "" ==> path[0] == t[0];
    assert SurfaceAs(arg, before, path, b, ext, after);
  }

  // A file name taken apart: what stands before its last slash, and the extension.
  lemma SurfaceParts(t: string, b: string) returns (path: string, ext: string)
    requires b != "" && var name := t[AfterLastSlash(t)..];
             b == if EndsWith(name, ".js") then name[..|name| - 3] else name
    ensures t == path + b + ext && '/' !in b && (path == "" || path[|path| - 1] == '/')
    ensures ext == ".js" || (ext == "" && !EndsWith(b, ".js"))
    ensures t != "" && (ext == "" ==> t[|t| - 1] == b[|b| - 1])
  {
    var n := AfterLastSlash(t);
    path := t[..n];
    ext := NameParts(t[n..], b);
    SlashFree(t, n, b);
    PathThen(t, n, b, ext);
  }

  lemma NameParts(name: string, b: string) returns (ext: string)
    requires b == if EndsWith(name, ".js") then name[..|name| - 3] else name
    ensures name == b + ext && b <= name
    ensures ext == ".js" || (ext == "" && !EndsWith(b, ".js"))
  {
    ext := if EndsWith(name, ".js") then ".js" else "";
    ExtensionOff(name);
  }

  lemma PathThen(t: string, n: nat, b: string, ext: string)
    requires n <= |t| && t[n..] == b + ext && b != ""
    ensures t == t[..n] + b + ext && t != "" && (ext == "" ==> t[|t| - 1] == b[|b| - 1])
  {
    assert t == t[..n] + t[n..];
    Regroup(t[..n], b, ext);
  }

  lemma SlashFree(t: string, n: nat, b: string)
    requires n <= |t| && b <= t[n..] && forall i | n <= i < |t| :: t[i] != '/'
    ensures '/' !in b
  {
    assert forall i | 0 <= i < |b| :: b[i] == t[n + i];
  }

  lemma ExtensionOff(name: string)
    ensures EndsWith(name, ".js") ==> |name| >= 3 && name == name[..|name| - 3] + ".js"
    ensures name == name + ""
  {
    assert EndsWith(name, ".js") ==> name == name[..|name| - 3] + name[|name| - 3..];
  }

  lemma SurfaceSpelled(arg: string, b: string)
    requires b != "" && b[0] !in QUOTES && SurfaceWord(arg, b)
    ensures SurfaceOf(arg) == b
  {
    var before, path, ext, after :| SurfaceAs(arg, before, path, b, ext, after);
    var t, name := path + b + ext, b + ext;
    assert t == path + name;
    EndsOf(path, name);
    assert ext != "" ==> name[|name| - 1] == ext[2];
    UnquoteIs(before, t, after);
    PathParts(path, name);
    WithoutExtension(b, ext);
  }

  lemma WithoutExtension(b: string, ext: string)
    requires ext == ".js" || (ext == "" && !EndsWith(b, ".js"))
    ensures var name := b + ext; (if EndsWith(name, ".js") then name[..|name| - 3] else name) == b
  {
    assert ext == "" ==> b + ext == b;
    assert ext == ".js" ==> (b + ext)[|b|..] == ".js" && (b + ext)[..|b|] == b;
  }

  lemma {:induction false} LaunchesExactly(args: seq<string>, b: string)
    requires b != "" && b[0] !in QUOTES && b[0] != '-'
    ensures LaunchedSurface(args) == b <==> Launches(args, b)
  {
    if args != [] {
      OptionExactly(args[0]);
      if OptionWord(args[0]) {
        LaunchesExactly(args[1..], b);
      } else {
        SurfaceExactly(args[0], b);
      }
    }
  }

  lemma {:induction false} AmongExactly(args: seq<string>, b: string)
    requires IsLisa(b)
    ensures b in LisaPrograms(args) <==> exists i | 0 <= i < |args| :: Spells(args[i], b)
  {
    LisaStarts(b);
    if args != [] {
      ProgramNameExactly(args[0], b);
      AmongExactly(args[1..], b);
      assert forall i | 0 <= i < |args| - 1 :: args[1..][i] == args[i + 1];
      if i :| 0 <= i < |args| - 1 && Spells(args[1..][i], b) {
        assert Spells(args[i + 1], b);
      }
      if i :| 0 <= i < |args| && Spells(args[i], b) {
        assert i > 0 ==> Spells(args[1..][i - 1], b);
      }
    }
  }

  // A Lisa name begins with a letter.
  lemma LisaStarts(b: string)
    requires IsLisa(b)
    ensures b != "" && (b[0] == 'l' || b[0] == 'x')
    ensures b[0] !in PREFIXES && b[0] !in QUOTES && b[0] != '-'
  {
    assert StartsWith(b, "lisa-") ==> b[..5][0] == 'l';
  }

  // No wrapper is a Lisa binary, the launcher is one, and none begins with a prefix or is empty.
  lemma WrapperNames(head: string)
    ensures head in WRAPPERS ==> head != "" && !IsLisa(head) && head[0] !in PREFIXES && head[0] !in QUOTES
  {
    if head in WRAPPERS {
      assert head != "" && head[0] != 'l' && head[0] != 'x' && head[0] !in PREFIXES && head[0] !in QUOTES;
      if IsLisa(head) { LisaStarts(head); }
    }
  }

  lemma HeadsExactly(word: string, programs: set<string>)
    requires forall p | p in programs :: p != "" && p[0] !in PREFIXES && p[0] !in QUOTES
    ensures ProgramName(StripFront(word, PREFIXES)) in programs <==> Heads(word, programs)
  {
    forall p | p in programs ensures ProgramName(StripFront(word, PREFIXES)) == p <==> CommandSpells(word, p) {
      CommandSpellsExactly(word, p);
    }
  }

  lemma LauncherNames(head: string)
    ensures head in LAUNCHERS ==> IsLisa(head) && head !in WRAPPERS
  {
    if head in LAUNCHERS {
      assert head[..5] == "lisa-";
      WrapperNames(head);
    }
  }

  // What `Decide` reports, name by name.
  lemma DecideNames(head: string, surface: string, hits: seq<string>, b: string)
    requires IsLisa(b)
    ensures b in Decide(head, surface, hits).names <==>
              if surface != "" && IsLisa(surface) then b == surface
              else if head != "" && IsLisa(head) then b == head
              else b in hits
  {
    LisaStarts(b);
  }

  /** What the gate's reader finds, exactly: a Lisa binary is among what it reports of a value if and
      only if the words of the value name it. */
  lemma ReaderFindsExactly(value: string, b: string)
    requires IsLisa(b)
    ensures b in ReadExecStart(value).names <==> NamedBy(Words(value), b)
  {
    var argv := Words(value);
    if argv != [] {
      FindsAmong(argv, b);
    }
  }

  lemma FindsAmong(argv: seq<string>, b: string)
    requires IsLisa(b) && argv != []
    ensures b in ReadArgs(argv).names <==> NamedBy(argv, b)
  {
    var head := ProgramName(StripFront(argv[0], PREFIXES));
    var args := argv[1..];
    LisaStarts(b);
    CommandSpellsExactly(argv[0], b);
    HeadsOfTables(argv[0]);
    LauncherNames(head);
    WrapperNames(head);
    LaunchesExactly(args, b);
    LaunchedExactly(args);
    AmongExactly(args, b);
    BehindWrapper(argv, b);
    var surface := if head in LAUNCHERS then LaunchedSurface(args) else "";
    var hits := if head in WRAPPERS then LisaPrograms(args) else [];
    DecideNames(head, surface, hits, b);
  }

  lemma HeadsOfTables(word: string)
    ensures ProgramName(StripFront(word, PREFIXES)) in LAUNCHERS <==> Heads(word, LAUNCHERS)
    ensures ProgramName(StripFront(word, PREFIXES)) in WRAPPERS <==> Heads(word, WRAPPERS)
  {
    forall p | p in WRAPPERS ensures p != "" && p[0] !in PREFIXES && p[0] !in QUOTES { WrapperNames(p); }
    HeadsExactly(word, LAUNCHERS);
    HeadsExactly(word, WRAPPERS);
  }

  lemma LaunchedExactly(args: seq<string>)
    ensures LaunchesLisa(args) <==> IsLisa(LaunchedSurface(args))
  {
    var s := LaunchedSurface(args);
    if IsLisa(s) {
      LisaStarts(s);
      LaunchesExactly(args, s);
    }
    if b :| IsLisa(b) && Launches(args, b) {
      LisaStarts(b);
      LaunchesExactly(args, b);
    }
  }

  lemma BehindWrapper(argv: seq<string>, b: string)
    requires argv != []
    ensures (exists i | 1 <= i < |argv| :: Spells(argv[i], b))
            <==> exists i | 0 <= i < |argv[1..]| :: Spells(argv[1..][i], b)
  {
    if i :| 1 <= i < |argv| && Spells(argv[i], b) {
      assert Spells(argv[1..][i - 1], b);
    }
    if i :| 0 <= i < |argv[1..]| && Spells(argv[1..][i], b) {
      assert Spells(argv[i + 1], b);
    }
  }

  // The words put a Lisa binary behind a shell-like wrapper.
  ghost predicate WrapsLisa(words: seq<string>) {
    words != [] && Heads(words[0], WRAPPERS) && exists b, i | IsLisa(b) && 1 <= i < |words| :: Spells(words[i], b)
  }

  lemma ReaderWrapsExactly(value: string)
    ensures ReadExecStart(value).wrapped <==> WrapsLisa(Words(value))
  {
    var argv := Words(value);
    if argv != [] {
      WrapsAmong(argv);
    }
  }

  lemma WrapsAmong(argv: seq<string>)
    requires argv != []
    ensures ReadArgs(argv).wrapped <==> WrapsLisa(argv)
  {
    var head := ProgramName(StripFront(argv[0], PREFIXES));
    HeadsOfTables(argv[0]);
    LauncherNames(head);
    WrapperNames(head);
    var hits := LisaPrograms(argv[1..]);
    if hits != [] {
      AmongExactly(argv[1..], hits[0]);
      BehindWrapper(argv, hits[0]);
    }
    if b, i :| IsLisa(b) && 1 <= i < |argv| && Spells(argv[i], b) {
      AmongExactly(argv[1..], b);
      BehindWrapper(argv, b);
    }
  }

  // Some ExecStart= value names `b`; some value wraps a Lisa binary.
  ghost predicate SomeNames(values: seq<string>, b: string) {
    exists i | 0 <= i < |values| :: NamedBy(Words(values[i]), b)
  }

  ghost predicate SomeWraps(values: seq<string>) {
    exists i | 0 <= i < |values| :: WrapsLisa(Words(values[i]))
  }

  /** Over the whole unit: the gate's programs hold a Lisa binary if and only if the words of some
      ExecStart= value name it, and are marked wrapped if and only if some value wraps one. */
  lemma UnitNamesExactly(values: seq<string>, b: string)
    requires IsLisa(b)
    ensures b in AllRuns(ReadExecStart, values).names <==> SomeNames(values, b)
    ensures AllRuns(ReadExecStart, values).wrapped <==> SomeWraps(values)
  {
    GateReaderHonest();
    EveryLineCounts(IsLisa, ReadExecStart, values);
    forall i | 0 <= i < |values|
      ensures b in ReadExecStart(values[i]).names <==> NamedBy(Words(values[i]), b)
      ensures ReadExecStart(values[i]).wrapped <==> WrapsLisa(Words(values[i]))
    {
      ReaderFindsExactly(values[i], b);
      ReaderWrapsExactly(values[i]);
    }
  }

  /** What is found: with any prefixes, a Lisa binary of a program directory, and the surface behind a
      launcher and its options. */
  lemma FoundPlainly(prefix: string, dir: string, b: string, args: seq<string>)
    requires IsLisa(b) && Clean(b) && b !in LAUNCHERS && AllIn(prefix, PREFIXES) && dir in BIN_DIRS
    ensures NamedBy([prefix + (dir + "/" + b)] + args, b)
  {
    var token := dir + "/" + b;
    assert (dir + "/")[..|dir|] == dir;
    assert token == "" + (dir + "/" + b) + "";
    assert SpelledAs(token, "", dir + "/", b, "");
    assert PrefixedAs(prefix + token, prefix, token, b);
  }

  lemma {:induction false} FoundLaunched(word: string, options: seq<string>, path: string, b: string, more: seq<string>)
    requires IsLisa(b) && '/' !in b && Heads(word, LAUNCHERS) && forall o | o in options :: OptionWord(o)
    requires path == "" || (path[|path| - 1] == '/' && path[0] !in QUOTES && path[0] != '-')
    ensures NamedBy([word] + (options + [path + b + ".js"] + more), b)
  {
    LaunchesAfter(options, path, b, more);
    assert ([word] + (options + [path + b + ".js"] + more))[1..] == options + [path + b + ".js"] + more;
  }

  lemma {:induction false} LaunchesAfter(options: seq<string>, path: string, b: string, more: seq<string>)
    requires IsLisa(b) && '/' !in b && forall o | o in options :: OptionWord(o)
    requires path == "" || (path[|path| - 1] == '/' && path[0] !in QUOTES && path[0] != '-')
    ensures Launches(options + [path + b + ".js"] + more, b)
  {
    var file := path + b + ".js";
    var args := options + [file] + more;
    if options == [] {
      LisaStarts(b);
      assert args[0] == file;
      assert file == "" + (path + b + ".js") + "";
      assert SurfaceAs(file, "", path, b, ".js", "");
      NoOption(file, if path != "" then path[0] else b[0]);
    } else {
      assert args[0] == options[0] && args[1..] == options[1..] + [file] + more;
      LaunchesAfter(options[1..], path, b, more);
    }
  }

  lemma NoOption(arg: string, c: char)
    requires arg != "" && arg[0] == c && c !in QUOTES && c != '-'
    ensures !OptionWord(arg)
  {}

  /** And what is not: a command in any other directory names nothing, whatever it is called. */
  lemma MissedElsewhere(value: string, dir: string, b: string)
    requires Words(value) != [] && Words(value)[0] == dir + "/" + b
    requires dir != "" && dir[0] == '/' && dir !in BIN_DIRS && Clean(b)
    ensures ReadExecStart(value).names == []
  {
    NoProgram(dir, b);
    NothingHeads(Words(value));
  }

  lemma NoProgram(dir: string, b: string)
    requires dir != "" && dir[0] == '/' && dir !in BIN_DIRS && Clean(b)
    ensures ProgramName(StripFront(dir + "/" + b, PREFIXES)) == ""
  {
    var word, path := dir + "/" + b, dir + "/";
    EndsOf(path, b);
    BareWord(word);
    PathParts(path, b);
    assert path[..|path| - 1] == dir;
    ProgramOfPath(word, path, b);
  }

  lemma BareWord(word: string)
    requires word != "" && word[0] == '/' && word[|word| - 1] !in QUOTES
    ensures StripFront(word, PREFIXES) == word && Unquote(word) == word
  {
    StripFrontIs("", word, PREFIXES);
    assert "" + word == word && word == "" + word + "";
    UnquoteIs("", word, "");
  }

  lemma NothingHeads(argv: seq<string>)
    requires argv != [] && ProgramName(StripFront(argv[0], PREFIXES)) == ""
    ensures ReadArgs(argv).names == []
  {
    WrapperNames("");
    LauncherNames("");
  }

  lemma OptDaemonIsMissed(value: string)
    requires Words(value) != [] && Words(value)[0] == OPT_DAEMON
    ensures ReadExecStart(value).names == []
  {
    OptNames();
    MissedElsewhere(value, "/opt/lisa", "lisa-agentd");
  }

  const OPT_DAEMON := "/opt/lisa/lisa-agentd"

  lemma OptNames()
    ensures "/opt/lisa" + "/" + "lisa-agentd" == OPT_DAEMON
    ensures "/opt/lisa"[0] == '/' && "/opt/lisa" !in BIN_DIRS && Clean("lisa-agentd")
  {
    assert "/opt/lisa"[1] == 'o';
    assert forall d | d in BIN_DIRS :: |d| > 1 && d[1] != 'o';
  }

  // ------------------------------------------------------- address families

  function Untilded(f: string): string {
    StripFront(f, "~")
  }

  predicate Tilded(f: string) {
    StartsWith(f, "~")
  }

  // Whether the list in force leaves an address family open: no list leaves all open, a list with
  // a `~` denies what it names, and any other list allows only what it names.
  ghost predicate Open(seen: bool, families: seq<string>, family: string) {
    if !seen then true
    else if exists i | 0 <= i < |families| :: Tilded(families[i]) then
      forall i | 0 <= i < |families| :: Listed(families[i], true) != family
    else exists i | 0 <= i < |families| :: Listed(families[i], false) == family
  }

  // `inet_allowed`: can the unit open an IP socket at all?
  method InetAllowed(text: string) returns (allowed: bool)
    ensures var families := InForce(Says(text), "RestrictAddressFamilies");
            allowed <==> Open(families != [], families, "AF_INET") || Open(families != [], families, "AF_INET6")
  {
    var seen, families := EffectiveValues(text, "RestrictAddressFamilies");
    if !seen {
      return true;
    }
    allowed := EitherOpen(families, "AF_INET", "AF_INET6");
  }

  method EitherOpen(families: seq<string>, a: string, b: string) returns (allowed: bool)
    requires families != []
    ensures allowed <==> Open(true, families, a) || Open(true, families, b)
  {
    var tilded := false;
    for i := 0 to |families|
      invariant tilded <==> exists k | 0 <= k < i :: Tilded(families[k])
    {
      tilded := tilded || Tilded(families[i]);
    }
    var hasA, hasB := false, false;
    for i := 0 to |families|
      invariant hasA <==> exists k | 0 <= k < i :: Listed(families[k], tilded) == a
      invariant hasB <==> exists k | 0 <= k < i :: Listed(families[k], tilded) == b
    {
      hasA, hasB := hasA || Listed(families[i], tilded) == a, hasB || Listed(families[i], tilded) == b;
    }
    return if tilded then !(hasA && hasB) else hasA || hasB;
  }

  // The family a word of the list names.
  function Listed(f: string, tilded: bool): string {
    if tilded then Untilded(f) else f
  }

  // Either family can be opened.
  ghost predicate InetOpen(families: seq<string>) {
    Open(families != [], families, "AF_INET") || Open(families != [], families, "AF_INET6")
  }

  function Denials(names: seq<string>): (r: seq<string>)
    ensures |r| == |names| && forall i | 0 <= i < |names| :: r[i] == "~" + names[i]
  {
    if names == [] then [] else Denials(names[..|names| - 1]) + ["~" + names[|names| - 1]]
  }

  predicate Untouched(name: string) {
    name == "" || name[0] != '~'
  }

  lemma DenialRead(name: string)
    requires Untouched(name)
    ensures Tilded("~" + name) && Untilded("~" + name) == name && !Tilded(name)
  {
    assert ("~" + name)[1..] == name && StripFront(name, "~") == name;
    assert ("~" + name)[..1] == "~";
  }

  /** Lists as units write them: without one an IP socket can be opened; a list of families opens it exactly
      by naming one of the two, and a list of denials closes it exactly by naming both. */
  lemma InetByLists(names: seq<string>)
    requires forall i | 0 <= i < |names| :: Untouched(names[i])
    ensures InetOpen([])
    ensures names != [] ==> (InetOpen(names) <==> "AF_INET" in names || "AF_INET6" in names)
    ensures names != [] ==> (InetOpen(Denials(names)) <==> !("AF_INET" in names && "AF_INET6" in names))
  {
    forall i | 0 <= i < |names| { DenialRead(names[i]); }
    if names != [] {
      AllowedOpen(names, "AF_INET");
      AllowedOpen(names, "AF_INET6");
      DeniedOpen(Denials(names), names, "AF_INET");
      DeniedOpen(Denials(names), names, "AF_INET6");
    }
  }

  lemma AllowedOpen(names: seq<string>, family: string)
    requires names != [] && forall i | 0 <= i < |names| :: !Tilded(names[i])
    ensures Open(true, names, family) <==> family in names
  {
    if family in names {
      var i :| 0 <= i < |names| && names[i] == family;
      assert Listed(names[i], false) == family;
    }
  }

  lemma DeniedOpen(d: seq<string>, names: seq<string>, family: string)
    requires |d| == |names| > 0 && forall i | 0 <= i < |names| :: Tilded(d[i]) && Listed(d[i], true) == names[i]
    ensures Open(true, d, family) <==> family !in names
  {
    assert Tilded(d[0]);
    if family in names {
      var i :| 0 <= i < |names| && names[i] == family;
      assert Listed(d[i], true) == family;
    } else {
      forall i | 0 <= i < |d| ensures Listed(d[i], true) != family { assert names[i] in names; }
    }
  }
}
