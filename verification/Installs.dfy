/** What one visited installer command puts into a systemd directory
    (os/repo-tools/check-egress-units.py, `_split_opts`, `_classify_dest` and the `visit` closure),
    and the account of it: every source of a copy ends as a landing or as an error, per file.

    `CopyAccount` gives the one exception, exactly. */
module Installs {
  import opened Common
  import opened Text

  datatype Role = Install | Copy | Link | MakeDirectory | Unknown

  datatype Kind = UnitFile | DropInFile | OtherUnit | Wants

  // What a path under systemd/<scope>/ is, and the path without its outer slashes; `Nowhere` is the
  // empty path.
  datatype Shape = Nowhere | Known(kind: Kind, unit: string, at: string) | Unmodelled(at: string)

  datatype Destination = Destination(scope: string, rel: string)

  /** The file system and the word-level readers a command is judged with. The laws below hold for
      every choice of them; `Gate` in module Destinations is the choice of the gate. */
  datatype World = World(
    resolve: string -> seq<string>,           // the repository files a source word names
    name: string -> string,                   // the last component of a path
    role: string -> Role,
    systemd: string -> bool,                  // the word mentions a systemd directory
    dbus: string -> bool,                     // the word mentions the D-Bus activation directory
    option: string -> bool,                   // the word is an option
    swallows: string -> bool,                 // the option takes the next word
    unexpanded: string -> bool,               // the word still holds a shell expansion
    lands: string -> Option<Destination>,     // the systemd directory a destination is in
    folder: string -> bool,                   // the destination ends in a slash
    shape: string -> Shape,
    inside: (string, string) -> string)       // a file name appended to a directory path

  datatype Landing = Landing(src: Option<string>, scope: string, rel: string, kind: Kind, unit: string, origin: string)

  datatype Error =
    | Unexpanded(origin: string, word: string)
    | NoSuchFile(origin: string, word: string)
    | UnmodelledPath(origin: string, rel: string)
    | UnmodelledCommand(origin: string, head: string)
    | TooFewOperands(origin: string)

  datatype Row = Row(origin: string, what: string, src: string, dest: string)

  // What one command adds to the four lists of discovery; a missing argument of `-t` stops the
  // whole gate with an exception.
  datatype Effect =
    | Crash
    | Added(landings: seq<Landing>, table: seq<Row>, errors: seq<Error>, activations: seq<(string, string)>)

  const NOTHING := Added([], [], [], [])

  // ------------------------------------------------------- options and operands

  datatype Split = Split(opts: seq<string>, args: seq<string>)

  function SplitOpts(w: World, words: seq<string>, take: bool): Split {
    if words == [] then Split([], [])
    else
      var rest := SplitOpts(w, words[1..], !take && words[0] != "--" && w.option(words[0]) && w.swallows(words[0]));
      if take || (words[0] != "--" && w.option(words[0])) then Split([words[0]] + rest.opts, rest.args)
      else if words[0] == "--" then rest
      else Split(rest.opts, [words[0]] + rest.args)
  }

  function After(opts: seq<string>, args: seq<string>, rest: Split): Split {
    Split(opts + rest.opts, args + rest.args)
  }

  // One word more, with `opts` and `args` collected so far.
  lemma SplitMore(w: World, argv: seq<string>, i: nat, take: bool, opts: seq<string>, args: seq<string>)
    requires i < |argv|
    ensures var option := take || (argv[i] != "--" && w.option(argv[i]));
            var next := !take && argv[i] != "--" && w.option(argv[i]) && w.swallows(argv[i]);
            After(opts, args, SplitOpts(w, argv[i..], take))
            == After(if option then opts + [argv[i]] else opts, if option || argv[i] == "--" then args
                  else args + [argv[i]],
                     SplitOpts(w, argv[i + 1..], next))
  {
    assert argv[i..][0] == argv[i] && argv[i..][1..] == argv[i + 1..];
    var next := !take && argv[i] != "--" && w.option(argv[i]) && w.swallows(argv[i]);
    var rest := SplitOpts(w, argv[i + 1..], next);
    Regroup(opts, [argv[i]], rest.opts);
    Regroup(args, [argv[i]], rest.args);
  }

  method SplitOptions(w: World, argv: seq<string>) returns (opts: seq<string>, args: seq<string>)
    requires argv != []
    ensures Split(opts, args) == SplitOpts(w, argv[1..], false)
  {
    opts, args := [], [];
    var take := false;
    for i := 1 to |argv|
      invariant SplitOpts(w, argv[1..], false) == After(opts, args, SplitOpts(w, argv[i..], take))
    {
      var tok := argv[i];
      SplitMore(w, argv, i, take, opts, args);
      if take {
        opts, take := opts + [tok], false;
        continue;
      }
      if tok == "--" {
        continue;
      }
      if w.option(tok) {
        opts, take := opts + [tok], w.swallows(tok);
        continue;
      }
      args := args + [tok];
    }
    assert argv[|argv|..] == [];
  }

  /** Splitting keeps every word but `--`, as often as it was written. */
  lemma {:induction false} SplitKeepsWords(w: World, words: seq<string>, take: bool, x: string)
    requires x != "--"
    ensures var s := SplitOpts(w, words, take); multiset(s.opts)[x] + multiset(s.args)[x] == multiset(words)[x]
  {
    if words != [] {
      var inner := !take && words[0] != "--" && w.option(words[0]) && w.swallows(words[0]);
      var rest := SplitOpts(w, words[1..], inner);
      SplitKeepsWords(w, words[1..], inner, x);
      assert words == [words[0]] + words[1..];
      assert multiset([words[0]] + rest.opts) == multiset{words[0]} + multiset(rest.opts);
      assert multiset([words[0]] + rest.args) == multiset{words[0]} + multiset(rest.args);
    }
  }

  // ------------------------------------------------------- the specification of one visit

  predicate Copies(r: Role) {
    r.Install? || r.Copy?
  }

  predicate Targeted(s: Split) {
    "-t" in s.opts || "--target-directory" in s.opts
  }

  // The word after the target option, or None when there is none.
  function TargetDirectory(s: Split): Option<string>
    requires Targeted(s)
  {
    var at := IndexOf(s.opts, if "-t" in s.opts then "-t" else "--target-directory");
    if at + 1 < |s.opts| then Some(s.opts[at + 1]) else None
  }

  // One repository file landing at `rel`.
  function FileEffect(w: World, src: string, d: Destination, rel: string, origin: string): Effect {
    match w.shape(rel)
    case Nowhere => NOTHING
    case Known(kind, unit, at) =>
      Added([Landing(Some(src), d.scope, at, kind, unit, origin)], [Row(origin, "landed", src, at)], [], [])
    case Unmodelled(at) => Added([], [], [UnmodelledPath(origin, at)], [])
  }

  function Both(a: Effect, b: Effect): Effect {
    if a.Crash? || b.Crash? then Crash
    else Added(a.landings + b.landings, a.table + b.table, a.errors + b.errors, a.activations + b.activations)
  }

  function Place(w: World, d: Destination, folder: bool, src: string): string {
    if folder then w.inside(d.rel, w.name(src)) else d.rel
  }

  function FilesEffect(w: World, hits: seq<string>, d: Destination, folder: bool, origin: string): Effect {
    if hits == [] then NOTHING
    else Both(FileEffect(w, hits[0], d, Place(w, d, folder, hits[0]), origin),
          FilesEffect(w, hits[1..], d, folder, origin))
  }

  function WordEffect(w: World, word: string, d: Destination, folder: bool, origin: string): Effect {
    if w.unexpanded(word) then Added([], [Row(origin, "UNRESOLVED", word, d.rel)], [Unexpanded(origin, word)], [])
    else if w.resolve(word) == [] then Added([], [Row(origin, "UNRESOLVED", word, d.rel)],
          [NoSuchFile(origin, word)], [])
    else FilesEffect(w, w.resolve(word), d, folder, origin)
  }

  function WordsEffect(w: World, words: seq<string>, d: Destination, folder: bool, origin: string): Effect {
    if words == [] then NOTHING
    else Both(WordEffect(w, words[0], d, folder, origin), WordsEffect(w, words[1..], d, folder, origin))
  }

  // Where a copy puts what: destination, sources, and whether the destination is a directory.
  datatype Copying = NoTarget | NoOperands | Copying(dest: string, sources: seq<string>, folder: bool)

  function CopyOf(w: World, s: Split): Copying {
    if Targeted(s) then
      (match TargetDirectory(s) case None => NoTarget case Some(dest) => Copying(dest, s.args, true))
    else if |s.args| < 2 then NoOperands
    else
      var dest, sources := s.args[|s.args| - 1], s.args[..|s.args| - 1];
      Copying(dest, sources, |sources| > 1 || w.folder(dest))
  }

  function CopyEffect(w: World, s: Split, origin: string): Effect {
    match CopyOf(w, s)
    case NoTarget => Crash
    case NoOperands => Added([], [], [TooFewOperands(origin)], [])
    case Copying(dest, sources, folder) =>
      match w.lands(dest)
      case None => Added([], [Row(origin, "not-a-systemd-dest", Join(" ", sources), dest)], [], [])
      case Some(d) => WordsEffect(w, sources, d, folder || d.rel == "", origin)
  }

  function LinkEffect(w: World, s: Split, origin: string): Effect {
    var target := if s.args != [] then s.args[0] else "";
    var dest := if |s.args| > 1 then s.args[|s.args| - 1] else "";
    var row := Row(origin, "symlink", target, dest);
    match w.lands(dest)
    case None => Added([], [row], [], [])
    case Some(d) =>
      match w.shape(d.rel)
      case Nowhere => Added([], [row], [], [])
      case Known(_, _, at) => Added([Landing(None, d.scope, at, Wants, w.name(target), origin)], [row], [], [])
      case Unmodelled(at) => Added([], [row], [UnmodelledPath(origin, at)], [])
  }

  // The sources of a copy into the activation directory.
  function ActivationSources(s: Split): seq<string> {
    if Targeted(s) then s.args else if |s.args| >= 2 then s.args[..|s.args| - 1] else []
  }

  function ActivationEffect(w: World, words: seq<string>, origin: string): Effect {
    if words == [] then NOTHING
    else
      Both(RecordEffect(w, words[0], origin), ActivationEffect(w, words[1..], origin))
  }

  function RecordEffect(w: World, word: string, origin: string): (e: Effect)
    ensures !e.Crash?
  {
    if w.unexpanded(word) then Added([], [], [Unexpanded(origin, word)], [])
    else if w.resolve(word) == [] then Added([], [], [NoSuchFile(origin, word)], [])
    else Added([], [], [], Activations(w.resolve(word), origin))
  }

  function Activations(hits: seq<string>, origin: string): (r: seq<(string, string)>)
    ensures |r| == |hits| && forall i | 0 <= i < |hits| :: r[i] == (hits[i], origin)
  {
    if hits == [] then [] else [(hits[0], origin)] + Activations(hits[1..], origin)
  }

  predicate IntoSystemd(w: World, argv: seq<string>) {
    exists i | 0 <= i < |argv| :: w.systemd(argv[i])
  }

  predicate IntoDbus(w: World, argv: seq<string>) {
    exists i | 0 <= i < |argv| :: w.dbus(argv[i])
  }

  predicate MakesDirectory(r: Role, s: Split) {
    r.MakeDirectory? || (r.Install? && "-d" in s.opts)
  }

  function VisitEffect(w: World, argv: seq<string>, origin: string): Effect
    requires argv != []
  {
    var role := w.role(w.name(argv[0]));
    var s := SplitOpts(w, argv[1..], false);
    if !IntoSystemd(w, argv) then
      if IntoDbus(w, argv) && Copies(role) then ActivationEffect(w, ActivationSources(s), origin) else NOTHING
    else if MakesDirectory(role, s) then Added([], [Row(origin, "mkdir", Join(" ", s.args), "-")], [], [])
    else if role.Link? then LinkEffect(w, s, origin)
    else if !Copies(role) then Added([], [], [UnmodelledCommand(origin, w.name(argv[0]))], [])
    else CopyEffect(w, s, origin)
  }

  // ------------------------------------------------------- discovery's four lists

  class Discovery {
    const w: World
    var landings: seq<Landing>
    var table: seq<Row>
    var errors: seq<Error>
    var activations: seq<(string, string)>

    constructor (w: World)
      ensures this.w == w && Found() == NOTHING
    {
      this.w := w;
      landings, table, errors, activations := [], [], [], [];
    }

    function Found(): Effect
      reads this
    {
      Added(landings, table, errors, activations)
    }

    // `visit`: false when the command stopped the gate with an exception.
    method Visit(argv: seq<string>, origin: string) returns (ok: bool)
      requires argv != []
      modifies this
      ensures ok <==> !VisitEffect(w, argv, origin).Crash?
      ensures ok ==> Found() == Both(old(Found()), VisitEffect(w, argv, origin))
    {
      var systemd, dbus := false, false;
      for i := 0 to |argv|
        invariant systemd <==> exists k | 0 <= k < i :: w.systemd(argv[k])
        invariant dbus <==> exists k | 0 <= k < i :: w.dbus(argv[k])
      {
        systemd := systemd || w.systemd(argv[i]);
        dbus := dbus || w.dbus(argv[i]);
      }
      var role := w.role(w.name(argv[0]));
      var opts, args := SplitOptions(w, argv);
      var s := Split(opts, args);
      if !systemd {
        if dbus && Copies(role) {
          Activate(ActivationSources(s), origin);
        }
        return true;
      }
      if role.MakeDirectory? || (role.Install? && ("-d" in opts || ("-D" in opts && |args| <= 1))) {
        if role.MakeDirectory? || "-d" in opts {
          table := table + [Row(origin, "mkdir", Join(" ", args), "-")];
          return true;
        }
      }
      if role.Link? {
        Linked(s, origin);
        return true;
      }
      if !Copies(role) {
        errors := errors + [UnmodelledCommand(origin, w.name(argv[0]))];
        return true;
      }
      ok := Copied(s, origin);
    }

    method Activate(words: seq<string>, origin: string)
      modifies this
      ensures Found() == Both(old(Found()), ActivationEffect(w, words, origin))
    {
      NeverCrashes(w, words, origin);
      for i := 0 to |words|
        invariant Both(Found(), ActivationEffect(w, words[i..], origin))
                  == Both(old(Found()), ActivationEffect(w, words, origin))
      {
        assert words[i..][0] == words[i] && words[i..][1..] == words[i + 1..];
        NeverCrashes(w, words[i..], origin);
        ghost var before := Found();
        Record(words[i], origin);
        BothAssoc(before, RecordEffect(w, words[i], origin), ActivationEffect(w, words[i + 1..], origin));
      }
    }

    // One source word of a copy into the activation directory.
    method Record(word: string, origin: string)
      modifies this
      ensures Found() == Both(old(Found()), RecordEffect(w, word, origin))
    {
      if w.unexpanded(word) {
        errors := errors + [Unexpanded(origin, word)];
      } else if w.resolve(word) == [] {
        errors := errors + [NoSuchFile(origin, word)];
      } else {
        activations := activations + Activations(w.resolve(word), origin);
      }
    }

    method Linked(s: Split, origin: string)
      modifies this
      ensures Found() == Both(old(Found()), LinkEffect(w, s, origin))
    {
      var target := if s.args != [] then s.args[0] else "";
      var dest := if |s.args| > 1 then s.args[|s.args| - 1] else "";
      table := table + [Row(origin, "symlink", target, dest)];
      var d := w.lands(dest);
      if d.Some? {
        match w.shape(d.value.rel) {
          case Nowhere =>
          case Known(_, _, at) =>
            landings := landings + [Landing(None, d.value.scope, at, Wants, w.name(target), origin)];
          case Unmodelled(at) =>
            errors := errors + [UnmodelledPath(origin, at)];
        }
      }
    }

    method Copied(s: Split, origin: string) returns (ok: bool)
      modifies this
      ensures ok <==> !CopyEffect(w, s, origin).Crash?
      ensures ok ==> Found() == Both(old(Found()), CopyEffect(w, s, origin))
    {
      var copying := CopyOf(w, s);
      if copying.NoTarget? {
        return false;
      }
      if copying.NoOperands? {
        errors := errors + [TooFewOperands(origin)];
        return true;
      }
      var landing := w.lands(copying.dest);
      if landing.None? {
        table := table + [Row(origin, "not-a-systemd-dest", Join(" ", copying.sources), copying.dest)];
        return true;
      }
      var d, words := landing.value, copying.sources;
      var folder := copying.folder || d.rel == "";
      WordsNeverCrash(w, words, d, folder, origin);
      for i := 0 to |words|
        invariant Both(Found(), WordsEffect(w, words[i..], d, folder, origin))
               == Both(old(Found()), WordsEffect(w, words, d, folder, origin))
      {
        assert words[i..][0] == words[i] && words[i..][1..] == words[i + 1..];
        WordsNeverCrash(w, words[i..], d, folder, origin);
        ghost var before := Found();
        Word(words[i], d, folder, origin);
        BothAssoc(before, WordEffect(w, words[i], d, folder, origin),
              WordsEffect(w, words[i + 1..], d, folder, origin));
      }
      return true;
    }

    // One file of a source word.
    method File(src: string, d: Destination, rel: string, origin: string)
      modifies this
      ensures Found() == Both(old(Found()), FileEffect(w, src, d, rel, origin))
    {
      match w.shape(rel) {
        case Nowhere =>
        case Known(kind, unit, at) =>
          landings := landings + [Landing(Some(src), d.scope, at, kind, unit, origin)];
          table := table + [Row(origin, "landed", src, at)];
        case Unmodelled(at) =>
          errors := errors + [UnmodelledPath(origin, at)];
      }
    }

    method Word(word: string, d: Destination, folder: bool, origin: string)
      modifies this
      ensures !WordEffect(w, word, d, folder, origin).Crash?
      ensures Found() == Both(old(Found()), WordEffect(w, word, d, folder, origin))
    {
      if w.unexpanded(word) {
        errors := errors + [Unexpanded(origin, word)];
        table := table + [Row(origin, "UNRESOLVED", word, d.rel)];
        return;
      }
      var hits := w.resolve(word);
      if hits == [] {
        errors := errors + [NoSuchFile(origin, word)];
        table := table + [Row(origin, "UNRESOLVED", word, d.rel)];
        return;
      }
      FilesNeverCrash(w, hits, d, folder, origin);
      for i := 0 to |hits|
        invariant Both(Found(), FilesEffect(w, hits[i..], d, folder, origin))
               == Both(old(Found()), FilesEffect(w, hits, d, folder, origin))
      {
        assert hits[i..][0] == hits[i] && hits[i..][1..] == hits[i + 1..];
        ghost var before := Found();
        var src := hits[i];
        var rel := Place(w, d, folder, src);
        File(src, d, rel, origin);
        BothAssoc(before, FileEffect(w, src, d, rel, origin), FilesEffect(w, hits[i + 1..], d, folder, origin));
      }
    }
  }

  lemma BothAssoc(a: Effect, b: Effect, c: Effect)
    ensures Both(Both(a, b), c) == Both(a, Both(b, c))
  {
    if !a.Crash? && !b.Crash? && !c.Crash? {
      assert a.landings + b.landings + c.landings == a.landings + (b.landings + c.landings);
      assert a.table + b.table + c.table == a.table + (b.table + c.table);
      assert a.errors + b.errors + c.errors == a.errors + (b.errors + c.errors);
      assert a.activations + b.activations + c.activations == a.activations + (b.activations + c.activations);
    }
  }

  lemma {:induction false} NeverCrashes(w: World, words: seq<string>, origin: string)
    ensures !ActivationEffect(w, words, origin).Crash?
  {
    if words != [] {
      NeverCrashes(w, words[1..], origin);
    }
  }

  lemma {:induction false} FilesNeverCrash(w: World, hits: seq<string>, d: Destination, folder: bool, origin: string)
    ensures !FilesEffect(w, hits, d, folder, origin).Crash?
  {
    if hits != [] {
      FilesNeverCrash(w, hits[1..], d, folder, origin);
    }
  }

  lemma {:induction false} WordsNeverCrash(w: World, words: seq<string>, d: Destination, folder: bool, origin: string)
    ensures !WordsEffect(w, words, d, folder, origin).Crash?
  {
    if words != [] {
      FilesNeverCrash(w, w.resolve(words[0]), d, folder, origin);
      WordsNeverCrash(w, words[1..], d, folder, origin);
    }
  }

  // ------------------------------------------------------- the account

  // How many records a source word owes: one per file it resolves to, or one error.
  function Owed(w: World, word: string): nat {
    if w.unexpanded(word) || w.resolve(word) == [] then 1 else |w.resolve(word)|
  }

  function OwedAll(w: World, words: seq<string>): nat {
    if words == [] then 0 else Owed(w, words[0]) + OwedAll(w, words[1..])
  }

  function Records(e: Effect): nat
    requires !e.Crash?
  {
    |e.landings| + |e.errors|
  }

  // A destination path that names no place inside the systemd directory.
  predicate Vanishes(w: World, d: Destination, folder: bool) {
    !folder && w.shape(d.rel).Nowhere?
  }

  // A file name appended to a directory always names a place.
  ghost predicate FoldersHold(w: World) {
    forall rel, word, src :: src in w.resolve(word) ==> !w.shape(w.inside(rel, w.name(src))).Nowhere?
  }

  predicate Resolved(w: World, word: string) {
    !w.unexpanded(word) && w.resolve(word) != []
  }

  lemma {:induction false} FilesAccount(w: World, word: string, hits: seq<string>, d: Destination, folder: bool,
                                        origin: string)
    requires FoldersHold(w) && forall i | 0 <= i < |hits| :: hits[i] in w.resolve(word)
    ensures var e := FilesEffect(w, hits, d, folder, origin);
            !e.Crash? && Records(e) == if Vanishes(w, d, folder) then 0 else |hits|
  {
    if hits != [] {
      FilesAccount(w, word, hits[1..], d, folder, origin);
    }
  }

  /** The account of a copy into a systemd directory: it leaves exactly one landing or error per
      file its sources resolve to and one error per source that resolves to none — if and only if
      the destination does not vanish under a source that does resolve. */
  lemma {:induction false} CopyAccount(w: World, words: seq<string>, d: Destination, folder: bool, origin: string)
    requires FoldersHold(w)
    ensures var e := WordsEffect(w, words, d, folder, origin);
            !e.Crash? && Records(e) <= OwedAll(w, words)
            && (Records(e) == OwedAll(w, words)
                <==> !(Vanishes(w, d, folder) && exists i | 0 <= i < |words| :: Resolved(w, words[i])))
  {
    if words != [] {
      FilesAccount(w, words[0], w.resolve(words[0]), d, folder, origin);
      CopyAccount(w, words[1..], d, folder, origin);
      WordsNeverCrash(w, words[1..], d, folder, origin);
      assert Resolved(w, words[0]) || (forall i | 0 <= i < |words| ::
               Resolved(w, words[i]) ==> i > 0 && words[1..][i - 1] == words[i]);
      assert forall i | 0 <= i < |words| - 1 :: words[1..][i] == words[i + 1];
    }
  }

  // The file `src`, placed at `rel`, is a landing of the effect or an error that names its place.
  ghost predicate Settled(w: World, e: Effect, src: string, scope: string, rel: string, origin: string)
    requires !e.Crash?
  {
    match w.shape(rel)
    case Nowhere => false
    case Known(kind, unit, at) => Landing(Some(src), scope, at, kind, unit, origin) in e.landings
    case Unmodelled(at) => UnmodelledPath(origin, at) in e.errors
  }

  lemma {:induction false} FileSettled(w: World, word: string, hits: seq<string>, k: nat, d: Destination, folder: bool,
                                       origin: string)
    requires FoldersHold(w) && !Vanishes(w, d, folder) && k < |hits|
    requires forall i | 0 <= i < |hits| :: hits[i] in w.resolve(word)
    ensures var e := FilesEffect(w, hits, d, folder, origin);
            !e.Crash? && Settled(w, e, hits[k], d.scope, Place(w, d, folder, hits[k]), origin)
  {
    FilesNeverCrash(w, hits, d, folder, origin);
    FilesNeverCrash(w, hits[1..], d, folder, origin);
    if k > 0 {
      FileSettled(w, word, hits[1..], k - 1, d, folder, origin);
    }
  }

  /** Each single file a source resolves to is found again: as a landing at its own place, or in an
      error that names that place; a source that resolves to nothing is named in an error. */
  lemma {:induction false} SourceSettled(w: World, words: seq<string>, i: nat, d: Destination, folder: bool,
                                         origin: string)
    requires FoldersHold(w) && !Vanishes(w, d, folder) && i < |words|
    ensures var e := WordsEffect(w, words, d, folder, origin);
            !e.Crash? && if !Resolved(w, words[i]) then Unexpanded(origin, words[i]) in e.errors
                || NoSuchFile(origin, words[i]) in e.errors
            else forall k | 0 <= k < |w.resolve(words[i])| ::
                   Settled(w, e, w.resolve(words[i])[k], d.scope, Place(w, d, folder, w.resolve(words[i])[k]), origin)
  {
    WordsNeverCrash(w, words, d, folder, origin);
    WordsNeverCrash(w, words[1..], d, folder, origin);
    var first := WordEffect(w, words[0], d, folder, origin);
    var rest := WordsEffect(w, words[1..], d, folder, origin);
    var hits := w.resolve(words[i]);
    if i > 0 {
      SourceSettled(w, words[1..], i - 1, d, folder, origin);
    }
    if Resolved(w, words[i]) {
      forall k | 0 <= k < |hits|
        ensures Settled(w, Both(first, rest), hits[k], d.scope, Place(w, d, folder, hits[k]), origin)
      {
        if i == 0 {
          FileSettled(w, words[0], hits, k, d, folder, origin);
        }
      }
    }
  }

  /** No command that names a systemd directory passes without a trace, except a copy of nothing
      and a copy whose destination vanishes under files that resolve. */
  lemma VisitLeavesTrace(w: World, argv: seq<string>, origin: string)
    requires argv != [] && IntoSystemd(w, argv) && FoldersHold(w)
    requires !VisitEffect(w, argv, origin).Crash?
    ensures var e := VisitEffect(w, argv, origin); var role := w.role(w.name(argv[0]));
            var s := SplitOpts(w, argv[1..], false);
            e == NOTHING <==>
              Copies(role) && !MakesDirectory(role, s) && CopyOf(w, s).Copying? && w.lands(CopyOf(w, s).dest).Some?
              && (forall i | 0 <= i < |CopyOf(w, s).sources| :: Resolved(w, CopyOf(w, s).sources[i]))
              && (CopyOf(w, s).sources == []
                  || Vanishes(w, w.lands(CopyOf(w, s).dest).value, CopyOf(w, s).folder
                       || w.lands(CopyOf(w, s).dest).value.rel == ""))
  {
    var s := SplitOpts(w, argv[1..], false);
    var c := CopyOf(w, s);
    if Copies(w.role(w.name(argv[0]))) && c.Copying? && w.lands(c.dest).Some? {
      var d := w.lands(c.dest).value;
      WordsTrace(w, c.sources, d, c.folder || d.rel == "", origin);
    }
  }

  lemma {:induction false} WordsTrace(w: World, words: seq<string>, d: Destination, folder: bool, origin: string)
    requires FoldersHold(w)
    ensures WordsEffect(w, words, d, folder, origin) == NOTHING
        <==> (forall i | 0 <= i < |words| :: Resolved(w, words[i])) && (words == [] || Vanishes(w, d, folder))
  {
    if words != [] {
      WordsNeverCrash(w, words, d, folder, origin);
      WordsNeverCrash(w, words[1..], d, folder, origin);
      FilesTrace(w, words[0], w.resolve(words[0]), d, folder, origin);
      WordsTrace(w, words[1..], d, folder, origin);
      assert forall i | 0 <= i < |words| - 1 :: words[1..][i] == words[i + 1];
      assert (forall i | 0 <= i < |words| :: Resolved(w, words[i]))
        <==> Resolved(w, words[0]) && (forall i | 0 <= i < |words| - 1 :: Resolved(w, words[1..][i])) by {
        assert forall i | 1 <= i < |words| :: words[i] == words[1..][i - 1];
      }
    }
  }

  lemma {:induction false} FilesTrace(w: World, word: string, hits: seq<string>, d: Destination, folder: bool,
                                      origin: string)
    requires FoldersHold(w) && forall i | 0 <= i < |hits| :: hits[i] in w.resolve(word)
    ensures FilesEffect(w, hits, d, folder, origin) == NOTHING <==> hits == [] || Vanishes(w, d, folder)
  {
    FilesNeverCrash(w, hits, d, folder, origin);
    if hits != [] {
      FilesNeverCrash(w, hits[1..], d, folder, origin);
      FilesTrace(w, word, hits[1..], d, folder, origin);
    }
  }

  // ------------------------------------------------------- a command line as its author means it

  // A word of a command: an operand, an option, an option with its argument, or the double dash.
  datatype Item = Operand(word: string) | Flag(opt: string) | Valued(opt: string, arg: string) | Dashes

  predicate ProperItem(w: World, item: Item) {
    match item
    case Operand(word) => word != "--" && !w.option(word)
    case Flag(opt) => opt != "--" && w.option(opt) && !w.swallows(opt)
    case Valued(opt, _) => opt != "--" && w.option(opt) && w.swallows(opt)
    case Dashes => true
  }

  predicate ProperItems(w: World, items: seq<Item>) {
    forall i | 0 <= i < |items| :: ProperItem(w, items[i])
  }

  function ItemWords(item: Item): seq<string> {
    match item
    case Operand(word) => [word]
    case Flag(opt) => [opt]
    case Valued(opt, arg) => [opt, arg]
    case Dashes => ["--"]
  }

  function CommandWords(items: seq<Item>): seq<string> {
    FlatMap(ItemWords, items)
  }

  function ItemOperand(item: Item): seq<string> {
    if item.Operand? then [item.word] else []
  }

  function ItemOption(item: Item): seq<string> {
    if item.Flag? then [item.opt] else if item.Valued? then [item.opt, item.arg] else []
  }

  function Operands(items: seq<Item>): seq<string> {
    FlatMap(ItemOperand, items)
  }

  function Options(items: seq<Item>): seq<string> {
    FlatMap(ItemOption, items)
  }

  lemma SplitItem(w: World, item: Item, rest: seq<string>)
    requires ProperItem(w, item)
    ensures SplitOpts(w, ItemWords(item) + rest, false)
         == After(Options([item]), Operands([item]), SplitOpts(w, rest, false))
  {
    var words := ItemWords(item) + rest;
    FlatMapOne(ItemOperand, item);
    FlatMapOne(ItemOption, item);
    match item
    case Operand(word) => assert words[0] == word && words[1..] == rest;
    case Flag(opt) => assert words[0] == opt && words[1..] == rest;
    case Dashes => assert words[0] == "--" && words[1..] == rest;
    case Valued(opt, arg) => SplitValued(w, opt, arg, rest);
  }

  lemma SplitValued(w: World, opt: string, arg: string, rest: seq<string>)
    requires opt != "--" && w.option(opt) && w.swallows(opt)
    ensures SplitOpts(w, [opt, arg] + rest, false) == After([opt, arg], [], SplitOpts(w, rest, false))
  {
    var words := [opt, arg] + rest;
    assert words[0] == opt && words[1..] == [arg] + rest;
    assert ([arg] + rest)[0] == arg && ([arg] + rest)[1..] == rest;
    var tail := SplitOpts(w, rest, false);
    assert SplitOpts(w, [arg] + rest, true) == Split([arg] + tail.opts, tail.args);
    assert [opt] + ([arg] + tail.opts) == [opt, arg] + tail.opts;
  }

  /** Splitting undoes writing a command: its operands in order, and its options in order, each with the
      argument it takes. */
  lemma {:induction false} SplitBack(w: World, items: seq<Item>)
    requires ProperItems(w, items)
    ensures SplitOpts(w, CommandWords(items), false) == Split(Options(items), Operands(items))
  {
    if items != [] {
      SplitBack(w, items[1..]);
      SplitItem(w, items[0], CommandWords(items[1..]));
      FlatMapOne(ItemOperand, items[0]);
      FlatMapOne(ItemOption, items[0]);
    }
  }

  /** A copy without a target option goes to its last operand, a directory if there are more sources than
      one or it is written as one; with fewer than two operands it goes nowhere. */
  lemma PlainCopy(w: World, items: seq<Item>)
    requires ProperItems(w, items)
    requires "-t" !in Options(items) && "--target-directory" !in Options(items)
    ensures var ops := Operands(items);
            CopyOf(w, SplitOpts(w, CommandWords(items), false))
            == if |ops| < 2 then NoOperands
               else Copying(ops[|ops| - 1], ops[..|ops| - 1], |ops| > 2 || w.folder(ops[|ops| - 1]))
  {
    SplitBack(w, items);
  }

  /** A copy with a target option puts every operand into the directory the option names. */
  lemma TargetCopy(w: World, before: seq<Item>, after: seq<Item>, opt: string, dir: string)
    requires opt == "-t" || opt == "--target-directory"
    requires ProperItems(w, before + [Valued(opt, dir)] + after)
    requires "-t" !in Options(before) && "--target-directory" !in Options(before)
    requires opt == "--target-directory" ==> dir != "-t" && "-t" !in Options(after)
    ensures CopyOf(w, SplitOpts(w, CommandWords(before + [Valued(opt, dir)] + after), false))
         == Copying(dir, Operands(before) + Operands(after), true)
  {
    var items := before + [Valued(opt, dir)] + after;
    SplitBack(w, items);
    OptionsAround(before, opt, dir, after);
    TargetOf(w, Options(before), opt, dir, Options(after), Operands(items));
  }

  lemma TargetOf(w: World, a: seq<string>, opt: string, dir: string, b: seq<string>, operands: seq<string>)
    requires opt == "-t" || opt == "--target-directory"
    requires "-t" !in a && "--target-directory" !in a && (opt == "--target-directory" ==> dir != "-t" && "-t" !in b)
    ensures CopyOf(w, Split(a + ([opt, dir] + b), operands)) == Copying(dir, operands, true)
  {
    TargetAt(a + ([opt, dir] + b), a, opt, dir, b);
  }

  lemma OptionsAround(before: seq<Item>, opt: string, dir: string, after: seq<Item>)
    ensures var items := before + [Valued(opt, dir)] + after;
            Options(items) == Options(before) + ([opt, dir] + Options(after))
            && Operands(items) == Operands(before) + Operands(after)
  {
    assert Operands(before) + ([] + Operands(after)) == Operands(before) + Operands(after);
    PartsAround(ItemOption, before, Valued(opt, dir), after);
    PartsAround(ItemOperand, before, Valued(opt, dir), after);
  }

  lemma PartsAround(f: Item -> seq<string>, before: seq<Item>, middle: Item, after: seq<Item>)
    ensures FlatMap(f, before + [middle] + after) == FlatMap(f, before) + (f(middle) + FlatMap(f, after))
  {
    FlatMapAppend(f, before + [middle], after);
    FlatMapAppend(f, before, [middle]);
    FlatMapOne(f, middle);
    Regroup(FlatMap(f, before), f(middle), FlatMap(f, after));
  }

  lemma TargetAt(opts: seq<string>, a: seq<string>, opt: string, dir: string, b: seq<string>)
    requires opts == a + ([opt, dir] + b) && (opt == "-t" || opt == "--target-directory")
    requires "-t" !in a && "--target-directory" !in a && (opt == "--target-directory" ==> dir != "-t" && "-t" !in b)
    ensures var s := Split(opts, []); Targeted(s) && TargetDirectory(s) == Some(dir)
  {
    assert opts[|a|] == opt && opts[|a| + 1] == dir && opts[..|a|] == a;
    IndexOfIs(opts, opt, |a|);
  }

  // A word of the command is one of these.
  predicate SomeWord(argv: seq<string>, what: string -> bool) {
    exists word | word in argv :: what(word)
  }

  /** What a visited command comes to, by what it is and the words it has: nothing without a word for either
      directory; into a systemd directory a row and no more when it makes directories, one link, the files of
      a copy, or an error that names it; into the activation directory the records of a copy. */
  lemma VisitDoes(w: World, head: string, items: seq<Item>, origin: string)
    requires ProperItems(w, items)
    ensures var argv, role := [head] + CommandWords(items), w.role(w.name(head));
            var s, e := Split(Options(items), Operands(items)), VisitEffect(w, [head] + CommandWords(items), origin);
            if SomeWord(argv, w.systemd) then
              (match role
               case MakeDirectory => e == Added([], [Row(origin, "mkdir", Join(" ", s.args), "-")], [], [])
               case Link => e == LinkEffect(w, s, origin)
               case Unknown => e == Added([], [], [UnmodelledCommand(origin, w.name(head))], [])
               case Copy => e == CopyEffect(w, s, origin)
               case Install =>
                 e == if "-d" in s.opts then Added([], [Row(origin, "mkdir", Join(" ", s.args), "-")], [], [])
                      else CopyEffect(w, s, origin))
            else if SomeWord(argv, w.dbus) && (role.Install? || role.Copy?) then
              e == ActivationEffect(w, ActivationSources(s), origin)
            else e == NOTHING
  {
    var argv := [head] + CommandWords(items);
    assert argv[1..] == CommandWords(items);
    SplitBack(w, items);
    SomeWordAt(argv, w.systemd);
    SomeWordAt(argv, w.dbus);
  }

  lemma SomeWordAt(argv: seq<string>, what: string -> bool)
    ensures SomeWord(argv, what) <==> exists i | 0 <= i < |argv| :: what(argv[i])
  {
    if word :| word in argv && what(word) {
      var i :| 0 <= i < |argv| && argv[i] == word;
      assert what(argv[i]);
    }
  }

  /** A copy into the activation directory is without error exactly when every source resolves, and then
      what it activates is exactly what they resolve to. */
  lemma {:induction false} RecordsExactly(w: World, words: seq<string>, origin: string, record: (string, string))
    ensures var e := ActivationEffect(w, words, origin);
            !e.Crash? && e.landings == [] && (e.errors == [] <==> forall word | word in words :: Resolved(w, word))
            && (record in e.activations <==>
                  record.1 == origin && exists word | word in words :: Resolved(w, word) && record.0 in w.resolve(word))
  {
    if words != [] {
      RecordsExactly(w, words[1..], origin, record);
      assert words == [words[0]] + words[1..];
      RecordExactly(w, words[0], origin, record);
    }
  }

  lemma RecordExactly(w: World, word: string, origin: string, record: (string, string))
    ensures var e := RecordEffect(w, word, origin);
            !e.Crash? && e.landings == [] && (e.errors == [] <==> Resolved(w, word))
            && (record in e.activations <==> record.1 == origin && Resolved(w, word) && record.0 in w.resolve(word))
  {
    var hits := w.resolve(word);
    if Resolved(w, word) && record.1 == origin && record.0 in hits {
      var k :| 0 <= k < |hits| && hits[k] == record.0;
      assert Activations(hits, origin)[k] == record;
    }
  }

  /** Activation records are copied the same way. */
  lemma RecordSources(w: World, items: seq<Item>)
    requires ProperItems(w, items)
    ensures var ops, opts := Operands(items), Options(items);
            ActivationSources(SplitOpts(w, CommandWords(items), false))
            == if "-t" in opts || "--target-directory" in opts then ops
               else if |ops| >= 2 then ops[..|ops| - 1] else []
  {
    SplitBack(w, items);
  }

  /** A symlink makes one record: the unit its target is called, wanted at the place its last operand names. */
  lemma LinkIs(w: World, items: seq<Item>, target: string, dest: string, origin: string)
    requires ProperItems(w, items) && Operands(items) == [target, dest]
    ensures var e := LinkEffect(w, SplitOpts(w, CommandWords(items), false), origin);
            !e.Crash? && e.activations == []
            && e.landings == (if w.lands(dest).Some? && w.shape(w.lands(dest).value.rel).Known?
                              then [Landing(None, w.lands(dest).value.scope, w.shape(w.lands(dest).value.rel).at, Wants,
                                            w.name(target), origin)] else [])
            && (e.errors != [] <==> w.lands(dest).Some? && w.shape(w.lands(dest).value.rel).Unmodelled?)
  {
    SplitBack(w, items);
  }
}
