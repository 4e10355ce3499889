/** The whole chain of os/repo-tools/check-egress-units.py: the texts of the installer scripts, their
    flat walks, the landings and activation records of every visited command and of the image trees, and
    the exit status over them. */
module Shipping {
  import opened Common
  import opened ShellWalk
  import opened Installs
  import ShellLines
  import Text
  import EgressGate
  import Destinations

  // What a run of visits adds up to; `origin` names the script and the line.
  function Effects(w: World, visits: seq<Stmt>, origin: nat -> string): Effect
    requires forall v | v in visits :: v.argv != []
  {
    if visits == [] then NOTHING
    else
      Both(Effects(w, visits[..|visits| - 1], origin),
           VisitEffect(w, visits[|visits| - 1].argv, origin(visits[|visits| - 1].line)))
  }

  // Visits every command the walk found; false when one of them stopped the gate.
  method Discover(g: Grammar, w: World, stmts: seq<Stmt>, env: Env, origin: nat -> string)
    returns (found: Discovery, ok: bool)
    ensures fresh(found)
    ensures forall v | v in Flat(g, stmts, env).visits :: v.argv != []
    ensures ok <==> !Effects(w, Flat(g, stmts, env).visits, origin).Crash?
    ensures ok ==> found.Found() == Effects(w, Flat(g, stmts, env).visits, origin)
  {
    var visits, _ := Walk(g, stmts, env);
    VisitsHaveWords(g, stmts, env);
    found := new Discovery(w);
    ok := true;
    for i := 0 to |visits|
      invariant fresh(found) && found.w == w
      invariant ok <==> !Effects(w, visits[..i], origin).Crash?
      invariant ok ==> found.Found() == Effects(w, visits[..i], origin)
    {
      EffectsMore(w, visits, origin, i);
      if ok {
        ok := found.Visit(visits[i].argv, origin(visits[i].line));
      }
    }
    assert visits[..|visits|] == visits;
  }

  lemma {:induction false} EffectsMore(w: World, visits: seq<Stmt>, origin: nat -> string, i: nat)
    requires (forall v | v in visits :: v.argv != []) && i < |visits|
    ensures Effects(w, visits[..i + 1], origin)
         == Both(Effects(w, visits[..i], origin), VisitEffect(w, visits[i].argv, origin(visits[i].line)))
  {
    assert visits[..i + 1][..i] == visits[..i];
  }

  // ------------------------------------------------------- scripts and image trees

  /** One installer script as the gate reads it: its text, the values its statements start from, the
      file system its words are resolved in, and what it is called in a finding. */
  datatype Source = Source(w: World, text: string, env: Env, origin: nat -> string)

  // A file of an image tree and its path below that tree.
  datatype Baked = Baked(src: string, origin: string, rel: string)

  // All the gate looks at; `images` tells where in an image a path lands.
  datatype Repository = Repository(g: Grammar, t: ShellLines.Tokenizer, sources: seq<Source>,
                                   images: World, baked: seq<Baked>)

  function Read(r: Repository, s: Source): ShellLines.Script {
    ShellLines.ScriptOf(r.t, LinesOf(s))
  }

  function LinesOf(s: Source): seq<ShellLines.Logical> {
    ShellLines.Joined(Text.SplitLines(s.text), 1, "", 1)
  }

  function Visited(r: Repository, s: Source): (visits: seq<Stmt>)
    ensures forall v | v in visits :: v.argv != []
  {
    VisitsHaveWords(r.g, Read(r, s).stmts, s.env);
    Flat(r.g, Read(r, s).stmts, s.env).visits
  }

  // What scripts come to: the effect of their commands, and every finding about them.
  datatype Account = Account(effect: Effect, findings: seq<EgressGate.Finding>)

  function Listed(errors: seq<Error>): (r: seq<EgressGate.Finding>)
    ensures r == [] <==> errors == []
  {
    if errors == [] then [] else Listed(errors[..|errors| - 1]) + [EgressGate.Unresolved(errors[|errors| - 1])]
  }

  function Refusals(origin: nat -> string, refused: seq<ShellLines.Logical>): (r: seq<EgressGate.Finding>)
    ensures r == [] <==> refused == []
  {
    if refused == [] then []
    else
      var last := refused[|refused| - 1];
      Refusals(origin, refused[..|refused| - 1]) + [EgressGate.Refused(origin(last.line), last.text)]
  }

  function AccountOf(r: Repository, s: Source): Account {
    var e := Effects(s.w, Visited(r, s), s.origin);
    if e.Crash? then Account(Crash, [])
    else Account(e, Refusals(s.origin, Read(r, s).refused) + Listed(e.errors))
  }

  method ReadScript(r: Repository, s: Source) returns (a: Account)
    ensures a == AccountOf(r, s)
  {
    var stmts, refused := ShellLines.Tokenize(r.t, s.text);
    assert Read(r, s) == ShellLines.Script(stmts, refused);
    var found, ok := Discover(r.g, s.w, stmts, s.env, s.origin);
    a := if ok then Account(found.Found(), Refusals(s.origin, refused) + Listed(found.errors)) else Account(Crash, []);
  }

  function Accounts(r: Repository, sources: seq<Source>): (accounts: seq<Account>)
    ensures |accounts| == |sources|
  {
    if sources == [] then []
    else Accounts(r, sources[..|sources| - 1]) + [AccountOf(r, sources[|sources| - 1])]
  }

  function Total(accounts: seq<Account>): Account {
    if accounts == [] then Account(NOTHING, [])
    else
      var front, last := Total(accounts[..|accounts| - 1]), accounts[|accounts| - 1];
      Account(Both(front.effect, last.effect), front.findings + last.findings)
  }

  lemma {:induction false} AccountAt(r: Repository, sources: seq<Source>, n: nat)
    requires n < |sources|
    ensures Accounts(r, sources)[n] == AccountOf(r, sources[n])
  {
    if n < |sources| - 1 {
      AccountAt(r, sources[..|sources| - 1], n);
    }
  }

  // The account of all scripts, in the order of the scripts.
  method DiscoverAll(r: Repository) returns (all: Account)
    ensures all == Total(Accounts(r, r.sources))
  {
    all := AddUp(r, Accounts(r, r.sources));
  }

  method AddUp(r: Repository, ghost accounts: seq<Account>) returns (all: Account)
    requires accounts == Accounts(r, r.sources)
    ensures all == Total(accounts)
  {
    all := Account(NOTHING, []);
    for n := 0 to |r.sources|
      invariant all == Total(accounts[..n])
    {
      var a := ReadScript(r, r.sources[n]);
      AccountAt(r, r.sources, n);
      TotalMore(accounts, n);
      all := Account(Both(all.effect, a.effect), all.findings + a.findings);
    }
    assert accounts[..|r.sources|] == accounts;
  }

  lemma {:induction false} TotalMore(accounts: seq<Account>, n: nat)
    requires n < |accounts|
    ensures var front := Total(accounts[..n]);
            Total(accounts[..n + 1])
            == Account(Both(front.effect, accounts[n].effect), front.findings + accounts[n].findings)
  {
    assert accounts[..n + 1][..n] == accounts[..n];
  }

  // A file of an image tree lands where its own path says.
  function BakedEffect(w: World, f: Baked): Effect {
    match w.lands("/" + f.rel)
    case None => NOTHING
    case Some(d) =>
      match w.shape(d.rel)
      case Nowhere => NOTHING
      case Known(kind, unit, at) => Added([Landing(Some(f.src), d.scope, at, kind, unit, f.origin)], [], [], [])
      case Unmodelled(at) => Added([], [], [UnmodelledPath(f.origin, at)], [])
  }

  function BakedEffects(w: World, files: seq<Baked>): (e: Effect)
    ensures !e.Crash?
  {
    if files == [] then NOTHING
    else Both(BakedEffects(w, files[..|files| - 1]), BakedEffect(w, files[|files| - 1]))
  }

  method TreeLandings(w: World, files: seq<Baked>) returns (landings: seq<Landing>, errors: seq<Error>)
    ensures Added(landings, [], errors, []) == BakedEffects(w, files)
  {
    landings, errors := [], [];
    for n := 0 to |files|
      invariant Added(landings, [], errors, []) == BakedEffects(w, files[..n])
    {
      assert files[..n + 1][..n] == files[..n];
      var more, bad := TreeLanding(w, files[n]);
      landings, errors := landings + more, errors + bad;
    }
    assert files[..|files|] == files;
  }

  method TreeLanding(w: World, f: Baked) returns (landings: seq<Landing>, errors: seq<Error>)
    ensures Added(landings, [], errors, []) == BakedEffect(w, f)
  {
    var d := w.lands("/" + f.rel);
    if d.None? {
      return [], [];
    }
    match w.shape(d.value.rel) {
      case Nowhere => return [], [];
      case Known(kind, unit, at) =>
        return [Landing(Some(f.src), d.value.scope, at, kind, unit, f.origin)], [];
      case Unmodelled(at) => return [], [UnmodelledPath(f.origin, at)];
    }
  }

  // ------------------------------------------------------- the exit status

  // Everything that lands, from scripts and image trees.
  function AllLandings(r: Repository): seq<Landing>
    requires !Total(Accounts(r, r.sources)).effect.Crash?
  {
    Total(Accounts(r, r.sources)).effect.landings + BakedEffects(r.images, r.baked).landings
  }

  /** The gate exits 0: no command stops it, nothing is found about scripts or trees, and the landings and
      activation records of all of them together hold to the policy. */
  ghost predicate Clean(r: Repository, p: EgressGate.Policy, tree: EgressGate.Tree) {
    var all := Total(Accounts(r, r.sources));
    !all.effect.Crash?
    && EgressGate.ExitsClean(p, tree, AllLandings(r), all.effect.activations,
                             all.findings + Listed(BakedEffects(r.images, r.baked).errors))
  }

  // The gate from the texts to its exit status; a command that stops it is an exit status of 1.
  method Gate(r: Repository, p: EgressGate.Policy, tree: EgressGate.Tree) returns (exit: int)
    ensures exit == 0 || exit == 1
    ensures exit == 0 <==> Clean(r, p, tree)
  {
    var all := DiscoverAll(r);
    if all.effect.Crash? {
      return 1;
    }
    var landings, errors := TreeLandings(r.images, r.baked);
    exit := EgressGate.RunGate(p, tree, all.effect.landings + landings, all.effect.activations,
                               all.findings + Listed(errors));
  }

  // ------------------------------------------------------- what a clean exit says

  // `part` adds no error, and what it lands or activates is in `whole`.
  ghost predicate Within(part: Effect, whole: Effect) {
    !part.Crash? && !whole.Crash? && part.errors == []
    && (forall l | l in part.landings :: l in whole.landings)
    && (forall a | a in part.activations :: a in whole.activations)
  }

  lemma {:induction false} VisitWithin(w: World, visits: seq<Stmt>, origin: nat -> string, c: nat)
    requires (forall v | v in visits :: v.argv != []) && c < |visits|
    requires !Effects(w, visits, origin).Crash? && Effects(w, visits, origin).errors == []
    ensures Within(VisitEffect(w, visits[c].argv, origin(visits[c].line)), Effects(w, visits, origin))
  {
    if c < |visits| - 1 {
      VisitWithin(w, visits[..|visits| - 1], origin, c);
    }
  }

  lemma {:induction false} AccountWithin(accounts: seq<Account>, n: nat)
    requires n < |accounts| && !Total(accounts).effect.Crash? && Total(accounts).findings == []
    ensures !accounts[n].effect.Crash? && accounts[n].findings == []
    ensures forall l | l in accounts[n].effect.landings :: l in Total(accounts).effect.landings
    ensures forall a | a in accounts[n].effect.activations :: a in Total(accounts).effect.activations
  {
    if n < |accounts| - 1 {
      AccountWithin(accounts[..|accounts| - 1], n);
    }
  }

  // Every script of a clean gate: nothing refused, nothing found, everything counted.
  lemma {:induction false} ScriptWithin(r: Repository, p: EgressGate.Policy, tree: EgressGate.Tree, n: nat)
    requires Clean(r, p, tree) && n < |r.sources|
    ensures var s := r.sources[n];
            Read(r, s).refused == [] && Within(Effects(s.w, Visited(r, s), s.origin),
                  Total(Accounts(r, r.sources)).effect)
  {
    AccountWithin(Accounts(r, r.sources), n);
    AccountAt(r, r.sources, n);
    NothingFound(r, r.sources[n]);
  }

  lemma {:induction false} NothingFound(r: Repository, s: Source)
    requires !AccountOf(r, s).effect.Crash? && AccountOf(r, s).findings == []
    ensures var e := Effects(s.w, Visited(r, s), s.origin);
            AccountOf(r, s).effect == e && !e.Crash? && e.errors == [] && Read(r, s).refused == []
  {}

  /** No install line is lost to the tokenizer: when the gate exits 0, each statement naming a systemd
      directory, anywhere in any script, is among the commands that script was read as. */
  lemma {:induction false} SystemdStatementRead(r: Repository, p: EgressGate.Policy, tree: EgressGate.Tree,
                                                n: nat, k: nat, part: string)
    requires Clean(r, p, tree) && n < |r.sources| && k < |LinesOf(r.sources[n])|
    requires part in ShellLines.Cut(LinesOf(r.sources[n])[k].text, "", None).parts
    requires !Text.Blank(part) && r.t.systemd(part)
    ensures var argv := r.t.words(part);
            argv.Some? && Stmt(LinesOf(r.sources[n])[k].line, argv.value) in Read(r, r.sources[n]).stmts
  {
    ScriptWithin(r, p, tree, n);
    ShellLines.NoStatementLost(r.t, LinesOf(r.sources[n]), k, part);
  }

  // Script `n` is a nested script written line by line, with nothing behind a keyword, and `argv` is the
  // command number `c` of what the shell runs of it, on line `line`.
  ghost predicate RunsIn(r: Repository, n: nat, nodes: seq<Node>, c: nat, argv: seq<string>, line: nat) {
    n < |r.sources| && Read(r, r.sources[n]).stmts == Print(r.g, nodes)
    && WellFormed(r.g, nodes) && !Hides(r.g, nodes, false)
    && var visits := Run(r.g, nodes, r.sources[n].env).visits; c < |visits| && visits[c] == Stmt(line, argv)
  }

  lemma {:induction false} CommandWithin(r: Repository, p: EgressGate.Policy, tree: EgressGate.Tree,
                                         n: nat, nodes: seq<Node>, c: nat, argv: seq<string>, line: nat)
    requires Clean(r, p, tree) && RunsIn(r, n, nodes, c, argv, line)
    ensures argv != []
    ensures var s := r.sources[n];
            Within(VisitEffect(s.w, argv, s.origin(line)), Total(Accounts(r, r.sources)).effect)
  {
    var s := r.sources[n];
    ScriptWithin(r, p, tree, n);
    WalkIsRun(r.g, nodes, s.env);
    assert Visited(r, s)[c] == Stmt(line, argv);
    VisitWithin(s.w, Visited(r, s), s.origin, c);
  }

  // The command copies source number `i` to a place in a systemd directory.
  predicate CopiesInto(w: World, argv: seq<string>, i: nat) {
    argv != [] && IntoSystemd(w, argv)
    && var role := w.role(w.name(argv[0])); var s := SplitOpts(w, argv[1..], false);
    Copies(role) && !MakesDirectory(role, s) && CopyOf(w, s).Copying?
    && var c := CopyOf(w, s);
    i < |c.sources| && w.lands(c.dest).Some?
    && !Vanishes(w, w.lands(c.dest).value, c.folder || w.lands(c.dest).value.rel == "")
  }

  function SourceWord(w: World, argv: seq<string>, i: nat): string
    requires CopiesInto(w, argv, i)
  {
    CopyOf(w, SplitOpts(w, argv[1..], false)).sources[i]
  }

  // What the copy makes of the repository file `src`.
  function PlaceOf(w: World, argv: seq<string>, i: nat, src: string): (string, Shape)
    requires CopiesInto(w, argv, i)
  {
    var c := CopyOf(w, SplitOpts(w, argv[1..], false));
    var d := w.lands(c.dest).value;
    (d.scope, w.shape(Place(w, d, c.folder || d.rel == "", src)))
  }

  // The landing of `src` that this copy is read as.
  ghost predicate LandsAs(w: World, argv: seq<string>, i: nat, src: string, origin: string, l: Landing)
    requires CopiesInto(w, argv, i)
  {
    var (scope, shape) := PlaceOf(w, argv, i, src);
    shape.Known? && l == Landing(Some(src), scope, shape.at, shape.kind, shape.unit, origin)
  }

  lemma {:induction false} CopyLands(w: World, argv: seq<string>, origin: string, i: nat)
    requires FoldersHold(w) && CopiesInto(w, argv, i)
    requires !VisitEffect(w, argv, origin).Crash? && VisitEffect(w, argv, origin).errors == []
    ensures Resolved(w, SourceWord(w, argv, i))
    ensures forall src | src in w.resolve(SourceWord(w, argv, i)) ::
              exists l :: LandsAs(w, argv, i, src, origin, l) && l in VisitEffect(w, argv, origin).landings
  {
    var s := SplitOpts(w, argv[1..], false);
    var c := CopyOf(w, s);
    var d := w.lands(c.dest).value;
    SourceSettled(w, c.sources, i, d, c.folder || d.rel == "", origin);
    assert VisitEffect(w, argv, origin) == CopyEffect(w, s, origin);
    forall src | src in w.resolve(SourceWord(w, argv, i))
      ensures exists l :: LandsAs(w, argv, i, src, origin, l) && l in VisitEffect(w, argv, origin).landings
    {
      var k :| 0 <= k < |w.resolve(c.sources[i])| && w.resolve(c.sources[i])[k] == src;
      var (scope, shape) := PlaceOf(w, argv, i, src);
      assert Settled(w, CopyEffect(w, s, origin), src, scope, Place(w, d, c.folder || d.rel == "", src), origin);
      assert LandsAs(w, argv, i, src, origin, Landing(Some(src), scope, shape.at, shape.kind, shape.unit, origin));
    }
  }

  /** From a script to the verdict over the whole repository. Take any installer script, whatever the
      others are, that reads as a well-formed nested script with nothing standing behind a keyword, and any
      command the shell runs of it that copies to a place in a systemd directory. When the gate exits 0,
      every source of that command resolves, each file it resolves to lands, and one that lands as a unit,
      together with its drop-ins from everywhere, holds to the policy. */
  lemma {:induction false} ShippedUnitIsJudged(r: Repository, p: EgressGate.Policy, tree: EgressGate.Tree,
                                               n: nat, nodes: seq<Node>, c: nat, argv: seq<string>, line: nat, i: nat)
    requires Clean(r, p, tree) && RunsIn(r, n, nodes, c, argv, line)
    requires FoldersHold(r.sources[n].w) && CopiesInto(r.sources[n].w, argv, i)
    ensures var w := r.sources[n].w; var origin := r.sources[n].origin(line);
            Resolved(w, SourceWord(w, argv, i))
            && forall src | src in w.resolve(SourceWord(w, argv, i)) ::
                 exists l :: LandsAs(w, argv, i, src, origin, l) && l in AllLandings(r) && JudgedIfUnit(r, p, tree, l)
  {
    var w, origin := r.sources[n].w, r.sources[n].origin(line);
    CommandWithin(r, p, tree, n, nodes, c, argv, line);
    CopyLands(w, argv, origin, i);
    forall src | src in w.resolve(SourceWord(w, argv, i))
      ensures exists l :: LandsAs(w, argv, i, src, origin, l) && l in AllLandings(r) && JudgedIfUnit(r, p, tree, l)
    {
      var l :| LandsAs(w, argv, i, src, origin, l) && l in VisitEffect(w, argv, origin).landings;
      LandingJudged(r, p, tree, l);
    }
  }

  ghost predicate JudgedIfUnit(r: Repository, p: EgressGate.Policy, tree: EgressGate.Tree, l: Landing)
    requires !Total(Accounts(r, r.sources)).effect.Crash?
  {
    EgressGate.IsUnit(l) ==> UnitJudged(r, p, tree, EgressGate.KeyOf(l))
  }

  // The unit is one of the gate's, and with all its drop-ins holds to the policy.
  ghost predicate UnitJudged(r: Repository, p: EgressGate.Policy, tree: EgressGate.Tree, key: EgressGate.Key)
    requires !Total(Accounts(r, r.sources)).effect.Crash?
  {
    key in EgressGate.UnitKeys(EgressGate.UnitsOf(AllLandings(r)))
    && EgressGate.UnitHolds(p, tree.name(key.path), EgressGate.FactsFor(tree, AllLandings(r), key))
  }

  lemma {:induction false} LandingJudged(r: Repository, p: EgressGate.Policy, tree: EgressGate.Tree, l: Landing)
    requires Clean(r, p, tree) && l in AllLandings(r)
    ensures JudgedIfUnit(r, p, tree, l)
  {
    if EgressGate.IsUnit(l) {
      EgressGate.LandedUnitHolds(p, tree, AllLandings(r), l);
    }
  }

  // The copy puts its files into the directory `rel` below a systemd directory of `scope`.
  predicate CopiesTo(w: World, argv: seq<string>, i: nat, scope: string, rel: string) {
    CopiesInto(w, argv, i)
    && var dest := CopyOf(w, SplitOpts(w, argv[1..], false)).dest;
    w.folder(dest) && w.lands(dest) == Some(Destination(scope, rel))
  }

  lemma {:induction false} PlacedIn(w: World, argv: seq<string>, i: nat, scope: string, rel: string, src: string)
    requires CopiesTo(w, argv, i, scope, rel)
    ensures PlaceOf(w, argv, i, src) == (scope, w.shape(w.inside(rel, w.name(src))))
  {}

  // Names, folders and shapes are read as the gate reads them.
  ghost predicate GatePaths(w: World) {
    w.name == Destinations.BaseName && w.inside == Destinations.InsideOf && w.shape == Destinations.ShapeOf
  }

  lemma {:induction false} GateReadsPaths(resolve: string -> seq<string>)
    ensures GatePaths(Destinations.Gate(resolve))
  {}

  lemma {:induction false} DropInPlaced(w: World, argv: seq<string>, i: nat, scope: string, stem: string, dir: string,
                                        file: string)
    requires GatePaths(w) && CopiesTo(w, argv, i, scope, stem + ".service.d" + "/")
    requires Destinations.Stem(stem) && Destinations.Stem(file)
    ensures PlaceOf(w, argv, i, dir + "/" + (file + ".conf")) == (scope, Destinations.DropInShape(stem, file))
  {
    PlacedIn(w, argv, i, scope, stem + ".service.d" + "/", dir + "/" + (file + ".conf"));
    Destinations.BaseNameBack(dir, file + ".conf");
    Destinations.DropInPlace(stem, file);
  }

  lemma {:induction false} ServicePlaced(w: World, argv: seq<string>, i: nat, scope: string, dir: string, stem: string)
    requires GatePaths(w) && CopiesTo(w, argv, i, scope, "") && Destinations.Stem(stem)
    ensures PlaceOf(w, argv, i, dir + "/" + (stem + ".service"))
         == (scope, Known(UnitFile, stem + ".service", stem + ".service"))
  {
    PlacedIn(w, argv, i, scope, "", dir + "/" + (stem + ".service"));
    Destinations.BaseNameBack(dir, stem + ".service");
    Destinations.UnitPlace(stem);
  }

  // The landing of one file of a copy, when its place is known.
  lemma {:induction false} ShippedAs(
    r: Repository, p: EgressGate.Policy, tree: EgressGate.Tree, n: nat, nodes: seq<Node>, c: nat, argv: seq<string>,
    line: nat, i: nat, src: string, scope: string, shape: Shape) returns (l: Landing)
    requires Clean(r, p, tree) && RunsIn(r, n, nodes, c, argv, line) && FoldersHold(r.sources[n].w)
    requires CopiesInto(r.sources[n].w, argv, i) && src in r.sources[n].w.resolve(SourceWord(r.sources[n].w, argv, i))
    requires PlaceOf(r.sources[n].w, argv, i, src) == (scope, shape) && shape.Known?
    ensures l == Landing(Some(src), scope, shape.at, shape.kind, shape.unit, r.sources[n].origin(line))
    ensures l in AllLandings(r) && JudgedIfUnit(r, p, tree, l)
  {
    ShippedUnitIsJudged(r, p, tree, n, nodes, c, argv, line, i);
    l :| LandsAs(r.sources[n].w, argv, i, src, r.sources[n].origin(line), l) && l in AllLandings(r)
         && JudgedIfUnit(r, p, tree, l);
  }

  // A landed drop-in is merged into every unit of its name and scope.
  lemma {:induction false} LandedDropInApplies(tree: EgressGate.Tree, landings: seq<Landing>, l: Landing,
                                               k: EgressGate.Key)
    requires l in landings && EgressGate.IsDropInOf(l, k.scope, k.installed)
    ensures MergedInto(tree, landings, l.src.value, k)
  {
    var at :| 0 <= at < |landings| && landings[at] == l;
    EgressGate.EveryDropInApplies(tree, landings, at, k);
  }

  // The text of unit `k` is merged from the file `src` among others.
  ghost predicate MergedInto(tree: EgressGate.Tree, landings: seq<Landing>, src: string, k: EgressGate.Key) {
    var dropins := EgressGate.DropInsOf(tree, landings, k);
    exists j | 0 <= j < |dropins| :: dropins[j].path == src
  }

  /** Drop-ins likewise: a file `NAME.conf` that such a script copies into `UNIT.service.d/`, below a systemd
      directory of a scope, is merged into every unit landed as `UNIT.service` in that scope. */
  lemma {:induction false} ShippedDropInApplies(
    r: Repository, p: EgressGate.Policy, tree: EgressGate.Tree, n: nat, nodes: seq<Node>, c: nat, argv: seq<string>,
    line: nat, i: nat, stem: string, dir: string, file: string, k: EgressGate.Key)
    requires Clean(r, p, tree) && RunsIn(r, n, nodes, c, argv, line)
    requires GatePaths(r.sources[n].w) && FoldersHold(r.sources[n].w)
    requires CopiesTo(r.sources[n].w, argv, i, k.scope, stem + ".service.d" + "/")
    requires Destinations.Stem(stem) && Destinations.Stem(file) && k.installed == stem + ".service"
    requires dir + "/" + (file + ".conf") in r.sources[n].w.resolve(SourceWord(r.sources[n].w, argv, i))
    ensures MergedInto(tree, AllLandings(r), dir + "/" + (file + ".conf"), k)
  {
    var src := dir + "/" + (file + ".conf");
    DropInPlaced(r.sources[n].w, argv, i, k.scope, stem, dir, file);
    var l := ShippedAs(r, p, tree, n, nodes, c, argv, line, i, src, k.scope, Destinations.DropInShape(stem, file));
    LandedDropInApplies(tree, AllLandings(r), l, k);
  }

  /** A file copied under a name ending in `.service` is a unit of the gate by that name, and holds. */
  lemma {:induction false} ShippedServiceHolds(
    r: Repository, p: EgressGate.Policy, tree: EgressGate.Tree, n: nat, nodes: seq<Node>, c: nat, argv: seq<string>,
    line: nat, i: nat, scope: string, dir: string, stem: string)
    requires Clean(r, p, tree) && RunsIn(r, n, nodes, c, argv, line)
    requires GatePaths(r.sources[n].w) && FoldersHold(r.sources[n].w)
    requires CopiesTo(r.sources[n].w, argv, i, scope, "") && Destinations.Stem(stem)
    requires dir + "/" + (stem + ".service") in r.sources[n].w.resolve(SourceWord(r.sources[n].w, argv, i))
    ensures UnitJudged(r, p, tree, EgressGate.Key(dir + "/" + (stem + ".service"), stem + ".service", scope))
  {
    var src, unit := dir + "/" + (stem + ".service"), stem + ".service";
    ServicePlaced(r.sources[n].w, argv, i, scope, dir, stem);
    var l := ShippedAs(r, p, tree, n, nodes, c, argv, line, i, src, scope, Known(UnitFile, unit, unit));
    assert EgressGate.KeyOf(l) == EgressGate.Key(src, unit, scope);
  }

  /** Nor is any command passed over: when the gate exits 0, what the shell runs of such a script and
      names a systemd directory makes directories, links, or copies from sources. */
  lemma {:induction false} ShippedCommandIsKnown(r: Repository, p: EgressGate.Policy, tree: EgressGate.Tree,
                                                 n: nat, nodes: seq<Node>, c: nat, argv: seq<string>, line: nat)
    requires Clean(r, p, tree) && RunsIn(r, n, nodes, c, argv, line) && IntoSystemd(r.sources[n].w, argv)
    ensures argv != []
    ensures var w := r.sources[n].w; var role := w.role(w.name(argv[0])); var s := SplitOpts(w, argv[1..], false);
            MakesDirectory(role, s) || role.Link? || (Copies(role) && CopyOf(w, s).Copying?)
  {
    CommandWithin(r, p, tree, n, nodes, c, argv, line);
    KnownCommand(r.sources[n].w, argv, r.sources[n].origin(line));
  }

  lemma {:induction false} KnownCommand(w: World, argv: seq<string>, origin: string)
    requires argv != [] && IntoSystemd(w, argv)
    requires !VisitEffect(w, argv, origin).Crash? && VisitEffect(w, argv, origin).errors == []
    ensures var role := w.role(w.name(argv[0])); var s := SplitOpts(w, argv[1..], false);
            MakesDirectory(role, s) || role.Link? || (Copies(role) && CopyOf(w, s).Copying?)
  {}

  // The command copies `word` into the activation directory and names no systemd directory.
  predicate CopiesRecord(w: World, argv: seq<string>, word: string) {
    argv != [] && !IntoSystemd(w, argv) && IntoDbus(w, argv) && Copies(w.role(w.name(argv[0])))
    && word in ActivationSources(SplitOpts(w, argv[1..], false))
  }

  /** Enable links likewise: what such a script links into a systemd directory as `.service` is the unit of
      something that lands in that scope. */
  lemma {:induction false} ShippedLinkInstalled(
    r: Repository, p: EgressGate.Policy, tree: EgressGate.Tree, n: nat, nodes: seq<Node>, c: nat, head: string,
    items: seq<Item>, line: nat, target: string, dest: string)
    requires Clean(r, p, tree) && RunsIn(r, n, nodes, c, [head] + CommandWords(items), line)
    requires Links(r.sources[n].w, head, items, target, dest)
    ensures InstalledIn(AllLandings(r), r.sources[n].w.lands(dest).value.scope, r.sources[n].w.name(target))
  {
    var w, origin, argv := r.sources[n].w, r.sources[n].origin(line), [head] + CommandWords(items);
    CommandWithin(r, p, tree, n, nodes, c, argv, line);
    var l := LinkLanding(w, head, items, target, dest, origin);
    EnabledInstalled(r, p, tree, l);
  }

  lemma {:induction false} EnabledInstalled(r: Repository, p: EgressGate.Policy, tree: EgressGate.Tree, l: Landing)
    requires Clean(r, p, tree) && l in AllLandings(r) && l.kind.Wants? && Text.EndsWith(l.unit, ".service")
    ensures InstalledIn(AllLandings(r), l.scope, l.unit)
  {
    var i :| 0 <= i < |AllLandings(r)| && AllLandings(r)[i] == l;
    EgressGate.EnabledIsInstalled(p, tree, AllLandings(r), Total(Accounts(r, r.sources)).effect.activations,
      Total(Accounts(r, r.sources)).findings + Listed(BakedEffects(r.images, r.baked).errors), i);
  }

  ghost predicate InstalledIn(landings: seq<Landing>, scope: string, unit: string) {
    exists j | 0 <= j < |landings| :: EgressGate.NamesUnit(landings[j], scope, unit)
  }

  // `ln TARGET DEST`, an enable link at a place in a systemd directory.
  ghost predicate Links(w: World, head: string, items: seq<Item>, target: string, dest: string) {
    IntoSystemd(w, [head] + CommandWords(items)) && w.role(w.name(head)).Link?
    && ProperItems(w, items) && Operands(items) == [target, dest]
    && w.lands(dest).Some? && w.shape(w.lands(dest).value.rel).Known? && Text.EndsWith(w.name(target), ".service")
  }

  lemma {:induction false} LinkLanding(w: World, head: string, items: seq<Item>, target: string, dest: string,
                                       origin: string) returns (l: Landing)
    requires Links(w, head, items, target, dest)
    ensures l in VisitEffect(w, [head] + CommandWords(items), origin).landings
    ensures l.kind.Wants? && l.scope == w.lands(dest).value.scope && l.unit == w.name(target)
  {
    var argv := [head] + CommandWords(items);
    assert argv[1..] == CommandWords(items);
    LinkIs(w, items, target, dest, origin);
    l := LinkEffect(w, SplitOpts(w, CommandWords(items), false), origin).landings[0];
  }

  /** Activation records likewise: a record that such a script copies into the activation directory and
      whose command spells a Lisa binary is started through a landed unit, or it is listed as debt. */
  lemma {:induction false} ShippedRecordIsSandboxed(r: Repository, p: EgressGate.Policy, tree: EgressGate.Tree,
                                                    n: nat, nodes: seq<Node>, c: nat, argv: seq<string>, line: nat,
                                                    word: string, src: string, b: string)
    requires Clean(r, p, tree) && RunsIn(r, n, nodes, c, argv, line) && EgressGate.OwnReader(tree)
    requires CopiesRecord(r.sources[n].w, argv, word) && src in r.sources[n].w.resolve(word)
    requires EgressGate.StartsBinary(tree.read(src), b)
    ensures EgressGate.ThroughLanding(p, tree, AllLandings(r), src)
  {
    var w, origin := r.sources[n].w, r.sources[n].origin(line);
    var all := Total(Accounts(r, r.sources)).effect;
    CommandWithin(r, p, tree, n, nodes, c, argv, line);
    RecordActivates(w, ActivationSources(SplitOpts(w, argv[1..], false)), origin, word, src);
    assert (src, origin) in all.activations;
    var i :| 0 <= i < |all.activations| && all.activations[i] == (src, origin);
    EgressGate.NoUnsandboxedActivation(p, tree, AllLandings(r), all.activations,
                                       Total(Accounts(r, r.sources)).findings + Listed(BakedEffects(r.images,
                                             r.baked).errors), i, b);
  }

  lemma {:induction false} RecordActivates(w: World, words: seq<string>, origin: string, word: string, src: string)
    requires word in words && src in w.resolve(word)
    requires !ActivationEffect(w, words, origin).Crash? && ActivationEffect(w, words, origin).errors == []
    ensures (src, origin) in ActivationEffect(w, words, origin).activations
  {
    NeverCrashes(w, words[1..], origin);
    if word == words[0] {
      var k :| 0 <= k < |w.resolve(word)| && w.resolve(word)[k] == src;
      assert Activations(w.resolve(word), origin)[k] == (src, origin);
    } else {
      RecordActivates(w, words[1..], origin, word, src);
    }
  }

  lemma {:induction false} BakedWithin(w: World, files: seq<Baked>, n: nat)
    requires n < |files| && BakedEffects(w, files).errors == []
    ensures Within(BakedEffect(w, files[n]), BakedEffects(w, files))
  {
    if n < |files| - 1 {
      BakedWithin(w, files[..|files| - 1], n);
    }
  }

  // The path of the file is a place in a systemd directory.
  predicate Somewhere(w: World, f: Baked) {
    w.lands("/" + f.rel).Some? && !w.shape(w.lands("/" + f.rel).value.rel).Nowhere?
  }

  // The landing `l` is the file at that place.
  ghost predicate BakedAs(w: World, f: Baked, l: Landing)
    requires Somewhere(w, f)
  {
    var d := w.lands("/" + f.rel).value;
    l.src == Some(f.src) && l.scope == d.scope && w.shape(d.rel) == Known(l.kind, l.unit, l.rel)
  }

  lemma {:induction false} BakedLands(w: World, f: Baked) returns (l: Landing)
    requires Somewhere(w, f) && !BakedEffect(w, f).Crash? && BakedEffect(w, f).errors == []
    ensures l in BakedEffect(w, f).landings && BakedAs(w, f, l)
  {
    l := BakedEffect(w, f).landings[0];
  }

  /** A file baked into an image tree at a place in a systemd directory is under the same law. */
  lemma {:induction false} BakedUnitIsJudged(r: Repository, p: EgressGate.Policy, tree: EgressGate.Tree, n: nat)
    requires Clean(r, p, tree) && n < |r.baked| && Somewhere(r.images, r.baked[n])
    ensures exists l :: BakedAs(r.images, r.baked[n], l) && l in AllLandings(r) && JudgedIfUnit(r, p, tree, l)
  {
    BakedWithin(r.images, r.baked, n);
    var l := BakedLands(r.images, r.baked[n]);
    LandingJudged(r, p, tree, l);
  }
}
