/** The word-level readers of the installer check (os/repo-tools/check-egress-units.py): the systemd
    destination pattern, the shapes a landing may have, and the tables of commands and options.

    They are the gate's own choice of the functions Installs.dfy is parametric in; `VanishesExactly`
    says which destinations leave no record. */
module Destinations {
  import opened Common
  import opened Text
  import opened Installs

  // ------------------------------------------------------- paths

  function Components(p: string, cur: string): seq<string>
    decreases |p|
  {
    if p == "" then [cur]
    else if p[0] == '/' then [cur] + Components(p[1..], "")
    else Components(p[1..], cur + [p[0]])
  }

  // `Path(p).name`.
  function BaseName(p: string): string {
    LastName(Components(p, ""))
  }

  function LastName(parts: seq<string>): (n: string)
    ensures n == "" || n in parts
  {
    if parts == [] then ""
    else
      var last := parts[|parts| - 1];
      if last == "" || last == "." then LastName(parts[..|parts| - 1]) else last
  }

  // `s.strip("/")` in two halves.
  function TrimFront(s: string): (r: string)
    ensures r == "" || r[0] != '/'
    ensures r == "" <==> forall i | 0 <= i < |s| :: s[i] == '/'
  {
    if s != "" && s[0] == '/' then
      assert forall i | 1 <= i < |s| :: s[i] == s[1..][i - 1];
      TrimFront(s[1..])
    else s
  }

  function TrimBack(s: string): (r: string)
    ensures r <= s
    ensures s != "" && s[0] != '/' ==> r != ""
  {
    if s != "" && s[|s| - 1] == '/' then TrimBack(s[..|s| - 1]) else s
  }

  function Trim(s: string): (r: string)
    ensures r == "" <==> forall i | 0 <= i < |s| :: s[i] == '/'
  {
    TrimBack(TrimFront(s))
  }

  function InsideOf(dir: string, name: string): string {
    TrimBack(dir) + "/" + name
  }

  // ------------------------------------------------------- the destination pattern

  const ROOTS := ["etc", "run", "lib", "usr/lib", "usr/local/lib"]
  const SCOPES := ["system", "user"]

  // A systemd directory named at the very front of `s`.
  function Rooted(s: string, root: string, scope: string): Option<Destination> {
    var dir := root + "/systemd/" + scope;
    if s == dir then Some(Destination(scope, ""))
    else if StartsWith(s, dir + "/") then Some(Destination(scope, s[|dir| + 1..]))
    else None
  }

  function FirstOf(a: Option<Destination>, b: Option<Destination>): Option<Destination> {
    if a.Some? then a else b
  }

  function AnyScope(s: string, root: string, scopes: seq<string>): Option<Destination> {
    if scopes == [] then None else FirstOf(Rooted(s, root, scopes[0]), AnyScope(s, root, scopes[1..]))
  }

  function AnyRoot(s: string, roots: seq<string>): Option<Destination> {
    if roots == [] then None else FirstOf(AnyScope(s, roots[0], SCOPES), AnyRoot(s, roots[1..]))
  }

  // The leftmost match: at the front of the path, or right after a slash.
  function AfterSlash(s: string): Option<Destination> {
    if s == "" then None
    else FirstOf(if s[0] == '/' then AnyRoot(s[1..], ROOTS) else None, AfterSlash(s[1..]))
  }

  function SystemdDest(s: string): Option<Destination> {
    FirstOf(AnyRoot(s, ROOTS), AfterSlash(s))
  }

  // `s.replace(what, "")`.
  function Without(s: string, what: string): string
    requires what != ""
    decreases |s|
  {
    if s == "" then ""
    else if StartsWith(s, what) then Without(s[|what|..], what)
    else [s[0]] + Without(s[1..], what)
  }

  function LandsIn(dest: string): Option<Destination> {
    SystemdDest(Without(dest, "%PKGDIR%"))
  }

  // ------------------------------------------------------- shapes

  predicate EndsLonger(s: string, suffix: string) {
    |s| > |suffix| && EndsWith(s, suffix)
  }

  predicate EndsInAny(s: string, suffixes: seq<string>) {
    suffixes != [] && (EndsWith(s, suffixes[0]) || EndsInAny(s, suffixes[1..]))
  }

  // Longer than the suffix it ends in.
  predicate NamedWithAny(s: string, suffixes: seq<string>) {
    suffixes != [] && (EndsLonger(s, suffixes[0]) || NamedWithAny(s, suffixes[1..]))
  }

  const WANTS_DIRS := [".target.wants", ".service.wants", ".socket.wants", ".timer.wants", ".path.wants",
                       ".target.requires", ".service.requires", ".socket.requires", ".timer.requires", ".path.requires"]

  const UNIT_SUFFIXES := [".service", ".socket", ".timer", ".target", ".path", ".mount", ".automount", ".swap",
                          ".slice", ".scope", ".device"]

  // The shape of a path of one component, and of one of two.
  function OneShape(at: string): Shape {
    if EndsLonger(at, ".service") then Known(UnitFile, at, at)
    else if EndsInAny(at, UNIT_SUFFIXES) then Known(OtherUnit, at, at)
    else Unmodelled(at)
  }

  function TwoShape(dir: string, file: string, at: string): Shape {
    if EndsLonger(dir, ".service.d") && EndsLonger(file, ".conf") then Known(DropInFile, dir[..|dir| - 2], at)
    else if NamedWithAny(dir, WANTS_DIRS) && file != "" then Known(Wants, BaseName(at), at)
    else Unmodelled(at)
  }

  function ShapeOf(rel: string): Shape {
    var at := Trim(rel);
    if at == "" then Nowhere
    else
      var parts := Components(at, "");
      if |parts| == 1 then OneShape(at)
      else if |parts| == 2 then TwoShape(parts[0], parts[1], at)
      else Unmodelled(at)
  }

  // ------------------------------------------------------- the gate's world

  function RoleOf(head: string): Role {
    if head == "install" then Install
    else if head == "cp" || head == "rsync" then Copy
    else if head == "ln" then Link
    else if head == "mkdir" then MakeDirectory
    else Unknown
  }

  predicate IsOption(tok: string) {
    StartsWith(tok, "-") && tok != "-"
  }

  predicate SwallowsNext(tok: string) {
    tok in {"-t", "--target-directory", "-m", "--mode", "-o", "--owner", "-g", "--group", "-S", "--suffix",
            "-Z", "--context", "--backup"}
  }

  predicate NamesSystemd(tok: string) {
    Contains(tok, "systemd/system") || Contains(tok, "systemd/user")
  }

  predicate NamesDbus(tok: string) {
    Contains(tok, "dbus-1/services")
  }

  predicate HoldsExpansion(word: string) {
    '$' in word || Contains(word, "%SRCDIR%") || Contains(word, "%STARTDIR%")
  }

  predicate EndsInSlash(dest: string) {
    dest != "" && dest[|dest| - 1] == '/'
  }

  function Gate(resolve: string -> seq<string>): World {
    World(resolve, BaseName, RoleOf, NamesSystemd, NamesDbus, IsOption, SwallowsNext, HoldsExpansion, LandsIn,
          EndsInSlash, ShapeOf, InsideOf)
  }

  /** An option is a dash and something behind it. */
  lemma OptionIs(tok: string)
    ensures IsOption(tok) <==> |tok| > 1 && tok[0] == '-'
  {
    assert tok != "" ==> tok[..1] == [tok[0]];
  }

  /** What a word must hold to name a systemd directory, the activation directory, or nothing certain. */
  lemma MarkersAre(tok: string)
    ensures NamesSystemd(tok) <==> exists k :: At(tok, "systemd/system", k) || At(tok, "systemd/user", k)
    ensures NamesDbus(tok) <==> exists k :: At(tok, "dbus-1/services", k)
    ensures HoldsExpansion(tok) <==> '$' in tok || exists k :: At(tok, "%SRCDIR%", k) || At(tok, "%STARTDIR%", k)
  {
    Found(tok, "systemd/system");
    Found(tok, "systemd/user");
    Found(tok, "dbus-1/services");
    Found(tok, "%SRCDIR%");
    Found(tok, "%STARTDIR%");
  }

  lemma Found(s: string, p: string)
    ensures Contains(s, p) <==> exists k :: At(s, p, k)
  {
    if k :| At(s, p, k) { assert 0 <= k <= |s|; }
  }

  /** What the gate takes a command for, by the name it is called: three copy, one links, one makes
      directories, and every other is unknown. */
  lemma RolesAre(head: string)
    ensures Copies(RoleOf(head)) <==> head in {"install", "cp", "rsync"}
    ensures RoleOf(head).Link? <==> head == "ln"
    ensures RoleOf(head).MakeDirectory? <==> head == "mkdir"
    ensures RoleOf(head).Install? <==> head == "install"
  {}

  // ------------------------------------------------------- facts the account rests on

  lemma {:induction false} ComponentsPlain(p: string, cur: string)
    requires '/' !in cur
    ensures forall c | c in Components(p, cur) :: '/' !in c
    decreases |p|
  {
    if p == "" {
    } else if p[0] == '/' {
      ComponentsPlain(p[1..], "");
    } else {
      ComponentsPlain(p[1..], cur + [p[0]]);
    }
  }

  lemma BaseNamePlain(p: string)
    ensures '/' !in BaseName(p)
  {
    ComponentsPlain(p, "");
  }

  /** Files with a name always land somewhere when they are put into a directory, so the account of
      Installs.CopyAccount holds of the gate's own word readers. */
  lemma GateFoldersHold(resolve: string -> seq<string>)
    requires forall word, src :: src in resolve(word) ==> BaseName(src) != ""
    ensures FoldersHold(Gate(resolve))
  {
    var w := Gate(resolve);
    forall rel, word, src | src in w.resolve(word) ensures !w.shape(w.inside(rel, w.name(src))).Nowhere? {
      assert BaseName(src) != "";
      InsideSomewhere(rel, src);
    }
  }

  lemma InsideSomewhere(rel: string, src: string)
    requires BaseName(src) != ""
    ensures !ShapeOf(InsideOf(rel, BaseName(src))).Nowhere?
  {
    BaseNamePlain(src);
    var name, path := BaseName(src), InsideOf(rel, BaseName(src));
    assert path[|path| - |name|] == name[0] && name[0] in name;
  }

  /** The one way a resolved source leaves no record: a destination that is nothing but slashes
      below the systemd directory, read as a file. */
  lemma VanishesExactly(resolve: string -> seq<string>, d: Destination, folder: bool)
    ensures Vanishes(Gate(resolve), d, folder) <==> !folder && forall i | 0 <= i < |d.rel| :: d.rel[i] == '/'
  {}

  lemma SlashInFront(root: string, scope: string, rel: string)
    ensures var path := root + "/systemd/" + scope + "/" + rel;
            "/" + root + "/systemd/" + scope + "/" + rel == "/" + path && ("/" + path)[0] == '/'
                && ("/" + path)[1..] == path
  {}

  /** The pattern reads an absolute destination as the directory it names and the path below it. */
  lemma DestinationRoundTrip(root: string, scope: string, rel: string)
    requires root in ROOTS && scope in SCOPES
    ensures SystemdDest("/" + root + "/systemd/" + scope + "/" + rel) == Some(Destination(scope, rel))
  {
    var path := root + "/systemd/" + scope + "/" + rel;
    SlashInFront(root, scope, rel);
    NoRootAtSlash("/" + path, ROOTS);
    RightRoot(root, scope, rel);
  }

  lemma {:induction false} NoRootAtSlash(s: string, roots: seq<string>)
    requires s != "" && s[0] == '/'
    requires forall i | 0 <= i < |roots| :: roots[i] != "" && roots[i][0] != '/'
    ensures AnyRoot(s, roots) == None
  {
    if roots != [] {
      forall scope ensures Rooted(s, roots[0], scope) == None {
        assert (roots[0] + "/systemd/" + scope)[0] == roots[0][0];
      }
      NoScope(s, roots[0], SCOPES);
      NoRootAtSlash(s, roots[1..]);
    }
  }

  // Two roots never stand at the front of one path.
  lemma WrongRoot(root: string, other: string, rest: string, scope: string)
    requires root in ROOTS && other in ROOTS && root != other
    ensures Rooted(root + "/systemd/" + rest, other, scope) == None
  {
    var s, dir := root + "/systemd/" + rest, other + "/systemd/" + scope;
    var k := if root[0] != other[0] then 0 else 5;
    assert s[k] == (root + "/systemd/")[k] && dir[k] == (other + "/systemd/")[k];
    assert (dir + "/")[k] == dir[k];
  }

  lemma WrongScope(root: string, scope: string, other: string, rest: string)
    requires scope in SCOPES && other in SCOPES && scope != other
    ensures Rooted(root + "/systemd/" + (scope + rest), root, other) == None
  {
    var s, dir := root + "/systemd/" + (scope + rest), root + "/systemd/" + other;
    var k := |root + "/systemd/"|;
    assert s[k] == scope[0] && dir[k] == other[0] && (dir + "/")[k] == dir[k];
  }

  lemma RightScope(root: string, scope: string, rel: string)
    ensures Rooted(root + "/systemd/" + scope + "/" + rel, root, scope) == Some(Destination(scope, rel))
  {
    var dir := root + "/systemd/" + scope;
    var s := dir + "/" + rel;
    assert s[..|dir| + 1] == dir + "/" && s[|dir| + 1..] == rel;
  }

  lemma RightRoot(root: string, scope: string, rel: string)
    requires root in ROOTS && scope in SCOPES
    ensures AnyRoot(root + "/systemd/" + scope + "/" + rel, ROOTS) == Some(Destination(scope, rel))
  {
    RightScope(root, scope, rel);
    assert root + "/systemd/" + scope + "/" + rel == root + "/systemd/" + (scope + ("/" + rel));
    RootChosen(root, scope, "/" + rel, Destination(scope, rel));
  }

  // The one root and the one scope at the front of a path are found.
  lemma RootChosen(root: string, scope: string, rest: string, d: Destination)
    requires root in ROOTS && scope in SCOPES
    requires Rooted(root + "/systemd/" + (scope + rest), root, scope) == Some(d)
    ensures AnyRoot(root + "/systemd/" + (scope + rest), ROOTS) == Some(d)
  {
    var path := root + "/systemd/" + (scope + rest);
    forall other | other in SCOPES && other != scope ensures Rooted(path, root, other) == None {
      WrongScope(root, scope, other, rest);
    }
    ScopesOf(path, root, scope, d, SCOPES);
    forall other, where | other in ROOTS && other != root ensures Rooted(path, other, where) == None {
      WrongRoot(root, other, scope + rest, where);
    }
    RootsOf(path, root, d, ROOTS);
  }

  lemma {:induction false} ScopesOf(s: string, root: string, scope: string, d: Destination, scopes: seq<string>)
    requires scope in scopes && Rooted(s, root, scope) == Some(d)
    requires forall other | other in scopes && other != scope :: Rooted(s, root, other) == None
    ensures AnyScope(s, root, scopes) == Some(d)
  {
    if scopes[0] != scope {
      assert forall other | other in scopes[1..] :: other in scopes;
      ScopesOf(s, root, scope, d, scopes[1..]);
    }
  }

  lemma {:induction false} RootsOf(s: string, root: string, d: Destination, roots: seq<string>)
    requires root in roots && AnyScope(s, root, SCOPES) == Some(d)
    requires forall other, scope | other in roots && other != root :: Rooted(s, other, scope) == None
    ensures AnyRoot(s, roots) == Some(d)
  {
    if roots[0] != root {
      NoScope(s, roots[0], SCOPES);
      assert forall other | other in roots[1..] :: other in roots;
      RootsOf(s, root, d, roots[1..]);
    }
  }

  lemma {:induction false} NoScope(s: string, root: string, scopes: seq<string>)
    requires forall scope :: Rooted(s, root, scope) == None
    ensures AnyScope(s, root, scopes) == None
  {
    if scopes != [] {
      NoScope(s, root, scopes[1..]);
    }
  }

  // A systemd directory at the front of `s`, and the path below it.
  ghost predicate Names(s: string, d: Destination) {
    exists root | root in ROOTS ::
      d.scope in SCOPES
      && (s == root + "/systemd/" + (d.scope + ("/" + d.rel)) || (s == root + "/systemd/" + d.scope && d.rel == ""))
  }

  lemma RootedNames(s: string, root: string, scope: string, d: Destination)
    requires root in ROOTS && scope in SCOPES && Rooted(s, root, scope) == Some(d)
    ensures Names(s, d)
  {
    var dir := root + "/systemd/" + scope;
    if s != dir {
      assert s == dir + "/" + d.rel;
      assert s == root + "/systemd/" + (d.scope + ("/" + d.rel));
    }
  }

  lemma {:induction false} ScopeFound(s: string, root: string, scopes: seq<string>, d: Destination)
    requires root in ROOTS && AnyScope(s, root, scopes) == Some(d) && forall x | x in scopes :: x in SCOPES
    ensures Names(s, d)
  {
    if Rooted(s, root, scopes[0]).Some? {
      RootedNames(s, root, scopes[0], d);
    } else {
      ScopeFound(s, root, scopes[1..], d);
    }
  }

  lemma {:induction false} RootFound(s: string, roots: seq<string>, d: Destination)
    requires AnyRoot(s, roots) == Some(d) && forall x | x in roots :: x in ROOTS
    ensures Names(s, d)
  {
    if AnyScope(s, roots[0], SCOPES).Some? {
      ScopeFound(s, roots[0], SCOPES, d);
    } else {
      RootFound(s, roots[1..], d);
    }
  }

  lemma RootExactly(s: string, d: Destination)
    ensures AnyRoot(s, ROOTS) == Some(d) <==> Names(s, d)
  {
    if AnyRoot(s, ROOTS) == Some(d) { RootFound(s, ROOTS, d); }
    if Names(s, d) { NamesFound(s, d); }
  }

  lemma NamesFound(s: string, d: Destination)
    requires Names(s, d)
    ensures AnyRoot(s, ROOTS) == Some(d)
  {
    var root :| root in ROOTS && d.scope in SCOPES
      && (s == root + "/systemd/" + (d.scope + ("/" + d.rel)) || (s == root + "/systemd/" + d.scope && d.rel == ""));
    if s == root + "/systemd/" + d.scope && d.rel == "" {
      BareNamed(root, d.scope);
    } else {
      RightRoot(root, d.scope, d.rel);
      Spelled(root, d.scope, d.rel);
    }
  }

  lemma Spelled(root: string, scope: string, rel: string)
    ensures root + "/systemd/" + scope + "/" + rel == root + "/systemd/" + (scope + ("/" + rel))
  {}

  lemma BareNamed(root: string, scope: string)
    requires root in ROOTS && scope in SCOPES
    ensures AnyRoot(root + "/systemd/" + scope, ROOTS) == Some(Destination(scope, ""))
  {
    assert scope + "" == scope;
    RootChosen(root, scope, "", Destination(scope, ""));
  }

  // A component of the path begins at `k`.
  predicate Begins(s: string, k: nat) {
    k <= |s| && (k == 0 || s[k - 1] == '/')
  }

  ghost predicate NamesNothing(s: string) {
    forall d :: !Names(s, d)
  }

  // The leftmost component at which a systemd directory is named.
  ghost predicate NamedAt(s: string, k: nat, d: Destination) {
    Begins(s, k) && Names(s[k..], d) && forall j | 0 <= j < k && Begins(s, j) :: NamesNothing(s[j..])
  }

  lemma NothingExactly(s: string)
    ensures NamesNothing(s) <==> AnyRoot(s, ROOTS).None?
  {
    if AnyRoot(s, ROOTS).Some? { RootExactly(s, AnyRoot(s, ROOTS).value); }
    forall d ensures Names(s, d) ==> AnyRoot(s, ROOTS).Some? { RootExactly(s, d); }
  }

  lemma {:induction false} LeftmostFound(s: string, from: nat, d: Destination)
    requires from <= |s| && forall j | 0 <= j <= from && Begins(s, j) :: NamesNothing(s[j..])
    ensures AfterSlash(s[from..]) == Some(d) <==> exists k: nat :: NamedAt(s, k, d)
    decreases |s| - from
  {
    if from < |s| {
      var rest := s[from..];
      assert rest[0] == s[from] && rest[1..] == s[from + 1..];
      NothingExactly(s[from + 1..]);
      RootExactly(s[from + 1..], d);
      if s[from] == '/' && !NamesNothing(s[from + 1..]) {
        assert Begins(s, from + 1);
        OnlyHere(s, from + 1, d);
      } else {
        LeftmostFound(s, from + 1, d);
      }
    }
  }

  lemma OnlyHere(s: string, k: nat, d: Destination)
    requires Begins(s, k) && !NamesNothing(s[k..]) && forall j | 0 <= j < k && Begins(s, j) :: NamesNothing(s[j..])
    ensures Names(s[k..], d) <==> exists i: nat :: NamedAt(s, i, d)
  {
    if Names(s[k..], d) { assert NamedAt(s, k, d); }
    if i: nat :| NamedAt(s, i, d) { NamedOnce(s, k, i, d); }
  }

  lemma NamedOnce(s: string, k: nat, i: nat, d: Destination)
    requires Begins(s, k) && !NamesNothing(s[k..]) && forall j | 0 <= j < k && Begins(s, j) :: NamesNothing(s[j..])
    requires NamedAt(s, i, d)
    ensures i == k
  {}

  /** The destination pattern, exactly: it finds the leftmost component at which a systemd directory is
      named, and nothing when none is. */
  lemma DestinationExactly(s: string, d: Destination)
    ensures SystemdDest(s) == Some(d) <==> exists k: nat :: NamedAt(s, k, d)
  {
    assert s[0..] == s;
    NothingExactly(s);
    RootExactly(s, d);
    if NamesNothing(s) { LeftmostFound(s, 0, d); } else { OnlyHere(s, 0, d); }
  }

  lemma EndsInMark(bare: string)
    ensures !EndsInSlash(bare + "%PKGDIR%")
  {
    var dest := bare + "%PKGDIR%";
    assert dest[|dest| - 1] == '%';
  }

  /** A destination that vanishes, for every systemd directory: written with the package directory
      after the slash, it does not end in one, and what is left of it is a bare slash. */
  lemma VanishingDestination(resolve: string -> seq<string>, root: string, scope: string)
    requires root in ROOTS && scope in SCOPES
    ensures var dest := "/" + root + "/systemd/" + scope + "/" + "/" + "%PKGDIR%";
            LandsIn(dest).Some? && Vanishes(Gate(resolve), LandsIn(dest).value, EndsInSlash(dest))
  {
    EndsInMark("/" + root + "/systemd/" + scope + "/" + "/");
    SlashLands(root, scope);
    VanishesExactly(resolve, Destination(scope, "/"), false);
  }

  lemma SlashLands(root: string, scope: string)
    requires root in ROOTS && scope in SCOPES
    ensures LandsIn("/" + root + "/systemd/" + scope + "/" + "/" + "%PKGDIR%") == Some(Destination(scope, "/"))
  {
    var bare := "/" + root + "/systemd/" + scope + "/" + "/";
    WithoutSuffix(bare, "%PKGDIR%");
    DestinationRoundTrip(root, scope, "/");
  }

  lemma {:induction false} WithoutSuffix(a: string, w: string)
    requires w != "" && forall i | 0 <= i < |a| :: a[i] != w[0]
    ensures Without(a + w, w) == a
  {
    if a == "" {
      assert a + w == w && w[..|w|] == w && w[|w|..] == "";
    } else {
      assert (a + w)[0] == a[0] && (a + w)[1..] == a[1..] + w;
      OtherStart(a + w, w);
      WithoutSuffix(a[1..], w);
    }
  }

  lemma OtherStart(s: string, w: string)
    requires w != "" && s != "" && s[0] != w[0]
    ensures !StartsWith(s, w)
  {}

  // ------------------------------------------------------- shapes, by how a path is spelled

  ghost predicate Stem(s: string) {
    s != "" && '/' !in s
  }

  // `STEM.service.d/FILE.conf`, a drop-in of the unit `STEM.service`.
  ghost predicate DropInPath(at: string, unit: string) {
    exists stem, file | Stem(stem) && Stem(file) ::
      unit == stem + ".service" && at == (stem + ".service.d") + "/" + (file + ".conf")
  }

  // `STEM.service`.
  ghost predicate UnitPath(at: string) {
    exists stem | Stem(stem) :: at == stem + ".service"
  }

  // `STEM.KIND.wants/FILE` or `STEM.KIND.requires/FILE`.
  ghost predicate WantsPath(at: string) {
    exists dir, file | WantsDir(dir) && Stem(file) :: at == dir + "/" + file
  }

  ghost predicate WantsDir(dir: string) {
    exists stem, suffix | Stem(stem) && suffix in WANTS_DIRS :: dir == stem + suffix
  }

  // A name ending in a unit suffix, `.service` on its own included.
  ghost predicate OtherUnitPath(at: string) {
    '/' !in at && !UnitPath(at) && exists suffix | suffix in UNIT_SUFFIXES :: EndsWith(at, suffix)
  }

  lemma {:induction false} ComponentsAt(a: string, b: string, cur: string)
    requires '/' !in a
    ensures Components(a + "/" + b, cur) == [cur + a] + Components(b, "")
    ensures Components(a, cur) == [cur + a]
    decreases |a|
  {
    var s := a + "/" + b;
    if a == "" {
      assert s[0] == '/' && s[1..] == b && cur + a == cur;
    } else {
      assert s[0] == a[0] && s[1..] == a[1..] + "/" + b;
      ComponentsAt(a[1..], b, cur + [a[0]]);
      assert cur + [a[0]] + a[1..] == cur + a;
    }
  }

  lemma {:induction false} ComponentsSpell(p: string, cur: string)
    ensures Components(p, cur) != [] && Join("/", Components(p, cur)) == cur + p
    decreases |p|
  {
    if p == "" {
      assert cur + p == cur;
    } else if p[0] == '/' {
      ComponentsSpell(p[1..], "");
      var rest := Components(p[1..], "");
      assert ([cur] + rest)[1..] == rest;
      assert cur + "/" + ("" + p[1..]) == cur + p;
    } else {
      ComponentsSpell(p[1..], cur + [p[0]]);
      assert cur + [p[0]] + p[1..] == cur + p;
    }
  }

  lemma ComponentsTwo(at: string)
    ensures var parts := Components(at, "");
            (|parts| == 1 ==> at == parts[0] && '/' !in at)
            && (|parts| == 2 ==> at == parts[0] + "/" + parts[1] && '/' !in parts[0] && '/' !in parts[1])
  {
    ComponentsSpell(at, "");
    ComponentsPlain(at, "");
    assert "" + at == at;
  }

  lemma TwoParts(dir: string, file: string, at: string)
    requires '/' !in dir && '/' !in file && at == dir + "/" + file
    ensures Components(at, "") == [dir, file]
  {
    ComponentsAt(dir, file, "");
    ComponentsAt(file, "", "");
    assert "" + dir == dir && "" + file == file;
  }

  lemma OnePart(at: string)
    requires '/' !in at
    ensures Components(at, "") == [at]
  {
    ComponentsAt(at, "", "");
    assert "" + at == at;
  }

  lemma EndsLongerIs(s: string, suffix: string)
    ensures EndsLonger(s, suffix) ==> s == s[..|s| - |suffix|] + suffix && s[..|s| - |suffix|] != ""
  {
    if EndsLonger(s, suffix) { assert s == s[..|s| - |suffix|] + s[|s| - |suffix|..]; }
  }

  lemma LongerEnds(stem: string, suffix: string)
    requires stem != ""
    ensures EndsLonger(stem + suffix, suffix)
  {
    assert (stem + suffix)[|stem|..] == suffix;
  }

  lemma {:induction false} NamedExactly(s: string, suffixes: seq<string>)
    ensures NamedWithAny(s, suffixes) <==> exists suffix | suffix in suffixes :: EndsLonger(s, suffix)
  {
    if suffixes != [] {
      NamedExactly(s, suffixes[1..]);
      assert forall suffix :: suffix in suffixes <==> suffix == suffixes[0] || suffix in suffixes[1..];
    }
  }

  lemma {:induction false} EndsExactly(s: string, suffixes: seq<string>)
    ensures EndsInAny(s, suffixes) <==> exists suffix | suffix in suffixes :: EndsWith(s, suffix)
  {
    if suffixes != [] {
      EndsExactly(s, suffixes[1..]);
      assert forall suffix :: suffix in suffixes <==> suffix == suffixes[0] || suffix in suffixes[1..];
    }
  }

  lemma StemOf(s: string, suffix: string)
    requires EndsLonger(s, suffix) && '/' !in s
    ensures Stem(s[..|s| - |suffix|]) && s == s[..|s| - |suffix|] + suffix
  {
    EndsLongerIs(s, suffix);
  }

  lemma WantsDirExactly(dir: string)
    requires '/' !in dir
    ensures NamedWithAny(dir, WANTS_DIRS) <==> WantsDir(dir)
  {
    NamedExactly(dir, WANTS_DIRS);
    if suffix :| suffix in WANTS_DIRS && EndsLonger(dir, suffix) { StemOf(dir, suffix); }
    if stem, suffix :| Stem(stem) && suffix in WANTS_DIRS && dir == stem + suffix { LongerEnds(stem, suffix); }
  }

  lemma UnitPathExactly(at: string)
    ensures UnitPath(at) <==> '/' !in at && EndsLonger(at, ".service")
  {
    if '/' !in at && EndsLonger(at, ".service") { StemOf(at, ".service"); }
    if stem :| Stem(stem) && at == stem + ".service" { LongerEnds(stem, ".service"); }
  }

  // A path of one component.
  lemma OneExactly(at: string)
    requires '/' !in at && at != ""
    ensures OneShape(at) == if UnitPath(at) then Known(UnitFile, at, at)
                            else if OtherUnitPath(at) then Known(OtherUnit, at, at) else Unmodelled(at)
  {
    UnitPathExactly(at);
    EndsExactly(at, UNIT_SUFFIXES);
  }

  ghost predicate DropInParts(dir: string, file: string) {
    EndsLonger(dir, ".service.d") && EndsLonger(file, ".conf")
  }

  lemma DropInExactly(dir: string, file: string, at: string, unit: string)
    requires '/' !in dir && '/' !in file && at == dir + "/" + file
    ensures DropInPath(at, unit) <==> DropInParts(dir, file) && unit == dir[..|dir| - 2]
  {
    if DropInParts(dir, file) && unit == dir[..|dir| - 2] {
      StemOf(dir, ".service.d");
      StemOf(file, ".conf");
      var stem := dir[..|dir| - 10];
      assert (stem + ".service.d")[..|dir| - 2] == stem + ".service";
    }
    if DropInPath(at, unit) { DropInBack(dir, file, at, unit); }
  }

  lemma DropInBack(dir: string, file: string, at: string, unit: string)
    requires '/' !in dir && '/' !in file && at == dir + "/" + file && DropInPath(at, unit)
    ensures DropInParts(dir, file) && unit == dir[..|dir| - 2]
  {
    var stem, name :| Stem(stem) && Stem(name)
                      && unit == stem + ".service" && at == (stem + ".service.d") + "/" + (name + ".conf");
    TwoParts(dir, file, at);
    TwoParts(stem + ".service.d", name + ".conf", at);
    assert [dir, file] == [stem + ".service.d", name + ".conf"];
    assert dir == [dir, file][0] == stem + ".service.d" && file == [dir, file][1] == name + ".conf";
    LongerEnds(stem, ".service.d");
    LongerEnds(name, ".conf");
    assert (stem + ".service.d")[..|dir| - 2] == stem + ".service";
  }

  lemma WantsExactly(dir: string, file: string, at: string)
    requires '/' !in dir && '/' !in file && at == dir + "/" + file
    ensures WantsPath(at) <==> NamedWithAny(dir, WANTS_DIRS) && file != ""
  {
    WantsDirExactly(dir);
    if WantsPath(at) { WantsBack(dir, file, at); }
    if WantsDir(dir) && file != "" { assert Stem(file); }
  }

  lemma WantsBack(dir: string, file: string, at: string)
    requires '/' !in dir && '/' !in file && at == dir + "/" + file && WantsPath(at)
    ensures WantsDir(dir) && file != ""
  {
    var d, f :| WantsDir(d) && Stem(f) && at == d + "/" + f;
    WantsDirPlain(d);
    TwoParts(dir, file, at);
    TwoParts(d, f, at);
    assert dir == [dir, file][0] == [d, f][0] && file == [dir, file][1] == [d, f][1];
  }

  lemma WantsDirPlain(d: string)
    requires WantsDir(d)
    ensures '/' !in d && d[|d| - 1] == 's'
  {
    var stem, suffix :| Stem(stem) && suffix in WANTS_DIRS && d == stem + suffix;
    assert '/' !in suffix && suffix[|suffix| - 1] == 's';
  }

  // A drop-in or wants path has two components, so a path of any other number is neither.
  lemma TwoOnly(at: string, unit: string)
    requires DropInPath(at, unit) || WantsPath(at)
    ensures |Components(at, "")| == 2 && at != ""
  {
    if DropInPath(at, unit) {
      var stem, file :| Stem(stem) && Stem(file)
                        && unit == stem + ".service" && at == (stem + ".service.d") + "/" + (file + ".conf");
      TwoParts(stem + ".service.d", file + ".conf", at);
    } else {
      var dir, file :| WantsDir(dir) && Stem(file) && at == dir + "/" + file;
      WantsDirPlain(dir);
      TwoParts(dir, file, at);
    }
  }

  lemma OneOnly(at: string)
    requires '/' !in at
    ensures Components(at, "") == [at] && !WantsPath(at) && forall unit :: !DropInPath(at, unit)
  {
    OnePart(at);
    forall unit ensures !DropInPath(at, unit) { if DropInPath(at, unit) { TwoOnly(at, unit); assert false; } }
    if WantsPath(at) { TwoOnly(at, ""); assert false; }
  }

  lemma TwoExactly(dir: string, file: string, at: string, unit: string)
    requires '/' !in dir && '/' !in file && at == dir + "/" + file
    ensures var shape := TwoShape(dir, file, at);
            (shape == Known(DropInFile, unit, at) <==> DropInPath(at, unit))
            && (shape == Known(Wants, unit, at) <==> WantsPath(at) && unit == BaseName(at))
            && (shape.Known? ==> (shape.kind.DropInFile? || shape.kind.Wants?) && shape.at == at)
            && (shape.Unmodelled? ==> shape.at == at) && !shape.Nowhere?
  {
    DropInExactly(dir, file, at, unit);
    WantsExactly(dir, file, at);
    WantsDirExactly(dir);
    if WantsDir(dir) { WantsDirPlain(dir); NoDropInDir(dir); }
  }

  lemma NoDropInDir(dir: string)
    requires dir != "" && dir[|dir| - 1] == 's'
    ensures !EndsLonger(dir, ".service.d")
  {}

  // The four kinds a path can have, and no fifth.
  ghost predicate ShapeIs(shape: Shape, at: string, unit: string) {
    (shape == Known(DropInFile, unit, at) <==> DropInPath(at, unit))
    && (shape == Known(UnitFile, unit, at) <==> UnitPath(at) && unit == at)
    && (shape == Known(OtherUnit, unit, at) <==> OtherUnitPath(at) && unit == at)
    && (shape == Known(Wants, unit, at) <==> WantsPath(at) && unit == BaseName(at))
    && (shape.Known? ==> shape.at == at) && (shape.Unmodelled? ==> shape.at == at)
  }

  lemma OneIs(at: string, unit: string)
    requires '/' !in at && at != ""
    ensures ShapeIs(OneShape(at), at, unit)
  {
    OneExactly(at);
    OneOnly(at);
  }

  lemma SlashedNoUnit(at: string)
    requires '/' in at
    ensures !UnitPath(at) && !OtherUnitPath(at)
  {}

  lemma TwoIs(dir: string, file: string, at: string, unit: string)
    requires '/' !in dir && '/' !in file && at == dir + "/" + file
    ensures ShapeIs(TwoShape(dir, file, at), at, unit)
  {
    assert at[|dir|] == '/';
    SlashedNoUnit(at);
    TwoExactly(dir, file, at, unit);
  }

  lemma ManyIs(at: string, unit: string)
    requires |Components(at, "")| > 2
    ensures ShapeIs(Unmodelled(at), at, unit)
  {
    if DropInPath(at, unit) || WantsPath(at) { TwoOnly(at, unit); assert false; }
    if '/' !in at { OnePart(at); assert false; }
    SlashedNoUnit(at);
  }

  /** What a path below a systemd directory is, by how it is spelled, each kind exactly. */
  lemma ShapeExactly(rel: string, unit: string)
    ensures var at := Trim(rel);
            if at == "" then ShapeOf(rel) == Nowhere else !ShapeOf(rel).Nowhere? && ShapeIs(ShapeOf(rel), at, unit)
  {
    var at := Trim(rel);
    var parts := Components(at, "");
    ComponentsTwo(at);
    ComponentsSpell(at, "");
    if at != "" {
      if |parts| == 1 {
        OneIs(at, unit);
      } else if |parts| == 2 {
        TwoIs(parts[0], parts[1], at, unit);
        TwoExactly(parts[0], parts[1], at, unit);
      } else {
        ManyIs(at, unit);
      }
    }
  }

  lemma {:induction false} TrimFrontKeeps(s: string)
    ensures var r := TrimFront(s);
            |r| <= |s| && s == s[..|s| - |r|] + r && forall i | 0 <= i < |s| - |r| :: s[i] == '/'
  {
    if s != "" && s[0] == '/' {
      TrimFrontKeeps(s[1..]);
      assert forall i | 1 <= i < |s| :: s[i] == s[1..][i - 1];
    }
  }

  lemma {:induction false} TrimBackKeeps(s: string)
    ensures var r := TrimBack(s);
            (r == "" || r[|r| - 1] != '/') && forall i | |r| <= i < |s| :: s[i] == '/'
  {
    if s != "" && s[|s| - 1] == '/' { TrimBackKeeps(s[..|s| - 1]); }
  }

  /** Trimming takes slashes off both ends, all of them and nothing else. */
  lemma TrimKeeps(s: string) returns (front: string, back: string)
    ensures s == front + Trim(s) + back
    ensures forall i | 0 <= i < |front| :: front[i] == '/'
    ensures forall i | 0 <= i < |back| :: back[i] == '/'
    ensures var r := Trim(s); r == "" || (r[0] != '/' && r[|r| - 1] != '/')
  {
    var half := TrimFront(s);
    TrimFrontKeeps(s);
    back := TrimEnd(half, Trim(s));
    front := s[..|s| - |half|];
    Regroup(front, Trim(s), back);
  }

  lemma TrimEnd(half: string, r: string) returns (back: string)
    requires r == TrimBack(half) && (half == "" || half[0] != '/')
    ensures half == r + back && forall i | 0 <= i < |back| :: back[i] == '/'
    ensures r == "" || (r[0] != '/' && r[|r| - 1] != '/')
  {
    TrimBackKeeps(half);
    back := half[|r|..];
  }

  lemma TrimmedAlready(s: string)
    requires s != "" && s[0] != '/' && s[|s| - 1] != '/'
    ensures Trim(s) == s
  {}

  lemma {:induction false} ComponentsLast(dir: string, name: string, cur: string)
    requires '/' !in name
    ensures Components(dir + "/" + name, cur) == Components(dir, cur) + [name]
    decreases |dir|
  {
    var s := dir + "/" + name;
    if dir == "" {
      assert s[0] == '/' && s[1..] == name;
      OnePart(name);
    } else if dir[0] == '/' {
      assert s[0] == '/' && s[1..] == dir[1..] + "/" + name;
      ComponentsLast(dir[1..], name, "");
    } else {
      assert s[0] == dir[0] && s[1..] == dir[1..] + "/" + name;
      ComponentsLast(dir[1..], name, cur + [dir[0]]);
    }
  }

  /** The name of a file is what stands behind the last slash of its path. */
  lemma BaseNameBack(dir: string, name: string)
    requires Stem(name) && name != "."
    ensures BaseName(dir + "/" + name) == name
  {
    ComponentsLast(dir, name, "");
    var parts := Components(dir, "") + [name];
    assert parts[|parts| - 1] == name;
  }

  /** A slash or a dot at the end does not change the name of a path. */
  lemma BaseNameSkips(dir: string)
    ensures BaseName(dir + "/" + "") == BaseName(dir) && BaseName(dir + "/" + ".") == BaseName(dir)
  {
    ComponentsLast(dir, "", "");
    ComponentsLast(dir, ".", "");
    var parts := Components(dir, "");
    assert (parts + [""])[..|parts|] == parts && (parts + ["."])[..|parts|] == parts;
  }

  function DropInShape(stem: string, file: string): Shape {
    Known(DropInFile, stem + ".service", stem + ".service.d" + "/" + (file + ".conf"))
  }

  /** A file put into `STEM.service.d/` is a drop-in of `STEM.service`, if its name says so. */
  lemma DropInPlace(stem: string, file: string)
    requires Stem(stem) && Stem(file)
    ensures ShapeOf(InsideOf(stem + ".service.d" + "/", file + ".conf")) == DropInShape(stem, file)
    ensures ShapeOf(stem + ".service.d" + "/" + (file + ".conf")) == DropInShape(stem, file)
  {
    var dir := stem + ".service.d";
    var at := dir + "/" + (file + ".conf");
    TrimSlash(dir);
    assert InsideOf(dir + "/", file + ".conf") == at;
    assert at[0] == stem[0] && at[|at| - 1] == 'f';
    TrimmedAlready(at);
    assert DropInPath(at, stem + ".service");
    ShapeExactly(at, stem + ".service");
  }

  lemma TrimSlash(dir: string)
    requires dir != "" && dir[|dir| - 1] != '/'
    ensures TrimBack(dir + "/") == dir
  {
    assert (dir + "/")[..|dir|] == dir;
    assert TrimBack(dir) == dir;
  }

  /** A file put into the directory itself under a name ending in `.service` is a unit of that name. */
  lemma UnitPlace(stem: string)
    requires Stem(stem)
    ensures ShapeOf(InsideOf("", stem + ".service")) == Known(UnitFile, stem + ".service", stem + ".service")
  {
    var at := stem + ".service";
    assert InsideOf("", at) == ['/'] + at && (['/'] + at)[1..] == at;
    TrimmedAlready(at);
    assert TrimFront(['/'] + at) == TrimFront(at);
    assert UnitPath(at);
    ShapeExactly(['/'] + at, at);
  }

  lemma {:induction false} WithoutNone(s: string, what: string)
    requires what != "" && what[0] !in s
    ensures Without(s, what) == s
  {
    if s != "" {
      OtherStart(s, what);
      WithoutNone(s[1..], what);
    }
  }

  /** A destination below the package directory, written out, is in the systemd directory it names. */
  lemma PackagedDestination(root: string, scope: string, rel: string)
    requires root in ROOTS && scope in SCOPES && '%' !in rel
    ensures LandsIn("%PKGDIR%" + ("/" + root + "/systemd/" + scope + "/" + rel)) == Some(Destination(scope, rel))
  {
    var dest := "/" + root + "/systemd/" + scope + "/" + rel;
    NoPercent(root, scope, rel);
    MarkGone("%PKGDIR%", dest);
    DestinationRoundTrip(root, scope, rel);
  }

  lemma NoPercent(root: string, scope: string, rel: string)
    requires root in ROOTS && scope in SCOPES && '%' !in rel
    ensures '%' !in "/" + root + "/systemd/" + scope + "/" + rel
  {
    assert '%' !in root && '%' !in scope;
  }

  lemma MarkGone(mark: string, rest: string)
    requires mark != "" && mark[0] !in rest
    ensures Without(mark + rest, mark) == rest
  {
    assert (mark + rest)[..|mark|] == mark && (mark + rest)[|mark|..] == rest;
    WithoutNone(rest, mark);
  }
}
