/** os/repo-tools/check-package-paths.py: no two packages of an index own the same path unless a
    declared conflict keeps them apart. Package names stand as their positions in string order.

    The check inverts the listing, path to owners, and looks at pairs of owners; `CheckClean` compares
    that with the definition, pair by pair of packages. */
module PackagePaths {
  import opened Common
  import opened Text

  type Name = int
  type Pair = (Name, Name)

  // A package set, as fetched: the packages in order, each one's paths and the names it conflicts with.
  datatype Fetched = Fetched(names: seq<Name>, files: map<Name, seq<string>>, conflicts: map<Name, set<Name>>)

  const MIN_PACKAGES := 2

  // `names` lists the keys of `files`, each once.
  ghost predicate Valid(f: Fetched) {
    (forall a :: a in f.files <==> a in f.names)
    && forall i, j | 0 <= i < j < |f.names| :: f.names[i] != f.names[j]
  }

  // `path.lstrip("/")`.
  function Relative(path: string): string {
    if path != "" && path[0] == '/' then Relative(path[1..]) else path
  }

  function Relatives(paths: seq<string>): set<string> {
    if paths == [] then {} else Relatives(paths[..|paths| - 1]) + {Relative(paths[|paths| - 1])}
  }

  /** A path and the same path below the root are one path: the slashes in front go, and nothing else. */
  lemma {:induction false} RelativeIs(slashes: string, path: string)
    requires (forall i | 0 <= i < |slashes| :: slashes[i] == '/') && (path == "" || path[0] != '/')
    ensures Relative(slashes + path) == path
  {
    if slashes == "" {
      assert slashes + path == path;
    } else {
      assert (slashes + path)[0] == '/' && (slashes + path)[1..] == slashes[1..] + path;
      RelativeIs(slashes[1..], path);
    }
  }

  /** What a package owns is what its list names, each path without its slashes in front. */
  lemma {:induction false} RelativesAre(paths: seq<string>, p: string)
    ensures p in Relatives(paths) <==> exists i | 0 <= i < |paths| :: Relative(paths[i]) == p
  {
    if paths != [] {
      var n := |paths| - 1;
      RelativesAre(paths[..n], p);
      if i :| 0 <= i < |paths| && Relative(paths[i]) == p {
        if i < n { assert paths[..n][i] == paths[i]; }
      }
      if i :| 0 <= i < n && Relative(paths[..n][i]) == p { assert Relative(paths[i]) == p; }
    }
  }

  function Elems(names: seq<Name>): set<Name> {
    set a | a in names
  }

  // ------------------------------------------------------- what the check is about

  function Owned(f: Fetched, name: Name): set<string> {
    if name in f.files then Relatives(f.files[name]) else {}
  }

  predicate Names(f: Fetched, a: Name, b: Name) {
    a in f.conflicts && b in f.conflicts[a]
  }

  // A conflict declared either way.
  predicate Apart(f: Fetched, a: Name, b: Name) {
    Names(f, a, b) || Names(f, b, a)
  }

  // The paths two packages share.
  function Shared(f: Fetched, p: Pair): set<string> {
    Owned(f, p.0) * Owned(f, p.1)
  }

  ghost predicate Clean(f: Fetched) {
    |f.names| >= MIN_PACKAGES
    && (forall a | a in f.files :: f.files[a] != [])
    && forall a, b | a in f.names && b in f.names && a < b && Shared(f, (a, b)) != {} :: Apart(f, a, b)
  }

  // ------------------------------------------------------- the owner index

  // `owners`: the paths in the order they were first met, and who owns each.
  datatype Index = Index(paths: seq<string>, owners: map<string, set<Name>>)

  ghost predicate Sound(ix: Index) {
    (forall p :: p in ix.owners <==> p in ix.paths)
    && forall i, j | 0 <= i < j < |ix.paths| :: ix.paths[i] != ix.paths[j]
  }

  predicate Has(ix: Index, path: string, name: Name) {
    path in ix.owners && name in ix.owners[path]
  }

  method Own(ix: Index, path: string, name: Name) returns (more: Index)
    requires Sound(ix)
    ensures Sound(more)
    ensures forall p, a :: Has(more, p, a) <==> Has(ix, p, a) || (p == path && a == name)
  {
    if path in ix.owners {
      more := ix.(owners := ix.owners[path := ix.owners[path] + {name}]);
    } else {
      more := Index(ix.paths + [path], ix.owners[path := {name}]);
    }
  }

  method OwnAll(ix: Index, files: seq<string>, name: Name) returns (more: Index)
    requires Sound(ix)
    ensures Sound(more)
    ensures forall p, a :: Has(more, p, a) <==> Has(ix, p, a) || (p in Relatives(files) && a == name)
  {
    more := ix;
    for i := 0 to |files|
      invariant Sound(more)
      invariant forall p, a :: Has(more, p, a) <==> Has(ix, p, a) || (p in Relatives(files[..i]) && a == name)
    {
      assert files[..i + 1][..i] == files[..i];
      more := Own(more, Relative(files[i]), name);
    }
    assert files[..|files|] == files;
  }

  /** The inverted index: a path has exactly the owners whose file lists name it. */
  method Invert(f: Fetched) returns (ix: Index)
    requires Valid(f)
    ensures Sound(ix)
    ensures forall p, a :: Has(ix, p, a) <==> a in f.names && p in Owned(f, a)
  {
    ix := Index([], map[]);
    for k := 0 to |f.names|
      invariant Sound(ix)
      invariant forall p, a :: Has(ix, p, a) <==> a in f.names[..k] && p in Owned(f, a)
    {
      var name := f.names[k];
      assert name in f.names && name in f.files;
      assert f.names[..k + 1] == f.names[..k] + [name];
      ix := OwnAll(ix, f.files[name], name);
    }
  }

  // ------------------------------------------------------- collecting the overlaps

  type Table = map<Pair, seq<string>>

  // `declared` and `undeclared`.
  datatype Tables = Tables(declared: Table, undeclared: Table)

  // The list a table holds for a pair; a missing key holds none.
  function Look(t: Tables, declared: bool, p: Pair): seq<string> {
    var table := if declared then t.declared else t.undeclared;
    if p in table then table[p] else []
  }

  ghost predicate NoEmpty(t: Tables) {
    (forall p: Pair | p in t.declared :: t.declared[p] != [])
        && forall p: Pair | p in t.undeclared :: t.undeclared[p] != []
  }

  // Whether the pair's overlaps belong in the table of the declared ones, or of the others.
  predicate Belongs(f: Fetched, p: Pair, declared: bool) {
    p.0 < p.1 && Apart(f, p.0, p.1) == declared
  }

  predicate Both(ix: Index, path: string, p: Pair) {
    Has(ix, path, p.0) && Has(ix, path, p.1)
  }

  // The paths both packages of a pair own, in order.
  function Sharing(ix: Index, paths: seq<string>, p: Pair): seq<string> {
    if paths == [] then []
    else
      var before, last := Sharing(ix, paths[..|paths| - 1], p), paths[|paths| - 1];
      if Both(ix, last, p) then before + [last] else before
  }

  function Expected(f: Fetched, ix: Index, paths: seq<string>, p: Pair, declared: bool): seq<string> {
    if Belongs(f, p, declared) then Sharing(ix, paths, p) else []
  }

  ghost predicate Filled(f: Fetched, ix: Index, paths: seq<string>, t: Tables) {
    NoEmpty(t) && forall p: Pair, declared: bool :: Look(t, declared, p) == Expected(f, ix, paths, p, declared)
  }

  function Appended(list: seq<string>, path: string, really: bool): seq<string> {
    if really then list + [path] else list
  }

  // `path` was appended for the pairs of `left` and `right` that it belongs to.
  ghost predicate Grown(f: Fetched, ix: Index, path: string, was: Tables, now: Tables, left: set<Name>,
                        right: set<Name>) {
    forall p: Pair, declared: bool ::
      Look(now, declared, p)
      == Appended(Look(was, declared, p), path, p.0 in left && p.1 in right && Belongs(f, p, declared)
            && Both(ix, path, p))
  }

  // One pair of owners.
  method NotePair(f: Fetched, ix: Index, path: string, a: Name, b: Name, t: Tables) returns (now: Tables)
    requires NoEmpty(t)
    ensures NoEmpty(now) && Grown(f, ix, path, t, now, {a}, {b})
  {
    var p := (a, b);
    now := t;
    if Both(ix, path, p) && a < b {
      if Apart(f, a, b) {
        now := t.(declared := t.declared[p := Look(t, true, p) + [path]]);
      } else {
        now := t.(undeclared := t.undeclared[p := Look(t, false, p) + [path]]);
      }
    }
  }

  lemma GrownMore(f: Fetched, ix: Index, path: string, a: Tables, b: Tables, c: Tables, left: set<Name>,
                  right: set<Name>,
                  left': set<Name>, right': set<Name>)
    requires Grown(f, ix, path, a, b, left, right) && Grown(f, ix, path, b, c, left', right')
    ensures left == left' && right !! right' ==> Grown(f, ix, path, a, c, left, right + right')
    ensures right == right' && left !! left' ==> Grown(f, ix, path, a, c, left + left', right)
  {
    forall p: Pair, declared: bool
      ensures var mine := Belongs(f, p, declared) && Both(ix, path, p);
              Look(c, declared, p)
              == Appended(Appended(Look(a, declared, p), path, p.0 in left && p.1 in right && mine), path,
                    p.0 in left' && p.1 in right' && mine)
    {
      assert Look(b, declared, p)
          == Appended(Look(a, declared, p), path, p.0 in left && p.1 in right && Belongs(f, p, declared)
                && Both(ix, path, p));
    }
  }

  // The inner loop: one owner against every other.
  method PairsWith(f: Fetched, ix: Index, path: string, a: Name, t: Tables) returns (now: Tables)
    requires Valid(f) && NoEmpty(t)
    ensures NoEmpty(now) && Grown(f, ix, path, t, now, {a}, Elems(f.names))
  {
    now := t;
    for j := 0 to |f.names|
      invariant NoEmpty(now) && Grown(f, ix, path, t, now, {a}, Elems(f.names[..j]))
    {
      var b := f.names[j];
      assert f.names[..j + 1] == f.names[..j] + [b] && b !in f.names[..j];
      var more := NotePair(f, ix, path, a, b, now);
      GrownMore(f, ix, path, t, now, more, {a}, Elems(f.names[..j]), {a}, {b});
      assert Elems(f.names[..j + 1]) == Elems(f.names[..j]) + {b};
      now := more;
    }
    assert f.names[..|f.names|] == f.names;
  }

  // One path: all pairs of its owners.
  method PairsOf(f: Fetched, ix: Index, path: string, t: Tables) returns (now: Tables)
    requires Valid(f) && NoEmpty(t)
    ensures NoEmpty(now) && Grown(f, ix, path, t, now, Elems(f.names), Elems(f.names))
  {
    now := t;
    for i := 0 to |f.names|
      invariant NoEmpty(now) && Grown(f, ix, path, t, now, Elems(f.names[..i]), Elems(f.names))
    {
      var a := f.names[i];
      assert f.names[..i + 1] == f.names[..i] + [a] && a !in f.names[..i];
      var more := PairsWith(f, ix, path, a, now);
      GrownMore(f, ix, path, t, now, more, Elems(f.names[..i]), Elems(f.names), {a}, Elems(f.names));
      assert Elems(f.names[..i + 1]) == Elems(f.names[..i]) + {a};
      now := more;
    }
    assert f.names[..|f.names|] == f.names;
  }

  lemma FilledMore(f: Fetched, ix: Index, paths: seq<string>, path: string, t: Tables, now: Tables)
    requires Filled(f, ix, paths, t) && NoEmpty(now) && Grown(f, ix, path, t, now, Elems(f.names), Elems(f.names))
    requires forall a :: Has(ix, path, a) ==> a in f.names
    ensures Filled(f, ix, paths + [path], now)
  {
    assert (paths + [path])[..|paths|] == paths;
    forall p: Pair, declared: bool ensures Look(now, declared, p) == Expected(f, ix, paths + [path], p, declared) {
      assert Look(t, declared, p) == Expected(f, ix, paths, p, declared);
    }
  }

  method Collect(f: Fetched, ix: Index) returns (t: Tables)
    requires Valid(f) && forall x, a :: Has(ix, x, a) ==> a in f.names
    ensures Filled(f, ix, ix.paths, t)
  {
    t := Tables(map[], map[]);
    for k := 0 to |ix.paths|
      invariant Filled(f, ix, ix.paths[..k], t)
    {
      var now := PairsOf(f, ix, ix.paths[k], t);
      FilledMore(f, ix, ix.paths[..k], ix.paths[k], t, now);
      assert ix.paths[..k + 1] == ix.paths[..k] + [ix.paths[k]];
      t := now;
    }
    assert ix.paths[..|ix.paths|] == ix.paths;
  }

  // The bar: enough packages, and none without files.
  ghost predicate Enough(f: Fetched) {
    |f.names| >= MIN_PACKAGES && forall a | a in f.files :: f.files[a] != []
  }

  method HasEmpty(f: Fetched) returns (empty: bool)
    requires Valid(f)
    ensures empty <==> exists a :: a in f.files && f.files[a] == []
  {
    for k := 0 to |f.names|
      invariant forall i | 0 <= i < k :: f.names[i] in f.files && f.files[f.names[i]] != []
    {
      var name := f.names[k];
      assert name in f.names && name in f.files;
      if f.files[name] == [] { return true; }
    }
    forall a | a in f.files ensures f.files[a] != [] {
      var i :| 0 <= i < |f.names| && f.names[i] == a;
    }
    return false;
  }

  /** `check`: 0 if nothing is undeclared. The tables list, for every pair, the paths both own. */
  method Check(f: Fetched) returns (code: int, ix: Index, t: Tables)
    requires Valid(f)
    ensures Sound(ix) && forall p, a :: Has(ix, p, a) <==> a in f.names && p in Owned(f, a)
    ensures code == (if Enough(f) && t.undeclared == map[] then 0 else 1)
    ensures Enough(f) ==> Filled(f, ix, ix.paths, t)
  {
    t := Tables(map[], map[]);
    ix := Invert(f);
    if |f.names| < MIN_PACKAGES { return 1, ix, t; }
    var empty := HasEmpty(f);
    if empty { return 1, ix, t; }
    t := Collect(f, ix);
    code := if t.undeclared == map[] then 0 else 1;
  }

  // ------------------------------------------------------- what the tables say

  lemma {:induction false} SharingHolds(ix: Index, paths: seq<string>, p: Pair, x: string)
    ensures x in Sharing(ix, paths, p) <==> x in paths && Has(ix, x, p.0) && Has(ix, x, p.1)
  {
    if paths != [] {
      var n := |paths| - 1;
      SharingHolds(ix, paths[..n], p, x);
      assert paths == paths[..n] + [paths[n]];
    }
  }

  lemma {:induction false} SharingCount(ix: Index, paths: seq<string>, p: Pair)
    requires forall i, j | 0 <= i < j < |paths| :: paths[i] != paths[j]
    ensures |set x | x in Sharing(ix, paths, p)| == |Sharing(ix, paths, p)|
  {
    if paths != [] {
      var n := |paths| - 1;
      var before, all := Sharing(ix, paths[..n], p), Sharing(ix, paths, p);
      SharingCount(ix, paths[..n], p);
      if all != before {
        SharingHolds(ix, paths[..n], p, paths[n]);
        assert (set x | x in all) == (set x | x in before) + {paths[n]};
      }
    }
  }

  /** The owner index counts what the definition says: for every pair of packages the list collected
      holds the paths both own, each once, so its length is the size of the intersection. */
  lemma CountsIntersection(f: Fetched, ix: Index, p: Pair)
    requires Sound(ix) && forall x, a :: Has(ix, x, a) <==> a in f.names && x in Owned(f, a)
    requires p.0 in f.names && p.1 in f.names
    ensures (set x | x in Sharing(ix, ix.paths, p)) == Shared(f, p)
    ensures |Sharing(ix, ix.paths, p)| == |Shared(f, p)|
  {
    forall x ensures x in Sharing(ix, ix.paths, p) <==> x in Shared(f, p) { SharingHolds(ix, ix.paths, p, x); }
    SharingCount(ix, ix.paths, p);
    assert (set x | x in Sharing(ix, ix.paths, p)) == Shared(f, p);
  }

  /** Declared and undeclared overlaps partition the overlapping pairs, each listed with exactly the
      shared paths, and a pair without a shared path is in neither. */
  lemma TablesPartition(f: Fetched, ix: Index, t: Tables, p: Pair)
    requires Sound(ix) && forall x, a :: Has(ix, x, a) <==> a in f.names && x in Owned(f, a)
    requires Filled(f, ix, ix.paths, t)
    ensures p in t.undeclared <==>
              p.0 in f.names && p.1 in f.names && p.0 < p.1 && Shared(f, p) != {} && !Apart(f, p.0, p.1)
    ensures p in t.declared <==>
              p.0 in f.names && p.1 in f.names && p.0 < p.1 && Shared(f, p) != {} && Apart(f, p.0, p.1)
    ensures p in t.undeclared ==> |t.undeclared[p]| == |Shared(f, p)|
    ensures p in t.declared ==> |t.declared[p]| == |Shared(f, p)|
  {
    var list := Sharing(ix, ix.paths, p);
    if list != [] { SharingHolds(ix, ix.paths, p, list[0]); }
    if p.0 in f.names && p.1 in f.names {
      CountsIntersection(f, ix, p);
      if list == [] { assert (set x | x in list) == {}; }
    }
    assert Look(t, false, p) == Expected(f, ix, ix.paths, p, false);
    assert Look(t, true, p) == Expected(f, ix, ix.paths, p, true);
  }

  /** The check returns 0 exactly for a clean set: at least two packages, none without files, and every
      pair sharing a path held apart by a conflict one of them declares. */
  method CheckClean(f: Fetched) returns (code: int)
    requires Valid(f)
    ensures code == 0 <==> Clean(f)
  {
    var ix, t;
    code, ix, t := Check(f);
    if Enough(f) {
      forall a, b | a in f.names && b in f.names && a < b && Shared(f, (a, b)) != {} && code == 0
        ensures Apart(f, a, b)
      {
        TablesPartition(f, ix, t, (a, b));
      }
      if t.undeclared != map[] {
        ghost var p :| p in t.undeclared;
        TablesPartition(f, ix, t, p);
      }
    }
  }

  // One path in the lists of two packages, leading slashes aside.
  ghost predicate Collide(f: Fetched, a: Name, b: Name) {
    a in f.files && b in f.files
    && exists i, j | 0 <= i < |f.files[a]| && 0 <= j < |f.files[b]| ::
         Relative(f.files[a][i]) == Relative(f.files[b][j])
  }

  /** What a clean set is, in the words of the lists: whenever two packages list one path, one of the two
      names the other as a conflict. */
  lemma CleanExactly(f: Fetched)
    requires Valid(f)
    ensures Clean(f) <==>
              (|f.names| >= 2 && (forall a | a in f.files :: f.files[a] != [])
               && forall a, b | a in f.names && b in f.names && a < b && Collide(f, a, b) ::
                    (a in f.conflicts && b in f.conflicts[a]) || (b in f.conflicts && a in f.conflicts[b]))
  {
    forall a, b | a in f.names && b in f.names
      ensures Shared(f, (a, b)) != {} <==> Collide(f, a, b)
      ensures Apart(f, a, b) <==> (a in f.conflicts && b in f.conflicts[a]) || (b in f.conflicts && a in f.conflicts[b])
    {
      CollideShares(f, a, b);
    }
  }

  lemma CollideShares(f: Fetched, a: Name, b: Name)
    requires a in f.files && b in f.files
    ensures Shared(f, (a, b)) != {} <==> Collide(f, a, b)
  {
    if p :| p in Shared(f, (a, b)) {
      RelativesAre(f.files[a], p);
      RelativesAre(f.files[b], p);
    }
    if i, j :| 0 <= i < |f.files[a]| && 0 <= j < |f.files[b]| && Relative(f.files[a][i]) == Relative(f.files[b][j]) {
      RelativesAre(f.files[a], Relative(f.files[a][i]));
      RelativesAre(f.files[b], Relative(f.files[a][i]));
      assert Relative(f.files[a][i]) in Shared(f, (a, b));
    }
  }

  // ------------------------------------------------------- conflict names

  // `dep.split(sep, 1)[0].strip()`, or nothing when `sep` does not occur.
  function Until(dep: string, sep: string): Option<string> {
    var i := Find(dep, sep);
    if i < 0 then None else Some(Strip(dep[..i]))
  }

  // `_strip_version`.
  function StripVersion(dep: string): string {
    var a, b, c, d, e := Until(dep, "<="), Until(dep, ">="), Until(dep, "="), Until(dep, "<"), Until(dep, ">");
    if a.Some? then a.value else if b.Some? then b.value else if c.Some? then c.value
    else if d.Some? then d.value else if e.Some? then e.value else Strip(dep)
  }

  predicate Plain(s: string) {
    '<' !in s && '>' !in s && '=' !in s
  }

  lemma Absent(s: string, p: string, c: char)
    requires c in p && c !in s
    ensures Until(s, p).None?
  {
    forall k | 0 <= k <= |s| ensures !Text.At(s, p, k) {
      var i :| 0 <= i < |p| && p[i] == c;
      if k + |p| <= |s| { assert s[k..k + |p|][i] == s[k + i]; }
    }
  }

  lemma Present(name: string, op: string, version: string)
    requires Plain(name) && op != "" && (op[0] == '<' || op[0] == '>' || op[0] == '=')
    ensures Until(name + op + version, op) == Some(Strip(name))
  {
    var s := name + op + version;
    assert s[|name|..|name| + |op|] == op;
    assert Text.At(s, op, |name|);
    forall k | 0 <= k < |name| ensures !Text.At(s, op, k) {
      if k + |op| <= |s| { assert s[k..k + |op|][0] == s[k] == name[k]; assert name[k] in name; }
    }
    assert s[..|name|] == name;
  }

  // A two-character operator does not occur when nothing but `op` is an operator character.
  lemma OnlyOnce(name: string, c: char, version: string, op: string)
    requires Plain(name) && Plain(version) && |op| == 2 && (op[0] == '<' || op[0] == '>') && op[1] == '='
    ensures Until(name + [c] + version, op).None?
  {
    var s := name + [c] + version;
    forall k | 0 <= k <= |s| ensures !Text.At(s, op, k) { NotTwice(name, c, version, op, k); }
  }

  lemma NotTwice(name: string, c: char, version: string, op: string, k: nat)
    requires Plain(name) && Plain(version) && |op| == 2 && (op[0] == '<' || op[0] == '>') && op[1] == '='
    ensures !Text.At(name + [c] + version, op, k)
  {
    var s := name + [c] + version;
    if k + 2 <= |s| {
      assert s[k..k + 2][0] == s[k] && s[k..k + 2][1] == s[k + 1];
      if k < |name| { assert s[k] == name[k] && name[k] in name; }
      else if k == |name| { assert s[k + 1] == version[0] && version[0] in version; }
      else { assert s[k] == version[k - |name| - 1] && version[k - |name| - 1] in version; }
    }
  }

  lemma NotIn(name: string, c: char, version: string, op: char)
    requires Plain(name) && Plain(version) && c != op && (op == '<' || op == '>' || op == '=')
    ensures Until(name + [c] + version, [op]).None?
  {
    Absent(name + [c] + version, [op], op);
  }

  /** A conflict is recorded under the bare name, whatever constraint it carries. */
  lemma StripsConstraint(name: string, op: string, version: string)
    requires Plain(name) && Plain(version)
    requires op == "<=" || op == ">=" || op == "=" || op == "<" || op == ">" || (op == "" && version == "")
    ensures StripVersion(name + op + version) == Strip(name)
  {
    if op == "" {
      assert name + op + version == name;
      Absent(name, "<=", '<');
      Absent(name, ">=", '>');
      Absent(name, "=", '=');
      Absent(name, "<", '<');
      Absent(name, ">", '>');
    } else {
      Present(name, op, version);
      if op == ">=" { NoLess(name, version); }
      if |op| == 1 {
        var c := op[0];
        assert op == [c];
        OnlyOnce(name, c, version, "<=");
        OnlyOnce(name, c, version, ">=");
        if c != '=' { NotIn(name, c, version, '='); }
        if c == '>' { NotIn(name, c, version, '<'); }
      }
    }
  }

  lemma NoLess(name: string, version: string)
    requires Plain(name) && Plain(version)
    ensures Until(name + ">=" + version, "<=").None?
  {
    Absent(name + ">=" + version, "<=", '<');
  }
}
