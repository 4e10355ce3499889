/** The egress gate itself (os/repo-tools/check-egress-units.py): from landings to units and their
    drop-ins, one judgement per installed unit, and the exit status. */
module EgressGate {
  // `GateMain` is proved to exit 0 exactly when the declared postures hold of every unit; `GateIsSound`
  // says what that means for a unit's own files: what its ExecStart lines name, directly or through
  // a launcher, against the directives in force after every drop-in.

  import opened Common
  import opened Text
  import opened UnitFile
  import opened ExecStart
  import Installs

  // ------------------------------------------------------- discovery

  datatype Key = Key(path: string, installed: string, scope: string)

  datatype Unit = Unit(key: Key, origin: string)

  // The repository as the gate reads it.
  datatype Tree = Tree(read: string -> string, name: string -> string, leq: (string, string) -> bool,
                       lisa: string -> bool, reader: ExecReader, program: string -> string,
                       files: seq<string>, fragment: string -> bool)

  // What a D-Bus activation record says: its command and the unit it names, "" when it has none.
  datatype Record = Record(exec: string, service: string)

  predicate IsUnit(l: Installs.Landing) {
    l.kind.UnitFile? && l.src.Some?
  }

  function KeyOf(l: Installs.Landing): Key
    requires IsUnit(l)
  {
    Key(l.src.value, l.unit, l.scope)
  }

  predicate IsDropInOf(l: Installs.Landing, scope: string, installed: string) {
    l.kind.DropInFile? && l.src.Some? && l.scope == scope && l.unit == installed
  }

  // A drop-in file under the path it is installed at.
  datatype Fragment = Fragment(rel: string, src: string)

  function FragmentsOf(landings: seq<Installs.Landing>, scope: string, installed: string): seq<Fragment> {
    if landings == [] then []
    else
      var l := landings[|landings| - 1];
      FragmentsOf(landings[..|landings| - 1], scope, installed)
      + (if IsDropInOf(l, scope, installed) then [Fragment(l.rel, l.src.value)] else [])
  }

  function UnitsOf(landings: seq<Installs.Landing>): seq<Unit> {
    if landings == [] then []
    else
      var l := landings[|landings| - 1];
      UnitsOf(landings[..|landings| - 1])
      + (if IsUnit(l) then [Unit(Key(l.src.value, l.unit, l.scope), l.origin)] else [])
  }

  type Place = (string, string)

  // Which names each scope installs.
  function InstalledNames(landings: seq<Installs.Landing>): set<Place> {
    if landings == [] then {}
    else
      var l := landings[|landings| - 1];
      InstalledNames(landings[..|landings| - 1]) + (if IsUnit(l) || l.kind.OtherUnit? then {(l.scope, l.unit)} else {})
  }

  ghost predicate Grouped(dropins: map<Place, seq<Fragment>>, landings: seq<Installs.Landing>) {
    forall scope, name :: FragmentsOf(landings, scope, name) == At(dropins, (scope, name))
  }

  function At(dropins: map<Place, seq<Fragment>>, place: Place): seq<Fragment> {
    if place in dropins then dropins[place] else []
  }

  // The grouping pass over all landings.
  method Group(landings: seq<Installs.Landing>)
    returns (units: seq<Unit>, dropins: map<Place, seq<Fragment>>, installed: set<Place>)
    ensures units == UnitsOf(landings)
    ensures Grouped(dropins, landings)
    ensures installed == InstalledNames(landings)
  {
    units, dropins, installed := [], map[], {};
    for i := 0 to |landings|
      invariant units == UnitsOf(landings[..i])
      invariant Grouped(dropins, landings[..i])
      invariant installed == InstalledNames(landings[..i])
    {
      var l := landings[i];
      assert landings[..i + 1][..i] == landings[..i] && landings[..i + 1][i] == l;
      GroupStep(dropins, landings, i);
      UnitsMore(landings, i);
      if IsUnit(l) {
        units := units + [Unit(Key(l.src.value, l.unit, l.scope), l.origin)];
        installed := installed + {(l.scope, l.unit)};
      } else if l.kind.DropInFile? && l.src.Some? {
        dropins := dropins[(l.scope, l.unit) := At(dropins, (l.scope, l.unit)) + [Fragment(l.rel, l.src.value)]];
      } else if l.kind.OtherUnit? {
        installed := installed + {(l.scope, l.unit)};
      }
    }
    assert landings[..|landings|] == landings;
  }

  lemma UnitsMore(landings: seq<Installs.Landing>, i: nat)
    requires i < |landings|
    ensures var l := landings[i];
            UnitsOf(landings[..i + 1])
            == UnitsOf(landings[..i]) + (if IsUnit(l) then [Unit(Key(l.src.value, l.unit, l.scope), l.origin)] else [])
            && InstalledNames(landings[..i + 1])
               == InstalledNames(landings[..i]) + (if IsUnit(l) || l.kind.OtherUnit? then {(l.scope, l.unit)} else {})
  {
    assert landings[..i + 1][..i] == landings[..i] && landings[..i + 1][i] == landings[i];
  }

  lemma GroupStep(dropins: map<Place, seq<Fragment>>, landings: seq<Installs.Landing>, i: nat)
    requires i < |landings| && Grouped(dropins, landings[..i])
    ensures var l := landings[i];
            Grouped(if l.kind.DropInFile? && l.src.Some?
                    then dropins[(l.scope, l.unit) := At(dropins, (l.scope, l.unit)) + [Fragment(l.rel, l.src.value)]]
                    else dropins, landings[..i + 1])
  {
    var l := landings[i];
    assert landings[..i + 1][..i] == landings[..i] && landings[..i + 1][i] == l;
    forall scope, name
      ensures FragmentsOf(landings[..i + 1], scope, name)
           == FragmentsOf(landings[..i], scope, name) + (if IsDropInOf(l, scope, name) then
                 [Fragment(l.rel, l.src.value)] else [])
    {}
    forall scope, name ensures FragmentsOf(landings[..i], scope, name) + []
        == FragmentsOf(landings[..i], scope, name) {}
  }

  predicate Enables(l: Installs.Landing) {
    l.kind.Wants? && EndsWith(l.unit, ".service")
  }

  // Every enable symlink points at a unit something installs.
  predicate WantsInstalled(landings: seq<Installs.Landing>) {
    forall i | 0 <= i < |landings| && Enables(landings[i]) ::
          (landings[i].scope, landings[i].unit) in InstalledNames(landings)
  }

  method CheckWants(landings: seq<Installs.Landing>, installed: set<Place>, found: seq<Finding>)
    returns (errors: seq<Finding>)
    requires installed == InstalledNames(landings)
    ensures errors == [] <==> found == [] && WantsInstalled(landings)
  {
    errors := found;
    for i := 0 to |landings|
      invariant errors == [] <==>
                (found == [] && forall k | 0 <= k < i
                      && Enables(landings[k]) :: (landings[k].scope, landings[k].unit) in installed)
    {
      if Enables(landings[i]) && (landings[i].scope, landings[i].unit) !in installed {
        errors := errors + [Dangles(landings[i].origin)];
      }
    }
  }

  // ------------------------------------------------------- fragments and activation records

  // The repository files that land as a unit or as a drop-in.
  function ShippedFiles(landings: seq<Installs.Landing>): set<string> {
    if landings == [] then {}
    else
      var l := landings[|landings| - 1];
      ShippedFiles(landings[..|landings| - 1])
      + (if l.src.Some? && (l.kind.UnitFile? || l.kind.DropInFile?) then {l.src.value} else {})
  }

  // Every systemd fragment of the packages lands, or is named as not shipped.
  predicate FragmentsLanded(p: Policy, tree: Tree, landings: seq<Installs.Landing>) {
    forall i | 0 <= i < |tree.files| && tree.fragment(tree.files[i]) ::
      tree.files[i] in ShippedFiles(landings) || tree.files[i] in p.notShipped
  }

  method OrphanFragments(p: Policy, tree: Tree, landings: seq<Installs.Landing>, found: seq<Finding>)
    returns (errors: seq<Finding>)
    ensures errors == [] <==> found == [] && FragmentsLanded(p, tree, landings)
  {
    errors := found;
    var shipped := ShippedFiles(landings);
    for i := 0 to |tree.files|
      invariant errors == [] <==>
                (found == [] && forall k | 0 <= k < i && tree.fragment(tree.files[k]) ::
                                  tree.files[k] in shipped || tree.files[k] in p.notShipped)
    {
      var path := tree.files[i];
      if tree.fragment(path) && path !in shipped && path !in p.notShipped {
        errors := errors + [Orphan(path)];
      }
    }
  }

  // `key = value`, or all of the line without an equals sign.
  function Field(line: string): Directive {
    if '=' in line then Assigned(line) else Directive(Strip(line), "")
  }

  function Fields(lines: seq<string>): seq<Directive> {
    Mapped(Field, lines)
  }

  // The value of the first one for `key`.
  function FirstOf(ds: seq<Directive>, key: string): Option<string> {
    if ds == [] then None
    else if ds[0].key == key then Some(ds[0].value)
    else FirstOf(ds[1..], key)
  }

  function FieldOf(lines: seq<string>, key: string): Option<string> {
    FirstOf(Fields(lines), key)
  }

  // Number `k` is the first one for `key`, and this is its value.
  ghost predicate FirstField(ds: seq<Directive>, key: string, k: nat, value: string) {
    k < |ds| && ds[k] == Directive(key, value) && forall j | 0 <= j < k :: ds[j].key != key
  }

  lemma {:induction false} FirstFound(ds: seq<Directive>, key: string) returns (k: nat)
    requires FirstOf(ds, key).Some?
    ensures FirstField(ds, key, k, FirstOf(ds, key).value)
  {
    k := 0;
    if ds[0].key != key {
      k := FirstFound(ds[1..], key);
      assert forall j | 1 <= j <= k :: ds[j] == ds[1..][j - 1];
      k := k + 1;
    }
  }

  lemma {:induction false} NoneFound(ds: seq<Directive>, key: string)
    requires FirstOf(ds, key).None?
    ensures forall k | 0 <= k < |ds| :: ds[k].key != key
  {
    if ds != [] {
      NoneFound(ds[1..], key);
      assert forall k | 1 <= k < |ds| :: ds[k] == ds[1..][k - 1];
    }
  }

  /** The value of a key is that of its first line, and there is none without one. */
  lemma FieldExactly(lines: seq<string>, key: string)
    ensures FieldOf(lines, key).Some? ==>
              exists k: nat :: FirstField(Fields(lines), key, k, FieldOf(lines, key).value)
    ensures FieldOf(lines, key).None? ==> forall k | 0 <= k < |lines| :: Fields(lines)[k].key != key
  {
    if FieldOf(lines, key).Some? { var k := FirstFound(Fields(lines), key); } else { NoneFound(Fields(lines), key); }
  }

  /** A line `KEY=VALUE` is read as it is written. */
  lemma FieldBack(key: string, value: string)
    requires Plain(key) && value != "" && !IsSpace(value[0]) && !IsSpace(value[|value| - 1])
    ensures Field(key + "=" + value) == Directive(key, value)
  {
    AssignedIs(key + "=" + value, key, value);
  }

  function RecordOf(text: string): Record {
    Record(FieldOr(SplitLines(text), "Exec", ""), FieldOr(SplitLines(text), "SystemdService", ""))
  }

  function FieldOr(lines: seq<string>, key: string, otherwise: string): string {
    var value := FieldOf(lines, key);
    if value.Some? then value.value else otherwise
  }

  method ReadRecord(text: string) returns (r: Record)
    ensures r == RecordOf(text)
  {
    var lines := SplitLines(text);
    ghost var ds := Fields(lines);
    var exec, service := None, None;
    for i := 0 to |lines|
      invariant FirstOf(ds, "Exec") == if exec.Some? then exec else FirstOf(ds[i..], "Exec")
      invariant FirstOf(ds, "SystemdService") == if service.Some? then service else FirstOf(ds[i..], "SystemdService")
    {
      assert ds[i..][0] == ds[i] && ds[i..][1..] == ds[i + 1..];
      var f := Field(lines[i]);
      if f.key == "Exec" && exec.None? {
        exec := Some(f.value);
      } else if f.key == "SystemdService" && service.None? {
        service := Some(f.value);
      }
    }
    r := Record(if exec.Some? then exec.value else "", if service.Some? then service.value else "");
  }

  // The names of the installed units, in either scope.
  function UnitNames(units: seq<Unit>): set<string> {
    if units == [] then {} else UnitNames(units[..|units| - 1]) + {units[|units| - 1].key.installed}
  }

  // The command of a record is one of Lisa's.
  predicate StartsLisa(tree: Tree, exec: string) {
    exec != "" && tree.program(exec) != "" && tree.lisa(tree.program(exec))
  }

  /** A record that starts a Lisa binary goes through an installed unit, or is listed as debt for having
      none; a record listed as debt has none. */
  predicate RecordHolds(p: Policy, tree: Tree, installed: set<string>, path: string) {
    var r := RecordOf(tree.read(path));
    StartsLisa(tree, r.exec) ==> ThroughUnit(p, installed, path, r.service)
  }

  predicate ThroughUnit(p: Policy, installed: set<string>, path: string, service: string) {
    if service == "" then path in Debt(p, DBUS_DEBT) else path !in Debt(p, DBUS_DEBT) && service in installed
  }

  predicate RecordsHold(p: Policy, tree: Tree, installed: set<string>, activations: seq<(string, string)>) {
    forall i | 0 <= i < |activations| :: RecordHolds(p, tree, installed, activations[i].0)
  }

  method DbusActivation(p: Policy, tree: Tree, activations: seq<(string, string)>, installed: set<string>,
                        found: seq<Finding>)
    returns (errors: seq<Finding>)
    ensures errors == [] <==> found == [] && RecordsHold(p, tree, installed, activations)
  {
    ghost var holds := (path: string) => RecordHolds(p, tree, installed, path);
    errors := JudgeRecords(p, tree, activations, installed, found, holds);
    assert forall i | 0 <= i < |activations| ::
        holds(activations[i].0) == RecordHolds(p, tree, installed, activations[i].0);
  }

  ghost predicate Judges(p: Policy, tree: Tree, installed: set<string>, holds: string -> bool) {
    forall path {:trigger RecordHolds(p, tree, installed, path)} ::
      holds(path) == RecordHolds(p, tree, installed, path)
  }

  method JudgeRecords(p: Policy, tree: Tree, activations: seq<(string, string)>, installed: set<string>,
                      found: seq<Finding>, ghost holds: string -> bool)
    returns (errors: seq<Finding>)
    requires Judges(p, tree, installed, holds)
    ensures errors == [] <==> found == [] && forall i | 0 <= i < |activations| :: holds(activations[i].0)
  {
    errors := found;
    for i := 0 to |activations|
      invariant errors == [] <==> found == [] && forall k | 0 <= k < i :: holds(activations[k].0)
    {
      var more := JudgeRecord(p, tree, installed, activations[i].0, holds);
      errors := errors + more;
    }
  }

  method JudgeRecord(p: Policy, tree: Tree, installed: set<string>, path: string, ghost holds: string -> bool)
    returns (found: seq<Finding>)
    requires Judges(p, tree, installed, holds)
    ensures found == [] <==> holds(path)
  {
    assert holds(path) == RecordHolds(p, tree, installed, path);
    var r := ReadRecord(tree.read(path));
    if r.exec == "" {
      return [];
    }
    var head := tree.program(r.exec);
    if head == "" || !tree.lisa(head) {
      return [];
    }
    var debt := Debt(p, DBUS_DEBT);
    if r.service == "" {
      return if path in debt then [] else [NoService(path)];
    }
    if path in debt {
      return [ServicePaid(path)];
    }
    return if r.service in installed then [] else [NoSuchService(path)];
  }

  // Drop-ins in file-name order, equal names in the order found.
  function Insert(tree: Tree, f: Fragment, sorted: seq<Fragment>): seq<Fragment> {
    if sorted == [] then [f]
    else
      var last := sorted[|sorted| - 1];
      if tree.leq(tree.name(last.rel), tree.name(f.rel)) then sorted + [f]
      else Insert(tree, f, sorted[..|sorted| - 1]) + [last]
  }

  function Sorted(tree: Tree, fs: seq<Fragment>): seq<Fragment> {
    if fs == [] then [] else Insert(tree, fs[|fs| - 1], Sorted(tree, fs[..|fs| - 1]))
  }

  // The drop-ins of one file name, in the order found.
  function Called(tree: Tree, fs: seq<Fragment>, name: string): seq<Fragment> {
    if fs == [] then []
    else
      var last := fs[|fs| - 1];
      Called(tree, fs[..|fs| - 1], name) + (if tree.name(last.rel) == name then [last] else [])
  }

  lemma CalledMore(tree: Tree, fs: seq<Fragment>, f: Fragment, name: string)
    ensures Called(tree, fs + [f], name) == Called(tree, fs, name) + (if tree.name(f.rel) == name then [f] else [])
  {
    assert (fs + [f])[..|fs|] == fs;
  }

  ghost predicate Reflexive(leq: (string, string) -> bool) {
    forall a :: leq(a, a)
  }

  lemma OrderIsReflexive(leq: (string, string) -> bool)
    requires Order(leq)
    ensures Reflexive(leq)
  {
    forall a ensures leq(a, a) { assert leq(a, a) || leq(a, a); }
  }

  lemma {:induction false} InsertStable(tree: Tree, f: Fragment, sorted: seq<Fragment>, name: string)
    requires Reflexive(tree.leq)
    ensures Called(tree, Insert(tree, f, sorted), name)
         == Called(tree, sorted, name) + (if tree.name(f.rel) == name then [f] else [])
  {
    if sorted == [] {
      CalledMore(tree, [], f, name);
      assert [] + [f] == [f];
    } else {
      var last, front := sorted[|sorted| - 1], sorted[..|sorted| - 1];
      if tree.leq(tree.name(last.rel), tree.name(f.rel)) {
        CalledMore(tree, sorted, f, name);
      } else {
        InsertStable(tree, f, front, name);
        CalledMore(tree, Insert(tree, f, front), last, name);
        CalledMore(tree, front, last, name);
        assert sorted == front + [last] && tree.leq(tree.name(f.rel), tree.name(f.rel));
      }
    }
  }

  /** Drop-ins of one name, in different directories, keep the order they were found in. */
  lemma {:induction false} SortedStable(tree: Tree, fs: seq<Fragment>, name: string)
    requires Order(tree.leq)
    ensures Called(tree, Sorted(tree, fs), name) == Called(tree, fs, name)
  {
    OrderIsReflexive(tree.leq);
    if fs != [] {
      SortedStable(tree, fs[..|fs| - 1], name);
      InsertStable(tree, fs[|fs| - 1], Sorted(tree, fs[..|fs| - 1]), name);
    }
  }

  lemma {:induction false} InsertKeeps(tree: Tree, f: Fragment, sorted: seq<Fragment>)
    ensures multiset(Insert(tree, f, sorted)) == multiset(sorted) + multiset{f}
  {
    if sorted != [] {
      var last := sorted[|sorted| - 1];
      assert sorted == sorted[..|sorted| - 1] + [last];
      if !tree.leq(tree.name(last.rel), tree.name(f.rel)) {
        InsertKeeps(tree, f, sorted[..|sorted| - 1]);
      }
    }
  }

  lemma {:induction false} SortedKeeps(tree: Tree, fs: seq<Fragment>)
    ensures multiset(Sorted(tree, fs)) == multiset(fs)
  {
    if fs != [] {
      assert fs == fs[..|fs| - 1] + [fs[|fs| - 1]];
      SortedKeeps(tree, fs[..|fs| - 1]);
      InsertKeeps(tree, fs[|fs| - 1], Sorted(tree, fs[..|fs| - 1]));
    }
  }

  ghost predicate InOrder(tree: Tree, fs: seq<Fragment>) {
    forall i, j | 0 <= i < j < |fs| :: tree.leq(tree.name(fs[i].rel), tree.name(fs[j].rel))
  }

  ghost predicate Order(leq: (string, string) -> bool) {
    (forall a, b :: leq(a, b) || leq(b, a)) && (forall a, b, c :: leq(a, b) && leq(b, c) ==> leq(a, c))
  }

  lemma {:induction false} InsertOrders(tree: Tree, f: Fragment, sorted: seq<Fragment>)
    requires Order(tree.leq) && InOrder(tree, sorted)
    ensures InOrder(tree, Insert(tree, f, sorted))
  {
    if sorted != [] {
      var last, front := sorted[|sorted| - 1], sorted[..|sorted| - 1];
      if tree.leq(tree.name(last.rel), tree.name(f.rel)) {
        var r := sorted + [f];
        forall i, j | 0 <= i < j < |r| ensures tree.leq(tree.name(r[i].rel), tree.name(r[j].rel)) {
          if j == |sorted| && i < |sorted| - 1 {
            assert tree.leq(tree.name(sorted[i].rel), tree.name(last.rel));
          }
        }
      } else {
        InsertOrders(tree, f, front);
        InsertKeeps(tree, f, front);
        var r := Insert(tree, f, front);
        forall i | 0 <= i < |r| ensures tree.leq(tree.name(r[i].rel), tree.name(last.rel)) {
          assert r[i] in multiset(front) + multiset{f};
          if r[i] != f {
            assert r[i] in front;
            var k :| 0 <= k < |front| && front[k] == r[i];
            assert tree.leq(tree.name(sorted[k].rel), tree.name(last.rel));
          }
        }
      }
    }
  }

  /** Drop-ins apply in file-name order, each exactly as often as it landed. */
  lemma {:induction false} SortedInOrder(tree: Tree, fs: seq<Fragment>)
    requires Order(tree.leq)
    ensures InOrder(tree, Sorted(tree, fs)) && multiset(Sorted(tree, fs)) == multiset(fs)
  {
    SortedKeeps(tree, fs);
    if fs != [] {
      SortedInOrder(tree, fs[..|fs| - 1]);
      InsertOrders(tree, fs[|fs| - 1], Sorted(tree, fs[..|fs| - 1]));
    }
  }

  function Layered(tree: Tree, fs: seq<Fragment>): (ds: seq<DropIn>)
    ensures |ds| == |fs| && forall i | 0 <= i < |fs| :: ds[i] == DropIn(fs[i].src, tree.read(fs[i].src))
  {
    if fs == [] then [] else [DropIn(fs[0].src, tree.read(fs[0].src))] + Layered(tree, fs[1..])
  }

  // The drop-ins of a unit, in the order they apply, and the text they make with it.
  function DropInsOf(tree: Tree, landings: seq<Installs.Landing>, k: Key): seq<DropIn> {
    Layered(tree, Sorted(tree, FragmentsOf(landings, k.scope, k.installed)))
  }

  function TextOf(tree: Tree, landings: seq<Installs.Landing>, k: Key): string {
    Merged(tree.read(k.path), DropInsOf(tree, landings, k))
  }

  /** Every drop-in landing of a unit is among the files its text is merged from. */
  lemma {:induction false} EveryDropInApplies(tree: Tree, landings: seq<Installs.Landing>, i: nat, k: Key)
    requires i < |landings| && IsDropInOf(landings[i], k.scope, k.installed)
    ensures exists j | 0 <= j < |DropInsOf(tree, landings, k)| ::
              DropInsOf(tree, landings, k)[j].path == landings[i].src.value
  {
    var fs := FragmentsOf(landings, k.scope, k.installed);
    FragmentFound(landings, i, k);
    SortedKeeps(tree, fs);
    var f := Fragment(landings[i].rel, landings[i].src.value);
    assert f in multiset(Sorted(tree, fs));
    var j :| 0 <= j < |Sorted(tree, fs)| && Sorted(tree, fs)[j] == f;
    assert DropInsOf(tree, landings, k)[j].path == f.src;
  }

  /** And nothing else is: each file a unit's text is merged from landed as a drop-in of that unit. */
  lemma {:induction false} OnlyDropInsApply(tree: Tree, landings: seq<Installs.Landing>, k: Key, j: nat)
    returns (i: nat)
    requires j < |DropInsOf(tree, landings, k)|
    ensures i < |landings| && IsDropInOf(landings[i], k.scope, k.installed)
    ensures DropInsOf(tree, landings, k)[j] == DropIn(landings[i].src.value, tree.read(landings[i].src.value))
  {
    var fs := FragmentsOf(landings, k.scope, k.installed);
    var f := Sorted(tree, fs)[j];
    SortedKeeps(tree, fs);
    assert f in multiset(Sorted(tree, fs));
    i := FragmentLanding(landings, k, f);
  }

  lemma {:induction false} FragmentLanding(landings: seq<Installs.Landing>, k: Key, f: Fragment) returns (i: nat)
    requires f in FragmentsOf(landings, k.scope, k.installed)
    ensures i < |landings| && IsDropInOf(landings[i], k.scope, k.installed)
    ensures f == Fragment(landings[i].rel, landings[i].src.value)
  {
    i := |landings| - 1;
    var l := landings[i];
    if !(IsDropInOf(l, k.scope, k.installed) && f == Fragment(l.rel, l.src.value)) {
      i := FragmentLanding(landings[..i], k, f);
    }
  }

  lemma {:induction false} FragmentFound(landings: seq<Installs.Landing>, i: nat, k: Key)
    requires i < |landings| && IsDropInOf(landings[i], k.scope, k.installed)
    ensures Fragment(landings[i].rel, landings[i].src.value) in FragmentsOf(landings, k.scope, k.installed)
  {
    if i < |landings| - 1 {
      FragmentFound(landings[..|landings| - 1], i, k);
    }
  }

  lemma {:induction false} UnitFound(landings: seq<Installs.Landing>, i: nat)
    requires i < |landings| && IsUnit(landings[i])
    ensures Unit(Key(landings[i].src.value, landings[i].unit, landings[i].scope),
              landings[i].origin) in UnitsOf(landings)
  {
    if i < |landings| - 1 {
      UnitFound(landings[..|landings| - 1], i);
    }
  }

  // ------------------------------------------------------- policy and judgement

  datatype Policy = Policy(
    noEgress: set<string>, egress: set<string>, cli: set<string>,
    debts: map<string, set<string>>,          // the lists that switch a check off
    ceilings: map<string, nat>,
    requiredConfined: seq<string>, requiredBrokers: seq<string>,
    notShipped: set<string>)                  // fragments that are deliberately installed nowhere

  const EXEMPT := "EXEMPT"
  const INET_DEBT := "USER_SCOPE_INET_DEBT"
  const DBUS_DEBT := "DBUS_UNSANDBOXED_DEBT"

  datatype Facts = Facts(lisa: seq<string>, wrapped: bool, has: bool, inet: bool, user: bool)

  // What the gate reads off a unit's text.
  ghost function FactsOf(tree: Tree, text: string, scope: string): Facts {
    var p := AllRuns(tree.reader, ExecValues(Says(text)));
    var families := InForce(Says(text), "RestrictAddressFamilies");
    Facts(LisaAmong(tree.lisa, p.names), p.wrapped, "any" in InForce(Says(text), "IPAddressDeny"),
          Open(families != [], families, "AF_INET") || Open(families != [], families, "AF_INET6"), scope == "user")
  }

  method ReadFacts(tree: Tree, text: string, scope: string) returns (f: Facts)
    ensures f == FactsOf(tree, text, scope)
  {
    var names, wrapped := ExecPrograms(tree.reader, text);
    var _, denied := EffectiveValues(text, "IPAddressDeny");
    var inet := InetAllowed(text);
    f := Facts(LisaAmong(tree.lisa, names), wrapped, "any" in denied, inet, scope == "user");
  }

  datatype Posture = OutOfScope | NoEgress | Egress | Cli | Unclassified

  function PostureOf(p: Policy, f: Facts): Posture {
    if f.lisa == [] then OutOfScope
    else if f.lisa[0] in p.noEgress then NoEgress
    else if f.lisa[0] in p.egress then Egress
    else if f.lisa[0] in p.cli then Cli
    else Unclassified
  }

  datatype Row = Row(key: Key, facts: Facts, posture: Posture)

  datatype Finding =
    | Unresolved(error: Installs.Error) | Refused(origin: string, statement: string)
    | Orphan(path: string) | NoService(path: string) | ServicePaid(path: string) | NoSuchService(path: string)
    | Dangles(origin: string) | TwoDaemons(path: string)
    | NoCeiling(name: string) | AboveCeiling(name: string) | BelowCeiling(name: string)
    | NothingFound | Wrapped(path: string) | DebtPaid(path: string) | OpenInUserScope(path: string)
    | NoPosture(path: string) | ExemptYetConfined(path: string) | NotConfined(path: string)
    | BrokerConfined(path: string) | Uncovered(binary: string) | NoBroker(binary: string)

  predicate OneDaemon(f: Facts) {
    forall i | 0 <= i < |f.lisa| :: f.lisa[i] == f.lisa[0]
  }

  ghost predicate Reads(tree: Tree, landings: seq<Installs.Landing>, facts: Key -> Facts) {
    forall k {:trigger FactsFor(tree, landings, k)} :: facts(k) == FactsFor(tree, landings, k)
  }

  method FactsAt(tree: Tree, landings: seq<Installs.Landing>, k: Key, ghost facts: Key -> Facts) returns (f: Facts)
    requires Reads(tree, landings, facts)
    ensures f == facts(k)
  {
    f := ReadFacts(tree, TextOf(tree, landings, k), k.scope);
    assert f == FactsFor(tree, landings, k);
  }

  ghost predicate Judged(p: Policy, facts: Key -> Facts, r: Row) {
    r.facts == facts(r.key) && r.posture == PostureOf(p, r.facts)
  }

  function UnitKeys(units: seq<Unit>): set<Key> {
    if units == [] then {} else UnitKeys(units[..|units| - 1]) + {units[|units| - 1].key}
  }

  function RowKeys(rows: seq<Row>): set<Key> {
    if rows == [] then {} else RowKeys(rows[..|rows| - 1]) + {rows[|rows| - 1].key}
  }

  // One row per distinct (file, installed name, scope), in the order found.
  method Classify(p: Policy, tree: Tree, landings: seq<Installs.Landing>, units: seq<Unit>, found: seq<Finding>,
                  ghost facts: Key -> Facts)
    returns (rows: seq<Row>, errors: seq<Finding>)
    requires Reads(tree, landings, facts)
    ensures forall i | 0 <= i < |rows| :: Judged(p, facts, rows[i])
    ensures RowKeys(rows) == UnitKeys(units)
    ensures errors == [] <==> found == [] && forall i | 0 <= i < |rows| :: OneDaemon(rows[i].facts)
  {
    rows, errors := [], found;
    var seen: set<Key> := {};
    for n := 0 to |units|
      invariant forall i | 0 <= i < |rows| :: Judged(p, facts, rows[i])
      invariant RowKeys(rows) == seen == UnitKeys(units[..n])
      invariant errors == [] <==> found == [] && forall i | 0 <= i < |rows| :: OneDaemon(rows[i].facts)
    {
      var k := units[n].key;
      assert units[..n + 1][..n] == units[..n];
      if k in seen {
        continue;
      }
      seen := seen + {k};
      var f := FactsAt(tree, landings, k, facts);
      ghost var before := rows;
      rows := rows + [Row(k, f, PostureOf(p, f))];
      assert rows[..|before|] == before;
      var other := Differs(f.lisa);
      if other {
        errors := errors + [TwoDaemons(k.path)];
      }
    }
    assert units[..|units|] == units;
  }

  method Differs(names: seq<string>) returns (other: bool)
    ensures other <==> exists i | 0 <= i < |names| :: names[i] != names[0]
  {
    other := false;
    for i := 0 to |names|
      invariant other <==> exists k | 0 <= k < i :: names[k] != names[0]
    {
      other := other || names[i] != names[0];
    }
  }

  // ------------------------------------------------------- the verdict

  function Debt(p: Policy, name: string): set<string> {
    if name in p.debts then p.debts[name] else {}
  }

  predicate AtCeiling(p: Policy, name: string) {
    name in p.ceilings && |Debt(p, name)| == p.ceilings[name]
  }

  // What passing the gate says of one unit.
  predicate UnitHolds(p: Policy, file: string, f: Facts) {
    OneDaemon(f) && !f.wrapped
    && (f.lisa != [] ==>
          var b := f.lisa[0];
          (b in p.noEgress || b in p.egress || b in p.cli)
          && (b in p.noEgress ==>
                (f.has <==> file !in Debt(p, EXEMPT)) && (f.user ==> (f.inet <==> file in Debt(p, INET_DEBT))))
          && (b in p.egress && b !in p.noEgress ==> !f.has))
  }

  predicate Covers(p: Policy, tree: Tree, r: Row, binary: string) {
    r.posture.NoEgress? && r.facts.lisa != [] && r.facts.lisa[0] == binary && tree.name(r.key.path) !in Debt(p, EXEMPT)
  }

  predicate Brokers(r: Row, binary: string) {
    r.posture.Egress? && r.facts.lisa != [] && r.facts.lisa[0] == binary
  }

  predicate Covered(p: Policy, tree: Tree, rows: seq<Row>, binary: string) {
    exists i | 0 <= i < |rows| :: Covers(p, tree, rows[i], binary)
  }

  predicate Brokerage(rows: seq<Row>, binary: string) {
    exists i | 0 <= i < |rows| :: Brokers(rows[i], binary)
  }

  predicate SomeLisa(rows: seq<Row>) {
    exists i | 0 <= i < |rows| :: !rows[i].posture.OutOfScope?
  }

  predicate RowsHold(p: Policy, tree: Tree, rows: seq<Row>) {
    forall i | 0 <= i < |rows| :: UnitHolds(p, tree.name(rows[i].key.path), rows[i].facts)
  }

  predicate Ratcheted(p: Policy) {
    AtCeiling(p, EXEMPT) && AtCeiling(p, INET_DEBT) && AtCeiling(p, DBUS_DEBT)
  }

  predicate Floors(p: Policy, tree: Tree, rows: seq<Row>) {
    (forall n | 0 <= n < |p.requiredConfined| :: Covered(p, tree, rows, p.requiredConfined[n]))
    && (forall n | 0 <= n < |p.requiredBrokers| :: Brokerage(rows, p.requiredBrokers[n]))
  }

  predicate Verdict(p: Policy, tree: Tree, rows: seq<Row>) {
    Ratcheted(p) && SomeLisa(rows) && RowsHold(p, tree, rows) && Floors(p, tree, rows)
  }

  method CheckCeiling(p: Policy, name: string, errors: seq<Finding>) returns (out: seq<Finding>)
    ensures out == [] <==> errors == [] && AtCeiling(p, name)
  {
    if name !in p.ceilings {
      return errors + [NoCeiling(name)];
    }
    if |Debt(p, name)| > p.ceilings[name] {
      return errors + [AboveCeiling(name)];
    }
    if |Debt(p, name)| < p.ceilings[name] {
      return errors + [BelowCeiling(name)];
    }
    return errors;
  }

  // The findings of one row, in the order the gate looks for them.
  method JudgeRow(p: Policy, file: string, r: Row) returns (found: seq<Finding>)
    requires r.posture == PostureOf(p, r.facts)
    ensures OneDaemon(r.facts) ==> (found == [] <==> UnitHolds(p, file, r.facts))
  {
    found := [];
    var path, f, exempt, debt := r.key.path, r.facts, Debt(p, EXEMPT), Debt(p, INET_DEBT);
    if f.wrapped {
      found := found + [Wrapped(path)];
    }
    if r.posture == NoEgress && f.user && !f.inet && file in debt {
      found := found + [DebtPaid(path)];
    } else if r.posture == NoEgress && f.user && f.inet && file !in debt {
      found := found + [OpenInUserScope(path)];
    }
    if r.posture == Unclassified {
      found := found + [NoPosture(path)];
    } else if r.posture == NoEgress {
      if file in exempt {
        if f.has {
          found := found + [ExemptYetConfined(path)];
        }
      } else {
        if !f.has {
          found := found + [NotConfined(path)];
        }
      }
    } else if r.posture == Egress {
      if f.has {
        found := found + [BrokerConfined(path)];
      }
    }
  }

  // The pass over the units: findings, and who is confined or a broker.
  method JudgeRows(p: Policy, tree: Tree, rows: seq<Row>, before: seq<Finding>)
    returns (errors: seq<Finding>, confined: set<string>, brokers: set<string>)
    requires forall i | 0 <= i < |rows| :: rows[i].posture == PostureOf(p, rows[i].facts)
    requires before == [] ==> forall i | 0 <= i < |rows| :: OneDaemon(rows[i].facts)
    ensures errors == [] <==>
              before == [] && forall k | 0 <= k < |rows| :: UnitHolds(p, tree.name(rows[k].key.path), rows[k].facts)
    ensures forall b :: b in confined <==> exists k | 0 <= k < |rows| :: Covers(p, tree, rows[k], b)
    ensures forall b :: b in brokers <==> exists k | 0 <= k < |rows| :: Brokers(rows[k], b)
  {
    errors, confined, brokers := before, {}, {};
    for i := 0 to |rows|
      invariant errors == [] <==>
                  before == [] && forall k | 0 <= k < i :: UnitHolds(p, tree.name(rows[k].key.path), rows[k].facts)
      invariant forall b :: b in confined <==> exists k | 0 <= k < i :: Covers(p, tree, rows[k], b)
      invariant forall b :: b in brokers <==> exists k | 0 <= k < i :: Brokers(rows[k], b)
    {
      var r := rows[i];
      var found := JudgeRow(p, tree.name(r.key.path), r);
      errors := errors + found;
      if r.posture.NoEgress? && tree.name(r.key.path) !in Debt(p, EXEMPT) {
        confined := confined + {r.facts.lisa[0]};
      }
      if r.posture.Egress? {
        brokers := brokers + {r.facts.lisa[0]};
      }
    }
  }

  // `main`: the ratchet, the sweep over the rows, the coverage floors, the exit status.
  method GateMain(p: Policy, tree: Tree, rows: seq<Row>, classified: seq<Finding>) returns (exit: int)
    requires forall i | 0 <= i < |rows| :: rows[i].posture == PostureOf(p, rows[i].facts)
    requires classified == [] ==> forall i | 0 <= i < |rows| :: OneDaemon(rows[i].facts)
    ensures exit == 0 || exit == 1
    ensures exit == 0 <==> classified == [] && Verdict(p, tree, rows)
  {
    var errors := CheckCeiling(p, EXEMPT, classified);
    errors := CheckCeiling(p, INET_DEBT, errors);
    errors := CheckCeiling(p, DBUS_DEBT, errors);
    var any := false;
    for i := 0 to |rows|
      invariant any <==> exists k | 0 <= k < i :: !rows[k].posture.OutOfScope?
    {
      any := any || !rows[i].posture.OutOfScope?;
    }
    if !any {
      errors := errors + [NothingFound];
    }
    var confined, brokers;
    errors, confined, brokers := JudgeRows(p, tree, rows, errors);
    errors := CheckFloor(p.requiredConfined, confined, errors, false);
    errors := CheckFloor(p.requiredBrokers, brokers, errors, true);
    exit := if errors == [] then 0 else 1;
  }

  method CheckFloor(required: seq<string>, covered: set<string>, errors: seq<Finding>, broker: bool)
    returns (out: seq<Finding>)
    ensures out == [] <==> errors == [] && forall k | 0 <= k < |required| :: required[k] in covered
  {
    out := errors;
    for k := 0 to |required|
      invariant out == [] <==> errors == [] && forall j | 0 <= j < k :: required[j] in covered
    {
      if required[k] !in covered {
        out := out + [if broker then NoBroker(required[k]) else Uncovered(required[k])];
      }
    }
  }

  // The whole gate over what discovery found.
  method RunGate(p: Policy, tree: Tree, landings: seq<Installs.Landing>, activations: seq<(string, string)>,
                 found: seq<Finding>)
    returns (exit: int)
    ensures exit == 0 || exit == 1
    ensures exit == 0 <==> ExitsClean(p, tree, landings, activations, found)
  {
    var units, _, installed := Group(landings);
    var discovered := CheckWants(landings, installed, found);
    discovered := OrphanFragments(p, tree, landings, discovered);
    discovered := DbusActivation(p, tree, activations, UnitNames(units), discovered);
    ghost var facts := (k: Key) => FactsFor(tree, landings, k);
    var rows, errors := Classify(p, tree, landings, units, discovered, facts);
    exit := GateMain(p, tree, rows, errors);
    VerdictIsPassing(p, tree, facts, rows);
    if errors != [] && discovered == [] {
      TwoDaemonsFail(p, tree, facts, rows);
    }
  }

  /** The gate's exit condition over the landings, activation records and findings of every script and
      tree together. */
  ghost predicate ExitsClean(p: Policy, tree: Tree, landings: seq<Installs.Landing>,
                             activations: seq<(string, string)>, found: seq<Finding>) {
    found == [] && WantsInstalled(landings) && FragmentsLanded(p, tree, landings)
    && RecordsHold(p, tree, UnitNames(UnitsOf(landings)), activations) && Passes(p, tree, landings)
  }

  ghost function FactsFor(tree: Tree, landings: seq<Installs.Landing>, k: Key): Facts {
    FactsOf(tree, TextOf(tree, landings, k), k.scope)
  }

  /** What exit status 0 says, of the landings themselves: every list at its ceiling, every unit
      judged and found in order, every required daemon covered by a unit that is not exempt. */
  ghost predicate Passes(p: Policy, tree: Tree, landings: seq<Installs.Landing>) {
    AllHold(p, tree, UnitKeys(UnitsOf(landings)), (k: Key) => FactsFor(tree, landings, k))
  }

  ghost predicate AllHold(p: Policy, tree: Tree, keys: set<Key>, facts: Key -> Facts) {
    Ratcheted(p) && SomeLisaUnit(keys, facts) && UnitsHold(p, tree, keys, facts) && UnitFloors(p, tree, keys, facts)
  }

  ghost predicate UnitFloors(p: Policy, tree: Tree, keys: set<Key>, facts: Key -> Facts) {
    (forall n | 0 <= n < |p.requiredConfined| :: CoveredUnit(p, tree, keys, facts, p.requiredConfined[n]))
    && (forall n | 0 <= n < |p.requiredBrokers| :: BrokerUnit(p, keys, facts, p.requiredBrokers[n]))
  }

  ghost predicate SomeLisaUnit(keys: set<Key>, facts: Key -> Facts) {
    exists k | k in keys :: facts(k).lisa != []
  }

  ghost predicate UnitsHold(p: Policy, tree: Tree, keys: set<Key>, facts: Key -> Facts) {
    forall k | k in keys :: UnitHolds(p, tree.name(k.path), facts(k))
  }

  ghost predicate CoveredUnit(p: Policy, tree: Tree, keys: set<Key>, facts: Key -> Facts, binary: string) {
    exists k | k in keys :: Confines(p, tree, facts, k, binary)
  }

  ghost predicate BrokerUnit(p: Policy, keys: set<Key>, facts: Key -> Facts, binary: string) {
    exists k | k in keys :: Brokered(p, facts, k, binary)
  }

  ghost predicate Confines(p: Policy, tree: Tree, facts: Key -> Facts, k: Key, binary: string) {
    var f := facts(k);
    f.lisa != [] && f.lisa[0] == binary && binary in p.noEgress && tree.name(k.path) !in Debt(p, EXEMPT)
  }

  ghost predicate Brokered(p: Policy, facts: Key -> Facts, k: Key, binary: string) {
    var f := facts(k);
    f.lisa != [] && f.lisa[0] == binary && binary in p.egress && binary !in p.noEgress
  }

  lemma {:induction false} RowKeyFound(rows: seq<Row>, j: nat)
    requires j < |rows|
    ensures rows[j].key in RowKeys(rows)
  {
    if j < |rows| - 1 {
      RowKeyFound(rows[..|rows| - 1], j);
    }
  }

  lemma {:induction false} RowOfKey(rows: seq<Row>, k: Key) returns (j: nat)
    requires k in RowKeys(rows)
    ensures j < |rows| && rows[j].key == k
  {
    j := |rows| - 1;
    if rows[j].key != k {
      j := RowOfKey(rows[..|rows| - 1], k);
    }
  }

  // A property of rows and the same property of their keys.
  lemma SomeRow(rows: seq<Row>, row: Row -> bool, key: Key -> bool)
    requires forall j | 0 <= j < |rows| :: row(rows[j]) == key(rows[j].key)
    ensures (exists j | 0 <= j < |rows| :: row(rows[j])) <==> (exists k | k in RowKeys(rows) :: key(k))
  {
    if j :| 0 <= j < |rows| && row(rows[j]) {
      RowKeyFound(rows, j);
      assert key(rows[j].key);
    }
    if k :| k in RowKeys(rows) && key(k) {
      var j := RowOfKey(rows, k);
      assert row(rows[j]);
    }
  }

  lemma VerdictIsPassing(p: Policy, tree: Tree, facts: Key -> Facts, rows: seq<Row>)
    requires forall i | 0 <= i < |rows| :: Judged(p, facts, rows[i])
    ensures Verdict(p, tree, rows) <==> AllHold(p, tree, RowKeys(rows), facts)
  {
    LisaTransfer(p, facts, rows);
    HoldTransfer(p, tree, facts, rows);
    FloorTransfer(p, tree, facts, rows);
  }

  lemma FloorTransfer(p: Policy, tree: Tree, facts: Key -> Facts, rows: seq<Row>)
    requires forall i | 0 <= i < |rows| :: Judged(p, facts, rows[i])
    ensures Floors(p, tree, rows) <==> UnitFloors(p, tree, RowKeys(rows), facts)
  {
    ConfinedTransfer(p, tree, facts, rows, p.requiredConfined);
    BrokersTransfer(p, facts, rows, p.requiredBrokers);
  }

  lemma ConfinedTransfer(p: Policy, tree: Tree, facts: Key -> Facts, rows: seq<Row>, names: seq<string>)
    requires forall i | 0 <= i < |rows| :: Judged(p, facts, rows[i])
    ensures (forall n | 0 <= n < |names| :: Covered(p, tree, rows, names[n]))
       <==> (forall n | 0 <= n < |names| :: CoveredUnit(p, tree, RowKeys(rows), facts, names[n]))
  {
    forall n | 0 <= n < |names| {
      CoverTransfer(p, tree, facts, rows, names[n]);
    }
  }

  lemma BrokersTransfer(p: Policy, facts: Key -> Facts, rows: seq<Row>, names: seq<string>)
    requires forall i | 0 <= i < |rows| :: Judged(p, facts, rows[i])
    ensures (forall n | 0 <= n < |names| :: Brokerage(rows, names[n]))
       <==> (forall n | 0 <= n < |names| :: BrokerUnit(p, RowKeys(rows), facts, names[n]))
  {
    forall n | 0 <= n < |names| {
      BrokerTransfer(p, facts, rows, names[n]);
    }
  }

  lemma LisaTransfer(p: Policy, facts: Key -> Facts, rows: seq<Row>)
    requires forall i | 0 <= i < |rows| :: Judged(p, facts, rows[i])
    ensures SomeLisa(rows) <==> SomeLisaUnit(RowKeys(rows), facts)
  {
    SomeRow(rows, (r: Row) => !r.posture.OutOfScope?, (k: Key) => facts(k).lisa != []);
  }

  lemma HoldTransfer(p: Policy, tree: Tree, facts: Key -> Facts, rows: seq<Row>)
    requires forall i | 0 <= i < |rows| :: Judged(p, facts, rows[i])
    ensures RowsHold(p, tree, rows) <==> UnitsHold(p, tree, RowKeys(rows), facts)
  {
    SomeRow(rows, (r: Row) => !UnitHolds(p, tree.name(r.key.path), r.facts),
          (k: Key) => !UnitHolds(p, tree.name(k.path), facts(k)));
  }

  lemma CoverTransfer(p: Policy, tree: Tree, facts: Key -> Facts, rows: seq<Row>, b: string)
    requires forall i | 0 <= i < |rows| :: Judged(p, facts, rows[i])
    ensures Covered(p, tree, rows, b) <==> CoveredUnit(p, tree, RowKeys(rows), facts, b)
  {
    SomeRow(rows, (r: Row) => Covers(p, tree, r, b), (k: Key) => Confines(p, tree, facts, k, b));
  }

  lemma BrokerTransfer(p: Policy, facts: Key -> Facts, rows: seq<Row>, b: string)
    requires forall i | 0 <= i < |rows| :: Judged(p, facts, rows[i])
    ensures Brokerage(rows, b) <==> BrokerUnit(p, RowKeys(rows), facts, b)
  {
    SomeRow(rows, (r: Row) => Brokers(r, b), (k: Key) => Brokered(p, facts, k, b));
  }

  lemma TwoDaemonsFail(p: Policy, tree: Tree, facts: Key -> Facts, rows: seq<Row>)
    requires forall i | 0 <= i < |rows| :: Judged(p, facts, rows[i])
    requires exists j | 0 <= j < |rows| :: !OneDaemon(rows[j].facts)
    ensures !AllHold(p, tree, RowKeys(rows), facts)
  {
    var j :| 0 <= j < |rows| && !OneDaemon(rows[j].facts);
    RowKeyFound(rows, j);
    assert Judged(p, facts, rows[j]);
    assert !UnitHolds(p, tree.name(rows[j].key.path), facts(rows[j].key));
  }

  lemma {:induction false} UnitKeyFound(units: seq<Unit>, u: Unit)
    requires u in units
    ensures u.key in UnitKeys(units)
  {
    if units[|units| - 1] != u {
      assert units == units[..|units| - 1] + [units[|units| - 1]];
      UnitKeyFound(units[..|units| - 1], u);
    }
  }

  /** The units the gate judges are the unit files that landed, no more and no fewer. */
  lemma {:induction false} UnitsAreLandings(landings: seq<Installs.Landing>, k: Key)
    ensures k in UnitKeys(UnitsOf(landings))
       <==> exists i | 0 <= i < |landings| :: IsUnit(landings[i]) && KeyOf(landings[i]) == k
  {
    if landings != [] {
      var n := |landings| - 1;
      UnitsAreLandings(landings[..n], k);
      UnitsMore(landings, n);
      assert landings[..n + 1] == landings;
      KeysMore(UnitsOf(landings[..n]), landings[n]);
      assert forall i | 0 <= i < n :: landings[..n][i] == landings[i];
    }
  }

  lemma KeysMore(units: seq<Unit>, l: Installs.Landing)
    ensures IsUnit(l) ==>
              UnitKeys(units + [Unit(Key(l.src.value, l.unit, l.scope), l.origin)]) == UnitKeys(units) + {KeyOf(l)}
    ensures units + [] == units
  {
    if IsUnit(l) {
      var u := Unit(Key(l.src.value, l.unit, l.scope), l.origin);
      assert (units + [u])[..|units|] == units;
    }
  }

  lemma LandedUnitHolds(p: Policy, tree: Tree, landings: seq<Installs.Landing>, l: Installs.Landing)
    requires l in landings && IsUnit(l) && Passes(p, tree, landings)
    ensures var k := KeyOf(l);
            k in UnitKeys(UnitsOf(landings)) && UnitHolds(p, tree.name(k.path), FactsFor(tree, landings, k))
  {
    var n :| 0 <= n < |landings| && landings[n] == l;
    UnitFound(landings, n);
    UnitKeyFound(UnitsOf(landings), Unit(Key(l.src.value, l.unit, l.scope), l.origin));
  }

  // ------------------------------------------------------- soundness

  // Binaries are told and ExecStart= values read as the gate itself does.
  ghost predicate OwnReader(tree: Tree) {
    tree.lisa == IsLisa && tree.reader == ReadExecStart && tree.program == CommandProgram
  }

  // The text the machine runs: the landed file with all its drop-ins.
  ghost function Shipped(tree: Tree, landings: seq<Installs.Landing>, l: Installs.Landing): seq<Directive>
    requires IsUnit(l)
  {
    Says(TextOf(tree, landings, KeyOf(l)))
  }

  lemma ShippedFacts(p: Policy, tree: Tree, landings: seq<Installs.Landing>, l: Installs.Landing, b: string)
    requires OwnReader(tree) && Passes(p, tree, landings) && l in landings && IsUnit(l) && IsLisa(b)
    ensures var f := FactsFor(tree, landings, KeyOf(l)); var values := ExecValues(Shipped(tree, landings, l));
            UnitHolds(p, tree.name(l.src.value), f) && (b in f.lisa <==> SomeNames(values, b))
            && (f.wrapped <==> SomeWraps(values))
  {
    LandedUnitHolds(p, tree, landings, l);
    UnitNamesExactly(ExecValues(Shipped(tree, landings, l)), b);
  }

  /** End to end: when the gate exits 0, take any landing of a unit file and what its text says together
      with all its drop-ins. If the words of any ExecStart= value name a no-egress binary, directly, by
      launcher or behind a wrapper, then no value wraps a Lisa binary, no value names another, `any` is
      in force for IPAddressDeny (unless the file is listed as exempt, and then it is not), and in user
      scope an IP socket can be opened exactly when the file is listed as debt. */
  lemma GateIsSound(p: Policy, tree: Tree, landings: seq<Installs.Landing>, l: Installs.Landing, binary: string)
    requires OwnReader(tree) && Passes(p, tree, landings) && l in landings && IsUnit(l)
    requires SomeNames(ExecValues(Shipped(tree, landings, l)), binary) && IsLisa(binary) && binary in p.noEgress
    ensures var says, file := Shipped(tree, landings, l), tree.name(l.src.value);
            var families := InForce(says, "RestrictAddressFamilies");
            ("any" in InForce(says, "IPAddressDeny") <==> file !in Debt(p, EXEMPT))
            && !SomeWraps(ExecValues(says))
            && (forall other | IsLisa(other) && SomeNames(ExecValues(says), other) :: other == binary)
            && (l.scope == "user" ==>
                  (Open(families != [], families, "AF_INET") || Open(families != [], families, "AF_INET6")
                   <==> file in Debt(p, INET_DEBT)))
  {
    ShippedFacts(p, tree, landings, l, binary);
    forall other | IsLisa(other) && SomeNames(ExecValues(Shipped(tree, landings, l)), other) ensures other == binary {
      ShippedFacts(p, tree, landings, l, other);
    }
  }

  /** No Lisa binary an ExecStart= value names ships unclassified, and no broker is confined. */
  lemma NoDaemonUnjudged(p: Policy, tree: Tree, landings: seq<Installs.Landing>, l: Installs.Landing, binary: string)
    requires OwnReader(tree) && Passes(p, tree, landings) && l in landings && IsUnit(l)
    requires SomeNames(ExecValues(Shipped(tree, landings, l)), binary) && IsLisa(binary)
    ensures binary in p.noEgress || binary in p.egress || binary in p.cli
    ensures binary in p.egress && binary !in p.noEgress ==>
              "any" !in InForce(Shipped(tree, landings, l), "IPAddressDeny")
  {
    ShippedFacts(p, tree, landings, l, binary);
  }

  /** The lists that switch checks off are exactly as long as their stated ceilings, when the gate exits 0. */
  lemma CleanLists(p: Policy, tree: Tree, landings: seq<Installs.Landing>, name: string)
    requires Passes(p, tree, landings) && name in {EXEMPT, INET_DEBT, DBUS_DEBT}
    ensures name in p.ceilings && p.ceilings[name] == if name in p.debts then |p.debts[name]| else 0
  {}

  /** Every daemon the gate demands is there and confined: when it exits 0, some landed unit's words name it,
      and `any` is in force for IPAddressDeny with all the unit's drop-ins. */
  lemma RequiredConfined(p: Policy, tree: Tree, landings: seq<Installs.Landing>, n: nat) returns (i: nat)
    requires OwnReader(tree) && Passes(p, tree, landings) && n < |p.requiredConfined|
    ensures i < |landings| && IsUnit(landings[i])
    ensures var says := Shipped(tree, landings, landings[i]);
            SomeNames(ExecValues(says), p.requiredConfined[n]) && "any" in InForce(says, "IPAddressDeny")
            && !SomeWraps(ExecValues(says))
  {
    var b := p.requiredConfined[n];
    var facts := (k: Key) => FactsFor(tree, landings, k);
    var keys := UnitKeys(UnitsOf(landings));
    assert CoveredUnit(p, tree, keys, facts, b);
    var k :| k in keys && Confines(p, tree, facts, k, b);
    UnitsAreLandings(landings, k);
    i :| 0 <= i < |landings| && IsUnit(landings[i]) && KeyOf(landings[i]) == k;
    LandedUnitHolds(p, tree, landings, landings[i]);
    FirstIsNamed(tree, landings, landings[i], b);
  }

  /** Every broker the gate demands is there, and not confined. */
  lemma RequiredBroker(p: Policy, tree: Tree, landings: seq<Installs.Landing>, n: nat) returns (i: nat)
    requires OwnReader(tree) && Passes(p, tree, landings) && n < |p.requiredBrokers|
    ensures i < |landings| && IsUnit(landings[i])
    ensures var says := Shipped(tree, landings, landings[i]);
            SomeNames(ExecValues(says), p.requiredBrokers[n]) && "any" !in InForce(says, "IPAddressDeny")
  {
    var b := p.requiredBrokers[n];
    var facts := (k: Key) => FactsFor(tree, landings, k);
    var keys := UnitKeys(UnitsOf(landings));
    assert BrokerUnit(p, keys, facts, b);
    var k :| k in keys && Brokered(p, facts, k, b);
    UnitsAreLandings(landings, k);
    i :| 0 <= i < |landings| && IsUnit(landings[i]) && KeyOf(landings[i]) == k;
    LandedUnitHolds(p, tree, landings, landings[i]);
    FirstIsNamed(tree, landings, landings[i], b);
  }

  // The daemon a unit is judged by is one its words name.
  lemma FirstIsNamed(tree: Tree, landings: seq<Installs.Landing>, l: Installs.Landing, b: string)
    requires OwnReader(tree) && IsUnit(l)
    requires var f := FactsFor(tree, landings, KeyOf(l)); f.lisa != [] && f.lisa[0] == b
    ensures SomeNames(ExecValues(Shipped(tree, landings, l)), b)
    ensures FactsFor(tree, landings, KeyOf(l)).wrapped <==> SomeWraps(ExecValues(Shipped(tree, landings, l)))
  {
    var values := ExecValues(Shipped(tree, landings, l));
    var f := FactsFor(tree, landings, KeyOf(l));
    assert f.lisa[0] in f.lisa;
    UnitNamesExactly(values, b);
  }

  lemma {:induction false} UnitOfName(landings: seq<Installs.Landing>, name: string) returns (j: nat)
    requires name in UnitNames(UnitsOf(landings))
    ensures j < |landings| && IsUnit(landings[j]) && landings[j].unit == name
  {
    var n := |landings| - 1;
    var front := UnitsOf(landings[..n]);
    if IsUnit(landings[n]) && landings[n].unit == name {
      j := n;
    } else {
      if IsUnit(landings[n]) {
        var last := Unit(Key(landings[n].src.value, landings[n].unit, landings[n].scope), landings[n].origin);
        assert (front + [last])[..|front|] == front;
      } else {
        assert front + [] == front;
      }
      j := UnitOfName(landings[..n], name);
    }
  }

  // The command of an activation record starts the Lisa binary `b`.
  ghost predicate StartsBinary(record: string, b: string) {
    var words := Words(RecordOf(record).exec);
    IsLisa(b) && words != [] && CommandSpells(words[0], b)
  }

  // The record names a unit that lands, or it names none and is listed as debt.
  ghost predicate ThroughLanding(p: Policy, tree: Tree, landings: seq<Installs.Landing>, path: string) {
    var service := RecordOf(tree.read(path)).service;
    if service == "" then path in Debt(p, DBUS_DEBT)
    else path !in Debt(p, DBUS_DEBT)
         && exists j | 0 <= j < |landings| :: IsUnit(landings[j]) && landings[j].unit == service
  }

  /** No second way in: when the gate exits 0, an installed activation record whose command spells a Lisa
      binary names a unit that lands, or it names none and is listed as debt. */
  lemma NoUnsandboxedActivation(p: Policy, tree: Tree, landings: seq<Installs.Landing>,
                                activations: seq<(string, string)>, found: seq<Finding>, i: nat, b: string)
    requires OwnReader(tree) && ExitsClean(p, tree, landings, activations, found) && i < |activations|
    requires StartsBinary(tree.read(activations[i].0), b)
    ensures ThroughLanding(p, tree, landings, activations[i].0)
  {
    var r := RecordOf(tree.read(activations[i].0));
    assert RecordHolds(p, tree, UnitNames(UnitsOf(landings)), activations[i].0);
    LisaCommand(tree, r.exec, b);
    assert ThroughUnit(p, UnitNames(UnitsOf(landings)), activations[i].0, r.service);
    if r.service != "" {
      var j := UnitOfName(landings, r.service);
    }
  }

  lemma LisaCommand(tree: Tree, exec: string, b: string)
    requires OwnReader(tree) && IsLisa(b) && Words(exec) != [] && CommandSpells(Words(exec)[0], b)
    ensures StartsLisa(tree, exec)
  {
    LisaStarts(b);
    CommandSpellsExactly(Words(exec)[0], b);
  }

  lemma {:induction false} InstallerOf(landings: seq<Installs.Landing>, scope: string, name: string) returns (j: nat)
    requires (scope, name) in InstalledNames(landings)
    ensures j < |landings| && NamesUnit(landings[j], scope, name)
  {
    j := |landings| - 1;
    if !NamesUnit(landings[j], scope, name) {
      j := InstallerOf(landings[..j], scope, name);
    }
  }

  // The landing is the unit `name` of that scope, a unit file or a unit of another kind.
  predicate NamesUnit(l: Installs.Landing, scope: string, name: string) {
    (IsUnit(l) || l.kind.OtherUnit?) && l.scope == scope && l.unit == name
  }

  lemma {:induction false} InstalledIs(landings: seq<Installs.Landing>, j: nat)
    requires j < |landings| && (IsUnit(landings[j]) || landings[j].kind.OtherUnit?)
    ensures (landings[j].scope, landings[j].unit) in InstalledNames(landings)
  {
    if j < |landings| - 1 {
      InstalledIs(landings[..|landings| - 1], j);
    }
  }

  /** Nothing is enabled that is not there: when the gate exits 0, a `.service` that a symlink enables is the
      unit of some landing of its scope; and a symlink without one is always a finding. */
  lemma {:induction false} EnabledIsInstalled(p: Policy, tree: Tree, landings: seq<Installs.Landing>,
                                              activations: seq<(string, string)>, found: seq<Finding>, i: nat)
    requires i < |landings| && landings[i].kind.Wants? && EndsWith(landings[i].unit, ".service")
    ensures ExitsClean(p, tree, landings, activations, found) ==>
              exists j | 0 <= j < |landings| :: NamesUnit(landings[j], landings[i].scope, landings[i].unit)
    ensures WantsInstalled(landings) <==>
              forall n | 0 <= n < |landings| && Enables(landings[n]) ::
                exists j | 0 <= j < |landings| :: NamesUnit(landings[j], landings[n].scope, landings[n].unit)
  {
    forall n | 0 <= n < |landings| && Enables(landings[n])
      ensures (landings[n].scope, landings[n].unit) in InstalledNames(landings)
         <==> exists j | 0 <= j < |landings| :: NamesUnit(landings[j], landings[n].scope, landings[n].unit)
    {
      if (landings[n].scope, landings[n].unit) in InstalledNames(landings) {
        var j := InstallerOf(landings, landings[n].scope, landings[n].unit);
      }
      if j :| 0 <= j < |landings| && NamesUnit(landings[j], landings[n].scope, landings[n].unit) {
        InstalledIs(landings, j);
      }
    }
    assert Enables(landings[i]);
  }

  lemma {:induction false} ShippedFileLands(landings: seq<Installs.Landing>, path: string) returns (j: nat)
    requires path in ShippedFiles(landings)
    ensures j < |landings| && landings[j].src == Some(path)
    ensures landings[j].kind.UnitFile? || landings[j].kind.DropInFile?
  {
    j := |landings| - 1;
    var l := landings[j];
    if !(l.src == Some(path) && (l.kind.UnitFile? || l.kind.DropInFile?)) {
      j := ShippedFileLands(landings[..|landings| - 1], path);
    }
  }

  /** Nothing of the packages is forgotten: when the gate exits 0, a systemd fragment not named as
      deliberately unshipped is the source of a landed drop-in, or of a landed unit that holds. */
  lemma FragmentIsJudged(p: Policy, tree: Tree, landings: seq<Installs.Landing>, activations: seq<(string, string)>,
                         found: seq<Finding>, i: nat) returns (j: nat)
    requires ExitsClean(p, tree, landings, activations, found) && i < |tree.files| && tree.fragment(tree.files[i])
    requires tree.files[i] !in p.notShipped
    ensures j < |landings| && landings[j].src == Some(tree.files[i])
    ensures IsUnit(landings[j]) || landings[j].kind.DropInFile?
    ensures IsUnit(landings[j]) ==>
              UnitHolds(p, tree.name(tree.files[i]), FactsFor(tree, landings, KeyOf(landings[j])))
  {
    j := ShippedFileLands(landings, tree.files[i]);
    if IsUnit(landings[j]) { LandedUnitHolds(p, tree, landings, landings[j]); }
  }
}
