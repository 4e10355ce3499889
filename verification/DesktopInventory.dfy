/** os/repo-tools/check-desktop-inventory.py: which packages are Lisa's forks, ours, ports and stock,
    what a fork's contract must be, and how a manifest is judged on its lane. Tables are parameters.

    A clean report means the tree and the image are sound; `ForkDelivered` and `ClaimDelivered` say
    what that is worth for a stock name a fork replaces. */
module DesktopInventory {
  import opened Common

  // ------------------------------------------------------- a package's claims

  // `offers` is provides=, `excludes` conflicts=, `supplants` replaces=.
  datatype Pkg = Pkg(name: string, offers: seq<string>, excludes: seq<string>, supplants: seq<string>)

  // `s.split(c)[0]`.
  function UpTo(s: string, c: char): (r: string)
    ensures |r| <= |s| && r == s[..|r|] && c !in r
    ensures c !in s ==> r == s
  {
    if s == "" || s[0] == c then "" else [s[0]] + UpTo(s[1..], c)
  }

  // The name before `=`.
  function Exact(entry: string): string {
    UpTo(entry, '=')
  }

  // The name before any constraint.
  function Base(entry: string): string {
    UpTo(UpTo(UpTo(entry, '='), '<'), '>')
  }

  // `is_lisa_name` and `is_soname`, any two predicates here.
  datatype Naming = Naming(lisa: string -> bool, soname: string -> bool)

  predicate Foreign(ns: Naming, name: string) {
    name != "" && !ns.lisa(name) && !ns.soname(name)
  }

  function ForeignIn(ns: Naming, entries: seq<string>): set<string> {
    if entries == [] then {}
    else
      var base := Base(entries[|entries| - 1]);
      ForeignIn(ns, entries[..|entries| - 1]) + (if Foreign(ns, base) then {base} else {})
  }

  // `Pkg.claims`.
  function Claims(ns: Naming, p: Pkg): set<string> {
    ForeignIn(ns, p.offers + p.excludes + p.supplants)
  }

  predicate Names(entries: seq<string>, stock: string) {
    exists i | 0 <= i < |entries| :: Exact(entries[i]) == stock
  }

  // R2 and R8 for one fork: every name it claims is provided, conflicted and replaced.
  ghost predicate Contract(ns: Naming, p: Pkg) {
    forall stock | stock in Claims(ns, p) :: Names(p.offers, stock) && Names(p.excludes, stock)
        && Names(p.supplants, stock)
  }

  ghost predicate Mentions(entries: seq<string>, name: string) {
    exists i | 0 <= i < |entries| :: Base(entries[i]) == name
  }

  // Of any reading `base` of the entries.
  lemma LastCounts(base: string -> string, entries: seq<string>, name: string)
    requires entries != []
    ensures var n := |entries| - 1;
            (exists i | 0 <= i < |entries| :: base(entries[i]) == name)
            <==> (exists i | 0 <= i < n :: base(entries[..n][i]) == name) || base(entries[n]) == name
  {
    var n := |entries| - 1;
    if i :| 0 <= i < |entries| && base(entries[i]) == name {
      if i < n { assert base(entries[..n][i]) == name; }
    }
    if i :| 0 <= i < n && base(entries[..n][i]) == name { assert base(entries[i]) == name; }
  }

  lemma MentionsLast(entries: seq<string>, name: string)
    requires entries != []
    ensures Mentions(entries, name) <==>
              Mentions(entries[..|entries| - 1], name) || Base(entries[|entries| - 1]) == name
  {
    LastCounts(Base, entries, name);
  }

  lemma {:induction false} ForeignMember(ns: Naming, entries: seq<string>, name: string)
    ensures name in ForeignIn(ns, entries) <==> Mentions(entries, name) && Foreign(ns, name)
  {
    if entries != [] {
      ForeignMember(ns, entries[..|entries| - 1], name);
      MentionsLast(entries, name);
    }
  }

  lemma ForeignConcat(ns: Naming, a: seq<string>, b: seq<string>, name: string)
    ensures name in ForeignIn(ns, a + b) <==> name in ForeignIn(ns, a) || name in ForeignIn(ns, b)
  {
    ForeignMember(ns, a + b, name);
    ForeignMember(ns, a, name);
    ForeignMember(ns, b, name);
    if i :| 0 <= i < |a| && Base(a[i]) == name { assert Base((a + b)[i]) == name; }
    if i :| 0 <= i < |b| && Base(b[i]) == name { assert Base((a + b)[|a| + i]) == name; }
    if i :| 0 <= i < |a + b| && Base((a + b)[i]) == name {
      if i < |a| { assert Base(a[i]) == name; } else { assert Base(b[i - |a|]) == name; }
    }
  }

  lemma BareName(name: string, entry: string)
    requires Exact(entry) == name && '<' !in name && '>' !in name
    ensures Base(entry) == name
  {}

  lemma BaseIsBare(entry: string)
    ensures '<' !in Base(entry) && '>' !in Base(entry)
  {
    var a := UpTo(entry, '=');
    var b := UpTo(a, '<');
    var c := UpTo(b, '>');
    assert forall i | 0 <= i < |c| :: c[i] == b[i] && b[i] in b;
  }

  lemma NamesIsForeign(ns: Naming, entries: seq<string>, stock: string)
    requires Names(entries, stock) && Foreign(ns, stock) && '<' !in stock && '>' !in stock
    ensures stock in ForeignIn(ns, entries)
  {
    var i :| 0 <= i < |entries| && Exact(entries[i]) == stock;
    BareName(stock, entries[i]);
    ForeignMember(ns, entries, stock);
  }

  lemma ClaimIsForeign(ns: Naming, p: Pkg, stock: string)
    ensures stock in Claims(ns, p) <==>
              stock in ForeignIn(ns, p.offers) || stock in ForeignIn(ns, p.excludes)
                  || stock in ForeignIn(ns, p.supplants)
    ensures stock in Claims(ns, p) ==> Foreign(ns, stock) && '<' !in stock && '>' !in stock
  {
    ForeignConcat(ns, p.offers + p.excludes, p.supplants, stock);
    ForeignConcat(ns, p.offers, p.excludes, stock);
    ForeignMember(ns, p.offers + p.excludes + p.supplants, stock);
    if stock in Claims(ns, p) {
      var entries := p.offers + p.excludes + p.supplants;
      var i :| 0 <= i < |entries| && Base(entries[i]) == stock;
      BaseIsBare(entries[i]);
    }
  }

  /** A fork that passes provides, conflicts with and replaces the same foreign names, each without a
      range: a constraint like `>=` on an entry makes a claim that the contract then does not meet. */
  lemma ContractCovers(ns: Naming, p: Pkg)
    requires Contract(ns, p)
    ensures ForeignIn(ns, p.offers) == ForeignIn(ns, p.excludes) == ForeignIn(ns, p.supplants) == Claims(ns, p)
    ensures forall stock | stock in ForeignIn(ns, p.excludes) :: Names(p.offers, stock) && Names(p.supplants, stock)
  {
    forall stock
      ensures stock in ForeignIn(ns, p.offers) <==> stock in Claims(ns, p)
      ensures stock in ForeignIn(ns, p.excludes) <==> stock in Claims(ns, p)
      ensures stock in ForeignIn(ns, p.supplants) <==> stock in Claims(ns, p)
    {
      ClaimIsForeign(ns, p, stock);
      if stock in Claims(ns, p) {
        NamesIsForeign(ns, p.offers, stock);
        NamesIsForeign(ns, p.excludes, stock);
        NamesIsForeign(ns, p.supplants, stock);
      }
    }
  }

  // ------------------------------------------------------- the inventory

  // The tables: packages of another repository with the stock name each replaces, ports, and stock.
  datatype Policy = Policy(outOfTree: seq<(string, string)>, ports: set<string>, foundation: set<string>,
                           interim: set<string>,
                           debt: set<string>, ceiling: Option<nat>)

  // `Inventory`: a fork out of tree has no package here.
  datatype Inventory = Inventory(
    built: set<string>, forks: map<string, Option<Pkg>>, ours: set<string>, ports: set<string>,
    replaced: map<string, string>, strays: seq<string>)

  function Replacing(stocks: set<string>, name: string): map<string, string> {
    map s | s in stocks :: name
  }

  // What the packages built here make of it, in name order; a later claim on a stock name wins.
  function FromBuilt(ns: Naming, ports: set<string>, pkgs: seq<Pkg>): Inventory {
    if pkgs == [] then Inventory({}, map[], {}, {}, map[], [])
    else WithPkg(ns, ports, FromBuilt(ns, ports, pkgs[..|pkgs| - 1]), pkgs[|pkgs| - 1])
  }

  function WithPkg(ns: Naming, ports: set<string>, v: Inventory, p: Pkg): Inventory {
    var u := v.(built := v.built + {p.name});
    var claims := Claims(ns, p);
    if ns.lisa(p.name) then
      (if claims != {} then u.(forks := u.forks[p.name := Some(p)],
            replaced := u.replaced + Replacing(claims, p.name))
       else u.(ours := u.ours + {p.name}))
    else if p.name in ports then u.(ports := u.ports + {p.name})
    else u.(strays := u.strays + [p.name])
  }

  // `setdefault` for each record of another repository.
  function WithOthers(v: Inventory, others: seq<(string, string)>): Inventory {
    if others == [] then v
    else
      var (name, stock), u := others[|others| - 1], WithOthers(v, others[..|others| - 1]);
      u.(forks := if name in u.forks then u.forks else u.forks[name := None],
         replaced := if stock in u.replaced then u.replaced else u.replaced[stock := name])
  }

  /** `Inventory.__init__`, from the packages in name order. */
  method Take(ns: Naming, policy: Policy, pkgs: seq<Pkg>) returns (v: Inventory)
    ensures v == WithOthers(FromBuilt(ns, policy.ports, pkgs), policy.outOfTree)
  {
    v := Inventory({}, map[], {}, {}, map[], []);
    for i := 0 to |pkgs|
      invariant v == FromBuilt(ns, policy.ports, pkgs[..i])
    {
      var p := pkgs[i];
      assert pkgs[..i + 1][..i] == pkgs[..i];
      var claims := Claims(ns, p);
      assert FromBuilt(ns, policy.ports, pkgs[..i + 1]) == WithPkg(ns, policy.ports, v, p);
      v := v.(built := v.built + {p.name});
      if ns.lisa(p.name) {
        if claims != {} {
          v := v.(forks := v.forks[p.name := Some(p)], replaced := v.replaced + Replacing(claims, p.name));
        } else {
          v := v.(ours := v.ours + {p.name});
        }
      } else if p.name in policy.ports {
        v := v.(ports := v.ports + {p.name});
      } else {
        v := v.(strays := v.strays + [p.name]);
      }
    }
    assert pkgs[..|pkgs|] == pkgs;
    var others := policy.outOfTree;
    ghost var own := v;
    for i := 0 to |others|
      invariant v == WithOthers(own, others[..i])
    {
      assert others[..i + 1][..i] == others[..i];
      var (name, stock) := others[i];
      if name !in v.forks { v := v.(forks := v.forks[name := None]); }
      if stock !in v.replaced { v := v.(replaced := v.replaced[stock := name]); }
    }
    assert others[..|others|] == others;
  }

  // Every recorded replacement is by a fork, and every fork of this tree claims something.
  ghost predicate Recorded(ns: Naming, v: Inventory) {
    (forall s | s in v.replaced :: v.replaced[s] in v.forks)
    && (forall n | n in v.forks && v.forks[n].Some? ::
          v.forks[n].value.name == n && Claims(ns, v.forks[n].value) != {}
              && forall s | s in Claims(ns, v.forks[n].value) :: s in v.replaced)
  }

  lemma {:induction false} BuiltRecorded(ns: Naming, ports: set<string>, pkgs: seq<Pkg>)
    ensures Recorded(ns, FromBuilt(ns, ports, pkgs))
  {
    if pkgs != [] { BuiltRecorded(ns, ports, pkgs[..|pkgs| - 1]); }
  }

  lemma {:induction false} OthersRecorded(ns: Naming, v: Inventory, others: seq<(string, string)>)
    requires Recorded(ns, v)
    ensures Recorded(ns, WithOthers(v, others))
  {
    if others != [] { OthersRecorded(ns, v, others[..|others| - 1]); }
  }

  function InventoryOf(ns: Naming, policy: Policy, pkgs: seq<Pkg>): Inventory {
    WithOthers(FromBuilt(ns, policy.ports, pkgs), policy.outOfTree)
  }

  lemma AllRecorded(ns: Naming, policy: Policy, pkgs: seq<Pkg>)
    ensures Recorded(ns, InventoryOf(ns, policy, pkgs))
  {
    BuiltRecorded(ns, policy.ports, pkgs);
    OthersRecorded(ns, FromBuilt(ns, policy.ports, pkgs), policy.outOfTree);
  }

  // ------------------------------------------------------- the inventory, by the tables

  // What a package built here is.
  datatype Standing = AFork | AnOurs | APort | AStray

  function StandingOf(ns: Naming, ports: set<string>, p: Pkg): Standing {
    if ns.lisa(p.name) && Claims(ns, p) != {} then AFork
    else if ns.lisa(p.name) then AnOurs
    else if p.name in ports then APort
    else AStray
  }

  // Some package built here has this name and this standing.
  ghost predicate BuiltAs(ns: Naming, ports: set<string>, pkgs: seq<Pkg>, name: string, standing: Standing) {
    exists p | p in pkgs :: p.name == name && StandingOf(ns, ports, p) == standing
  }

  // Some fork built here claims the stock name.
  ghost predicate Claimed(ns: Naming, pkgs: seq<Pkg>, stock: string) {
    exists p | p in pkgs :: ns.lisa(p.name) && stock in Claims(ns, p)
  }

  ghost predicate BuiltHere(pkgs: seq<Pkg>, name: string) {
    exists p | p in pkgs :: p.name == name
  }

  // Another repository records the stock name as replaced.
  predicate RecordedElsewhere(others: seq<(string, string)>, stock: string) {
    exists i | 0 <= i < |others| :: others[i].1 == stock
  }

  predicate ForkElsewhere(others: seq<(string, string)>, name: string) {
    exists i | 0 <= i < |others| :: others[i].0 == name
  }

  /** Where a name stands, by the packages and the tables alone: a package of Lisa's that claims something
      is a fork and one that claims nothing is ours, one that is not Lisa's is a port if the table says so
      and a stray if not; forks and replacements of other repositories come on top. */
  ghost predicate Tabled(ns: Naming, ports: set<string>, pkgs: seq<Pkg>, others: seq<(string, string)>, v: Inventory,
                         name: string) {
    (name in v.built <==> BuiltHere(pkgs, name))
    && (name in v.forks <==> BuiltAs(ns, ports, pkgs, name, AFork) || ForkElsewhere(others, name))
    && (name in v.ours <==> BuiltAs(ns, ports, pkgs, name, AnOurs))
    && (name in v.ports <==> BuiltAs(ns, ports, pkgs, name, APort))
    && (name in v.strays <==> BuiltAs(ns, ports, pkgs, name, AStray))
    && (name in v.replaced <==> Claimed(ns, pkgs, name) || RecordedElsewhere(others, name))
  }

  lemma StandingMore(ns: Naming, ports: set<string>, pkgs: seq<Pkg>, p: Pkg, name: string)
    ensures BuiltHere(pkgs + [p], name) <==> BuiltHere(pkgs, name) || p.name == name
    ensures Claimed(ns, pkgs + [p], name) <==> Claimed(ns, pkgs, name) || (ns.lisa(p.name) && name in Claims(ns, p))
    ensures forall standing ::
              BuiltAs(ns, ports, pkgs + [p], name, standing)
              <==> BuiltAs(ns, ports, pkgs, name, standing) || (p.name == name && StandingOf(ns, ports, p) == standing)
  {
    assert forall q :: q in pkgs + [p] <==> q in pkgs || q == p;
  }

  lemma TabledMore(ns: Naming, ports: set<string>, pkgs: seq<Pkg>, p: Pkg, v: Inventory, name: string)
    requires Tabled(ns, ports, pkgs, [], v, name)
    ensures Tabled(ns, ports, pkgs + [p], [], WithPkg(ns, ports, v, p), name)
  {
    StandingMore(ns, ports, pkgs, p, name);
    PkgAdds(ns, ports, v, p, name);
  }

  // One package more, field by field.
  lemma PkgAdds(ns: Naming, ports: set<string>, v: Inventory, p: Pkg, name: string)
    ensures var u, st := WithPkg(ns, ports, v, p), StandingOf(ns, ports, p);
            (name in u.built <==> name in v.built || p.name == name)
            && (name in u.forks <==> name in v.forks || (p.name == name && st == AFork))
            && (name in u.ours <==> name in v.ours || (p.name == name && st == AnOurs))
            && (name in u.ports <==> name in v.ports || (p.name == name && st == APort))
            && (name in u.strays <==> name in v.strays || (p.name == name && st == AStray))
            && (name in u.replaced <==> name in v.replaced || (ns.lisa(p.name) && name in Claims(ns, p)))
            && (name in u.replaced ==>
                  u.replaced[name] == if ns.lisa(p.name) && name in Claims(ns, p) then p.name else v.replaced[name])
  {}

  lemma {:induction false} BuiltTabled(ns: Naming, ports: set<string>, pkgs: seq<Pkg>, name: string)
    ensures Tabled(ns, ports, pkgs, [], FromBuilt(ns, ports, pkgs), name)
  {
    if pkgs != [] {
      var n := |pkgs| - 1;
      BuiltTabled(ns, ports, pkgs[..n], name);
      TabledMore(ns, ports, pkgs[..n], pkgs[n], FromBuilt(ns, ports, pkgs[..n]), name);
      assert pkgs == pkgs[..n] + [pkgs[n]];
    }
  }

  // The fork on record for a stock name: the last one built here that claims it.
  ghost predicate LastClaim(ns: Naming, pkgs: seq<Pkg>, stock: string, i: nat) {
    i < |pkgs| && ns.lisa(pkgs[i].name) && stock in Claims(ns, pkgs[i])
    && forall j | i < j < |pkgs| :: !(ns.lisa(pkgs[j].name) && stock in Claims(ns, pkgs[j]))
  }

  lemma {:induction false} LastClaimWins(ns: Naming, ports: set<string>, pkgs: seq<Pkg>, stock: string, i: nat)
    requires LastClaim(ns, pkgs, stock, i)
    ensures var v := FromBuilt(ns, ports, pkgs); stock in v.replaced && v.replaced[stock] == pkgs[i].name
  {
    var n := |pkgs| - 1;
    if i < n {
      LastClaimFront(ns, pkgs, stock, i);
      LastClaimWins(ns, ports, pkgs[..n], stock, i);
    }
    PkgAdds(ns, ports, FromBuilt(ns, ports, pkgs[..n]), pkgs[n], stock);
  }

  lemma LastClaimFront(ns: Naming, pkgs: seq<Pkg>, stock: string, i: nat)
    requires LastClaim(ns, pkgs, stock, i) && i < |pkgs| - 1
    ensures var n := |pkgs| - 1;
            LastClaim(ns, pkgs[..n], stock, i) && !(ns.lisa(pkgs[n].name) && stock in Claims(ns, pkgs[n]))
  {
    assert forall j | 0 <= j < |pkgs| - 1 :: pkgs[..|pkgs| - 1][j] == pkgs[j];
  }

  lemma {:induction false} OthersAdd(v: Inventory, others: seq<(string, string)>, name: string)
    ensures var u := WithOthers(v, others);
            (name in u.forks <==> name in v.forks || ForkElsewhere(others, name))
            && (name in u.replaced <==> name in v.replaced || RecordedElsewhere(others, name))
            && (name in v.replaced ==> u.replaced[name] == v.replaced[name])
            && (name in v.forks ==> u.forks[name] == v.forks[name])
            && (name in u.forks && name !in v.forks ==> u.forks[name] == None)
            && u.built == v.built && u.ours == v.ours && u.ports == v.ports && u.strays == v.strays
  {
    if others != [] {
      var n := |others| - 1;
      OthersAdd(v, others[..n], name);
      assert forall i | 0 <= i < n :: others[..n][i] == others[i];
      assert ForkElsewhere(others, name) <==> ForkElsewhere(others[..n], name) || others[n].0 == name;
      assert RecordedElsewhere(others, name) <==> RecordedElsewhere(others[..n], name) || others[n].1 == name;
    }
  }

  /** The inventory has every name where the packages and tables put it. */
  lemma InventoryTabled(ns: Naming, policy: Policy, pkgs: seq<Pkg>, name: string)
    ensures Tabled(ns, policy.ports, pkgs, policy.outOfTree, InventoryOf(ns, policy, pkgs), name)
  {
    BuiltTabled(ns, policy.ports, pkgs, name);
    OthersAdd(FromBuilt(ns, policy.ports, pkgs), policy.outOfTree, name);
  }

  /** Of several forks built here that claim a stock name, the last is on record, and a record of another
      repository does not displace it. */
  lemma LastClaimOnRecord(ns: Naming, policy: Policy, pkgs: seq<Pkg>, stock: string, i: nat)
    requires LastClaim(ns, pkgs, stock, i)
    ensures var v := InventoryOf(ns, policy, pkgs); stock in v.replaced && v.replaced[stock] == pkgs[i].name
  {
    LastClaimWins(ns, policy.ports, pkgs, stock, i);
    OthersAdd(FromBuilt(ns, policy.ports, pkgs), policy.outOfTree, stock);
  }

  // ------------------------------------------------------- judging the tree

  // `sorted`: a set as the list of its elements.
  type Order = set<string> -> seq<string>

  ghost predicate Lists(order: Order) {
    forall names: set<string> :: forall x :: x in order(names) <==> x in names
  }

  datatype Finding =
    | Stray(name: string) | HalfContract(fork: string, stock: string)
    | ForksFoundation(stock: string) | BuildsFoundation(name: string)
    | TwoBuckets(name: string) | InterimReplaced(stock: string) | Unclassified(lane: string, name: string)
    | NoForks | NoOurs | EmptyLane(lane: string) | NoCeiling | OverCeiling | UnderCeiling
    | DebtDeclared(name: string) | Undeclared(name: string)
    | NoKernel | OtherKernel(name: string) | StockInstalled(stock: string) | NotInstalled(name: string)
    | FoundationMissing(name: string) | InterimMissing(name: string) | Unaccounted(name: string)

  // The loop every rule is: a finding for each name that fails it.
  method Findings(names: seq<string>, ok: string -> bool, finding: string -> Finding) returns (found: seq<Finding>)
    ensures found == [] <==> forall n | n in names :: ok(n)
    ensures forall e :: e in found <==> exists n :: n in names && !ok(n) && finding(n) == e
  {
    found := [];
    for i := 0 to |names|
      invariant found == [] <==> forall n | n in names[..i] :: ok(n)
      invariant forall e :: e in found <==> exists n :: n in names[..i] && !ok(n) && finding(n) == e
    {
      assert names[..i + 1] == names[..i] + [names[i]];
      if !ok(names[i]) { found := found + [finding(names[i])]; }
    }
    assert names[..|names|] == names;
  }

  function Lines(lanes: map<string, map<string, string>>): set<string> {
    set l, n | l in lanes && n in lanes[l] :: n
  }

  // What no finding of `__init__` and `check_repo` means.
  ghost predicate TreeSound(ns: Naming, policy: Policy, v: Inventory, lanes: map<string, map<string, string>>) {
    v.strays == []
    && (forall n | n in v.forks && v.forks[n].Some? :: Contract(ns, v.forks[n].value))
    && v.replaced.Keys !! policy.foundation && v.built !! policy.foundation
    && policy.foundation !! policy.interim && (policy.foundation + policy.interim) !! policy.ports
    && v.replaced.Keys !! policy.interim
    && (forall l, n | l in lanes && n in lanes[l] && ns.lisa(n) :: n in v.built || Elsewhere(policy, n))
    && v.forks != map[] && v.ours != {} && (forall l | l in lanes :: lanes[l] != map[])
    && policy.ceiling == Some(|policy.debt|)
    && (forall n | n in policy.foundation + policy.interim :: n in Lines(lanes) <==> n !in policy.debt)
  }

  predicate Elsewhere(policy: Policy, name: string) {
    ForkElsewhere(policy.outOfTree, name)
  }

  // R2 and R8.
  method CheckContracts(ns: Naming, v: Inventory, order: Order) returns (found: seq<Finding>)
    requires Lists(order)
    ensures found == [] <==> forall n | n in v.forks && v.forks[n].Some? :: Contract(ns, v.forks[n].value)
  {
    found := [];
    var names := order(v.forks.Keys);
    for i := 0 to |names|
      invariant found == [] <==> forall n | n in names[..i] && v.forks[n].Some? :: Contract(ns, v.forks[n].value)
    {
      var name := names[i];
      assert name in names;
      assert names[..i + 1] == names[..i] + [name];
      if v.forks[name].Some? {
        var p := v.forks[name].value;
        var broken := Findings(order(Claims(ns, p)),
          s => Names(p.offers, s) && Names(p.excludes, s) && Names(p.supplants, s), s => HalfContract(name, s));
        found := found + broken;
      }
    }
    assert names[..|names|] == names;
  }

  // R5.
  method CheckLanes(ns: Naming, policy: Policy, v: Inventory, lanes: map<string, map<string, string>>, order: Order)
    returns (found: seq<Finding>)
    requires Lists(order)
    ensures found == [] <==>
              (forall l, n | l in lanes && n in lanes[l] && ns.lisa(n) :: n in v.built || Elsewhere(policy, n))
              && forall l | l in lanes :: lanes[l] != map[]
  {
    found := [];
    var names := order(lanes.Keys);
    for i := 0 to |names|
      invariant found == [] <==>
                  (forall l, n | l in names[..i] && l in lanes && n in lanes[l] && ns.lisa(n) :: n in v.built
                        || Elsewhere(policy, n))
                  && forall l | l in names[..i] && l in lanes :: lanes[l] != map[]
    {
      var lane := names[i];
      assert lane in names;
      assert names[..i + 1] == names[..i] + [lane];
      var unknown := Findings(order(lanes[lane].Keys), n => !ns.lisa(n) || n in v.built
            || Elsewhere(policy, n), n => Unclassified(lane, n));
      found := found + unknown;
      if lanes[lane] == map[] { found := found + [EmptyLane(lane)]; }
    }
    assert names[..|names|] == names;
  }

  // R1, R3 and R4.
  method CheckNames(policy: Policy, v: Inventory, order: Order) returns (found: seq<Finding>)
    requires Lists(order)
    ensures found == [] <==>
              (v.strays == []
               && v.replaced.Keys !! policy.foundation && v.built !! policy.foundation
               && policy.foundation !! policy.interim && (policy.foundation + policy.interim) !! policy.ports
               && v.replaced.Keys !! policy.interim)
  {
    var strays := Findings(v.strays, n => false, n => Stray(n));
    var forked := Findings(order(v.replaced.Keys), n => n !in policy.foundation, n => ForksFoundation(n));
    var rebuilt := Findings(order(v.built), n => n !in policy.foundation, n => BuildsFoundation(n));
    var both := Findings(order(policy.foundation * policy.interim), n => false, n => TwoBuckets(n));
    var ported := Findings(order((policy.foundation + policy.interim) * policy.ports), n => false, n => TwoBuckets(n));
    var replaced := Findings(order(v.replaced.Keys), n => n !in policy.interim, n => InterimReplaced(n));
    StraysEmpty(v.strays);
    Meet(policy.foundation, policy.interim, order);
    Meet(policy.foundation + policy.interim, policy.ports, order);
    assert forked == [] <==> v.replaced.Keys !! policy.foundation;
    assert rebuilt == [] <==> v.built !! policy.foundation;
    assert replaced == [] <==> v.replaced.Keys !! policy.interim;
    found := strays + forked + rebuilt + both + ported + replaced;
  }

  /** `check_repo`, with what `__init__` already found: nothing is found exactly when the tree is sound. */
  method CheckRepo(ns: Naming, policy: Policy, v: Inventory, lanes: map<string, map<string, string>>, order: Order)
    returns (found: seq<Finding>)
    requires Lists(order)
    ensures found == [] <==> TreeSound(ns, policy, v, lanes)
  {
    var contracts := CheckContracts(ns, v, order);
    var names := CheckNames(policy, v, order);
    var declared := CheckLanes(ns, policy, v, lanes, order);
    var floors := (if v.forks == map[] then [NoForks] else []) + (if v.ours == {} then [NoOurs] else []);
    var ratchet := if policy.ceiling.None? then [NoCeiling]
        else if |policy.debt| > policy.ceiling.value then [OverCeiling]
                   else if |policy.debt| < policy.ceiling.value then [UnderCeiling] else [];
    var anywhere := Lines(lanes);
    var debts := Findings(order(policy.foundation + policy.interim), n => n in anywhere <==> n !in policy.debt,
                          n => if n in anywhere then DebtDeclared(n) else Undeclared(n));
    found := contracts + names + declared + floors + ratchet + debts;
  }

  lemma Meet(a: set<string>, b: set<string>, order: Order)
    requires Lists(order)
    ensures a !! b <==> forall n :: n !in order(a * b)
  {
    assert forall n :: n in order(a * b) <==> n in a && n in b;
  }

  lemma StraysEmpty(names: seq<string>)
    ensures names == [] <==> forall n :: n !in names
  {
    if names != [] { assert names[0] in names; }
  }

  // ------------------------------------------------------- judging an image

  // What no finding of `check_manifest` means: `decls` are the lane's declarations, `manifest` what is installed.
  ghost predicate ImageSound(ns: Naming, policy: Policy, v: Inventory, decls: map<string, string>,
                             manifest: map<string, string>,
                             kernel: string, kernels: set<string>) {
    kernel in manifest && (forall k | k in kernels && k != kernel :: k !in manifest)
    && (forall s | s in v.replaced && s in manifest :: s in decls && v.replaced[s] !in decls)
    && (forall n | n in v.forks.Keys + v.ours + v.ports && n in decls :: n in manifest)
    && policy.foundation <= manifest.Keys && policy.interim <= manifest.Keys
    && forall n | n in manifest && ns.lisa(n) :: n in v.built || Elsewhere(policy, n)
  }

  // M4 and M6.
  method CheckGround(policy: Policy, manifest: map<string, string>, kernel: string, kernels: set<string>, order: Order)
    returns (found: seq<Finding>)
    requires Lists(order)
    ensures found == [] <==>
              (kernel in manifest && (forall k | k in kernels && k != kernel :: k !in manifest)
               && policy.foundation <= manifest.Keys && policy.interim <= manifest.Keys)
    ensures forall e | e in found :: !e.StockInstalled?
  {
    var others := Findings(order(kernels), n => n == kernel || n !in manifest, n => OtherKernel(n));
    var ground := Findings(order(policy.foundation), n => n in manifest, n => FoundationMissing(n));
    var interim := Findings(order(policy.interim), n => n in manifest, n => InterimMissing(n));
    found := (if kernel in manifest then [] else [NoKernel]) + others + ground + interim;
    assert others == [] <==> forall k | k in kernels && k != kernel :: k !in manifest;
    assert ground == [] <==> policy.foundation <= manifest.Keys;
    assert interim == [] <==> policy.interim <= manifest.Keys;
  }

  // M2, M3 and M5.
  method CheckNamespace(ns: Naming, policy: Policy, v: Inventory, decls: map<string, string>,
                        manifest: map<string, string>, order: Order)
    returns (found: seq<Finding>)
    requires Lists(order)
    ensures found == [] <==>
              ((forall n | n in v.forks.Keys + v.ours + v.ports && n in decls :: n in manifest)
               && forall n | n in manifest && ns.lisa(n) :: n in v.built || Elsewhere(policy, n))
    ensures forall e | e in found :: !e.StockInstalled?
  {
    var members := v.forks.Keys + v.ours + v.ports;
    var absent := Findings(order(members), n => n !in decls || n in manifest, n => NotInstalled(n));
    var unknown := Findings(order(manifest.Keys), n => !ns.lisa(n) || n in v.built
          || Elsewhere(policy, n), n => Unaccounted(n));
    found := absent + unknown;
    assert absent == [] <==> forall n | n in members && n in decls :: n in manifest;
    assert unknown == [] <==> forall n | n in manifest && ns.lisa(n) :: n in v.built || Elsewhere(policy, n);
  }

  // M1.
  method CheckStock(v: Inventory, decls: map<string, string>, manifest: map<string, string>, order: Order)
    returns (found: seq<Finding>)
    requires Lists(order)
    ensures forall e | e in found :: e.StockInstalled?
    ensures forall s :: StockInstalled(s) in found <==>
              s in v.replaced && s in manifest && !(s in decls && v.replaced[s] !in decls)
  {
    var replaced := v.replaced;
    found := Findings(order(v.replaced.Keys), s => s !in replaced || s !in manifest
          || (s in decls && replaced[s] !in decls),
                      s => StockInstalled(s));
  }

  /** `check_manifest`: nothing is found exactly when the image is sound on its lane, and a stock name is
      reported exactly when it is installed in a fork's place without being the lane's own choice. */
  method CheckManifest(ns: Naming, policy: Policy, v: Inventory, decls: map<string, string>,
                       manifest: map<string, string>,
                       kernel: string, kernels: set<string>, order: Order) returns (found: seq<Finding>)
    requires Lists(order)
    ensures found == [] <==> ImageSound(ns, policy, v, decls, manifest, kernel, kernels)
    ensures forall s :: StockInstalled(s) in found <==>
              s in v.replaced && s in manifest && !(s in decls && v.replaced[s] !in decls)
  {
    var ground := CheckGround(policy, manifest, kernel, kernels, order);
    var stock := CheckStock(v, decls, manifest, order);
    var namespace := CheckNamespace(ns, policy, v, decls, manifest, order);
    found := ground + stock + namespace;
    if stock != [] {
      assert stock[0] in stock;
      assert StockInstalled(stock[0].stock) in stock;
    }
  }

  /** A passing image delivers its forks: for every recorded (stock, fork) pair, a fork the lane declares
      is installed and its stock name is absent. */
  lemma ForkDelivered(ns: Naming, policy: Policy, pkgs: seq<Pkg>, decls: map<string, string>,
                      manifest: map<string, string>,
                      kernel: string, kernels: set<string>, stock: string)
    requires var v := InventoryOf(ns, policy, pkgs);
             ImageSound(ns, policy, v, decls, manifest, kernel, kernels) && stock in v.replaced
                 && v.replaced[stock] in decls
    ensures var v := InventoryOf(ns, policy, pkgs); v.replaced[stock] in manifest && stock !in manifest
  {
    AllRecorded(ns, policy, pkgs);
  }

  /** Said of a fork's claims rather than of the record, one case more is open: a declared fork is
      installed, and a stock name it claims is absent unless another fork's claim on the same name is the
      one on record, the lane does not declare that fork, and it does declare the stock name. */
  lemma ClaimDelivered(ns: Naming, policy: Policy, pkgs: seq<Pkg>, decls: map<string, string>,
                       manifest: map<string, string>,
                       kernel: string, kernels: set<string>, fork: string, stock: string)
    requires var v := InventoryOf(ns, policy, pkgs);
             ImageSound(ns, policy, v, decls, manifest, kernel, kernels)
             && fork in v.forks && v.forks[fork].Some? && stock in Claims(ns, v.forks[fork].value) && fork in decls
    ensures fork in manifest
    ensures var v := InventoryOf(ns, policy, pkgs);
            stock in v.replaced && (stock in manifest
                  ==> v.replaced[stock] != fork && v.replaced[stock] !in decls && stock in decls)
  {
    AllRecorded(ns, policy, pkgs);
    assert fork in InventoryOf(ns, policy, pkgs).forks.Keys;
  }

  // ------------------------------------------------------- the table

  datatype Bucket = Fork | ForkLost | Ours | Port | Foundation | Interim | Transitive

  // Where an installed name is counted.
  function BucketOf(policy: Policy, v: Inventory, name: string): Bucket {
    if name in v.forks then Fork
    else if name in v.replaced then ForkLost
    else if name in v.ours then Ours
    else if name in v.ports then Port
    else if name in policy.foundation then Foundation
    else if name in policy.interim then Interim
    else Transitive
  }

  function Only(policy: Policy, v: Inventory, names: seq<string>, b: Bucket): seq<string> {
    if names == [] then []
    else
      var before, last := Only(policy, v, names[..|names| - 1], b), names[|names| - 1];
      if BucketOf(policy, v, last) == b then before + [last] else before
  }

  function Empty(): map<Bucket, seq<string>> {
    map[Fork := [], ForkLost := [], Ours := [], Port := [], Foundation := [], Interim := [], Transitive := []]
  }

  lemma AllEmpty()
    ensures forall b :: b in Empty() && Empty()[b] == []
  {
    forall b ensures b in Empty() && Empty()[b] == [] {
      match b {
        case Fork => case ForkLost => case Ours => case Port => case Foundation => case Interim => case Transitive =>
      }
    }
  }

  /** `buckets`: each bucket lists its installed names in order. */
  method Buckets(policy: Policy, v: Inventory, names: seq<string>) returns (out: map<Bucket, seq<string>>)
    ensures forall b :: b in out && out[b] == Only(policy, v, names, b)
  {
    out := Empty();
    AllEmpty();
    for i := 0 to |names|
      invariant forall b :: b in out && out[b] == Only(policy, v, names[..i], b)
    {
      var name := names[i];
      assert names[..i + 1][..i] == names[..i];
      var b := if name in v.forks then Fork
        else if name in v.replaced then ForkLost
        else if name in v.ours then Ours
        else if name in v.ports then Port
        else if name in policy.foundation then Foundation
        else if name in policy.interim then Interim
        else Transitive;
      out := out[b := out[b] + [name]];
    }
    assert names[..|names|] == names;
  }

  lemma {:induction false} OnlyHolds(policy: Policy, v: Inventory, names: seq<string>, b: Bucket, name: string)
    ensures name in Only(policy, v, names, b) <==> name in names && BucketOf(policy, v, name) == b
  {
    if names != [] {
      OnlyHolds(policy, v, names[..|names| - 1], b, name);
      assert names == names[..|names| - 1] + [names[|names| - 1]];
    }
  }

  function Sizes(policy: Policy, v: Inventory, names: seq<string>): nat {
    |Only(policy, v, names, Fork)| + |Only(policy, v, names, ForkLost)| + |Only(policy, v, names, Ours)|
    + |Only(policy, v, names, Port)| + |Only(policy, v, names, Foundation)| + |Only(policy, v, names, Interim)|
    + |Only(policy, v, names, Transitive)|
  }

  lemma {:induction false} OneMore(policy: Policy, v: Inventory, names: seq<string>, b: Bucket)
    requires names != []
    ensures |Only(policy, v, names, b)| == |Only(policy, v, names[..|names| - 1], b)| + if BucketOf(policy, v,
              names[|names| - 1]) == b then 1 else 0
  {}

  lemma {:induction false} SizesAddUp(policy: Policy, v: Inventory, names: seq<string>)
    ensures Sizes(policy, v, names) == |names|
  {
    if names != [] {
      SizesAddUp(policy, v, names[..|names| - 1]);
      OneMore(policy, v, names, Fork);
      OneMore(policy, v, names, ForkLost);
      OneMore(policy, v, names, Ours);
      OneMore(policy, v, names, Port);
      OneMore(policy, v, names, Foundation);
      OneMore(policy, v, names, Interim);
      OneMore(policy, v, names, Transitive);
    }
  }

  /** The buckets partition the manifest: every installed name is in one and no other, and the sizes add up. */
  lemma BucketsPartition(policy: Policy, v: Inventory, names: seq<string>)
    ensures forall n, b :: n in Only(policy, v, names, b) <==> n in names && BucketOf(policy, v, n) == b
    ensures Sizes(policy, v, names) == |names|
  {
    forall n, b ensures n in Only(policy, v, names, b) <==> n in names && BucketOf(policy, v, n) == b {
      OnlyHolds(policy, v, names, b, n);
    }
    SizesAddUp(policy, v, names);
  }

  // The bucket of a name, by what it is: forks first, then stock names a fork replaces, then ours, ports,
  // foundation and interim names, and everything else.
  predicate BucketIs(b: Bucket, fork: bool, lost: bool, ours: bool, port: bool, foundation: bool, interim: bool) {
    match b
    case Fork => fork
    case ForkLost => !fork && lost
    case Ours => !fork && !lost && ours
    case Port => !fork && !lost && !ours && port
    case Foundation => !fork && !lost && !ours && !port && foundation
    case Interim => !fork && !lost && !ours && !port && !foundation && interim
    case Transitive => !fork && !lost && !ours && !port && !foundation && !interim
  }

  lemma BucketOfIs(policy: Policy, v: Inventory, n: string, b: Bucket)
    ensures BucketOf(policy, v, n) == b
       <==> BucketIs(b, n in v.forks, n in v.replaced, n in v.ours, n in v.ports, n in policy.foundation,
                     n in policy.interim)
  {}

  /** Which bucket an installed name is in, by the packages and the tables. */
  lemma BucketsTabled(ns: Naming, policy: Policy, pkgs: seq<Pkg>, names: seq<string>, n: string, b: Bucket)
    ensures n in Only(policy, InventoryOf(ns, policy, pkgs), names, b)
       <==> n in names
            && BucketIs(b, BuiltAs(ns, policy.ports, pkgs, n, AFork) || ForkElsewhere(policy.outOfTree, n),
                        Claimed(ns, pkgs, n) || RecordedElsewhere(policy.outOfTree, n),
                        BuiltAs(ns, policy.ports, pkgs, n, AnOurs), BuiltAs(ns, policy.ports, pkgs, n, APort),
                        n in policy.foundation, n in policy.interim)
  {
    var v := InventoryOf(ns, policy, pkgs);
    InventoryTabled(ns, policy, pkgs, n);
    OnlyHolds(policy, v, names, b, n);
    BucketOfIs(policy, v, n, b);
  }

  /** The table reads a passing image rightly: no declared fork's stock name is counted as stock, and the
      "fork lost" bucket holds only names the lane itself declares in the place of an undeclared fork. */
  lemma LostOnlyByDeclaration(ns: Naming, policy: Policy, pkgs: seq<Pkg>, decls: map<string, string>,
                              manifest: map<string, string>,
                              kernel: string, kernels: set<string>, names: seq<string>, n: string)
    requires ImageSound(ns, policy, InventoryOf(ns, policy, pkgs), decls, manifest, kernel, kernels)
    requires (forall x :: x in names <==> x in manifest)
             && n in Only(policy, InventoryOf(ns, policy, pkgs), names, ForkLost)
    ensures var v := InventoryOf(ns, policy, pkgs); n in v.replaced && n in decls && v.replaced[n] !in decls
  {
    OnlyHolds(policy, InventoryOf(ns, policy, pkgs), names, ForkLost, n);
  }
}
