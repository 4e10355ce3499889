/** `check` of os/repo-tools/check-fork-derivation.py: a derived PKGBUILD against the one it was
    derived from. A field reads as an array, a scalar or not at all, and a Python string counts as the
    sequence of its characters wherever the code treats it like a list. */
module ForkCheck {
  import opened Text

  datatype Value = Missing | List(items: seq<string>) | Str(text: string)

  type Fields = string -> Value

  // `x or []`.
  function OrEmpty(v: Value): Value {
    if v.Missing? || v == Str("") then List([]) else v
  }

  function Length(v: Value): nat {
    match v case Missing => 0 case List(xs) => |xs| case Str(s) => |s|
  }

  // The elements iterating over a value gives.
  function Element(v: Value, i: nat): string
    requires i < Length(v)
  {
    if v.List? then v.items[i] else [v.text[i]]
  }

  // `v[:n]`.
  function Take(v: Value, n: nat): Value {
    match v
    case Missing => v
    case List(xs) => List(if n <= |xs| then xs[..n] else xs)
    case Str(s) => Str(if n <= |s| then s[..n] else s)
  }

  // `x in v`: membership in a list, a substring of a string.
  predicate Has(v: Value, x: string) {
    match v case Missing => false case List(xs) => x in xs case Str(s) => Contains(s, x)
  }

  datatype Finding =
    | Differs(field: string)
    | Drops(field: string, missing: seq<string>)
    | NotPrefix
    | Lengths
    | Checksum(index: nat)

  // ------------------------------------------------------- what a faithful derivation is

  predicate Superset(theirs: Value, ours: Value) {
    theirs.Missing? || forall i | 0 <= i < Length(theirs) :: Has(OrEmpty(ours), Element(theirs, i))
  }

  predicate SumAt(theirs: Value, ours: Value, i: nat)
    requires i < Length(theirs)
  {
    i < Length(ours) && Element(ours, i) == Element(theirs, i)
  }

  predicate Faithful(mustMatch: seq<string>, superset: seq<string>, theirs: Fields, ours: Fields) {
    var srcA, srcB := OrEmpty(theirs("source")), OrEmpty(ours("source"));
    var sumA, sumB := OrEmpty(theirs("b2sums")), OrEmpty(ours("b2sums"));
    (forall f | f in mustMatch :: theirs(f) == ours(f))
    && (forall f | f in superset :: Superset(theirs(f), ours(f)))
    && Take(srcB, Length(srcA)) == srcA
    && Length(sumB) == Length(srcB)
    && forall i | 0 <= i < Length(sumA) :: SumAt(sumA, sumB, i)
  }

  // ------------------------------------------------------- the check

  method Missings(theirs: Value, ours: Value) returns (missing: seq<string>)
    ensures missing == [] <==> forall i | 0 <= i < Length(theirs) :: Has(ours, Element(theirs, i))
    ensures forall x :: x in missing <==> exists i ::
              0 <= i < Length(theirs) && Element(theirs, i) == x && !Has(ours, x)
  {
    missing := [];
    for i := 0 to Length(theirs)
      invariant missing == [] <==> forall k | 0 <= k < i :: Has(ours, Element(theirs, k))
      invariant forall x :: x in missing <==> exists k :: 0 <= k < i && Element(theirs, k) == x && !Has(ours, x)
    {
      if !Has(ours, Element(theirs, i)) { missing := missing + [Element(theirs, i)]; }
    }
  }

  method Matches(mustMatch: seq<string>, theirs: Fields, ours: Fields) returns (errors: seq<Finding>)
    ensures forall e | e in errors :: e.Differs?
    ensures forall f :: Differs(f) in errors <==> f in mustMatch && theirs(f) != ours(f)
    ensures errors == [] <==> forall f | f in mustMatch :: theirs(f) == ours(f)
  {
    errors := [];
    for k := 0 to |mustMatch|
      invariant forall e | e in errors :: e.Differs?
      invariant forall f :: Differs(f) in errors <==> f in mustMatch[..k] && theirs(f) != ours(f)
      invariant errors == [] <==> forall f | f in mustMatch[..k] :: theirs(f) == ours(f)
    {
      var f := mustMatch[k];
      assert mustMatch[..k + 1] == mustMatch[..k] + [f];
      if theirs(f) != ours(f) { errors := errors + [Differs(f)]; }
    }
    assert mustMatch[..|mustMatch|] == mustMatch;
  }

  method Supersets(superset: seq<string>, theirs: Fields, ours: Fields) returns (errors: seq<Finding>)
    ensures forall e | e in errors :: e.Drops?
    ensures errors == [] <==> forall f | f in superset :: Superset(theirs(f), ours(f))
  {
    errors := [];
    for k := 0 to |superset|
      invariant forall e | e in errors :: e.Drops?
      invariant errors == [] <==> forall f | f in superset[..k] :: Superset(theirs(f), ours(f))
    {
      var f := superset[k];
      assert superset[..k + 1] == superset[..k] + [f];
      if !theirs(f).Missing? {
        var missing := Missings(theirs(f), OrEmpty(ours(f)));
        if missing != [] { errors := errors + [Drops(f, missing)]; }
      }
    }
    assert superset[..|superset|] == superset;
  }

  method Checksums(theirs: Value, ours: Value) returns (errors: seq<Finding>)
    ensures forall e | e in errors :: e.Checksum?
    ensures forall i: nat :: Checksum(i) in errors <==> i < Length(theirs) && !SumAt(theirs, ours, i)
    ensures errors == [] <==> forall i | 0 <= i < Length(theirs) :: SumAt(theirs, ours, i)
  {
    errors := [];
    for i := 0 to Length(theirs)
      invariant forall e | e in errors :: e.Checksum?
      invariant forall k: nat :: Checksum(k) in errors <==> k < i && !SumAt(theirs, ours, k)
      invariant errors == [] <==> forall k | 0 <= k < i :: SumAt(theirs, ours, k)
    {
      if !SumAt(theirs, ours, i) { errors := errors + [Checksum(i)]; }
    }
  }

  ghost predicate Checked(mustMatch: seq<string>, superset: seq<string>, theirs: Fields, ours: Fields,
                          errors: seq<Finding>) {
    (errors == [] <==> Faithful(mustMatch, superset, theirs, ours))
    && (forall f :: Differs(f) in errors <==> f in mustMatch && theirs(f) != ours(f))
    && forall i: nat :: Checksum(i) in errors <==>
         i < Length(OrEmpty(theirs("b2sums"))) && !SumAt(OrEmpty(theirs("b2sums")), OrEmpty(ours("b2sums")), i)
  }

  /** `check`: nothing is found exactly when the derivation is faithful, and what is found names the
      field or the checksum at fault. */
  method Check(mustMatch: seq<string>, superset: seq<string>, theirs: Fields, ours: Fields)
    returns (errors: seq<Finding>)
    ensures Checked(mustMatch, superset, theirs, ours, errors)
  {
    var differing := Matches(mustMatch, theirs, ours);
    var dropping := Supersets(superset, theirs, ours);
    var srcA, srcB := OrEmpty(theirs("source")), OrEmpty(ours("source"));
    var sumA, sumB := OrEmpty(theirs("b2sums")), OrEmpty(ours("b2sums"));
    var sources := if Take(srcB, Length(srcA)) != srcA then [NotPrefix] else [];
    var lengths := if Length(sumB) != Length(srcB) then [Lengths] else [];
    var checksums := Checksums(sumA, sumB);
    errors := differing + dropping + sources + lengths + checksums;
  }

  // ------------------------------------------------------- what passing is worth

  // makepkg's pairing: source i goes with checksum i.
  function Pairs(fields: Fields): seq<(string, string)> {
    var src, sum := OrEmpty(fields("source")), OrEmpty(fields("b2sums"));
    seq(if Length(src) <= Length(sum) then Length(src) else Length(sum),
        i requires 0 <= i < Length(src) && i < Length(sum) => (Element(src, i), Element(sum, i)))
  }

  /** A derivation that passes keeps every (source, checksum) pair of upstream's, index for index, at the
      head of its own, and checks every source of its own; where upstream pairs all its sources, so does
      the prefix. */
  lemma PassingKeepsPairs(mustMatch: seq<string>, superset: seq<string>, theirs: Fields, ours: Fields)
    requires Faithful(mustMatch, superset, theirs, ours)
    ensures Pairs(theirs) <= Pairs(ours)
    ensures |Pairs(ours)| == Length(OrEmpty(ours("source")))
    ensures Length(OrEmpty(theirs("source"))) == Length(OrEmpty(theirs("b2sums")))
            ==> forall i | 0 <= i < Length(OrEmpty(theirs("source"))) ::
                  i < |Pairs(ours)| && Pairs(ours)[i]
                      == (Element(OrEmpty(theirs("source")), i), Element(OrEmpty(theirs("b2sums")), i))
  {
    var srcA, srcB := OrEmpty(theirs("source")), OrEmpty(ours("source"));
    var sumA, sumB := OrEmpty(theirs("b2sums")), OrEmpty(ours("b2sums"));
    TakenElements(srcB, srcA);
    forall i | 0 <= i < |Pairs(theirs)|
      ensures i < |Pairs(ours)| && Pairs(theirs)[i] == Pairs(ours)[i]
    {
      assert SumAt(sumA, sumB, i);
    }
  }

  // A field written as an array, or not at all.
  predicate Listed(v: Value) {
    v.Missing? || v.List?
  }

  function Items(v: Value): seq<string>
    requires Listed(v)
  {
    if v.Missing? then [] else v.items
  }

  /** Of fields that are arrays, in the words of the rules: what must match matches, no entry of upstream's
      is dropped, upstream's sources and checksums stand unchanged at the head of ours, and every source of
      ours has its checksum. */
  lemma FaithfulLists(mustMatch: seq<string>, superset: seq<string>, theirs: Fields, ours: Fields)
    requires forall f :: Listed(theirs(f)) && Listed(ours(f))
    ensures Faithful(mustMatch, superset, theirs, ours) <==>
              ((forall f | f in mustMatch :: theirs(f) == ours(f))
               && (forall f, x | f in superset && x in Items(theirs(f)) :: x in Items(ours(f)))
               && Items(theirs("source")) <= Items(ours("source"))
               && Items(theirs("b2sums")) <= Items(ours("b2sums"))
               && |Items(ours("b2sums"))| == |Items(ours("source"))|)
  {
    forall f ensures Superset(theirs(f), ours(f)) <==> forall x | x in Items(theirs(f)) :: x in Items(ours(f)) {
      NothingDropped(theirs(f), ours(f));
    }
    PrefixIs(theirs("source"), ours("source"));
    SumsPrefix(theirs("b2sums"), ours("b2sums"));
  }

  lemma NothingDropped(theirs: Value, ours: Value)
    requires Listed(theirs) && Listed(ours)
    ensures Superset(theirs, ours) <==> forall x | x in Items(theirs) :: x in Items(ours)
  {
    if Superset(theirs, ours) {
      forall x | x in Items(theirs) ensures x in Items(ours) {
        var i :| 0 <= i < |Items(theirs)| && Items(theirs)[i] == x;
        assert Has(OrEmpty(ours), Element(theirs, i));
      }
    }
    if forall x | x in Items(theirs) :: x in Items(ours) {
      forall i | 0 <= i < Length(theirs) ensures Has(OrEmpty(ours), Element(theirs, i)) {
        assert Element(theirs, i) in Items(theirs);
      }
    }
  }

  lemma PrefixIs(theirs: Value, ours: Value)
    requires Listed(theirs) && Listed(ours)
    ensures var a, b := OrEmpty(theirs), OrEmpty(ours); Take(b, Length(a)) == a <==> Items(theirs) <= Items(ours)
  {}

  lemma SumsPrefix(theirs: Value, ours: Value)
    requires Listed(theirs) && Listed(ours)
    ensures var a, b := OrEmpty(theirs), OrEmpty(ours);
            (forall i | 0 <= i < Length(a) :: SumAt(a, b, i)) <==> Items(theirs) <= Items(ours)
  {
    var a, b := OrEmpty(theirs), OrEmpty(ours);
    if forall i | 0 <= i < Length(a) :: SumAt(a, b, i) {
      if Length(a) > 0 { assert SumAt(a, b, Length(a) - 1); }
      forall i | 0 <= i < Length(a) ensures i < Length(b) && Items(ours)[i] == Items(theirs)[i] {
        assert SumAt(a, b, i);
      }
    }
  }

  lemma TakenElements(long: Value, short: Value)
    requires Take(long, Length(short)) == short
    ensures Length(short) <= Length(long)
    ensures forall i | 0 <= i < Length(short) :: Element(long, i) == Element(short, i)
  {}

  /** The pairing is what the check is for. Change one checksum of upstream's in the fork, and the
      findings of `Check` name that index, whatever else they hold. */
  lemma ChangedChecksumFound(mustMatch: seq<string>, superset: seq<string>, theirs: Fields, ours: Fields, i: nat,
                             errors: seq<Finding>)
    requires i < |Pairs(theirs)| && i < |Pairs(ours)| && Pairs(theirs)[i].1 != Pairs(ours)[i].1
    requires Checked(mustMatch, superset, theirs, ours, errors)
    ensures !Faithful(mustMatch, superset, theirs, ours) && errors != []
    ensures Checksum(i) in errors
  {
    if Faithful(mustMatch, superset, theirs, ours) {
      PassingKeepsPairs(mustMatch, superset, theirs, ours);
    }
  }
}
