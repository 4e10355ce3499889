/** Page order in Preview (apps/preview/lib/reorder.js) and the way qpdf applies it: pure list
    edits, compressed page selections, and one rotation argument per angle. `look` stands for what
    an original page looks like, so nothing here depends on what a page or an angle is.

    Preview.dfy puts these together: the arguments handed to qpdf produce the pages in the order
    and at the angles the window shows. */
module PageLists {
  import opened Common
  import opened Text

  type Order = seq<nat>

  // Out-of-range positions return the list unchanged.
  function MoveItem<T>(xs: seq<T>, from: int, to: int): (r: seq<T>)
    ensures |r| == |xs|
  {
    if from < 0 || from >= |xs| || to < 0 || to >= |xs| || from == to then xs
    else
      var next := xs[..from] + xs[from + 1..];
      next[..to] + [xs[from]] + next[to..]
  }

  // None when nothing or the last page would be removed.
  function RemoveItem<T>(xs: seq<T>, index: int): Option<seq<T>> {
    if |xs| <= 1 || index < 0 || index >= |xs| then None
    else Some(xs[..index] + xs[index + 1..])
  }

  predicate Moves<T>(xs: seq<T>, from: int, to: int) {
    0 <= from < |xs| && 0 <= to < |xs| && from != to
  }

  function AllBut<T>(xs: seq<T>, i: nat): seq<T>
    requires i < |xs|
  {
    xs[..i] + xs[i + 1..]
  }

  /** A move takes the one item to its new position and leaves the others in their order; positions out of
      range, or equal, change nothing. */
  lemma MovesOne<T>(xs: seq<T>, from: int, to: int)
    ensures var r := MoveItem(xs, from, to);
            if Moves(xs, from, to) then r[to] == xs[from] && AllBut(r, to) == AllBut(xs, from) else r == xs
  {
    if Moves(xs, from, to) {
      var next, r := AllBut(xs, from), MoveItem(xs, from, to);
      assert r[..to] == next[..to] && r[to + 1..] == next[to..];
      assert next[..to] + next[to..] == next;
    }
  }

  lemma OneAndOthers<T>(a: seq<T>, b: seq<T>, at: nat)
    requires at < |a| == |b| && a[at] == b[at] && AllBut(a, at) == AllBut(b, at)
    ensures a == b
  {
    forall i | 0 <= i < |a| ensures a[i] == b[i] {
      if i < at {
        assert AllBut(a, at)[i] == a[i] && AllBut(b, at)[i] == b[i];
      } else if i > at {
        assert AllBut(a, at)[i - 1] == a[i] && AllBut(b, at)[i - 1] == b[i];
      }
    }
  }

  /** Moving a page back undoes the move. */
  lemma MoveUndone<T>(xs: seq<T>, from: int, to: int)
    requires 0 <= from < |xs| && 0 <= to < |xs|
    ensures MoveItem(MoveItem(xs, from, to), to, from) == xs
  {
    var r := MoveItem(xs, from, to);
    MovesOne(xs, from, to);
    MovesOne(r, to, from);
    if from != to { OneAndOthers(MoveItem(r, to, from), xs, from); }
  }

  /** A removal takes out exactly the item at the position, unless it is the last one or there is none. */
  lemma RemovesOne<T>(xs: seq<T>, index: int)
    ensures RemoveItem(xs, index).Some? <==> 1 < |xs| && 0 <= index < |xs|
    ensures RemoveItem(xs, index).Some? ==>
              var r := RemoveItem(xs, index).value;
              |r| == |xs| - 1 && forall i | 0 <= i < |r| :: r[i] == xs[if i < index then i else i + 1]
  {}

  function Identity(n: nat): (r: Order)
    ensures |r| == n && forall i | 0 <= i < n :: r[i] == i
  {
    if n == 0 then [] else Identity(n - 1) + [n - 1]
  }

  predicate IsIdentity(order: Order) {
    forall i | 0 <= i < |order| :: order[i] == i
  }

  predicate OrderChanged(order: Order, pageCount: nat) {
    |order| != pageCount || !IsIdentity(order)
  }

  // What an order shows.
  function Each<T>(order: Order, look: nat -> T): (r: seq<T>)
    ensures |r| == |order|
    ensures forall i | 0 <= i < |order| :: r[i] == look(order[i])
  {
    if order == [] then [] else [look(order[0])] + Each(order[1..], look)
  }

  lemma {:induction false} EachAppend<T>(a: Order, b: Order, look: nat -> T)
    ensures Each(a + b, look) == Each(a, look) + Each(b, look)
  {
    if a == [] {
      assert a + b == b;
    } else {
      assert (a + b)[0] == a[0] && (a + b)[1..] == a[1..] + b;
      EachAppend(a[1..], b, look);
      Regroup([look(a[0])], Each(a[1..], look), Each(b, look));
    }
  }

  /** Moving a page of the order moves exactly that page of the display. */
  lemma MoveShows<T>(order: Order, from: int, to: int, look: nat -> T)
    ensures Each(MoveItem(order, from, to), look) == MoveItem(Each(order, look), from, to)
  {
    if 0 <= from < |order| && 0 <= to < |order| && from != to {
      var next := order[..from] + order[from + 1..];
      EachSlices(order, from, look);
      EachAppend(order[..from], order[from + 1..], look);
      InsertShows(next, to, order[from], look);
    }
  }

  lemma EachSlices<T>(order: Order, n: nat, look: nat -> T)
    requires n <= |order|
    ensures Each(order[..n], look) == Each(order, look)[..n] && Each(order[n..], look) == Each(order, look)[n..]
    ensures n < |order| ==> Each(order[n + 1..], look) == Each(order, look)[n + 1..]
  {
    SlicesAt(order, n, look);
    if n < |order| { SlicesAt(order, n + 1, look); }
  }

  lemma SlicesAt<T>(order: Order, n: nat, look: nat -> T)
    requires n <= |order|
    ensures Each(order[..n], look) == Each(order, look)[..n] && Each(order[n..], look) == Each(order, look)[n..]
  {
    EachAppend(order[..n], order[n..], look);
    assert order[..n] + order[n..] == order;
    Slices(Each(order, look), Each(order[..n], look), Each(order[n..], look));
  }

  lemma Slices<T>(whole: seq<T>, a: seq<T>, b: seq<T>)
    requires whole == a + b
    ensures whole[..|a|] == a && whole[|a|..] == b
  {}

  lemma InsertShows<T>(order: Order, at: nat, page: nat, look: nat -> T)
    requires at <= |order|
    ensures Each(order[..at] + [page] + order[at..], look)
            == Each(order, look)[..at] + [look(page)] + Each(order, look)[at..]
  {
    SlicesAt(order, at, look);
    EachAppend(order[..at] + [page], order[at..], look);
    EachAppend(order[..at], [page], look);
    assert Each([page], look) == [look(page)];
  }

  lemma RemoveShows<T>(order: Order, index: int, look: nat -> T)
    ensures RemoveItem(order, index).None? <==> RemoveItem(Each(order, look), index).None?
    ensures RemoveItem(order, index).Some? ==>
              Each(RemoveItem(order, index).value, look) == RemoveItem(Each(order, look), index).value
  {
    if 0 <= index < |order| {
      EachSlices(order, index, look);
      EachAppend(order[..index], order[index + 1..], look);
    }
  }

  /** Changing how one original page looks changes exactly the position it stands at; this is where
      it matters that no page stands twice. */
  lemma ChangeShows<T>(order: Order, index: nat, look: nat -> T, after: nat -> T)
    requires Distinct(order) && index < |order|
    requires forall page | page != order[index] :: after(page) == look(page)
    ensures Each(order, after) == Each(order, look)[index := after(order[index])]
  {}

  lemma MoveKeeps(order: Order, from: int, to: int)
    ensures multiset(MoveItem(order, from, to)) == multiset(order)
  {
    if 0 <= from < |order| && 0 <= to < |order| && from != to {
      var next := order[..from] + order[from + 1..];
      assert order == order[..from] + [order[from]] + order[from + 1..];
      assert multiset(order) == multiset(next) + multiset{order[from]};
      assert next == next[..to] + next[to..];
      assert multiset(MoveItem(order, from, to)) == multiset(next[..to]) + multiset{order[from]} + multiset(next[to..]);
    }
  }

  // ------------------------------------------------------- qpdf selections

  // A run of 1-based page numbers, `lo-hi`.
  datatype Range = Range(lo: nat, hi: nat)

  function Pages(r: Range): Order
    requires 1 <= r.lo <= r.hi
    decreases r.hi - r.lo
  {
    [r.lo - 1] + (if r.lo == r.hi then [] else Pages(Range(r.lo + 1, r.hi)))
  }

  predicate Proper(rs: seq<Range>) {
    forall i | 0 <= i < |rs| :: 1 <= rs[i].lo <= rs[i].hi
  }

  // The page indices a selection names, in order.
  function Selected(rs: seq<Range>): Order
    requires Proper(rs)
  {
    if rs == [] then [] else Selected(rs[..|rs| - 1]) + Pages(rs[|rs| - 1])
  }

  lemma {:induction false} PagesExtend(lo: nat, hi: nat)
    requires 1 <= lo <= hi
    ensures Pages(Range(lo, hi + 1)) == Pages(Range(lo, hi)) + [hi]
    decreases hi - lo
  {
    if lo < hi {
      PagesExtend(lo + 1, hi);
    }
  }

  lemma SelectedMore(rs: seq<Range>, r: Range)
    requires Proper(rs) && 1 <= r.lo <= r.hi
    ensures Proper(rs + [r]) && Selected(rs + [r]) == Selected(rs) + Pages(r)
  {
    assert (rs + [r])[..|rs|] == rs;
  }

  // The closed runs, then the open one from `start` to `prev`, name the pages `done`.
  ghost predicate Open(parts: seq<Range>, start: nat, prev: nat, done: Order) {
    Proper(parts) && start <= prev && Selected(parts) + Pages(Range(start + 1, prev + 1)) == done
  }

  lemma RunOpens(page: nat)
    ensures Open([], page, page, [page])
  {
    assert Pages(Range(page + 1, page + 1)) == [page];
  }

  lemma RunGrows(parts: seq<Range>, start: nat, prev: nat, done: Order)
    requires Open(parts, start, prev, done)
    ensures Open(parts, start, prev + 1, done + [prev + 1])
  {
    PagesExtend(start + 1, prev + 1);
    Regroup(Selected(parts), Pages(Range(start + 1, prev + 1)), [prev + 1]);
  }

  lemma RunCloses(parts: seq<Range>, start: nat, prev: nat, done: Order)
    requires Open(parts, start, prev, done)
    ensures Proper(parts + [Range(start + 1, prev + 1)]) && Selected(parts + [Range(start + 1, prev + 1)]) == done
  {
    SelectedMore(parts, Range(start + 1, prev + 1));
  }

  lemma NextOpens(parts: seq<Range>, page: nat, done: Order)
    requires Proper(parts) && Selected(parts) == done
    ensures Open(parts, page, page, done + [page])
  {
    assert Pages(Range(page + 1, page + 1)) == [page];
  }

  /** `qpdfPageSpec`: the compressed selection names exactly the pages of the order, in order. */
  method PageSpec(order: Order) returns (parts: seq<Range>)
    ensures Proper(parts) && Selected(parts) == order
  {
    parts := [];
    if order == [] {
      return;
    }
    var start, prev := order[0], order[0];
    RunOpens(start);
    assert order[..1] == [start];
    for i := 1 to |order|
      invariant Open(parts, start, prev, order[..i])
    {
      var page := order[i];
      assert order[..i + 1] == order[..i] + [page];
      if page == prev + 1 {
        RunGrows(parts, start, prev, order[..i]);
        prev := page;
        continue;
      }
      RunCloses(parts, start, prev, order[..i]);
      parts := parts + [Range(start + 1, prev + 1)];
      NextOpens(parts, page, order[..i]);
      start, prev := page, page;
    }
    assert order[..|order|] == order;
    RunCloses(parts, start, prev, order);
    parts := parts + [Range(start + 1, prev + 1)];
  }

  // ------------------------------------------------------- qpdf rotations

  // One `--rotate=+angle:range` argument.
  datatype Turn = Turn(angle: int, at: seq<Range>)

  // The display positions whose page carries the pending angle `a`.
  function Positions(order: Order, angle: nat -> int, a: int): (r: Order)
    ensures forall p: nat :: p in r <==> p < |order| && angle(order[p]) == a
    ensures Distinct(r)
  {
    if order == [] then []
    else
      var n := |order| - 1;
      var before := Positions(order[..n], angle, a);
      assert forall i | 0 <= i < |before| :: before[i] in before && before[i] < n;
      assert forall p: nat :: p in before <==> p < n && angle(order[p]) == a;
      before + (if angle(order[n]) == a then [n] else [])
  }

  // Groups the positions by angle, as the Map of `qpdfRotateArgs` does.
  method ByAngle(order: Order, angle: nat -> int) returns (groups: map<int, Order>)
    ensures Groups(groups, order, angle)
  {
    groups := map[];
    for n := 0 to |order|
      invariant Groups(groups, order[..n], angle)
    {
      assert order[..n + 1][..n] == order[..n];
      var deg := angle(order[n]);
      GroupStep(groups, order[..n], order[n], angle);
      assert order[..n] + [order[n]] == order[..n + 1];
      if deg != 0 {
        groups := groups[deg := (if deg in groups then groups[deg] else []) + [n]];
      }
    }
    assert order[..|order|] == order;
  }

  ghost predicate Groups(groups: map<int, Order>, order: Order, angle: nat -> int) {
    forall a :: if a != 0 && Positions(order, angle, a) != [] then a in groups
        && groups[a] == Positions(order, angle, a)
                else a !in groups
  }

  lemma GroupStep(groups: map<int, Order>, order: Order, page: nat, angle: nat -> int)
    requires Groups(groups, order, angle)
    ensures var deg := angle(page);
            Groups(if deg == 0 then groups else groups[deg := (if deg in groups then groups[deg] else []) + [|order|]],
                   order + [page], angle)
  {
    forall a
      ensures Positions(order + [page], angle, a)
              == Positions(order, angle, a) + (if angle(page) == a then [|order|] else [])
    {
      assert (order + [page])[..|order|] == order;
    }
  }

  // The arguments turn every page with a pending angle, once, by its own angle, and no other page.
  ghost predicate TurnsFor(args: seq<Turn>, order: Order, angle: nat -> int) {
    (forall k | 0 <= k < |args| :: Names(args[k], order, angle))
    && (forall j, k | 0 <= j < k < |args| :: args[j].angle < args[k].angle)
    && (forall p | 0 <= p < |order| && angle(order[p]) != 0 :: Turns(args, angle(order[p])))
  }

  ghost predicate Names(t: Turn, order: Order, angle: nat -> int) {
    Proper(t.at) && t.angle != 0 && Selected(t.at) == Positions(order, angle, t.angle)
  }

  ghost predicate Turns(args: seq<Turn>, a: int) {
    exists k | 0 <= k < |args| :: args[k].angle == a
  }

  lemma GroupAngle(groups: map<int, Order>, order: Order, angle: nat -> int, a: int)
    requires Groups(groups, order, angle) && a in groups
    ensures a != 0 && exists p | 0 <= p < |order| :: angle(order[p]) == a
  {
    var ps := Positions(order, angle, a);
    assert ps != [];
    assert ps[0] in ps;
    assert angle(order[ps[0]]) == a;
  }

  /** `qpdfRotateArgs`: one argument per distinct angle, in ascending order, counting output pages. */
  method RotateArgs(order: Order, angle: nat -> int) returns (args: seq<Turn>)
    requires forall page :: 0 <= angle(page) < 360
    ensures TurnsFor(args, order, angle)
  {
    var groups := ByAngle(order, angle);
    GroupBounds(groups, order, angle);
    args := [];
    for a := 1 to 360
      invariant Upto(args, groups, order, angle, a)
    {
      args := TurnFor(groups, order, angle, a, args);
    }
    AllTurned(args, groups, order, angle);
  }

  // The argument for one angle, if a page is turned by it.
  method TurnFor(groups: map<int, Order>, order: Order, angle: nat -> int, a: int, args: seq<Turn>)
    returns (more: seq<Turn>)
    requires Groups(groups, order, angle) && Upto(args, groups, order, angle, a)
    ensures Upto(more, groups, order, angle, a + 1)
  {
    more := args;
    if a in groups {
      var at := PageSpec(groups[a]);
      GroupNames(groups, order, angle, a, at);
      UptoMore(args, groups, order, angle, Turn(a, at));
      more := args + [Turn(a, at)];
    }
  }

  lemma GroupBounds(groups: map<int, Order>, order: Order, angle: nat -> int)
    requires Groups(groups, order, angle) && forall page :: 0 <= angle(page) < 360
    ensures forall b | b in groups :: 0 < b < 360
  {
    forall b | b in groups ensures 0 < b < 360 { GroupAngle(groups, order, angle, b); }
  }

  lemma GroupNames(groups: map<int, Order>, order: Order, angle: nat -> int, a: int, at: seq<Range>)
    requires Groups(groups, order, angle) && a in groups && Proper(at) && Selected(at) == groups[a]
    ensures Names(Turn(a, at), order, angle)
  {}

  lemma AllTurned(args: seq<Turn>, groups: map<int, Order>, order: Order, angle: nat -> int)
    requires Groups(groups, order, angle) && Upto(args, groups, order, angle, 360) && forall b | b in groups :: b < 360
    ensures TurnsFor(args, order, angle)
  {
    forall p | 0 <= p < |order| && angle(order[p]) != 0 ensures angle(order[p]) in groups {
      assert p in Positions(order, angle, angle(order[p]));
    }
  }

  // The arguments so far: every group below `a` has its own.
  ghost predicate Upto(args: seq<Turn>, groups: map<int, Order>, order: Order, angle: nat -> int, a: int) {
    Ascending(args, a) && (forall k | 0 <= k < |args| :: Names(args[k], order, angle))
    && forall b | b in groups && b < a :: Turns(args, b)
  }

  lemma UptoMore(args: seq<Turn>, groups: map<int, Order>, order: Order, angle: nat -> int, t: Turn)
    requires Upto(args, groups, order, angle, t.angle) && Names(t, order, angle)
    ensures Upto(args + [t], groups, order, angle, t.angle + 1)
  {
    var more := args + [t];
    TurnsMore(args, t);
    forall k | 0 <= k < |more| ensures Names(more[k], order, angle) && more[k].angle < t.angle + 1 {}
  }

  predicate Ascending(args: seq<Turn>, below: int) {
    (forall k | 0 <= k < |args| :: args[k].angle < below)
    && (forall j, k | 0 <= j < k < |args| :: args[j].angle < args[k].angle)
  }

  lemma TurnsMore(args: seq<Turn>, t: Turn)
    ensures forall a :: Turns(args + [t], a) <==> Turns(args, a) || t.angle == a
  {
    var more := args + [t];
    forall a ensures Turns(more, a) <==> Turns(args, a) || t.angle == a {
      if Turns(args, a) {
        var k :| 0 <= k < |args| && args[k].angle == a;
        assert more[k].angle == a;
      }
      assert more[|args|] == t;
    }
  }

  // qpdf turns the pages at the output positions an argument names.
  function TurnAt<T>(pages: seq<T>, at: Order, turn: T -> T): (r: seq<T>)
    ensures |r| == |pages|
  {
    if at == [] then pages
    else
      var before := TurnAt(pages, at[..|at| - 1], turn);
      var p := at[|at| - 1];
      if p < |pages| then before[p := turn(before[p])] else before
  }

  function TurnAll<T>(pages: seq<T>, args: seq<Turn>, turn: (T, int) -> T): (r: seq<T>)
    requires forall k | 0 <= k < |args| :: Proper(args[k].at)
    ensures |r| == |pages|
  {
    if args == [] then pages
    else
      var last := args[|args| - 1];
      TurnAt(TurnAll(pages, args[..|args| - 1], turn), Selected(last.at), (x: T) => turn(x, last.angle))
  }

  lemma {:induction false} TurnAtPosition<T>(pages: seq<T>, at: Order, turn: T -> T, p: nat)
    requires Distinct(at) && p < |pages|
    ensures TurnAt(pages, at, turn)[p] == if p in at then turn(pages[p]) else pages[p]
  {
    if at != [] {
      var n := |at| - 1;
      assert at == at[..n] + [at[n]];
      TurnAtPosition(pages, at[..n], turn, p);
    }
  }

  // Position `p` is turned by the arguments for its own angle `a` and by no other.
  lemma {:induction false} TurnAllPosition<T>(pages: seq<T>, args: seq<Turn>, order: Order, angle: nat -> int,
                                              turn: (T, int) -> T, p: nat)
    requires p < |pages| == |order|
    requires forall k | 0 <= k < |args| :: Proper(args[k].at)
    requires forall k | 0 <= k < |args| :: Names(args[k], order, angle)
    requires forall j, k | 0 <= j < k < |args| :: args[j].angle < args[k].angle
    ensures TurnAll(pages, args, turn)[p]
         == if Turns(args, angle(order[p])) then turn(pages[p], angle(order[p])) else pages[p]
  {
    if args != [] {
      var n := |args| - 1;
      TurnAllPosition(pages, args[..n], order, angle, turn, p);
      TurnLast(TurnAll(pages, args[..n], turn), args[n], order, angle, turn, p);
      TurnsSplit(args, angle(order[p]));
    }
  }

  lemma TurnLast<T>(pages: seq<T>, last: Turn, order: Order, angle: nat -> int, turn: (T, int) -> T, p: nat)
    requires p < |pages| == |order| && Names(last, order, angle)
    ensures TurnAt(pages, Selected(last.at), (x: T) => turn(x, last.angle))[p]
         == if last.angle == angle(order[p]) then turn(pages[p], angle(order[p])) else pages[p]
  {
    TurnAtPosition(pages, Selected(last.at), (x: T) => turn(x, last.angle), p);
  }

  lemma TurnsSplit(args: seq<Turn>, a: int)
    requires args != [] && forall j, k | 0 <= j < k < |args| :: args[j].angle < args[k].angle
    ensures var n := |args| - 1;
            (Turns(args, a) <==> args[n].angle == a || Turns(args[..n], a))
                && (args[n].angle == a ==> !Turns(args[..n], a))
  {
    var n := |args| - 1;
    if Turns(args[..n], a) {
      var k :| 0 <= k < n && args[..n][k].angle == a;
      assert args[k].angle == a;
    }
    if Turns(args, a) && args[n].angle != a {
      var k :| 0 <= k < |args| && args[k].angle == a;
      assert args[..n][k].angle == a;
    }
  }

  /** What qpdf writes is what the window shows: given the selection of the order and the grouped
      rotations, output page `p` is original page `order[p]`, turned by that page's pending angle. */
  lemma QpdfWrites<T>(order: Order, angle: nat -> int, look: nat -> T, turn: (T, int) -> T, args: seq<Turn>, p: nat)
    requires TurnsFor(args, order, angle) && p < |order|
    requires forall k | 0 <= k < |args| :: Proper(args[k].at)
    requires turn(look(order[p]), 0) == look(order[p])
    ensures TurnAll(Each(order, look), args, turn)[p] == turn(look(order[p]), angle(order[p]))
  {
    TurnAllPosition(Each(order, look), args, order, angle, turn, p);
    NoTurnByZero(args, order, angle);
    if angle(order[p]) != 0 {
      assert Turns(args, angle(order[p]));
    }
  }

  lemma NoTurnByZero(args: seq<Turn>, order: Order, angle: nat -> int)
    requires TurnsFor(args, order, angle)
    ensures !Turns(args, 0)
  {
    forall k | 0 <= k < |args| ensures args[k].angle != 0 {
      assert Names(args[k], order, angle);
    }
  }
}
