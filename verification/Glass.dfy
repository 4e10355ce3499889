/** The frosted backers of shell/glass/extension.js: one backer actor per glassy window, kept
    directly below its window in the window group, with clones of the windows stacked below it. */
module Glass {
  // Every raise, map or workspace switch may leave the group in any order. `PassPins` shows that one
  // restacked pass repairs all pairs at once: fixing a later pair never breaks an earlier one.

  import opened Common
  import opened Text

  type Window = nat

  // A child of the window group, listed bottom to top.
  datatype Child = Win(w: Window) | Back(w: Window)

  // ------------------------------------------------------- child order

  function Without(cs: seq<Child>, c: Child): seq<Child> {
    if c in cs then cs[..IndexOf(cs, c)] + cs[IndexOf(cs, c) + 1..] else cs
  }

  // `insert_child_below` and `set_child_below_sibling`.
  function InsertBelow(cs: seq<Child>, c: Child, sibling: Child): seq<Child>
    requires sibling in cs
  {
    cs[..IndexOf(cs, sibling)] + [c] + cs[IndexOf(cs, sibling)..]
  }

  // One pair of the pass: nothing happens unless window and backer are both in the group.
  function Pin(cs: seq<Child>, w: Window): seq<Child> {
    if Win(w) in cs && Back(w) in cs then
      WithoutKeeps(cs, Back(w), Win(w));
      InsertBelow(Without(cs, Back(w)), Back(w), Win(w))
    else cs
  }

  function Pass(cs: seq<Child>, keys: seq<Window>): seq<Child> {
    if keys == [] then cs else Pin(Pass(cs, keys[..|keys| - 1]), keys[|keys| - 1])
  }

  // The windows of the group, bottom to top.
  function Windows(cs: seq<Child>): seq<Window> {
    if cs == [] then [] else Windows(cs[..|cs| - 1]) + (if cs[|cs| - 1].Win? then [cs[|cs| - 1].w] else [])
  }

  ghost predicate Pinned(cs: seq<Child>, w: Window) {
    exists i | 0 <= i < |cs| - 1 :: cs[i] == Back(w) && cs[i + 1] == Win(w)
  }

  lemma WithoutKeeps(cs: seq<Child>, c: Child, d: Child)
    requires c != d
    ensures d in Without(cs, c) <==> d in cs
  {
    if c in cs {
      var k := IndexOf(cs, c);
      assert cs == cs[..k] + [c] + cs[k + 1..];
    }
  }

  lemma {:induction false} WindowsAppend(a: seq<Child>, b: seq<Child>)
    ensures Windows(a + b) == Windows(a) + Windows(b)
  {
    if b == [] {
      assert a + b == a;
    } else {
      assert (a + b)[..|a + b| - 1] == a + b[..|b| - 1];
      WindowsAppend(a, b[..|b| - 1]);
    }
  }

  lemma BackIsNoWindow(w: Window)
    ensures Windows([Back(w)]) == []
  {}

  // A backer in the middle counts for nothing.
  lemma BackBetween(a: seq<Child>, w: Window, b: seq<Child>)
    ensures Windows(a + [Back(w)] + b) == Windows(a + b)
  {
    WindowsAppend(a + [Back(w)], b);
    WindowsAppend(a, [Back(w)]);
    WindowsAppend(a, b);
    BackIsNoWindow(w);
    assert Windows(a) + [] == Windows(a);
  }

  lemma WithoutBackKeepsWindows(cs: seq<Child>, w: Window)
    ensures Windows(Without(cs, Back(w))) == Windows(cs)
  {
    if Back(w) in cs {
      var k := IndexOf(cs, Back(w));
      assert cs == cs[..k] + [Back(w)] + cs[k + 1..];
      BackBetween(cs[..k], w, cs[k + 1..]);
    }
  }

  lemma InsertBackKeepsWindows(cs: seq<Child>, w: Window, sibling: Child)
    requires sibling in cs
    ensures Windows(InsertBelow(cs, Back(w), sibling)) == Windows(cs)
  {
    var k := IndexOf(cs, sibling);
    BackBetween(cs[..k], w, cs[k..]);
    assert cs[..k] + cs[k..] == cs;
  }

  lemma PinKeeps(cs: seq<Child>, w: Window)
    ensures Windows(Pin(cs, w)) == Windows(cs)
    ensures multiset(Pin(cs, w)) == multiset(cs)
  {
    if Win(w) in cs && Back(w) in cs {
      var rest := Without(cs, Back(w));
      WithoutKeeps(cs, Back(w), Win(w));
      WithoutBackKeepsWindows(cs, w);
      InsertBackKeepsWindows(rest, w, Win(w));
      WithoutCounts(cs, Back(w));
      InsertCounts(rest, Back(w), Win(w));
    }
  }

  lemma WithoutCounts(cs: seq<Child>, c: Child)
    requires c in cs
    ensures multiset(Without(cs, c)) + multiset{c} == multiset(cs)
  {
    var k := IndexOf(cs, c);
    assert cs == cs[..k] + [c] + cs[k + 1..];
  }

  lemma InsertCounts(cs: seq<Child>, c: Child, sibling: Child)
    requires sibling in cs
    ensures multiset(InsertBelow(cs, c, sibling)) == multiset(cs) + multiset{c}
  {
    var k := IndexOf(cs, sibling);
    assert cs == cs[..k] + cs[k..];
  }

  lemma SameMembers(a: seq<Child>, b: seq<Child>)
    requires multiset(a) == multiset(b)
    ensures forall c :: c in a <==> c in b
  {
    forall c ensures c in a <==> c in b {
      assert c in multiset(a) <==> c in multiset(b);
    }
  }

  lemma PinPins(cs: seq<Child>, w: Window)
    requires Win(w) in cs && Back(w) in cs
    ensures Pinned(Pin(cs, w), w)
  {
    var rest := Without(cs, Back(w));
    WithoutKeeps(cs, Back(w), Win(w));
    var j := IndexOf(rest, Win(w));
    var r := InsertBelow(rest, Back(w), Win(w));
    assert r[j] == Back(w) && r[j + 1] == rest[j] == Win(w);
  }

  // The step the whole pass rests on.
  lemma PinPreserves(cs: seq<Child>, w: Window, other: Window)
    requires Pinned(cs, other) && other != w
    ensures Pinned(Pin(cs, w), other)
  {
    if Win(w) in cs && Back(w) in cs {
      WithoutKeeps(cs, Back(w), Win(w));
      WithoutKeepsPair(cs, w, other);
      InsertKeepsPair(Without(cs, Back(w)), w, other);
    }
  }

  lemma WithoutKeepsPair(cs: seq<Child>, w: Window, other: Window)
    requires Pinned(cs, other) && other != w && Back(w) in cs
    ensures Pinned(Without(cs, Back(w)), other)
  {
    var i :| 0 <= i < |cs| - 1 && cs[i] == Back(other) && cs[i + 1] == Win(other);
    var k := IndexOf(cs, Back(w));
    var at, rest := if k < i then i - 1 else i, Without(cs, Back(w));
    assert rest[at] == Back(other) && rest[at + 1] == Win(other);
  }

  lemma InsertKeepsPair(cs: seq<Child>, w: Window, other: Window)
    requires Pinned(cs, other) && other != w && Win(w) in cs
    ensures Pinned(InsertBelow(cs, Back(w), Win(w)), other)
  {
    var i :| 0 <= i < |cs| - 1 && cs[i] == Back(other) && cs[i + 1] == Win(other);
    var k, r := IndexOf(cs, Win(w)), InsertBelow(cs, Back(w), Win(w));
    var at := if k <= i then i + 1 else i;
    assert r[at] == Back(other) && r[at + 1] == Win(other);
  }

  lemma {:induction false} PassKeeps(cs: seq<Child>, keys: seq<Window>)
    ensures Windows(Pass(cs, keys)) == Windows(cs)
    ensures multiset(Pass(cs, keys)) == multiset(cs)
  {
    if keys != [] {
      PassKeeps(cs, keys[..|keys| - 1]);
      PinKeeps(Pass(cs, keys[..|keys| - 1]), keys[|keys| - 1]);
    }
  }

  lemma PassMembers(cs: seq<Child>, keys: seq<Window>, c: Child)
    ensures c in Pass(cs, keys) <==> c in cs
  {
    PassKeeps(cs, keys);
    SameMembers(cs, Pass(cs, keys));
  }

  lemma {:induction false} PassPinsKey(cs: seq<Child>, keys: seq<Window>, n: nat)
    requires n < |keys| && Win(keys[n]) in cs && Back(keys[n]) in cs
    ensures Pinned(Pass(cs, keys), keys[n])
  {
    var front, last, w := keys[..|keys| - 1], keys[|keys| - 1], keys[n];
    if last == w {
      PassMembers(cs, front, Win(w));
      PassMembers(cs, front, Back(w));
      PinPins(Pass(cs, front), w);
    } else {
      PassPinsKey(cs, front, n);
      PinPreserves(Pass(cs, front), last, w);
    }
  }

  /** One pass over all backers, from any order of the group: every backer in the group ends
      directly below its own window, and the windows keep their order. */
  lemma PassPins(cs: seq<Child>, keys: seq<Window>, w: Window)
    requires w in keys && Win(w) in cs && Back(w) in cs
    ensures Pinned(Pass(cs, keys), w) && Windows(Pass(cs, keys)) == Windows(cs)
  {
    PassKeeps(cs, keys);
    var n :| 0 <= n < |keys| && keys[n] == w;
    PassPinsKey(cs, keys, n);
  }

  lemma PassPinsAll(cs: seq<Child>, keys: seq<Window>)
    ensures forall w | w in keys && Win(w) in cs && Back(w) in cs :: Pinned(Pass(cs, keys), w)
  {
    forall w | w in keys && Win(w) in cs && Back(w) in cs ensures Pinned(Pass(cs, keys), w) { PassPins(cs, keys, w); }
  }

  // ------------------------------------------------------- the extension

  // The visible windows stacked below `w`, bottom to top.
  function VisibleBelow(windows: seq<Window>, visible: set<Window>, w: Window): seq<Window> {
    if w !in windows then [] else Shown(windows[..IndexOf(windows, w)], visible)
  }

  function Shown(ws: seq<Window>, visible: set<Window>): (r: seq<Window>)
    ensures forall w :: w in r <==> w in ws && w in visible
  {
    if ws == [] then []
    else Shown(ws[..|ws| - 1], visible) + (if ws[|ws| - 1] in visible then [ws[|ws| - 1]] else [])
  }

  // `clones` are the visible windows among the first `k`, each once for every place it has, in their order.
  ghost predicate Places(windows: seq<Window>, visible: set<Window>, k: nat, clones: seq<Window>, at: seq<nat>) {
    k <= |windows| && |at| == |clones|
    && (forall i | 0 <= i < |at| :: at[i] < k && clones[i] == windows[at[i]] && clones[i] in visible)
    && (forall i, j | 0 <= i < j < |at| :: at[i] < at[j])
    && (forall p | 0 <= p < k && windows[p] in visible :: p in at)
  }

  /** The clones of a backer are right: the windows that stand below its own, those that are visible and no
      others, bottom to top. */
  ghost predicate Below(windows: seq<Window>, visible: set<Window>, w: Window, clones: seq<Window>) {
    if w !in windows then clones == []
    else exists k: nat, at ::
           k < |windows| && windows[k] == w && w !in windows[..k] && Places(windows, visible, k, clones, at)
  }

  lemma {:induction false} ShownPlaces(windows: seq<Window>, visible: set<Window>, k: nat) returns (at: seq<nat>)
    requires k <= |windows|
    ensures Places(windows, visible, k, Shown(windows[..k], visible), at)
  {
    if k == 0 {
      at := [];
    } else {
      at := ShownPlaces(windows, visible, k - 1);
      ShownMore(windows, visible, k - 1);
      PlacesMore(windows, visible, k - 1, Shown(windows[..k - 1], visible), at);
      at := if windows[k - 1] in visible then at + [k - 1] else at;
    }
  }

  lemma ShownMore(windows: seq<Window>, visible: set<Window>, k: nat)
    requires k < |windows|
    ensures Shown(windows[..k + 1], visible)
         == Shown(windows[..k], visible) + (if windows[k] in visible then [windows[k]] else [])
  {
    assert windows[..k + 1][..k] == windows[..k];
  }

  lemma PlacesMore(windows: seq<Window>, visible: set<Window>, k: nat, clones: seq<Window>, at: seq<nat>)
    requires k < |windows| && Places(windows, visible, k, clones, at)
    ensures if windows[k] in visible then Places(windows, visible, k + 1, clones + [windows[k]], at + [k])
            else Places(windows, visible, k + 1, clones + [], at)
  {
    assert clones + [] == clones;
    forall p | 0 <= p <= k && windows[p] in visible ensures p in at + [k] {
      if p < k { assert p in at; } else { assert (at + [k])[|at|] == p; }
    }
  }

  lemma BelowIs(windows: seq<Window>, visible: set<Window>, w: Window)
    ensures Below(windows, visible, w, VisibleBelow(windows, visible, w))
  {
    if w in windows {
      var at := ShownPlaces(windows, visible, IndexOf(windows, w));
    }
  }

  lemma RebuiltBelow(keys: seq<Window>, lower: map<Window, seq<Window>>, windows: seq<Window>, visible: set<Window>)
    requires Rebuilt(keys, lower, windows, visible)
    ensures forall w | w in keys :: w in lower && Below(windows, visible, w, lower[w])
  {
    forall w | w in keys ensures w in lower && Below(windows, visible, w, lower[w]) { BelowIs(windows, visible, w); }
  }

  /** So a window is cloned if and only if it is visible and stands below, never twice, and of two clones
      the one listed first stands lower. */
  lemma BelowExactly(windows: seq<Window>, visible: set<Window>, w: Window, clones: seq<Window>, j: nat)
    requires Below(windows, visible, w, clones) && Distinct(windows) && j < |windows| && windows[j] == w
    ensures forall p | 0 <= p < |windows| :: windows[p] in clones <==> windows[p] in visible && p < j
    ensures forall x | x in clones :: x in windows
    ensures Distinct(clones)
    ensures forall q, r, a, b | 0 <= q < r < |clones| && 0 <= a < |windows| && 0 <= b < |windows| ::
              clones[q] == windows[a] && clones[r] == windows[b] ==> a < b
  {
    var k: nat, at :|
      k < |windows| && windows[k] == w && w !in windows[..k] && Places(windows, visible, k, clones, at);
    assert k == j;
    ClonesOrdered(windows, visible, k, clones, at);
    forall p | 0 <= p < |windows| ensures windows[p] in clones <==> windows[p] in visible && p < j {
      CloneAt(windows, visible, k, clones, at, p);
    }
  }

  lemma ClonesOrdered(windows: seq<Window>, visible: set<Window>, k: nat, clones: seq<Window>, at: seq<nat>)
    requires Places(windows, visible, k, clones, at) && Distinct(windows)
    ensures (forall x | x in clones :: x in windows) && Distinct(clones)
    ensures forall q, r, a, b | 0 <= q < r < |clones| && 0 <= a < |windows| && 0 <= b < |windows| ::
              clones[q] == windows[a] && clones[r] == windows[b] ==> a < b
  {
    forall q, r, a, b | 0 <= q < r < |clones| && 0 <= a < |windows| && 0 <= b < |windows|
                        && clones[q] == windows[a] && clones[r] == windows[b]
      ensures a < b
    {
      assert at[q] == a && at[r] == b;
    }
    forall q, r | 0 <= q < r < |clones| ensures clones[q] != clones[r] {
      assert clones[q] == windows[at[q]] && clones[r] == windows[at[r]] && at[q] < at[r];
    }
  }

  lemma CloneAt(windows: seq<Window>, visible: set<Window>, k: nat, clones: seq<Window>, at: seq<nat>, p: nat)
    requires Places(windows, visible, k, clones, at) && Distinct(windows) && p < |windows|
    ensures windows[p] in clones <==> windows[p] in visible && p < k
  {
    if windows[p] in visible && p < k {
      var i :| 0 <= i < |at| && at[i] == p;
      assert clones[i] == windows[p];
    }
    if windows[p] in clones {
      var i :| 0 <= i < |clones| && clones[i] == windows[p];
      assert at[i] == p;
    }
  }

  function Except(ws: seq<Window>, w: Window): (r: seq<Window>)
    ensures forall x :: x in r <==> x in ws && x != w
  {
    if ws == [] then []
    else Except(ws[..|ws| - 1], w) + (if ws[|ws| - 1] == w then [] else [ws[|ws| - 1]])
  }

  ghost predicate Consistent(children: seq<Child>, keys: seq<Window>, lower: map<Window, seq<Window>>,
                             connected: set<(Window, Window)>) {
    Distinct(children) && Distinct(keys)
    && (forall w :: w in keys <==> w in lower)
    && (forall w :: Back(w) in children ==> w in keys)
    && (forall p :: p in connected <==> p.0 in lower && p.1 in lower[p.0])
  }

  lemma AddConsistent(children: seq<Child>, keys: seq<Window>, lower: map<Window, seq<Window>>,
                      connected: set<(Window, Window)>, w: Window)
    requires Consistent(children, keys, lower, connected) && Win(w) in children && w !in keys
    ensures Consistent(InsertBelow(children, Back(w), Win(w)), keys + [w], lower[w := []], connected)
  {
    InsertIsDistinct(children, Back(w), Win(w));
  }

  // The clones of these backers are what is visible below their windows.
  ghost predicate Rebuilt(keys: seq<Window>, lower: map<Window, seq<Window>>, windows: seq<Window>,
                          visible: set<Window>) {
    forall w | w in keys :: w in lower && lower[w] == VisibleBelow(windows, visible, w)
  }

  lemma RebuiltMore(keys: seq<Window>, i: nat, lower: map<Window, seq<Window>>, windows: seq<Window>,
                    visible: set<Window>)
    requires i < |keys| && Rebuilt(keys[..i], lower, windows, visible)
    ensures Rebuilt(keys[..i + 1], lower[keys[i] := VisibleBelow(windows, visible, keys[i])], windows, visible)
  {
    assert keys[..i + 1] == keys[..i] + [keys[i]];
  }

  lemma PassMore(cs: seq<Child>, keys: seq<Window>, i: nat)
    requires i < |keys|
    ensures Pass(cs, keys[..i + 1]) == Pin(Pass(cs, keys[..i]), keys[i])
  {
    assert keys[..i + 1][..i] == keys[..i];
  }

  lemma DropConsistent(children: seq<Child>, keys: seq<Window>, lower: map<Window, seq<Window>>,
                       connected: set<(Window, Window)>, w: Window, k: nat)
    requires Consistent(children, keys, lower, connected) && k < |keys| && keys[k] == w
    ensures var left := keys[..k] + keys[k + 1..];
            Consistent(Without(children, Back(w)), left, lower - {w}, set p | p in connected && p.0 != w)
            && (forall other :: other in left <==> other in keys && other != w)
  {
    WithoutIsDistinct(children, Back(w));
    RemovedIsDistinct(keys, k);
  }

  lemma RebuildConsistent(children: seq<Child>, keys: seq<Window>, lower: map<Window, seq<Window>>,
                          connected: set<(Window, Window)>, w: Window, clones: seq<Window>)
    requires Consistent(children, keys, lower, connected) && w in keys
    ensures Consistent(children, keys, lower[w := clones],
                       (set p | p in connected && p.0 != w) + (set l | l in clones :: (w, l)))
  {}

  // A clone and a handler for each visible window below `w`.
  method CloneBelow(windows: seq<Window>, visible: set<Window>, w: Window)
    returns (clones: seq<Window>, handlers: set<(Window, Window)>)
    ensures clones == VisibleBelow(windows, visible, w) && Below(windows, visible, w, clones)
    ensures handlers == set l | l in clones :: (w, l)
  {
    BelowIs(windows, visible, w);
    clones, handlers := [], {};
    if w in windows {
      clones, handlers := CloneShown(windows[..IndexOf(windows, w)], visible, w);
    }
  }

  method CloneShown(below: seq<Window>, visible: set<Window>, w: Window)
    returns (clones: seq<Window>, handlers: set<(Window, Window)>)
    ensures clones == Shown(below, visible)
    ensures handlers == set l | l in clones :: (w, l)
  {
    clones, handlers := [], {};
    for i := 0 to |below|
      invariant clones == Shown(below[..i], visible)
      invariant handlers == set l | l in clones :: (w, l)
    {
      assert below[..i + 1][..i] == below[..i];
      if below[i] in visible {
        clones := clones + [below[i]];
        handlers := handlers + {(w, below[i])};
      }
    }
    assert below[..|below|] == below;
  }

  // `connected` holds the signal handlers the backers' clones have alive: (backer, cloned window).
  class LisaGlass {
    var children: seq<Child>
    var visible: set<Window>
    var keys: seq<Window>
    var lower: map<Window, seq<Window>>
    var connected: set<(Window, Window)>

    // Every backer belongs to exactly one window it was made for, and every live handler to a
    // clone of a standing backer.
    ghost predicate Valid()
      reads this
    {
      Consistent(children, keys, lower, connected)
    }

    constructor (children: seq<Child>, visible: set<Window>)
      requires Distinct(children) && forall w :: Back(w) !in children
      ensures Valid() && this.children == children && this.visible == visible && keys == []
    {
      this.children, this.visible, keys, lower, connected := children, visible, [], map[], {};
    }

    // `_rebuildLower`: drops the old clones' handlers and clones what is below now.
    method RebuildLower(w: Window)
      requires Valid() && w in keys
      modifies this`lower, this`connected
      ensures Valid()
      ensures lower == old(lower)[w := VisibleBelow(Windows(children), visible, w)]
      ensures Below(Windows(children), visible, w, lower[w])
    {
      var kept := set p | p in connected && p.0 != w;
      var clones, handlers := CloneBelow(Windows(children), visible, w);
      RebuildConsistent(children, keys, lower, connected, w, clones);
      lower := lower[w := clones];
      connected := kept + handlers;
    }

    // `_add`: a backer below its window, once.
    method Add(w: Window, wanted: bool)
      requires Valid()
      modifies this`children, this`keys, this`lower, this`connected
      ensures Valid()
      ensures Windows(children) == Windows(old(children))
      ensures old(keys) <= keys
      ensures wanted && Win(w) in old(children) && w !in old(keys) ==>
                keys == old(keys) + [w] && Pinned(children, w)
                && lower == old(lower)[w := VisibleBelow(Windows(children), visible, w)]
                && Below(Windows(children), visible, w, lower[w])
                && Joins(old(children), children, old(keys), w)
      ensures !(wanted && Win(w) in old(children) && w !in old(keys)) ==>
                children == old(children) && keys == old(keys) && lower == old(lower)
    {
      if w in keys || !wanted || Win(w) !in children {
        return;
      }
      Insert(w);
      RebuildLower(w);
    }

    method Insert(w: Window)
      requires Valid() && Win(w) in children && w !in keys
      modifies this`children, this`keys, this`lower
      ensures Valid() && keys == old(keys) + [w] && lower == old(lower)[w := []]
      ensures Windows(children) == Windows(old(children)) && Pinned(children, w)
      ensures Joins(old(children), children, old(keys), w)
    {
      InsertKeepsPins(children, keys, w);
      InsertIsDistinct(children, Back(w), Win(w));
      InsertBackKeepsWindows(children, w, Win(w));
      AddConsistent(children, keys, lower, connected, w);
      InsertPins(children, w);
      children := InsertBelow(children, Back(w), Win(w));
      keys := keys + [w];
      lower := lower[w := []];
    }

    // One pair of the `restacked` pass.
    method RestackOne(w: Window)
      requires Valid() && w in keys
      modifies this`children, this`lower, this`connected
      ensures Valid() && children == Pin(old(children), w)
      ensures Windows(children) == Windows(old(children))
      ensures lower == old(lower)[w := VisibleBelow(Windows(children), visible, w)]
    {
      ghost var before := children;
      PinKeeps(children, w);
      children := Pin(children, w);
      SamePopulation(before, children);
      RebuildLower(w);
    }

    // The `restacked` handler.
    method Restacked()
      requires Valid()
      modifies this`children, this`lower, this`connected
      ensures Valid()
      ensures children == Pass(old(children), keys)
      ensures Rebuilt(keys, lower, Windows(old(children)), visible)
      ensures forall w | w in keys :: w in lower && Below(Windows(old(children)), visible, w, lower[w])
      ensures forall w | w in keys && Win(w) in old(children) && Back(w) in old(children) :: Pinned(children, w)
    {
      for i := 0 to |keys|
        invariant Valid() && keys == old(keys)
        invariant children == Pass(old(children), keys[..i]) && Windows(children) == Windows(old(children))
        invariant Rebuilt(keys[..i], lower, Windows(old(children)), visible)
      {
        PassMore(old(children), keys, i);
        RebuiltMore(keys, i, lower, Windows(old(children)), visible);
        RestackOne(keys[i]);
      }
      assert keys[..|keys|] == keys;
      PassPinsAll(old(children), keys);
      RebuiltBelow(keys, lower, Windows(old(children)), visible);
    }

    // `_drop`: the backer and its handlers are gone, everything else is as it was.
    method Drop(w: Window)
      requires Valid()
      modifies this`children, this`keys, this`lower, this`connected
      ensures Valid()
      ensures Windows(children) == Windows(old(children))
      ensures w !in keys && Back(w) !in children && forall l :: (w, l) !in connected
      ensures forall c :: c in children <==> c in old(children) && c != Back(w)
      ensures forall other | other != w :: (other in keys <==> other in old(keys))
                && (other in keys ==> lower[other] == old(lower[other]))
      ensures w in old(keys) ==> |keys| == |old(keys)| - 1
      ensures w !in old(keys) ==> keys == old(keys)
    {
      if w !in keys {
        return;
      }
      var k := IndexOf(keys, w);
      WithoutBackKeepsWindows(children, w);
      WithoutIsDistinct(children, Back(w));
      DropConsistent(children, keys, lower, connected, w, k);
      connected := set p | p in connected && p.0 != w;
      children := Without(children, Back(w));
      keys := keys[..k] + keys[k + 1..];
      lower := lower - {w};
    }

    // A window closes: its clones and their handlers go with it, then its own backer.
    method Destroyed(w: Window)
      requires Valid()
      modifies this`children, this`keys, this`lower, this`connected
      ensures Valid()
      ensures w !in keys && Back(w) !in children && forall p | p in connected :: p.0 != w && p.1 != w
      ensures forall other | other in keys :: other in old(keys) && lower[other] == Except(old(lower[other]), w)
    {
      connected := set p | p in connected && p.1 != w;
      lower := map k | k in lower :: Except(lower[k], w);
      Drop(w);
    }

    /** `disable`: no backer and no handler is left, and the windows stand as they stood. */
    method Disable()
      requires Valid()
      modifies this`children, this`keys, this`lower, this`connected
      ensures Valid()
      ensures keys == [] && connected == {} && Windows(children) == Windows(old(children))
      ensures forall w :: Back(w) !in children
    {
      while keys != []
        invariant Valid() && Windows(children) == Windows(old(children))
        decreases |keys|
      {
        Drop(keys[0]);
      }
    }

    // The compositor reorders the group as it likes.
    method Reorder(order: seq<Child>)
      requires Valid() && multiset(order) == multiset(children)
      modifies this`children
      ensures Valid() && children == order
    {
      SamePopulation(children, order);
      children := order;
    }
  }

  lemma RemovedIsDistinct<T>(xs: seq<T>, k: nat)
    requires Distinct(xs) && k < |xs|
    ensures var r := xs[..k] + xs[k + 1..]; Distinct(r) && forall x :: x in r <==> x in xs && x != xs[k]
  {
    var r := xs[..k] + xs[k + 1..];
    assert xs == xs[..k] + [xs[k]] + xs[k + 1..];
    forall x ensures x in r <==> x in xs && x != xs[k] {
      assert x in r <==> x in xs[..k] || x in xs[k + 1..];
    }
  }

  lemma InsertIsDistinct(cs: seq<Child>, c: Child, sibling: Child)
    requires Distinct(cs) && sibling in cs && c !in cs
    ensures var r := InsertBelow(cs, c, sibling); Distinct(r) && forall d :: d in r <==> d in cs || d == c
  {
    var k, r := IndexOf(cs, sibling), InsertBelow(cs, c, sibling);
    assert forall i | 0 <= i < |r| :: r[i] == if i < k then cs[i] else if i == k then c else cs[i - 1];
    forall d ensures d in r <==> d in cs || d == c {
      if d in cs {
        var i :| 0 <= i < |cs| && cs[i] == d;
        assert r[if i < k then i else i + 1] == d;
      }
      assert r[k] == c;
    }
  }

  // A backer comes in: nobody leaves, and every backer that stood below its own window still does.
  ghost predicate Joins(before: seq<Child>, after: seq<Child>, keys: seq<Window>, w: Window) {
    (forall c :: c in after <==> c in before || c == Back(w))
    && (forall v | v in keys && Pinned(before, v) :: Pinned(after, v))
  }

  lemma InsertKeepsPins(cs: seq<Child>, keys: seq<Window>, w: Window)
    requires Win(w) in cs && w !in keys
    ensures forall v | v in keys && Pinned(cs, v) :: Pinned(InsertBelow(cs, Back(w), Win(w)), v)
  {
    forall v | v in keys && Pinned(cs, v) ensures Pinned(InsertBelow(cs, Back(w), Win(w)), v) {
      InsertKeepsPair(cs, w, v);
    }
  }

  lemma InsertPins(cs: seq<Child>, w: Window)
    requires Win(w) in cs
    ensures Pinned(InsertBelow(cs, Back(w), Win(w)), w)
  {
    var k, r := IndexOf(cs, Win(w)), InsertBelow(cs, Back(w), Win(w));
    assert r[k] == Back(w) && r[k + 1] == cs[k] == Win(w);
  }

  lemma SamePopulation(a: seq<Child>, b: seq<Child>)
    requires multiset(a) == multiset(b) && Distinct(a)
    ensures Distinct(b) && forall c :: c in a <==> c in b
  {
    SameMembers(a, b);
    forall i, j | 0 <= i < j < |b| ensures b[i] != b[j] {
      if b[i] == b[j] {
        TwiceInSequence(b, i, j);
        OnceInDistinct(a, b[i]);
      }
    }
  }

  lemma TwiceInSequence(b: seq<Child>, i: nat, j: nat)
    requires i < j < |b| && b[i] == b[j]
    ensures multiset(b)[b[i]] >= 2
  {
    assert b == b[..i] + [b[i]] + b[i + 1..j] + [b[j]] + b[j + 1..];
  }

  lemma {:induction false} OnceInDistinct(a: seq<Child>, c: Child)
    requires Distinct(a)
    ensures multiset(a)[c] <= 1
  {
    if a != [] {
      OnceInDistinct(a[1..], c);
      assert a == [a[0]] + a[1..];
      if a[0] == c {
        assert c !in a[1..];
      }
    }
  }

  lemma WithoutIsDistinct(cs: seq<Child>, c: Child)
    requires Distinct(cs)
    ensures Distinct(Without(cs, c)) && forall d :: d in Without(cs, c) <==> d in cs && d != c
  {
    if c in cs {
      var k := IndexOf(cs, c);
      assert cs == cs[..k] + [c] + cs[k + 1..];
    }
  }
}
