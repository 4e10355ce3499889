/** The document window of apps/preview/lisa-preview.js: pending page edits, saving an edited copy
    through qpdf, and reopening what was saved. */
module Preview {
  import opened Common
  import opened Angles
  import opened PageLists

  // A stored page: what is on it and the angle it is stored at.
  datatype Page = Page(ink: nat, angle: int)

  type Document = seq<Page>

  predicate Upright(doc: Document) {
    forall i | 0 <= i < |doc| :: 0 <= doc[i].angle < 360
  }

  function Turned(p: Page, deg: int): Page {
    Page(p.ink, Plus(p.angle, deg))
  }

  function PageAt(doc: Document, page: nat): Page {
    if page < |doc| then doc[page] else Page(0, 0)
  }

  // How an original page looks: at its stored angle plus its pending rotation.
  function Look(doc: Document, rotations: Rotations): nat -> Page {
    (page: nat) => Turned(PageAt(doc, page), RotationOf(rotations, page))
  }

  // What the window shows, with the transient view rotation at 0.
  function Shown(doc: Document, order: Order, rotations: Rotations): Document {
    Each(order, Look(doc, rotations))
  }

  predicate Orders(order: Order, doc: Document) {
    order != [] && Distinct(order) && forall i | 0 <= i < |order| :: order[i] < |doc|
  }

  lemma ShownUpright(doc: Document, order: Order, rotations: Rotations)
    ensures Upright(Shown(doc, order, rotations))
  {}

  predicate RotationsChanged(rotations: Rotations, order: Order) {
    exists i | 0 <= i < |order| :: RotationOf(rotations, order[i]) != 0
  }

  predicate NeedsQpdf(doc: Document, order: Order, rotations: Rotations) {
    OrderChanged(order, |doc|) || RotationsChanged(rotations, order)
  }

  lemma PlusZero(a: int)
    requires 0 <= a < 360
    ensures Plus(a, 0) == a
  {}

  // A page that stands upright with nothing pending looks as it is stored.
  lemma PlainPage(doc: Document, rotations: Rotations, page: nat)
    requires Upright(doc) && page < |doc| && RotationOf(rotations, page) == 0
    ensures Look(doc, rotations)(page) == doc[page]
  {
    PlusZero(doc[page].angle);
  }

  lemma NothingPending(page: nat)
    ensures RotationOf(map[], page) == 0
  {}

  /** Reopening a saved document shows it: identity order, no pending rotation. */
  lemma ReopenShows(doc: Document)
    requires Upright(doc)
    ensures Shown(doc, Identity(|doc|), map[]) == doc
  {
    var look := Look(doc, map[]);
    forall i | 0 <= i < |doc| ensures look(i) == doc[i] {
      NothingPending(i);
      PlainPage(doc, map[], i);
    }
    EachOfIdentity(look, doc);
  }

  lemma EachOfIdentity(look: nat -> Page, doc: Document)
    requires forall i | 0 <= i < |doc| :: look(i) == doc[i]
    ensures Each(Identity(|doc|), look) == doc
  {}

  /** Skipping qpdf is sound and never a loss: with nothing pending the display is the document, and
      for a document of different pages the display is the document only then. */
  lemma SkipExactly(doc: Document, order: Order, rotations: Rotations)
    requires Upright(doc) && Orders(order, doc)
    ensures !NeedsQpdf(doc, order, rotations) ==> Shown(doc, order, rotations) == doc
    ensures Different(doc) && Shown(doc, order, rotations) == doc ==>
              !NeedsQpdf(doc, order, rotations)
  {
    var shown := Shown(doc, order, rotations);
    if !NeedsQpdf(doc, order, rotations) {
      forall i | 0 <= i < |doc| ensures shown[i] == doc[i] {
        assert order[i] == i;
        PlainPage(doc, rotations, i);
      }
    } else if Different(doc) && shown == doc {
      forall i | 0 <= i < |order| ensures order[i] == i && RotationOf(rotations, order[i]) == 0 {
        assert shown[i] == Turned(doc[order[i]], RotationOf(rotations, order[i]));
        SmallTurn(doc[i].angle, RotationOf(rotations, order[i]));
      }
    }
  }

  lemma SmallTurn(angle: int, deg: int)
    requires 0 <= angle < 360 && 0 <= deg < 360
    ensures Plus(angle, deg) == angle ==> deg == 0
  {}

  // ------------------------------------------------------- edits, and what they mean

  datatype Edit = Move(from: int, to: int) | Remove(index: int) | Rotate(index: int, delta: int)

  datatype Pending = Pending(order: Order, rotations: Rotations)

  function ShownPending(doc: Document, p: Pending): Document {
    Shown(doc, p.order, p.rotations)
  }

  // No two pages of the document look alike.
  predicate Different(doc: Document) {
    forall i, j | 0 <= i < j < |doc| :: doc[i].ink != doc[j].ink
  }

  // The same order, and the same pending angle at every position of it.
  predicate SamePending(p: Pending, q: Pending) {
    p.order == q.order
    && forall i | 0 <= i < |p.order| :: RotationOf(p.rotations, p.order[i]) == RotationOf(q.rotations, p.order[i])
  }

  // What is pending can be read off the display of a document of different pages.
  lemma PendingShows(doc: Document, p: Pending, q: Pending, different: bool)
    requires different ==> Upright(doc) && Orders(p.order, doc) && Orders(q.order, doc) && Different(doc)
    ensures different ==> (ShownPending(doc, q) == ShownPending(doc, p) <==> SamePending(q, p))
  {
    if different && ShownPending(doc, q) == ShownPending(doc, p) {
      assert |q.order| == |ShownPending(doc, q)| == |p.order|;
      forall i | 0 <= i < |q.order|
        ensures q.order[i] == p.order[i]
        ensures RotationOf(q.rotations, q.order[i]) == RotationOf(p.rotations, q.order[i])
      {
        assert ShownPending(doc, q)[i] == ShownPending(doc, p)[i];
        SameTurn(doc[q.order[i]].angle, RotationOf(q.rotations, q.order[i]), RotationOf(p.rotations, p.order[i]));
      }
    }
  }

  lemma SameTurn(angle: int, a: int, b: int)
    requires 0 <= angle < 360 && 0 <= a < 360 && 0 <= b < 360
    ensures Plus(angle, a) == Plus(angle, b) ==> a == b
  {}

  function Apply(p: Pending, e: Edit): Pending {
    match e
    case Move(from, to) => p.(order := MoveItem(p.order, from, to))
    case Remove(index) =>
      var next := RemoveItem(p.order, index);
      if next.Some? then p.(order := next.value) else p
    case Rotate(index, delta) =>
      if 0 <= index < |p.order| then p.(rotations := RotateBy(p.rotations, p.order[index], delta)) else p
  }

  // The same edit on the pages themselves: no original indices, no rotation table.
  function ApplyTo(pages: Document, e: Edit): Document {
    match e
    case Move(from, to) => MoveItem(pages, from, to)
    case Remove(index) =>
      var next := RemoveItem(pages, index);
      if next.Some? then next.value else pages
    case Rotate(index, delta) =>
      if 0 <= index < |pages| then pages[index := Turned(pages[index], delta)] else pages
  }

  /** What is on the screen, position by position: the page the order has there, at its stored angle plus
      what is pending for it. */
  lemma DisplayIs(doc: Document, p: Pending, i: nat)
    requires Orders(p.order, doc) && i < |p.order|
    ensures var page := p.order[i];
            |ShownPending(doc, p)| == |p.order|
            && ShownPending(doc, p)[i] == Page(doc[page].ink, (doc[page].angle + RotationOf(p.rotations, page)) % 360)
  {}

  /** What one edit does to the pages on the screen: a move takes one page to its new position and leaves
      the others in their order, a removal takes out one page and never the last, a rotation turns one page
      where it stands; an edit with a position out of range does nothing. */
  lemma EditIs(pages: Document, e: Edit)
    ensures var r := ApplyTo(pages, e);
            match e
            case Move(from, to) =>
              if Moves(pages, from, to) then
                |r| == |pages| && r[to] == pages[from] && AllBut(r, to) == AllBut(pages, from)
              else r == pages
            case Remove(index) => r == if |pages| > 1 && 0 <= index < |pages| then AllBut(pages, index) else pages
            case Rotate(index, delta) =>
              r == if 0 <= index < |pages|
                   then pages[index := Page(pages[index].ink, (pages[index].angle + delta) % 360)] else pages
  {
    if e.Move? { MovesOne(pages, e.from, e.to); }
  }

  lemma ApplyKeepsOrder(doc: Document, p: Pending, e: Edit)
    requires Orders(p.order, doc)
    ensures Orders(Apply(p, e).order, doc)
  {
    match e
    case Move(from, to) => MoveIsDistinct(p.order, from, to);
    case Remove(index) =>
    case Rotate(_, _) =>
  }

  lemma MoveIsDistinct(order: Order, from: int, to: int)
    requires Distinct(order)
    ensures Distinct(MoveItem(order, from, to)) && forall x :: x in MoveItem(order, from, to) <==> x in order
  {
    if 0 <= from < |order| && 0 <= to < |order| && from != to {
      var next := order[..from] + order[from + 1..];
      assert Distinct(next);
      assert order == order[..from] + [order[from]] + order[from + 1..];
      assert order[from] !in next;
      assert next == next[..to] + next[to..];
      var r := MoveItem(order, from, to);
      forall x ensures x in r <==> x in order {
        assert x in r <==> x in next[..to] || x == order[from] || x in next[to..];
        assert x in next <==> x in order[..from] || x in order[from + 1..];
      }
    }
  }

  /** Every edit of the order and rotation tables does to the display what its name says. */
  lemma ApplyShows(doc: Document, p: Pending, e: Edit)
    requires Orders(p.order, doc)
    ensures Shown(doc, Apply(p, e).order, Apply(p, e).rotations) == ApplyTo(Shown(doc, p.order, p.rotations), e)
  {
    match e
    case Move(from, to) => MoveShows(p.order, from, to, Look(doc, p.rotations));
    case Remove(index) => RemoveShows(p.order, index, Look(doc, p.rotations));
    case Rotate(index, delta) =>
      if 0 <= index < |p.order| {
        RotateShows(doc, p, index, delta);
      }
  }

  lemma RotateShows(doc: Document, p: Pending, index: nat, delta: int)
    requires Orders(p.order, doc) && index < |p.order|
    ensures Shown(doc, p.order, RotateBy(p.rotations, p.order[index], delta))
         == ApplyTo(Shown(doc, p.order, p.rotations), Rotate(index, delta))
  {
    var page := p.order[index];
    var look, after := Look(doc, p.rotations), Look(doc, RotateBy(p.rotations, page, delta));
    forall other ensures after(other) == if other == page then Turned(look(page), delta) else look(other) {
      RotationAdds(p.rotations, page, delta, other);
      PlusPlus(PageAt(doc, page).angle, RotationOf(p.rotations, page), delta);
    }
    ChangeShows(p.order, index, look, after);
  }

  function ApplyAll(p: Pending, edits: seq<Edit>): Pending {
    if edits == [] then p else Apply(ApplyAll(p, edits[..|edits| - 1]), edits[|edits| - 1])
  }

  function ApplyAllTo(pages: Document, edits: seq<Edit>): Document {
    if edits == [] then pages else ApplyTo(ApplyAllTo(pages, edits[..|edits| - 1]), edits[|edits| - 1])
  }

  lemma {:induction false} EditsShow(doc: Document, p: Pending, edits: seq<Edit>)
    requires Orders(p.order, doc)
    ensures var q := ApplyAll(p, edits);
            Orders(q.order, doc) && Shown(doc, q.order, q.rotations)
                == ApplyAllTo(Shown(doc, p.order, p.rotations), edits)
  {
    if edits != [] {
      var before := ApplyAll(p, edits[..|edits| - 1]);
      EditsShow(doc, p, edits[..|edits| - 1]);
      ApplyKeepsOrder(doc, before, edits[|edits| - 1]);
      ApplyShows(doc, before, edits[|edits| - 1]);
    }
  }

  // ------------------------------------------------------- saving

  // `qpdf in --pages . SELECTION -- --rotate=… out`.
  function Qpdf(doc: Document, selection: seq<Range>, args: seq<Turn>): Document
    requires Proper(selection) && forall k | 0 <= k < |args| :: Proper(args[k].at)
  {
    TurnAll(Each(Selected(selection), (page: nat) => PageAt(doc, page)), args, Turned)
  }

  /** qpdf writes exactly the display. */
  lemma QpdfWritesShown(doc: Document, order: Order, rotations: Rotations, selection: seq<Range>, args: seq<Turn>)
    requires Upright(doc) && Orders(order, doc)
    requires Proper(selection) && Selected(selection) == order
    requires TurnsFor(args, order, (page: nat) => RotationOf(rotations, page))
    requires forall k | 0 <= k < |args| :: Proper(args[k].at)
    ensures Qpdf(doc, selection, args) == Shown(doc, order, rotations)
  {
    var angle := (page: nat) => RotationOf(rotations, page);
    var look := (page: nat) => PageAt(doc, page);
    forall p | 0 <= p < |order| ensures Qpdf(doc, selection, args)[p] == Shown(doc, order, rotations)[p] {
      PlusZero(doc[order[p]].angle);
      QpdfWrites(order, angle, look, Turned, args, p);
    }
  }

  // The arguments qpdf is run with, and what it writes.
  method QpdfCopy(doc: Document, order: Order, rotations: Rotations) returns (copy: Document)
    requires Upright(doc) && Orders(order, doc)
    ensures copy == Shown(doc, order, rotations)
  {
    var angle := (page: nat) => RotationOf(rotations, page);
    var selection := PageSpec(order);
    var args := RotateArgs(order, angle);
    forall k | 0 <= k < |args| ensures Proper(args[k].at) {
      assert Names(args[k], order, angle);
    }
    QpdfWritesShown(doc, order, rotations, selection, args);
    copy := Qpdf(doc, selection, args);
  }

  /** Save, then reopen: whatever moves, removals and rotations were made since the document was
      opened, the saved copy, opened with identity order and nothing pending, shows at every position
      the page and angle that doing the same edits to the pages by hand gives. */
  lemma SaveThenReopen(doc: Document, edits: seq<Edit>, selection: seq<Range>, args: seq<Turn>)
    requires Upright(doc) && doc != []
    requires Proper(selection) && Selected(selection) == ApplyAll(Pending(Identity(|doc|), map[]), edits).order
    requires forall k | 0 <= k < |args| :: Proper(args[k].at)
    requires TurnsFor(args, Selected(selection),
                      (page: nat) => RotationOf(ApplyAll(Pending(Identity(|doc|), map[]), edits).rotations, page))
    ensures var copy := Qpdf(doc, selection, args);
            Shown(copy, Identity(|copy|), map[]) == ApplyAllTo(doc, edits)
  {
    var p := Pending(Identity(|doc|), map[]);
    var q := ApplyAll(p, edits);
    EditsShow(doc, p, edits);
    ReopenShows(doc);
    QpdfWritesShown(doc, q.order, q.rotations, selection, args);
    ShownUpright(doc, q.order, q.rotations);
    ReopenShows(Qpdf(doc, selection, args));
  }

  datatype Outcome = AlreadySaving | NothingToSave | NoQpdf | Saved | Started

  // The window's record of the open document.
  class Window {
    var doc: Document
    var pageOrder: Order
    var pageRotations: Rotations
    var pageIndex: nat
    var annots: nat
    var saveInFlight: bool
    var copy: Document              // what the running qpdf is writing
    var annotsAtSave: nat
    ghost var source: Document      // the document and what was pending when qpdf was started
    ghost var atSave: Pending
    var written: seq<Document>      // every copy that reached disk

    ghost predicate Valid()
      reads this
    {
      Upright(doc) && Orders(pageOrder, doc) && pageIndex < |pageOrder|
      && (saveInFlight ==> Upright(source) && Orders(atSave.order, source) && copy == ShownPending(source, atSave))
    }

    ghost function Display(): Document
      reads this
    {
      Shown(doc, pageOrder, pageRotations)
    }

    // A document opens with nothing pending.
    constructor (file: Document)
      requires file != [] && Upright(file)
      ensures Valid() && Display() == file && annots == 0 && !saveInFlight && written == []
    {
      doc, pageOrder, pageRotations, pageIndex, annots := file, Identity(|file|), map[], 0, 0;
      saveInFlight, copy, annotsAtSave, written := false, [], 0, [];
      source, atSave := file, Pending(Identity(|file|), map[]);
      new;
      ReopenShows(file);
    }

    method LoadFile(file: Document)
      requires file != [] && Upright(file)
      modifies this`doc, this`pageOrder, this`pageRotations, this`pageIndex, this`annots
      ensures doc == file && pageOrder == Identity(|file|) && pageRotations == map[] && pageIndex == 0 && annots == 0
      ensures Display() == file && Upright(doc) && Orders(pageOrder, doc) && pageIndex < |pageOrder|
    {
      doc, pageOrder, pageRotations, pageIndex, annots := file, Identity(|file|), map[], 0, 0;
      ReopenShows(file);
    }

    // `applyOrder`: None means the last page was asked to go.
    method ApplyOrder(next: Option<Order>)
      requires Valid() && (next.Some? ==> Orders(next.value, doc))
      modifies this`pageOrder, this`pageIndex
      ensures Valid() && pageOrder == (if next.Some? then next.value else old(pageOrder))
      ensures pageIndex == if next.Some? && old(pageIndex) >= |next.value| then |next.value| - 1 else old(pageIndex)
    {
      if next.None? {
        return;
      }
      pageOrder := next.value;
      pageIndex := if pageIndex < |pageOrder| then pageIndex else |pageOrder| - 1;
    }

    method MovePage(from: int, to: int)
      requires Valid()
      modifies this`pageOrder, this`pageIndex
      ensures Valid() && Display() == ApplyTo(old(Display()), Move(from, to))
    {
      ApplyKeepsOrder(doc, Pending(pageOrder, pageRotations), Move(from, to));
      ApplyShows(doc, Pending(pageOrder, pageRotations), Move(from, to));
      ApplyOrder(Some(MoveItem(pageOrder, from, to)));
    }

    method RemovePage(index: int)
      requires Valid()
      modifies this`pageOrder, this`pageIndex
      ensures Valid() && Display() == ApplyTo(old(Display()), Remove(index))
    {
      ApplyKeepsOrder(doc, Pending(pageOrder, pageRotations), Remove(index));
      ApplyShows(doc, Pending(pageOrder, pageRotations), Remove(index));
      ApplyOrder(RemoveItem(pageOrder, index));
    }

    method RotatePageAt(index: int, delta: int) returns (ok: bool)
      requires Valid()
      modifies this`pageRotations
      ensures Valid() && Display() == ApplyTo(old(Display()), Rotate(index, delta))
      ensures ok <==> 0 <= index < |pageOrder|
    {
      ApplyShows(doc, Pending(pageOrder, pageRotations), Rotate(index, delta));
      if index < 0 || index >= |pageOrder| {
        return false;
      }
      pageRotations := RotateBy(pageRotations, pageOrder[index], delta);
      return true;
    }

    // A mark on the current page; refused while that page waits to be rotated.
    method Annotate() returns (ok: bool)
      requires Valid()
      modifies this`annots
      ensures Valid() && (ok <==> RotationOf(pageRotations, pageOrder[pageIndex]) == 0)
      ensures annots == old(annots) + if ok then 1 else 0
    {
      ok := RotationOf(pageRotations, pageOrder[pageIndex]) == 0;
      if ok {
        annots := annots + 1;
      }
    }

    predicate IsDirty()
      reads this
    {
      annots > 0 || NeedsQpdf(doc, pageOrder, pageRotations)
    }

    /** Saving: without a pending order or rotation the document itself is the copy; otherwise qpdf
        is started on exactly the display. */
    method SaveEdited(hasQpdf: bool) returns (outcome: Outcome)
      requires Valid()
      modifies this
      ensures Valid()
      ensures outcome == (if old(saveInFlight) then AlreadySaving
                          else if old(annots) == 0 && !old(NeedsQpdf(doc, pageOrder, pageRotations)) then NothingToSave
                          else if !old(NeedsQpdf(doc, pageOrder, pageRotations)) then Saved
                          else if hasQpdf then Started else NoQpdf)
      ensures outcome.Saved? ==> Display() == old(Display()) && written == old(written) + [old(Display())] && !IsDirty()
      ensures outcome.Started? ==> saveInFlight && copy == old(Display()) && annotsAtSave == annots
      ensures outcome.Started? ==> source == doc && atSave == Pending(pageOrder, pageRotations)
      ensures !outcome.Saved? ==> unchanged(`doc) && unchanged(`pageOrder) && unchanged(`pageRotations)
      ensures !outcome.Saved? ==> unchanged(`annots) && unchanged(`written) && unchanged(`pageIndex)
      ensures !outcome.Started? ==> saveInFlight == old(saveInFlight)
    {
      if saveInFlight {
        return AlreadySaving;
      }
      if !IsDirty() {
        return NothingToSave;
      }
      if !NeedsQpdf(doc, pageOrder, pageRotations) {
        SkipExactly(doc, pageOrder, pageRotations);
        written := written + [doc];
        LoadFile(doc);
        return Saved;
      }
      if !hasQpdf {
        return NoQpdf;
      }
      StartQpdf();
      return Started;
    }

    method StartQpdf()
      requires Valid()
      modifies this`copy, this`saveInFlight, this`annotsAtSave, this`source, this`atSave
      ensures Valid() && saveInFlight && copy == Display() && annotsAtSave == annots
      ensures source == doc && atSave == Pending(pageOrder, pageRotations)
    {
      copy := QpdfCopy(doc, pageOrder, pageRotations);
      source, atSave := doc, Pending(pageOrder, pageRotations);
      saveInFlight, annotsAtSave := true, annots;
    }

    /** qpdf is done. The copy on disk is the display at save time; the window goes over to it unless
        marks were added meanwhile, and then keeps everything it had. */
    method SaveFinished(success: bool)
      requires Valid() && saveInFlight
      modifies this
      ensures Valid() && !saveInFlight
      ensures written == old(written) + if success then [old(copy)] else []
      ensures success && old(annots) == old(annotsAtSave) ==> Display() == old(copy) && !IsDirty()
      ensures success && old(annots) == old(annotsAtSave) && old(doc) == source && Different(source) ==>
                (Display() == old(Display()) <==> SamePending(old(Pending(pageOrder, pageRotations)), atSave))
      ensures !(success && old(annots) == old(annotsAtSave)) ==> Display() == old(Display()) && annots == old(annots)
    {
      saveInFlight := false;
      if !success {
        return;
      }
      written := written + [copy];
      if annots != annotsAtSave {
        return;
      }
      ShownUpright(source, atSave.order, atSave.rotations);
      ghost var now, was := Pending(pageOrder, pageRotations), Display();
      FinishedShows(source, atSave, doc, now);
      assert doc == source && Different(source) ==> (copy == was <==> SamePending(now, atSave));
      LoadFile(copy);
    }
  }

  lemma FinishedShows(source: Document, atSave: Pending, doc: Document, now: Pending)
    requires Upright(source) && Orders(atSave.order, source) && Orders(now.order, doc)
    ensures doc == source && Different(source) ==>
              (ShownPending(source, atSave) == Shown(doc, now.order, now.rotations) <==> SamePending(now, atSave))
  {
    PendingShows(source, atSave, now, doc == source && Different(source));
  }

  /** Edits made while qpdf runs: the copy is the display at save time, and the window goes over to it.
      Whatever moves, removals and rotations came in between, what is then shown is what was shown just
      before if and only if they left the order and every pending angle as they were at save time. */
  lemma EditsDuringSave(doc: Document, p: Pending, edits: seq<Edit>)
    requires Upright(doc) && Orders(p.order, doc) && Different(doc)
    ensures var copy, q := ShownPending(doc, p), ApplyAll(p, edits);
            Shown(copy, Identity(|copy|), map[]) == ShownPending(doc, q) <==> SamePending(q, p)
  {
    var q := ApplyAll(p, edits);
    EditsShow(doc, p, edits);
    ShownUpright(doc, p.order, p.rotations);
    ReopenShows(ShownPending(doc, p));
    PendingShows(doc, p, q, true);
  }

  /** A failing run: a page turned while qpdf runs loses the turn, unless it was a full one. */
  lemma RotationDuringSaveIsLost(doc: Document, p: Pending, index: nat, delta: int)
    requires Upright(doc) && Orders(p.order, doc) && Different(doc) && index < |p.order|
    ensures var copy := ShownPending(doc, p);
            Shown(copy, Identity(|copy|), map[]) == ShownPending(doc, ApplyAll(p, [Rotate(index, delta)]))
            <==> delta % 360 == 0
  {
    EditsDuringSave(doc, p, [Rotate(index, delta)]);
    OneEdit(p, Rotate(index, delta));
    TurnPending(p, index, delta);
  }

  lemma TurnPending(p: Pending, index: nat, delta: int)
    requires index < |p.order|
    ensures SamePending(Apply(p, Rotate(index, delta)), p) <==> delta % 360 == 0
  {
    var page := p.order[index];
    TurnedBack(RotationOf(p.rotations, page), delta);
    forall i | 0 <= i < |p.order|
      ensures RotationOf(RotateBy(p.rotations, page, delta), p.order[i])
           == if p.order[i] == page then Plus(RotationOf(p.rotations, page), delta)
               else RotationOf(p.rotations, p.order[i])
    {
      RotationAdds(p.rotations, page, delta, p.order[i]);
    }
  }

  /** Another: a page moved while qpdf runs is back in its place. */
  lemma MoveDuringSaveIsLost(doc: Document, p: Pending, from: nat, to: nat)
    requires Upright(doc) && Orders(p.order, doc) && Different(doc)
    requires from < |p.order| && to < |p.order| && from != to
    ensures var copy := ShownPending(doc, p);
            Shown(copy, Identity(|copy|), map[]) != ShownPending(doc, ApplyAll(p, [Move(from, to)]))
  {
    EditsDuringSave(doc, p, [Move(from, to)]);
    OneEdit(p, Move(from, to));
    assert MoveItem(p.order, from, to)[to] == p.order[from] != p.order[to];
  }

  lemma OneEdit(p: Pending, e: Edit)
    ensures ApplyAll(p, [e]) == Apply(p, e)
  {
    assert [e][..0] == [];
  }

  lemma TurnedBack(angle: int, delta: int)
    requires 0 <= angle < 360
    ensures Plus(angle, delta) == angle <==> delta % 360 == 0
  {
    ModAdds(delta, angle);
    assert (delta % 360 + angle) % 360 == Plus(angle, delta);
  }
}
