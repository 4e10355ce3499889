/** Saving in apps/notes/lisa-notes-app.js, as steps with arbitrary scheduling at every `await`. */
module Notes {
  // Typing, Ctrl+S, row clicks, New and Close are on one side, the daemon's work and replies on the
  // other, and the continuations of the pending calls in any order in between.
  //
  // A selected note is an object: a save keeps hold of the object it started with, while the window
  // may meanwhile move on to another. Objects are indices into `heap`.

  import opened Common

  datatype Content = Content(title: string, body: string)

  // A note object; `tag` says which note of this window it is, and survives demotion to a draft.
  datatype Note = Note(id: Option<nat>, content: Content, unreadable: bool, tag: nat)

  // What is to happen after a call to `_maybeSave` comes back.
  datatype Then = Save | Select(id: nat) | New | Close

  datatype Kind = Nothing | Create | Update(id: nat)

  // A request: on its way, carried out by the daemon, or answered.
  datatype Phase = Sent | Applied(id: nat) | Done(ok: bool)

  // A run of `_writeEditorState`: the object and the words it started with.
  datatype Write = Write(obj: nat, content: Content, kind: Kind, phase: Phase, k: Then)

  // A call in `_maybeSave`'s loop, awaiting the save of call `on`.
  datatype Wait = Wait(on: nat, k: Then)

  // The note objects, the selected one and the words in the editor; `worth` is `isWorthSaving`.
  datatype Desk = Desk(worth: Content -> bool, heap: seq<Note>, selected: Option<nat>, editor: Content)

  // `_saving` (the call that set it), the calls in flight, and how each save ended.
  datatype Flight = Flight(saving: Option<nat>, waits: map<nat, Wait>, writes: map<nat, Write>, settled: map<nat, bool>)

  // `loads` are pending read_note calls (note id, whether to reload after), `lists` pending
  // list_notes calls (whether a new draft follows), `listed` the ids of the last list.
  datatype Shell = Shell(next: nat, loads: map<nat, (nat, bool)>, lists: map<nat, bool>, listed: set<nat>,
                         discardOk: bool, closing: bool, closed: bool)

  // The daemon's notes, and every create it carried out: tag and new id.
  datatype World = World(backend: map<nat, Content>, nextId: nat, creates: seq<(nat, nat)>)

  datatype State = State(desk: Desk, flight: Flight, shell: Shell, world: World)

  const BLANK := Content("", "")

  function Start(worth: Content -> bool, backend: map<nat, Content>, nextId: nat): State {
    State(Desk(worth, [], None, BLANK), Flight(None, map[], map[], map[]),
          Shell(0, map[], map[], {}, false, false, false), World(backend, nextId, []))
  }

  datatype Answer = Truthful | WithoutId | Failure

  datatype Event =
    | Type(content: Content)
    | Press(k: Then)
    | Refresh
    | Search                             // the list is drawn again from what was last listed
    | Wake(call: nat)                    // a waiting call finds its awaited save settled
    | Apply(call: nat)                   // the daemon carries out a request
    | Answered(call: nat, how: Answer)
    | Resume(call: nat)                  // the owner of `_saving` goes on
    | Loaded(load: nat, content: Content, readable: bool)
    | Listed(list: nat, ids: set<nat>)   // a failed or unavailable list reads as the empty set
    | Outside(id: nat, stored: Option<Content>)    // another program writes or deletes a note

  // ------------------------------------------------------- the steps

  function Selected(d: Desk): Option<Note> {
    if d.selected.Some? && d.selected.value < |d.heap| then Some(d.heap[d.selected.value]) else None
  }

  // `_editorDirty`.
  predicate Dirty(d: Desk) {
    var n := Selected(d);
    n.Some? && !n.value.unreadable && d.editor != n.value.content
  }

  // What `_writeEditorState` sends.
  function KindOf(d: Desk): Kind {
    var n := Selected(d);
    if n.None? || n.value.unreadable then Nothing
    else if n.value.id.None? then (if d.worth(d.editor) then Create else Nothing)
    else if d.editor == n.value.content then Nothing
    else Update(n.value.id.value)
  }

  // `_saving = _writeEditorState()`, by call `c`.
  function Begin(d: Desk, f: Flight, c: nat, k: Then): Flight {
    var kind := KindOf(d);
    var obj := if d.selected.Some? then d.selected.value else 0;
    if kind.Nothing? then
      f.(saving := Some(c), writes := f.writes[c := Write(obj, d.editor, kind, Done(true), k)],
            settled := f.settled[c := true])
    else f.(saving := Some(c), writes := f.writes[c := Write(obj, d.editor, kind, Sent, k)])
  }

  // `_maybeSave`: begin at once, or wait for the running save.
  function Enter(d: Desk, f: Flight, c: nat, k: Then): Flight {
    if f.saving.None? then Begin(d, f, c, k) else f.(waits := f.waits[c := Wait(f.saving.value, k)])
  }

  // A note or a new draft fills the editor.
  function Show(d: Desk, note: Note): Desk {
    d.(heap := d.heap + [note], selected := Some(|d.heap|), editor := note.content)
  }

  function Draft(d: Desk): Note {
    Note(None, BLANK, false, |d.heap|)
  }

  // Showing changes the text unless it happens to be the same, and a change of the text revokes a standing discard.
  function Fill(s: State, note: Note): State {
    s.(desk := Show(s.desk, note), shell := s.shell.(discardOk := s.shell.discardOk && s.desk.editor == note.content))
  }

  function Reload(h: Shell, thenNew: bool): Shell {
    h.(lists := h.lists[h.next := thenNew], next := h.next + 1)
  }

  // After the save: what the caller of `_maybeSave` does next.
  function Continue(s: State, k: Then, wrote: bool): State {
    match k
    case Save => if wrote then s.(shell := Reload(s.shell, false)) else s
    case Select(id) => s.(shell := s.shell.(loads := s.shell.loads[s.shell.next := (id, wrote)],
          next := s.shell.next + 1))
    case New => if wrote then s.(shell := Reload(s.shell, true)) else Fill(s, Draft(s.desk))
    case Close => s.(shell := s.shell.(closed := true))
  }

  // After a failed save everyone stays; a close becomes an informed discard the next time.
  function GiveUp(h: Shell, k: Then): Shell {
    if k.Close? then h.(closing := false, discardOk := true) else h
  }

  // `_renderList`: is the selected note still there?
  function Render(d: Desk, ids: set<nat>): Desk {
    var n := Selected(d);
    if n.None? || n.value.id.None? || n.value.id.value in ids then d
    else if Dirty(d) then d.(heap := d.heap + [n.value.(id := None)], selected := Some(|d.heap|))
    else d.(selected := None)
  }

  function Pressed(s: State, k: Then): State {
    var entered := s.(flight := Enter(s.desk, s.flight, s.shell.next, k), shell := s.shell.(next := s.shell.next + 1));
    match k
    case Select(id) =>
      var n := Selected(s.desk);
      if n.Some? && n.value.id == Some(id) then s else entered
    case Close =>
      if s.shell.closing || s.shell.discardOk then s.(shell := s.shell.(closed := true))
      else entered.(shell := entered.shell.(closing := true))
    case _ => entered
  }

  // The daemon carries out the request of call `c`; an update of a note that is gone waits for its failure.
  function Carried(s: State, c: nat): State {
    if c !in s.flight.writes || !s.flight.writes[c].phase.Sent? then s
    else
      var w, f, o := s.flight.writes[c], s.flight, s.world;
      match w.kind
      case Nothing => s
      case Create =>
        var tag := if w.obj < |s.desk.heap| then s.desk.heap[w.obj].tag else 0;
        s.(flight := f.(writes := f.writes[c := w.(phase := Applied(o.nextId))]),
           world := World(o.backend[o.nextId := w.content], o.nextId + 1, o.creates + [(tag, o.nextId)]))
      case Update(id) =>
        if id !in o.backend then s
        else s.(flight := f.(writes := f.writes[c := w.(phase := Applied(id))]),
              world := o.(backend := o.backend[id := w.content]))
  }

  // The note as the write leaves it: a created one takes the id the daemon hands back.
  function Written(n: Note, w: Write, how: Answer): Note
    requires w.phase.Applied?
  {
    var id := if w.kind.Create? then (if how.Truthful? then Some(w.phase.id) else None) else n.id;
    n.(id := id, content := w.content)
  }

  function Settle(f: Flight, c: nat, w: Write, ok: bool): Flight {
    f.(writes := f.writes[c := w.(phase := Done(ok))], settled := f.settled[c := ok])
  }

  // The reply reaches `_writeEditorState`: the object it started with takes the saved words.
  function Replied(s: State, c: nat, how: Answer): State {
    if c !in s.flight.writes || s.flight.writes[c].phase.Done? || s.flight.writes[c].obj >= |s.desk.heap| then s
    else
      var w := s.flight.writes[c];
      if how.Failure? then s.(flight := Settle(s.flight, c, w, false))
      else if w.phase.Sent? then s
      else s.(flight := Settle(s.flight, c, w, true),
              desk := s.desk.(heap := s.desk.heap[w.obj := Written(s.desk.heap[w.obj], w, how)]))
  }

  function Woken(s: State, c: nat): State {
    if c !in s.flight.waits || s.flight.waits[c].on !in s.flight.settled then s
    else
      var k := s.flight.waits[c].k;
      var up := s.flight.(waits := s.flight.waits - {c});
      if s.flight.settled[s.flight.waits[c].on] then s.(flight := Enter(s.desk, up, c, k))
      else s.(flight := up, shell := GiveUp(s.shell, k))
  }

  function Clear(f: Flight, c: nat): Flight {
    f.(writes := f.writes - {c}, saving := None)
  }

  function Resumed(s: State, c: nat): State {
    if c !in s.flight.writes || !s.flight.writes[c].phase.Done? then s
    else
      var w, cleared := s.flight.writes[c], s.(flight := Clear(s.flight, c));
      if w.phase.ok then Continue(cleared.(shell := s.shell.(discardOk := false)), w.k, !w.kind.Nothing?)
      else cleared.(shell := GiveUp(s.shell, w.k))
  }

  function Opened(s: State, n: nat, content: Content, readable: bool): State {
    if n !in s.shell.loads then s
    else
      var (id, wrote) := s.shell.loads[n];
      var shown := Fill(s.(shell := s.shell.(loads := s.shell.loads - {n})),
            Note(Some(id), content, !readable, |s.desk.heap|));
      if wrote then shown.(shell := Reload(shown.shell, false)) else shown
  }

  function Drawn(s: State, n: nat, ids: set<nat>): State {
    if n !in s.shell.lists then s
    else
      var drawn := s.(desk := Render(s.desk, ids), shell := s.shell.(lists := s.shell.lists - {n}, listed := ids));
      if s.shell.lists[n] then Fill(drawn, Draft(drawn.desk)) else drawn
  }

  function Typed(s: State, content: Content): State {
    var n := Selected(s.desk);
    if n.Some? && !n.value.unreadable then s.(desk := s.desk.(editor := content),
          shell := s.shell.(discardOk := false)) else s
  }

  function Interfere(o: World, id: nat, stored: Option<Content>): World {
    if stored.Some? then o.(backend := o.backend[id := stored.value], nextId := if id >= o.nextId then id + 1
          else o.nextId)
    else o.(backend := o.backend - {id})
  }

  function Step(s: State, e: Event): State {
    match e
    case Type(content) => Typed(s, content)
    case Press(k) => Pressed(s, k)
    case Refresh => s.(shell := Reload(s.shell, false))
    case Search => s.(desk := Render(s.desk, s.shell.listed))
    case Wake(c) => Woken(s, c)
    case Apply(c) => Carried(s, c)
    case Answered(c, how) => Replied(s, c, how)
    case Resume(c) => Resumed(s, c)
    case Loaded(n, content, readable) => Opened(s, n, content, readable)
    case Listed(n, ids) => Drawn(s, n, ids)
    case Outside(id, stored) => s.(world := Interfere(s.world, id, stored))
  }

  function RunAll(s: State, events: seq<Event>): State {
    if events == [] then s else Step(RunAll(s, events[..|events| - 1]), events[|events| - 1])
  }

  // ------------------------------------------------------- single flight

  ghost predicate Outstanding(w: Write) {
    !w.phase.Done?
  }

  // The write goes to the note it was started for, and never to one whose body failed to load.
  ghost predicate Fits(heap: seq<Note>, w: Write) {
    Outstanding(w) ==>
      (!w.kind.Nothing? && w.obj < |heap| && !heap[w.obj].unreadable
       && heap[w.obj].id == (if w.kind.Create? then None else Some(w.kind.id)))
  }

  // `_saving` is held by exactly the call that is writing.
  ghost predicate Alone(d: Desk, f: Flight) {
    f.writes.Keys == (if f.saving.Some? then {f.saving.value} else {})
    && (d.selected.Some? ==> d.selected.value < |d.heap|)
    && (f.saving.Some? ==> Fits(d.heap, f.writes[f.saving.value]))
  }

  // Nobody waits for a save that is neither running nor settled.
  ghost predicate Tracked(f: Flight) {
    (forall c | c in f.writes && f.writes[c].phase.Done? :: c in f.settled)
    && (forall c | c in f.waits :: f.waits[c].on in f.settled || f.saving == Some(f.waits[c].on))
  }

  lemma EnterAlone(d: Desk, f: Flight, c: nat, k: Then)
    requires Alone(d, f)
    ensures Alone(d, Enter(d, f, c, k))
  {}

  lemma ShowAlone(d: Desk, f: Flight, note: Note, ids: set<nat>)
    requires Alone(d, f)
    ensures Alone(Show(d, note), f) && Alone(Render(d, ids), f)
  {}

  lemma CarriedAlone(s: State, c: nat)
    requires Alone(s.desk, s.flight)
    ensures Alone(Carried(s, c).desk, Carried(s, c).flight)
  {}

  lemma RepliedAlone(s: State, c: nat, how: Answer)
    requires Alone(s.desk, s.flight)
    ensures Alone(Replied(s, c, how).desk, Replied(s, c, how).flight)
  {}

  lemma ResumedAlone(s: State, c: nat)
    requires Alone(s.desk, s.flight)
    ensures Alone(Resumed(s, c).desk, Resumed(s, c).flight)
  {
    if c in s.flight.writes {
      assert Alone(s.desk, Clear(s.flight, c));
      ShowAlone(s.desk, Clear(s.flight, c), Draft(s.desk), {});
    }
  }

  lemma DrawnAlone(s: State, n: nat, ids: set<nat>)
    requires Alone(s.desk, s.flight)
    ensures Alone(Drawn(s, n, ids).desk, s.flight) && Drawn(s, n, ids).flight == s.flight
  {
    ShowAlone(s.desk, s.flight, Draft(s.desk), ids);
    ShowAlone(Render(s.desk, ids), s.flight, Draft(Render(s.desk, ids)), ids);
  }

  lemma StepAlone(s: State, e: Event)
    requires Alone(s.desk, s.flight)
    ensures Alone(Step(s, e).desk, Step(s, e).flight)
  {
    match e {
      case Press(k) => EnterAlone(s.desk, s.flight, s.shell.next, k);
      case Wake(c) => if c in s.flight.waits { EnterAlone(s.desk, s.flight.(waits := s.flight.waits - {c}), c,
            s.flight.waits[c].k); }
      case Apply(c) => CarriedAlone(s, c);
      case Answered(c, how) => RepliedAlone(s, c, how);
      case Resume(c) => ResumedAlone(s, c);
      case Loaded(n, content, readable) =>
        if n in s.shell.loads {
          ShowAlone(s.desk, s.flight, Note(Some(s.shell.loads[n].0), content, !readable, |s.desk.heap|), {});
        }
      case Search => ShowAlone(s.desk, s.flight, Draft(s.desk), s.shell.listed);
      case Listed(n, ids) => DrawnAlone(s, n, ids);
      case _ =>
    }
  }

  lemma EnterTracked(d: Desk, f: Flight, c: nat, k: Then)
    requires Tracked(f)
    ensures Tracked(Enter(d, f, c, k))
  {}

  lemma StepTracked(s: State, e: Event)
    requires Alone(s.desk, s.flight) && Tracked(s.flight)
    ensures Tracked(Step(s, e).flight)
  {
    match e {
      case Press(k) => EnterTracked(s.desk, s.flight, s.shell.next, k);
      case Wake(c) => if c in s.flight.waits { EnterTracked(s.desk, s.flight.(waits := s.flight.waits - {c}), c,
            s.flight.waits[c].k); }
      case _ =>
    }
  }

  lemma {:induction false} RunGood(s: State, events: seq<Event>)
    requires Alone(s.desk, s.flight) && Tracked(s.flight)
    ensures var t := RunAll(s, events); Alone(t.desk, t.flight) && Tracked(t.flight)
  {
    if events != [] {
      var t := RunAll(s, events[..|events| - 1]);
      RunGood(s, events[..|events| - 1]);
      StepAlone(t, events[|events| - 1]);
      StepTracked(t, events[|events| - 1]);
    }
  }

  /** Under every interleaving: at most one create or update is outstanding, it belongs to the call
      `_saving` names, it never writes a note whose body failed to load, and while no save is held no
      waiting call is stuck: the save it waited for has settled. */
  lemma SingleFlightAlways(worth: Content -> bool, backend: map<nat, Content>, nextId: nat, events: seq<Event>)
    ensures var s := RunAll(Start(worth, backend, nextId), events); var f := s.flight;
            (forall c, d | c in f.writes && d in f.writes :: c == d)
            && (forall c | c in f.writes ::
                  f.saving == Some(c)
                  && (Outstanding(f.writes[c]) ==>
                        f.writes[c].obj < |s.desk.heap| && !s.desk.heap[f.writes[c].obj].unreadable))
            && (f.saving.None? ==> f.writes == map[] && forall c | c in f.waits :: f.waits[c].on in f.settled)
  {
    RunGood(Start(worth, backend, nextId), events);
  }

  /** `_saving` is cleared by nobody but the call that set it, and nobody takes it over before. */
  lemma ClearedByOwner(worth: Content -> bool, backend: map<nat, Content>, nextId: nat, events: seq<Event>, e: Event)
    ensures var s := RunAll(Start(worth, backend, nextId), events); var t := Step(s, e);
            s.flight.saving.Some? && t.flight.saving != s.flight.saving
            ==> t.flight.saving.None? && e == Resume(s.flight.saving.value)
  {
    RunGood(Start(worth, backend, nextId), events);
  }

  // ------------------------------------------------------- closing the window

  // A call that will close the window once its save, or the one it waits for, has ended well.
  ghost predicate CloseCall(f: Flight, c: nat) {
    (c in f.waits && f.waits[c].k.Close?) || (c in f.writes && f.writes[c].k.Close?)
  }

  ghost predicate SavedToClose(s: State, e: Event) {
    e.Resume? && e.call in s.flight.writes && s.flight.writes[e.call].k.Close?
    && s.flight.writes[e.call].phase == Done(true)
  }

  // The save for a close failed, or the one a close waited for did.
  ghost predicate FailedToClose(s: State, e: Event) {
    match e
    case Resume(c) => c in s.flight.writes && s.flight.writes[c].k.Close? && s.flight.writes[c].phase == Done(false)
    case Wake(c) =>
      c in s.flight.waits && s.flight.waits[c].k.Close?
      && s.flight.waits[c].on in s.flight.settled && !s.flight.settled[s.flight.waits[c].on]
    case _ => false
  }

  // A save ended well, or the text changed.
  ghost predicate Revokes(s: State, e: Event) {
    (e.Resume? && e.call in s.flight.writes && s.flight.writes[e.call].phase == Done(true))
    || (e.Type? && Selected(s.desk).Some? && !Selected(s.desk).value.unreadable)
    || Step(s, e).desk.editor != s.desk.editor
  }

  // The last close that failed has been told, and nothing was saved or written since.
  ghost predicate Warned(s: State, events: seq<Event>) {
    if events == [] then s.shell.discardOk
    else
      var before, e := RunAll(s, events[..|events| - 1]), events[|events| - 1];
      FailedToClose(before, e) || (Warned(s, events[..|events| - 1]) && !Revokes(before, e))
  }

  lemma ClosesStep(s: State, e: Event)
    ensures Step(s, e).shell.closed
       <==> s.shell.closed || SavedToClose(s, e) || (e == Press(Close) && (s.shell.closing || s.shell.discardOk))
  {}

  lemma DiscardStep(s: State, e: Event)
    ensures Step(s, e).shell.discardOk <==> FailedToClose(s, e) || (s.shell.discardOk && !Revokes(s, e))
  {}

  /** A standing "close again to discard" is exactly a failed close with nothing saved and nothing written
      since, over every run. */
  lemma {:induction false} DiscardExactly(s: State, events: seq<Event>)
    ensures RunAll(s, events).shell.discardOk <==> Warned(s, events)
  {
    if events != [] {
      DiscardExactly(s, events[..|events| - 1]);
      DiscardStep(RunAll(s, events[..|events| - 1]), events[|events| - 1]);
    }
  }

  // While the window is open, `_closing` is held by the one call that will close it.
  ghost predicate Held(s: State) {
    Issued(s.flight, s.shell.next) && (!s.shell.closed ==> HeldBy(s.flight, s.shell.closing))
  }

  // Calls are numbered as they are made, and none both waits and writes.
  ghost predicate Issued(f: Flight, next: nat) {
    (forall c | c in f.waits || c in f.writes :: c < next) && (forall c :: !(c in f.waits && c in f.writes))
  }

  ghost predicate HeldBy(f: Flight, closing: bool) {
    (closing <==> exists c :: CloseCall(f, c)) && (forall c, d | CloseCall(f, c) && CloseCall(f, d) :: c == d)
  }

  lemma EnterCalls(d: Desk, f: Flight, c: nat, k: Then)
    requires c !in f.waits && c !in f.writes
    ensures forall x :: CloseCall(Enter(d, f, c, k), x) <==> if x == c then k.Close? else CloseCall(f, x)
  {}

  // The close calls in flight are the same as before.
  ghost predicate SameCalls(f: Flight, g: Flight) {
    forall c :: CloseCall(f, c) <==> CloseCall(g, c)
  }

  lemma SameHeld(f: Flight, g: Flight, closing: bool)
    requires SameCalls(f, g) && HeldBy(f, closing)
    ensures HeldBy(g, closing)
  {
    if closing {
      var c :| CloseCall(f, c);
      assert CloseCall(g, c);
    }
  }

  lemma EnterHeld(d: Desk, f: Flight, c: nat, k: Then, closing: bool)
    requires c !in f.waits && c !in f.writes && HeldBy(f, closing) && (k.Close? ==> !closing)
    ensures HeldBy(Enter(d, f, c, k), closing || k.Close?)
  {
    EnterCalls(d, f, c, k);
    if k.Close? {
      assert CloseCall(Enter(d, f, c, k), c);
    } else {
      SameHeld(f, Enter(d, f, c, k), closing);
    }
  }

  lemma EnterIssued(d: Desk, f: Flight, c: nat, k: Then)
    requires Issued(f, c)
    ensures Issued(Enter(d, f, c, k), c + 1)
  {}

  lemma PressHeld(s: State, k: Then)
    requires Held(s)
    ensures Held(Pressed(s, k))
  {
    var c := s.shell.next;
    EnterIssued(s.desk, s.flight, c, k);
    if !s.shell.closed && (k.Close? ==> !s.shell.closing) { EnterHeld(s.desk, s.flight, c, k, s.shell.closing); }
  }

  // Call `c` comes out of the way of the others.
  lemma LeavingHeld(f: Flight, up: Flight, c: nat, closing: bool)
    requires HeldBy(f, closing) && forall x :: CloseCall(up, x) <==> CloseCall(f, x) && x != c
    ensures CloseCall(f, c) ==> HeldBy(up, false)
    ensures !CloseCall(f, c) ==> HeldBy(up, closing)
  {
    if !CloseCall(f, c) { SameHeld(f, up, closing); }
  }

  lemma WokenHeld(s: State, c: nat)
    requires Held(s)
    ensures Held(Woken(s, c))
  {
    if c in s.flight.waits && s.flight.waits[c].on in s.flight.settled {
      var k, up := s.flight.waits[c].k, s.flight.(waits := s.flight.waits - {c});
      assert forall x :: CloseCall(up, x) <==> CloseCall(s.flight, x) && x != c;
      EnterCalls(s.desk, up, c, k);
      if !s.shell.closed {
        LeavingHeld(s.flight, up, c, s.shell.closing);
        SameHeld(s.flight, Enter(s.desk, up, c, k), s.shell.closing);
      }
    }
  }

  lemma ResumedHeld(s: State, c: nat)
    requires Alone(s.desk, s.flight) && Held(s)
    ensures Held(Resumed(s, c))
  {
    if c in s.flight.writes && s.flight.writes[c].phase.Done? {
      var up := Clear(s.flight, c);
      assert forall x :: CloseCall(up, x) <==> CloseCall(s.flight, x) && x != c;
      if !s.shell.closed { LeavingHeld(s.flight, up, c, s.shell.closing); }
    }
  }

  lemma CarriedHeld(s: State, c: nat)
    requires Held(s)
    ensures Held(Carried(s, c))
  {
    if !s.shell.closed { SameHeld(s.flight, Carried(s, c).flight, s.shell.closing); }
  }

  lemma RepliedHeld(s: State, c: nat, how: Answer)
    requires Held(s)
    ensures Held(Replied(s, c, how))
  {
    if !s.shell.closed { SameHeld(s.flight, Replied(s, c, how).flight, s.shell.closing); }
  }

  lemma HeldStep(s: State, e: Event)
    requires Alone(s.desk, s.flight) && Held(s)
    ensures Held(Step(s, e))
  {
    match e
    case Press(k) => PressHeld(s, k);
    case Wake(c) => WokenHeld(s, c);
    case Apply(c) => CarriedHeld(s, c);
    case Answered(c, how) => RepliedHeld(s, c, how);
    case Resume(c) => ResumedHeld(s, c);
    case _ =>
  }

  lemma {:induction false} HeldAlways(s: State, events: seq<Event>)
    requires Alone(s.desk, s.flight) && Tracked(s.flight) && Held(s)
    ensures Held(RunAll(s, events))
  {
    if events != [] {
      HeldAlways(s, events[..|events| - 1]);
      RunGood(s, events[..|events| - 1]);
      HeldStep(RunAll(s, events[..|events| - 1]), events[|events| - 1]);
    }
  }

  /** The window closes, in every run, exactly when a save made for a close has ended well, or at a close
      asked for while another is held or a discard stands; while it is open, a close is held exactly while
      one call for it is in flight. */
  lemma ClosesExactly(worth: Content -> bool, backend: map<nat, Content>, nextId: nat, events: seq<Event>, e: Event)
    ensures var start := Start(worth, backend, nextId);
            var s, t := RunAll(start, events), RunAll(start, events + [e]);
            (t.shell.closed <==>
               s.shell.closed || SavedToClose(s, e)
               || (e == Press(Close) && (s.shell.closing || Warned(start, events))))
            && (!s.shell.closed ==> (s.shell.closing <==> exists c :: CloseCall(s.flight, c)))
  {
    var start := Start(worth, backend, nextId);
    assert (events + [e])[..|events|] == events;
    DiscardExactly(start, events);
    ClosesStep(RunAll(start, events), e);
    HeldAlways(start, events);
  }

  // The window is open and no call will close it.
  ghost predicate Staying(s: State) {
    !s.shell.closed && !s.shell.closing && forall c :: !CloseCall(s.flight, c)
  }

  ghost predicate NothingRevokes(s: State, events: seq<Event>) {
    events != [] ==>
      NothingRevokes(s, events[..|events| - 1])
      && !Revokes(RunAll(s, events[..|events| - 1]), events[|events| - 1])
  }

  lemma StaysOpen(s: State, e: Event)
    requires Alone(s.desk, s.flight) && Held(s) && Staying(s) && e != Press(Close)
    ensures Staying(Step(s, e))
  {
    ClosesStep(s, e);
    HeldStep(s, e);
    ClosingRises(s, e);
    assert e.Resume? ==> !CloseCall(s.flight, e.call);
  }

  // Only a close asked for is held.
  lemma ClosingRises(s: State, e: Event)
    requires !s.shell.closing && e != Press(Close)
    ensures !Step(s, e).shell.closing
  {}

  lemma {:induction false} StaysUntilAsked(s: State, later: seq<Event>)
    requires Alone(s.desk, s.flight) && Tracked(s.flight) && Held(s) && Staying(s) && Press(Close) !in later
    ensures var u := RunAll(s, later);
            Staying(u)
            && (s.shell.discardOk && NothingRevokes(s, later) ==> u.shell.discardOk && u.desk.editor == s.desk.editor)
  {
    if later != [] {
      var front := later[..|later| - 1];
      StaysUntilAsked(s, front);
      RunGood(s, front);
      HeldAlways(s, front);
      StaysOpen(RunAll(s, front), later[|later| - 1]);
      DiscardStep(RunAll(s, front), later[|later| - 1]);
    }
  }

  lemma FailureKeeps(s: State, e: Event)
    requires Alone(s.desk, s.flight) && Held(s) && !s.shell.closed && FailedToClose(s, e)
    ensures Step(s, e).desk == s.desk && Staying(Step(s, e)) && Step(s, e).shell.discardOk
  {
    ClosesStep(s, e);
    HeldStep(s, e);
  }

  /** A close whose save fails loses nothing: the window is open, the words are in the editor, and it stays
      so, whatever happens, until a close is asked for again; that one closes at once exactly while nothing
      has been saved and nothing written since. */
  lemma FailedCloseKeeps(worth: Content -> bool, backend: map<nat, Content>, nextId: nat, events: seq<Event>, e: Event,
                         later: seq<Event>)
    requires var s := RunAll(Start(worth, backend, nextId), events); !s.shell.closed && FailedToClose(s, e)
    requires Press(Close) !in later
    ensures var start := Start(worth, backend, nextId);
            var s, t := RunAll(start, events), RunAll(start, events + [e]);
            t.desk == s.desk && !t.shell.closed && t.shell.discardOk && !RunAll(t, later).shell.closed
            && (NothingRevokes(t, later) ==> RunAll(t, later).desk.editor == s.desk.editor)
            && (NothingRevokes(t, later) ==> RunAll(t, later + [Press(Close)]).shell.closed)
            && (RunAll(t, later + [Press(Close)]).shell.closed <==> Warned(t, later))
  {
    var start := Start(worth, backend, nextId);
    var s, t := RunAll(start, events), RunAll(start, events + [e]);
    assert (events + [e])[..|events|] == events;
    assert (later + [Press(Close)])[..|later|] == later;
    RunGood(start, events);
    RunGood(start, events + [e]);
    HeldAlways(start, events);
    HeldAlways(start, events + [e]);
    FailureKeeps(s, e);
    StaysUntilAsked(t, later);
    ClosesStep(RunAll(t, later), Press(Close));
    DiscardExactly(t, later);
  }

  // ------------------------------------------------------- moving between notes

  // This note fills the editor.
  ghost predicate OnScreen(d: Desk, id: Option<nat>, content: Content, readable: bool) {
    var n := Selected(d);
    n.Some? && n.value.id == id && n.value.content == content && d.editor == content && n.value.unreadable == !readable
  }

  // A list is asked for; a new draft follows it or not.
  ghost predicate ListAsked(h: Shell, g: Shell, thenNew: bool) {
    g.lists == h.lists[h.next := thenNew] && g.loads == h.loads
  }

  /** What the end of a save lets happen. A failed one moves nothing: the note and the words stay. After a
      good one Ctrl+S asks for the list if something was written, a click asks for its own note, New shows a
      blank draft, at once or after the list. */
  lemma ResumeDoes(s: State, c: nat)
    requires c in s.flight.writes && s.flight.writes[c].phase.Done?
    ensures var w, t := s.flight.writes[c], Step(s, Resume(c)); var wrote := !w.kind.Nothing?;
            if !w.phase.ok then t.desk == s.desk && t.shell.loads == s.shell.loads && t.shell.lists == s.shell.lists
            else match w.k
              case Save =>
                t.desk == s.desk
                && (if wrote then ListAsked(s.shell, t.shell, false)
                    else t.shell.lists == s.shell.lists && t.shell.loads == s.shell.loads)
              case Select(id) =>
                t.desk == s.desk && t.shell.lists == s.shell.lists
                && t.shell.loads == s.shell.loads[s.shell.next := (id, wrote)]
              case New =>
                if wrote then t.desk == s.desk && ListAsked(s.shell, t.shell, true)
                else OnScreen(t.desk, None, BLANK, true) && t.shell.lists == s.shell.lists
              case Close => t.desk == s.desk
  {}

  /** A note that arrives is shown, whatever is on the screen by then, once, and the list is asked for again
      if leaving the note before it wrote something. */
  lemma LoadedDoes(s: State, n: nat, content: Content, readable: bool)
    ensures var t := Step(s, Loaded(n, content, readable));
            if n !in s.shell.loads then t == s
            else
              OnScreen(t.desk, Some(s.shell.loads[n].0), content, readable)
              && t.shell.loads == s.shell.loads - {n}
              && t.shell.lists == if s.shell.loads[n].1 then s.shell.lists[s.shell.next := false] else s.shell.lists
  {}

  /** A list that arrives is the one searched from then on; a blank draft follows if one was asked for, and
      otherwise the note on the screen stays unless the list lacks it: then its unsaved words go on as a
      draft, and without any it is closed. */
  lemma ListedDoes(s: State, n: nat, ids: set<nat>)
    ensures var t := Step(s, Listed(n, ids)); var note := Selected(s.desk);
            if n !in s.shell.lists then t == s
            else
              t.shell.listed == ids && t.shell.lists == s.shell.lists - {n}
              && (if s.shell.lists[n] then OnScreen(t.desk, None, BLANK, true)
                  else if note.None? || note.value.id.None? || note.value.id.value in ids then t.desk == s.desk
                  else if Dirty(s.desk) then
                    Selected(t.desk) == Some(note.value.(id := None)) && t.desk.editor == s.desk.editor
                  else Selected(t.desk).None?)
  {}

  /** Asking for the list, or searching in the one there is, brings up no draft and keeps the words. */
  lemma RefreshDoes(s: State)
    ensures var t := Step(s, Refresh); t.desk == s.desk && ListAsked(s.shell, t.shell, false)
    ensures var t := Step(s, Search); var note := Selected(s.desk);
            t.shell == s.shell
            && (if note.None? || note.value.id.None? || note.value.id.value in s.shell.listed then t.desk == s.desk
                else if Dirty(s.desk) then
                  Selected(t.desk) == Some(note.value.(id := None)) && t.desk.editor == s.desk.editor
                else Selected(t.desk).None?)
  {}

  /** A row click ends with its note on the screen: with no save running and nothing to write, the three
      steps it takes show the note that was clicked, as it was read. */
  lemma ClickShows(s: State, id: nat, content: Content, readable: bool)
    requires s.flight.saving.None? && s.flight.writes == map[] && KindOf(s.desk).Nothing?
    requires Selected(s.desk).None? || Selected(s.desk).value.id != Some(id)
    ensures var c := s.shell.next;
            var t := RunAll(s, [Press(Select(id)), Resume(c), Loaded(c + 1, content, readable)]);
            OnScreen(t.desk, Some(id), content, readable)
  {
    var c := s.shell.next;
    var first, second, third := Press(Select(id)), Resume(c), Loaded(c + 1, content, readable);
    var t := Step(s, first);
    assert [first, second, third][..2] == [first, second] && [first, second][..1] == [first] && [first][..0] == [];
    assert RunAll(s, [first]) == t;
    assert RunAll(s, [first, second]) == Step(t, second);
    PressedIdle(s, id);
    ResumeDoes(t, c);
    LoadedDoes(Step(t, second), c + 1, content, readable);
  }

  lemma PressedIdle(s: State, id: nat)
    requires s.flight.saving.None? && s.flight.writes == map[] && KindOf(s.desk).Nothing?
    requires Selected(s.desk).None? || Selected(s.desk).value.id != Some(id)
    ensures var t, c := Step(s, Press(Select(id))), s.shell.next;
            c in t.flight.writes && t.flight.writes[c].phase == Done(true) && t.flight.writes[c].k == Select(id)
            && t.shell.next == c + 1
  {}

  // A call is made: it saves at once, with the words in the editor, or waits for the running save.
  ghost predicate CallMade(s: State, t: State, k: Then) {
    var c := s.shell.next;
    t.desk == s.desk && t.shell.next == c + 1
    && if s.flight.saving.Some? then t.flight == s.flight.(waits := s.flight.waits[c := Wait(s.flight.saving.value, k)])
       else
         t.flight.saving == Some(c) && t.flight.waits == s.flight.waits
         && c in t.flight.writes && t.flight.writes == s.flight.writes[c := t.flight.writes[c]]
         && t.flight.writes[c].k == k && t.flight.writes[c].content == s.desk.editor
  }

  /** Every press makes a call, except a click on the note that is shown and a close that closes at once. */
  lemma PressDoes(s: State, k: Then)
    ensures var t := Step(s, Press(k));
            if k.Select? && Selected(s.desk).Some? && Selected(s.desk).value.id == Some(k.id) then t == s
            else if k.Close? && (s.shell.closing || s.shell.discardOk) then
              t.desk == s.desk && t.flight == s.flight && t.shell == s.shell.(closed := true)
            else CallMade(s, t, k) && (t.shell.closing <==> s.shell.closing || k.Close?)
  {}

  // ------------------------------------------------------- one draft, one create

  // The list says the selected note is gone while the editor holds unsaved words.
  ghost predicate Demotes(d: Desk, ids: set<nat>) {
    var n := Selected(d);
    Dirty(d) && n.value.id.Some? && n.value.id.value !in ids
  }

  // Replies to creates carry the id, a failed request was not carried out, and no list shown is too
  // old to know the note being edited.
  ghost predicate Orderly(s: State, e: Event) {
    match e
    case Answered(c, how) =>
      c in s.flight.writes && Outstanding(s.flight.writes[c]) ==>
        how.Truthful? || (how.Failure? && s.flight.writes[c].phase.Sent?)
    case Listed(n, ids) => n in s.shell.lists ==> !Demotes(s.desk, ids)
    case Search => !Demotes(s.desk, s.shell.listed)
    case _ => true
  }

  ghost predicate OrderlyRun(s: State, events: seq<Event>) {
    events != [] ==>
      OrderlyRun(s, events[..|events| - 1]) && Orderly(RunAll(s, events[..|events| - 1]), events[|events| - 1])
  }

  ghost predicate Tagged(d: Desk) {
    forall i | 0 <= i < |d.heap| :: d.heap[i].tag == i
  }

  // Note `t` carries the id it was created with, or the reply that will give it is outstanding.
  ghost predicate Adopts(d: Desk, f: Flight, t: nat, id: nat) {
    t < |d.heap|
    && (d.heap[t].id == Some(id)
        || (d.heap[t].id.None? && f.saving.Some? && f.saving.value in f.writes
            && f.writes[f.saving.value].obj == t && f.writes[f.saving.value].kind.Create?
            && f.writes[f.saving.value].phase == Applied(id)))
  }

  ghost predicate Once(d: Desk, f: Flight, creates: seq<(nat, nat)>) {
    Tagged(d)
    && (forall j | 0 <= j < |creates| :: Adopts(d, f, creates[j].0, creates[j].1))
    && (forall j, k | 0 <= j < k < |creates| :: creates[j].0 != creates[k].0)
  }

  // A state's part of it.
  ghost predicate OnceIn(s: State) {
    Once(s.desk, s.flight, s.world.creates)
  }

  lemma EnterOnce(s: State, f: Flight, c: nat, k: Then)
    requires Alone(s.desk, f) && Once(s.desk, f, s.world.creates)
    ensures Once(s.desk, Enter(s.desk, f, c, k), s.world.creates)
  {}

  lemma ShowOnce(d: Desk, f: Flight, creates: seq<(nat, nat)>, note: Note)
    requires Once(d, f, creates) && note.tag == |d.heap|
    ensures Once(Show(d, note), f, creates)
  {}

  lemma RenderOnce(d: Desk, f: Flight, creates: seq<(nat, nat)>, ids: set<nat>)
    requires Once(d, f, creates) && !Demotes(d, ids)
    ensures Once(Render(d, ids), f, creates)
  {}

  lemma CarriedOnce(s: State, c: nat)
    requires Alone(s.desk, s.flight) && OnceIn(s)
    ensures OnceIn(Carried(s, c))
  {}

  lemma RepliedOnce(s: State, c: nat, how: Answer)
    requires Alone(s.desk, s.flight) && OnceIn(s) && Orderly(s, Answered(c, how))
    ensures OnceIn(Replied(s, c, how))
  {}

  lemma ClearOnce(d: Desk, f: Flight, creates: seq<(nat, nat)>, c: nat)
    requires Alone(d, f) && Once(d, f, creates) && c in f.writes && f.writes[c].phase.Done?
    ensures Once(d, Clear(f, c), creates)
  {}

  lemma ResumedOnce(s: State, c: nat)
    requires Alone(s.desk, s.flight) && OnceIn(s)
    ensures OnceIn(Resumed(s, c))
  {
    if c in s.flight.writes && s.flight.writes[c].phase.Done? {
      ClearOnce(s.desk, s.flight, s.world.creates, c);
      ShowOnce(s.desk, Clear(s.flight, c), s.world.creates, Draft(s.desk));
    }
  }

  lemma StepOnce(s: State, e: Event)
    requires Alone(s.desk, s.flight) && Orderly(s, e) && OnceIn(s)
    ensures OnceIn(Step(s, e))
  {
    match e {
      case Press(k) => EnterOnce(s, s.flight, s.shell.next, k);
      case Wake(c) => if c in s.flight.waits { EnterOnce(s, s.flight.(waits := s.flight.waits - {c}), c,
            s.flight.waits[c].k); }
      case Apply(c) => CarriedOnce(s, c);
      case Answered(c, how) => RepliedOnce(s, c, how);
      case Resume(c) => ResumedOnce(s, c);
      case Loaded(n, content, readable) =>
        if n in s.shell.loads {
          ShowOnce(s.desk, s.flight, s.world.creates,
                Note(Some(s.shell.loads[n].0), content, !readable, |s.desk.heap|));
        }
      case Search => RenderOnce(s.desk, s.flight, s.world.creates, s.shell.listed);
      case Listed(n, ids) =>
        if n in s.shell.lists {
          RenderOnce(s.desk, s.flight, s.world.creates, ids);
          ShowOnce(Render(s.desk, ids), s.flight, s.world.creates, Draft(Render(s.desk, ids)));
        }
      case _ =>
    }
  }

  lemma {:induction false} RunOnce(worth: Content -> bool, backend: map<nat, Content>, nextId: nat, events: seq<Event>)
    requires OrderlyRun(Start(worth, backend, nextId), events)
    ensures OnceIn(RunAll(Start(worth, backend, nextId), events))
  {
    if events != [] {
      var start, before := Start(worth, backend, nextId), events[..|events| - 1];
      RunOnce(worth, backend, nextId, before);
      RunGood(start, before);
      StepOnce(RunAll(start, before), events[|events| - 1]);
    }
  }

  /** When every create is answered with its id, failures mean not carried out and no list shown is
      older than the note being edited, each draft is created at most once, whatever the order of
      Ctrl+S, clicks, New and Close; once it is, everything sent for it is an update of that id. */
  lemma OneCreatePerDraft(worth: Content -> bool, backend: map<nat, Content>, nextId: nat, events: seq<Event>)
    requires OrderlyRun(Start(worth, backend, nextId), events)
    ensures var s := RunAll(Start(worth, backend, nextId), events); var creates := s.world.creates;
            (forall j, k | 0 <= j < k < |creates| :: creates[j].0 != creates[k].0)
            && (forall c, j | c in s.flight.writes && 0 <= j < |creates| ::
                  Outstanding(s.flight.writes[c]) && s.flight.writes[c].phase.Sent?
                      && s.flight.writes[c].obj == creates[j].0
                  ==> s.flight.writes[c].kind == Update(creates[j].1))
  {
    RunOnce(worth, backend, nextId, events);
    RunGood(Start(worth, backend, nextId), events);
  }

  /** The list hypothesis is exact: a drawn list turns the note being edited into a draft again if and
      only if it lacks the note's id while the editor is dirty, and the next save is then a create. */
  lemma DemotedExactly(d: Desk, ids: set<nat>)
    requires Selected(d).Some? && Selected(d).value.id.Some?
    ensures (Selected(Render(d, ids)).Some? && Selected(Render(d, ids)).value.id.None?) <==> Demotes(d, ids)
    ensures Demotes(d, ids) && d.worth(d.editor) ==> KindOf(Render(d, ids)).Create? && KindOf(d).Update?
    ensures Demotes(d, ids) ==> Selected(Render(d, ids)).value.tag == Selected(d).value.tag
  {}

  /** A duplicate: a draft is saved, and before the list naming its new id is shown the person types
      on and searches. The list drawn again is older than the create, the note is taken for gone, and
      the next Ctrl+S creates it a second time. */
  lemma SearchDuplicatesDraft(s: State, typed: Content)
    requires s.flight.saving.None? && Selected(s.desk).Some?
    requires var n := Selected(s.desk).value; n.id.None? && !n.unreadable
    requires s.desk.worth(s.desk.editor) && s.desk.worth(typed) && typed != s.desk.editor
    requires s.world.nextId !in s.shell.listed
    ensures var c, n := s.shell.next, s.world.nextId; var tag := Selected(s.desk).value.tag;
            RunAll(s, [Press(Save), Apply(c), Answered(c, Truthful), Resume(c), Type(typed), Search,
                       Press(Save), Apply(c + 2)]).world.creates == s.world.creates + [(tag, n), (tag, n + 1)]
  {
    var c := s.shell.next;
    var first := [Press(Save), Apply(c), Answered(c, Truthful), Resume(c)];
    var t := SavedDraft(s, first);
    var events := first + [Type(typed), Search, Press(Save), Apply(c + 2)];
    RunThen(s, first, [Type(typed), Search, Press(Save), Apply(c + 2)]);
    SavedAgain(t, typed, c + 2);
    assert events == [Press(Save), Apply(c), Answered(c, Truthful), Resume(c), Type(typed), Search, Press(Save),
             Apply(c + 2)];
  }

  // Typing, searching and saving once more, while the list does not name the note.
  lemma SavedAgain(t: State, typed: Content, c: nat)
    requires t.flight.saving.None? && Selected(t.desk).Some? && t.shell.next == c && t.desk.worth(typed)
    requires var n := Selected(t.desk).value;
             n.id.Some? && n.id.value !in t.shell.listed && !n.unreadable && typed != n.content
    ensures RunAll(t, [Type(typed), Search, Press(Save), Apply(c)]).world.creates
         == t.world.creates + [(Selected(t.desk).value.tag, t.world.nextId)]
  {
    Unroll4(t, Type(typed), Search, Press(Save), Apply(c));
  }

  lemma Unroll4(s: State, a: Event, b: Event, c: Event, d: Event)
    ensures RunAll(s, [a, b, c, d]) == Step(Step(Step(Step(s, a), b), c), d)
  {
    assert [a, b, c, d][..3] == [a, b, c];
    assert [a, b, c][..2] == [a, b];
    assert [a, b][..1] == [a];
    assert RunAll(s, [a]) == Step(s, a);
    assert RunAll(s, [a, b]) == Step(Step(s, a), b);
  }

  lemma SavedDraft(s: State, events: seq<Event>) returns (t: State)
    requires s.flight.saving.None? && Selected(s.desk).Some?
    requires var n := Selected(s.desk).value; n.id.None? && !n.unreadable
    requires s.desk.worth(s.desk.editor)
    requires var c := s.shell.next; events == [Press(Save), Apply(c), Answered(c, Truthful), Resume(c)]
    ensures t == RunAll(s, events) && t.flight.saving.None? && t.desk.worth == s.desk.worth
    ensures t.shell.next == s.shell.next + 2 && t.shell.listed == s.shell.listed && t.desk.selected == s.desk.selected
    ensures Selected(t.desk) == Some(Selected(s.desk).value.(id := Some(s.world.nextId), content := s.desk.editor))
    ensures t.world.nextId == s.world.nextId + 1
    ensures t.world.creates == s.world.creates + [(Selected(s.desk).value.tag, s.world.nextId)]
  {
    var c := s.shell.next;
    Unroll4(s, Press(Save), Apply(c), Answered(c, Truthful), Resume(c));
    t := RunAll(s, events);
  }

  // ------------------------------------------------------- clean means stored

  // No other program writes, and a failed request was not carried out.
  ghost predicate Undisturbed(s: State, e: Event) {
    match e
    case Outside(_, _) => false
    case Answered(c, how) => c in s.flight.writes && how.Failure? ==> !s.flight.writes[c].phase.Applied?
    case _ => true
  }

  function Current(f: Flight): Option<Write> {
    if f.saving.Some? && f.saving.value in f.writes then Some(f.writes[f.saving.value]) else None
  }

  ghost predicate Updating(w: Option<Write>, id: nat) {
    w.Some? && Outstanding(w.value) && w.value.kind == Update(id)
  }

  // Words for note `id` that agree with the daemon: what it holds, or what an update not yet carried
  // out will make it hold.
  ghost predicate Agrees(content: Content, id: nat, w: Option<Write>, world: World) {
    id in world.backend
    && (content == world.backend[id] || (Updating(w, id) && w.value.phase.Sent? && content == w.value.content))
  }

  // The note on screen is a second copy of the one `w` updates: it was read again meanwhile.
  ghost predicate SecondCopy(d: Desk, w: Write) {
    d.selected.Some? && Selected(d).Some? && !Selected(d).value.unreadable && w.kind.Update?
    && Selected(d).value.id == Some(w.kind.id) && w.obj != d.selected.value
  }

  /** What each step owes for "clean means stored": a body that loads agrees with the daemon, and when an
      update is carried out, or fails, a second copy on screen holds what the daemon then holds. */
  ghost predicate Level(s: State, e: Event) {
    match e
    case Loaded(n, content, readable) =>
      n in s.shell.loads && readable ==> Agrees(content, s.shell.loads[n].0, Current(s.flight), s.world)
    case Apply(c) =>
      c in s.flight.writes && s.flight.writes[c].phase.Sent? && SecondCopy(s.desk, s.flight.writes[c])
      && s.flight.writes[c].kind.id in s.world.backend ==>
        Selected(s.desk).value.content == s.flight.writes[c].content
    case Answered(c, how) =>
      c in s.flight.writes && s.flight.writes[c].phase.Sent? && how.Failure? && SecondCopy(s.desk, s.flight.writes[c])
      && s.flight.writes[c].kind.id in s.world.backend ==>
        Selected(s.desk).value.content == s.world.backend[s.flight.writes[c].kind.id]
    case _ => true
  }

  ghost predicate LevelRun(s: State, events: seq<Event>) {
    events != [] ==>
      (LevelRun(s, events[..|events| - 1])
       && var before := RunAll(s, events[..|events| - 1]);
       Undisturbed(before, events[|events| - 1]) && Level(before, events[|events| - 1]))
  }

  ghost predicate UndisturbedRun(s: State, events: seq<Event>) {
    events != [] ==>
      (UndisturbedRun(s, events[..|events| - 1])
            && Undisturbed(RunAll(s, events[..|events| - 1]), events[|events| - 1]))
  }

  // What the daemon should hold for object `o` while `w` may be on its way.
  ghost predicate InStep(n: Note, o: nat, w: Option<Write>, world: World) {
    n.id.Some? ==>
      (if Updating(w, n.id.value) && w.value.obj == o then
         n.id.value in world.backend && (w.value.phase.Sent? ==> world.backend[n.id.value] == n.content)
       else Agrees(n.content, n.id.value, w, world))
  }

  // A request the daemon carried out is in its store.
  ghost predicate Through(w: Option<Write>, world: World) {
    w.Some? && w.value.phase.Applied? ==>
      (w.value.phase.id in world.backend && world.backend[w.value.phase.id] == w.value.content
       && (w.value.kind.Update? ==> w.value.kind.id == w.value.phase.id))
  }

  ghost predicate Stored(s: State) {
    (forall i | i in s.world.backend :: i < s.world.nextId) && Through(Current(s.flight), s.world)
    && (Selected(s.desk).Some? && !Selected(s.desk).value.unreadable ==>
          InStep(Selected(s.desk).value, s.desk.selected.value, Current(s.flight), s.world))
  }

  lemma EnterStored(s: State, f: Flight, c: nat, k: Then)
    requires Alone(s.desk, f) && Stored(s.(flight := f))
    ensures Stored(s.(flight := Enter(s.desk, f, c, k)))
  {}

  lemma CarriedStored(s: State, c: nat)
    requires Alone(s.desk, s.flight) && Stored(s) && Level(s, Apply(c))
    ensures Stored(Carried(s, c))
  {}

  lemma RepliedStored(s: State, c: nat, how: Answer)
    requires Alone(s.desk, s.flight) && Stored(s) && Undisturbed(s, Answered(c, how)) && Level(s, Answered(c, how))
    ensures Stored(Replied(s, c, how))
  {}

  lemma ResumedStored(s: State, c: nat)
    requires Alone(s.desk, s.flight) && Stored(s)
    ensures Stored(Resumed(s, c))
  {}

  lemma OpenedStored(s: State, n: nat, content: Content, readable: bool)
    requires Alone(s.desk, s.flight) && Stored(s) && Level(s, Loaded(n, content, readable))
    ensures Stored(Opened(s, n, content, readable))
  {}

  lemma DrawnStored(s: State, ids: set<nat>, n: nat)
    requires Alone(s.desk, s.flight) && Stored(s)
    ensures Stored(s.(desk := Render(s.desk, ids))) && Stored(Drawn(s, n, ids))
  {}

  lemma StepStored(s: State, e: Event)
    requires Alone(s.desk, s.flight) && Stored(s) && Undisturbed(s, e) && Level(s, e)
    ensures Stored(Step(s, e))
  {
    match e {
      case Press(k) => EnterStored(s, s.flight, s.shell.next, k);
      case Wake(c) => if c in s.flight.waits { EnterStored(s, s.flight.(waits := s.flight.waits - {c}), c,
            s.flight.waits[c].k); }
      case Apply(c) => CarriedStored(s, c);
      case Answered(c, how) => RepliedStored(s, c, how);
      case Resume(c) => ResumedStored(s, c);
      case Loaded(n, content, readable) => OpenedStored(s, n, content, readable);
      case Search => DrawnStored(s, s.shell.listed, 0);
      case Listed(n, ids) => DrawnStored(s, ids, n);
      case _ =>
    }
  }

  lemma {:induction false} RunStored(s: State, events: seq<Event>)
    requires Alone(s.desk, s.flight) && Tracked(s.flight) && Stored(s) && LevelRun(s, events)
    ensures Stored(RunAll(s, events))
  {
    if events != [] {
      var before := events[..|events| - 1];
      RunStored(s, before);
      RunGood(s, before);
      StepStored(RunAll(s, before), events[|events| - 1]);
    }
  }

  // No write is outstanding, and the note on screen, loaded, known to the daemon and not dirty, is
  // what the daemon holds.
  ghost predicate CleanIsStored(s: State) {
    var n := Selected(s.desk);
    (forall c | c in s.flight.writes :: !Outstanding(s.flight.writes[c]))
    && n.Some? && !n.value.unreadable && n.value.id.Some? && !Dirty(s.desk)
    ==> n.value.id.value in s.world.backend && s.world.backend[n.value.id.value] == s.desk.editor
  }

  /** With no outside writer and truthful failures, and every step level, whenever no write is
      outstanding and the selected note, loaded and known to the daemon, is not dirty, the daemon holds
      exactly the words on screen. */
  lemma CleanMeansStored(worth: Content -> bool, backend: map<nat, Content>, nextId: nat, events: seq<Event>)
    requires forall i | i in backend :: i < nextId
    requires LevelRun(Start(worth, backend, nextId), events)
    ensures CleanIsStored(RunAll(Start(worth, backend, nextId), events))
  {
    var s := RunAll(Start(worth, backend, nextId), events);
    RunStored(Start(worth, backend, nextId), events);
    RunGood(Start(worth, backend, nextId), events);
    StoredIsClean(s);
  }

  lemma StoredIsClean(s: State)
    requires Alone(s.desk, s.flight) && Stored(s)
    ensures CleanIsStored(s)
  {
    if s.flight.saving.Some? { assert s.flight.saving.value in s.flight.writes; }
  }

  /** And no less will do: a step that is not level can be followed, with no outside writer and truthful
      failures, by at most two steps to a clean note whose words the daemon does not hold. */
  lemma LevelIsNeeded(s: State, e: Event) returns (more: seq<Event>)
    requires Alone(s.desk, s.flight) && Stored(s) && Undisturbed(s, e) && !Level(s, e)
    ensures UndisturbedRun(Step(s, e), more) && |more| <= 2
    ensures !CleanIsStored(RunAll(Step(s, e), more))
  {
    match e {
      case Loaded(n, content, readable) => more := LoadedApart(s, n, content);
      case Apply(c) => more := AppliedApart(s, c);
      case Answered(c, how) => more := FailedApart(s, c, how);
    }
  }

  // The request on its way ends: it fails if it was not carried out, else the reply arrives.
  function Ending(f: Flight): seq<Event> {
    if Current(f).None? || Current(f).value.phase.Done? then []
    else [Answered(f.saving.value, if Current(f).value.phase.Sent? then Failure else Truthful)]
  }

  lemma LoadedApart(s: State, n: nat, content: Content) returns (more: seq<Event>)
    requires Alone(s.desk, s.flight) && Stored(s) && !Level(s, Loaded(n, content, true))
    ensures more == Ending(s.flight) && UndisturbedRun(Opened(s, n, content, true), more)
    ensures !CleanIsStored(RunAll(Opened(s, n, content, true), more))
  {
    more := Ending(s.flight);
    RunOne(Opened(s, n, content, true));
    if more != [] {
      assert more == [more[0]];
      LoadedMidSave(s, n, content, more[0]);
    }
  }

  lemma LoadedMidSave(s: State, n: nat, content: Content, e: Event)
    requires Alone(s.desk, s.flight) && Stored(s) && !Level(s, Loaded(n, content, true)) && Ending(s.flight) == [e]
    ensures UndisturbedRun(Opened(s, n, content, true), [e])
    ensures !CleanIsStored(RunAll(Opened(s, n, content, true), [e]))
  {
    RunOne(Opened(s, n, content, true));
    RunOneMore(Opened(s, n, content, true), e);
  }

  lemma AppliedApart(s: State, c: nat) returns (more: seq<Event>)
    requires Alone(s.desk, s.flight) && Stored(s) && !Level(s, Apply(c))
    ensures more == [Answered(c, Truthful), Type(Selected(s.desk).value.content)]
    ensures UndisturbedRun(Carried(s, c), more) && !CleanIsStored(RunAll(Carried(s, c), more))
  {
    var t := Carried(s, c);
    var own := Selected(s.desk).value.content;
    more := [Answered(c, Truthful), Type(own)];
    RunTwo(t, more[0], more[1]);
  }

  lemma FailedApart(s: State, c: nat, how: Answer) returns (more: seq<Event>)
    requires Alone(s.desk, s.flight) && Stored(s) && !Level(s, Answered(c, how))
    ensures more == [Type(Selected(s.desk).value.content)]
    ensures UndisturbedRun(Replied(s, c, how), more) && !CleanIsStored(RunAll(Replied(s, c, how), more))
  {
    more := [Type(Selected(s.desk).value.content)];
    RunOneMore(Replied(s, c, how), more[0]);
    RunOne(Replied(s, c, how));
  }

  lemma RunOne(s: State)
    ensures RunAll(s, []) == s && UndisturbedRun(s, [])
  {}

  lemma RunOneMore(s: State, e: Event)
    ensures RunAll(s, [e]) == Step(s, e) && (UndisturbedRun(s, [e]) <==> Undisturbed(s, e))
  {
    assert [e][..0] == [];
  }

  lemma RunTwo(s: State, a: Event, b: Event)
    ensures RunAll(s, [a, b]) == Step(Step(s, a), b)
    ensures UndisturbedRun(s, [a, b]) <==> Undisturbed(s, a) && Undisturbed(Step(s, a), b)
  {
    RunOneMore(s, a);
    assert [a, b][..1] == [a];
  }

  lemma {:induction false} RunThen(s: State, x: seq<Event>, y: seq<Event>)
    ensures RunAll(s, x + y) == RunAll(RunAll(s, x), y)
    ensures UndisturbedRun(s, x + y) <==> UndisturbedRun(s, x) && UndisturbedRun(RunAll(s, x), y)
  {
    if y == [] {
      assert x + y == x;
    } else {
      assert (x + y)[..|x + y| - 1] == x + y[..|y| - 1];
      RunThen(s, x, y[..|y| - 1]);
    }
  }

  // The stages of that run: `next`, pending reads, heap, editor, request.
  function Staged(worth: Content -> bool, heap: seq<Note>, editor: Content, f: Flight, loads: map<nat, (nat, bool)>,
                  next: nat, world: World): State {
    State(Desk(worth, heap, if heap == [] then None else Some(|heap| - 1), editor), f,
          Shell(next, loads, map[], {}, false, false, false), world)
  }

  function Old(a: Content, b: Content): World {
    World(map[0 := a, 1 := b], 2, [])
  }

  function Settled3(): map<nat, bool> {
    map[0 := true, 2 := true, 4 := true]
  }

  // A row click with nothing on screen: the save is a formality, and a read is asked for.
  lemma OneRead(worth: Content -> bool, settled: map<nat, bool>, loads: map<nat, (nat, bool)>, c: nat, id: nat,
                o: World)
    ensures var s := Staged(worth, [], BLANK, Flight(None, map[], map[], settled), loads, c, o);
            UndisturbedRun(s, [Press(Select(id)), Resume(c)])
            && RunAll(s, [Press(Select(id)), Resume(c)])
               == Staged(worth, [], BLANK, Flight(None, map[], map[], settled[c := true]), loads[c + 1 := (id, false)],
                     c + 2, o)
  {
    var s := Staged(worth, [], BLANK, Flight(None, map[], map[], settled), loads, c, o);
    RunTwo(s, Press(Select(id)), Resume(c));
    var done := Write(0, BLANK, Nothing, Done(true), Select(id));
    assert Step(s, Press(Select(id))).flight == Flight(Some(c), map[], map[c := done], settled[c := true]);
    assert map[c := done] - {c} == map[];
  }

  // Note 0 is asked for, then note 1, then note 0 again.
  function Asked(): seq<Event> {
    [Press(Select(0)), Resume(0)] + [Press(Select(1)), Resume(2)] + [Press(Select(0)), Resume(4)]
  }

  lemma ThreeReads(worth: Content -> bool, a: Content, b: Content)
    ensures var start := Start(worth, map[0 := a, 1 := b], 2);
            UndisturbedRun(start, Asked())
            && RunAll(start, Asked()) == Staged(worth, [], BLANK, Flight(None, map[], map[], Settled3()),
                                                map[1 := (0, false), 3 := (1, false), 5 := (0, false)], 6, Old(a, b))
  {
    var start := Start(worth, map[0 := a, 1 := b], 2);
    TwoReads(worth, a, b);
    OneRead(worth, map[0 := true, 2 := true], map[1 := (0, false), 3 := (1, false)], 4, 0, Old(a, b));
    RunThen(start, [Press(Select(0)), Resume(0)] + [Press(Select(1)), Resume(2)], [Press(Select(0)), Resume(4)]);
  }

  lemma TwoReads(worth: Content -> bool, a: Content, b: Content)
    ensures var start := Start(worth, map[0 := a, 1 := b], 2);
            var asked := [Press(Select(0)), Resume(0)] + [Press(Select(1)), Resume(2)];
            UndisturbedRun(start, asked)
            && RunAll(start, asked) == Staged(worth, [], BLANK, Flight(None, map[], map[], map[0 := true, 2 := true]),
                                              map[1 := (0, false), 3 := (1, false)], 4, Old(a, b))
  {
    OneRead(worth, map[], map[], 0, 0, Old(a, b));
    OneRead(worth, map[0 := true], map[1 := (0, false)], 2, 1, Old(a, b));
    RunThen(Start(worth, map[0 := a, 1 := b], 2), [Press(Select(0)), Resume(0)], [Press(Select(1)), Resume(2)]);
  }

  // The first copy, the second note, the second copy.
  function First(a: Content): Note {
    Note(Some(0), a, false, 0)
  }

  function Sending(a: Content, c: Content, phase: Phase): Flight {
    Flight(Some(6), map[], map[6 := Write(0, c, Update(0), phase, Save)], Settled3())
  }

  // The first copy arrives, is edited and saved; then the other reads arrive; then the save lands.
  function Edits(a: Content, c: Content): seq<Event> {
    [Loaded(1, a, true), Type(c)] + [Press(Save)]
  }

  function Arrivals(a: Content, b: Content): seq<Event> {
    [Loaded(3, b, true), Loaded(5, a, true)]
  }

  function Landing(): seq<Event> {
    [Apply(6), Answered(6, Truthful)] + [Resume(6)]
  }

  function Asking(worth: Content -> bool, a: Content, b: Content): State {
    Staged(worth, [], BLANK, Flight(None, map[], map[], Settled3()),
           map[1 := (0, false), 3 := (1, false), 5 := (0, false)], 6, Old(a, b))
  }

  function Saving(worth: Content -> bool, a: Content, b: Content, c: Content): State {
    Staged(worth, [First(a)], c, Sending(a, c, Sent), map[3 := (1, false), 5 := (0, false)], 7, Old(a, b))
  }

  function Back(worth: Content -> bool, a: Content, b: Content, c: Content): State {
    Staged(worth, [First(a), Note(Some(1), b, false, 1), Note(Some(0), a, false, 2)], a,
           Sending(a, c, Sent), map[], 7, Old(a, b))
  }

  lemma EditedAndSent(worth: Content -> bool, a: Content, b: Content, c: Content)
    requires a != c
    ensures UndisturbedRun(Asking(worth, a, b), Edits(a, c))
    ensures RunAll(Asking(worth, a, b), Edits(a, c)) == Saving(worth, a, b, c)
  {
    var s := Asking(worth, a, b);
    RunTwo(s, Loaded(1, a, true), Type(c));
    RunThen(s, [Loaded(1, a, true), Type(c)], [Press(Save)]);
    RunOneMore(RunAll(s, [Loaded(1, a, true), Type(c)]), Press(Save));
    assert s.shell.loads - {1} == map[3 := (1, false), 5 := (0, false)];
  }

  lemma ReadBack(worth: Content -> bool, a: Content, b: Content, c: Content)
    ensures UndisturbedRun(Saving(worth, a, b, c), Arrivals(a, b))
    ensures RunAll(Saving(worth, a, b, c), Arrivals(a, b)) == Back(worth, a, b, c)
  {
    RunTwo(Saving(worth, a, b, c), Loaded(3, b, true), Loaded(5, a, true));
    assert Saving(worth, a, b, c).shell.loads - {3} == map[5 := (0, false)];
    assert map[5 := (0, false)] - {5} == map[];
  }

  lemma Landed(worth: Content -> bool, a: Content, b: Content, c: Content)
    ensures UndisturbedRun(Back(worth, a, b, c), Landing())
    ensures var t := RunAll(Back(worth, a, b, c), Landing());
            t.flight.writes == map[] && t.desk.editor == a && t.world.backend == map[0 := c, 1 := b]
            && Selected(t.desk) == Some(Note(Some(0), a, false, 2))
  {
    var s := Back(worth, a, b, c);
    RunTwo(s, Apply(6), Answered(6, Truthful));
    RunThen(s, [Apply(6), Answered(6, Truthful)], [Resume(6)]);
    RunOneMore(RunAll(s, [Apply(6), Answered(6, Truthful)]), Resume(6));
  }

  /** The failure a person can meet, with nobody else writing and every answer truthful: two reads of one
      note are pending, because the row guard compares with the note shown before; the first arrives, is
      edited and saved; the second brings back the words from before the save, and once the save has
      landed the clean note on screen is not what is stored. */
  lemma SecondReadHidesSave(worth: Content -> bool, a: Content, b: Content, c: Content)
    requires a != c
    ensures var start := Start(worth, map[0 := a, 1 := b], 2);
            var events := Asked() + Edits(a, c) + Arrivals(a, b) + Landing();
            var s := RunAll(start, events);
            UndisturbedRun(start, events) && s.flight.writes == map[] && !CleanIsStored(s)
            && Selected(s.desk) == Some(Note(Some(0), a, false, 2)) && s.desk.editor == a
            && s.world.backend == map[0 := c, 1 := b]
  {
    var start := Start(worth, map[0 := a, 1 := b], 2);
    ThreeReads(worth, a, b);
    EditedAndSent(worth, a, b, c);
    ReadBack(worth, a, b, c);
    Landed(worth, a, b, c);
    Joined(start, Asked(), Edits(a, c), Arrivals(a, b), Landing());
  }

  lemma Joined(s: State, w: seq<Event>, x: seq<Event>, y: seq<Event>, z: seq<Event>)
    ensures RunAll(s, w + x + y + z) == RunAll(RunAll(RunAll(RunAll(s, w), x), y), z)
    ensures (UndisturbedRun(s, w) && UndisturbedRun(RunAll(s, w), x) && UndisturbedRun(RunAll(RunAll(s, w), x), y)
             && UndisturbedRun(RunAll(RunAll(RunAll(s, w), x), y), z)) ==> UndisturbedRun(s, w + x + y + z)
  {
    RunThen(s, w, x);
    RunThen(s, w + x, y);
    RunThen(s, w + x + y, z);
  }

  /** Words typed while a write is on its way stay dirty: after the reply the note is clean if and only
      if the editor still holds what was sent. */
  lemma TypedDuringWriteStaysDirty(s: State, c: nat, how: Answer)
    requires Alone(s.desk, s.flight) && c in s.flight.writes && s.flight.writes[c].phase.Applied? && !how.Failure?
    requires s.desk.selected == Some(s.flight.writes[c].obj)
    ensures Dirty(Replied(s, c, how).desk) <==> s.desk.editor != s.flight.writes[c].content
  {}

  // ------------------------------------------------------- the window itself

  /** The window, segment by segment: what runs between two awaits is one method, and each leaves the
      window as the step of the same event does. `world` stands for the daemon, which no segment touches. */
  class NotesApp {
    const worth: Content -> bool
    var heap: seq<Note>
    var selected: Option<nat>
    var editor: Content
    var saving: Option<nat>
    var waits: map<nat, Wait>
    var writes: map<nat, Write>
    var settled: map<nat, bool>
    var next: nat
    var loads: map<nat, (nat, bool)>
    var lists: map<nat, bool>
    var listed: set<nat>
    var discardOk: bool
    var closing: bool
    var closed: bool

    function DeskNow(): Desk
      reads this
    {
      Desk(worth, heap, selected, editor)
    }

    function FlightNow(): Flight
      reads this
    {
      Flight(saving, waits, writes, settled)
    }

    function ShellNow(): Shell
      reads this
    {
      Shell(next, loads, lists, listed, discardOk, closing, closed)
    }

    ghost function Now(world: World): State
      reads this
    {
      State(DeskNow(), FlightNow(), ShellNow(), world)
    }

    constructor (worth: Content -> bool)
      ensures forall backend, nextId :: Now(World(backend, nextId, [])) == Start(worth, backend, nextId)
    {
      this.worth := worth;
      heap, selected, editor := [], None, BLANK;
      saving, waits, writes, settled := None, map[], map[], map[];
      next, loads, lists, listed := 0, map[], map[], {};
      discardOk, closing, closed := false, false, false;
    }

    method WriteEditorState(c: nat, k: Then)
      modifies this`saving, this`writes, this`settled
      ensures FlightNow() == Begin(DeskNow(), old(FlightNow()), c, k)
    {
      var kind := Nothing;
      if selected.Some? && selected.value < |heap| && !heap[selected.value].unreadable {
        var n := heap[selected.value];
        if n.id.None? {
          if worth(editor) { kind := Create; }
        } else if editor != n.content {
          kind := Update(n.id.value);
        }
      }
      var obj := if selected.Some? then selected.value else 0;
      saving := Some(c);
      if kind.Nothing? {
        writes, settled := writes[c := Write(obj, editor, kind, Done(true), k)], settled[c := true];
      } else {
        writes := writes[c := Write(obj, editor, kind, Sent, k)];
      }
    }

    method MaybeSave(c: nat, k: Then)
      modifies this`saving, this`writes, this`settled, this`waits
      ensures FlightNow() == Enter(DeskNow(), old(FlightNow()), c, k)
    {
      if saving.Some? {
        waits := waits[c := Wait(saving.value, k)];
      } else {
        WriteEditorState(c, k);
      }
    }

    method Press(k: Then, ghost world: World)
      modifies this
      ensures Now(world) == Step(old(Now(world)), Event.Press(k))
    {
      if k.Select? && selected.Some? && selected.value < |heap| && heap[selected.value].id == Some(k.id) { return; }
      if k.Close? {
        if closing || discardOk {
          closed := true;
          return;
        }
        closing := true;
      }
      MaybeSave(next, k);
      next := next + 1;
    }

    method Woken(c: nat, ghost world: World)
      requires c in waits && waits[c].on in settled
      modifies this
      ensures Now(world) == Step(old(Now(world)), Wake(c))
    {
      var wait := waits[c];
      waits := waits - {c};
      if settled[wait.on] {
        MaybeSave(c, wait.k);
      } else if wait.k.Close? {
        closing, discardOk := false, true;
      }
    }

    method ShowNote(note: Note)
      modifies this`heap, this`selected, this`editor, this`discardOk
      ensures DeskNow() == Show(old(DeskNow()), note)
      ensures discardOk == (old(discardOk) && old(editor) == note.content)
    {
      heap, selected := heap + [note], Some(|heap|);
      discardOk, editor := discardOk && editor == note.content, note.content;
    }

    method StartReload(thenNew: bool)
      modifies this`lists, this`next
      ensures ShellNow() == Reload(old(ShellNow()), thenNew)
    {
      lists, next := lists[next := thenNew], next + 1;
    }

    method Replied(c: nat, how: Answer, ghost world: World)
      requires c in writes && Outstanding(writes[c]) && writes[c].obj < |heap|
      requires how.Failure? || writes[c].phase.Applied?
      modifies this
      ensures Now(world) == Step(old(Now(world)), Answered(c, how))
    {
      var w := writes[c];
      if !how.Failure? {
        var n := heap[w.obj];
        if w.kind.Create? { n := n.(id := if how.Truthful? then Some(w.phase.id) else None); }
        heap := heap[w.obj := n.(content := w.content)];
      }
      writes, settled := writes[c := w.(phase := Done(!how.Failure?))], settled[c := !how.Failure?];
    }

    method GoOn(k: Then, wrote: bool, ghost world: World)
      modifies this`heap, this`selected, this`editor, this`discardOk, this`loads, this`lists, this`next, this`closed
      ensures Now(world) == Continue(old(Now(world)), k, wrote)
    {
      match k {
        case Save => if wrote { StartReload(false); }
        case Select(id) => loads, next := loads[next := (id, wrote)], next + 1;
        case New => if wrote { StartReload(true); } else { ShowNote(Note(None, BLANK, false, |heap|)); }
        case Close => closed := true;
      }
    }

    // The owner of `_saving` goes on: `finally` first clears it.
    method Resumed(c: nat, ghost world: World)
      requires c in writes && writes[c].phase.Done?
      modifies this
      ensures Now(world) == Step(old(Now(world)), Resume(c))
    {
      var w := writes[c];
      writes, saving := writes - {c}, None;
      if !w.phase.ok {
        if w.k.Close? { closing, discardOk := false, true; }
        return;
      }
      discardOk := false;
      GoOn(w.k, !w.kind.Nothing?, world);
    }

    method Opened(n: nat, content: Content, readable: bool, ghost world: World)
      requires n in loads
      modifies this
      ensures Now(world) == Step(old(Now(world)), Loaded(n, content, readable))
    {
      var (id, wrote) := loads[n];
      loads := loads - {n};
      ShowNote(Note(Some(id), content, !readable, |heap|));
      if wrote { StartReload(false); }
    }

    method RenderList(ids: set<nat>)
      modifies this`heap, this`selected
      ensures DeskNow() == Render(old(DeskNow()), ids)
    {
      if selected.Some? && selected.value < |heap| {
        var n := heap[selected.value];
        if n.id.Some? && n.id.value !in ids {
          if !n.unreadable && editor != n.content {
            heap, selected := heap + [n.(id := None)], Some(|heap|);
          } else {
            selected := None;
          }
        }
      }
    }

    method Drawn(n: nat, ids: set<nat>, ghost world: World)
      requires n in lists
      modifies this
      ensures Now(world) == Step(old(Now(world)), Listed(n, ids))
    {
      var thenNew := lists[n];
      lists, listed := lists - {n}, ids;
      RenderList(ids);
      if thenNew { ShowNote(Note(None, BLANK, false, |heap|)); }
    }
  }
}
