/** Exporting every page of a document, one page per main-loop tick
    (apps/preview/lisa-preview.js, the all-pages branch of `runExport`). Between ticks the person
    may move and rotate pages, and other programs may create files in the same folder. */
module PreviewExport {
  import opened Angles
  import opened PageLists
  import opened Preview

  // What an export of one page renders: the original page and its pending angle.
  datatype Render = Render(page: nat, angle: int)

  datatype File = Foreign(bytes: nat) | Image(what: Page) | Partial

  // How the writer took one page: written, refused (or failed) after the file was created, or
  // failed before it.
  datatype Writer = Writes | Refuses | Throws

  datatype Result = Done | Skipped | Failed

  function ExportRender(order: Order, rotations: Rotations, i: nat): Render
    requires i < |order|
  {
    Render(order[i], RotationOf(rotations, order[i]))
  }

  // `pageToPixbuf`: the page of a document as it is rendered.
  function Rasterized(doc: Document, r: Render): Page {
    Turned(PageAt(doc, r.page), r.angle)
  }

  // The folder the files go to; creating a file fails when its name is taken, whatever takes it.
  class Folder {
    var files: map<string, File>

    constructor (files: map<string, File>)
      ensures this.files == files
    {
      this.files := files;
    }

    method Create(name: string, what: Page, writer: Writer) returns (r: Result)
      modifies this
      ensures r == (if writer.Throws? then Failed else if name in old(files) then Skipped
                    else if writer.Writes? then Done else Failed)
      ensures files == if writer.Throws? || name in old(files) then old(files)
                       else old(files)[name := if writer.Writes? then Image(what) else Partial]
    {
      if writer.Throws? {
        return Failed;
      }
      if name in files {
        return Skipped;
      }
      if writer.Writes? {
        files := files[name := Image(what)];
        return Done;
      }
      files := files[name := Partial];
      return Failed;
    }
  }

  // One export: the snapshots it was started with, and its counters.
  class Export {
    const names: seq<string>
    const doc: Document
    const order: Order
    const rotations: Rotations
    var i: nat
    var done: nat
    var skipped: nat
    var failed: nat
    ghost var log: seq<Result>

    ghost predicate Valid()
      reads this
    {
      |names| == |order| && i <= |order| && |log| == i
      && done == Count(log, Done) && skipped == Count(log, Skipped) && failed == Count(log, Failed)
    }

    // The document, the order and the rotations are copied out of the window.
    constructor (w: View, names: seq<string>)
      requires |names| == |w.pending.order|
      ensures Valid() && forall files :: Now(files) == Begin(w, names, files)
    {
      this.names, doc, order, rotations := names, w.doc, w.pending.order, w.pending.rotations;
      i, done, skipped, failed, log := 0, 0, 0, 0, [];
    }

    // One tick; false when the export was already complete.
    method Tick(folder: Folder, writer: Writer) returns (more: bool)
      requires Valid()
      modifies this, folder
      ensures Valid()
      ensures Now(folder.files) == Ticked(old(Now(folder.files)), writer)
      ensures more <==> old(i) < |order|
      ensures done + skipped + failed == i
    {
      CountAll(log);
      if i >= |order| {
        return false;
      }
      var r := folder.Create(names[i], Rasterized(doc, ExportRender(order, rotations, i)), writer);
      ghost var before := log;
      log := log + [r];
      assert log[..|before|] == before;
      match r {
        case Done => done := done + 1;
        case Skipped => skipped := skipped + 1;
        case Failed => failed := failed + 1;
      }
      i := i + 1;
      CountAll(log);
      return true;
    }

    ghost function Now(files: map<string, File>): Job
      reads this
    {
      Job(names, doc, order, rotations, log, files)
    }
  }

  function Count(log: seq<Result>, r: Result): nat {
    if log == [] then 0 else Count(log[..|log| - 1], r) + (if log[|log| - 1] == r then 1 else 0)
  }

  lemma {:induction false} CountAll(log: seq<Result>)
    ensures Count(log, Done) + Count(log, Skipped) + Count(log, Failed) == |log|
  {
    if log != [] {
      CountAll(log[..|log| - 1]);
    }
  }

  // ------------------------------------------------------- every interleaving

  // The window's document with what is pending on it, edited at any time.
  datatype View = View(doc: Document, pending: Pending)

  // An export in progress, with the snapshot it was started from, and the folder it writes to.
  datatype Job = Job(names: seq<string>, doc: Document, order: Order, rotations: Rotations, log: seq<Result>,
                     files: map<string, File>)

  datatype State = State(window: View, job: Job)

  datatype Event =
    | OnTick(writer: Writer)
    | Change(edit: Edit)                  // a move, a removal or a rotation in the window
    | Reopen(doc: Document)               // the window goes over to another document
    | Other(name: string, bytes: nat)     // another program creates a file

  function Display(w: View): Document {
    Shown(w.doc, w.pending.order, w.pending.rotations)
  }

  function Begin(w: View, names: seq<string>, files: map<string, File>): Job {
    Job(names, w.doc, w.pending.order, w.pending.rotations, [], files)
  }

  function Ticked(j: Job, writer: Writer): Job {
    var i := |j.log|;
    if i >= |j.order| || i >= |j.names| then j
    else
      var what := Rasterized(j.doc, ExportRender(j.order, j.rotations, i));
      if writer.Throws? then j.(log := j.log + [Failed])
      else if j.names[i] in j.files then j.(log := j.log + [Skipped])
      else if writer.Writes? then j.(log := j.log + [Done], files := j.files[j.names[i] := Image(what)])
      else j.(log := j.log + [Failed], files := j.files[j.names[i] := Partial])
  }

  /** One tick deals with one page: it is done exactly when its name was free and the writer wrote it,
      skipped exactly when the name was taken, and only its own file can have come into the folder. */
  lemma TickDoes(j: Job, writer: Writer)
    requires |j.log| < |j.order| == |j.names|
    ensures var i, t := |j.log|, Ticked(j, writer); var name := j.names[i];
            |t.log| == i + 1 && t.log[..i] == j.log
            && (t.log[i].Done? <==> name !in j.files && writer.Writes?)
            && (t.log[i].Skipped? <==> name in j.files && !writer.Throws?)
            && (forall x :: x in t.files <==> x in j.files || (x == name && !writer.Throws?))
            && (forall x | x in j.files :: t.files[x] == j.files[x])
            && (t.log[i].Done? ==> t.files[name] == Image(Rasterized(j.doc, ExportRender(j.order, j.rotations, i))))
            && t.names == j.names && t.doc == j.doc && t.order == j.order && t.rotations == j.rotations
  {}

  function Step(s: State, e: Event): State {
    match e
    case OnTick(writer) => s.(job := Ticked(s.job, writer))
    case Change(edit) => s.(window := s.window.(pending := Apply(s.window.pending, edit)))
    case Reopen(doc) => s.(window := View(doc, Pending(Identity(|doc|), map[])))
    case Other(name, bytes) =>
      if name in s.job.files then s else s.(job := s.job.(files := s.job.files[name := Foreign(bytes)]))
  }

  function RunAll(s: State, events: seq<Event>): State {
    if events == [] then s else Step(RunAll(s, events[..|events| - 1]), events[|events| - 1])
  }

  function Ticks(events: seq<Event>): nat {
    if events == [] then 0 else Ticks(events[..|events| - 1]) + (if events[|events| - 1].OnTick? then 1 else 0)
  }

  function Changes(events: seq<Event>): seq<Edit> {
    if events == [] then []
    else Changes(events[..|events| - 1]) + (if events[|events| - 1].Change? then [events[|events| - 1].edit] else [])
  }

  // Every page reported done is in the folder as `pages` says.
  ghost predicate Delivered(k: Job, pages: Document) {
    |k.names| == |k.order| == |pages| && |k.log| <= |pages|
    && forall i | 0 <= i < |k.log| && k.log[i].Done? ::
         k.names[i] in k.files && k.files[k.names[i]] == Image(pages[i])
  }

  // The export still holds what it was started from.
  predicate From(k: Job, w: View, names: seq<string>) {
    k.names == names && k.doc == w.doc && k.order == w.pending.order && k.rotations == w.pending.rotations
  }

  /** The export shows the document as it was when the export began. Over every interleaving of ticks,
      edits, reopened documents and other programs' files: one page a tick is dealt with, up to the page
      count; the three counters add up to the ticks taken; no file that was there is changed; and page `i`,
      reported done, is in the folder under name `i` exactly as position `i` of the display was at the
      start, whatever the window shows by now. */
  lemma {:induction false} EveryInterleaving(w: View, names: seq<string>, files: map<string, File>, events: seq<Event>)
    requires |names| == |w.pending.order|
    ensures var k := RunAll(State(w, Begin(w, names, files)), events).job;
            From(k, w, names) && Delivered(k, Display(w))
            && |k.log| == (if Ticks(events) < |names| then Ticks(events) else |names|)
            && Count(k.log, Done) + Count(k.log, Skipped) + Count(k.log, Failed) == |k.log|
            && forall name | name in files :: name in k.files && k.files[name] == files[name]
  {
    CountAll(RunAll(State(w, Begin(w, names, files)), events).job.log);
    if events != [] {
      EveryInterleaving(w, names, files, events[..|events| - 1]);
      TickDeals(RunAll(State(w, Begin(w, names, files)), events[..|events| - 1]), w, names, events[|events| - 1]);
    }
  }

  lemma TickDeals(s: State, w: View, names: seq<string>, e: Event)
    requires From(s.job, w, names) && Delivered(s.job, Display(w))
    ensures From(Step(s, e).job, w, names) && Delivered(Step(s, e).job, Display(w))
    ensures |Step(s, e).job.log| == |s.job.log| + if e.OnTick? && |s.job.log| < |names| then 1 else 0
    ensures forall name | name in s.job.files ::
              name in Step(s, e).job.files && Step(s, e).job.files[name] == s.job.files[name]
  {
    var k, t, pages := s.job, Step(s, e).job, Display(w);
    NothingOverwritten(s, e);
    if |k.log| < |pages| { RendersDisplay(w, |k.log|); }
    forall i | 0 <= i < |t.log| && t.log[i].Done?
      ensures t.names[i] in t.files && t.files[t.names[i]] == Image(pages[i])
    {
      if i < |k.log| { assert k.log[i] == t.log[i]; }
    }
  }

  // Rendering position `i` gives what the window shows there.
  lemma RendersDisplay(w: View, i: nat)
    requires i < |w.pending.order|
    ensures Rasterized(w.doc, ExportRender(w.pending.order, w.pending.rotations, i)) == Display(w)[i]
  {}

  lemma NothingOverwritten(s: State, e: Event)
    ensures forall name | name in s.job.files ::
              name in Step(s, e).job.files && Step(s, e).job.files[name] == s.job.files[name]
  {}

  /** The window meanwhile has taken every edit: without a reopening, its display is the old one with the
      edits done to the pages, so the files and the display do part company. */
  lemma {:induction false} WindowGoesOn(s: State, events: seq<Event>)
    requires Orders(s.window.pending.order, s.window.doc) && forall e | e in events :: !e.Reopen?
    ensures var t := RunAll(s, events);
            t.window.doc == s.window.doc && t.window.pending == ApplyAll(s.window.pending, Changes(events))
            && Display(t.window) == ApplyAllTo(Display(s.window), Changes(events))
  {
    EditsShow(s.window.doc, s.window.pending, Changes(events));
    WindowTakes(s, events);
  }

  lemma {:induction false} WindowTakes(s: State, events: seq<Event>)
    requires forall e | e in events :: !e.Reopen?
    ensures var t := RunAll(s, events);
            t.window.doc == s.window.doc && t.window.pending == ApplyAll(s.window.pending, Changes(events))
  {
    if events != [] {
      var before, last := Changes(events[..|events| - 1]), events[|events| - 1];
      WindowTakes(s, events[..|events| - 1]);
      if last.Change? { ApplyOneMore(s.window.pending, before, last.edit); }
      assert before + [] == before;
    }
  }

  lemma ApplyOneMore(p: Pending, before: seq<Edit>, e: Edit)
    ensures ApplyAll(p, before + [e]) == Apply(ApplyAll(p, before), e)
  {
    assert (before + [e])[..|before|] == before;
  }

  /** From any point of a run on, files only appear. */
  lemma {:induction false} FilesOnlyAppear(s: State, events: seq<Event>)
    ensures forall name | name in s.job.files ::
              name in RunAll(s, events).job.files && RunAll(s, events).job.files[name] == s.job.files[name]
  {
    if events != [] {
      FilesOnlyAppear(s, events[..|events| - 1]);
      NothingOverwritten(RunAll(s, events[..|events| - 1]), events[|events| - 1]);
    }
  }
}
