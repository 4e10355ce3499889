/** The conversations of shell/assistant/lisa-assistant.js as steps: the person's clicks, the run's
    signals, the replies of the context daemon and its handling of the writes sent to it, in any order. */
module Assistant {
  // Writes to the daemon are fire-and-forget: they form a log, carried out in order, each of which the
  // daemon may refuse. A hand-off from the overlay is a new conversation followed by a send.

  import opened Common
  import opened Sessions

  // One `MemorySet`.
  datatype Put = SetIndex(index: seq<Info>) | SetRecord(id: Id, cell: Cell) | ClearLegacy

  // The open conversation: `current` is the streaming turn, `active` the run in flight.
  datatype Win = Win(session: Info, turns: seq<Turn>, mode: Mode, current: Option<nat>, active: Option<int>)

  // The listing and what was sent to the daemon; `delivered` of the log has been dealt with.
  datatype Book = Book(sessions: seq<Info>, known: bool, pending: bool, restoring: bool, log: seq<Put>)

  datatype Store = Store(index: seq<Info>, records: map<Id, Cell>, legacy: bool, delivered: nat)

  // `titleOf` is `titleFromTurns`; `opens` are pending MemoryGet calls.
  datatype State = State(titleOf: (seq<Turn>, string) -> string, win: Win, book: Book, opens: map<nat, Id>, next: nat,
                         store: Store)

  const UNTITLED := "New conversation"

  function Blank(id: Id, now: int, mode: Mode): Info {
    Info(id, UNTITLED, now, now, mode)
  }

  function Start(titleOf: (seq<Turn>, string) -> string, id: Id, now: int, store: Store): State {
    State(titleOf, Win(Blank(id, now, Chat), [], Chat, None, None), Book([], false, false, true, []), map[], 0,
          store.(delivered := 0))
  }

  // What `_memoryGet` answers: a failure, or what the key holds.
  datatype Answer = Failed | Holds(cell: Cell)

  // `RunSync`: a run id, or the reason it threw.
  datatype Launch = Started(qid: int) | Refused(why: string)

  // `id` and `now` are the id and the time a new conversation would get.
  datatype Event =
    | Listed(read: Option<Space>, id: Id, now: int)
    | Open(target: Id)
    | Got(load: nat, answer: Answer, id: Id, now: int)
    | New(id: Id, now: int)
    | SetMode(mode: Mode, id: Id, now: int)
    | Send(prompt: string, launch: Launch, now: int)
    | Token(qid: int, text: string)
    | Finished(qid: int, why: Option<string>, now: int)
    | Delete(target: Id, id: Id, now: int)
    | Deliver(accepted: bool)

  // ------------------------------------------------------- the steps

  // `_writeIndex`.
  function WriteIndex(b: Book): Book {
    if b.known then b.(log := b.log + [SetIndex(b.sessions)]) else b.(pending := true)
  }

  // `_showSession`.
  function Show(w: Win, info: Info, turns: seq<Turn>): Win {
    w.(session := info, mode := info.mode, turns := turns, current := None)
  }

  function Amended(t: Turn, why: string): Turn {
    t.(text := (if t.text == "" then "" else t.text + "\n\n") + "\U{26a0} " + why)
  }

  // `_openSession`, up to its await.
  function Opening(s: State, id: Id): State {
    if id == s.win.session.id || s.win.active.Some? then s
    else s.(opens := s.opens[s.next := id], next := s.next + 1)
  }

  // `_openSession`, after it.
  function Arrived(s: State, n: nat, answer: Answer, id: Id, now: int): State {
    if n !in s.opens then s
    else
      var t := s.(opens := s.opens - {n});
      match answer
      case Failed => t
      case Holds(Unusable) =>
        t.(book := WriteIndex(s.book.(sessions := Without(s.book.sessions, s.opens[n]))),
           win := Show(s.win, Blank(id, now, s.win.mode), []))
      case Holds(Rec(info, turns)) => t.(win := Show(s.win, info, turns))
  }

  // `_persistSession`.
  function Persist(s: State, now: int): State {
    if s.win.turns == [] then s
    else
      var info := s.win.session.(title := s.titleOf(Normalized(s.win.turns), s.win.session.title), updated := now);
      var filed := s.book.(sessions := Upsert(s.book.sessions, info),
            log := s.book.log + [SetRecord(info.id, Rec(info, Normalized(s.win.turns)))]);
      s.(win := s.win.(session := info), book := WriteIndex(filed))
  }

  // `_onFinished`.
  function Ended(s: State, qid: int, why: Option<string>, now: int): State {
    if s.win.active != Some(qid) then s
    else
      var w := s.win;
      var turns := if w.current.Some? && why.Some? && w.current.value < |w.turns|
                   then w.turns[w.current.value := Amended(w.turns[w.current.value], why.value)] else w.turns;
      Persist(s.(win := w.(turns := turns, current := None, active := None)), now)
  }

  function Sent(s: State, prompt: string, launch: Launch, now: int): State {
    if s.win.active.Some? || prompt == "" then s
    else
      var turns := s.win.turns + [Turn(true, prompt), Turn(false, "")];
      var w := s.win.(turns := turns, current := Some(|turns| - 1));
      match launch
      case Started(qid) => s.(win := w.(active := Some(qid)))
      case Refused(why) => Ended(s.(win := w.(active := Some(-1))), -1, Some(why), now)
  }

  function Streamed(w: Win, qid: int, text: string): Win {
    if w.active == Some(qid) && w.current.Some? && w.current.value < |w.turns| then
      var t := w.turns[w.current.value];
      w.(turns := w.turns[w.current.value := t.(text := t.text + text)])
    else w
  }

  // `_setMode`.
  function Switched(w: Win, mode: Mode, id: Id, now: int): Win {
    if mode == w.mode || w.active.Some? then w
    else if w.session.mode == mode then w.(mode := mode)
    else if w.turns == [] then w.(mode := mode, session := w.session.(mode := mode))
    else Show(w.(mode := mode), Blank(id, now, mode), [])
  }

  function Unlisted(b: Book, target: Id): Book {
    if target in Ids(b.sessions)
    then WriteIndex(b.(sessions := Without(b.sessions, target), log := b.log + [SetRecord(target, Unusable)])) else b
  }

  // `_deleteSession`.
  function Deleted(s: State, target: Id, id: Id, now: int): State {
    if !s.book.known || (s.win.active.Some? && target == s.win.session.id) then s
    else
      var book := Unlisted(s.book, target);
      if target != s.win.session.id then s.(book := book)
      else
        var rest := ForMode(book.sessions, s.win.mode);
        var shown := s.(book := book, win := Show(s.win, Blank(id, now, s.win.mode), []));
        if rest == [] then shown else Opening(shown, rest[0].id)
  }

  // `_migrateLegacy`, once nothing is listed.
  function Migrated(s: State, legacy: seq<Turn>, id: Id, now: int): State {
    var info := Info(id, s.titleOf(legacy, UNTITLED), now, now, Chat);
    var filed := s.book.(sessions := Upsert(s.book.sessions, info),
          log := s.book.log + [SetRecord(id, Rec(info, legacy))]);
    var b := WriteIndex(filed);
    s.(win := Show(s.win, info, legacy), book := b.(log := b.log + [ClearLegacy]))
  }

  // `_restoreSessions`, after its await, up to opening the most recent conversation.
  function Relisted(b: Book, read: Option<Space>): Book {
    var known := b.(sessions := (match read case None => b.sessions case Some(space) => Restored(space, b.sessions)),
                    known := read.Some?, restoring := false);
    if known.known && known.pending then WriteIndex(known.(pending := false)) else known
  }

  function Restore(s: State, read: Option<Space>, id: Id, now: int): State {
    if !s.book.restoring then s
    else
      var t := s.(book := Relisted(s.book, read));
      var legacy := match read case None => [] case Some(space) => space.legacy;
      if t.book.sessions == [] && legacy != [] && s.win.turns == [] then Migrated(t, legacy, id, now)
      else if s.win.turns != [] || t.book.sessions == [] then t
      else Opening(t, t.book.sessions[0].id)
  }

  // The daemon deals with the next write of the log, or refuses it.
  function Stored(store: Store, log: seq<Put>, accepted: bool): Store {
    if store.delivered >= |log| then store
    else
      var t := store.(delivered := store.delivered + 1);
      if !accepted then t
      else match log[store.delivered]
        case SetIndex(index) => t.(index := index)
        case SetRecord(id, cell) => t.(records := t.records[id := cell])
        case ClearLegacy => t.(legacy := false)
  }

  function Step(s: State, e: Event): State {
    match e
    case Listed(read, id, now) => Restore(s, read, id, now)
    case Open(target) => Opening(s, target)
    case Got(n, answer, id, now) => Arrived(s, n, answer, id, now)
    case New(id, now) =>
      if s.win.active.Some? || s.win.turns == [] then s else s.(win := Show(s.win, Blank(id, now, s.win.mode), []))
    case SetMode(mode, id, now) => s.(win := Switched(s.win, mode, id, now))
    case Send(prompt, launch, now) => Sent(s, prompt, launch, now)
    case Token(qid, text) => s.(win := Streamed(s.win, qid, text))
    case Finished(qid, why, now) => Ended(s, qid, why, now)
    case Delete(target, id, now) => Deleted(s, target, id, now)
    case Deliver(accepted) => s.(store := Stored(s.store, s.book.log, accepted))
  }

  function RunAll(s: State, events: seq<Event>): State {
    if events == [] then s else Step(RunAll(s, events[..|events| - 1]), events[|events| - 1])
  }

  // ------------------------------------------------------- the index waits for a read

  function Indexes(log: seq<Put>): seq<seq<Info>> {
    if log == [] then []
    else
      var last := log[|log| - 1];
      Indexes(log[..|log| - 1]) + (if last.SetIndex? then [last.index] else [])
  }

  lemma LogGrows(log: seq<Put>, put: Put)
    ensures Indexes(log + [put]) == Indexes(log) + (if put.SetIndex? then [put.index] else [])
  {
    assert (log + [put])[..|log|] == log;
  }

  /** What holds of the listing in every run: no index is written before a read said what is stored;
      from then on nothing is pending, and the last index written is what is listed. */
  ghost predicate Honest(b: Book) {
    (!b.known ==> Indexes(b.log) == [] && (b.sessions != [] ==> b.pending))
    && (b.known ==>
         !b.pending && !b.restoring && (Indexes(b.log) != [] ==> Indexes(b.log)[|Indexes(b.log)| - 1] == b.sessions))
  }

  // The same, while the listing has changed and the index is about to be written.
  ghost predicate Changing(b: Book) {
    (!b.known ==> Indexes(b.log) == []) && (b.known ==> !b.pending && !b.restoring)
  }

  lemma WriteHonest(b: Book)
    requires Changing(b)
    ensures Honest(WriteIndex(b))
    ensures b.known ==> Indexes(WriteIndex(b).log) == Indexes(b.log) + [b.sessions]
  {
    LogGrows(b.log, SetIndex(b.sessions));
  }

  lemma FileHonest(b: Book, put: Put, sessions: seq<Info>)
    requires Honest(b) && !put.SetIndex?
    ensures Changing(b.(sessions := sessions, log := b.log + [put])) && Honest(b.(log := b.log + [put]))
  {
    LogGrows(b.log, put);
  }

  lemma PersistHonest(s: State, now: int)
    requires Honest(s.book)
    ensures Honest(Persist(s, now).book)
  {
    if s.win.turns != [] {
      var info := s.win.session.(title := s.titleOf(Normalized(s.win.turns), s.win.session.title), updated := now);
      FileHonest(s.book, SetRecord(info.id, Rec(info, Normalized(s.win.turns))), Upsert(s.book.sessions, info));
      WriteHonest(s.book.(sessions := Upsert(s.book.sessions, info),
            log := s.book.log + [SetRecord(info.id, Rec(info, Normalized(s.win.turns)))]));
    }
  }

  lemma RelistedHonest(b: Book, read: Option<Space>)
    requires Honest(b) && b.restoring
    ensures Honest(Relisted(b, read))
    ensures read.Some? ==> Relisted(b, read).known && Relisted(b, read).sessions == Restored(read.value, b.sessions)
    ensures read.None? ==> Relisted(b, read).sessions == b.sessions && Relisted(b, read).log == b.log
    ensures read.Some? ==> Indexes(Relisted(b, read).log) == if b.pending then [Restored(read.value, b.sessions)]
            else []
  {
    if read.Some? && b.pending {
      WriteHonest(b.(sessions := Restored(read.value, b.sessions), known := true, restoring := false,
            pending := false));
    }
  }

  lemma MigratedHonest(s: State, legacy: seq<Turn>, id: Id, now: int)
    requires Honest(s.book)
    ensures Honest(Migrated(s, legacy, id, now).book)
  {
    var info := Info(id, s.titleOf(legacy, UNTITLED), now, now, Chat);
    FileHonest(s.book, SetRecord(id, Rec(info, legacy)), Upsert(s.book.sessions, info));
    var filed := s.book.(sessions := Upsert(s.book.sessions, info),
          log := s.book.log + [SetRecord(id, Rec(info, legacy))]);
    WriteHonest(filed);
    FileHonest(WriteIndex(filed), ClearLegacy, filed.sessions);
  }

  lemma RestoreHonest(s: State, read: Option<Space>, id: Id, now: int)
    requires Honest(s.book)
    ensures Honest(Restore(s, read, id, now).book)
  {
    if s.book.restoring {
      RelistedHonest(s.book, read);
      var t := s.(book := Relisted(s.book, read));
      if read.Some? { MigratedHonest(t, read.value.legacy, id, now); }
    }
  }

  lemma ArrivedHonest(s: State, n: nat, answer: Answer, id: Id, now: int)
    requires Honest(s.book)
    ensures Honest(Arrived(s, n, answer, id, now).book)
  {
    if n in s.opens { WriteHonest(s.book.(sessions := Without(s.book.sessions, s.opens[n]))); }
  }

  lemma DeletedHonest(s: State, target: Id, id: Id, now: int)
    requires Honest(s.book)
    ensures Honest(Deleted(s, target, id, now).book)
  {
    FileHonest(s.book, SetRecord(target, Unusable), Without(s.book.sessions, target));
    WriteHonest(s.book.(sessions := Without(s.book.sessions, target),
          log := s.book.log + [SetRecord(target, Unusable)]));
  }

  // The steps that leave the listing and the log alone.
  predicate Quiet(e: Event) {
    e.Open? || e.New? || e.SetMode? || e.Token? || e.Deliver?
  }

  lemma QuietKeepsBook(s: State, e: Event)
    requires Quiet(e)
    ensures Step(s, e).book == s.book
  {}

  lemma StepHonest(s: State, e: Event)
    requires Honest(s.book)
    ensures Honest(Step(s, e).book)
  {
    match e {
      case Listed(read, id, now) => RestoreHonest(s, read, id, now);
      case Got(n, answer, id, now) => ArrivedHonest(s, n, answer, id, now);
      case Send(prompt, launch, now) => SentHonest(s, prompt, launch, now);
      case Finished(qid, why, now) => EndedHonest(s, qid, why, now);
      case Delete(target, id, now) => DeletedHonest(s, target, id, now);
      case _ => QuietKeepsBook(s, e);
    }
  }

  lemma EndedHonest(s: State, qid: int, why: Option<string>, now: int)
    requires Honest(s.book)
    ensures Honest(Ended(s, qid, why, now).book)
  {
    if s.win.active == Some(qid) {
      var w := s.win;
      var turns := if w.current.Some? && why.Some? && w.current.value < |w.turns|
                   then w.turns[w.current.value := Amended(w.turns[w.current.value], why.value)] else w.turns;
      PersistHonest(s.(win := w.(turns := turns, current := None, active := None)), now);
    }
  }

  lemma SentHonest(s: State, prompt: string, launch: Launch, now: int)
    requires Honest(s.book)
    ensures Honest(Sent(s, prompt, launch, now).book)
  {
    if launch.Refused? {
      var turns := s.win.turns + [Turn(true, prompt), Turn(false, "")];
      EndedHonest(s.(win := s.win.(turns := turns, current := Some(|turns| - 1), active := Some(-1))), -1,
            Some(launch.why), now);
    }
  }

  lemma {:induction false} RunHonest(s: State, events: seq<Event>)
    requires Honest(s.book)
    ensures Honest(RunAll(s, events).book)
  {
    if events != [] {
      RunHonest(s, events[..|events| - 1]);
      StepHonest(RunAll(s, events[..|events| - 1]), events[|events| - 1]);
    }
  }

  lemma {:induction false} NoIndexInLog(log: seq<Put>, k: nat)
    requires Indexes(log) == [] && k < |log|
    ensures !log[k].SetIndex?
  {
    if k < |log| - 1 { NoIndexInLog(log[..|log| - 1], k); }
  }

  lemma KnownStays(s: State, e: Event)
    requires Honest(s.book) && s.book.known
    ensures Step(s, e).book.known
  {}

  lemma LoudKeepsStore(s: State, e: Event)
    requires !e.Deliver?
    ensures Step(s, e).store == s.store
  {}

  lemma StepUntouched(s: State, e: Event)
    requires Honest(s.book) && !Step(s, e).book.known
    ensures !s.book.known && Step(s, e).store.index == s.store.index
  {
    if s.book.known { KnownStays(s, e); }
    if e.Deliver? {
      if s.store.delivered < |s.book.log| { NoIndexInLog(s.book.log, s.store.delivered); }
    } else {
      LoudKeepsStore(s, e);
    }
  }

  lemma {:induction false} RunUntouched(s: State, events: seq<Event>)
    requires Honest(s.book) && !RunAll(s, events).book.known
    ensures !s.book.known && RunAll(s, events).store.index == s.store.index
  {
    if events != [] {
      var before := RunAll(s, events[..|events| - 1]);
      RunHonest(s, events[..|events| - 1]);
      StepUntouched(before, events[|events| - 1]);
      RunUntouched(s, events[..|events| - 1]);
    }
  }

  /** In every run: until a read of the namespace has succeeded, no index is written and the stored one
      stays as it was; from that read on nothing is pending, and the last index written is the listing. */
  lemma IndexWaitsForRead(titleOf: (seq<Turn>, string) -> string, id: Id, now: int, store: Store, events: seq<Event>)
    ensures var s := RunAll(Start(titleOf, id, now, store), events); var written := Indexes(s.book.log);
            (!s.book.known ==>
              written == [] && s.store.index == store.index && (s.book.sessions != [] ==> s.book.pending))
            && (s.book.known ==> !s.book.pending && (written != [] ==> written[|written| - 1] == s.book.sessions))
  {
    RunHonest(Start(titleOf, id, now, store), events);
    if !RunAll(Start(titleOf, id, now, store), events).book.known {
      RunUntouched(Start(titleOf, id, now, store), events);
    }
  }

  // A successful read that finds nothing to list folds the conversation of old into a first session.
  predicate Migrates(s: State, space: Space) {
    Restored(space, s.book.sessions) == [] && space.legacy != [] && s.win.turns == []
  }

  /** The first read that succeeds settles a deferred write: one index is written for it, the stored
      listing, the recovered records and what the window held, and nothing else is unless the conversation
      of old is migrated; a read that fails writes nothing and leaves the write pending. */
  lemma DeferredWriteFlushed(s: State, read: Option<Space>, id: Id, now: int)
    requires Honest(s.book) && s.book.restoring && s.book.pending
    ensures var t := Step(s, Listed(read, id, now));
            (read.Some? ==> t.book.known && !t.book.pending
                            && var restored := Restored(read.value, s.book.sessions);
                            Indexes(t.book.log)
                                == [restored] + (if Migrates(s, read.value) then [t.book.sessions] else [])
                            && (!Migrates(s, read.value) ==> t.book.sessions == restored))
            && (read.None? ==>
                 !t.book.known && t.book.pending && t.book.log == s.book.log && t.book.sessions == s.book.sessions)
  {
    RelistedHonest(s.book, read);
    if read.Some? {
      if Migrates(s, read.value) { MigratedIndexes(s.(book := Relisted(s.book, read)), read.value.legacy, id, now); }
      else { NothingMigrated(s, read, id, now); }
    }
  }

  lemma NothingMigrated(s: State, read: Option<Space>, id: Id, now: int)
    requires s.book.restoring && (read.Some? ==> !Migrates(s, read.value))
    requires read.Some? ==> Relisted(s.book, read).sessions == Restored(read.value, s.book.sessions)
    ensures Step(s, Listed(read, id, now)).book == Relisted(s.book, read)
  {}

  lemma MigratedIndexes(s: State, legacy: seq<Turn>, id: Id, now: int)
    requires s.book.known
    ensures var t := Migrated(s, legacy, id, now);
            t.book.known && t.book.pending == s.book.pending
                && Indexes(t.book.log) == Indexes(s.book.log) + [t.book.sessions]
  {
    var info := Info(id, s.titleOf(legacy, UNTITLED), now, now, Chat);
    var log := s.book.log + [SetRecord(id, Rec(info, legacy))];
    LogGrows(s.book.log, SetRecord(id, Rec(info, legacy)));
    LogGrows(log, SetIndex(Upsert(s.book.sessions, info)));
    LogGrows(log + [SetIndex(Upsert(s.book.sessions, info))], ClearLegacy);
  }

  // ------------------------------------------------------- a listed conversation stays listed

  // The steps that take `id` off the list: a confirmed delete, or an answer that its record is unusable.
  predicate Removes(s: State, e: Event, id: Id) {
    match e
    case Delete(target, _, _) => target == id && s.book.known && !(s.win.active.Some? && target == s.win.session.id)
    case Got(n, answer, _, _) => n in s.opens && s.opens[n] == id && answer == Holds(Unusable)
    case _ => false
  }

  // Every index written from position `from` on lists `id`, and so does the window, at once if
  // `listed`, else as soon as it knows what is stored.
  ghost predicate Kept(b: Book, id: Id, from: nat, listed: bool) {
    (listed || b.known ==> id in Ids(b.sessions))
    && from <= |b.log|
    && forall k | from <= k < |b.log| :: b.log[k].SetIndex? ==> id in Ids(b.log[k].index)
  }

  lemma WriteKept(b: Book, id: Id, from: nat, listed: bool)
    requires Kept(b, id, from, listed)
    ensures Kept(WriteIndex(b), id, from, listed)
  {}

  lemma FileKept(b: Book, put: Put, sessions: seq<Info>, id: Id, from: nat, listed: bool)
    requires Kept(b, id, from, listed) && !put.SetIndex? && (id in Ids(b.sessions) ==> id in Ids(sessions))
    ensures Kept(WriteIndex(b.(sessions := sessions, log := b.log + [put])), id, from, listed)
  {
    WriteKept(b.(sessions := sessions, log := b.log + [put]), id, from, listed);
  }

  lemma EndedKept(s: State, qid: int, why: Option<string>, now: int, id: Id, from: nat, listed: bool)
    requires Kept(s.book, id, from, listed)
    ensures Kept(Ended(s, qid, why, now).book, id, from, listed)
  {
    var t := Ended(s, qid, why, now);
    if t.book != s.book {
      IdsUpsert(s.book.sessions, t.win.session);
      FileKept(s.book, SetRecord(t.win.session.id, Rec(t.win.session, Normalized(t.win.turns))),
            Upsert(s.book.sessions, t.win.session), id, from, listed);
    }
  }

  lemma SentKept(s: State, prompt: string, launch: Launch, now: int, id: Id, from: nat, listed: bool)
    requires Kept(s.book, id, from, listed)
    ensures Kept(Sent(s, prompt, launch, now).book, id, from, listed)
  {
    if launch.Refused? {
      var turns := s.win.turns + [Turn(true, prompt), Turn(false, "")];
      EndedKept(s.(win := s.win.(turns := turns, current := Some(|turns| - 1), active := Some(-1))), -1,
            Some(launch.why), now, id, from, listed);
    }
  }

  lemma RestoreKept(s: State, read: Option<Space>, other: Id, now: int, id: Id, from: nat, listed: bool)
    requires Kept(s.book, id, from, listed) && Honest(s.book)
    requires read.Some? ==> listed || id in Ids(read.value.index)
    ensures Kept(Restore(s, read, other, now).book, id, from, listed)
  {
    if s.book.restoring {
      var b := Relisted(s.book, read);
      if read.Some? {
        RestoreLosesNothing(read.value, s.book.sessions);
        WriteKept(s.book.(sessions := Restored(read.value, s.book.sessions), known := true, restoring := false,
              pending := false), id, from, listed);
        assert Kept(b, id, from, listed) && b.sessions != [];
      }
    }
  }

  lemma ArrivedKept(s: State, e: Event, id: Id, from: nat, listed: bool)
    requires Kept(s.book, id, from, listed) && e.Got? && !Removes(s, e, id)
    ensures Kept(Step(s, e).book, id, from, listed)
  {
    if e.load in s.opens && e.answer == Holds(Unusable) {
      IdsWithout(s.book.sessions, s.opens[e.load]);
      WriteKept(s.book.(sessions := Without(s.book.sessions, s.opens[e.load])), id, from, listed);
    }
  }

  lemma DeletedKept(s: State, e: Event, id: Id, from: nat, listed: bool)
    requires Kept(s.book, id, from, listed) && e.Delete? && !Removes(s, e, id)
    ensures Kept(Step(s, e).book, id, from, listed)
  {
    if s.book.known && !(s.win.active.Some? && e.target == s.win.session.id) {
      IdsWithout(s.book.sessions, e.target);
      FileKept(s.book, SetRecord(e.target, Unusable), Without(s.book.sessions, e.target), id, from, listed);
    }
  }

  lemma StepKept(s: State, e: Event, id: Id, from: nat, listed: bool)
    requires Kept(s.book, id, from, listed) && Honest(s.book) && !Removes(s, e, id)
    requires e.Listed? && e.read.Some? ==> listed || id in Ids(e.read.value.index)
    ensures Kept(Step(s, e).book, id, from, listed)
  {
    match e {
      case Listed(read, other, now) => RestoreKept(s, read, other, now, id, from, listed);
      case Got(_, _, _, _) => ArrivedKept(s, e, id, from, listed);
      case Send(prompt, launch, now) => SentKept(s, prompt, launch, now, id, from, listed);
      case Finished(qid, why, now) => EndedKept(s, qid, why, now, id, from, listed);
      case Delete(_, _, _) => DeletedKept(s, e, id, from, listed);
      case _ => QuietKeepsBook(s, e);
    }
  }

  // No event of the run takes `id` off the list.
  ghost predicate Spared(s: State, events: seq<Event>, id: Id) {
    events != [] ==>
      (Spared(s, events[..|events| - 1], id) && !Removes(RunAll(s, events[..|events| - 1]), events[|events| - 1], id))
  }

  /** From any moment on, a listed conversation stays in the window's list and in every index written,
      through restores, failed reads, other deletes and finished runs, unless it is deleted or its
      record answers as unusable. */
  lemma {:induction false} ListedUntilRemoved(s: State, events: seq<Event>, id: Id)
    requires Honest(s.book) && id in Ids(s.book.sessions) && Spared(s, events, id)
    ensures Kept(RunAll(s, events).book, id, |s.book.log|, true)
  {
    if events != [] {
      var before := events[..|events| - 1];
      ListedUntilRemoved(s, before, id);
      RunHonest(s, before);
      StepKept(RunAll(s, before), events[|events| - 1], id, |s.book.log|, true);
    }
  }

  // A read that succeeds answers with the index that is stored.
  ghost predicate Truthful(s: State, events: seq<Event>) {
    events != [] ==>
      (Truthful(s, events[..|events| - 1])
       && var e := events[|events| - 1];
          (e.Listed? && e.read.Some? ==> e.read.value.index == RunAll(s, events[..|events| - 1]).store.index))
  }

  // Every index the daemon has or will get lists `id`.
  ghost predicate Safe(s: State, id: Id) {
    id in Ids(s.store.index) && Kept(s.book, id, if s.store.delivered <= |s.book.log| then s.store.delivered
          else |s.book.log|, false)
  }

  lemma StepSafe(s: State, e: Event, id: Id)
    requires Honest(s.book) && Safe(s, id) && s.store.delivered <= |s.book.log| && !Removes(s, e, id)
    requires e.Listed? && e.read.Some? ==> e.read.value.index == s.store.index
    ensures Safe(Step(s, e), id) && Step(s, e).store.delivered <= |Step(s, e).book.log|
  {
    if e.Deliver? {
      QuietKeepsBook(s, e);
    } else {
      StepKept(s, e, id, s.store.delivered, false);
      LoudKeepsStore(s, e);
    }
  }

  lemma {:induction false} RunSafe(s: State, events: seq<Event>, id: Id)
    requires Honest(s.book) && Safe(s, id) && s.store.delivered <= |s.book.log| && Spared(s, events, id)
             && Truthful(s, events)
    ensures Safe(RunAll(s, events), id) && RunAll(s, events).store.delivered <= |RunAll(s, events).book.log|
  {
    if events != [] {
      var before, e := RunAll(s, events[..|events| - 1]), events[|events| - 1];
      RunSafe(s, events[..|events| - 1], id);
      RunHonest(s, events[..|events| - 1]);
      StepSafe(before, e, id);
    }
  }

  /** A conversation in the stored index is never lost from it: whatever reads and writes fail and in
      whatever order they land, it is still there at the end of every run that neither deletes it nor
      gets an unusable record for it. */
  lemma StoredConversationSurvives(titleOf: (seq<Turn>, string) -> string, blank: Id, now: int, store: Store,
                                   events: seq<Event>, id: Id)
    requires id in Ids(store.index)
    requires Spared(Start(titleOf, blank, now, store), events, id)
             && Truthful(Start(titleOf, blank, now, store), events)
    ensures var s := RunAll(Start(titleOf, blank, now, store), events);
            id in Ids(s.store.index) && (s.book.known ==> id in Ids(s.book.sessions))
  {
    RunSafe(Start(titleOf, blank, now, store), events, id);
  }

  // ------------------------------------------------------- modes and runs

  lemma StepInMode(s: State, e: Event)
    requires s.win.session.mode == s.win.mode
    ensures Step(s, e).win.session.mode == Step(s, e).win.mode
  {}

  /** In every run the open conversation belongs to the mode the rail is on, so the rows shown are all
      of that mode and the open one is among them. */
  lemma {:induction false} OpenConversationInMode(titleOf: (seq<Turn>, string) -> string, blank: Id, now: int,
                                                  store: Store, events: seq<Event>, e: Info)
    ensures var s := RunAll(Start(titleOf, blank, now, store), events);
            var rows := Rows(ForMode(s.book.sessions, s.win.mode), s.win.session);
            s.win.session.mode == s.win.mode
            && (e in rows ==> e.mode == s.win.mode)
            && (exists r :: r in rows && r.id == s.win.session.id)
  {
    var s := RunAll(Start(titleOf, blank, now, store), events);
    if events != [] {
      OpenConversationInMode(titleOf, blank, now, store, events[..|events| - 1], e);
      StepInMode(RunAll(Start(titleOf, blank, now, store), events[..|events| - 1]), events[|events| - 1]);
    }
    RowsShowOneMode(s.book.sessions, s.win.mode, s.win.session, e);
  }

  // An open conversation's read answers, with a record or with the news that there is none to use.
  predicate Lands(s: State, e: Event) {
    e.Got? && e.load in s.opens && e.answer.Holds?
  }

  /** While a run is in flight the conversation on screen is replaced by exactly one kind of step: the
      answer to an open that was begun before the run. The streaming turn then leaves the window. */
  lemma MidRunSwitchExactly(s: State, e: Event)
    requires s.win.active.Some? && s.win.turns != []
    requires !(e.Finished? && e.qid == s.win.active.value)
    ensures Step(s, e).win.active == s.win.active
    ensures !Lands(s, e) ==> Step(s, e).win.session == s.win.session && |Step(s, e).win.turns| == |s.win.turns|
    ensures Lands(s, e) ==> (Step(s, e).win.current.None? && Step(s, e).win.session ==
              (if e.answer.cell.Rec? then e.answer.cell.info else Blank(e.id, e.now, s.win.mode)))
    ensures forall n | n in Step(s, e).opens :: n in s.opens
  {}

  /** So when no open is pending as a run starts, the conversation stays put until the run has finished. */
  lemma {:induction false} RunKeepsConversation(s: State, qid: int, events: seq<Event>)
    requires s.win.active == Some(qid) && s.win.turns != [] && s.opens == map[]
    requires forall i | 0 <= i < |events| :: !(events[i].Finished? && events[i].qid == qid)
    ensures var t := RunAll(s, events);
            t.win.session == s.win.session && t.win.active == Some(qid) && t.win.turns != [] && t.opens == map[]
  {
    if events != [] {
      RunKeepsConversation(s, qid, events[..|events| - 1]);
      MidRunSwitchExactly(RunAll(s, events[..|events| - 1]), events[|events| - 1]);
    }
  }

  /** When an open does land mid-run, the finished run is filed under the wrong conversation: what is
      written is the one just shown, and nothing of the conversation that asked. */
  lemma LateOpenLosesTurn(s: State, n: nat, info: Info, turns: seq<Turn>, qid: int, why: Option<string>, now: int)
    requires s.win.active == Some(qid) && n in s.opens && turns != []
    ensures var t := Step(Step(s, Got(n, Holds(Rec(info, turns)), 0, now)), Finished(qid, why, now));
            var filed := info.(title := s.titleOf(Normalized(turns), info.title), updated := now);
            t.win.active.None? && t.win.turns == turns
            && t.book.log == s.book.log + [SetRecord(info.id, Rec(filed, Normalized(turns)))]
                             + (if s.book.known then [SetIndex(t.book.sessions)] else [])
  {}

  /** A finished run is filed, known index or not: the record first, with every turn that has text, then
      the listing with the conversation at its head, deferred if it must be. The record is the whole
      conversation if and only if no turn of it is empty. */
  lemma FinishedRunIsFiled(s: State, qid: int, why: Option<string>, now: int)
    requires s.win.active == Some(qid) && s.win.turns != []
    ensures var t := Step(s, Finished(qid, why, now));
            |t.book.log| > |s.book.log| && t.book.log[..|s.book.log|] == s.book.log
            && t.book.log[|s.book.log|] == SetRecord(s.win.session.id, Rec(t.win.session, Normalized(t.win.turns)))
            && t.book.sessions != [] && t.book.sessions[0] == t.win.session && t.win.session.id == s.win.session.id
            && (Normalized(t.win.turns) == t.win.turns <==> forall turn | turn in t.win.turns :: turn.text != "")
            && Ids(t.book.sessions) == Ids(s.book.sessions) + {s.win.session.id}
            && (if s.book.known then t.book.log[|s.book.log| + 1..] == [SetIndex(t.book.sessions)] else t.book.pending)
  {
    IdsUpsert(s.book.sessions, Step(s, Finished(qid, why, now)).win.session);
    StoredWhole(Step(s, Finished(qid, why, now)).win.turns);
  }

  // The window shows this conversation, and no turn of it is streaming.
  ghost predicate OnScreen(w: Win, info: Info, turns: seq<Turn>) {
    w.session == info && w.turns == turns && w.mode == info.mode && w.current.None?
  }

  /** A conversation that is clicked is the one that is shown: unless it is shown already or a run is in
      flight, and then nothing happens, one read of it is asked for, and the record that answers is on the
      screen as it is stored; neither step touches the listing. */
  lemma OpenShows(s: State, target: Id, info: Info, turns: seq<Turn>, id: Id, now: int)
    ensures var t := Step(s, Open(target)); var u := Step(t, Got(s.next, Holds(Rec(info, turns)), id, now));
            if target == s.win.session.id || s.win.active.Some? then t == s
            else
              t.opens == s.opens[s.next := target] && t.next == s.next + 1 && t.win == s.win && t.book == s.book
              && OnScreen(u.win, info, turns) && u.opens == s.opens - {s.next} && u.book == s.book
  {
    assert s.opens[s.next := target] - {s.next} == s.opens - {s.next};
  }

  /** An answer counts once and only for what was asked: a failed read leaves everything, a record is shown,
      and an unusable one takes the conversation it was read for off the listing and shows a blank one. */
  lemma GotDoes(s: State, n: nat, answer: Answer, id: Id, now: int)
    ensures var t := Step(s, Got(n, answer, id, now));
            if n !in s.opens then t == s
            else
              t.opens == s.opens - {n} && t.store == s.store
              && match answer
                 case Failed => t.win == s.win && t.book == s.book
                 case Holds(Rec(info, turns)) => OnScreen(t.win, info, turns) && t.book == s.book
                 case Holds(Unusable) =>
                   OnScreen(t.win, Info(id, UNTITLED, now, now, s.win.mode), [])
                   && Ids(t.book.sessions) == Ids(s.book.sessions) - {s.opens[n]}
  {
    if n in s.opens { IdsWithout(s.book.sessions, s.opens[n]); }
  }

  /** New and a mode switch never touch what is listed or stored. New shows a blank conversation of the mode,
      unless the one shown is blank or a run is in flight; a switch keeps a conversation of that mode, turns
      a blank one over, and puts a blank one in place of any other. */
  lemma NewDoes(s: State, mode: Mode, id: Id, now: int)
    ensures var t := Step(s, New(id, now));
            t.book == s.book && t.opens == s.opens
            && if s.win.active.Some? || s.win.turns == [] then t == s
               else OnScreen(t.win, Info(id, UNTITLED, now, now, s.win.mode), [])
    ensures var t := Step(s, SetMode(mode, id, now));
            t.book == s.book && t.opens == s.opens
            && if mode == s.win.mode || s.win.active.Some? then t == s
               else
                 t.win.mode == mode
                 && if s.win.session.mode == mode then t.win.session == s.win.session && t.win.turns == s.win.turns
                    else if s.win.turns == [] then t.win.session == s.win.session.(mode := mode) && t.win.turns == []
                    else OnScreen(t.win, Info(id, UNTITLED, now, now, mode), [])
  {}

  /** A deletion takes the conversation off the listing and writes its tombstone, and the listing after it;
      the one on the screen gives way to a blank one while the most recent of its mode is asked for. Before
      the listing is known, and for the conversation of a run in flight, nothing happens. */
  lemma DeleteDoes(s: State, target: Id, id: Id, now: int)
    ensures var t := Step(s, Delete(target, id, now)); var rest := ForMode(t.book.sessions, s.win.mode);
            if !s.book.known || (s.win.active.Some? && target == s.win.session.id) then t == s
            else
              Ids(t.book.sessions) == Ids(s.book.sessions) - {target}
              && t.book.log == (if target in Ids(s.book.sessions)
                                then s.book.log + [SetRecord(target, Unusable)] + [SetIndex(t.book.sessions)]
                                else s.book.log)
              && if target != s.win.session.id then t.win == s.win && t.opens == s.opens
                 else
                   OnScreen(t.win, Info(id, UNTITLED, now, now, s.win.mode), [])
                   && t.opens == if rest == [] || rest[0].id == id || s.win.active.Some? then s.opens
                                 else s.opens[s.next := rest[0].id]
  {
    if s.book.known { UnlistedDoes(s.book, target); }
  }

  lemma UnlistedDoes(b: Book, target: Id)
    requires b.known
    ensures var c := Unlisted(b, target);
            Ids(c.sessions) == Ids(b.sessions) - {target}
            && c.log == (if target in Ids(b.sessions)
                         then b.log + [SetRecord(target, Unusable)] + [SetIndex(c.sessions)] else b.log)
  {
    IdsWithout(b.sessions, target);
  }

  /** Once the listing is read, the most recent conversation is asked for, if nothing has been said yet and
      it is not the one shown; a failed read asks for none it does not know. */
  lemma RestoreDoes(s: State, read: Option<Space>, id: Id, now: int)
    requires s.book.restoring && (read.Some? ==> read.value.legacy == [])
    ensures var t := Step(s, Listed(read, id, now));
            t.book.known == read.Some? && !t.book.restoring && t.win == s.win
            && t.book.sessions == (if read.Some? then Restored(read.value, s.book.sessions) else s.book.sessions)
            && t.opens == if s.win.turns != [] || t.book.sessions == [] || t.book.sessions[0].id == s.win.session.id
                             || s.win.active.Some? then s.opens
                          else s.opens[s.next := t.book.sessions[0].id]
  {}

  /** The old single conversation is taken over once: with an empty listing it becomes a chat of its own,
      shown, filed and listed, and only behind that is the old key cleared. */
  lemma LegacyTakenOver(s: State, space: Space, id: Id, now: int)
    requires s.book.restoring && Restored(space, s.book.sessions) == [] && space.legacy != [] && s.win.turns == []
    ensures var t := Step(s, Listed(Some(space), id, now));
            var info := Info(id, s.titleOf(space.legacy, UNTITLED), now, now, Chat);
            OnScreen(t.win, info, space.legacy) && Ids(t.book.sessions) == {id}
            && |t.book.log| >= 3 && t.book.log[|t.book.log| - 1] == ClearLegacy
            && t.book.log[|t.book.log| - 2] == SetIndex(t.book.sessions)
            && t.book.log[|t.book.log| - 3] == SetRecord(id, Rec(info, space.legacy))
  {
    IdsUpsert([], Info(id, s.titleOf(space.legacy, UNTITLED), now, now, Chat));
  }

  // What the run `qid` has said in these events.
  function Heard(events: seq<Event>, qid: int): string {
    if events == [] then ""
    else
      var last := events[|events| - 1];
      Heard(events[..|events| - 1], qid) + (if last.Token? && last.qid == qid then last.text else "")
  }

  // The run `qid` is answering with the last turn, and no other conversation is on its way.
  ghost predicate Answering(s: State, qid: int) {
    s.win.active == Some(qid) && s.opens == map[] && s.win.turns != [] && s.win.current == Some(|s.win.turns| - 1)
  }

  function WithReply(turns: seq<Turn>, more: string): seq<Turn>
    requires turns != []
  {
    var last := turns[|turns| - 1];
    turns[..|turns| - 1] + [last.(text := last.text + more)]
  }

  lemma AnswerStep(s: State, qid: int, e: Event)
    requires Answering(s, qid) && !(e.Finished? && e.qid == qid)
    ensures var t := Step(s, e);
            Answering(t, qid) && t.win.session == s.win.session
            && t.win.turns == WithReply(s.win.turns, if e.Token? && e.qid == qid then e.text else "")
  {
    var turns := s.win.turns;
    assert turns == turns[..|turns| - 1] + [turns[|turns| - 1]];
    assert turns[|turns| - 1].(text := turns[|turns| - 1].text + "") == turns[|turns| - 1];
  }

  lemma ReplyMore(turns: seq<Turn>, a: string, b: string)
    requires turns != []
    ensures WithReply(WithReply(turns, a), b) == WithReply(turns, a + b)
  {
    var last := turns[|turns| - 1];
    assert last.text + a + b == last.text + (a + b);
  }

  lemma {:induction false} AnswerRun(s: State, qid: int, events: seq<Event>)
    requires Answering(s, qid) && forall i | 0 <= i < |events| :: !(events[i].Finished? && events[i].qid == qid)
    ensures var t := RunAll(s, events);
            Answering(t, qid) && t.win.session == s.win.session
                && t.win.turns == WithReply(s.win.turns, Heard(events, qid))
  {
    if events == [] {
      var turns := s.win.turns;
      assert turns[|turns| - 1].(text := turns[|turns| - 1].text + "") == turns[|turns| - 1];
      assert turns == turns[..|turns| - 1] + [turns[|turns| - 1]];
    } else {
      var front, e := events[..|events| - 1], events[|events| - 1];
      AnswerRun(s, qid, front);
      AnswerStep(RunAll(s, front), qid, e);
      ReplyMore(s.win.turns, Heard(front, qid), if e.Token? && e.qid == qid then e.text else "");
    }
  }

  // The reply as it stays: what was heard, and the reason if the run ended badly.
  function Told(heard: string, why: Option<string>): string {
    if why.None? then heard
    else if heard == "" then "\U{26a0} " + why.value
    else heard + "\n\n" + "\U{26a0} " + why.value
  }

  /** A question and its whole answer are on the screen and in the record: when nothing is on its way to be
      opened, whatever the person and the daemon do between sending and the end of the run, the conversation
      grows by the question and by everything the run said, in order, and that is what is filed. */
  lemma RunTellsWhole(s: State, prompt: string, qid: int, asked: int, events: seq<Event>, why: Option<string>, now: int)
    requires s.win.active.None? && s.opens == map[] && prompt != ""
    requires forall i | 0 <= i < |events| :: !(events[i].Finished? && events[i].qid == qid)
    ensures var u := RunAll(Step(s, Send(prompt, Started(qid), asked)), events);
            var t := Step(u, Finished(qid, why, now));
            t.win.active.None? && t.win.current.None? && t.win.session.id == s.win.session.id
            && t.win.turns == s.win.turns + [Turn(true, prompt), Turn(false, Told(Heard(events, qid), why))]
            && |t.book.log| > |u.book.log| && t.book.log[..|u.book.log|] == u.book.log
            && t.book.log[|u.book.log|] == SetRecord(s.win.session.id, Rec(t.win.session, Normalized(t.win.turns)))
  {
    var first := Step(s, Send(prompt, Started(qid), asked));
    var u := RunAll(first, events);
    AnswerRun(first, qid, events);
    var heard := Heard(events, qid);
    assert first.win.turns == s.win.turns + [Turn(true, prompt), Turn(false, "")];
    assert u.win.turns == s.win.turns + [Turn(true, prompt), Turn(false, heard)] by {
      assert first.win.turns[..|first.win.turns| - 1] == s.win.turns + [Turn(true, prompt)];
      assert "" + heard == heard;
    }
    FinishedRunIsFiled(u, qid, why, now);
    EndedTurns(u, qid, why, now, s.win.turns, prompt, heard);
  }

  lemma EndedTurns(u: State, qid: int, why: Option<string>, now: int, turns: seq<Turn>, prompt: string, heard: string)
    requires Answering(u, qid) && u.win.turns == turns + [Turn(true, prompt), Turn(false, heard)]
    ensures var t := Step(u, Finished(qid, why, now));
            t.win.active.None? && t.win.current.None?
            && t.win.turns == turns + [Turn(true, prompt), Turn(false, Told(heard, why))]
  {
    var k := |u.win.turns| - 1;
    if why.Some? {
      assert u.win.turns[k := Turn(false, Told(heard, why))]
          == turns + [Turn(true, prompt), Turn(false, Told(heard, why))];
      assert "" + "\U{26a0} " + why.value == "\U{26a0} " + why.value;
    }
  }

  /** A question that cannot be asked is filed with the reason as its answer; with no words, or while a run
      is in flight, nothing is sent. */
  lemma SendDoes(s: State, prompt: string, launch: Launch, now: int)
    ensures var t := Step(s, Send(prompt, launch, now));
            if s.win.active.Some? || prompt == "" then t == s
            else match launch
              case Started(qid) =>
                t.book == s.book && t.win.session == s.win.session && t.win.active == Some(qid)
                && t.win.turns == s.win.turns + [Turn(true, prompt), Turn(false, "")]
                && t.win.current == Some(|t.win.turns| - 1)
              case Refused(why) =>
                t.win.active.None? && t.win.current.None?
                && t.win.turns == s.win.turns + [Turn(true, prompt), Turn(false, Told("", Some(why)))]
                && |t.book.log| > |s.book.log| && t.book.log[..|s.book.log|] == s.book.log
                && t.book.log[|s.book.log|] == SetRecord(s.win.session.id, Rec(t.win.session, Normalized(t.win.turns)))
  {
    if s.win.active.None? && prompt != "" && launch.Refused? {
      var asked := s.win.turns + [Turn(true, prompt), Turn(false, "")];
      var u := s.(win := s.win.(turns := asked, current := Some(|asked| - 1), active := Some(-1)));
      FinishedRunIsFiled(u, -1, Some(launch.why), now);
      assert asked[|asked| - 1 := Turn(false, Told("", Some(launch.why)))]
          == s.win.turns + [Turn(true, prompt), Turn(false, Told("", Some(launch.why)))];
      assert "" + "\U{26a0} " + launch.why == "\U{26a0} " + launch.why;
    }
  }

  ghost predicate NoTombstone(log: seq<Put>, from: nat) {
    forall k | from <= k < |log| :: !(log[k].SetRecord? && log[k].cell.Unusable?)
  }

  lemma RelistedKeepsRecords(b: Book, read: Option<Space>)
    ensures NoTombstone(Relisted(b, read).log, |b.log|) && |Relisted(b, read).log| >= |b.log|
  {}

  lemma RestoreKeepsRecords(s: State, read: Option<Space>, id: Id, now: int)
    ensures NoTombstone(Restore(s, read, id, now).book.log, |s.book.log|)
  {
    RelistedKeepsRecords(s.book, read);
  }

  lemma ArrivedKeepsRecords(s: State, n: nat, answer: Answer, id: Id, now: int)
    ensures NoTombstone(Arrived(s, n, answer, id, now).book.log, |s.book.log|)
  {}

  lemma EndedKeepsRecords(s: State, qid: int, why: Option<string>, now: int)
    ensures NoTombstone(Ended(s, qid, why, now).book.log, |s.book.log|)
  {}

  lemma SentKeepsRecords(s: State, prompt: string, launch: Launch, now: int)
    ensures NoTombstone(Sent(s, prompt, launch, now).book.log, |s.book.log|)
  {
    if launch.Refused? {
      var turns := s.win.turns + [Turn(true, prompt), Turn(false, "")];
      EndedKeepsRecords(s.(win := s.win.(turns := turns, current := Some(|turns| - 1), active := Some(-1))), -1,
            Some(launch.why), now);
    }
  }

  /** A record is tombstoned only by deleting a listed conversation, with the listing known and never
      the one a run is streaming into. */
  lemma TombstoneOnlyByDelete(s: State, e: Event, k: nat)
    requires |s.book.log| <= k < |Step(s, e).book.log|
    requires Step(s, e).book.log[k].SetRecord? && Step(s, e).book.log[k].cell.Unusable?
    ensures e.Delete? && Removes(s, e, e.target) && e.target in Ids(s.book.sessions)
            && Step(s, e).book.log[k].id == e.target
  {
    match e {
      case Listed(read, id, now) => RestoreKeepsRecords(s, read, id, now);
      case Got(n, answer, id, now) => ArrivedKeepsRecords(s, n, answer, id, now);
      case Send(prompt, launch, now) => SentKeepsRecords(s, prompt, launch, now);
      case Finished(qid, why, now) => EndedKeepsRecords(s, qid, why, now);
      case Delete(_, _, _) =>
      case _ => QuietKeepsBook(s, e);
    }
  }

  // ------------------------------------------------------- the window itself

  /** The window's fields and its methods, one per segment between two awaits; each leaves the window
      as the step of the same event does. `world` supplies what no method touches. */
  class AssistantWindow {
    const titleOf: (seq<Turn>, string) -> string
    var session: Info
    var turns: seq<Turn>
    var mode: Mode
    var current: Option<nat>
    var active: Option<int>
    var sessions: seq<Info>
    var indexKnown: bool
    var indexPending: bool
    var restoring: bool
    var log: seq<Put>
    var opens: map<nat, Id>
    var next: nat

    function WinNow(): Win
      reads this
    {
      Win(session, turns, mode, current, active)
    }

    function BookNow(): Book
      reads this
    {
      Book(sessions, indexKnown, indexPending, restoring, log)
    }

    ghost function Now(store: Store): State
      reads this
    {
      State(titleOf, WinNow(), BookNow(), opens, next, store)
    }

    constructor (titleOf: (seq<Turn>, string) -> string, id: Id, now: int)
      ensures forall store: Store :: store.delivered == 0 ==> Now(store) == Start(titleOf, id, now, store)
    {
      this.titleOf := titleOf;
      session, turns, mode, current, active := Blank(id, now, Chat), [], Chat, None, None;
      sessions, indexKnown, indexPending, restoring, log := [], false, false, true, [];
      opens, next := map[], 0;
    }

    method SaveIndex()
      modifies this`log, this`indexPending
      ensures BookNow() == WriteIndex(old(BookNow()))
    {
      if !indexKnown {
        indexPending := true;
        return;
      }
      log := log + [SetIndex(sessions)];
    }

    method ShowSession(info: Info, shown: seq<Turn>)
      modifies this`session, this`mode, this`turns, this`current
      ensures WinNow() == Show(old(WinNow()), info, shown)
    {
      session := info;
      if session.mode != mode { mode := session.mode; }
      turns, current := shown, None;
    }

    method OpenSession(id: Id, ghost store: Store)
      modifies this`opens, this`next
      ensures Now(store) == Step(old(Now(store)), Open(id))
    {
      if id == session.id || active.Some? { return; }
      opens, next := opens[next := id], next + 1;
    }

    method SessionRead(load: nat, answer: Answer, id: Id, now: int, ghost store: Store)
      requires load in opens
      modifies this
      ensures Now(store) == Step(old(Now(store)), Got(load, answer, id, now))
    {
      var target := opens[load];
      opens := opens - {load};
      if answer.Failed? { return; }
      if answer.cell.Unusable? {
        sessions := Without(sessions, target);
        SaveIndex();
        ShowSession(Blank(id, now, mode), []);
        return;
      }
      ShowSession(answer.cell.info, answer.cell.turns);
    }

    method PersistSession(now: int, ghost store: Store)
      modifies this
      ensures Now(store) == Persist(old(Now(store)), now)
    {
      if turns == [] { return; }
      session := session.(title := titleOf(Normalized(turns), session.title), updated := now);
      sessions := Upsert(sessions, session);
      log := log + [SetRecord(session.id, Rec(session, Normalized(turns)))];
      SaveIndex();
    }

    method OnFinished(qid: int, why: Option<string>, now: int, ghost store: Store)
      modifies this
      ensures Now(store) == Step(old(Now(store)), Finished(qid, why, now))
    {
      if active != Some(qid) { return; }
      if current.Some? && why.Some? && current.value < |turns| {
        turns := turns[current.value := Amended(turns[current.value], why.value)];
      }
      active, current := None, None;
      PersistSession(now, store);
    }

    method Send(prompt: string, launch: Launch, now: int, ghost store: Store)
      modifies this
      ensures Now(store) == Step(old(Now(store)), Event.Send(prompt, launch, now))
    {
      if active.Some? || prompt == "" { return; }
      turns := turns + [Turn(true, prompt), Turn(false, "")];
      current := Some(|turns| - 1);
      match launch {
        case Started(qid) => active := Some(qid);
        case Refused(why) =>
          active := Some(-1);
          OnFinished(-1, Some(why), now, store);
      }
    }

    method ChangeMode(to: Mode, id: Id, now: int, ghost store: Store)
      modifies this
      ensures Now(store) == Step(old(Now(store)), SetMode(to, id, now))
    {
      if to == mode || active.Some? { return; }
      mode := to;
      if session.mode != to {
        if turns == [] { session := session.(mode := to); } else { ShowSession(Blank(id, now, to), []); }
      }
    }

    method Unlist(target: Id)
      modifies this`sessions, this`log, this`indexPending
      ensures BookNow() == Unlisted(old(BookNow()), target)
    {
      if target in Ids(sessions) {
        sessions := Without(sessions, target);
        log := log + [SetRecord(target, Unusable)];
        SaveIndex();
      }
    }

    method DeleteSession(target: Id, id: Id, now: int, ghost store: Store)
      modifies this
      ensures Now(store) == Step(old(Now(store)), Delete(target, id, now))
    {
      if (active.Some? && target == session.id) || !indexKnown { return; }
      Unlist(target);
      if target != session.id { return; }
      var rest := ForMode(sessions, mode);
      ShowSession(Blank(id, now, mode), []);
      if rest != [] { OpenSession(rest[0].id, store); }
    }

    method MigrateLegacy(legacy: seq<Turn>, id: Id, now: int, ghost store: Store)
      modifies this
      ensures Now(store) == Migrated(old(Now(store)), legacy, id, now)
    {
      var info := Info(id, titleOf(legacy, UNTITLED), now, now, Chat);
      ShowSession(info, legacy);
      sessions := Upsert(sessions, info);
      log := log + [SetRecord(id, Rec(info, legacy))];
      SaveIndex();
      log := log + [ClearLegacy];
    }

    method Relist(read: Option<Space>)
      modifies this`sessions, this`indexKnown, this`restoring, this`indexPending, this`log
      ensures BookNow() == Relisted(old(BookNow()), read)
    {
      restoring, indexKnown := false, read.Some?;
      if read.Some? { sessions := Restored(read.value, sessions); }
      if indexKnown && indexPending {
        indexPending := false;
        SaveIndex();
      }
    }

    method RestoreSessions(read: Option<Space>, id: Id, now: int, ghost store: Store)
      requires restoring
      modifies this
      ensures Now(store) == Step(old(Now(store)), Listed(read, id, now))
    {
      Relist(read);
      if sessions == [] && read.Some? && read.value.legacy != [] && turns == [] {
        MigrateLegacy(read.value.legacy, id, now, store);
        return;
      }
      if turns != [] || sessions == [] { return; }
      OpenSession(sessions[0].id, store);
    }
  }
}
