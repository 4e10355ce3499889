/** The conversation index of shell/assistant/lib/sessions.js: pure transforms on listings. A stored
    value is taken as already parsed: JSON that does not parse reads as an empty index or as an
    unusable record.

    Each transform is characterised by the ids it keeps and, where that matters, by which of two
    entries with the same id survives; the runs of Assistant.dfy are judged by the ids. */
module Sessions {

  type Id = nat

  datatype Mode = Chat | Code | Design | Research

  datatype Info = Info(id: Id, title: string, created: int, updated: int, mode: Mode)

  datatype Turn = Turn(user: bool, text: string)

  // `normalizeTurns`: the turns that are stored, those with text.
  function Normalized(turns: seq<Turn>): seq<Turn> {
    if turns == [] then [] else (if turns[0].text != "" then [turns[0]] else []) + Normalized(turns[1..])
  }

  lemma {:induction false} StoredWhole(turns: seq<Turn>)
    ensures Normalized(turns) == turns <==> forall t | t in turns :: t.text != ""
    ensures forall t :: t in Normalized(turns) <==> t in turns && t.text != ""
    ensures |Normalized(turns)| <= |turns|
  {
    if turns != [] {
      StoredWhole(turns[1..]);
      assert turns == [turns[0]] + turns[1..];
    }
  }

  /** Turns are stored in the order they were said: of two parts of a conversation, those of the first,
      then those of the second. */
  lemma {:induction false} StoredInOrder(a: seq<Turn>, b: seq<Turn>)
    ensures Normalized(a + b) == Normalized(a) + Normalized(b)
  {
    if a == [] {
      assert a + b == b;
    } else {
      assert (a + b)[1..] == a[1..] + b;
      StoredInOrder(a[1..], b);
      assert Normalized(a + b)
          == (if a[0].text != "" then [a[0]] else []) + (Normalized(a[1..]) + Normalized(b));
    }
  }

  // What the key `session/<id>` holds: a record, or a tombstone or junk.
  datatype Cell = Rec(info: Info, turns: seq<Turn>) | Unusable

  // The namespace as one `MemoryList` answers it.
  datatype Space = Space(index: seq<Info>, records: seq<Cell>, legacy: seq<Turn>)

  function Ids(index: seq<Info>): set<Id> {
    if index == [] then {} else {index[0].id} + Ids(index[1..])
  }

  function Without(index: seq<Info>, id: Id): seq<Info> {
    if index == [] then []
    else if index[0].id == id then Without(index[1..], id) else [index[0]] + Without(index[1..], id)
  }

  // `upsertIndex`.
  function Upsert(index: seq<Info>, entry: Info): seq<Info> {
    [entry] + Without(index, entry.id)
  }

  // The entries whose id is not among `seen`.
  function Unseen(index: seq<Info>, seen: set<Id>): seq<Info> {
    if index == [] then []
    else if index[0].id in seen then Unseen(index[1..], seen) else [index[0]] + Unseen(index[1..], seen)
  }

  function Insert(e: Info, sorted: seq<Info>): seq<Info> {
    if sorted == [] || e.updated >= sorted[0].updated then [e] + sorted else [sorted[0]] + Insert(e, sorted[1..])
  }

  // The stable sort, most recently active first.
  function ByActivity(index: seq<Info>): seq<Info> {
    if index == [] then [] else Insert(index[0], ByActivity(index[1..]))
  }

  // `mergeIndex`: `first` wins for any id it has.
  function Merge(first: seq<Info>, second: seq<Info>): seq<Info> {
    ByActivity(first + Unseen(second, Ids(first)))
  }

  function FromRecords(records: seq<Cell>): seq<Info> {
    ByActivity(Infos(records))
  }

  function Infos(records: seq<Cell>): seq<Info> {
    if records == [] then []
    else if records[0].Rec? then [records[0].info] + Infos(records[1..]) else Infos(records[1..])
  }

  // `restorePlan` of a read that succeeded, with what the window already holds.
  function Restored(space: Space, open: seq<Info>): seq<Info> {
    Merge(Merge(ByActivity(space.index), FromRecords(space.records)), open)
  }

  // The active mode's slice.
  function ForMode(index: seq<Info>, mode: Mode): seq<Info> {
    if index == [] then []
    else if index[0].mode == mode then [index[0]] + ForMode(index[1..], mode) else ForMode(index[1..], mode)
  }

  // `displayIndex`.
  function Rows(index: seq<Info>, current: Info): seq<Info> {
    if current.id in Ids(index) then index else [current] + index
  }

  // ------------------------------------------------------- what the transforms keep

  lemma IdsConcat(a: seq<Info>, b: seq<Info>)
    ensures Ids(a + b) == Ids(a) + Ids(b)
  {
    if a == [] { assert a + b == b; } else {
      assert (a + b)[1..] == a[1..] + b;
      IdsConcat(a[1..], b);
    }
  }

  lemma {:induction false} IdsWithout(index: seq<Info>, id: Id)
    ensures Ids(Without(index, id)) == Ids(index) - {id}
  {
    if index != [] {
      IdsWithout(index[1..], id);
      IdsConcat([index[0]], Without(index[1..], id));
    }
  }

  /** What is taken out of a listing leaves the other entries as they were and where they were: taking an
      id out, what another listing has seen, or another mode, works part by part and entry by entry. */
  lemma {:induction false} ListingParts(a: seq<Info>, b: seq<Info>, id: Id, seen: set<Id>, mode: Mode)
    ensures Without(a + b, id) == Without(a, id) + Without(b, id)
    ensures Unseen(a + b, seen) == Unseen(a, seen) + Unseen(b, seen)
    ensures ForMode(a + b, mode) == ForMode(a, mode) + ForMode(b, mode)
  {
    if a == [] {
      assert a + b == b;
    } else {
      assert (a + b)[1..] == a[1..] + b;
      ListingParts(a[1..], b, id, seen, mode);
    }
  }

  lemma ListingOne(e: Info, id: Id, seen: set<Id>, mode: Mode)
    ensures Without([e], id) == if e.id == id then [] else [e]
    ensures Unseen([e], seen) == if e.id in seen then [] else [e]
    ensures ForMode([e], mode) == if e.mode == mode then [e] else []
  {}

  // The entries of one moment, in the order they are listed.
  function At(index: seq<Info>, updated: int): seq<Info> {
    if index == [] then [] else (if index[0].updated == updated then [index[0]] else []) + At(index[1..], updated)
  }

  lemma {:induction false} InsertStable(e: Info, sorted: seq<Info>, updated: int)
    ensures At(Insert(e, sorted), updated) == At([e] + sorted, updated)
  {
    assert ([e] + sorted)[1..] == sorted;
    if sorted != [] && e.updated < sorted[0].updated {
      InsertStable(e, sorted[1..], updated);
      var rest := Insert(e, sorted[1..]);
      assert ([sorted[0]] + rest)[1..] == rest && ([e] + sorted[1..])[1..] == sorted[1..];
    }
  }

  /** The sort by activity is stable: entries of one moment stay in the order they are listed. */
  lemma {:induction false} ByActivityStable(index: seq<Info>, updated: int)
    ensures At(ByActivity(index), updated) == At(index, updated)
  {
    if index != [] {
      ByActivityStable(index[1..], updated);
      InsertStable(index[0], ByActivity(index[1..]), updated);
      assert ([index[0]] + ByActivity(index[1..]))[1..] == ByActivity(index[1..]);
    }
  }

  lemma IdsUpsert(index: seq<Info>, entry: Info)
    ensures Ids(Upsert(index, entry)) == Ids(index) + {entry.id}
  {
    IdsWithout(index, entry.id);
    IdsConcat([entry], Without(index, entry.id));
  }

  lemma {:induction false} IdsUnseen(index: seq<Info>, seen: set<Id>)
    ensures Ids(Unseen(index, seen)) == Ids(index) - seen
  {
    if index != [] {
      IdsUnseen(index[1..], seen);
      IdsConcat([index[0]], Unseen(index[1..], seen));
    }
  }

  lemma {:induction false} IdsInsert(e: Info, sorted: seq<Info>)
    ensures Ids(Insert(e, sorted)) == Ids(sorted) + {e.id}
  {
    if sorted == [] || e.updated >= sorted[0].updated {
      IdsConcat([e], sorted);
    } else {
      IdsInsert(e, sorted[1..]);
      IdsConcat([sorted[0]], Insert(e, sorted[1..]));
    }
  }

  lemma {:induction false} IdsByActivity(index: seq<Info>)
    ensures Ids(ByActivity(index)) == Ids(index)
  {
    if index != [] {
      IdsByActivity(index[1..]);
      IdsInsert(index[0], ByActivity(index[1..]));
    }
  }

  lemma IdsMerge(first: seq<Info>, second: seq<Info>)
    ensures Ids(Merge(first, second)) == Ids(first) + Ids(second)
  {
    IdsUnseen(second, Ids(first));
    IdsConcat(first, Unseen(second, Ids(first)));
    IdsByActivity(first + Unseen(second, Ids(first)));
  }

  /** A restore lists exactly what the stored index lists, what the readable records name and what the
      window already holds: nothing stored is dropped, nothing open either. */
  lemma RestoreLosesNothing(space: Space, open: seq<Info>)
    ensures Ids(Restored(space, open)) == Ids(space.index) + Ids(Infos(space.records)) + Ids(open)
  {
    IdsByActivity(space.index);
    IdsByActivity(Infos(space.records));
    IdsMerge(ByActivity(space.index), FromRecords(space.records));
    IdsMerge(Merge(ByActivity(space.index), FromRecords(space.records)), open);
  }

  ghost predicate Recent(index: seq<Info>) {
    |index| > 1 ==> index[0].updated >= index[1].updated && Recent(index[1..])
  }

  lemma {:induction false} InsertRecent(e: Info, sorted: seq<Info>)
    requires Recent(sorted)
    ensures Recent(Insert(e, sorted))
    ensures sorted != [] ==> Insert(e, sorted)[0] == e || Insert(e, sorted)[0] == sorted[0]
  {
    if sorted != [] {
      if e.updated >= sorted[0].updated {
        assert ([e] + sorted)[1..] == sorted;
      } else {
        InsertRecent(e, sorted[1..]);
        assert ([sorted[0]] + Insert(e, sorted[1..]))[1..] == Insert(e, sorted[1..]);
      }
    }
  }

  lemma {:induction false} ByActivityRecent(index: seq<Info>)
    ensures Recent(ByActivity(index))
  {
    if index != [] {
      ByActivityRecent(index[1..]);
      InsertRecent(index[0], ByActivity(index[1..]));
    }
  }

  lemma {:induction false} InsertKeeps(e: Info, sorted: seq<Info>)
    ensures multiset(Insert(e, sorted)) == multiset(sorted) + multiset{e}
  {
    if sorted != [] && e.updated < sorted[0].updated {
      InsertKeeps(e, sorted[1..]);
      assert sorted == [sorted[0]] + sorted[1..];
    }
  }

  lemma {:induction false} ByActivityKeeps(index: seq<Info>)
    ensures multiset(ByActivity(index)) == multiset(index)
  {
    if index != [] {
      ByActivityKeeps(index[1..]);
      InsertKeeps(index[0], ByActivity(index[1..]));
      assert index == [index[0]] + index[1..];
    }
  }

  lemma {:induction false} UnseenEntries(index: seq<Info>, seen: set<Id>, e: Info)
    ensures e in Unseen(index, seen) <==> e in index && e.id !in seen
  {
    if index != [] {
      UnseenEntries(index[1..], seen, e);
      assert index == [index[0]] + index[1..];
    }
  }

  /** A merge is in activity order and holds every entry of the first listing, and of the second
      exactly those whose id the first does not have. */
  lemma MergeEntries(first: seq<Info>, second: seq<Info>, e: Info)
    ensures Recent(Merge(first, second))
    ensures e in Merge(first, second) <==> e in first || (e in second && e.id !in Ids(first))
  {
    var all := first + Unseen(second, Ids(first));
    ByActivityRecent(all);
    ByActivityKeeps(all);
    UnseenEntries(second, Ids(first), e);
    assert e in all <==> e in multiset(all);
    assert e in Merge(first, second) <==> e in multiset(Merge(first, second));
  }

  /** What the window holds open does not win over what is stored under the same id: a restore keeps
      the stored entry (an index entry over a record's) and drops the open one. */
  lemma StoredEntryWins(space: Space, open: seq<Info>, e: Info)
    requires e.id in Ids(space.index) + Ids(Infos(space.records))
    ensures e in Restored(space, open) <==> e in space.index || (e in Infos(space.records) && e.id !in Ids(space.index))
  {
    var stored, recovered := ByActivity(space.index), FromRecords(space.records);
    IdsByActivity(space.index);
    IdsByActivity(Infos(space.records));
    IdsMerge(stored, recovered);
    MergeEntries(stored, recovered, e);
    MergeEntries(Merge(stored, recovered), open, e);
    ByActivityKeeps(space.index);
    ByActivityKeeps(Infos(space.records));
    assert e in space.index <==> e in multiset(space.index);
    assert e in stored <==> e in multiset(stored);
    assert e in Infos(space.records) <==> e in multiset(Infos(space.records));
    assert e in recovered <==> e in multiset(recovered);
  }

  lemma {:induction false} ForModeEntries(index: seq<Info>, mode: Mode, e: Info)
    ensures e in ForMode(index, mode) <==> e in index && e.mode == mode
  {
    if index != [] {
      ForModeEntries(index[1..], mode, e);
      assert index == [index[0]] + index[1..];
    }
  }

  lemma {:induction false} ListedId(index: seq<Info>, id: Id)
    requires id in Ids(index)
    ensures exists e :: e in index && e.id == id
  {
    if index[0].id == id { assert index[0] in index; } else {
      ListedId(index[1..], id);
      var e :| e in index[1..] && e.id == id;
      assert e in index;
    }
  }

  /** Every listed conversation has rows in exactly its own mode, and the open one, being in the active
      mode, is always among the active mode's rows. */
  lemma RowsShowOneMode(index: seq<Info>, mode: Mode, current: Info, e: Info)
    requires current.mode == mode
    ensures e in Rows(ForMode(index, mode), current) ==> e.mode == mode
    ensures e in index && e.mode == mode ==> e in Rows(ForMode(index, mode), current)
    ensures exists r :: r in Rows(ForMode(index, mode), current) && r.id == current.id
  {
    ForModeEntries(index, mode, e);
    var rows := Rows(ForMode(index, mode), current);
    if current.id in Ids(ForMode(index, mode)) { ListedId(rows, current.id); } else { assert current in rows; }
  }
}
