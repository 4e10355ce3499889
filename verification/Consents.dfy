/** The consent queue of shell/overlay-extension/extension.js. Requests for confirmation arrive,
    clicks answer the one on screen, `Finished` signals and failed replies drop requests by query id,
    in any order and with repeated ids. */
module Consents {
  import opened Common

  // One request: its place among all arrivals, and the query it belongs to.
  datatype Consent = Consent(serial: nat, queryId: int)

  datatype Response = Response(serial: nat, queryId: int, approve: bool)

  datatype State = State(
    consents: seq<Consent>,          // the queue, oldest first
    shown: Option<Consent>,          // what the box shows; None when hidden
    reactive: bool,                  // whether its buttons take clicks
    arrived: seq<int>,               // the query id of every request so far
    responded: seq<Response>)        // every Respond call so far

  const START := State([], None, false, [], [])

  datatype Event =
    | Arrive(queryId: int)           // ConfirmationNeeded
    | Click(approve: bool)           // Allow or Deny
    | Finished(queryId: int)
    | RespondFailed(queryId: int)    // the reply to an earlier Respond was an error

  function Render(s: State): State {
    if s.consents == [] then s.(shown := None)
    else s.(shown := Some(s.consents[0]), reactive := true)
  }

  function Others(cs: seq<Consent>, queryId: int): (r: seq<Consent>)
    ensures forall c :: c in r <==> c in cs && c.queryId != queryId
    ensures |r| <= |cs| && (|r| == |cs| ==> r == cs)
  {
    if cs == [] then []
    else (if cs[0].queryId == queryId then [] else [cs[0]]) + Others(cs[1..], queryId)
  }

  function FrontId(cs: seq<Consent>): Option<int> {
    if cs == [] then None else Some(cs[0].queryId)
  }

  // Dropping compares query ids to decide whether the front changed.
  function Drop(s: State, queryId: int): State {
    var left := Others(s.consents, queryId);
    if |left| == |s.consents| then s
    else if FrontId(s.consents) != FrontId(left) then Render(s.(consents := left))
    else s.(consents := left)
  }

  function Step(s: State, e: Event): State {
    match e
    case Arrive(queryId) =>
      var next := s.(consents := s.consents + [Consent(|s.arrived|, queryId)], arrived := s.arrived + [queryId]);
      if |next.consents| == 1 then Render(next) else next
    case Click(approve) =>
      if !s.reactive || s.consents == [] then s
      else
        var front := s.consents[0];
        s.(reactive := false, responded := s.responded + [Response(front.serial, front.queryId, approve)])
    case Finished(queryId) => Drop(s, queryId)
    case RespondFailed(queryId) => Drop(s, queryId)
  }

  function RunAll(s: State, events: seq<Event>): State {
    if events == [] then s else Step(RunAll(s, events[..|events| - 1]), events[|events| - 1])
  }

  // The widget: the same steps, field by field.
  class OverlayWidget {
    var consents: seq<Consent>
    var shown: Option<Consent>
    var reactive: bool
    ghost var arrived: seq<int>
    ghost var responded: seq<Response>
    var count: nat

    ghost predicate Valid()
      reads this
    {
      count == |arrived|
    }

    ghost function Now(): State
      reads this
    {
      State(consents, shown, reactive, arrived, responded)
    }

    constructor ()
      ensures Valid() && Now() == START
    {
      consents, shown, reactive, arrived, responded, count := [], None, false, [], [], 0;
    }

    method RenderConsent()
      modifies this`shown, this`reactive
      ensures Now() == Render(old(Now()))
    {
      if consents == [] {
        shown := None;
        return;
      }
      shown := Some(consents[0]);
      reactive := true;
    }

    method OnConfirmationNeeded(queryId: int)
      requires Valid()
      modifies this
      ensures Valid() && Now() == Step(old(Now()), Arrive(queryId))
    {
      consents := consents + [Consent(count, queryId)];
      arrived := arrived + [queryId];
      count := count + 1;
      if |consents| == 1 {
        RenderConsent();
      }
    }

    method AnswerConsent(approve: bool)
      requires Valid()
      modifies this`reactive, this`responded
      ensures Valid() && Now() == Step(old(Now()), Click(approve))
    {
      if !reactive || consents == [] {
        return;
      }
      reactive := false;
      responded := responded + [Response(consents[0].serial, consents[0].queryId, approve)];
    }

    method DropConsents(queryId: int)
      requires Valid()
      modifies this`consents, this`shown, this`reactive
      ensures Valid() && Now() == Drop(old(Now()), queryId)
    {
      var front := FrontId(consents);
      var left := KeepOthers(consents, queryId);
      if |left| == |consents| {
        return;
      }
      consents := left;
      if front != FrontId(consents) {
        RenderConsent();
      }
    }
  }

  method KeepOthers(cs: seq<Consent>, queryId: int) returns (left: seq<Consent>)
    ensures left == Others(cs, queryId)
  {
    left := [];
    for i := 0 to |cs|
      invariant Others(cs, queryId) == left + Others(cs[i..], queryId)
    {
      OthersStep(cs, i, queryId, left);
      if cs[i].queryId != queryId {
        left := left + [cs[i]];
      }
    }
  }

  lemma OthersStep(cs: seq<Consent>, i: nat, queryId: int, left: seq<Consent>)
    requires i < |cs|
    ensures left + Others(cs[i..], queryId)
         == (if cs[i].queryId == queryId then left else left + [cs[i]]) + Others(cs[i + 1..], queryId)
  {
    assert cs[i..][0] == cs[i] && cs[i..][1..] == cs[i + 1..];
    var rest := Others(cs[i + 1..], queryId);
    assert left + ([cs[i]] + rest) == left + [cs[i]] + rest;
    assert left + ([] + rest) == left + rest;
  }

  // ------------------------------------------------------- every run

  ghost predicate Increasing(rs: seq<Response>) {
    forall i, j | 0 <= i < j < |rs| :: rs[i].serial < rs[j].serial
  }

  ghost predicate Queued(s: State) {
    (forall i | 0 <= i < |s.consents| ::
       s.consents[i].serial < |s.arrived| && s.arrived[s.consents[i].serial] == s.consents[i].queryId)
    && (forall i, j | 0 <= i < j < |s.consents| :: s.consents[i].serial < s.consents[j].serial)
  }

  // No response is newer than the front of the queue.
  ghost predicate Behind(s: State) {
    forall i | 0 <= i < |s.responded| ::
      s.responded[i].serial < |s.arrived| && s.arrived[s.responded[i].serial] == s.responded[i].queryId
      && (s.consents != [] ==> s.responded[i].serial <= s.consents[0].serial)
  }

  predicate Answered(s: State, serial: nat) {
    exists i | 0 <= i < |s.responded| :: s.responded[i].serial == serial
  }

  // The box shows the front of the queue, and takes clicks exactly while it is unanswered.
  ghost predicate Faithful(s: State) {
    if s.consents == [] then s.shown.None?
    else s.shown == Some(s.consents[0]) && (s.reactive <==> !Answered(s, s.consents[0].serial))
  }

  ghost predicate Good(s: State) {
    Queued(s) && Behind(s) && Faithful(s) && Increasing(s.responded)
  }

  ghost predicate Rising(cs: seq<Consent>) {
    forall i, j | 0 <= i < j < |cs| :: cs[i].serial < cs[j].serial
  }

  // What stands behind the first keeps a later serial.
  lemma OthersLater(cs: seq<Consent>, queryId: int, i: nat)
    requires cs != [] && Rising(cs) && i < |Others(cs[1..], queryId)|
    ensures cs[0].serial < Others(cs[1..], queryId)[i].serial
  {
    var c := Others(cs[1..], queryId)[i];
    assert c in cs[1..];
    var k :| 0 <= k < |cs| - 1 && cs[1..][k] == c;
    assert cs[k + 1] == c;
  }

  lemma RisingCons(c: Consent, cs: seq<Consent>)
    requires Rising(cs) && forall i | 0 <= i < |cs| :: c.serial < cs[i].serial
    ensures Rising([c] + cs)
  {}

  lemma {:induction false} OthersRise(cs: seq<Consent>, queryId: int)
    requires Rising(cs)
    ensures Rising(Others(cs, queryId))
  {
    if cs != [] {
      var r := Others(cs[1..], queryId);
      OthersRise(cs[1..], queryId);
      forall i | 0 <= i < |r| ensures cs[0].serial < r[i].serial { OthersLater(cs, queryId, i); }
      RisingCons(cs[0], r);
      assert [] + r == r;
    }
  }

  lemma OthersIncreasing(cs: seq<Consent>, queryId: int)
    requires Rising(cs)
    ensures Rising(Others(cs, queryId))
    ensures var r := Others(cs, queryId); r != [] ==> cs[0].serial <= r[0].serial
    ensures var r := Others(cs, queryId); r != [] && cs[0].queryId == queryId ==> cs[0].serial < r[0].serial
    ensures cs != [] && cs[0].queryId != queryId ==> Others(cs, queryId) != [] && Others(cs, queryId)[0] == cs[0]
  {
    OthersRise(cs, queryId);
    if cs != [] && cs[0].queryId == queryId && Others(cs, queryId) != [] {
      assert [] + Others(cs[1..], queryId) == Others(cs, queryId);
      OthersLater(cs, queryId, 0);
    }
  }

  // Dropping requests keeps the queue sound and its responses behind it.
  lemma LeftQueued(s: State, queryId: int)
    requires Queued(s) && Behind(s)
    ensures Queued(s.(consents := Others(s.consents, queryId))) && Behind(s.(consents := Others(s.consents, queryId)))
  {
    var left := Others(s.consents, queryId);
    OthersIncreasing(s.consents, queryId);
    forall i | 0 <= i < |left|
      ensures left[i].serial < |s.arrived| && s.arrived[left[i].serial] == left[i].queryId
    {
      assert left[i] in s.consents;
    }
  }

  // A new front has not been answered yet.
  lemma NewFrontUnanswered(s: State, queryId: int)
    requires Queued(s) && Behind(s) && s.consents != [] && s.consents[0].queryId == queryId
    ensures var left := Others(s.consents, queryId); left != [] ==> !Answered(s, left[0].serial)
  {
    OthersIncreasing(s.consents, queryId);
  }

  lemma RenderGood(s: State)
    requires Queued(s) && Behind(s) && Increasing(s.responded)
    requires s.consents != [] ==> !Answered(s, s.consents[0].serial)
    ensures Good(Render(s))
  {}

  // Nothing is rendered while the front stays.
  lemma SameFrontGood(s: State, left: seq<Consent>)
    requires Good(s) && s.consents != [] && left != [] && left[0] == s.consents[0]
    requires Queued(s.(consents := left)) && Behind(s.(consents := left))
    ensures Good(s.(consents := left))
  {}

  lemma DropIs(s: State, queryId: int)
    requires |Others(s.consents, queryId)| != |s.consents|
    ensures var left := Others(s.consents, queryId);
            Drop(s, queryId) == if s.consents[0].queryId == queryId then Render(s.(consents := left))
                else s.(consents := left)
    ensures s.consents[0].queryId != queryId
            ==> Others(s.consents, queryId) != [] && Others(s.consents, queryId)[0] == s.consents[0]
  {
    var left := Others(s.consents, queryId);
    if left != [] { assert left[0] in left; }
  }

  lemma DropGood(s: State, queryId: int)
    requires Good(s)
    ensures Good(Drop(s, queryId))
  {
    var left := Others(s.consents, queryId);
    if |left| != |s.consents| {
      DropIs(s, queryId);
      LeftQueued(s, queryId);
      if s.consents[0].queryId == queryId {
        NewFrontUnanswered(s, queryId);
        RenderGood(s.(consents := left));
      } else {
        SameFrontGood(s, left);
      }
    }
  }

  lemma StepGood(s: State, e: Event)
    requires Good(s)
    ensures Good(Step(s, e))
  {
    match e
    case Finished(queryId) => DropGood(s, queryId);
    case RespondFailed(queryId) => DropGood(s, queryId);
    case Arrive(queryId) =>
      var t := Step(s, e);
      if s.consents == [] {
        assert !Answered(t, |s.arrived|);
      } else {
        assert t.consents[0] == s.consents[0];
      }
    case Click(approve) =>
      if s.reactive && s.consents != [] {
        var t := Step(s, e);
        assert t.responded[|s.responded|].serial == s.consents[0].serial;
        forall i | 0 <= i < |s.responded| ensures s.responded[i].serial < s.consents[0].serial {
          assert !Answered(s, s.consents[0].serial);
        }
      }
  }

  /** Over every run: the box shows the head of the queue and is hidden exactly when the queue is
      empty; responses go out in arrival order, so each arrival is answered at most once, and each
      carries its own arrival's query id; the buttons take clicks exactly while the head is
      unanswered, so no queue gets stuck behind a dead box. */
  lemma {:induction false} EveryRun(events: seq<Event>)
    ensures var s := RunAll(START, events);
            (s.shown.None? <==> s.consents == []) && (s.consents != [] ==> s.shown == Some(s.consents[0]))
            && Increasing(s.responded)
            && (forall i | 0 <= i < |s.responded| ::
                  s.responded[i].serial < |s.arrived| && s.arrived[s.responded[i].serial] == s.responded[i].queryId)
            && (s.consents != [] ==> (s.reactive <==> !Answered(s, s.consents[0].serial)))
  {
    RunGood(events);
  }

  lemma {:induction false} RunGood(events: seq<Event>)
    ensures Good(RunAll(START, events))
  {
    if events != [] {
      RunGood(events[..|events| - 1]);
      StepGood(RunAll(START, events[..|events| - 1]), events[|events| - 1]);
    }
  }

  /** A response is sent only for the request on screen at that moment. */
  lemma RespondsOnlyShown(events: seq<Event>, e: Event)
    ensures var s := RunAll(START, events); var t := Step(s, e);
            t.responded != s.responded ==>
              e.Click? && s.shown.Some? && s.reactive
              && t.responded == s.responded + [Response(s.shown.value.serial, s.shown.value.queryId, e.approve)]
  {
    RunGood(events);
  }

  /** And every click on live buttons sends one: the response for the request on screen, after which the
      buttons are blocked; a click on a hidden box or blocked buttons does nothing. */
  lemma ClickAnswers(events: seq<Event>, approve: bool)
    ensures var s := RunAll(START, events); var t := RunAll(START, events + [Click(approve)]);
            if s.shown.Some? && s.reactive then
              t == s.(reactive := false,
                      responded := s.responded + [Response(s.shown.value.serial, s.shown.value.queryId, approve)])
            else t == s
  {
    assert (events + [Click(approve)])[..|events|] == events;
    RunGood(events);
  }

  // Arrival number `serial` is waiting: it came in, and nothing has finished or failed its query since.
  ghost predicate Waiting(events: seq<Event>, serial: nat) {
    events != []
    && var before, e := events[..|events| - 1], events[|events| - 1];
    var arrived := RunAll(START, before).arrived;
    match e
    case Arrive(_) => Waiting(before, serial) || serial == |arrived|
    case Click(_) => Waiting(before, serial)
    case Finished(queryId) => Waiting(before, serial) && serial < |arrived| && arrived[serial] != queryId
    case RespondFailed(queryId) => Waiting(before, serial) && serial < |arrived| && arrived[serial] != queryId
  }

  ghost predicate InQueue(s: State, serial: nat) {
    exists c | c in s.consents :: c.serial == serial
  }

  lemma DropKeeps(s: State, queryId: int, serial: nat)
    requires Good(s)
    ensures InQueue(Drop(s, queryId), serial)
       <==> InQueue(s, serial) && serial < |s.arrived| && s.arrived[serial] != queryId
  {
    var left := Others(s.consents, queryId);
    assert Drop(s, queryId).consents == left;
    if c :| c in s.consents && c.serial == serial {
      var i :| 0 <= i < |s.consents| && s.consents[i] == c;
      if c.queryId != queryId { assert c in left; }
    }
    if c :| c in left && c.serial == serial {
      var i :| 0 <= i < |s.consents| && s.consents[i] == c;
    }
  }

  lemma ArriveJoins(s: State, queryId: int, serial: nat)
    ensures InQueue(Step(s, Arrive(queryId)), serial) <==> InQueue(s, serial) || serial == |s.arrived|
  {
    var t := Step(s, Arrive(queryId));
    assert t.consents == s.consents + [Consent(|s.arrived|, queryId)];
    assert Consent(|s.arrived|, queryId) in t.consents;
  }

  /** No request is lost and none overstays: in every run the queue holds exactly the arrivals whose query
      has not finished or failed since. */
  lemma {:induction false} QueueExactly(events: seq<Event>, serial: nat)
    ensures InQueue(RunAll(START, events), serial) <==> Waiting(events, serial)
  {
    if events != [] {
      var before := RunAll(START, events[..|events| - 1]);
      QueueExactly(events[..|events| - 1], serial);
      RunGood(events[..|events| - 1]);
      match events[|events| - 1]
      case Arrive(queryId) => ArriveJoins(before, queryId, serial);
      case Finished(queryId) => DropKeeps(before, queryId, serial);
      case RespondFailed(queryId) => DropKeeps(before, queryId, serial);
      case Click(_) =>
    }
  }

  /** Whatever was dropped or repeated before, a run that ends with an empty queue followed by a new
      request shows that request, ready to be answered. */
  lemma NewRequestAnswerable(events: seq<Event>, queryId: int)
    requires RunAll(START, events).consents == []
    ensures var t := Step(RunAll(START, events), Arrive(queryId));
            t.shown == Some(Consent(|RunAll(START, events).arrived|, queryId)) && t.reactive
  {
    RunGood(events);
  }
}
