/** Voice sessions of shell/overlay-extension/extension.js: push-to-talk and hands-free listening
    share one session slot and one timer, and the recording service may finish, fail or be stopped
    in any order. */
module Voice {

  // A session id; 0 means "not recording".
  type Session = nat

  datatype State = State(
    talk: Session,              // `_talkSession`
    timer: Session,             // the session the running timer will end; 0 when none runs
    listening: bool,            // the "Listening…" indicator is up
    open: set<Session>,         // recordings the service was asked to start and not to end
    lost: set<Session>)         // recordings whose stop or cancel call raised, and may still run

  const START := State(0, 0, false, {}, {})

  datatype Event =
    | Talk(started: Session, stopOk: bool)   // the key or a double-tap; `started` is 0 when the service refuses
    | TimerFires(stopOk: bool)
    | Escape(cancelOk: bool)
    | Transcribed
    | VoiceFailed

  // `_stopTalking` and `_stopTalking_noSubmit`.
  function Stop(s: State, ok: bool): State {
    var idle := s.(talk := 0, timer := 0, listening := false);
    if s.talk == 0 then idle
    else idle.(open := s.open - {s.talk}, lost := if ok then s.lost else s.lost + {s.talk})
  }

  // The service hands out a session that is not, or may not be, recording already.
  ghost predicate Enabled(s: State, e: Event) {
    match e
    case Talk(started, _) => s.talk == 0 ==> started !in s.open + s.lost
    case TimerFires(_) => s.timer != 0
    case _ => true
  }

  function Step(s: State, e: Event): State {
    match e
    case Talk(started, stopOk) =>
      if s.talk != 0 then Stop(s, stopOk)
      else if started == 0 then s
      else s.(talk := started, timer := started, listening := true, open := s.open + {started})
    case TimerFires(stopOk) =>
      var fired := s.(timer := 0);
      if s.talk == s.timer then Stop(fired, stopOk) else fired
    case Escape(cancelOk) => if s.talk != 0 then Stop(s, cancelOk) else s
    case Transcribed => s.(listening := false)
    case VoiceFailed => s.(listening := false)
  }

  function RunAll(s: State, events: seq<Event>): State {
    if events == [] then s else Step(RunAll(s, events[..|events| - 1]), events[|events| - 1])
  }

  ghost predicate Possible(events: seq<Event>) {
    forall i | 0 <= i < |events| :: Enabled(RunAll(START, events[..i]), events[i])
  }

  class Extension {
    var talkSession: Session
    var handsFreeTimer: Session
    var listenOsd: bool
    ghost var open: set<Session>
    ghost var lost: set<Session>

    ghost function Now(): State
      reads this
    {
      State(talkSession, handsFreeTimer, listenOsd, open, lost)
    }

    constructor ()
      ensures Now() == START
    {
      talkSession, handsFreeTimer, listenOsd, open, lost := 0, 0, false, {}, {};
    }

    // `started` and `stopOk` are the service's answers.
    method StartTalking(started: Session, stopOk: bool)
      modifies this
      ensures Now() == Step(old(Now()), Talk(started, stopOk))
    {
      if talkSession != 0 {
        StopTalking(stopOk);
        return;
      }
      if started == 0 {
        return;
      }
      open := open + {started};
      talkSession := started;
      listenOsd := true;
      handsFreeTimer := started;
    }

    method StopTalking(ok: bool)
      modifies this
      ensures Now() == Stop(old(Now()), ok)
    {
      handsFreeTimer := 0;
      var id := talkSession;
      talkSession := 0;
      listenOsd := false;
      if id == 0 {
        return;
      }
      open := open - {id};
      if !ok {
        lost := lost + {id};
      }
    }

    method OnTimer(stopOk: bool)
      modifies this
      ensures Now() == Step(old(Now()), TimerFires(stopOk))
    {
      var id := handsFreeTimer;
      handsFreeTimer := 0;
      if talkSession == id {
        StopTalking(stopOk);
      }
    }

    method CancelListening(cancelOk: bool) returns (cancelled: bool)
      modifies this
      ensures Now() == Step(old(Now()), Escape(cancelOk))
      ensures cancelled <==> old(talkSession) != 0
    {
      if talkSession == 0 {
        return false;
      }
      StopTalking(cancelOk);
      return true;
    }

    method OnTranscribed()
      modifies this`listenOsd
      ensures Now() == Step(old(Now()), Transcribed)
    {
      listenOsd := false;
    }
  }

  // ------------------------------------------------------- every run

  ghost predicate Good(s: State) {
    s.timer == s.talk && s.open == (if s.talk == 0 then {} else {s.talk}) && (s.listening ==> s.talk != 0)
  }

  lemma {:induction false} RunGood(events: seq<Event>)
    requires Possible(events)
    ensures Good(RunAll(START, events))
  {
    if events != [] {
      var n := |events| - 1;
      assert forall i | 0 <= i < n :: events[..n][..i] == events[..i];
      RunGood(events[..n]);
      assert Enabled(RunAll(START, events[..n]), events[n]);
    }
  }

  // The recordings that may be running.
  function Recording(s: State): set<Session> {
    s.open + s.lost
  }

  // The event makes a stop or cancel call, and the call raises.
  predicate Raises(s: State, e: Event) {
    s.talk != 0
    && match e
       case Talk(_, stopOk) => !stopOk
       case TimerFires(stopOk) => s.talk == s.timer && !stopOk
       case Escape(cancelOk) => !cancelOk
       case _ => false
  }

  ghost predicate SomeCallRaised(events: seq<Event>) {
    exists i | 0 <= i < |events| :: RaisedAt(events, i)
  }

  ghost predicate RaisedAt(events: seq<Event>, i: nat)
    requires i < |events|
  {
    Raises(RunAll(START, events[..i]), events[i])
  }

  lemma LostStep(s: State, e: Event)
    requires Good(s) && Enabled(s, e) && 0 !in s.lost && s.talk !in s.lost
    ensures var t := Step(s, e);
            0 !in t.lost && t.talk !in t.lost && (t.lost == {} <==> s.lost == {} && !Raises(s, e))
  {
    if s.talk != 0 && Raises(s, e) { assert s.talk in Step(s, e).lost; }
  }

  lemma RaisedLast(events: seq<Event>)
    requires events != []
    ensures var n := |events| - 1;
            SomeCallRaised(events) <==> SomeCallRaised(events[..n]) || Raises(RunAll(START, events[..n]), events[n])
  {
    var n := |events| - 1;
    forall i | 0 <= i < n ensures RaisedAt(events[..n], i) <==> RaisedAt(events, i) { RaisedBefore(events, n, i); }
    assert RaisedAt(events, n) <==> Raises(RunAll(START, events[..n]), events[n]);
  }

  lemma RaisedBefore(events: seq<Event>, n: nat, i: nat)
    requires i < n <= |events|
    ensures RaisedAt(events[..n], i) <==> RaisedAt(events, i)
  {
    assert events[..n][..i] == events[..i];
  }

  lemma {:induction false} LostExactly(events: seq<Event>)
    requires Possible(events)
    ensures var s := RunAll(START, events);
            0 !in s.lost && s.talk !in s.lost && (s.lost == {} <==> !SomeCallRaised(events))
  {
    if events != [] {
      var n := |events| - 1;
      PossibleBefore(events);
      LostExactly(events[..n]);
      RunGood(events[..n]);
      LostStep(RunAll(START, events[..n]), events[n]);
      RaisedLast(events);
    }
  }

  lemma PossibleBefore(events: seq<Event>)
    requires Possible(events) && events != []
    ensures Possible(events[..|events| - 1]) && Enabled(RunAll(START, events[..|events| - 1]), events[|events| - 1])
  {
    var n := |events| - 1;
    assert forall i | 0 <= i < n :: events[..n][..i] == events[..i] && events[..n][i] == events[i];
  }

  /** An open microphone has a defined end, as far as the calls go through: at the end of every run,
      every recording that may be running is the one the running timer will stop, if and only if no stop
      or cancel call of the run raised. The handlers give up slot and timer before they make the call,
      and only log when it raises. */
  lemma OpenMicrophoneHasTimer(events: seq<Event>)
    requires Possible(events)
    ensures var s := RunAll(START, events);
            (forall id | id in Recording(s) :: id == s.talk == s.timer && id !in Recording(Step(s, TimerFires(true))))
            <==> !SomeCallRaised(events)
    ensures var s := RunAll(START, events); (s.talk != 0 <==> s.timer != 0) && (s.talk != 0 ==> s.talk in Recording(s))
  {
    var s := RunAll(START, events);
    RunGood(events);
    LostExactly(events);
    if id :| id in s.lost {
      assert id in Recording(s) && id != s.talk;
    }
  }

  /** The failing run: a recording is started, and the call that should stop it raises. The microphone
      may stay open with no timer, no slot naming it and no indicator. */
  lemma RaisedStopLeavesMicrophone(id: Session, other: Session)
    requires id != 0
    ensures var events := [Talk(id, true), Talk(other, false)]; var s := RunAll(START, events);
            Possible(events) && id in Recording(s) && s.timer == 0 && s.talk == 0 && !s.listening
  {
    var events := [Talk(id, true), Talk(other, false)];
    assert events[..1] == [Talk(id, true)] && events[..1][..0] == [] && events[..0] == [];
    assert RunAll(START, events[..1]) == Step(START, events[0]);
  }

  predicate Signal(e: Event) {
    e.Transcribed? || e.VoiceFailed?
  }

  // The slot before the first event and after each one.
  function Slots(events: seq<Event>): (r: seq<Session>)
    ensures |r| == |events| + 1 && r[|events|] == RunAll(START, events).talk
  {
    (if events == [] then [] else Slots(events[..|events| - 1])) + [RunAll(START, events).talk]
  }

  // From event `i` on, a recording has been open without a break.
  ghost predicate OpenSince(slots: seq<Session>, i: nat) {
    forall j | i <= j < |slots| :: slots[j] != 0
  }

  // A transcription or a failure came since the recording now open was opened.
  ghost predicate SignalSince(events: seq<Event>) {
    exists i | 0 <= i < |events| :: SignalAt(events, i)
  }

  ghost predicate SignalAt(events: seq<Event>, i: nat)
    requires i < |events|
  {
    Signal(events[i]) && OpenSince(Slots(events), i)
  }

  lemma OpenMore(slots: seq<Session>, last: Session, i: nat)
    requires i <= |slots|
    ensures OpenSince(slots + [last], i) <==> OpenSince(slots, i) && last != 0
  {
    assert (slots + [last])[|slots|] == last;
    assert forall j | 0 <= j < |slots| :: (slots + [last])[j] == slots[j];
  }

  lemma SignalBefore(events: seq<Event>, i: nat)
    requires i + 1 < |events| && RunAll(START, events).talk != 0
    ensures SignalAt(events, i) <==> SignalAt(events[..|events| - 1], i)
  {
    OpenMore(Slots(events[..|events| - 1]), RunAll(START, events).talk, i);
  }

  lemma SignalLast(events: seq<Event>)
    requires events != [] && RunAll(START, events).talk != 0
    ensures var n := |events| - 1; SignalAt(events, n) <==> Signal(events[n]) && RunAll(START, events[..n]).talk != 0
  {
    var n := |events| - 1;
    OpenMore(Slots(events[..n]), RunAll(START, events).talk, n);
    assert Slots(events[..n])[n] == RunAll(START, events[..n]).talk;
    assert OpenSince(Slots(events[..n]), n) <==> Slots(events[..n])[n] != 0;
  }

  lemma SignalMore(events: seq<Event>)
    requires events != [] && RunAll(START, events).talk != 0
    ensures var n := |events| - 1;
            SignalSince(events) <==>
              SignalSince(events[..n]) || (Signal(events[n]) && RunAll(START, events[..n]).talk != 0)
  {
    var n := |events| - 1;
    forall i | 0 <= i < n ensures SignalAt(events, i) <==> SignalAt(events[..n], i) { SignalBefore(events, i); }
    SignalLast(events);
  }

  // A closed recording has no signal during it.
  lemma SignalNeedsOpen(events: seq<Event>)
    requires RunAll(START, events).talk == 0
    ensures !SignalSince(events)
  {
    forall i | 0 <= i < |events| ensures !SignalAt(events, i) { assert Slots(events)[|events|] == 0; }
  }

  lemma {:induction false} ListeningExactly(events: seq<Event>)
    requires Possible(events)
    ensures var s := RunAll(START, events); s.talk != 0 ==> (s.listening <==> !SignalSince(events))
  {
    if events != [] {
      var n := |events| - 1;
      PossibleBefore(events);
      ListeningExactly(events[..n]);
      RunGood(events[..n]);
      if RunAll(START, events).talk != 0 {
        SignalMore(events);
        if RunAll(START, events[..n]).talk == 0 { SignalNeedsOpen(events[..n]); }
      }
    }
  }

  /** The indicator tells the truth, up exactly while a recording is open, at the end of a run if and
      only if nothing is recording or no signal came since the recording was opened. The handlers do not
      look at the session a signal is about. */
  lemma IndicatorFollowsExactly(events: seq<Event>)
    requires Possible(events)
    ensures var s := RunAll(START, events);
            (s.listening <==> s.talk != 0) <==> s.talk == 0 || !SignalSince(events)
  {
    RunGood(events);
    ListeningExactly(events);
  }

  /** The failing run: the transcription of one recording arrives during the next and takes down its
      indicator while the microphone is open. */
  lemma LateSignalHidesIndicator(first: Session, second: Session)
    requires first != 0 && second != 0
    ensures var events := [Talk(first, true), Talk(0, true), Talk(second, true), Transcribed];
            var s := RunAll(START, events);
            Possible(events) && s.talk == second && second in Recording(s) && !s.listening
  {
    var events := [Talk(first, true), Talk(0, true), Talk(second, true), Transcribed];
    assert events[..0] == [] && events[..1] == [events[0]] && events[..2] == [events[0], events[1]];
    assert events[..3][..2] == events[..2] && events[..2][..1] == events[..1] && events[..1][..0] == [];
    assert RunAll(START, events[..1]) == Step(START, events[0]);
    assert RunAll(START, events[..2]) == START;
    assert RunAll(START, events[..3]) == Step(START, events[2]);
  }
}
