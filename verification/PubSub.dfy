/**
 The subscriber's life: a supervisor thread and a caller of `stop()` share three fields without a
 lock.  Every read and every write of a shared field is a step of its own; the two threads
 interleave arbitrarily, and every call into the broker may succeed or fail.
 */
module PubSub {
  import opened Wrappers

  const BACKOFF_MIN := 1
  const BACKOFF_MAX := 30

  type Handle = nat

  /** Where the supervisor thread is. */
  datatype SupervisorAt =
    | LoopHead                           // while not stop_event.is_set()
    | CheckConnected                     // if not self._connected
    | TrySubscribe                       // is_valkey_disabled, pubsub(), subscribe()
    | Install(h: Handle)                 // self._pubsub = pubsub
    | SetConnected                       // self._connected = True; backoff reset
    | Wait                               // stop_event.wait(backoff)
    | MessageHead                        // while not stop_event.is_set()
    | GetMessage                         // self._pubsub.get_message(..)
    | Dispatch                           // self.dispatch(message)
    | ClearConnected                     // self._connected = False
    | CheckPubsub                        // if self._pubsub is not None
    | LoadPubsub                         // self._pubsub of self._pubsub.close()
    | ClosePubsub(target: Option<Handle>)  // .close(), an error on None is swallowed
    | ClearPubsub                        // self._pubsub = None
    | SupervisorDone

  /** Where the caller of stop() is. */
  datatype StopAt =
    | SetEvent
    | StopClearConnected
    | StopCheckPubsub
    | StopLoadPubsub
    | StopClosePubsub(target: Option<Handle>)
    | StopClearPubsub
    | StopDone

  datatype State = State(
    event: bool,
    connected: bool,
    pubsub: Option<Handle>,
    supervisor: SupervisorAt,
    stop: StopAt,
    backoff: nat,
    // history, read by no step
    created: nat,
    installed: set<Handle>,
    closed: set<Handle>,
    failures: nat,
    lateDispatches: nat)

  /** A scheduled step: who moves, and how the call it makes turns out. */
  datatype Move =
    | Supervisor(success: bool, message: bool)
    | Stop

  /** After start(): without a broker configured no supervisor thread is created. */
  function Started(disabled: bool): State {
    State(false, false, None, if disabled then SupervisorDone else LoopHead, SetEvent, BACKOFF_MIN, 0, {}, {}, 0, 0)
  }

  function DoubledBackoff(b: nat): nat {
    if b * 2 < BACKOFF_MAX then b * 2 else BACKOFF_MAX
  }

  function Close(closed: set<Handle>, target: Option<Handle>): set<Handle> {
    match target case None => closed case Some(h) => closed + {h}
  }

  function SupervisorStep(s: State, success: bool, message: bool): State {
    match s.supervisor
    case LoopHead =>
      s.(supervisor := if s.event then SupervisorDone else CheckConnected)
    case CheckConnected =>
      s.(supervisor := if s.connected then MessageHead else TrySubscribe)
    case TrySubscribe =>
      if success then s.(supervisor := Install(s.created), created := s.created + 1)
      else s.(supervisor := Wait, failures := s.failures + 1)
    case Install(h) =>
      s.(supervisor := SetConnected, pubsub := Some(h), installed := s.installed + {h})
    case SetConnected =>
      s.(supervisor := MessageHead, connected := true, backoff := BACKOFF_MIN, failures := 0)
    case Wait =>
      // the wait returns early once the event is set; otherwise it times out
      if s.event then s.(supervisor := SupervisorDone)
      else s.(supervisor := LoopHead, backoff := DoubledBackoff(s.backoff))
    case MessageHead =>
      s.(supervisor := if s.event then ClearConnected else GetMessage)
    case GetMessage =>
      // on None the attribute access fails; the error is swallowed like a broker error
      if s.pubsub.None? || !success then s.(supervisor := ClearConnected)
      else s.(supervisor := if message then Dispatch else MessageHead)
    case Dispatch =>
      s.(supervisor := MessageHead, lateDispatches := s.lateDispatches + if s.event then 1 else 0)
    case ClearConnected =>
      s.(supervisor := CheckPubsub, connected := false)
    case CheckPubsub =>
      s.(supervisor := if s.pubsub.Some? then LoadPubsub else LoopHead)
    case LoadPubsub =>
      s.(supervisor := ClosePubsub(s.pubsub))
    case ClosePubsub(target) =>
      s.(supervisor := ClearPubsub, closed := Close(s.closed, target))
    case ClearPubsub =>
      s.(supervisor := LoopHead, pubsub := None)
    case SupervisorDone => s
  }

  function StopStep(s: State): State {
    match s.stop
    case SetEvent => s.(stop := StopClearConnected, event := true)
    case StopClearConnected => s.(stop := StopCheckPubsub, connected := false)
    case StopCheckPubsub => s.(stop := if s.pubsub.Some? then StopLoadPubsub else StopDone)
    case StopLoadPubsub => s.(stop := StopClosePubsub(s.pubsub))
    case StopClosePubsub(target) => s.(stop := StopClearPubsub, closed := Close(s.closed, target))
    case StopClearPubsub => s.(stop := StopDone, pubsub := None)
    case StopDone => s
  }

  function Step(s: State, m: Move): State {
    match m
    case Supervisor(success, message) => SupervisorStep(s, success, message)
    case Stop => StopStep(s)
  }

  function Run(s: State, moves: seq<Move>): State
    decreases |moves|
  {
    if moves == [] then s else Run(Step(s, moves[0]), moves[1..])
  }

  // ---------------------------------------------------------------------------------------------
  // The invariant
  // ---------------------------------------------------------------------------------------------

  /** The supervisor is between installing a handle and clearing the field. */
  predicate Holding(at: SupervisorAt) {
    at.SetConnected? || at.MessageHead? || at.GetMessage? || at.Dispatch? || at.ClearConnected? || at.CheckPubsub?
    || at.LoadPubsub? || at.ClosePubsub? || at.ClearPubsub?
  }

  /** The supervisor may still subscribe without looking at the event again. */
  predicate Subscribing(at: SupervisorAt) {
    at.CheckConnected? || at.TrySubscribe? || at.Install?
  }

  predicate StopClosing(at: StopAt) {
    at.StopLoadPubsub? || at.StopClosePubsub? || at.StopClearPubsub?
  }

  /** Someone has picked the handle up in order to close it. */
  predicate BeingClosed(s: State, h: Handle) {
    s.supervisor == ClosePubsub(Some(h)) || s.stop == StopClosePubsub(Some(h))
  }

  function Power2(k: nat): nat { if k == 0 then 1 else 2 * Power2(k - 1) }

  function ExpectedBackoff(failures: nat): nat {
    if Power2(failures) < 30 then Power2(failures) else 30
  }

  /** Failures already counted but not yet waited out. */
  function Pending(at: SupervisorAt): nat { if at.Wait? then 1 else 0 }

  /** Every installed handle is closed, still in the field, or about to be closed. */
  ghost predicate HandlesTracked(s: State) {
    && (forall h | h in s.installed :: h < s.created && (h in s.closed || s.pubsub == Some(h) || BeingClosed(s, h)))
    && (s.supervisor.Install? ==> s.supervisor.h < s.created && s.supervisor.h !in s.installed)
  }

  /** A field about to be cleared holds no open handle. */
  ghost predicate FieldSafe(s: State) {
    && (s.pubsub.Some? ==> Holding(s.supervisor))
    && (s.supervisor.ClearPubsub? && s.pubsub.Some? ==> s.pubsub.value in s.closed)
    && (s.stop.StopClearPubsub? && s.pubsub.Some? ==> s.pubsub.value in s.closed || BeingClosed(s, s.pubsub.value))
    && (s.supervisor.ClosePubsub? && s.pubsub.Some? ==> s.supervisor.target == s.pubsub)
    && (s.stop.StopClosePubsub? && s.pubsub.Some? ==> s.stop.target == s.pubsub)
  }

  ghost predicate HandlesSafe(s: State) { HandlesTracked(s) && FieldSafe(s) }

  /** The supervisor is between SetConnected and ClearConnected. */
  predicate Listening(at: SupervisorAt) {
    at.MessageHead? || at.GetMessage? || at.Dispatch? || at.ClearConnected?
  }

  ghost predicate ControlSafe(s: State) {
    && (s.event <==> !s.stop.SetEvent?)
    && (StopClosing(s.stop) ==> !Subscribing(s.supervisor))
    && (s.connected ==> Listening(s.supervisor))
    && (!s.event && Listening(s.supervisor) ==> s.connected)
    && (!s.event && (Listening(s.supervisor) || s.supervisor.SetConnected?) ==> s.pubsub.Some?)
    && (s.supervisor.SupervisorDone? ==> s.pubsub.None?)
  }

  /** From here no message is read before the event is looked at again. */
  predicate PastDispatch(at: SupervisorAt) {
    at.MessageHead? || at.ClearConnected? || at.CheckPubsub? || at.LoadPubsub? || at.ClosePubsub?
    || at.ClearPubsub? || at.LoopHead? || at.SupervisorDone?
  }

  ghost predicate DispatchSafe(s: State) {
    && s.lateDispatches <= 1
    && (s.lateDispatches == 1 ==> s.event && PastDispatch(s.supervisor))
  }

  ghost predicate BackoffSafe(s: State) {
    && Pending(s.supervisor) <= s.failures
    && (!s.supervisor.SupervisorDone? ==> s.backoff == ExpectedBackoff(s.failures - Pending(s.supervisor)))
  }

  ghost predicate Inv(s: State) {
    HandlesSafe(s) && ControlSafe(s) && DispatchSafe(s) && BackoffSafe(s)
  }

  lemma StartedInv(disabled: bool)
    ensures Inv(Started(disabled))
  {
  }

  lemma DoubledBackoffIsNext(k: nat)
    ensures DoubledBackoff(ExpectedBackoff(k)) == ExpectedBackoff(k + 1)
  {
  }

  lemma SupervisorKeepsHandles(s: State, success: bool, message: bool)
    requires HandlesSafe(s) && ControlSafe(s)
    ensures HandlesSafe(SupervisorStep(s, success, message))
  {
    SupervisorKeepsField(s, success, message);
    SupervisorKeepsTrack(s, success, message);
  }

  lemma SupervisorKeepsField(s: State, success: bool, message: bool)
    requires FieldSafe(s) && ControlSafe(s)
    ensures FieldSafe(SupervisorStep(s, success, message))
  {
  }

  lemma SupervisorKeepsTrack(s: State, success: bool, message: bool)
    requires HandlesSafe(s)
    ensures HandlesTracked(SupervisorStep(s, success, message))
  {
  }

  lemma SupervisorKeepsRest(s: State, success: bool, message: bool)
    requires HandlesSafe(s) && ControlSafe(s) && DispatchSafe(s)
    ensures ControlSafe(SupervisorStep(s, success, message)) && DispatchSafe(SupervisorStep(s, success, message))
  {
  }

  lemma SupervisorKeepsBackoff(s: State, success: bool, message: bool)
    requires BackoffSafe(s)
    ensures BackoffSafe(SupervisorStep(s, success, message))
  {
    if s.supervisor.Wait? { DoubledBackoffIsNext(s.failures - 1); }
  }

  lemma StopKeepsHandles(s: State)
    requires HandlesSafe(s) && ControlSafe(s)
    ensures HandlesSafe(StopStep(s))
  {
  }

  lemma StopKeepsRest(s: State)
    requires HandlesSafe(s) && ControlSafe(s) && DispatchSafe(s) && BackoffSafe(s)
    ensures ControlSafe(StopStep(s)) && DispatchSafe(StopStep(s)) && BackoffSafe(StopStep(s))
  {
  }

  lemma StopKeepsInv(s: State)
    requires Inv(s)
    ensures Inv(StopStep(s))
  {
    StopKeepsHandles(s);
    StopKeepsRest(s);
  }

  lemma StepInv(s: State, m: Move)
    requires Inv(s)
    ensures Inv(Step(s, m))
  {
    match m
    case Supervisor(success, message) =>
      SupervisorKeepsHandles(s, success, message);
      SupervisorKeepsRest(s, success, message);
      SupervisorKeepsBackoff(s, success, message);
    case Stop =>
      StopKeepsInv(s);
  }

  lemma {:induction false} RunInv(s: State, moves: seq<Move>)
    requires Inv(s)
    ensures Inv(Run(s, moves))
    decreases |moves|
  {
    if moves == [] {
    } else {
      StepInv(s, moves[0]);
      RunInv(Step(s, moves[0]), moves[1..]);
    }
  }

  lemma {:induction false} RunConcat(s: State, a: seq<Move>, b: seq<Move>)
    ensures Run(s, a + b) == Run(Run(s, a), b)
    decreases |a|
  {
    if a == [] {
      assert a + b == b;
    } else {
      RunConcat(Step(s, a[0]), a[1..], b);
      assert (a + b)[1..] == a[1..] + b;
    }
  }

  lemma RunSnoc(s: State, moves: seq<Move>, m: Move)
    ensures Run(s, moves + [m]) == Step(Run(s, moves), m)
  {
    RunConcat(s, moves, [m]);
    var t := Run(s, moves);
    assert [m][1..] == [];
    assert Run(Step(t, m), []) == Step(t, m);
  }

  // ---------------------------------------------------------------------------------------------
  // What holds over every interleaving
  // ---------------------------------------------------------------------------------------------

  predicate Finished(s: State) { s.supervisor.SupervisorDone? && s.stop.StopDone? }

  /** Nothing is left open or marked as connected. */
  ghost predicate Clean(s: State) {
    s.installed <= s.closed && s.pubsub == None && !s.connected
  }

  /** How many attempts to subscribe failed since the last one that was completed, read off the moves. */
  ghost function Streak(disabled: bool, moves: seq<Move>): nat {
    if moves == [] then 0
    else
      var front, m := moves[..|moves| - 1], moves[|moves| - 1];
      var at := Run(Started(disabled), front).supervisor;
      if m.Stop? then Streak(disabled, front)
      else if at.TrySubscribe? && !m.success then Streak(disabled, front) + 1
      else if at.SetConnected? then 0
      else Streak(disabled, front)
  }

  lemma {:induction false} FailuresAreStreak(disabled: bool, moves: seq<Move>)
    ensures Run(Started(disabled), moves).failures == Streak(disabled, moves)
  {
    if moves == [] {
    } else {
      var front, m := moves[..|moves| - 1], moves[|moves| - 1];
      FailuresAreStreak(disabled, front);
      RunSnoc(Started(disabled), front, m);
      assert moves == front + [m];
    }
  }

  /** However stop() interleaves with the supervisor and whatever the broker does: once both are
      finished every installed handle has been closed and the fields are reset; at most one dispatch
      begins after the event was set; the backoff is 2^k capped at 30 after k failures in a row; and
      before the event the subscriber reports itself connected exactly while it listens. */
  lemma EveryRunIsSafe(disabled: bool, moves: seq<Move>)
    ensures var s := Run(Started(disabled), moves);
            && (Finished(s) ==> Clean(s))
            && s.lateDispatches <= 1
            && BackoffSafe(s) && s.failures == Streak(disabled, moves)
            && (!s.event ==> (s.connected <==> Listening(s.supervisor)))
            && (forall h | h in s.installed :: h in s.closed || s.pubsub == Some(h) || BeingClosed(s, h))
  {
    StartedInv(disabled);
    RunInv(Started(disabled), moves);
    FailuresAreStreak(disabled, moves);
  }

  // ---------------------------------------------------------------------------------------------
  // What the supervisor does while nobody stops it
  // ---------------------------------------------------------------------------------------------

  predicate AllSupervisor(moves: seq<Move>) { forall i | 0 <= i < |moves| :: moves[i].Supervisor? }

  /** From the start the supervisor goes straight to subscribing. */
  lemma Starts(moves: seq<Move>)
    requires AllSupervisor(moves) && |moves| == 2
    ensures Run(Started(false), moves) == Started(false).(supervisor := TrySubscribe)
  {
    var s := Started(false);
    RunTwo(s, moves);
  }

  lemma RunTwo(s: State, moves: seq<Move>)
    requires |moves| == 2
    ensures Run(s, moves) == Step(Step(s, moves[0]), moves[1])
  {
    assert moves[1..][0] == moves[1] && moves[1..][1..] == [];
    assert Run(Step(Step(s, moves[0]), moves[1]), []) == Step(Step(s, moves[0]), moves[1]);
  }

  lemma RunThree(s: State, moves: seq<Move>)
    requires |moves| == 3
    ensures Run(s, moves) == Step(Step(Step(s, moves[0]), moves[1]), moves[2])
  {
    RunTwo(Step(s, moves[0]), moves[1..]);
  }

  /** A successful attempt installs the new handle, reports the connection, and resets the backoff. */
  lemma Connects(s: State, moves: seq<Move>)
    requires Inv(s) && !s.event && s.supervisor.TrySubscribe?
    requires AllSupervisor(moves) && |moves| == 3 && moves[0].success
    ensures var t := Run(s, moves);
            && t.supervisor.MessageHead? && t.connected && t.backoff == 1 && !t.event
            && t.pubsub == Some(s.created) && s.created in t.installed && s.created !in s.installed
  {
    RunThree(s, moves);
  }

  /** A failed attempt waits, doubles the backoff up to 30, and tries again. */
  lemma Retries(s: State, moves: seq<Move>)
    requires Inv(s) && !s.event && s.supervisor.TrySubscribe?
    requires AllSupervisor(moves) && |moves| == 4 && !moves[0].success
    ensures Run(s, moves) == s.(failures := s.failures + 1, backoff := if s.backoff < 15 then 2 * s.backoff else 30)
  {
    RunThree(Step(s, moves[0]), moves[1..]);
  }

  /** While the connection stands every message read is dispatched, nothing else is, and the supervisor
      goes on reading. */
  lemma Delivers(s: State, moves: seq<Move>)
    requires Inv(s) && !s.event && s.supervisor.MessageHead?
    requires AllSupervisor(moves) && |moves| == 3 && moves[1].success
    ensures Run(s, moves[..2]) == s.(supervisor := if moves[1].message then Dispatch else MessageHead)
    ensures moves[1].message ==> Run(s, moves) == s
  {
    RunTwo(s, moves[..2]);
    RunThree(s, moves);
  }

  /** After a broker error the handle is closed, the fields are reset, and the supervisor subscribes
      again. */
  lemma Reconnects(s: State, moves: seq<Move>)
    requires Inv(s) && !s.event && s.supervisor.GetMessage?
    requires AllSupervisor(moves) && |moves| == 8 && !moves[0].success
    ensures s.pubsub.Some?
    ensures Run(s, moves) == s.(supervisor := TrySubscribe, pubsub := None, connected := false,
                                closed := s.closed + {s.pubsub.value})
  {
    var t := s.(supervisor := LoadPubsub, connected := false);
    RunThree(s, moves[..3]);
    Releases(t, moves[3..]);
    assert moves == moves[..3] + moves[3..];
    RunConcat(s, moves[..3], moves[3..]);
  }

  lemma Releases(s: State, moves: seq<Move>)
    requires !s.event && !s.connected && s.supervisor.LoadPubsub? && s.pubsub.Some?
    requires AllSupervisor(moves) && |moves| == 5
    ensures Run(s, moves) == s.(supervisor := TrySubscribe, pubsub := None, closed := s.closed + {s.pubsub.value})
  {
    RunThree(s, moves[..3]);
    RunTwo(s.(supervisor := LoopHead, pubsub := None, closed := s.closed + {s.pubsub.value}), moves[3..]);
    assert moves == moves[..3] + moves[3..];
    RunConcat(s, moves[..3], moves[3..]);
  }

  // ---------------------------------------------------------------------------------------------
  // Shutdown
  // ---------------------------------------------------------------------------------------------

  /** Supervisor steps left at most, once the event is set. */
  function SupervisorRank(at: SupervisorAt): nat {
    match at
    case SupervisorDone => 0
    case LoopHead => 1
    case Wait => 1
    case ClearPubsub => 2
    case ClosePubsub(_) => 3
    case LoadPubsub => 4
    case CheckPubsub => 5
    case ClearConnected => 6
    case MessageHead => 7
    case Dispatch => 8
    case GetMessage => 9
    case SetConnected => 8
    case Install(_) => 9
    case TrySubscribe => 10
    case CheckConnected => 11
  }

  function StopRank(at: StopAt): nat {
    match at
    case StopDone => 0
    case StopClearPubsub => 1
    case StopClosePubsub(_) => 2
    case StopLoadPubsub => 3
    case StopCheckPubsub => 4
    case StopClearConnected => 5
    case SetEvent => 6
  }

  function StopCount(moves: seq<Move>): (n: nat)
    ensures n <= |moves|
  {
    if moves == [] then 0 else (if moves[0].Stop? then 1 else 0) + StopCount(moves[1..])
  }

  function Minus(a: nat, b: nat): nat { if b < a then a - b else 0 }

  lemma SupervisorRankFalls(s: State, success: bool, message: bool)
    requires s.event
    ensures var t := SupervisorStep(s, success, message);
            t.event && t.stop == s.stop && SupervisorRank(t.supervisor) <= Minus(SupervisorRank(s.supervisor), 1)
  {
  }

  lemma StopRankFalls(s: State)
    requires s.event
    ensures var t := StopStep(s);
            t.event && t.supervisor == s.supervisor && StopRank(t.stop) <= Minus(StopRank(s.stop), 1)
  {
  }

  lemma {:induction false} RanksFall(s: State, moves: seq<Move>)
    requires s.event
    ensures SupervisorRank(Run(s, moves).supervisor) <= Minus(SupervisorRank(s.supervisor), |moves| - StopCount(moves))
    ensures StopRank(Run(s, moves).stop) <= Minus(StopRank(s.stop), StopCount(moves))
    decreases |moves|
  {
    if moves == [] {
    } else {
      if moves[0].Stop? { StopRankFalls(s); } else { SupervisorRankFalls(s, moves[0].success, moves[0].message); }
      RanksFall(Step(s, moves[0]), moves[1..]);
    }
  }

  lemma {:induction false} NoStopNoEvent(s: State, moves: seq<Move>)
    requires StopCount(moves) == 0
    ensures Run(s, moves).stop == s.stop && Run(s, moves).event == s.event
    decreases |moves|
  {
    if moves == [] {
    } else {
      NoStopNoEvent(Step(s, moves[0]), moves[1..]);
    }
  }

  /** Left alone, a call of stop() sets the event, reports the connection gone, and closes and clears the
      handle if there is one. */
  lemma Stops(s: State, moves: seq<Move>)
    requires Inv(s) && s.stop.SetEvent? && |moves| == 6 && forall i | 0 <= i < 6 :: moves[i].Stop?
    ensures Run(s, moves) == s.(event := true, connected := false, pubsub := None, stop := StopDone,
                                closed := s.closed + if s.pubsub.Some? then {s.pubsub.value} else {})
  {
    RunThree(s, moves[..3]);
    RunThree(Run(s, moves[..3]), moves[3..]);
    assert moves == moves[..3] + moves[3..];
    RunConcat(s, moves[..3], moves[3..]);
  }

  /** Shutdown is bounded: after stop() sets the event, eleven supervisor steps and five more steps
      of stop(), in any order, end both in a clean state. */
  lemma ShutdownCompletes(disabled: bool, before: seq<Move>, after: seq<Move>)
    requires StopCount(before) == 0
    requires StopCount(after) >= 5 && |after| - StopCount(after) >= 11
    ensures var s := Run(Started(disabled), before + [Stop] + after); Finished(s) && Clean(s)
  {
    var s0 := Started(disabled);
    var s1 := Run(s0, before);
    StartedInv(disabled);
    RunInv(s0, before);
    NoStopNoEvent(s0, before);
    RunConcat(s0, before + [Stop], after);
    RunSnoc(s0, before, Stop);
    StopKeepsInv(s1);
    SettlesAfterEvent(Step(s1, Stop), after);
  }

  lemma SettlesAfterEvent(s: State, moves: seq<Move>)
    requires Inv(s) && s.event && s.stop.StopClearConnected?
    requires StopCount(moves) >= 5 && |moves| - StopCount(moves) >= 11
    ensures Finished(Run(s, moves)) && Clean(Run(s, moves))
  {
    RanksFall(s, moves);
    RunInv(s, moves);
  }

  /** Only from here does a late dispatch follow. */
  predicate AboutToDispatch(s: State) {
    s.supervisor.Dispatch? || (s.supervisor.GetMessage? && s.pubsub.Some?)
  }

  lemma {:induction false} NoLateDispatch(s: State, moves: seq<Move>)
    requires s.event && !AboutToDispatch(s)
    ensures Run(s, moves).lateDispatches == s.lateDispatches
    decreases |moves|
  {
    if moves == [] {
    } else {
      NoLateDispatch(Step(s, moves[0]), moves[1..]);
    }
  }

  /** Exactly when some continuation dispatches a message after the event is set: the supervisor has
      passed its check of the event and holds a handle, or already holds the message. */
  lemma LateDispatchIff(s: State)
    requires s.event
    ensures (exists moves :: Run(s, moves).lateDispatches > s.lateDispatches) <==> AboutToDispatch(s)
  {
    if AboutToDispatch(s) {
      var go := Supervisor(true, true);
      var moves := if s.supervisor.Dispatch? then [go] else [go, go];
      assert [go, go][1..] == [go] && [go][1..] == [];
      var t := Step(s, go);
      assert Run(t, []) == t && Run(t, [go]) == Run(Step(t, go), []);
      assert Run(s, moves).lateDispatches > s.lateDispatches;
    } else {
      forall moves: seq<Move> ensures Run(s, moves).lateDispatches == s.lateDispatches {
        NoLateDispatch(s, moves);
      }
    }
  }

  /** One late dispatch does happen: the event is set while a message is being read. */
  lemma LateDispatchPossible() returns (moves: seq<Move>)
    ensures Run(Started(false), moves).lateDispatches == 1
  {
    moves := [];
    var go := Supervisor(true, true);
    var script := [go, go, go, go, go, go, go, Stop, go];
    var path := [CheckConnected, TrySubscribe, Install(0), SetConnected, MessageHead, GetMessage, Dispatch];
    var s := Started(false);
    for i := 0 to |script|
      invariant Run(Started(false), moves) == s
      invariant i == 0 ==> s == Started(false)
      invariant 1 <= i <= 7 ==> !s.event && s.supervisor == path[i - 1]
      invariant 4 <= i <= 7 ==> s.pubsub == Some(0)
      invariant i < 4 ==> !s.connected && s.created == if i < 3 then 0 else 1
      invariant i <= 7 ==> s.stop.SetEvent? && s.lateDispatches == 0
      invariant i == 8 ==> s.event && s.supervisor.Dispatch? && s.lateDispatches == 0
      invariant i == 9 ==> s.lateDispatches == 1
    {
      RunSnoc(Started(false), moves, script[i]);
      s, moves := Step(s, script[i]), moves + [script[i]];
    }
  }
}
