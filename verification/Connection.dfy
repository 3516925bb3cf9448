/** One connection's lifecycle as a state machine over its await points (adapters/asyncua/connection.py). */
module Connection {
  import opened Neutral

  /** Where a reconnect loop is suspended: not begun; before the loss callback is wired; wired and loading
      types; holding the client while the `on_connected` hook runs; waiting to retry. */
  datatype Pc = Created | Attempting | Loading(loading: nat) | InHook(held: nat) | Sleeping

  /** A cancelled loop ends at its next step. */
  datatype Loop = Loop(pc: Pc, cancelled: bool)

  /** `stop()` waits for the loop it cancelled, then closes the session. */
  datatype Stop = Awaiting(loop: nat) | Closing

  /** What has happened: clients wired and lost, `start` called, a `stop` completed, a disconnect hook raised,
      a loss while a loop was wired but not done (`lostEarly`), clients lost while their loop was still
      loading (`unheard`), and `missed`: since the last connect and the last new loop, a `connection_lost`
      has finished while the loop was in its hook with the client already cleared. */
  datatype Past = Past(wired: set<nat>, lost: set<nat>, started: bool, stopped: bool, raised: bool,
                       lostEarly: bool, unheard: set<nat>, missed: bool)

  /** The fields of the connection, its live loops, and the calls suspended inside `connection_lost` and `stop`. */
  datatype State = State(
    closed: bool, client: Option<nat>, connected: bool, task: Option<nat>,
    loops: map<nat, Loop>, nextLoop: nat, handlers: nat, stops: map<nat, Stop>, nextStop: nat, past: Past)

  const INITIAL := State(false, None, false, None, map[], 0, 0, map[], 0,
      Past({}, {}, false, false, false, false, {}, false))

  /** What a reconnect loop does when it runs on from an await. */
  datatype Turn = Begins | Fails | Wires(client: nat) | Loads | HookReturns | Wakes | Ends

  datatype Event =
    | Start
    | InLoop(l: nat, turn: Turn)
    | Loss(lost: nat)
    | LossHandled
    | LossHookRaises
    | StopCalled
    | StopAwaited(s: nat)
    | StopDone(s: nat)

  /** Loop `l` is live, not cancelled, and suspended at `pc`. */
  predicate At(s: State, l: nat, pc: Pc) {
    l in s.loops && s.loops[l] == Loop(pc, false)
  }

  predicate IsLoading(s: State, l: nat) {
    l in s.loops && s.loops[l].pc.Loading? && !s.loops[l].cancelled
  }

  predicate IsInHook(s: State, l: nat) {
    l in s.loops && s.loops[l].pc.InHook? && !s.loops[l].cancelled
  }

  predicate CanTurn(s: State, l: nat, turn: Turn) {
    match turn
    case Begins => At(s, l, Created)
    case Fails => At(s, l, Attempting)
    case Wires(c) => At(s, l, Attempting) && c !in s.past.wired
    case Loads => IsLoading(s, l)
    case HookReturns => IsInHook(s, l)
    case Wakes => At(s, l, Sleeping)
    case Ends => l in s.loops && s.loops[l].cancelled
  }

  predicate Enabled(s: State, e: Event) {
    match e
    case Start => true
    case InLoop(l, turn) => CanTurn(s, l, turn)
    case Loss(c) => c in s.past.wired
    case LossHandled => s.handlers > 0
    case LossHookRaises => s.handlers > 0
    case StopCalled => true
    case StopAwaited(k) => k in s.stops && s.stops[k].Awaiting? && s.stops[k].loop !in s.loops
    case StopDone(k) => k in s.stops && s.stops[k].Closing?
  }

  /** `_start_reconnect_loop`. */
  function StartLoop(s: State): State {
    if s.closed then s
    else if s.task.Some? && s.task.value in s.loops then s
    else s.(task := Some(s.nextLoop), loops := s.loops[s.nextLoop := Loop(Created, false)],
            nextLoop := s.nextLoop + 1, past := s.past.(missed := false))
  }

  /** The end of `_run_reconnect_loop`, however it comes. */
  function EndLoop(s: State, l: nat): State {
    s.(loops := s.loops - {l}, task := if s.task == Some(l) then None else s.task)
  }

  /** The head of the retry loop: another attempt unless closed. */
  function Attempt(s: State, l: nat): State {
    if s.closed then EndLoop(s, l) else MoveTo(s, l, Attempting)
  }

  /** The first stretch of `_disconnect`. */
  function Drop(s: State): State {
    s.(client := None, connected := false)
  }

  predicate BusyInHook(s: State) {
    s.task.Some? && IsInHook(s, s.task.value) && s.client.None?
  }

  /** `stop` up to its first await: it cancels a loop that still runs and waits for it, or else drops the client. */
  function BeginStop(s: State): State {
    var closing := s.(closed := true, task := None, nextStop := s.nextStop + 1);
    if s.task.Some? && s.task.value in s.loops then
      var l := s.task.value;
      closing.(loops := s.loops[l := s.loops[l].(cancelled := true)], stops := s.stops[s.nextStop := Awaiting(l)])
    else
      Drop(closing).(stops := s.stops[s.nextStop := Closing])
  }

  /** Loop `l` is now suspended at `pc`. */
  function MoveTo(s: State, l: nat, pc: Pc): State {
    s.(loops := s.loops[l := Loop(pc, false)])
  }

  function Turned(s: State, l: nat, turn: Turn): State
    requires CanTurn(s, l, turn)
  {
    match turn
    case Begins => Attempt(s, l)
    case Fails => MoveTo(s, l, Sleeping)
    case Wires(c) => MoveTo(s, l, Loading(c)).(past := s.past.(wired := s.past.wired + {c}))
    case Loads =>
      var c := s.loops[l].pc.loading;
      MoveTo(s, l, InHook(c)).(client := Some(c), connected := true, past := s.past.(missed := false))
    case HookReturns => EndLoop(s, l)
    case Wakes => Attempt(s, l)
    case Ends => EndLoop(s, l)
  }

  /** `connection_lost` up to its first await. */
  function BeginLoss(s: State, c: nat): State {
    Drop(s).(handlers := s.handlers + 1, past := s.past.(
      lost := s.past.lost + {c},
      lostEarly := s.past.lostEarly || exists l :: l in s.loops && (IsLoading(s, l) || IsInHook(s, l)),
      unheard := s.past.unheard + if exists l :: l in s.loops && s.loops[l].pc == Loading(c) then {c} else {}))
  }

  /** `connection_lost` from the return of its hook. */
  function EndLoss(s: State): State
    requires s.handlers > 0
  {
    StartLoop(s.(handlers := s.handlers - 1, past := s.past.(missed := s.past.missed || BusyInHook(s))))
  }

  function Begun(s: State): State {
    s.(past := s.past.(started := true))
  }

  function Step(s: State, e: Event): State
    requires Enabled(s, e)
  {
    match e
    case Start => Begun(StartLoop(s))
    case InLoop(l, turn) => Turned(s, l, turn)
    case Loss(c) => BeginLoss(s, c)
    case LossHandled => EndLoss(s)
    case LossHookRaises => s.(handlers := s.handlers - 1, past := s.past.(raised := true))
    case StopCalled => BeginStop(s)
    case StopAwaited(k) => Drop(s).(stops := s.stops[k := Closing])
    case StopDone(k) => s.(stops := s.stops - {k}, past := s.past.(stopped := true))
  }

  /** `events` are enabled one after another from `s` and lead to `t`. */
  ghost predicate Leads(s: State, events: seq<Event>, t: State)
    decreases |events|
  {
    if events == [] then s == t else Enabled(s, events[0]) && Leads(Step(s, events[0]), events[1..], t)
  }

  ghost predicate Reachable(t: State) {
    exists events :: Leads(INITIAL, events, t)
  }

  // ------------------------------------------------------------------ what every state keeps

  /** A client is held exactly when the event is set; only the loop made last can be live, and the connection knows
      it unless it is closed, in which case the loop is cancelled; only a closed connection is stopping. */
  ghost predicate Basics(s: State) {
    && (s.connected <==> s.client.Some?)
    && (s.closed ==> s.task.None?)
    && (s.task.Some? ==> s.task.value in s.loops)
    && (forall l :: l in s.loops ==> Known(s, l))
    && (forall k :: k in s.stops ==> s.closed && k < s.nextStop)
    && (s.past.stopped ==> s.closed)
  }

  ghost predicate Known(s: State, l: nat) {
    l in s.loops && l + 1 == s.nextLoop && (if s.closed then s.loops[l].cancelled
        else s.task == Some(l) && !s.loops[l].cancelled)
  }

  /** Nothing happens before `start`. */
  ghost predicate NothingBefore(s: State) {
    !s.past.started ==>
        (forall l :: l !in s.loops) && (forall c :: c !in s.past.wired) && s.client.None? && s.handlers == 0
        && !s.past.missed
  }

  lemma FreshStep(s: State, e: Event)
    requires NothingBefore(s) && Enabled(s, e)
    ensures NothingBefore(Step(s, e))
  {
  }

  lemma StartLoopKeepsBasics(s: State)
    requires Basics(s)
    ensures Basics(StartLoop(s))
  {
  }

  lemma EndLoopKeepsBasics(s: State, l: nat)
    requires Basics(s) && l in s.loops
    ensures Basics(EndLoop(s, l))
  {
  }

  lemma MoveKeepsBasics(s: State, l: nat, pc: Pc)
    requires Basics(s) && l in s.loops && !s.loops[l].cancelled
    ensures Basics(MoveTo(s, l, pc))
  {
  }

  lemma BeginStopKeepsBasics(s: State)
    requires Basics(s)
    ensures Basics(BeginStop(s))
  {
  }

  lemma TurnKeepsBasics(s: State, l: nat, turn: Turn)
    requires Basics(s) && CanTurn(s, l, turn)
    ensures Basics(Turned(s, l, turn))
  {
    EndLoopKeepsBasics(s, l);
    match turn
    case Begins => MoveKeepsBasics(s, l, Attempting);
    case Fails => MoveKeepsBasics(s, l, Sleeping);
    case Wires(c) => MoveKeepsBasics(s, l, Loading(c));
    case Loads => MoveKeepsBasics(s, l, InHook(s.loops[l].pc.loading));
    case HookReturns =>
    case Wakes => MoveKeepsBasics(s, l, Attempting);
    case Ends =>
  }

  lemma BasicsStep(s: State, e: Event)
    requires Basics(s) && Enabled(s, e)
    ensures Basics(Step(s, e))
  {
    match e
    case Start => StartLoopKeepsBasics(s);
    case InLoop(l, turn) => TurnKeepsBasics(s, l, turn);
    case LossHandled => StartLoopKeepsBasics(s.(handlers := s.handlers - 1, past
        := s.past.(missed := s.past.missed || BusyInHook(s))));
    case StopCalled => BeginStopKeepsBasics(s);
    case _ =>
  }

  /** Once a `stop` has dropped the client, it stays dropped. */
  ghost predicate StaysDown(s: State) {
    s.past.stopped || (exists k :: k in s.stops && s.stops[k].Closing?) ==> s.client.None?
  }

  lemma StaysDownStep(s: State, e: Event)
    requires Basics(s) && StaysDown(s) && Enabled(s, e)
    ensures StaysDown(Step(s, e))
    ensures s.closed ==> Step(s, e).closed && (s.client.None? ==> Step(s, e).client.None?)
  {
  }

  /** Client `c`, wired, was lost exactly when it was lost unheard. */
  ghost predicate LostUnheard(s: State, c: nat) {
    c in s.past.wired && (c in s.past.lost <==> c in s.past.unheard)
  }

  /** The client held, or about to be, was lost only if its loop was still loading; and with no early loss the
      client a loop handed to its hook is still held. */
  ghost predicate Heard(s: State) {
    && s.past.unheard <= s.past.lost <= s.past.wired
    && (s.client.Some? ==> LostUnheard(s, s.client.value))
    && (forall l :: l in s.loops && s.loops[l].pc.Loading? ==> LostUnheard(s, s.loops[l].pc.loading))
    && (!s.past.lostEarly && !s.closed ==> forall l :: IsInHook(s, l) ==> s.client == Some(s.loops[l].pc.held))
  }

  lemma TurnKeepsHeard(s: State, l: nat, turn: Turn)
    requires Basics(s) && Heard(s) && CanTurn(s, l, turn)
    ensures Heard(Turned(s, l, turn))
  {
  }

  lemma LossKeepsHeard(s: State, c: nat)
    requires Basics(s) && Heard(s) && c in s.past.wired
    ensures Heard(BeginLoss(s, c))
  {
  }

  lemma StartLoopKeepsHeard(s: State)
    requires Basics(s) && Heard(s)
    ensures Heard(StartLoop(s))
  {
  }

  lemma BeginStopKeepsHeard(s: State)
    requires Basics(s) && Heard(s)
    ensures Heard(BeginStop(s))
  {
  }

  lemma EndLossKeepsHeard(s: State)
    requires Basics(s) && Heard(s) && s.handlers > 0
    ensures Heard(EndLoss(s))
  {
    StartLoopKeepsHeard(s.(handlers := s.handlers - 1, past := s.past.(missed := s.past.missed || BusyInHook(s))));
  }

  lemma DropKeepsHeard(s: State)
    requires Basics(s) && Heard(s) && s.closed
    ensures Heard(Drop(s))
  {
  }

  lemma HeardStep(s: State, e: Event)
    requires Basics(s) && Heard(s) && Enabled(s, e)
    ensures Heard(Step(s, e))
  {
    match e
    case Start => StartLoopKeepsHeard(s);
    case InLoop(l, turn) => TurnKeepsHeard(s, l, turn);
    case Loss(c) => LossKeepsHeard(s, c);
    case LossHandled => EndLossKeepsHeard(s);
    case StopCalled => BeginStopKeepsHeard(s);
    case StopAwaited(k) => DropKeepsHeard(s);
    case _ =>
  }

  /** No client is held and no live loop has yet to connect one. */
  ghost predicate Idle(s: State) {
    s.client.None? && forall l :: l in s.loops ==> s.loops[l].pc.InHook?
  }

  /** Started, open, inside no `connection_lost`, and no disconnect hook has raised. */
  predicate Settled(s: State) {
    s.past.started && !s.closed && !s.past.raised && s.handlers == 0
  }

  ghost predicate Recovers(s: State) {
    (s.past.missed ==> Idle(s) && s.past.lostEarly) && (Settled(s) && Idle(s) ==> s.past.missed)
  }

  lemma TurnKeepsRecovers(s: State, l: nat, turn: Turn)
    requires Basics(s) && Recovers(s) && CanTurn(s, l, turn)
    ensures Recovers(Turned(s, l, turn))
  {
    var t := Turned(s, l, turn);
    assert forall x :: x in s.loops ==> Known(s, x) && x == l;
    assert s.past.missed ==> s.loops[l].pc.InHook?;
    if l in t.loops {
      assert turn != Loads ==> !t.loops[l].pc.InHook?;
    } else if Settled(t) && Idle(t) {
      assert turn.HookReturns?;
    }
  }

  lemma StartKeepsRecovers(s: State)
    requires Basics(s) && NothingBefore(s) && Recovers(s)
    ensures Recovers(Begun(StartLoop(s)))
  {
    if !s.closed && s.task.None? {
      assert StartLoop(s).loops[s.nextLoop].pc == Created;
    }
  }

  lemma EndLossKeepsRecovers(s: State)
    requires Basics(s) && Heard(s) && Recovers(s) && s.handlers > 0
    ensures Recovers(EndLoss(s))
  {
    if s.closed {
    } else if s.task.Some? {
      assert Known(s, s.task.value);
      assert EndLoss(s).loops == s.loops;
    } else {
      assert EndLoss(s).loops[s.nextLoop].pc == Created;
    }
  }

  lemma BeginStopKeepsRecovers(s: State)
    requires Basics(s) && Recovers(s)
    ensures Recovers(BeginStop(s))
  {
  }

  lemma RecoversStep(s: State, e: Event)
    requires Basics(s) && NothingBefore(s) && Heard(s) && Recovers(s) && Enabled(s, e)
    ensures Recovers(Step(s, e))
  {
    match e
    case Start => StartKeepsRecovers(s);
    case InLoop(l, turn) => TurnKeepsRecovers(s, l, turn);
    case LossHandled => EndLossKeepsRecovers(s);
    case StopCalled => BeginStopKeepsRecovers(s);
    case _ =>
  }

  ghost predicate Inv(s: State) {
    Basics(s) && NothingBefore(s) && StaysDown(s) && Heard(s) && Recovers(s)
  }

  lemma StepKeepsInv(s: State, e: Event)
    requires Inv(s) && Enabled(s, e)
    ensures Inv(Step(s, e))
  {
    BasicsStep(s, e);
    FreshStep(s, e);
    StaysDownStep(s, e);
    HeardStep(s, e);
    RecoversStep(s, e);
  }

  lemma {:induction false} RunKeepsInv(s: State, events: seq<Event>, t: State)
    requires Inv(s) && Leads(s, events, t)
    ensures Inv(t)
    decreases |events|
  {
    if events != [] {
      StepKeepsInv(s, events[0]);
      RunKeepsInv(Step(s, events[0]), events[1..], t);
    }
  }

  lemma ReachableKeepsInv(s: State)
    requires Reachable(s)
    ensures Inv(s)
  {
    var events :| Leads(INITIAL, events, s);
    assert Inv(INITIAL);
    RunKeepsInv(INITIAL, events, s);
  }

  // ------------------------------------------------------------------ what holds on every run

  /** A client is held exactly when the connected event is set, and at most one reconnect loop is live. */
  lemma ClientMatchesEvent(s: State)
    requires Reachable(s)
    ensures s.connected <==> s.client.Some?
    ensures forall a, b :: a in s.loops && b in s.loops ==> a == b
  {
    ReachableKeepsInv(s);
    forall a, b | a in s.loops && b in s.loops ensures a == b {
      assert Known(s, a) && Known(s, b);
    }
  }

  lemma {:induction false} ClosedStaysDown(s: State, events: seq<Event>, t: State)
    requires Inv(s) && s.closed && s.client.None? && Leads(s, events, t)
    ensures t.closed && t.client.None?
    decreases |events|
  {
    if events != [] {
      StepKeepsInv(s, events[0]);
      StaysDownStep(s, events[0]);
      ClosedStaysDown(Step(s, events[0]), events[1..], t);
    }
  }

  /** After a `stop` has completed, no later state holds a client or a loop that could still set one. */
  lemma StopIsFinal(s: State, events: seq<Event>, t: State)
    requires Reachable(s) && s.past.stopped && Leads(s, events, t)
    ensures t.closed && t.client.None? && !t.connected
    ensures forall l :: l in t.loops ==> t.loops[l].cancelled
  {
    ReachableKeepsInv(s);
    ClosedStaysDown(s, events, t);
    RunKeepsInv(s, events, t);
    forall l | l in t.loops ensures t.loops[l].cancelled {
      assert Known(t, l);
    }
  }

  /** A settled connection has neither a client nor a loop that will connect one exactly when it missed a
      loss: some `connection_lost` ran out while the loop was in its hook, the client already cleared. */
  lemma IdleIffMissed(s: State)
    requires Reachable(s) && Settled(s)
    ensures Idle(s) <==> s.past.missed
  {
    ReachableKeepsInv(s);
  }

  /** The client held was reported lost exactly when the report came while its loop was still loading. */
  lemma HeldClientLostIff(s: State)
    requires Reachable(s) && s.client.Some?
    ensures s.client.value in s.past.lost <==> s.client.value in s.past.unheard
  {
    ReachableKeepsInv(s);
  }

  /** If no loss arrives between wiring and the return of the hook and no disconnect hook raises, a started,
      open connection is connected, or has a loop still to connect, or is inside `connection_lost`. */
  lemma RecoversUnlessLostEarly(s: State)
    requires Reachable(s) && s.past.started && !s.closed && !s.past.raised && !s.past.lostEarly
    ensures s.client.Some? || s.handlers > 0 || exists l :: l in s.loops && !s.loops[l].pc.InHook?
  {
    ReachableKeepsInv(s);
  }

  /** Started and open, with no client, no loop and no call in progress. */
  predicate Orphaned(s: State) {
    Settled(s) && s.client.None? && |s.loops| == 0
  }

  /** An orphaned connection does nothing until `start` or `stop` is called or another loss is reported. */
  lemma OrphanStays(s: State, e: Event)
    requires Reachable(s) && Orphaned(s) && Enabled(s, e)
    ensures e.Start? || e.StopCalled? || e.Loss?
  {
    ReachableKeepsInv(s);
  }

  lemma LeadsOn(s: State, e: Event, events: seq<Event>, t: State)
    requires Enabled(s, e) && Leads(Step(s, e), events, t)
    ensures Leads(s, [e] + events, t)
  {
    assert ([e] + events)[1..] == events;
  }

  /** From any quiet state whose loop has connected and is in its hook, a loss followed by the hook's return
      orphans the connection. */
  lemma LossInHookOrphans(s: State, c: nat) returns (t: State)
    requires Reachable(s) && Settled(s) && s.client == Some(c) && c in s.past.wired
    requires s.task.Some? && IsInHook(s, s.task.value)
    ensures Leads(s, [Loss(c)] + ([LossHandled] + ([InLoop(s.task.value, HookReturns)] + [])), t) && Orphaned(t)
  {
    ReachableKeepsInv(s);
    var l := s.task.value;
    var lost := BeginLoss(s, c);
    var handled := EndLoss(lost);
    t := EndLoop(handled, l);
    assert handled.loops == s.loops;
    assert forall x :: x in s.loops ==> Known(s, x) && x == l;
    assert t.loops == map[];
    LeadsOn(handled, InLoop(l, HookReturns), [], t);
    LeadsOn(lost, LossHandled, [InLoop(l, HookReturns)] + [], t);
    LeadsOn(s, Loss(c), [LossHandled] + ([InLoop(l, HookReturns)] + []), t);
  }

  /** A loss reported while the loop is loading leaves the lost client held, with no call in progress. */
  lemma LossWhileLoadingIsHeld(s: State, c: nat) returns (t: State)
    requires Reachable(s) && Settled(s) && s.task.Some? && At(s, s.task.value, Loading(c))
    ensures Leads(s, [Loss(c)] + ([LossHandled]
        + ([InLoop(s.task.value, Loads)] + ([InLoop(s.task.value, HookReturns)] + []))), t)
    ensures t.client == Some(c) && t.connected && c in t.past.lost && t.handlers == 0 && t.loops == map[]
  {
    ReachableKeepsInv(s);
    var l := s.task.value;
    var lost := BeginLoss(s, c);
    var handled := EndLoss(lost);
    assert handled.loops == s.loops;
    assert forall x :: x in s.loops ==> Known(s, x) && x == l;
    var loaded := Turned(handled, l, Loads);
    t := EndLoop(loaded, l);
    assert t.loops == map[];
    LeadsOn(loaded, InLoop(l, HookReturns), [], t);
    LeadsOn(handled, InLoop(l, Loads), [InLoop(l, HookReturns)] + [], t);
    LeadsOn(lost, LossHandled, [InLoop(l, Loads)] + ([InLoop(l, HookReturns)] + []), t);
    LeadsOn(s, Loss(c), [LossHandled] + ([InLoop(l, Loads)] + ([InLoop(l, HookReturns)] + [])), t);
  }

  /** Both situations arise. */
  lemma ConnectingIsReachable() returns (loading: State, inHook: State)
    ensures Reachable(loading) && Settled(loading) && loading.task == Some(0) && At(loading, 0, Loading(7))
    ensures Reachable(inHook) && Settled(inHook) && inHook.client == Some(7) && 7 in inHook.past.wired
    ensures inHook.task == Some(0) && IsInHook(inHook, 0)
  {
    var started := Step(INITIAL, Start);
    var begun := Attempt(started, 0);
    loading := Turned(begun, 0, Wires(7));
    inHook := Turned(loading, 0, Loads);
    LeadsOn(begun, InLoop(0, Wires(7)), [], loading);
    LeadsOn(started, InLoop(0, Begins), [InLoop(0, Wires(7))] + [], loading);
    LeadsOn(INITIAL, Start, [InLoop(0, Begins)] + ([InLoop(0, Wires(7))] + []), loading);
    LeadsOn(loading, InLoop(0, Loads), [], inHook);
    LeadsOn(begun, InLoop(0, Wires(7)), [InLoop(0, Loads)] + [], inHook);
    LeadsOn(started, InLoop(0, Begins), [InLoop(0, Wires(7))] + ([InLoop(0, Loads)] + []), inHook);
    LeadsOn(INITIAL, Start, [InLoop(0, Begins)] + ([InLoop(0, Wires(7))] + ([InLoop(0, Loads)] + [])), inHook);
  }
}
