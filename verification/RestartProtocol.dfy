/** Every interleaving of callers, the receive pump, the supervisor and a detach over the pending map and the
    connection. Each event is one critical section or one call into the transport; a run is any sequence of them, and
    an event whose thread is not at that point changes nothing. */
module RestartProtocol {
  import opened Wrappers
  import opened RuntimeProxy

  /** A connection, numbered in the order they are opened. */
  type Epoch = nat

  datatype Status = Ready | Restarting | Failed

  /** Where the thread that sends a request stands: registered but not yet in Invoke; holding the client it read;
      refused by Invoke; sent; holding the callback of a failed send; withdrawn without a signal; returned. */
  datatype Phase =
    | Entered
    | HasClient(epoch: Epoch)
    | Refused
    | Sent(epoch: Epoch)
    | HoldsCallback
    | Withdrawn
    | Returned(ok: bool)

  /** `born` is the number of drains that had happened when the request was registered; `wire` the connection it was
      or is about to be sent on. */
  datatype Call = Call(kind: Entry, phase: Phase, born: nat, wire: Option<Epoch>)

  /** The pump may have taken an entry out and not completed it yet. */
  datatype Pump = Running | Handling(id: Id, entry: Entry, isError: bool) | Stopped

  datatype Supervisor =
    | Watching
    | Closing
    | Joined
    | Draining(snapshot: map<Id, Entry>)
    | Drained
    | Spawning
    | Connected
    | Pumping
    | GaveUp

  datatype System = System(
    proxy: Proxy,
    calls: map<Id, Call>,
    status: Status,
    client: Option<Epoch>,
    issued: nat,
    shut: set<Epoch>,
    welcomed: set<Epoch>,
    pump: Pump,
    supervisor: Supervisor,
    restarts: nat,
    drains: nat,
    attached: bool,
    subscribed: bool)

  const MAX_RESTART_ATTEMPTS: nat := 5

  /** After a first successful start. */
  const STARTED: System := System(
    Proxy(map[], map[]), map[], Ready, Some(0), 1, {}, {0}, Running, Watching, 0, 0, true, true)

  datatype Event =
    | Send(id: Id, kind: Entry)
    | Lookup(id: Id)
    | Transmit(id: Id, ok: bool)
    | Withdraw(id: Id)
    | TellFailure(id: Id)
    | Wake(id: Id)
    | TimeOut(id: Id)
    | TakeReply(id: Id, isError: bool)
    | FinishReply
    | PumpEnds
    | ChildExit
    | JoinPump
    | DrainBegin
    | DrainOne(id: Id)
    | DrainEnd
    | Decide
    | Connect(welcome: bool)
    | StartPump
    | BecomeReady
    | Unsubscribe
    | DetachAll

  // ---------------------------------------------------------------- callers

  function WithPhase(s: System, id: Id, phase: Phase): System
    requires id in s.calls
  {
    s.(calls := s.calls[id := s.calls[id].(phase := phase)])
  }

  predicate At(s: System, id: Id, phase: Phase) {
    id in s.calls && s.calls[id].phase == phase
  }

  /** SendControl and SendControlSync up to the call of Invoke; ids are fresh. */
  function SendStep(s: System, id: Id, kind: Entry): System {
    if !s.attached || id in s.calls then s
    else s.(proxy := Registered(s.proxy, id, kind), calls := s.calls[id := Call(kind, Entered, s.drains, None)])
  }

  /** Invoke reads status and client under the bridge's lock. */
  function LookupStep(s: System, id: Id): System {
    if !At(s, id, Entered) then s
    else if s.status.Ready? && s.client.Some? then
      s.(calls := s.calls[id := s.calls[id].(phase := HasClient(s.client.value), wire := s.client)])
    else WithPhase(s, id, Refused)
  }

  /** Invoke sends outside that lock; on a client that has been closed meanwhile either result is possible. */
  function TransmitStep(s: System, id: Id, ok: bool): System {
    if !(id in s.calls && s.calls[id].phase.HasClient?) then s
    else WithPhase(s, id, if ok then Sent(s.calls[id].phase.epoch) else Refused)
  }

  /** After a refused send the entry is taken out if it is still there. */
  function WithdrawStep(s: System, id: Id): System {
    if !At(s, id, Refused) then s
    else if id !in s.proxy.pending then WithPhase(s, id, Returned(false))
    else
      var t := s.(proxy := s.proxy.(pending := s.proxy.pending - {id}));
      WithPhase(t, id, if s.calls[id].kind.Callback? then HoldsCallback else Withdrawn)
  }

  function TellFailureStep(s: System, id: Id): System {
    if !At(s, id, HoldsCallback) then s
    else WithPhase(s.(proxy := s.proxy.(fired := Fire(s.proxy.fired, id, Callback, SendFailed))), id, Returned(false))
  }

  /** A blocked caller sees its flags set. */
  function WakeStep(s: System, id: Id): System {
    if id in s.calls && s.calls[id].phase.Sent? && s.calls[id].kind.Waiter? && FiredFor(s.proxy.fired, id) != []
    then WithPhase(s, id, Returned(FiredFor(s.proxy.fired, id)[0] == Replied(false)))
    else s
  }

  /** A blocked caller gives up and leaves its entry behind. */
  function TimeOutStep(s: System, id: Id): System {
    if id in s.calls && s.calls[id].phase.Sent? && s.calls[id].kind.Waiter? then WithPhase(s, id, Returned(false)) else s
  }

  // ---------------------------------------------------------------- the pump

  /** A reply to any id, pending or not, arrives and its entry is taken out. */
  function TakeReplyStep(s: System, id: Id, isError: bool): System {
    if !s.pump.Running? || !s.subscribed || id !in s.proxy.pending then s
    else s.(pump := Handling(id, s.proxy.pending[id], isError),
            proxy := s.proxy.(pending := s.proxy.pending - {id}))
  }

  function FinishReplyStep(s: System): System {
    if !s.pump.Handling? then s
    else s.(pump := Running,
            proxy := s.proxy.(fired := Fire(s.proxy.fired, s.pump.id, s.pump.entry, Replied(s.pump.isError))))
  }

  function PumpEndsStep(s: System): System {
    if s.pump.Running? then s.(pump := Stopped) else s
  }

  // ---------------------------------------------------------------- the supervisor

  /** The child is gone: the client is closed and forgotten. */
  function ChildExitStep(s: System): System {
    if !s.supervisor.Watching? then s
    else s.(supervisor := Closing, client := None,
            shut := s.shut + if s.client.Some? then {s.client.value} else {})
  }

  function JoinPumpStep(s: System): System {
    if s.supervisor.Closing? && !s.pump.Handling? then s.(supervisor := Joined, pump := Stopped) else s
  }

  /** HandleBridgeRestarting moves the map out; without a subscription nobody hears the signal. */
  function DrainBeginStep(s: System): System {
    if !s.supervisor.Joined? then s
    else if !s.subscribed then s.(supervisor := Drained)
    else s.(supervisor := Draining(s.proxy.pending), proxy := s.proxy.(pending := map[]), drains := s.drains + 1)
  }

  function DrainOneStep(s: System, id: Id): System {
    if !s.supervisor.Draining? || id !in s.supervisor.snapshot then s
    else s.(supervisor := Draining(s.supervisor.snapshot - {id}),
            proxy := s.proxy.(fired := Fire(s.proxy.fired, id, s.supervisor.snapshot[id], Restarted)))
  }

  function DrainEndStep(s: System): System {
    if s.supervisor == Draining(map[]) then s.(supervisor := Drained) else s
  }

  function DecideStep(s: System): System {
    if !s.supervisor.Drained? then s
    else if s.restarts + 1 > MAX_RESTART_ATTEMPTS then
      s.(restarts := s.restarts + 1, status := Failed, supervisor := GaveUp)
    else s.(restarts := s.restarts + 1, status := Restarting, supervisor := Spawning)
  }

  /** Spawn, connect, Hello and Welcome; a client without a Welcome is closed and never published. */
  function ConnectStep(s: System, welcome: bool): System {
    if !s.supervisor.Spawning? then s
    else if !welcome then s.(supervisor := Watching, status := Failed, issued := s.issued + 1, shut := s.shut + {s.issued})
    else s.(supervisor := Connected, client := Some(s.issued), issued := s.issued + 1, welcomed := s.welcomed + {s.issued})
  }

  function StartPumpStep(s: System): System {
    if s.supervisor.Connected? then s.(supervisor := Pumping, pump := Running) else s
  }

  function BecomeReadyStep(s: System): System {
    if s.supervisor.Pumping? then s.(supervisor := Watching, status := Ready, restarts := 0) else s
  }

  // ---------------------------------------------------------------- detach

  /** Unsubscribing waits for a dispatch in progress. */
  function UnsubscribeStep(s: System): System {
    if s.attached && !s.pump.Handling? && !s.supervisor.Draining? then s.(subscribed := false) else s
  }

  function DetachAllStep(s: System): System {
    if s.attached && !s.subscribed then s.(attached := false, proxy := DrainedWith(s.proxy, Detached)) else s
  }

  // ---------------------------------------------------------------- runs

  function Step(s: System, e: Event): System {
    match e
    case Send(id, kind) => SendStep(s, id, kind)
    case Lookup(id) => LookupStep(s, id)
    case Transmit(id, ok) => TransmitStep(s, id, ok)
    case Withdraw(id) => WithdrawStep(s, id)
    case TellFailure(id) => TellFailureStep(s, id)
    case Wake(id) => WakeStep(s, id)
    case TimeOut(id) => TimeOutStep(s, id)
    case TakeReply(id, isError) => TakeReplyStep(s, id, isError)
    case FinishReply => FinishReplyStep(s)
    case PumpEnds => PumpEndsStep(s)
    case ChildExit => ChildExitStep(s)
    case JoinPump => JoinPumpStep(s)
    case DrainBegin => DrainBeginStep(s)
    case DrainOne(id) => DrainOneStep(s, id)
    case DrainEnd => DrainEndStep(s)
    case Decide => DecideStep(s)
    case Connect(welcome) => ConnectStep(s, welcome)
    case StartPump => StartPumpStep(s)
    case BecomeReady => BecomeReadyStep(s)
    case Unsubscribe => UnsubscribeStep(s)
    case DetachAll => DetachAllStep(s)
  }

  function Run(s: System, events: seq<Event>): System {
    if events == [] then s else Step(Run(s, events[..|events| - 1]), events[|events| - 1])
  }

  // ---------------------------------------------------------------- who is to complete a request

  function One(b: bool): nat {
    if b then 1 else 0
  }

  predicate WithPump(s: System, id: Id) {
    s.pump.Handling? && s.pump.id == id
  }

  predicate WithSupervisor(s: System, id: Id) {
    s.supervisor.Draining? && id in s.supervisor.snapshot
  }

  /** The number of places that still owe request id its completion. */
  function Owed(s: System, id: Id): nat {
    One(id in s.proxy.pending) + One(WithPump(s, id)) + One(WithSupervisor(s, id)) + One(At(s, id, HoldsCallback))
  }

  /** A request is owed by one place and has not been completed, or is owed by none and has been completed once. A
      request without callback is never told anything, and neither is a waiter whose send failed. */
  ghost predicate Accounted(s: System, id: Id) {
    var told := |FiredFor(s.proxy.fired, id)|;
    if id !in s.calls then Owed(s, id) == 0 && told == 0 else
    var c := s.calls[id];
    && Owed(s, id) <= 1
    && (Owed(s, id) == 1 ==> told == 0)
    && (Owed(s, id) == 0 ==> told == One(!c.kind.Silent? && !c.phase.Withdrawn?))
  }

  /** Whoever holds an entry holds the kind that was registered. */
  ghost predicate KindsMatch(s: System, id: Id) {
    && (id in s.proxy.pending ==> id in s.calls && s.proxy.pending[id] == s.calls[id].kind)
    && (WithPump(s, id) ==> id in s.calls && s.pump.entry == s.calls[id].kind)
    && (WithSupervisor(s, id) ==> id in s.calls && s.supervisor.snapshot[id] == s.calls[id].kind)
    && (At(s, id, HoldsCallback) ==> s.calls[id].kind.Callback?)
    && (At(s, id, Withdrawn) ==> !s.calls[id].kind.Callback? && Owed(s, id) == 0)
  }

  ghost predicate CallInv(s: System, id: Id) {
    Accounted(s, id) && KindsMatch(s, id)
  }

  /** The pump stays stopped from the join until a new one is started. */
  ghost predicate PumpIsJoined(s: System) {
    s.supervisor.Watching? || s.supervisor.Closing? || s.supervisor.Pumping? || s.pump.Stopped?
  }

  /** A blocked send returns true only for a reply without error. */
  ghost predicate TrueMeansReply(s: System, id: Id) {
    At(s, id, Returned(true)) ==> FiredFor(s.proxy.fired, id) == [Replied(false)]
  }

  lemma FireAt(fired: map<Id, seq<Outcome>>, id: Id, entry: Entry, outcome: Outcome, other: Id)
    ensures FiredFor(Fire(fired, id, entry, outcome), other) ==
            FiredFor(fired, other) + if other == id && !entry.Silent? then [outcome] else []
  {
  }

  // ---------------------------------------------------------------- each step keeps the account

  lemma SendKeeps(s: System, other: Id, kind: Entry, id: Id)
    requires CallInv(s, id)
    ensures CallInv(SendStep(s, other, kind), id)
  {
  }

  lemma LookupKeeps(s: System, other: Id, id: Id)
    requires CallInv(s, id)
    ensures CallInv(LookupStep(s, other), id)
  {
    hide FiredFor;
  }

  lemma TransmitKeeps(s: System, other: Id, ok: bool, id: Id)
    requires CallInv(s, id)
    ensures CallInv(TransmitStep(s, other, ok), id)
  {
    hide FiredFor;
  }

  lemma WithdrawKeeps(s: System, other: Id, id: Id)
    requires CallInv(s, id)
    ensures CallInv(WithdrawStep(s, other), id)
  {
    hide FiredFor;
  }

  lemma TellFailureKeeps(s: System, other: Id, id: Id)
    requires CallInv(s, id)
    ensures CallInv(TellFailureStep(s, other), id)
  {
    FireAt(s.proxy.fired, other, Callback, SendFailed, id);
    hide Fire, FiredFor;
  }

  lemma WakeKeeps(s: System, other: Id, id: Id)
    requires CallInv(s, id)
    ensures CallInv(WakeStep(s, other), id) && CallInv(TimeOutStep(s, other), id)
  {
    hide FiredFor;
  }

  lemma PumpKeeps(s: System, e: Event, id: Id)
    requires CallInv(s, id) && PumpIsJoined(s)
    requires e.TakeReply? || e.FinishReply? || e.PumpEnds? || e.StartPump? || e.JoinPump?
    ensures CallInv(Step(s, e), id)
  {
    if e.FinishReply? && s.pump.Handling? {
      FireAt(s.proxy.fired, s.pump.id, s.pump.entry, Replied(s.pump.isError), id);
    }
    hide Fire, FiredFor;
  }

  lemma DrainKeeps(s: System, e: Event, id: Id)
    requires CallInv(s, id)
    requires e.DrainBegin? || e.DrainOne? || e.DrainEnd?
    ensures CallInv(Step(s, e), id)
  {
    if e.DrainOne? && WithSupervisor(s, e.id) {
      FireAt(s.proxy.fired, e.id, s.supervisor.snapshot[e.id], Restarted, id);
    }
    hide Fire, FiredFor;
  }

  /** Steps that touch neither entries nor completions. */
  lemma BridgeKeeps(s: System, e: Event, id: Id)
    requires CallInv(s, id)
    requires e.ChildExit? || e.Decide? || e.Connect? || e.BecomeReady? || e.Unsubscribe?
    ensures CallInv(Step(s, e), id)
  {
    var t := Step(s, e);
    assert t.proxy == s.proxy && t.calls == s.calls && t.pump == s.pump;
    assert WithSupervisor(t, id) == WithSupervisor(s, id) == false || t.supervisor == s.supervisor;
    hide ChildExitStep, DecideStep, ConnectStep, BecomeReadyStep, UnsubscribeStep, Step, FiredFor;
  }

  lemma DetachKeeps(s: System, id: Id)
    requires CallInv(s, id)
    ensures CallInv(DetachAllStep(s), id)
  {
    FireAllAt(s.proxy.fired, s.proxy.pending, Detached, id);
    hide FireAll, FiredFor;
  }

  lemma StepKeepsCall(s: System, e: Event, id: Id)
    requires CallInv(s, id) && PumpIsJoined(s)
    ensures CallInv(Step(s, e), id)
  {
    hide CallInv, PumpIsJoined;
    match e
    case DetachAll =>
      DetachKeeps(s, id);
    case Send(other, kind) => SendKeeps(s, other, kind, id);
    case Lookup(other) => LookupKeeps(s, other, id);
    case Transmit(other, ok) => TransmitKeeps(s, other, ok, id);
    case Withdraw(other) => WithdrawKeeps(s, other, id);
    case TellFailure(other) => TellFailureKeeps(s, other, id);
    case Wake(other) => WakeKeeps(s, other, id);
    case TimeOut(other) => WakeKeeps(s, other, id);
    case DrainBegin => DrainKeeps(s, e, id);
    case DrainOne(_) => DrainKeeps(s, e, id);
    case DrainEnd => DrainKeeps(s, e, id);
    case TakeReply(_, _) => PumpKeeps(s, e, id);
    case FinishReply => PumpKeeps(s, e, id);
    case PumpEnds => PumpKeeps(s, e, id);
    case StartPump => PumpKeeps(s, e, id);
    case JoinPump => PumpKeeps(s, e, id);
    case _ => BridgeKeeps(s, e, id);
  }

  // ---------------------------------------------------------------- connections

  /** The client in use is welcomed and open; it is missing from the moment of a close until a new handshake. */
  ghost predicate ClientInv(s: System) {
    && (s.client.Some? ==> s.client.value < s.issued && s.client.value in s.welcomed && s.client.value !in s.shut)
    && (forall e | e in s.shut :: e < s.issued)
    && (s.client.Some? ==> s.supervisor.Watching? || s.supervisor.Connected? || s.supervisor.Pumping?)
    && (s.status.Ready? ==> s.supervisor.Watching? || s.supervisor.Closing? || s.supervisor.Joined? ||
                            s.supervisor.Draining? || s.supervisor.Drained?)
  }

  /** Between the close of the client and the drain, pending requests may still point at the dead connection. */
  predicate Undrained(s: System) {
    s.supervisor.Closing? || s.supervisor.Joined?
  }

  /** The connection a request points at is welcomed. While the proxy listens, a pending request was registered after
      the last drain, and the connection it points at is the one in use. */
  ghost predicate WireInv(s: System, id: Id) {
    id in s.calls ==>
      var c := s.calls[id];
      && (c.wire.Some? ==> c.wire.value in s.welcomed)
      && c.born <= s.drains
      && (c.phase.Entered? ==> c.wire.None?)
      && (c.phase.HasClient? ==> c.wire == Some(c.phase.epoch))
      && (c.phase.Sent? ==> c.wire == Some(c.phase.epoch))
      && (s.subscribed && id in s.proxy.pending ==>
            && c.born == s.drains
            && (c.wire.Some? && !Undrained(s) ==> c.wire == s.client))
  }

  predicate IsCaller(e: Event) {
    e.Send? || e.Lookup? || e.Transmit? || e.Withdraw? || e.TellFailure? || e.Wake? || e.TimeOut?
  }

  lemma CallersLeaveBridge(s: System, e: Event)
    requires IsCaller(e) || e.DetachAll?
    ensures var t := Step(s, e);
      && t.client == s.client && t.issued == s.issued && t.shut == s.shut && t.welcomed == s.welcomed
      && t.status == s.status && t.supervisor == s.supervisor && t.pump == s.pump
  {
    hide Fire, FireAll, FiredFor;
  }

  lemma StepKeepsBridge(s: System, e: Event)
    requires ClientInv(s) && PumpIsJoined(s)
    ensures ClientInv(Step(s, e)) && PumpIsJoined(Step(s, e))
  {
    if IsCaller(e) || e.DetachAll? {
      CallersLeaveBridge(s, e);
      hide Step;
    } else {
      StepKeepsClient(s, e);
      StepKeepsPump(s, e);
    }
  }

  lemma StepKeepsClient(s: System, e: Event)
    requires ClientInv(s) && !IsCaller(e) && !e.DetachAll?
    ensures ClientInv(Step(s, e))
  {
    hide Fire, FireAll, FiredFor, SendStep, LookupStep, TransmitStep, WithdrawStep, TellFailureStep, WakeStep, TimeOutStep;
  }

  lemma StepKeepsPump(s: System, e: Event)
    requires PumpIsJoined(s) && !IsCaller(e) && !e.DetachAll?
    ensures PumpIsJoined(Step(s, e))
  {
    hide Fire, FireAll, FiredFor, SendStep, LookupStep, TransmitStep, WithdrawStep, TellFailureStep, WakeStep, TimeOutStep;
  }

  lemma SendKeepsWire(s: System, other: Id, kind: Entry, id: Id)
    requires WireInv(s, id) && ClientInv(s)
    ensures WireInv(SendStep(s, other, kind), id)
  {
    hide ClientInv;
  }

  lemma LookupKeepsWire(s: System, other: Id, id: Id)
    requires WireInv(s, id) && ClientInv(s)
    ensures WireInv(LookupStep(s, other), id)
  {
  }

  lemma WithdrawKeepsWire(s: System, other: Id, id: Id)
    requires WireInv(s, id)
    ensures WireInv(WithdrawStep(s, other), id) && WireInv(TellFailureStep(s, other), id)
  {
    hide Fire;
  }

  lemma TransmitKeepsWire(s: System, other: Id, ok: bool, id: Id)
    requires WireInv(s, id)
    ensures WireInv(TransmitStep(s, other, ok), id)
    ensures WireInv(WakeStep(s, other), id) && WireInv(TimeOutStep(s, other), id)
  {
    hide FiredFor;
  }

  lemma CallerKeepsWire(s: System, e: Event, id: Id)
    requires WireInv(s, id) && ClientInv(s) && IsCaller(e)
    ensures WireInv(Step(s, e), id)
  {
    hide WireInv, ClientInv;
    match e
    case Send(other, kind) => SendKeepsWire(s, other, kind, id);
    case Lookup(other) => LookupKeepsWire(s, other, id);
    case Transmit(other, ok) => TransmitKeepsWire(s, other, ok, id);
    case Withdraw(other) => WithdrawKeepsWire(s, other, id);
    case TellFailure(other) => WithdrawKeepsWire(s, other, id);
    case Wake(other) => TransmitKeepsWire(s, other, true, id);
    case TimeOut(other) => TransmitKeepsWire(s, other, true, id);
  }

  lemma StepKeepsWire(s: System, e: Event, id: Id)
    requires WireInv(s, id) && ClientInv(s)
    ensures WireInv(Step(s, e), id)
  {
    hide Fire, FireAll, FiredFor;
    if IsCaller(e) {
      CallerKeepsWire(s, e, id);
    } else {
      hide SendStep, LookupStep, TransmitStep, WithdrawStep, TellFailureStep, WakeStep, TimeOutStep;
    }
  }

  lemma StepKeepsReply(s: System, e: Event, id: Id)
    requires TrueMeansReply(s, id) && CallInv(s, id) && PumpIsJoined(s)
    ensures TrueMeansReply(Step(s, e), id)
  {
  }

  ghost predicate Inv(s: System) {
    && ClientInv(s) && PumpIsJoined(s)
    && forall id: Id :: CallInv(s, id) && WireInv(s, id) && TrueMeansReply(s, id)
  }

  lemma StepKeepsInv(s: System, e: Event)
    requires Inv(s)
    ensures Inv(Step(s, e))
  {
    hide ClientInv, PumpIsJoined, CallInv, WireInv, TrueMeansReply, Step;
    StepKeepsBridge(s, e);
    forall id: Id
      ensures CallInv(Step(s, e), id) && WireInv(Step(s, e), id) && TrueMeansReply(Step(s, e), id)
    {
      StepKeepsCall(s, e, id);
      StepKeepsWire(s, e, id);
      StepKeepsReply(s, e, id);
    }
  }

  lemma {:induction false} RunKeepsInv(events: seq<Event>)
    ensures Inv(Run(STARTED, events))
  {
    if events != [] {
      RunKeepsInv(events[..|events| - 1]);
      StepKeepsInv(Run(STARTED, events[..|events| - 1]), events[|events| - 1]);
    }
  }

  // ---------------------------------------------------------------- over whole runs

  /** Exactly once: a callback fires at most once, and it has fired exactly once as soon as its entry is gone and no
      thread is about to complete it. */
  lemma ExactlyOnce(events: seq<Event>, id: Id)
    requires id in Run(STARTED, events).calls && Run(STARTED, events).calls[id].kind.Callback?
    ensures var s := Run(STARTED, events);
      var inFlight := WithPump(s, id) || WithSupervisor(s, id) || At(s, id, HoldsCallback);
      && |FiredFor(s.proxy.fired, id)| <= 1
      && (|FiredFor(s.proxy.fired, id)| == 1 <==> id !in s.proxy.pending && !inFlight)
  {
    hide Run;
    RunKeepsInv(events);
    assert CallInv(Run(STARTED, events), id);
  }

  /** A waiter's flags are set at most once, also after it gave up waiting; they are never set just when its own send
      failed and took the entry back. It returns true only for a reply without error. */
  lemma WaiterSignalledOnce(events: seq<Event>, id: Id)
    requires id in Run(STARTED, events).calls && Run(STARTED, events).calls[id].kind.Waiter?
    ensures var s := Run(STARTED, events);
      var owed := id in s.proxy.pending || WithPump(s, id) || WithSupervisor(s, id);
      && |FiredFor(s.proxy.fired, id)| <= 1
      && (|FiredFor(s.proxy.fired, id)| == 1 <==> !owed && !At(s, id, Withdrawn))
      && (At(s, id, Returned(true)) ==> FiredFor(s.proxy.fired, id) == [Replied(false)])
  {
    hide Run;
    RunKeepsInv(events);
    assert CallInv(Run(STARTED, events), id) && TrueMeansReply(Run(STARTED, events), id);
  }

  /** No request outlives its connection: outside the window between a close and its drain, every pending request was
      registered after the last drain and is unsent or on the open, welcomed connection in use. */
  lemma NoRequestOutlivesItsConnection(events: seq<Event>, id: Id)
    requires var s := Run(STARTED, events); s.subscribed && !Undrained(s) && id in s.proxy.pending
    ensures var s := Run(STARTED, events);
      && id in s.calls && s.calls[id].born == s.drains
      && (s.calls[id].wire.None? ||
           (s.calls[id].wire == s.client && s.client.value !in s.shut && s.client.value in s.welcomed))
  {
    hide Run;
    RunKeepsInv(events);
    assert CallInv(Run(STARTED, events), id) && WireInv(Run(STARTED, events), id);
  }

  /** Every request is sent, if at all, on a connection whose handshake completed. */
  lemma SentOnlyAfterWelcome(events: seq<Event>, id: Id)
    requires id in Run(STARTED, events).calls && Run(STARTED, events).calls[id].phase.Sent?
    ensures Run(STARTED, events).calls[id].phase.epoch in Run(STARTED, events).welcomed
  {
    hide Run;
    RunKeepsInv(events);
    assert WireInv(Run(STARTED, events), id);
  }

  lemma {:induction false} RunSplits(s: System, events: seq<Event>, more: seq<Event>)
    ensures Run(s, events + more) == Run(Run(s, events), more)
    decreases more
  {
    if more == [] {
      assert events + more == events;
    } else {
      assert (events + more)[..|events + more| - 1] == events + more[..|more| - 1];
      RunSplits(s, events, more[..|more| - 1]);
    }
  }

  lemma BornStays(s: System, e: Event, id: Id)
    requires id in s.calls
    ensures var t := Step(s, e);
      id in t.calls && t.calls[id].born == s.calls[id].born && t.calls[id].kind == s.calls[id].kind
  {
    hide Fire, FireAll, FiredFor;
  }

  lemma DrainsGrow(s: System, e: Event)
    ensures Step(s, e).drains >= s.drains && (Step(s, e).subscribed ==> s.subscribed)
    ensures Undrained(s) && Step(s, e).subscribed ==> Undrained(Step(s, e)) || Step(s, e).drains > s.drains
  {
    hide Fire, FireAll, FiredFor;
  }

  lemma {:induction false} DrainComes(s: System, more: seq<Event>, id: Id)
    requires id in s.calls && Undrained(s)
    ensures var t := Run(s, more);
      && id in t.calls && t.calls[id].born == s.calls[id].born && t.calls[id].kind == s.calls[id].kind
      && t.drains >= s.drains && (t.subscribed ==> s.subscribed)
      && (t.subscribed && !Undrained(t) ==> t.drains > s.drains)
  {
    if more != [] {
      var before := Run(s, more[..|more| - 1]);
      DrainComes(s, more[..|more| - 1], id);
      BornStays(before, more[|more| - 1], id);
      DrainsGrow(before, more[|more| - 1]);
    }
    hide Step, Undrained;
  }

  /** A restart completes what was waiting: a request pending when the client is closed is out of the map once the
      drain has begun, on whatever schedule, and its callback has fired, or its waiter been signalled, exactly once as
      soon as no thread is about to do so. Only a caller whose own send failed before the drain took its entry back
      unsignalled. */
  lemma RestartCompletes(events: seq<Event>, more: seq<Event>, id: Id)
    requires var s := Run(STARTED, events); s.supervisor.Closing? && id in s.proxy.pending
    requires var t := Run(STARTED, events + more); t.subscribed && !Undrained(t)
    ensures var t := Run(STARTED, events + more);
      var inFlight := WithPump(t, id) || WithSupervisor(t, id) || At(t, id, HoldsCallback);
      && id !in t.proxy.pending
      && id in t.calls
      && |FiredFor(t.proxy.fired, id)| == One(!t.calls[id].kind.Silent? && !inFlight && !At(t, id, Withdrawn))
      && (t.calls[id].kind.Callback? ==> !At(t, id, Withdrawn))
  {
    var s, t := Run(STARTED, events), Run(STARTED, events + more);
    RunKeepsInv(events);
    RunKeepsInv(events + more);
    RunSplits(STARTED, events, more);
    hide Run;
    assert CallInv(s, id) && WireInv(s, id);
    DrainComes(s, more, id);
    assert CallInv(t, id) && WireInv(t, id);
  }

  function Visits(order: seq<Id>): (events: seq<Event>)
    ensures |events| == |order|
  {
    if order == [] then [] else Visits(order[..|order| - 1]) + [DrainOne(order[|order| - 1])]
  }

  function Among(entries: map<Id, Entry>, order: seq<Id>): map<Id, Entry> {
    map id | id in entries && id in order :: entries[id]
  }

  function NotAmong(entries: map<Id, Entry>, order: seq<Id>): map<Id, Entry> {
    map id | id in entries && id !in order :: entries[id]
  }

  lemma AmongNext(entries: map<Id, Entry>, order: seq<Id>, id: Id)
    requires id in entries && id !in order
    ensures Among(entries, order + [id]) == Among(entries, order)[id := entries[id]]
    ensures NotAmong(entries, order + [id]) == NotAmong(entries, order) - {id}
    ensures id in NotAmong(entries, order) && NotAmong(entries, order)[id] == entries[id]
  {
  }

  /** After some visits those entries are told, and the others are still in the snapshot. */
  lemma {:induction false} Visited(begin: System, order: seq<Id>)
    requires begin.supervisor.Draining?
    requires forall i | 0 <= i < |order| :: order[i] in begin.supervisor.snapshot
    requires forall i, j | 0 <= i < j < |order| :: order[i] != order[j]
    ensures var snapshot := begin.supervisor.snapshot;
      Run(begin, Visits(order)) == begin.(
        supervisor := Draining(NotAmong(snapshot, order)),
        proxy := begin.proxy.(fired := FireAll(begin.proxy.fired, Among(snapshot, order), Restarted)))
  {
    hide Among, NotAmong, FireAll, Fire, Step;
    var snapshot := begin.supervisor.snapshot;
    if order == [] {
      NothingVisited(begin.proxy.fired, snapshot);
    } else {
      var before, id := order[..|order| - 1], order[|order| - 1];
      Visited(begin, before);
      assert order == before + [id] && id !in before;
      assert Visits(order)[..|before|] == Visits(before);
      AmongNext(snapshot, before, id);
      NotYet(snapshot, before, id);
      FireAllNext(begin.proxy.fired, Among(snapshot, before), id, snapshot[id], Restarted);
      VisitIsStep(Run(begin, Visits(before)), id);
    }
  }

  lemma NotYet(entries: map<Id, Entry>, order: seq<Id>, id: Id)
    requires id !in order
    ensures id !in Among(entries, order)
  {
  }

  lemma VisitIsStep(s: System, id: Id)
    requires WithSupervisor(s, id)
    ensures Step(s, DrainOne(id)) == s.(
      supervisor := Draining(s.supervisor.snapshot - {id}),
      proxy := s.proxy.(fired := Fire(s.proxy.fired, id, s.supervisor.snapshot[id], Restarted)))
  {
  }

  lemma NothingVisited(fired: map<Id, seq<Outcome>>, entries: map<Id, Entry>)
    ensures NotAmong(entries, []) == entries && FireAll(fired, Among(entries, []), Restarted) == fired
  {
  }

  /** A drain that nothing interrupts, in whatever order it visits the entries, has the effect that
      Correlator.HandleBridgeRestarting states. */
  lemma DrainUninterrupted(s: System, order: seq<Id>)
    requires s.supervisor.Joined? && s.subscribed
    requires forall id :: id in order <==> id in s.proxy.pending
    requires forall i, j | 0 <= i < j < |order| :: order[i] != order[j]
    ensures Step(Run(Step(s, DrainBegin), Visits(order)), DrainEnd) ==
            s.(proxy := DrainedWith(s.proxy, Restarted), supervisor := Drained, drains := s.drains + 1)
  {
    hide Among, NotAmong, FireAll, Run, Visits;
    var begin := Step(s, DrainBegin);
    assert begin.supervisor == Draining(s.proxy.pending);
    assert forall i | 0 <= i < |order| :: order[i] in order;
    Visited(begin, order);
    AllAmong(s.proxy.pending, order);
  }

  lemma AllAmong(entries: map<Id, Entry>, order: seq<Id>)
    requires forall id :: id in order <==> id in entries
    ensures NotAmong(entries, order) == map[] && Among(entries, order) == entries
  {
  }

  // ---------------------------------------------------------------- calls that nothing interrupts

  /** A reply taken and finished by the pump, or none. */
  function Answered(s: System, id: Id, reply: Option<bool>): System {
    if reply.None? then s else FinishReplyStep(TakeReplyStep(s, id, reply.value))
  }

  /** A reply has the effect that Correlator.HandleControlReply states. */
  lemma ReplyUninterrupted(s: System, id: Id, isError: bool)
    requires s.pump.Running? && s.subscribed
    ensures FinishReplyStep(TakeReplyStep(s, id, isError)) == s.(proxy := Completed(s.proxy, id, Replied(isError)))
  {
    hide Fire;
  }

  lemma AnsweredEffect(s: System, id: Id, reply: Option<bool>)
    requires reply.Some? ==> s.pump.Running? && s.subscribed
    ensures Answered(s, id, reply) ==
            if reply.Some? then s.(proxy := Completed(s.proxy, id, Replied(reply.value))) else s
  {
    if reply.Some? {
      ReplyUninterrupted(s, id, reply.value);
    }
  }

  /** Registering, Invoke's lookup, and a reply that comes before Invoke returns. */
  lemma SendBegins(s: System, id: Id, kind: Entry, early: Option<bool>)
    requires s.attached && id !in s.calls && id !in s.proxy.pending
    requires early.Some? ==> s.pump.Running? && s.subscribed
    ensures var t := Answered(LookupStep(SendStep(s, id, kind), id), id, early);
      && t.proxy == (var p := Registered(s.proxy, id, kind);
                     if early.Some? then Completed(p, id, Replied(early.value)) else p)
      && id in t.calls && t.calls[id].kind == kind
      && t.calls[id].phase == (if s.status == Ready && s.client.Some? then HasClient(s.client.value) else Refused)
      && t.calls - {id} == s.calls && t.pump == s.pump && t.subscribed == s.subscribed && t.attached
  {
    var sent := LookupStep(SendStep(s, id, kind), id);
    assert sent.calls - {id} == s.calls;
    AnsweredEffect(sent, id, early);
    hide Answered, Fire;
  }

  lemma RefusedEnds(t: System, id: Id)
    requires At(t, id, Refused) && (id in t.proxy.pending ==> t.proxy.pending[id] == t.calls[id].kind)
    ensures var u := TellFailureStep(WithdrawStep(t, id), id);
      && u.proxy == (if t.calls[id].kind.Waiter? then t.proxy.(pending := t.proxy.pending - {id})
                     else Completed(t.proxy, id, SendFailed))
      && id in u.calls && u.calls[id].kind == t.calls[id].kind
      && (u.calls[id].phase == Returned(false) || u.calls[id].phase == Withdrawn)
      && u.pump == t.pump && u.subscribed == t.subscribed && u.attached == t.attached
  {
    hide FiredFor;
    if id !in t.proxy.pending {
      assert t.proxy.pending - {id} == t.proxy.pending;
    }
  }

  /** After Invoke: a refused send takes its entry back and tells the callback, if the entry is still there. */
  lemma SendEnds(t: System, id: Id, ok: bool)
    requires id in t.calls && (t.calls[id].phase.HasClient? || t.calls[id].phase.Refused?)
    requires id in t.proxy.pending ==> t.proxy.pending[id] == t.calls[id].kind
    ensures var u := TellFailureStep(WithdrawStep(TransmitStep(t, id, ok), id), id);
      var sent := t.calls[id].phase.HasClient? && ok;
      && u.proxy == (if sent then t.proxy
                     else if t.calls[id].kind.Waiter? then t.proxy.(pending := t.proxy.pending - {id})
                     else Completed(t.proxy, id, SendFailed))
      && id in u.calls && u.calls[id].kind == t.calls[id].kind
      && (sent ==> u.calls[id].phase == Sent(t.calls[id].phase.epoch))
      && (!sent ==> u.calls[id].phase == Returned(false) || u.calls[id].phase == Withdrawn)
      && u.pump == t.pump && u.subscribed == t.subscribed && u.attached == t.attached
  {
    var x := TransmitStep(t, id, ok);
    assert x.proxy == t.proxy && x.pump == t.pump && x.subscribed == t.subscribed && x.attached == t.attached;
    if !(t.calls[id].phase.HasClient? && ok) {
      RefusedEnds(x, id);
      hide WithdrawStep, TellFailureStep;
    }
  }

  /** An async send that nothing interrupts but a reply of its own has the effect that Correlator.SendControl states. */
  lemma SendUninterrupted(s: System, id: Id, hasCallback: bool, ok: bool, early: Option<bool>)
    requires id !in s.calls && id !in s.proxy.pending
    requires early.Some? ==> s.pump.Running? && s.subscribed
    ensures var kind := if hasCallback then Callback else Silent;
      var t := Answered(LookupStep(SendStep(s, id, kind), id), id, if s.attached then early else None);
      var u := TellFailureStep(WithdrawStep(TransmitStep(t, id, ok), id), id);
      var sent := s.status == Ready && s.client.Some? && ok;
      && u.proxy ==
         (if !s.attached then s.proxy else
          var p := Registered(s.proxy, id, kind);
          var p := if early.Some? then Completed(p, id, Replied(early.value)) else p;
          if sent then p else Completed(p, id, SendFailed))
      && (id in u.calls && u.calls[id].phase.Sent? <==> s.attached && sent)
  {
    hide LookupStep, SendStep, Answered, TellFailureStep, WithdrawStep, TransmitStep, Fire, FiredFor;
    if s.attached {
      SendBegins(s, id, if hasCallback then Callback else Silent, early);
      SendEnds(Answered(LookupStep(SendStep(s, id, if hasCallback then Callback else Silent), id), id, early), id, ok);
    } else {
      NotAttached(s, id, if hasCallback then Callback else Silent, ok);
    }
  }

  lemma NotAttached(s: System, id: Id, kind: Entry, ok: bool)
    requires !s.attached && id !in s.calls
    ensures var t := Answered(LookupStep(SendStep(s, id, kind), id), id, None);
      TellFailureStep(WithdrawStep(TransmitStep(t, id, ok), id), id) == s
  {
  }

  /** A blocking send that nothing interrupts but its own reply has the effect that Correlator.SendControlSync states:
      woken by the reply, or timed out without one. */
  lemma SyncUninterrupted(s: System, id: Id, ok: bool, reply: Option<bool>)
    requires s.attached && id !in s.calls && id !in s.proxy.pending && id !in s.proxy.fired
    requires reply.Some? ==> s.pump.Running? && s.subscribed
    ensures var t := LookupStep(SendStep(s, id, Waiter), id);
      var u := Answered(TellFailureStep(WithdrawStep(TransmitStep(t, id, ok), id), id), id, reply);
      var v := if reply.Some? then WakeStep(u, id) else TimeOutStep(u, id);
      var sent := s.status == Ready && s.client.Some? && ok;
      && v.proxy ==
         (var p := Registered(s.proxy, id, Waiter);
          if !sent then s.proxy else if reply.Some? then Completed(p, id, Replied(reply.value)) else p)
      && id in v.calls
      && (v.calls[id].phase == Returned(true) <==> sent && reply == Some(false))
      && (v.calls[id].phase in {Returned(true), Returned(false), Withdrawn})
  {
    hide LookupStep, SendStep, Answered, TellFailureStep, WithdrawStep, TransmitStep, Fire, FiredFor;
    var t := LookupStep(SendStep(s, id, Waiter), id);
    SendBegins(s, id, Waiter, None);
    AnsweredEffect(t, id, None);
    SendEnds(t, id, ok);
    var u := TellFailureStep(WithdrawStep(TransmitStep(t, id, ok), id), id);
    assert s.proxy.pending[id := Waiter] - {id} == s.proxy.pending;
    AnsweredEffect(u, id, reply);
    WaitEnds(Answered(u, id, reply), id);
    FirstAnswer(s.proxy, id, reply);
    hide WakeStep, TimeOutStep, Completed;
  }

  /** How a blocked caller comes back. */
  lemma WaitEnds(u: System, id: Id)
    requires id in u.calls && u.calls[id].kind.Waiter?
    ensures var w, o := WakeStep(u, id), TimeOutStep(u, id);
      var told := FiredFor(u.proxy.fired, id);
      && w.proxy == o.proxy == u.proxy && id in w.calls && id in o.calls
      && w.calls[id].phase == (if u.calls[id].phase.Sent? && told != [] then Returned(told[0] == Replied(false))
                               else u.calls[id].phase)
      && o.calls[id].phase == (if u.calls[id].phase.Sent? then Returned(false) else u.calls[id].phase)
  {
    hide FiredFor;
  }

  lemma FirstAnswer(p: Proxy, id: Id, reply: Option<bool>)
    requires id !in p.pending && id !in p.fired
    ensures id in Registered(p, id, Waiter).pending && Registered(p, id, Waiter).fired == p.fired
    ensures Registered(p, id, Waiter).pending == p.pending[id := Waiter]
    ensures reply.Some? ==>
      FiredFor(Completed(Registered(p, id, Waiter), id, Replied(reply.value)).fired, id) == [Replied(reply.value)]
    ensures reply.Some? ==> Completed(p, id, Replied(reply.value)) == p
  {
  }

  // ---------------------------------------------------------------- a whole restart

  lemma RunOne(s: System, e: Event)
    ensures Run(s, [e]) == Step(s, e)
  {
    assert [e][..0] == [];
    hide Step;
    assert Run(s, []) == s;
  }

  /** From the child's exit to the end of the drain. */
  function TearDown(order: seq<Id>): seq<Event> {
    [ChildExit, JoinPump, DrainBegin] + Visits(order) + [DrainEnd]
  }

  ghost predicate Enumerates(order: seq<Id>, entries: map<Id, Entry>) {
    && (forall id :: id in order <==> id in entries)
    && (forall i, j | 0 <= i < j < |order| :: order[i] != order[j])
  }

  /** The child's exit closes the client, stops the pump and tells every pending request, in any order. */
  lemma TearDownUninterrupted(s: System, order: seq<Id>)
    requires s.supervisor.Watching? && !s.pump.Handling? && s.subscribed && Enumerates(order, s.proxy.pending)
    ensures Run(s, TearDown(order)) == s.(
      proxy := DrainedWith(s.proxy, Restarted),
      client := None,
      shut := s.shut + (if s.client.Some? then {s.client.value} else {}),
      pump := Stopped,
      supervisor := Drained,
      drains := s.drains + 1)
  {
    var x := Step(s, ChildExit);
    var y := Step(x, JoinPump);
    RunThree(s, ChildExit, JoinPump, DrainBegin);
    DrainUninterrupted(y, order);
    RunSplits(s, [ChildExit, JoinPump, DrainBegin], Visits(order));
    RunSplits(s, [ChildExit, JoinPump, DrainBegin] + Visits(order), [DrainEnd]);
    RunOne(Run(Step(y, DrainBegin), Visits(order)), DrainEnd);
    hide Run, Visits, DrainedWith;
  }

  lemma RunThree(s: System, a: Event, b: Event, c: Event)
    ensures Run(s, [a, b, c]) == Step(Step(Step(s, a), b), c)
  {
    hide Step;
    RunOne(s, a);
    RunSplits(s, [a], [b]);
    RunOne(Step(s, a), b);
    RunSplits(s, [a, b], [c]);
    RunOne(Step(Step(s, a), b), c);
    assert [a] + [b] == [a, b] && [a, b] + [c] == [a, b, c];
    hide Run;
  }

  /** What the requests have been told after a drain: each pending one with someone to tell, once more. */
  ghost predicate AllTold(s: System, t: System) {
    && t.proxy.pending == map[]
    && forall id :: FiredFor(t.proxy.fired, id) == FiredFor(s.proxy.fired, id) +
         if id in s.proxy.pending && s.proxy.pending[id] != Silent then [Restarted] else []
  }

  lemma TornDown(s: System, order: seq<Id>)
    requires s.supervisor.Watching? && !s.pump.Handling? && s.subscribed && Enumerates(order, s.proxy.pending)
    ensures var t := Run(s, TearDown(order));
      && AllTold(s, t)
      && t.calls == s.calls && t.client == None && t.issued == s.issued && t.welcomed == s.welcomed
      && t.shut == s.shut + (if s.client.Some? then {s.client.value} else {})
      && t.pump == Stopped && t.supervisor == Drained && t.restarts == s.restarts
      && t.attached == s.attached && t.subscribed
  {
    TearDownUninterrupted(s, order);
    forall id
      ensures FiredFor(DrainedWith(s.proxy, Restarted).fired, id) == FiredFor(s.proxy.fired, id) +
        if id in s.proxy.pending && s.proxy.pending[id] != Silent then [Restarted] else []
    {
      FireAllAt(s.proxy.fired, s.proxy.pending, Restarted, id);
    }
    hide FireAll, Run, TearDown, FiredFor;
  }

  /** A restart that succeeds: every pending request is told, and the bridge is ready on a new connection with its pump
      running and its counter back at zero. */
  lemma RestartUninterrupted(s: System, order: seq<Id>)
    requires s.supervisor.Watching? && !s.pump.Handling? && s.subscribed && Enumerates(order, s.proxy.pending)
    requires s.restarts < 5
    ensures var t := Run(s, TearDown(order) + [Decide, Connect(true)] + [StartPump, BecomeReady]);
      && AllTold(s, t)
      && t.calls == s.calls && t.status == Ready && t.client == Some(s.issued) && t.pump == Running
      && t.supervisor == Watching && t.restarts == 0
      && t.issued == s.issued + 1 && t.welcomed == s.welcomed + {s.issued}
      && t.shut == s.shut + (if s.client.Some? then {s.client.value} else {})
      && t.attached == s.attached && t.subscribed
  {
    TornDown(s, order);
    var d := Run(s, TearDown(order));
    RunSplits(s, TearDown(order), [Decide, Connect(true)]);
    RunTwo(d, Decide, Connect(true));
    var c := Step(Step(d, Decide), Connect(true));
    RunSplits(s, TearDown(order) + [Decide, Connect(true)], [StartPump, BecomeReady]);
    RunTwo(c, StartPump, BecomeReady);
    hide Run, TearDown, FiredFor, Step, AllTold, Enumerates;
    BackUp(d);
    ToldByProxy(s, d, Step(Step(c, StartPump), BecomeReady));
  }

  lemma BackUp(d: System)
    requires d.supervisor.Drained? && d.restarts < 5
    ensures Step(Step(Step(Step(d, Decide), Connect(true)), StartPump), BecomeReady) == d.(
      status := Ready, client := Some(d.issued), issued := d.issued + 1, welcomed := d.welcomed + {d.issued},
      pump := Running, supervisor := Watching, restarts := 0)
  {
  }

  lemma ToldByProxy(s: System, d: System, t: System)
    requires AllTold(s, d) && t.proxy == d.proxy
    ensures AllTold(s, t)
  {
    hide FiredFor;
  }

  lemma RunTwo(s: System, a: Event, b: Event)
    ensures Run(s, [a, b]) == Step(Step(s, a), b)
  {
    hide Step;
    RunOne(s, a);
    RunSplits(s, [a], [b]);
    RunOne(Step(s, a), b);
    assert [a] + [b] == [a, b];
    hide Run;
  }

  /** A restart without a Welcome: every pending request is told, the status is failed and there is no client. */
  lemma RestartFails(s: System, order: seq<Id>)
    requires s.supervisor.Watching? && !s.pump.Handling? && s.subscribed && Enumerates(order, s.proxy.pending)
    requires s.restarts < 5
    ensures var t := Run(s, TearDown(order) + [Decide, Connect(false)]);
      && AllTold(s, t)
      && t.calls == s.calls && t.status == Failed && t.client == None && t.pump == Stopped
      && t.supervisor == Watching && t.restarts == s.restarts + 1 && t.welcomed == s.welcomed
      && t.issued == s.issued + 1
      && t.shut == s.shut + (if s.client.Some? then {s.client.value} else {}) + {s.issued}
  {
    TornDown(s, order);
    var d := Run(s, TearDown(order));
    RunSplits(s, TearDown(order), [Decide, Connect(false)]);
    RunTwo(d, Decide, Connect(false));
    hide Run, TearDown, FiredFor;
  }

  /** The sixth attempt in a row: the requests are still told, then the supervisor gives up for good. */
  lemma RestartGivesUp(s: System, order: seq<Id>)
    requires s.supervisor.Watching? && !s.pump.Handling? && s.subscribed && Enumerates(order, s.proxy.pending)
    requires s.restarts >= 5
    ensures var t := Run(s, TearDown(order) + [Decide]);
      && AllTold(s, t)
      && t.calls == s.calls && t.status == Failed && t.client == None && t.pump == Stopped && t.supervisor == GaveUp
  {
    TornDown(s, order);
    var d := Run(s, TearDown(order));
    RunSplits(s, TearDown(order), [Decide]);
    RunOne(d, Decide);
    hide Run, TearDown, FiredFor;
  }

  /** And the bridge works again: a request sent after a restart goes out on the new connection, and its reply reaches
      its callback. */
  lemma AnsweredAfterRestart(events: seq<Event>, order: seq<Id>, id: Id, isError: bool)
    requires var s := Run(STARTED, events);
      && s.supervisor.Watching? && !s.pump.Handling? && s.subscribed && s.attached && s.restarts < 5
      && Enumerates(order, s.proxy.pending) && id !in s.calls
    ensures var s := Run(STARTED, events);
      var t := Run(s, TearDown(order) + [Decide, Connect(true)] + [StartPump, BecomeReady]);
      var u := Run(t, [Send(id, Callback), Lookup(id), Transmit(id, true)] + [TakeReply(id, isError), FinishReply]);
      && id in u.calls && u.calls[id].phase == Sent(s.issued)
      && FiredFor(u.proxy.fired, id) == [Replied(isError)]
      && id !in u.proxy.pending
  {
    hide Run, TearDown, Enumerates, Step, AllTold, CallInv, FiredFor;
    var s := Run(STARTED, events);
    var t := Run(s, TearDown(order) + [Decide, Connect(true)] + [StartPump, BecomeReady]);
    RunKeepsInv(events);
    RestartUninterrupted(s, order);
    NeverTold(s, t, id);
    RunThree(t, Send(id, Callback), Lookup(id), Transmit(id, true));
    var w := Step(Step(Step(t, Send(id, Callback)), Lookup(id)), Transmit(id, true));
    RunSplits(t, [Send(id, Callback), Lookup(id), Transmit(id, true)], [TakeReply(id, isError), FinishReply]);
    RunTwo(w, TakeReply(id, isError), FinishReply);
    CallbackSent(t, id);
    CallbackAnswered(w, id, isError);
  }

  lemma NeverTold(s: System, t: System, id: Id)
    requires CallInv(s, id) && id !in s.calls && AllTold(s, t)
    ensures FiredFor(t.proxy.fired, id) == [] && id !in t.proxy.pending
  {
    hide FiredFor;
  }

  lemma CallbackSent(t: System, id: Id)
    requires t.status == Ready && t.client.Some? && t.attached && id !in t.calls && id !in t.proxy.pending
    ensures var w := Step(Step(Step(t, Send(id, Callback)), Lookup(id)), Transmit(id, true));
      && id in w.calls && w.calls[id].phase == Sent(t.client.value)
      && id in w.proxy.pending && w.proxy.pending[id] == Callback && w.proxy.fired == t.proxy.fired
      && w.pump == t.pump && w.subscribed == t.subscribed
  {
  }

  lemma CallbackAnswered(w: System, id: Id, isError: bool)
    requires w.pump.Running? && w.subscribed && id in w.proxy.pending && w.proxy.pending[id] == Callback
    ensures var u := Step(Step(w, TakeReply(id, isError)), FinishReply);
      && u.calls == w.calls && id !in u.proxy.pending
      && FiredFor(u.proxy.fired, id) == FiredFor(w.proxy.fired, id) + [Replied(isError)]
  {
  }

  /** Detaching tells every pending request that it is detached and takes no more. */
  lemma DetachUninterrupted(s: System)
    requires s.attached && !s.pump.Handling? && !s.supervisor.Draining?
    ensures var t := Run(s, [Unsubscribe, DetachAll]);
      && t.proxy.pending == map[] && !t.attached && !t.subscribed
      && (forall id :: FiredFor(t.proxy.fired, id) == FiredFor(s.proxy.fired, id) +
            if id in s.proxy.pending && s.proxy.pending[id] != Silent then [Detached] else [])
      && (forall id, kind :: Step(t, Send(id, kind)) == t)
  {
    RunTwo(s, Unsubscribe, DetachAll);
    forall id
      ensures FiredFor(DrainedWith(s.proxy, Detached).fired, id) == FiredFor(s.proxy.fired, id) +
        if id in s.proxy.pending && s.proxy.pending[id] != Silent then [Detached] else []
    {
      FireAllAt(s.proxy.fired, s.proxy.pending, Detached, id);
    }
    hide FireAll, Run, FiredFor;
  }

  /** A pump that has ended takes no more replies, and neither does one whose proxy has unsubscribed; the supervisor
      then goes on without a drain. */
  lemma NobodyListens(s: System, id: Id, isError: bool)
    ensures s.pump.Running? ==> Step(Step(s, PumpEnds), TakeReply(id, isError)) == s.(pump := Stopped)
    ensures !s.subscribed ==> Step(s, TakeReply(id, isError)) == s
    ensures !s.subscribed && s.supervisor.Joined? ==> Step(s, DrainBegin) == s.(supervisor := Drained)
  {
  }

  /** Nobody is left to tell request id anything. */
  ghost predicate Quiet(s: System, id: Id) {
    && !s.attached && !s.subscribed && s.proxy.pending == map[]
    && !s.pump.Handling? && !s.supervisor.Draining? && !At(s, id, HoldsCallback)
  }

  lemma StaysQuiet(s: System, e: Event, id: Id)
    requires Quiet(s, id)
    ensures Quiet(Step(s, e), id) && FiredFor(Step(s, e).proxy.fired, id) == FiredFor(s.proxy.fired, id)
  {
    if e.TellFailure? {
      FireAt(s.proxy.fired, e.id, Callback, SendFailed, id);
    }
    hide Fire, FireAll, FiredFor;
  }

  /** After a detach no callback fires, whatever happens, but that of a send that was about to report its failure. */
  lemma {:induction false} QuietForever(s: System, more: seq<Event>, id: Id)
    requires Quiet(s, id)
    ensures Quiet(Run(s, more), id) && FiredFor(Run(s, more).proxy.fired, id) == FiredFor(s.proxy.fired, id)
  {
    hide Quiet, Step;
    if more != [] {
      QuietForever(s, more[..|more| - 1], id);
      StaysQuiet(Run(s, more[..|more| - 1]), more[|more| - 1], id);
    }
  }

  /** So much holds of every request of a run that is then detached. */
  lemma DetachedIsQuiet(events: seq<Event>, more: seq<Event>, id: Id)
    requires var s := Run(STARTED, events);
      s.attached && !s.pump.Handling? && !s.supervisor.Draining? && !At(s, id, HoldsCallback)
    ensures var s := Run(STARTED, events);
      FiredFor(Run(Run(s, [Unsubscribe, DetachAll]), more).proxy.fired, id) ==
      FiredFor(s.proxy.fired, id) + if id in s.proxy.pending && s.proxy.pending[id] != Silent then [Detached] else []
  {
    var s := Run(STARTED, events);
    RunTwo(s, Unsubscribe, DetachAll);
    DetachUninterrupted(s);
    hide FireAll, Run, FiredFor;
    QuietForever(Run(s, [Unsubscribe, DetachAll]), more, id);
  }
}
