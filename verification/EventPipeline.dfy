/**
  The agent's side of an event: the enable flag grafted onto `java/lang/Object`, the two event counters, the
  mutex-guarded channel slot, the unbounded channel, the worker thread, and the start-up and JVM phases.
  One function per atomic action; a failed `unwrap` is an outcome, not a precondition.
 */
module EventPipeline {
  import opened Wrappers
  import opened Bytecode
  import opened JavaVm

  /** Progress of the agent: the steps of `setup_agent` in program order, then the JVMTI phases. Between `Primordial`
      and `Started` the JVM runs Java code but has not yet called `pj_vm_start`. */
  datatype Stage =
    | OnLoad | Configured | ChannelMade | SlotLocked | SlotFilled | SlotReleased
    | Primordial | Started | Live | Dead
  {
    function Rank(): nat {
      match this
      case OnLoad => 0 case Configured => 1 case ChannelMade => 2 case SlotLocked => 3 case SlotFilled => 4
      case SlotReleased => 5 case Primordial => 6 case Started => 7 case Live => 8 case Dead => 9
    }
  }

  datatype Holder = Loader | JavaThread(t: Tid)
  datatype Receiver = NoReceiver | Receiving | Dropped
  datatype Worker = NotSpawned | Looping | Panicked

  datatype Agent = Agent(
    stage: Stage,
    flag: bool,               // phasicj$agent$rt$instrumentationIsEnabled
    enterCounter: int,        // AtomicInteger monitorEnterCounter
    exitCounter: int,         // AtomicInteger monitorExitCounter
    mutex: Option<Holder>,    // the guard of EVENT_FORWARDING_CHANNEL
    poisoned: bool,
    slot: bool,               // whether the slot holds the sender
    receiver: Receiver,
    queued: nat,              // messages in the channel; each is `()`
    worker: Worker,
    received: nat,            // iterations of the worker's loop
    aborted: bool)            // a panic inside a native method

  const BOOT: Agent :=
    Agent(OnLoad, false, 0, 0, None, false, false, NoReceiver, 0, NotSpawned, 0, false)

  /** Where a thread is inside an event call. */
  datatype Phase =
    | Idle
    | AtFlag(kind: Kind)      // in java/lang/Object, about to read the flag
    | AtCount(kind: Kind)     // in ApplicationEvents, about to increment a counter
    | AtLock                  // in native monitorEnter, about to lock the slot
    | Holding                 // holds the slot, about to unwrap the sender and send
    | Sent                    // has sent, about to drop the guard
    | AtReturn                // about to return to the application

  /** Java's `int` addition. */
  function Wrap32(n: int): int {
    (n + 0x8000_0000) % 0x1_0000_0000 - 0x8000_0000
  }

  function Aborted(a: Agent): Agent {
    a.(aborted := true, poisoned := true, mutex := None)
  }

  /** One atomic action of thread `t` inside an event call; None means that the thread has to wait. */
  function HandlerAction(a: Agent, t: Tid, ph: Phase): Option<(Agent, Phase)> {
    match ph
    case Idle => None
    case AtFlag(k) => Some((a, if a.flag then AtCount(k) else AtReturn))
    case AtCount(Enter) => Some((a.(enterCounter := Wrap32(a.enterCounter + 1)), AtLock))
    case AtCount(Exit) => Some((a.(exitCounter := Wrap32(a.exitCounter + 1)), AtReturn))
    case AtLock =>
      if a.mutex.Some? then None
      else if a.poisoned then Some((Aborted(a), ph))
      else Some((a.(mutex := Some(JavaThread(t))), Holding))
    case Holding =>
      if !a.slot || !a.receiver.Receiving? then Some((Aborted(a), ph))
      else Some((a.(queued := a.queued + 1), Sent))
    case Sent => Some((a.(mutex := None), AtReturn))
    case AtReturn => None
  }

  /** The next step of start-up or the next JVM phase. */
  function StageAction(a: Agent): Option<Agent> {
    match a.stage
    case OnLoad => Some(a.(stage := Configured))
    case Configured => Some(a.(stage := ChannelMade, receiver := Receiving))
    case ChannelMade =>
      if a.mutex.Some? then None
      else if a.poisoned then Some(Aborted(a))
      else Some(a.(stage := SlotLocked, mutex := Some(Loader)))
    case SlotLocked => Some(a.(stage := SlotFilled, slot := true))
    case SlotFilled => Some(a.(stage := SlotReleased, mutex := None))
    case SlotReleased => Some(a.(stage := Primordial, worker := Looping))
    case Primordial => Some(a.(stage := Started, flag := true))
    case Started => Some(a.(stage := Live))
    case Live => Some(a.(stage := Dead))
    case Dead => None
  }

  /** One iteration of the worker's loop: `recv` waits while the channel is empty and fails once, besides,
      no sender is left. */
  function WorkerAction(a: Agent): Option<Agent> {
    if !a.worker.Looping? then None
    else if a.queued > 0 then Some(a.(queued := a.queued - 1, received := a.received + 1))
    else if a.slot then None
    else Some(a.(worker := Panicked, receiver := Dropped))
  }

  type Phases = map<Tid, Phase>

  function PhaseOf(busy: Phases, t: Tid): Phase {
    if t in busy then busy[t] else Idle
  }

  /** No Java code runs while the agent library is being loaded. */
  predicate JavaRuns(a: Agent) {
    a.stage.Rank() >= Primordial.Rank()
  }

  /** What holds between any two actions. */
  ghost predicate Inv(a: Agent, busy: Phases) {
    && !a.aborted && !a.poisoned
    && (a.slot <==> a.stage.Rank() >= SlotFilled.Rank())
    && (a.receiver.NoReceiver? <==> a.stage.Rank() < ChannelMade.Rank())
    && !a.receiver.Dropped?
    && (a.worker.NotSpawned? <==> a.stage.Rank() < Primordial.Rank())
    && !a.worker.Panicked?
    && (a.flag <==> a.stage.Rank() >= Started.Rank())
    && (a.mutex == Some(Loader) <==> a.stage == SlotLocked || a.stage == SlotFilled)
    && (forall t :: PhaseOf(busy, t) != Idle ==> JavaRuns(a))
    && (forall t :: a.mutex == Some(JavaThread(t)) <==> PhaseOf(busy, t) == Holding || PhaseOf(busy, t) == Sent)
    && (forall t :: !PhaseOf(busy, t).Idle? && !PhaseOf(busy, t).AtFlag? && !PhaseOf(busy, t).AtReturn? ==> a.flag)
  }

  lemma {:induction false} SetPhaseSafe(a: Agent, busy: Phases, t: Tid, ph: Phase)
    requires Inv(a, busy) && JavaRuns(a)
    requires PhaseOf(busy, t) != Holding && PhaseOf(busy, t) != Sent
    requires ph.Idle? || ph.AtFlag?
    ensures Inv(a, busy[t := ph])
  {
    var busy' := busy[t := ph];
    assert forall u :: PhaseOf(busy', u) == if u == t then ph else PhaseOf(busy, u);
    forall u ensures a.mutex == Some(JavaThread(u)) <==> PhaseOf(busy', u) == Holding || PhaseOf(busy', u) == Sent {
      assert a.mutex == Some(JavaThread(u)) <==> PhaseOf(busy, u) == Holding || PhaseOf(busy, u) == Sent;
    }
  }

  lemma {:induction false} HandlerActionSafe(a: Agent, busy: Phases, t: Tid)
    requires Inv(a, busy)
    ensures var r := HandlerAction(a, t, PhaseOf(busy, t));
            r.Some? ==> Inv(r.value.0, busy[t := r.value.1])
  {
    var r := HandlerAction(a, t, PhaseOf(busy, t));
    if r.Some? {
      var busy' := busy[t := r.value.1];
      assert forall u :: PhaseOf(busy', u) == if u == t then r.value.1 else PhaseOf(busy, u);
      assert JavaRuns(a);
      assert a.mutex == Some(JavaThread(t)) <==> PhaseOf(busy, t) == Holding || PhaseOf(busy, t) == Sent;
    }
  }

  lemma {:induction false} StageActionSafe(a: Agent, busy: Phases)
    requires Inv(a, busy)
    ensures StageAction(a).Some? ==> Inv(StageAction(a).value, busy)
    ensures StageAction(a).Some? <==> a.stage != Dead
    ensures StageAction(a).Some? ==> StageAction(a).value.stage.Rank() == a.stage.Rank() + 1
    ensures !JavaRuns(a) ==> StageAction(a).Some?
  {
    if a.mutex.Some? && a.mutex.value.JavaThread? {
      assert PhaseOf(busy, a.mutex.value.t) != Idle;
    }
  }

  lemma {:induction false} WorkerActionSafe(a: Agent, busy: Phases)
    requires Inv(a, busy)
    ensures WorkerAction(a).Some? ==> Inv(WorkerAction(a).value, busy)
  {}
}
