/**
  The objects behind the event pipeline, each with the fields its source updates in place. Every method is proved
  against the atomic actions of `EventPipeline`: a method that runs without interruption does what its
  actions do one after the other.
 */
module AgentRuntime {
  import opened Wrappers
  import opened Bytecode
  import opened JavaVm
  import opened EventPipeline

  /** Runs the atomic actions of one event call back to back, until it returns, waits or aborts. */
  function RunCall(a: Agent, t: Tid, ph: Phase): (Agent, Phase)
    decreases PhaseRank(ph)
  {
    if ph.Idle? || a.aborted then (a, ph)
    else
      var r := HandlerAction(a, t, ph);
      if r.None? then (a, ph)
      else if r.value.1 == ph then r.value
      else RunCall(r.value.0, t, r.value.1)
  }

  function PhaseRank(ph: Phase): nat {
    match ph
    case Idle => 0
    case AtReturn => 1
    case Sent => 2
    case Holding => 3
    case AtLock => 4
    case AtCount(_) => 5
    case AtFlag(_) => 6
  }

  /** Runs the steps of start-up back to back, until Java runs, or one waits or aborts. */
  function RunLoading(a: Agent): Agent
    decreases if a.aborted then 0 else 10 - a.stage.Rank()
  {
    if JavaRuns(a) || a.aborted then a
    else
      var r := StageAction(a);
      if r.None? then a else RunLoading(r.value)
  }

  /** How a call into native code ends, if it does. */
  datatype Ending = Returned | Waits | Panics

  /** The two counters of ApplicationEvents. */
  class ApplicationEvents {
    var monitorEnterCounter: int
    var monitorExitCounter: int

    constructor ()
      ensures monitorEnterCounter == 0 && monitorExitCounter == 0
    {
      monitorEnterCounter, monitorExitCounter := 0, 0;
    }

    method IncrementEnter()
      modifies this`monitorEnterCounter
      ensures monitorEnterCounter == Wrap32(old(monitorEnterCounter) + 1)
      ensures old(monitorEnterCounter) == 0x7fff_ffff ==> monitorEnterCounter == -0x8000_0000
      ensures -0x8000_0000 <= old(monitorEnterCounter) < 0x7fff_ffff ==>
                monitorEnterCounter == old(monitorEnterCounter) + 1
    {
      monitorEnterCounter := Wrap32(monitorEnterCounter + 1);
    }

    method IncrementExit()
      modifies this`monitorExitCounter
      ensures monitorExitCounter == Wrap32(old(monitorExitCounter) + 1)
      ensures old(monitorExitCounter) == 0x7fff_ffff ==> monitorExitCounter == -0x8000_0000
      ensures -0x8000_0000 <= old(monitorExitCounter) < 0x7fff_ffff ==>
                monitorExitCounter == old(monitorExitCounter) + 1
    {
      monitorExitCounter := Wrap32(monitorExitCounter + 1);
    }
  }

  /** The global slot, its mutex, the channel behind it and the worker. */
  class Recorder {
    var mutex: Option<Holder>
    var poisoned: bool
    var slot: bool
    var receiver: Receiver
    var queued: nat
    var worker: EventPipeline.Worker
    var received: nat

    constructor ()
      ensures mutex == None && !poisoned && !slot && receiver == NoReceiver && queued == 0 && worker == NotSpawned
          && received == 0
    {
      mutex, poisoned, slot, receiver, queued, worker, received := None, false, false, NoReceiver, 0, NotSpawned, 0;
    }

    /** Make the channel, put the sender into the slot under the lock, spawn the worker. */
    method StartForwardingWorkerThread() returns (o: Ending)
      modifies this
      ensures o == if old(mutex).Some? then Waits else if old(poisoned) then Panics else Returned
      ensures receiver == Receiving && unchanged(`mutex) && unchanged(`poisoned) && unchanged(`queued)
          && unchanged(`received)
      ensures if o.Returned? then slot && worker == Looping else unchanged(`slot) && unchanged(`worker)
    {
      receiver := Receiving;
      if mutex.Some? {
        return Waits;
      }
      if poisoned {
        return Panics;
      }
      mutex := Some(Loader);
      slot := true;
      mutex := None;
      worker := Looping;
      return Returned;
    }

    /** Locks the slot, takes the sender out of it and sends one message. Each of the three steps may panic. */
    method Send(t: Tid) returns (o: Ending)
      modifies this
      ensures o == if old(mutex).Some? then Waits
                   else if !old(poisoned) && slot && receiver == Receiving then Returned
                   else Panics
      ensures unchanged(`mutex) && poisoned == (old(poisoned) || o.Panics?)
      ensures queued == old(queued) + (if o.Returned? then 1 else 0)
      ensures unchanged(`slot) && unchanged(`receiver) && unchanged(`worker) && unchanged(`received)
    {
      if mutex.Some? {
        return Waits;
      }
      if poisoned {
        return Panics;
      }
      mutex := Some(JavaThread(t));
      if slot && receiver == Receiving {
        queued := queued + 1;
        o := Returned;
      } else {
        poisoned := true;
        o := Panics;
      }
      mutex := None;
    }

    /** One iteration of the worker's loop; false if `recv` waits. */
    method ReceiveOnce() returns (moved: bool)
      modifies this
      ensures moved <==> old(worker) == Looping && (old(queued) > 0 || !old(slot))
      ensures moved && old(queued) > 0 ==>
                queued == old(queued) - 1 && received == old(received) + 1 && unchanged(`worker) && unchanged(`receiver)
      ensures moved && old(queued) == 0 ==>
            worker == Panicked && receiver == Dropped && unchanged(`queued) && unchanged(`received)
      ensures !moved ==> unchanged(this)
      ensures unchanged(`mutex) && unchanged(`poisoned) && unchanged(`slot)
    {
      if worker != Looping {
        return false;
      }
      if queued > 0 {
        queued := queued - 1;
        received := received + 1;
        return true;
      }
      if slot {
        return false;
      }
      worker := Panicked;
      receiver := Dropped;
      return true;
    }
  }

  class AgentLibrary {
    var stage: EventPipeline.Stage
    var instrumentationIsEnabled: bool  // grafted onto java/lang/Object
    var aborted: bool
    const events: ApplicationEvents
    const recorder: Recorder

    constructor ()
      ensures Snapshot() == BOOT && fresh(events) && fresh(recorder)
    {
      stage, instrumentationIsEnabled, aborted := OnLoad, false, false;
      events := new ApplicationEvents();
      recorder := new Recorder();
    }

    function Snapshot(): Agent
      reads this, events, recorder
    {
      Agent(stage, instrumentationIsEnabled, events.monitorEnterCounter, events.monitorExitCounter,
            recorder.mutex, recorder.poisoned, recorder.slot, recorder.receiver, recorder.queued, recorder.worker,
            recorder.received, aborted)
    }

    /** `setup_agent`: configure the environment, then start the recorder. */
    method SetupAgent() returns (o: Ending)
      requires stage == OnLoad && !aborted
      modifies this, recorder
      ensures Snapshot() == RunLoading(old(Snapshot()))
      ensures o.Returned? <==> JavaRuns(Snapshot())
    {
      ghost var before := Snapshot();
      UnfoldLoading(before);
      stage := Configured;
      o := recorder.StartForwardingWorkerThread();
      if o.Returned? {
        stage := Primordial;
      } else {
        stage := ChannelMade;
        aborted := o.Panics?;
      }
    }

    /** `pj_vm_start` calls `phasicj$agent$rt$enableInstrumentation`. */
    method VmStart()
      requires stage == Primordial
      modifies this`stage, this`instrumentationIsEnabled
      ensures StageAction(old(Snapshot())) == Some(Snapshot())
    {
      instrumentationIsEnabled := true;
      stage := Started;
    }

    /** `phasicj$agent$rt$monitorEnter` as grafted onto java/lang/Object, run until it returns, waits for the slot or
        aborts. */
    method MonitorEnter(t: Tid) returns (ph: Phase)
      requires !aborted
      modifies this`aborted, events, recorder
      ensures (Snapshot(), ph) == RunCall(old(Snapshot()), t, AtFlag(Enter))
    {
      ghost var before := Snapshot();
      UnfoldEnter(before, t);
      ph := AtReturn;
      if instrumentationIsEnabled {
        events.IncrementEnter();
        var wasPoisoned := recorder.poisoned;
        var o := recorder.Send(t);
        if !o.Returned? {
          ph := if o.Waits? || wasPoisoned then AtLock else Holding;
        }
        aborted := o.Panics?;
      }
    }

    /** `phasicj$agent$rt$monitorExit`; the native side only logs. */
    method MonitorExit(t: Tid)
      requires !aborted
      modifies events
      ensures (Snapshot(), AtReturn) == RunCall(old(Snapshot()), t, AtFlag(Exit))
    {
      UnfoldExit(Snapshot(), t);
      if instrumentationIsEnabled {
        events.IncrementExit();
      }
    }

    method WorkerIteration() returns (moved: bool)
      modifies recorder
      ensures WorkerAction(old(Snapshot())) == if moved then Some(Snapshot()) else None
      ensures !moved ==> Snapshot() == old(Snapshot())
    {
      moved := recorder.ReceiveOnce();
    }
  }

  lemma {:induction false} UnfoldLoading(a: Agent)
    requires a.stage == OnLoad && !a.aborted
    ensures var made := a.(stage := ChannelMade, receiver := Receiving);
            RunLoading(a) ==
            if a.mutex.Some? then made
            else if a.poisoned then Aborted(made)
            else made.(stage := Primordial, slot := true, worker := Looping)
  {
    var made := a.(stage := ChannelMade, receiver := Receiving);
    assert RunLoading(a) == RunLoading(a.(stage := Configured)) == RunLoading(made);
    if a.mutex.None? && !a.poisoned {
      var a3 := StageAction(made).value;
      var a4 := StageAction(a3).value;
      var a5 := StageAction(a4).value;
      assert RunLoading(made) == RunLoading(a3) == RunLoading(a4);
      assert RunLoading(a4) == RunLoading(a5) == RunLoading(StageAction(a5).value);
    }
  }

  lemma {:induction false} UnfoldEnter(a: Agent, t: Tid)
    requires !a.aborted
    ensures var counted := a.(enterCounter := Wrap32(a.enterCounter + 1));
            RunCall(a, t, AtFlag(Enter)) ==
            if !a.flag then (a, AtReturn)
            else if a.mutex.Some? then (counted, AtLock)
            else if a.poisoned then (Aborted(counted), AtLock)
            else if !a.slot || !a.receiver.Receiving? then (Aborted(counted), Holding)
            else (counted.(queued := a.queued + 1), AtReturn)
  {
    if a.flag {
      var counted := a.(enterCounter := Wrap32(a.enterCounter + 1));
      assert RunCall(a, t, AtFlag(Enter)) == RunCall(a, t, AtCount(Enter)) == RunCall(counted, t, AtLock);
      if a.mutex.None? && !a.poisoned {
        var held := counted.(mutex := Some(JavaThread(t)));
        assert RunCall(counted, t, AtLock) == RunCall(held, t, Holding);
        if a.slot && a.receiver.Receiving? {
          var sent := held.(queued := a.queued + 1);
          assert RunCall(held, t, Holding) == RunCall(sent, t, Sent) == RunCall(sent.(mutex := None), t, AtReturn);
        }
      }
    }
  }

  lemma {:induction false} UnfoldExit(a: Agent, t: Tid)
    requires !a.aborted
    ensures RunCall(a, t, AtFlag(Exit)) == (if a.flag then a.(exitCounter := Wrap32(a.exitCounter + 1)) else a,
        AtReturn)
  {
    assert RunCall(a, t, AtFlag(Exit)) == RunCall(a, t, if a.flag then AtCount(Exit) else AtReturn);
  }
}
