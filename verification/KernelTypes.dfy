/**
 The state of the scheduler: task slots, the strategy as the kernel sees it, the
 wait lists and the context the CPU is executing.

 One slot of `m_task_storage` is a value (`Slot`), because the source embeds the
 descriptors by value in a fixed array; the whole kernel is the record `State`.
 An `STK_ASSERT` that would fire sets `panic`, so that "no assertion fires" is a
 statement about reachable states.
 */
module KernelTypes {

  datatype Option<+T> = None | Some(value: T)

  /** `WAIT_INFINITE` is INT32_MAX; a sleep of that length still counts down. */
  const WAIT_INFINITE: int := 0x7FFF_FFFF
  /** `STK_TICKLESS_TICKS_MAX`, the longest interval the timer may suppress. */
  const TICKLESS_TICKS_MAX: int := 1000
  const YIELD_TICKS: int := 2

  /** Where a task stands inside `RequestAddTask` (its own program counter). */
  datatype AddStage = NoAdd | Posted | Flagged | Yielded

  /** `KernelTask` together with its embedded `WaitObject`. */
  datatype Slot = Slot(
    user: Option<nat>,      // m_user
    sleepPending: bool,     // STATE_SLEEP_PENDING
    removePending: bool,    // STATE_REMOVE_PENDING
    sleep: int,             // m_time_sleep
    waitOn: Option<nat>,    // m_wait_obj.m_sync_obj
    timedOut: bool,         // m_wait_obj.m_timeout
    waitLeft: int,          // m_wait_obj.m_time_wait
    addReq: Option<nat>,    // m_srt.add_task_req->user_task
    stage: AddStage)
  {
    predicate Busy() { user.Some? }
    predicate Asleep() { sleep < 0 }
    predicate Waiting() { waitOn.Some? }

    function ScheduleSleep(ticks: int): Slot {
      this.(sleepPending := sleepPending || !Asleep(), sleep := -ticks)
    }

    /** `Unbind`; the wait object keeps its last result. */
    function Unbound(): Slot {
      this.(user := None, sleepPending := false, removePending := false, sleep := 0,
            addReq := None, stage := NoAdd)
    }
  }

  const FreeSlot: Slot := Slot(None, false, false, 0, None, false, 0, None, NoAdd)

  /** A call the kernel made on the strategy. `Picked` is a non-null `GetNext`. */
  datatype Event = Added(slot: nat) | Removed(slot: nat) | Slept(slot: nat) | Woke(slot: nat) | Picked(slot: nat)

  /** The runnable and sleeping tasks of the strategy and the calls it has received. */
  datatype Strategy = Strategy(active: set<nat>, asleep: set<nat>, log: seq<Event>)
  {
    function Size(): nat { |active| + |asleep| }
    predicate Manages(i: nat) { i in active || i in asleep }

    function Apply(e: Event): Strategy {
      match e
      case Added(i) => Strategy(active + {i}, asleep, log + [e])
      case Removed(i) => Strategy(active - {i}, asleep - {i}, log + [e])
      case Slept(i) => Strategy(active - {i}, asleep + {i}, log + [e])
      case Woke(i) => Strategy(active + {i}, asleep - {i}, log + [e])
      case Picked(i) => Strategy(active, asleep, log + [e])
    }

    /** The assertion a strategy makes on entry of each call. */
    predicate Accepts(e: Event) {
      match e
      case Added(i) => !Manages(i)
      case Removed(i) => Manages(i)
      case Slept(i) => i in active
      case Woke(i) => i in asleep
      case Picked(i) => i in active
    }
  }

  const EmptyStrategy: Strategy := Strategy({}, {}, [])

  /** The strategy state reached by a history of calls. */
  function Replay(log: seq<Event>): Strategy {
    if log == [] then EmptyStrategy
    else Replay(log[..|log| - 1]).Apply(log[|log| - 1])
  }

  /** Every call in the history was acceptable when it was made. */
  predicate WellFormed(log: seq<Event>) {
    log == [] ||
    (WellFormed(log[..|log| - 1]) && Replay(log[..|log| - 1]).Accepts(log[|log| - 1]))
  }

  /** A strategy implementation: what it answers is a function of the calls it has seen. */
  datatype Policy = Policy(next: seq<Event> -> nat, first: seq<Event> -> nat)

  /** The interface contract: `GetNext` gives a runnable task when there is one, and
      `GetFirst` a managed task when there is one. */
  ghost predicate Lawful(p: Policy) {
    forall log: seq<Event> | WellFormed(log) ::
      && (Replay(log).active != {} ==> p.next(log) in Replay(log).active)
      && (Replay(log).active + Replay(log).asleep != {} ==> Replay(log).Manages(p.first(log)))
  }

  /** A call on a wait object: `SetupWait`, or the `Wake` that ends it. */
  datatype WaitEvent = Armed(slot: nat) | Ended(slot: nat, timeout: bool)

  datatype FsmState = FsmNone | Switching | Sleeping | Waking | Exiting
  datatype FsmEvent = EvSwitch | EvSleep | EvWake | EvExit

  /** A stack the CPU can execute on. `Main` is the caller of `Start`. */
  datatype Context = Main | OnTask(slot: nat) | SleepTrap | ExitTrap

  /** A context switch the kernel requested: save into `idle`, restore `active`. */
  datatype Switch = Switch(idle: Context, active: Context)

  datatype State = State(
    slots: seq<Slot>,
    strat: Strategy,
    now: Option<nat>,           // m_task_now
    fsm: FsmState,
    request: bool,              // REQ_ADD_TASK
    ticks: int,                 // m_service.m_ticks
    syncList: seq<nat>,         // m_sync_list
    waiters: seq<seq<nat>>,     // m_wait_list of every sync object
    waitLog: seq<WaitEvent>,
    cpu: Context,
    switches: seq<Switch>,      // requested since Start
    panic: bool)
  {
    function Check(ok: bool): State { this.(panic := panic || !ok) }

    /** One call on the strategy, with the strategy's own assertion. */
    function Notify(e: Event): State {
      this.(strat := strat.Apply(e), panic := panic || !strat.Accepts(e))
    }
  }

  function InitialState(slotCount: nat, objectCount: nat): State {
    State(seq(slotCount, _ => FreeSlot), EmptyStrategy, None, FsmNone, false, 0, [],
          seq(objectCount, _ => []), [], Main, [], false)
  }
}
