/** The Subscribe / Unsubscribe / poll-thread protocol of ProcessMonitorBPFLoader.

    Any number of threads call Subscribe and Unsubscribe while the poll thread of each
    incarnation of the BPF object runs on its own.  `_lock` is a monitor: it is taken and
    released by steps of its own, `Monitor.Wait` parks a caller in the wait set and
    `Monitor.PulseAll` moves every parked caller back to competing for the lock.  Initialize and
    Shutdown are split into stages, so that other threads run between their foreign calls.
 */
module LoaderProtocol {
  import opened Common

  type ThreadId = nat
  type Monitor = nat

  /** A native handle kept in a static field; `Live(g)` belongs to the g-th Initialize. */
  datatype Handle = Zero | Live(gen: nat)

  /** The static fields of the loader. */
  datatype Statics = Statics(
    monitors: seq<Monitor>,
    shutdownInProgress: bool,
    isShutdown: bool,
    bpfObject: Handle,
    link: Handle,
    ringBuffer: Handle,
    pollCts: Handle,
    pollThread: Handle)

  /** Where a thread stands inside Subscribe or Unsubscribe. */
  datatype Pc =
    | SubEnter(pm: Monitor)              // wants _lock
    | SubCheck(pm: Monitor)              // holds _lock, about to test the wait loop
    | SubWait(pm: Monitor)               // parked in Monitor.Wait
    | SubWake(pm: Monitor)               // pulsed, wants _lock again
    | SubInit(pm: Monitor, stage: nat)   // holds _lock, inside Initialize
    | SubAdd(pm: Monitor)                // holds _lock, about to add the monitor
    | UnsubEnter(pm: Monitor)            // wants _lock
    | UnsubRemove(pm: Monitor)           // holds _lock, about to remove the monitor
    | UnsubJoin(thread: Handle)          // outside _lock, joining the captured thread
    | UnsubReenter                       // joined, wants _lock for Shutdown
    | UnsubShutdown(stage: nat)          // holds _lock, inside Shutdown

  /** What the ring buffer hands to the callback, as far as the callback branches on it. */
  datatype Record = Record(size: nat, operation: nat, pid: nat)

  /** What the handlers of a monitor are told. */
  datatype Notice = Created(pid: nat) | Destroyed(pid: nat)

  /** Where a poll thread stands. Everything but `Testing` and `Exited` is inside ring_buffer__poll. */
  datatype PollPc =
    | Testing                               // about to test the cancellation token
    | Polling                               // in ring_buffer__poll
    | Lookup(record: Record)                // in the callback, reading the BPF maps
    | WantLock(notice: Notice)              // in the callback, wants _lock
    | Handlers(notice: Notice, next: nat)   // in the callback, holds _lock, raising monitor `next`
    | Exited

  datatype Lock = Free | ByCall(t: ThreadId) | ByPoll(g: nat)

  /** Bookkeeping of the environment: how far each monitor has come. */
  datatype Status = Subscribing(t: ThreadId) | Subscribed | Unsubscribing(t: ThreadId) | Unsubscribed

  datatype Stopper = Nobody | Caller(t: ThreadId)

  datatype Event = InitBegin | InitEnd | ShutdownBegin | ShutdownEnd

  datatype State = State(
    st: Statics,
    lock: Lock,
    calls: map<ThreadId, Pc>,     // the calls that have not returned
    polls: map<nat, PollPc>,      // one poll thread per incarnation
    cancelled: set<nat>,          // incarnations whose token is cancelled
    gen: nat,                     // number of Initialize calls begun
    status: map<Monitor, Status>,
    stopper: Stopper,             // the caller that set _shutdownInProgress, until it clears it
    log: seq<Event>,
    raised: seq<(Notice, Monitor)>)   // what the handlers were told so far

  const NoStatics := Statics([], false, false, Zero, Zero, Zero, Zero, Zero)
  const Initial := State(NoStatics, Free, map[], map[], {}, 0, map[], Nobody, [], [])

  datatype Step =
    | BeginSubscribe(t: ThreadId, pm: Monitor)
    | BeginUnsubscribe(t: ThreadId, pm: Monitor)
    | Acquire(t: ThreadId)
    | TestLoop(t: ThreadId)
    | InitStage(t: ThreadId)
    | Add(t: ThreadId)
    | Remove(t: ThreadId)
    | Join(t: ThreadId)
    | ShutdownStage(t: ThreadId)
    | Poll(g: nat, to: PollPc)

  // ------------------------------------------------------------------ static-field updates

  function OpenObject(st: Statics, g: nat): Statics { st.(bpfObject := Live(g), link := Live(g)) }

  function NewRing(st: Statics, g: nat): Statics { st.(ringBuffer := Live(g)) }

  function StartPoll(st: Statics, g: nat): Statics {
    st.(isShutdown := false, pollCts := Live(g), pollThread := Live(g))
  }

  predicate TearsDown(st: Statics) { !st.isShutdown && st.bpfObject != Zero }

  function DetachLink(st: Statics): Statics { if TearsDown(st) then st.(link := Zero) else st }

  function FreeRing(st: Statics): Statics {
    if TearsDown(st) && st.ringBuffer != Zero
    then st.(pollCts := Zero, pollThread := Zero, ringBuffer := Zero)
    else st
  }

  function CloseObject(st: Statics): Statics {
    if st.isShutdown then st else st.(bpfObject := Zero, isShutdown := true)
  }

  /** List<T>.Remove: drop the first occurrence, if any. */
  function Removed(ms: seq<Monitor>, pm: Monitor): seq<Monitor> {
    var i := IndexOf(ms, pm);
    if i < |ms| then Without(ms, i) else ms
  }

  /** The locked half of Unsubscribe: emptying the list announces the shutdown. */
  function RemoveMonitor(st: Statics, pm: Monitor): Statics {
    var ms := Removed(st.monitors, pm);
    st.(monitors := ms, shutdownInProgress := st.shutdownInProgress || ms == [])
  }

  /** `_pollCts?.Cancel()`. */
  function Cancels(st: Statics): set<nat> { if st.pollCts.Live? then {st.pollCts.gen} else {} }

  // ------------------------------------------------------------------ the steps

  predicate HoldsLock(pc: Pc) {
    pc.SubCheck? || pc.SubInit? || pc.SubAdd? || pc.UnsubRemove? || pc.UnsubShutdown?
  }

  predicate WantsLock(pc: Pc) {
    pc.SubEnter? || pc.SubWake? || pc.UnsubEnter? || pc.UnsubReenter?
  }

  function Entered(pc: Pc): Pc
    requires WantsLock(pc)
  {
    match pc
    case SubEnter(pm) => SubCheck(pm)
    case SubWake(pm) => SubCheck(pm)
    case UnsubEnter(pm) => UnsubRemove(pm)
    case UnsubReenter => UnsubShutdown(0)
  }

  predicate At(s: State, g: nat, pc: PollPc) { g in s.polls && s.polls[g] == pc }

  const PROCESS_INFO_SIZE: nat := 112
  const PROCESS_OPERATION_COMPLETE: nat := 0
  const PROCESS_OPERATION_DESTROY: nat := 1

  /** Where the callback goes with a record: records of another size or operation are ignored. */
  function Sorted(r: Record): PollPc {
    if r.size != PROCESS_INFO_SIZE then Polling
    else if r.operation == PROCESS_OPERATION_COMPLETE then WantLock(Created(r.pid))
    else if r.operation == PROCESS_OPERATION_DESTROY then WantLock(Destroyed(r.pid))
    else Polling
  }

  /** One move of the poll thread of incarnation `g`.  ring_buffer__poll may fail, time out or
      deliver a record; the callback raises the handlers of every listed monitor under _lock. */
  predicate PollMoves(s: State, g: nat, from: PollPc, to: PollPc) {
    match from
    case Testing => to == if g in s.cancelled then Exited else Polling
    case Polling => to == Exited || to == Testing || to.Lookup?
    case Lookup(r) => to == Sorted(r)
    case WantLock(e) => to == Handlers(e, 0) && s.lock == Free
    case Handlers(e, n) => to == if n < |s.st.monitors| then Handlers(e, n + 1) else Polling
    case Exited => false
  }

  predicate Enabled(s: State, step: Step) {
    match step
    // A monitor subscribes once, and unsubscribes at most once and only after Subscribe returned.
    case BeginSubscribe(t, pm) => t !in s.calls && pm !in s.status
    case BeginUnsubscribe(t, pm) => t !in s.calls && pm in s.status && s.status[pm] == Subscribed
    case Acquire(t) => t in s.calls && WantsLock(s.calls[t]) && s.lock == Free
    case TestLoop(t) => t in s.calls && s.calls[t].SubCheck?
    case InitStage(t) => t in s.calls && s.calls[t].SubInit? && s.calls[t].stage < 3
    case Add(t) => t in s.calls && s.calls[t].SubAdd?
    case Remove(t) => t in s.calls && s.calls[t].UnsubRemove?
    case Join(t) =>
      && t in s.calls && s.calls[t].UnsubJoin?
      && (s.calls[t].thread.Live? ==> At(s, s.calls[t].thread.gen, Exited))
    case ShutdownStage(t) => t in s.calls && s.calls[t].UnsubShutdown? && s.calls[t].stage < 3
    case Poll(g, to) => g in s.polls && PollMoves(s, g, s.polls[g], to)
  }

  function Pulsed(calls: map<ThreadId, Pc>): map<ThreadId, Pc> {
    map t | t in calls :: if calls[t].SubWait? then SubWake(calls[t].pm) else calls[t]
  }

  function ApplyInit(s: State, t: ThreadId): State
    requires Enabled(s, InitStage(t))
  {
    var pm := s.calls[t].pm;
    match s.calls[t].stage
    case 0 =>
      s.(gen := s.gen + 1, st := OpenObject(s.st, s.gen + 1),
         calls := s.calls[t := SubInit(pm, 1)], log := s.log + [InitBegin])
    case 1 =>
      s.(st := NewRing(s.st, s.gen), calls := s.calls[t := SubInit(pm, 2)])
    case _ =>
      s.(st := StartPoll(s.st, s.gen), polls := s.polls[s.gen := Testing],
         calls := s.calls[t := SubAdd(pm)], log := s.log + [InitEnd])
  }

  function ApplyRemove(s: State, t: ThreadId): State
    requires Enabled(s, Remove(t))
  {
    var pm := s.calls[t].pm;
    var st := RemoveMonitor(s.st, pm);
    var status := s.status[pm := Unsubscribed];
    if st.monitors == [] then
      s.(st := st, lock := Free, status := status, stopper := Caller(t),
         cancelled := s.cancelled + Cancels(st),
         calls := s.calls[t := UnsubJoin(st.pollThread)])
    else
      s.(st := st, lock := Free, status := status, calls := s.calls - {t})
  }

  function ApplyShutdown(s: State, t: ThreadId): State
    requires Enabled(s, ShutdownStage(t))
  {
    match s.calls[t].stage
    case 0 =>
      s.(st := DetachLink(s.st), calls := s.calls[t := UnsubShutdown(1)],
         log := s.log + [ShutdownBegin])
    case 1 =>
      s.(st := FreeRing(s.st), calls := s.calls[t := UnsubShutdown(2)],
         cancelled := s.cancelled + Cancels(s.st))
    case _ =>
      s.(st := CloseObject(s.st).(shutdownInProgress := false), lock := Free, stopper := Nobody,
         calls := Pulsed(s.calls - {t}), log := s.log + [ShutdownEnd])
  }

  /** What a move of the poll thread of `g` adds to the log: the call that ends with it. */
  function Told(s: State, g: nat, to: PollPc): seq<(Notice, Monitor)>
    requires g in s.polls
  {
    if s.polls[g].Handlers? && to.Handlers? && s.polls[g].next < |s.st.monitors|
    then [(s.polls[g].notice, s.st.monitors[s.polls[g].next])]
    else []
  }

  function Apply(s: State, step: Step): State
    requires Enabled(s, step)
  {
    match step
    case BeginSubscribe(t, pm) => s.(calls := s.calls[t := SubEnter(pm)], status := s.status[pm := Subscribing(t)])
    case BeginUnsubscribe(t, pm) => s.(calls := s.calls[t := UnsubEnter(pm)], status := s.status[pm := Unsubscribing(t)])
    case Acquire(t) => s.(lock := ByCall(t), calls := s.calls[t := Entered(s.calls[t])])
    case TestLoop(t) =>
      var pm := s.calls[t].pm;
      if s.st.shutdownInProgress then
        s.(lock := Free, calls := s.calls[t := SubWait(pm)])
      else
        s.(calls := s.calls[t := if s.st.monitors == [] then SubInit(pm, 0) else SubAdd(pm)])
    case InitStage(t) => ApplyInit(s, t)
    case Add(t) =>
      var pm := s.calls[t].pm;
      s.(st := s.st.(monitors := s.st.monitors + [pm]), status := s.status[pm := Subscribed],
         lock := Free, calls := s.calls - {t})
    case Remove(t) => ApplyRemove(s, t)
    case Join(t) => s.(calls := s.calls[t := UnsubReenter])
    case ShutdownStage(t) => ApplyShutdown(s, t)
    case Poll(g, to) =>
      s.(polls := s.polls[g := to], raised := s.raised + Told(s, g, to),
         lock := if to.Handlers? then ByPoll(g) else if s.polls[g].Handlers? then Free else s.lock)
  }

  // ------------------------------------------------------------------ runs

  /** `steps` can be taken one after the other from `s`. */
  predicate Legal(s: State, steps: seq<Step>)
    decreases |steps|
  {
    steps == [] || (Enabled(s, steps[0]) && Legal(Apply(s, steps[0]), steps[1..]))
  }

  function Final(s: State, steps: seq<Step>): State
    requires Legal(s, steps)
    decreases |steps|
  {
    if steps == [] then s else Final(Apply(s, steps[0]), steps[1..])
  }

  ghost predicate Reachable(s: State) {
    exists steps :: Legal(Initial, steps) && Final(Initial, steps) == s
  }

  // ------------------------------------------------------------------ the invariant

  predicate Stopping(pc: Pc) { pc.UnsubJoin? || pc.UnsubReenter? || pc.UnsubShutdown? }

  predicate Leaving(pc: Pc) { pc.UnsubEnter? || pc.UnsubRemove? }

  predicate Joining(pc: Pc) {
    pc.SubEnter? || pc.SubCheck? || pc.SubWait? || pc.SubWake? || pc.SubInit? || pc.SubAdd?
  }

  function Cycle(i: nat): Event {
    match i % 4
    case 0 => InitBegin
    case 1 => InitEnd
    case 2 => ShutdownBegin
    case _ => ShutdownEnd
  }

  /** 0: down, 1: initializing, 2: up, 3: shutting down. */
  function Phase(s: State): nat { |s.log| % 4 }

  ghost predicate LockInv(s: State) {
    && (forall t :: t in s.calls ==> (HoldsLock(s.calls[t]) <==> s.lock == ByCall(t)))
    && (s.lock.ByCall? ==> s.lock.t in s.calls)
    && (forall g :: g in s.polls ==> (s.polls[g].Handlers? <==> s.lock == ByPoll(g)))
    && (s.lock.ByPoll? ==> s.lock.g in s.polls)
  }

  predicate Listed(status: Status) { status.Subscribed? || status.Unsubscribing? }

  ghost predicate MonitorInv(s: State) {
    && (forall i, j :: 0 <= i < j < |s.st.monitors| ==> s.st.monitors[i] != s.st.monitors[j])
    && (forall pm :: pm in s.st.monitors <==> pm in s.status && Listed(s.status[pm]))
    && (forall t :: t in s.calls ==> CallOwns(s, t, s.calls[t]))
  }

  predicate CallOwns(s: State, t: ThreadId, pc: Pc) {
    && (Joining(pc) ==> pc.pm in s.status && s.status[pc.pm] == Subscribing(t))
    && (Leaving(pc) ==> pc.pm in s.status && s.status[pc.pm] == Unsubscribing(t))
  }

  ghost predicate StopInv(s: State) {
    && (forall t :: t in s.calls ==> (Stopping(s.calls[t]) <==> s.stopper == Caller(t)))
    && (s.stopper.Caller? ==> s.stopper.t in s.calls)
    && (s.st.shutdownInProgress <==> s.stopper.Caller?)
    && (forall t :: t in s.calls && s.calls[t].SubWait? ==> s.st.shutdownInProgress)
    && (s.st.shutdownInProgress ==> s.st.monitors == [] && Phase(s) >= 2)
  }

  /** What the position of one caller says about the resources. */
  predicate CallFits(s: State, pc: Pc) {
    match pc
    case SubInit(_, stage) => if stage == 0 then Phase(s) == 0 && !s.st.shutdownInProgress else Phase(s) == 1
    case SubAdd(_) => Phase(s) == 2 && !s.st.shutdownInProgress
    case UnsubJoin(h) => Phase(s) == 2 && h == Live(s.gen)
    case UnsubReenter => Phase(s) == 2 && At(s, s.gen, Exited)
    case UnsubShutdown(stage) =>
      At(s, s.gen, Exited) && (if stage == 0 then Phase(s) == 2 else Phase(s) == 3)
    case _ => true
  }

  predicate AllLive(st: Statics, g: nat) {
    && st.bpfObject == st.link == st.ringBuffer == st.pollCts == st.pollThread == Live(g)
    && !st.isShutdown
  }

  predicate AllZero(st: Statics) {
    st.bpfObject == st.link == st.ringBuffer == st.pollCts == st.pollThread == Zero
  }

  ghost predicate PhaseInv(s: State) {
    match Phase(s)
    case 0 => AllZero(s.st) && s.st.monitors == []
    case 1 =>
      && s.st.monitors == [] && !s.st.shutdownInProgress
      && s.lock.ByCall? && s.lock.t in s.calls && s.calls[s.lock.t].SubInit?
      && var stage := s.calls[s.lock.t].stage;
      && 1 <= stage <= 2
      && s.st.bpfObject == s.st.link == Live(s.gen)
      && s.st.pollCts == s.st.pollThread == Zero
      && s.st.ringBuffer == (if stage == 1 then Zero else Live(s.gen))
    case 2 =>
      && AllLive(s.st, s.gen) && s.gen in s.polls
      && (s.st.shutdownInProgress ==> s.gen in s.cancelled)
      && (s.st.monitors == [] && !s.st.shutdownInProgress ==>
            s.lock.ByCall? && s.lock.t in s.calls && s.calls[s.lock.t].SubAdd?)
    case _ =>
      && s.st.shutdownInProgress && !s.st.isShutdown
      && s.lock.ByCall? && s.lock.t in s.calls && s.calls[s.lock.t].UnsubShutdown?
      && var stage := s.calls[s.lock.t].stage;
      && 1 <= stage <= 2
      && s.st.bpfObject == Live(s.gen) && s.st.link == Zero
      && s.st.ringBuffer == s.st.pollCts == s.st.pollThread == (if stage == 1 then Live(s.gen) else Zero)
  }

  ghost predicate PollInv(s: State) {
    && (forall g :: g in s.polls ==> g <= s.gen)
    && (forall g :: g in s.polls && s.polls[g] != Exited ==> g == s.gen && Phase(s) == 2)
    && (Phase(s) == 1 ==> s.gen !in s.polls)
    && (forall g :: g in s.polls && s.polls[g].Handlers? ==> s.polls[g].next <= |s.st.monitors|)
  }

  ghost predicate Inv(s: State) {
    && LockInv(s) && MonitorInv(s) && StopInv(s) && PhaseInv(s) && PollInv(s)
    && (forall t :: t in s.calls ==> CallFits(s, s.calls[t]))
    && (forall i :: 0 <= i < |s.log| ==> s.log[i] == Cycle(i))
  }
}
