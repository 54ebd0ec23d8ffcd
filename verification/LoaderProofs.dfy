/** Safety, alternation and deadlock freedom of the loader protocol, over every run. */
module LoaderProofs {
  import opened Common
  import opened LoaderProtocol

  // ------------------------------------------------------------------ every step keeps the invariant

  /** The steps that neither change the resources nor the list of monitors. */
  predicate Quiet(step: Step) {
    !(step.InitStage? || step.Add? || step.Remove? || step.ShutdownStage?)
  }

  // One lemma for each part of the invariant and each kind of step.

  lemma LockKeptQuiet(s: State, step: Step)
    requires LockInv(s) && Enabled(s, step) && Quiet(step)
    ensures LockInv(Apply(s, step))
  {
  }

  lemma LockKeptLoud(s: State, step: Step)
    requires LockInv(s) && Enabled(s, step) && !Quiet(step)
    ensures LockInv(Apply(s, step))
  {
  }

  lemma WithoutRemoves(ms: seq<Monitor>, pm: Monitor)
    requires forall i, j :: 0 <= i < j < |ms| ==> ms[i] != ms[j]
    requires pm in ms
    ensures var r := Removed(ms, pm);
            && (forall i, j :: 0 <= i < j < |r| ==> r[i] != r[j])
            && (forall x :: x in r <==> x in ms && x != pm)
  {
    var i := IndexOf(ms, pm);
    var r := Removed(ms, pm);
    forall x | x in ms && x != pm ensures x in r {
      var k :| 0 <= k < |ms| && ms[k] == x;
      assert r[if k < i then k else k - 1] == x;
    }
  }

  lemma MonitorKeptQuiet(s: State, step: Step)
    requires MonitorInv(s) && Enabled(s, step) && Quiet(step)
    ensures MonitorInv(Apply(s, step))
  {
  }

  lemma MonitorKeptInit(s: State, step: Step)
    requires MonitorInv(s) && Enabled(s, step) && step.InitStage?
    ensures MonitorInv(Apply(s, step))
  {
    assert CallOwns(s, step.t, s.calls[step.t]);
  }

  lemma MonitorKeptAdd(s: State, step: Step)
    requires MonitorInv(s) && Enabled(s, step) && step.Add?
    ensures MonitorInv(Apply(s, step))
  {
    assert CallOwns(s, step.t, s.calls[step.t]);
  }

  lemma MonitorKeptRemove(s: State, step: Step)
    requires MonitorInv(s) && Enabled(s, step) && step.Remove?
    ensures MonitorInv(Apply(s, step))
  {
    assert CallOwns(s, step.t, s.calls[step.t]);
    WithoutRemoves(s.st.monitors, s.calls[step.t].pm);
  }

  lemma MonitorKeptTeardown(s: State, t: ThreadId)
    requires MonitorInv(s) && Enabled(s, ShutdownStage(t)) && s.calls[t].stage < 2
    ensures MonitorInv(Apply(s, ShutdownStage(t)))
  {
  }

  lemma MonitorKeptPulse(s: State, t: ThreadId)
    requires MonitorInv(s) && Enabled(s, ShutdownStage(t)) && s.calls[t].stage == 2
    ensures MonitorInv(Apply(s, ShutdownStage(t)))
  {
    var s' := Apply(s, ShutdownStage(t));
    forall u | u in s'.calls ensures CallOwns(s', u, s'.calls[u]) {
      assert CallOwns(s, u, s.calls[u]);
    }
  }

  lemma MonitorKeptShutdown(s: State, step: Step)
    requires MonitorInv(s) && Enabled(s, step) && step.ShutdownStage?
    ensures MonitorInv(Apply(s, step))
  {
    if s.calls[step.t].stage < 2 {
      MonitorKeptTeardown(s, step.t);
    } else {
      MonitorKeptPulse(s, step.t);
    }
  }

  lemma StopKeptQuiet(s: State, step: Step)
    requires StopInv(s) && Enabled(s, step) && Quiet(step)
    ensures StopInv(Apply(s, step))
  {
  }

  lemma StopKeptInit(s: State, step: Step)
    requires StopInv(s) && PhaseInv(s) && MonitorInv(s) && LockInv(s) && Enabled(s, step) && step.InitStage?
    requires CallFits(s, s.calls[step.t])
    ensures StopInv(Apply(s, step))
  {
    assert CallOwns(s, step.t, s.calls[step.t]);
  }

  lemma StopKeptAdd(s: State, step: Step)
    requires StopInv(s) && PhaseInv(s) && MonitorInv(s) && LockInv(s) && Enabled(s, step) && step.Add?
    requires CallFits(s, s.calls[step.t])
    ensures StopInv(Apply(s, step))
  {
    assert CallOwns(s, step.t, s.calls[step.t]);
  }

  lemma StopKeptRemove(s: State, step: Step)
    requires StopInv(s) && PhaseInv(s) && MonitorInv(s) && LockInv(s) && Enabled(s, step) && step.Remove?
    requires CallFits(s, s.calls[step.t])
    ensures StopInv(Apply(s, step))
  {
    assert CallOwns(s, step.t, s.calls[step.t]);
  }

  lemma StopKeptShutdown(s: State, step: Step)
    requires StopInv(s) && PhaseInv(s) && MonitorInv(s) && LockInv(s) && Enabled(s, step) && step.ShutdownStage?
    requires CallFits(s, s.calls[step.t])
    ensures StopInv(Apply(s, step))
  {
    assert CallOwns(s, step.t, s.calls[step.t]);
  }

  lemma PhaseKeptQuiet(s: State, step: Step)
    requires LockInv(s) && PhaseInv(s) && Enabled(s, step) && Quiet(step)
    ensures PhaseInv(Apply(s, step))
  {
  }

  lemma PhaseKeptInit(s: State, step: Step)
    requires LockInv(s) && PhaseInv(s) && StopInv(s) && MonitorInv(s) && PollInv(s) && Enabled(s, step)
    requires step.InitStage? && CallFits(s, s.calls[step.t])
    ensures PhaseInv(Apply(s, step))
  {
  }

  lemma PhaseKeptAdd(s: State, step: Step)
    requires LockInv(s) && PhaseInv(s) && StopInv(s) && MonitorInv(s) && PollInv(s) && Enabled(s, step)
    requires step.Add? && CallFits(s, s.calls[step.t])
    ensures PhaseInv(Apply(s, step))
  {
  }

  lemma PhaseKeptRemove(s: State, step: Step)
    requires LockInv(s) && PhaseInv(s) && StopInv(s) && MonitorInv(s) && PollInv(s) && Enabled(s, step)
    requires step.Remove? && CallFits(s, s.calls[step.t])
    ensures PhaseInv(Apply(s, step))
  {
  }

  lemma PhaseKeptShutdown(s: State, step: Step)
    requires LockInv(s) && PhaseInv(s) && StopInv(s) && MonitorInv(s) && PollInv(s) && Enabled(s, step)
    requires step.ShutdownStage? && CallFits(s, s.calls[step.t])
    ensures PhaseInv(Apply(s, step))
  {
  }

  lemma LogKept(s: State, step: Step)
    requires forall i :: 0 <= i < |s.log| ==> s.log[i] == Cycle(i)
    requires PhaseInv(s) && LockInv(s) && Enabled(s, step)
    requires !Quiet(step) ==> CallFits(s, s.calls[step.t])
    ensures var s' := Apply(s, step); forall i :: 0 <= i < |s'.log| ==> s'.log[i] == Cycle(i)
  {
  }

  lemma PollKeptQuiet(s: State, step: Step)
    requires PollInv(s) && Enabled(s, step) && Quiet(step)
    ensures PollInv(Apply(s, step))
  {
  }

  lemma PollKeptInit(s: State, step: Step)
    requires PollInv(s) && PhaseInv(s) && LockInv(s) && Enabled(s, step) && step.InitStage?
    requires CallFits(s, s.calls[step.t])
    ensures PollInv(Apply(s, step))
  {
  }

  lemma PollKeptAdd(s: State, step: Step)
    requires PollInv(s) && PhaseInv(s) && LockInv(s) && Enabled(s, step) && step.Add?
    requires CallFits(s, s.calls[step.t])
    ensures PollInv(Apply(s, step))
  {
  }

  lemma PollKeptRemove(s: State, step: Step)
    requires PollInv(s) && PhaseInv(s) && LockInv(s) && Enabled(s, step) && step.Remove?
    requires CallFits(s, s.calls[step.t])
    ensures PollInv(Apply(s, step))
  {
  }

  lemma PollKeptShutdown(s: State, step: Step)
    requires PollInv(s) && PhaseInv(s) && LockInv(s) && Enabled(s, step) && step.ShutdownStage?
    requires CallFits(s, s.calls[step.t])
    ensures PollInv(Apply(s, step))
  {
  }

  lemma FitsKeptQuiet(s: State, step: Step)
    requires forall t :: t in s.calls ==> CallFits(s, s.calls[t])
    requires LockInv(s) && PhaseInv(s) && StopInv(s) && Enabled(s, step) && Quiet(step)
    ensures var s' := Apply(s, step); forall t :: t in s'.calls ==> CallFits(s', s'.calls[t])
  {
  }

  lemma FitsKeptInit(s: State, step: Step)
    requires forall t :: t in s.calls ==> CallFits(s, s.calls[t])
    requires LockInv(s) && PhaseInv(s) && StopInv(s) && MonitorInv(s) && Enabled(s, step) && step.InitStage?
    ensures var s' := Apply(s, step); forall t :: t in s'.calls ==> CallFits(s', s'.calls[t])
  {
    assert CallFits(s, s.calls[step.t]);
  }

  lemma FitsKeptAdd(s: State, step: Step)
    requires forall t :: t in s.calls ==> CallFits(s, s.calls[t])
    requires LockInv(s) && PhaseInv(s) && StopInv(s) && MonitorInv(s) && Enabled(s, step) && step.Add?
    ensures var s' := Apply(s, step); forall t :: t in s'.calls ==> CallFits(s', s'.calls[t])
  {
    assert CallFits(s, s.calls[step.t]);
  }

  lemma FitsKeptRemove(s: State, step: Step)
    requires forall t :: t in s.calls ==> CallFits(s, s.calls[t])
    requires LockInv(s) && PhaseInv(s) && StopInv(s) && MonitorInv(s) && Enabled(s, step) && step.Remove?
    ensures var s' := Apply(s, step); forall t :: t in s'.calls ==> CallFits(s', s'.calls[t])
  {
    assert CallFits(s, s.calls[step.t]);
  }

  lemma FitsKeptShutdown(s: State, step: Step)
    requires forall t :: t in s.calls ==> CallFits(s, s.calls[t])
    requires LockInv(s) && PhaseInv(s) && StopInv(s) && MonitorInv(s) && Enabled(s, step) && step.ShutdownStage?
    ensures var s' := Apply(s, step); forall t :: t in s'.calls ==> CallFits(s', s'.calls[t])
  {
    assert CallFits(s, s.calls[step.t]);
  }

  lemma InvKeptQuiet(s: State, step: Step)
    requires Inv(s) && Enabled(s, step) && Quiet(step)
    ensures Inv(Apply(s, step))
  {
    LockKeptQuiet(s, step);
    LogKept(s, step);
    MonitorKeptQuiet(s, step);
    PhaseKeptQuiet(s, step);
    StopKeptQuiet(s, step);
    PollKeptQuiet(s, step);
    FitsKeptQuiet(s, step);
  }

  lemma InvKeptInit(s: State, step: Step)
    requires Inv(s) && Enabled(s, step) && step.InitStage?
    ensures Inv(Apply(s, step))
  {
    assert CallFits(s, s.calls[step.t]);
    LockKeptLoud(s, step);
    LogKept(s, step);
    MonitorKeptInit(s, step);
    PhaseKeptInit(s, step);
    StopKeptInit(s, step);
    PollKeptInit(s, step);
    FitsKeptInit(s, step);
  }

  lemma InvKeptAdd(s: State, step: Step)
    requires Inv(s) && Enabled(s, step) && step.Add?
    ensures Inv(Apply(s, step))
  {
    assert CallFits(s, s.calls[step.t]);
    LockKeptLoud(s, step);
    LogKept(s, step);
    MonitorKeptAdd(s, step);
    PhaseKeptAdd(s, step);
    StopKeptAdd(s, step);
    PollKeptAdd(s, step);
    FitsKeptAdd(s, step);
  }

  lemma InvKeptRemove(s: State, step: Step)
    requires Inv(s) && Enabled(s, step) && step.Remove?
    ensures Inv(Apply(s, step))
  {
    assert CallFits(s, s.calls[step.t]);
    LockKeptLoud(s, step);
    LogKept(s, step);
    MonitorKeptRemove(s, step);
    PhaseKeptRemove(s, step);
    StopKeptRemove(s, step);
    PollKeptRemove(s, step);
    FitsKeptRemove(s, step);
  }

  lemma InvKeptShutdown(s: State, step: Step)
    requires Inv(s) && Enabled(s, step) && step.ShutdownStage?
    ensures Inv(Apply(s, step))
  {
    assert CallFits(s, s.calls[step.t]);
    LockKeptLoud(s, step);
    LogKept(s, step);
    MonitorKeptShutdown(s, step);
    PhaseKeptShutdown(s, step);
    StopKeptShutdown(s, step);
    PollKeptShutdown(s, step);
    FitsKeptShutdown(s, step);
  }

  lemma StepKeepsInv(s: State, step: Step)
    requires Inv(s) && Enabled(s, step)
    ensures Inv(Apply(s, step))
  {
    match step
    case InitStage(_) => InvKeptInit(s, step);
    case Add(_) => InvKeptAdd(s, step);
    case Remove(_) => InvKeptRemove(s, step);
    case ShutdownStage(_) => InvKeptShutdown(s, step);
    case _ => InvKeptQuiet(s, step);
  }

  lemma {:induction false} RunKeepsInv(s: State, steps: seq<Step>)
    requires Inv(s) && Legal(s, steps)
    ensures Inv(Final(s, steps))
    decreases |steps|
  {
    if steps != [] {
      StepKeepsInv(s, steps[0]);
      RunKeepsInv(Apply(s, steps[0]), steps[1..]);
    }
  }

  // ------------------------------------------------------------------ safety over every run

  /** Every state of every run from the initial one satisfies the invariant. */
  lemma {:induction false} ReachableInv(s: State)
    requires Reachable(s)
    ensures Inv(s)
  {
    var steps :| Legal(Initial, steps) && Final(Initial, steps) == s;
    RunKeepsInv(Initial, steps);
  }

  /** Shutdown runs with no monitor listed or subscribed and every poll thread exited. */
  lemma ShutdownRunsAlone(s: State, t: ThreadId)
    requires Reachable(s) && t in s.calls && s.calls[t].UnsubShutdown?
    ensures s.lock == ByCall(t) && s.st.monitors == []
    ensures forall pm :: pm in s.status ==> !s.status[pm].Subscribed?
    ensures forall g :: g in s.polls ==> s.polls[g] == Exited
    ensures forall u :: u in s.calls && u != t ==> !Stopping(s.calls[u]) && !s.calls[u].SubInit?
  {
    ReachableInv(s);
    assert CallFits(s, s.calls[t]) && Stopping(s.calls[t]);
    forall u | u in s.calls && u != t ensures !Stopping(s.calls[u]) && !s.calls[u].SubInit? {
      assert s.stopper == Caller(t);
      assert !HoldsLock(s.calls[u]);
    }
  }

  /** Initialize and Shutdown strictly alternate and never overlap: the log of their beginnings
      and ends is the cycle InitBegin, InitEnd, ShutdownBegin, ShutdownEnd. */
  lemma InitializeAndShutdownAlternate(s: State, i: nat)
    requires Reachable(s) && i < |s.log|
    ensures s.log[i] == Cycle(i)
  {
    ReachableInv(s);
  }

  /** A poll thread that has not exited belongs to the current incarnation, whose ring buffer and
      BPF object (hence its map descriptors) are open. */
  lemma PollTouchesLiveResources(s: State, g: nat)
    requires Reachable(s) && g in s.polls && s.polls[g] != Exited
    ensures s.st.ringBuffer == Live(g) && s.st.bpfObject == Live(g) && s.st.pollThread == Live(g)
  {
    ReachableInv(s);
  }

  /** A subscribed monitor is listed and served by open resources that nobody is tearing down. */
  lemma SubscribedMeansServed(s: State, pm: Monitor)
    requires Reachable(s) && pm in s.status && s.status[pm].Subscribed?
    ensures pm in s.st.monitors && AllLive(s.st, s.gen) && !s.st.shutdownInProgress
  {
    ReachableInv(s);
    assert Listed(s.status[pm]);
  }

  /** With no monitor listed and no call pending everything is closed and every poll thread has exited. */
  lemma IdleMeansClosed(s: State)
    requires Reachable(s) && s.st.monitors == [] && s.calls == map[]
    ensures s.st.bpfObject == s.st.link == s.st.ringBuffer == s.st.pollCts == s.st.pollThread == Zero
    ensures s.lock == Free && !s.st.shutdownInProgress && forall g :: g in s.polls ==> s.polls[g] == Exited
  {
    ReachableInv(s);
  }

  /** A token that was cancelled stays cancelled. */
  lemma {:induction false} CancelledForGood(s: State, steps: seq<Step>)
    requires Legal(s, steps)
    ensures s.cancelled <= Final(s, steps).cancelled
    decreases |steps|
  {
    if steps != [] {
      CancelledForGood(Apply(s, steps[0]), steps[1..]);
    }
  }

  /** No wake-up is lost: whoever is parked in Monitor.Wait is going to be pulsed by a caller
      that is still on its way through Shutdown. */
  lemma WaitersHaveAWaker(s: State, t: ThreadId)
    requires Reachable(s) && t in s.calls && s.calls[t].SubWait?
    ensures s.st.shutdownInProgress && s.stopper.Caller?
    ensures s.stopper.t in s.calls && Stopping(s.calls[s.stopper.t])
  {
    ReachableInv(s);
  }

  // ------------------------------------------------------------------ progress

  ghost function Pick(calls: map<ThreadId, Pc>): (t: ThreadId)
    requires calls != map[]
    ensures t in calls
  {
    var t :| t in calls; t
  }

  ghost function Total(calls: map<ThreadId, Pc>, w: Pc -> nat): nat
    decreases |calls|
  {
    if calls == map[] then 0
    else var t := Pick(calls); w(calls[t]) + Total(calls - {t}, w)
  }

  lemma {:induction false} TotalSplit(calls: map<ThreadId, Pc>, w: Pc -> nat, t: ThreadId)
    requires t in calls
    ensures Total(calls, w) == w(calls[t]) + Total(calls - {t}, w)
    decreases |calls|
  {
    var u := Pick(calls);
    if u != t {
      TotalSplit(calls - {u}, w, t);
      TotalSplit(calls - {t}, w, u);
      assert calls - {u} - {t} == calls - {t} - {u};
    }
  }

  lemma TotalReplace(calls: map<ThreadId, Pc>, w: Pc -> nat, t: ThreadId, pc: Pc)
    requires t in calls
    ensures Total(calls[t := pc], w) + w(calls[t]) == Total(calls, w) + w(pc)
  {
    TotalSplit(calls, w, t);
    TotalSplit(calls[t := pc], w, t);
    assert calls[t := pc] - {t} == calls - {t};
  }

  lemma {:induction false} TotalPulsed(calls: map<ThreadId, Pc>)
    ensures Total(Pulsed(calls), LeaveWeight) == Total(calls, LeaveWeight)
    decreases |calls|
  {
    if calls != map[] {
      var t := Pick(calls);
      TotalPulsed(calls - {t});
      TotalSplit(Pulsed(calls), LeaveWeight, t);
      assert Pulsed(calls) - {t} == Pulsed(calls - {t});
    }
  }

  /** How far a call of Unsubscribe still has to go. */
  function LeaveWeight(pc: Pc): nat {
    match pc
    case UnsubEnter(_) => 8
    case UnsubRemove(_) => 7
    case UnsubJoin(_) => 6
    case UnsubReenter => 5
    case UnsubShutdown(stage) => if stage <= 3 then 4 - stage else 0
    case _ => 0
  }

  /** How far a call of Subscribe still has to go if no shutdown gets in its way. */
  function JoinWeight(pc: Pc): nat {
    match pc
    case SubEnter(_) => 7
    case SubWake(_) => 7
    case SubCheck(_) => 6
    case SubInit(_, stage) => if stage <= 2 then 5 - stage else 0
    case SubAdd(_) => 2
    case SubWait(_) => 1
    case _ => 0
  }

  /** How far a cancelled poll thread is from its exit. */
  function PollWeight(s: State): nat {
    if s.gen !in s.polls then 0
    else
      match s.polls[s.gen]
      case Exited => 0
      case Testing => 1
      case Polling => 2
      case Handlers(_, n) => 3 + (if n <= |s.st.monitors| then |s.st.monitors| - n else 0)
      case WantLock(_) => 4 + |s.st.monitors|
      case Lookup(_) => 5 + |s.st.monitors|
  }

  /** The pending calls have come closer to their return. */
  ghost predicate CallsCloser(s: State, s': State) {
    || Total(s'.calls, LeaveWeight) < Total(s.calls, LeaveWeight)
    || (Total(s'.calls, LeaveWeight) == Total(s.calls, LeaveWeight) &&
        Total(s'.calls, JoinWeight) < Total(s.calls, JoinWeight))
  }

  /** Or the poll thread has come closer to its exit. */
  ghost predicate Closer(s: State, s': State) {
    || CallsCloser(s, s')
    || (s'.calls == s.calls && PollWeight(s') < PollWeight(s))
  }

  /** The step a caller takes next while it holds the lock. */
  function LockedStep(t: ThreadId, pc: Pc): Step
    requires HoldsLock(pc)
  {
    match pc
    case SubCheck(_) => TestLoop(t)
    case SubInit(_, _) => InitStage(t)
    case SubAdd(_) => Add(t)
    case UnsubRemove(_) => Remove(t)
    case UnsubShutdown(_) => ShutdownStage(t)
  }

  /** Where a poll thread goes if it gets on with it: out of the callback and out of the loop. */
  function Onward(s: State, g: nat): PollPc
    requires g in s.polls
  {
    match s.polls[g]
    case Testing => if g in s.cancelled then Exited else Polling
    case Polling => Testing
    case Lookup(r) => Sorted(r)
    case WantLock(e) => Handlers(e, 0)
    case Handlers(e, n) => if n < |s.st.monitors| then Handlers(e, n + 1) else Polling
    case Exited => Exited
  }

  lemma ReplaceIsCloser(s: State, s': State, t: ThreadId, pc: Pc)
    requires t in s.calls && s'.calls == s.calls[t := pc]
    requires || LeaveWeight(pc) < LeaveWeight(s.calls[t])
             || (LeaveWeight(pc) == LeaveWeight(s.calls[t]) && JoinWeight(pc) < JoinWeight(s.calls[t]))
    ensures CallsCloser(s, s')
  {
    TotalReplace(s.calls, LeaveWeight, t, pc);
    TotalReplace(s.calls, JoinWeight, t, pc);
  }

  lemma ReturnIsCloser(s: State, s': State, t: ThreadId)
    requires t in s.calls && LeaveWeight(s.calls[t]) + JoinWeight(s.calls[t]) > 0
    requires s'.calls == s.calls - {t} || (s'.calls == Pulsed(s.calls - {t}) && LeaveWeight(s.calls[t]) > 0)
    ensures CallsCloser(s, s')
  {
    TotalSplit(s.calls, LeaveWeight, t);
    TotalSplit(s.calls, JoinWeight, t);
    TotalPulsed(s.calls - {t});
  }

  lemma LockedStepEnabled(s: State, t: ThreadId)
    requires LockInv(s) && PhaseInv(s) && s.lock == ByCall(t) && CallFits(s, s.calls[t])
    ensures Enabled(s, LockedStep(t, s.calls[t]))
    ensures s.calls[t].SubInit? || s.calls[t].UnsubShutdown? ==> s.calls[t].stage <= 2
  {
  }

  lemma SubscribeStepIsCloser(s: State, t: ThreadId)
    requires t in s.calls && HoldsLock(s.calls[t]) && Joining(s.calls[t])
    requires Enabled(s, LockedStep(t, s.calls[t])) && (s.calls[t].SubInit? ==> s.calls[t].stage <= 2)
    ensures CallsCloser(s, Apply(s, LockedStep(t, s.calls[t])))
  {
    var pc := s.calls[t];
    var s' := Apply(s, LockedStep(t, pc));
    match pc
    case SubCheck(pm) => ReplaceIsCloser(s, s', t, s'.calls[t]);
    case SubInit(pm, stage) => ReplaceIsCloser(s, s', t, if stage < 2 then SubInit(pm, stage + 1) else SubAdd(pm));
    case SubAdd(_) => ReturnIsCloser(s, s', t);
  }

  lemma UnsubscribeStepIsCloser(s: State, t: ThreadId)
    requires t in s.calls && HoldsLock(s.calls[t]) && !Joining(s.calls[t])
    requires Enabled(s, LockedStep(t, s.calls[t])) && (s.calls[t].UnsubShutdown? ==> s.calls[t].stage <= 2)
    ensures CallsCloser(s, Apply(s, LockedStep(t, s.calls[t])))
  {
    var pc := s.calls[t];
    var s' := Apply(s, LockedStep(t, pc));
    match pc
    case UnsubRemove(_) =>
      if t in s'.calls {
        ReplaceIsCloser(s, s', t, UnsubJoin(s.st.pollThread));
      } else {
        ReturnIsCloser(s, s', t);
      }
    case UnsubShutdown(stage) =>
      if stage < 2 {
        ReplaceIsCloser(s, s', t, UnsubShutdown(stage + 1));
      } else {
        ReturnIsCloser(s, s', t);
      }
  }

  lemma AcquireIsCloser(s: State, t: ThreadId)
    requires Enabled(s, Acquire(t))
    ensures CallsCloser(s, Apply(s, Acquire(t)))
  {
    ReplaceIsCloser(s, Apply(s, Acquire(t)), t, Entered(s.calls[t]));
  }

  /** A step of a call that has begun. */
  predicate CallerStep(step: Step) { !step.BeginSubscribe? && !step.BeginUnsubscribe? && !step.Poll? }

  lemma LockedStepIsCloser(s: State, t: ThreadId)
    requires Inv(s) && s.lock == ByCall(t)
    ensures Enabled(s, LockedStep(t, s.calls[t])) && CallsCloser(s, Apply(s, LockedStep(t, s.calls[t])))
  {
    assert CallFits(s, s.calls[t]);
    LockedStepEnabled(s, t);
    if Joining(s.calls[t]) { SubscribeStepIsCloser(s, t); } else { UnsubscribeStepIsCloser(s, t); }
  }

  lemma JoinIsCloser(s: State, t: ThreadId)
    requires Enabled(s, Join(t))
    ensures CallsCloser(s, Apply(s, Join(t)))
  {
    ReplaceIsCloser(s, Apply(s, Join(t)), t, UnsubReenter);
  }

  /** Whatever step a call takes, the pending calls come closer to their return. */
  lemma CallerStepIsCloser(s: State, step: Step)
    requires Inv(s) && Enabled(s, step) && CallerStep(step)
    ensures CallsCloser(s, Apply(s, step))
  {
    if step.Acquire? {
      AcquireIsCloser(s, step.t);
    } else if step.Join? {
      JoinIsCloser(s, step.t);
    } else {
      assert HoldsLock(s.calls[step.t]) && LockedStep(step.t, s.calls[step.t]) == step;
      LockedStepIsCloser(s, step.t);
    }
  }

  /** A caller has a step to take, or all of them wait for the poll thread, which holds the lock or has
      been told to stop. */
  lemma CallersWaitOnlyForPoll(s: State) returns (waits: bool, step: Step)
    requires Inv(s) && s.calls != map[]
    ensures !waits ==> Enabled(s, step) && CallerStep(step)
    ensures waits ==> s.gen in s.polls && s.polls[s.gen] != Exited && (s.lock == ByPoll(s.gen) || s.gen in s.cancelled)
  {
    waits, step := false, Acquire(0);
    match s.lock
    case ByPoll(g) =>
      waits := true;
    case ByCall(t) =>
      step := LockedStep(t, s.calls[t]);
      LockedStepIsCloser(s, t);
    case Free =>
      var t := if s.stopper.Caller? then s.stopper.t else Pick(s.calls);
      assert CallFits(s, s.calls[t]) && !HoldsLock(s.calls[t]);
      if WantsLock(s.calls[t]) {
        step := Acquire(t);
      } else if s.polls[s.gen] == Exited {
        step := Join(t);
      } else {
        waits := true;
      }
  }

  /** A poll thread that holds the lock or has been told to stop can move towards its exit. */
  lemma PollIsCloser(s: State)
    requires Inv(s) && s.gen in s.polls && s.polls[s.gen] != Exited && (s.lock == ByPoll(s.gen) || s.gen in s.cancelled)
    requires s.lock != Free ==> s.lock == ByPoll(s.gen)
    ensures var step := Poll(s.gen, Onward(s, s.gen));
            Enabled(s, step) && s.calls == Apply(s, step).calls && PollWeight(Apply(s, step)) < PollWeight(s)
  {
  }

  /** In every state of the invariant with a call pending, some step other than a new call is
      enabled and brings the pending calls closer to their return, or the poll thread to its exit. */
  lemma Progress(s: State) returns (step: Step)
    requires Inv(s) && s.calls != map[]
    ensures Enabled(s, step) && !step.BeginSubscribe? && !step.BeginUnsubscribe?
    ensures Closer(s, Apply(s, step))
  {
    var waits;
    waits, step := CallersWaitOnlyForPoll(s);
    if !waits {
      CallerStepIsCloser(s, step);
    } else if s.lock.ByCall? {
      step := LockedStep(s.lock.t, s.calls[s.lock.t]);
      LockedStepIsCloser(s, s.lock.t);
    } else {
      step := Poll(s.gen, Onward(s, s.gen));
      PollIsCloser(s);
    }
  }

  lemma Advance(s: State) returns (step: Step, s': State)
    requires Inv(s) && s.calls != map[]
    ensures Enabled(s, step) && !step.BeginSubscribe? && !step.BeginUnsubscribe?
    ensures s' == Apply(s, step) && Inv(s') && Closer(s, s')
  {
    step := Progress(s);
    s' := Apply(s, step);
    StepKeepsInv(s, step);
  }

  /** `steps` makes no new call and brings every pending call to its return. */
  predicate Returns(s: State, steps: seq<Step>) {
    && Legal(s, steps) && Final(s, steps).calls == map[]
    && forall i :: 0 <= i < |steps| ==> !steps[i].BeginSubscribe? && !steps[i].BeginUnsubscribe?
  }

  ghost predicate CanReturn(s: State) { exists steps :: Returns(s, steps) }

  lemma {:induction false} CanReturnPrepend(s: State, step: Step)
    requires Enabled(s, step) && !step.BeginSubscribe? && !step.BeginUnsubscribe?
    requires CanReturn(Apply(s, step))
    ensures CanReturn(s)
  {
    var s' := Apply(s, step);
    var rest :| Returns(s', rest);
    var steps := [step] + rest;
    assert steps[1..] == rest;
    assert Returns(s, steps);
  }

  lemma {:induction false} CallsCanReturn(s: State)
    requires Inv(s)
    ensures CanReturn(s)
    decreases Total(s.calls, LeaveWeight), Total(s.calls, JoinWeight), PollWeight(s)
  {
    if s.calls == map[] {
      assert Returns(s, []);
    } else {
      var step, s' := Advance(s);
      CallsCanReturn(s');
      CanReturnPrepend(s, step);
    }
  }

  /** No reachable state is deadlocked: while a call is pending some step other than a new call is
      enabled, and the pending calls can in fact all be run to their return. */
  lemma {:induction false} NoDeadlock(s: State)
    requires Reachable(s)
    ensures s.calls != map[] ==>
              exists step :: Enabled(s, step) && !step.BeginSubscribe? && !step.BeginUnsubscribe?
    ensures CanReturn(s)
  {
    ReachableInv(s);
    if s.calls != map[] {
      var step := Progress(s);
    }
    CallsCanReturn(s);
  }

  // ------------------------------------------------------------------ every schedule

  lemma {:induction false} JoinBound(calls: map<ThreadId, Pc>)
    ensures Total(calls, JoinWeight) <= 7 * |calls|
    decreases |calls|
  {
    if calls != map[] {
      var t := Pick(calls);
      TotalSplit(calls, JoinWeight, t);
      JoinBound(calls - {t});
    }
  }

  /** No step but a new call adds to the pending calls. */
  lemma NoMoreCalls(s: State, step: Step)
    requires Enabled(s, step) && !step.BeginSubscribe? && !step.BeginUnsubscribe?
    ensures |Apply(s, step).calls| <= |s.calls|
  {
    var s' := Apply(s, step);
    assert s'.calls.Keys <= s.calls.Keys;
    SubsetSize(s'.calls.Keys, s.calls.Keys);
    assert |s'.calls| == |s'.calls.Keys| && |s.calls| == |s.calls.Keys|;
  }

  lemma {:induction false} SubsetSize(a: set<ThreadId>, b: set<ThreadId>)
    requires a <= b
    ensures |a| <= |b|
  {
    if a != {} {
      var x :| x in a;
      SubsetSize(a - {x}, b - {x});
    }
  }

  /** How many steps the pending calls, at most `n` of them, can still take. */
  ghost function StepsLeft(s: State, n: nat): nat {
    Total(s.calls, LeaveWeight) * (7 * n + 1) + Total(s.calls, JoinWeight)
  }

  lemma LeaveOutweighs(a: nat, b: nat, k: nat, i: nat, j: nat)
    requires a < b && i < k
    ensures a * k + i < b * k + j
  {
    assert (a + 1) * k <= b * k;
  }

  lemma StepsLeftDrops(s: State, s': State, n: nat)
    requires CallsCloser(s, s') && |s'.calls| <= n
    ensures StepsLeft(s', n) < StepsLeft(s, n)
  {
    JoinBound(s'.calls);
    if Total(s'.calls, LeaveWeight) < Total(s.calls, LeaveWeight) {
      LeaveOutweighs(Total(s'.calls, LeaveWeight), Total(s.calls, LeaveWeight), 7 * n + 1,
                     Total(s'.calls, JoinWeight), Total(s.calls, JoinWeight));
    }
  }

  function CallerSteps(steps: seq<Step>): nat {
    if steps == [] then 0 else (if CallerStep(steps[0]) then 1 else 0) + CallerSteps(steps[1..])
  }

  predicate NoNewCall(steps: seq<Step>) {
    steps == [] || (!steps[0].BeginSubscribe? && !steps[0].BeginUnsubscribe? && NoNewCall(steps[1..]))
  }

  /** Whatever the schedule, and however long the poll threads run, pending calls take only so many steps
      while no new call begins: none of them is sent round and round. */
  lemma {:induction false} CallerStepsBounded(s: State, steps: seq<Step>, n: nat)
    requires Inv(s) && Legal(s, steps) && |s.calls| <= n && NoNewCall(steps)
    ensures CallerSteps(steps) <= StepsLeft(s, n)
    decreases |steps|
  {
    if steps != [] {
      OneStepLess(s, steps[0], n);
      CallerStepsBounded(Apply(s, steps[0]), steps[1..], n);
    }
  }

  lemma OneStepLess(s: State, step: Step, n: nat)
    requires Inv(s) && Enabled(s, step) && !step.BeginSubscribe? && !step.BeginUnsubscribe? && |s.calls| <= n
    ensures Inv(Apply(s, step)) && |Apply(s, step).calls| <= n
    ensures StepsLeft(Apply(s, step), n) + (if CallerStep(step) then 1 else 0) <= StepsLeft(s, n)
  {
    StepKeepsInv(s, step);
    NoMoreCalls(s, step);
    if CallerStep(step) {
      CallerStepIsCloser(s, step);
      StepsLeftDrops(s, Apply(s, step), n);
    } else {
      assert Apply(s, step).calls == s.calls;
    }
  }
}
