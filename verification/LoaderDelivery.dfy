/** What the callback of the poll thread tells the monitors, over every run. */
module LoaderDelivery {
  import opened LoaderProtocol
  import opened LoaderProofs

  /** The poll thread of `g` is inside the callback until the last state, where it has just returned. */
  predicate OneCallback(s: State, steps: seq<Step>, g: nat)
    requires Legal(s, steps)
    decreases |steps|
  {
    if steps == [] then At(s, g, Polling)
    else g in s.polls && s.polls[g] != Polling && OneCallback(Apply(s, steps[0]), steps[1..], g)
  }

  /** One call of the handlers for each monitor, in the order of the list. */
  function Calls(e: Notice, ms: seq<Monitor>): seq<(Notice, Monitor)> {
    seq(|ms|, i requires 0 <= i < |ms| => (e, ms[i]))
  }

  lemma {:induction false} RunExtends(s: State, steps: seq<Step>, step: Step)
    requires Legal(s, steps) && Enabled(Final(s, steps), step)
    ensures Legal(s, steps + [step]) && Final(s, steps + [step]) == Apply(Final(s, steps), step)
    decreases |steps|
  {
    if steps == [] {
      assert steps + [step] == [step];
    } else {
      RunExtends(Apply(s, steps[0]), steps[1..], step);
      assert (steps + [step])[1..] == steps[1..] + [step];
    }
  }

  lemma ReachableStep(s: State, step: Step)
    requires Reachable(s) && Enabled(s, step)
    ensures Reachable(Apply(s, step))
  {
    var steps :| Legal(Initial, steps) && Final(Initial, steps) == s;
    RunExtends(Initial, steps, step);
  }

  lemma {:induction false} ReachableRun(s: State, steps: seq<Step>)
    requires Reachable(s) && Legal(s, steps)
    ensures Reachable(Final(s, steps))
    decreases |steps|
  {
    if steps != [] {
      ReachableStep(s, steps[0]);
      ReachableRun(Apply(s, steps[0]), steps[1..]);
    }
  }

  predicate MovesOf(step: Step, g: nat) { step.Poll? && step.g == g }

  lemma OthersLeaveItAlone(s: State, step: Step, g: nat)
    requires LockInv(s) && PollInv(s) && Enabled(s, step) && g in s.polls && s.polls[g] != Exited
    requires (step.InitStage? ==> CallFits(s, s.calls[step.t])) && !MovesOf(step, g)
    ensures var s' := Apply(s, step);
            g in s'.polls && s'.polls[g] == s.polls[g] && s'.raised == s.raised
    ensures s.polls[g].Handlers? ==> Apply(s, step).st.monitors == s.st.monitors
  {
  }

  /** While a poll thread is alive only its own moves tell anybody anything. */
  lemma OthersTellNothing(s: State, step: Step, g: nat)
    requires Reachable(s) && Enabled(s, step) && g in s.polls && s.polls[g] != Exited
    requires !MovesOf(step, g)
    ensures var s' := Apply(s, step);
            g in s'.polls && s'.polls[g] == s.polls[g] && s'.raised == s.raised
    ensures s.polls[g].Handlers? ==> Apply(s, step).st.monitors == s.st.monitors
  {
    ReachableInv(s);
    assert step.InitStage? ==> CallFits(s, s.calls[step.t]);
    OthersLeaveItAlone(s, step, g);
  }

  lemma AcquireTellsNothing(s: State, step: Step, g: nat)
    requires Enabled(s, step) && MovesOf(step, g) && s.polls[g].WantLock?
    ensures var s' := Apply(s, step);
            && g in s'.polls && s'.polls[g] == Handlers(s.polls[g].notice, 0)
            && s'.raised == s.raised && s'.st.monitors[0..] == s'.st.monitors
  {
  }

  lemma SortingTellsNothing(s: State, step: Step, g: nat)
    requires Enabled(s, step) && MovesOf(step, g) && s.polls[g].Lookup?
    ensures var s' := Apply(s, step);
            g in s'.polls && s'.polls[g] == Sorted(s.polls[g].record) && s'.raised == s.raised
  {
  }

  lemma OneMore(e: Notice, ms: seq<Monitor>, n: nat, log: seq<(Notice, Monitor)>)
    requires n < |ms|
    ensures log + [(e, ms[n])] + Calls(e, ms[n + 1..]) == log + Calls(e, ms[n..])
  {
  }

  lemma {:induction false} HandlersTellTheRest(s: State, steps: seq<Step>, g: nat)
    requires Reachable(s) && Legal(s, steps) && OneCallback(s, steps, g)
    requires g in s.polls && s.polls[g].Handlers? && s.polls[g].next <= |s.st.monitors|
    ensures var f := Final(s, steps);
            && f.st.monitors == s.st.monitors
            && f.raised == s.raised + Calls(s.polls[g].notice, s.st.monitors[s.polls[g].next..])
    decreases |steps|
  {
    var step, s' := steps[0], Apply(s, steps[0]);
    ReachableStep(s, step);
    if !MovesOf(step, g) {
      OthersTellNothing(s, step, g);
      HandlersTellTheRest(s', steps[1..], g);
    } else if s.polls[g].next < |s.st.monitors| {
      HandlersTellTheRest(s', steps[1..], g);
      OneMore(s.polls[g].notice, s.st.monitors, s.polls[g].next, s.raised);
    } else {
      assert steps[1..] == [];
    }
  }

  lemma {:induction false} LockedCallsTellAll(s: State, steps: seq<Step>, g: nat)
    requires Reachable(s) && Legal(s, steps) && OneCallback(s, steps, g)
    requires g in s.polls && s.polls[g].WantLock?
    ensures var f := Final(s, steps); f.raised == s.raised + Calls(s.polls[g].notice, f.st.monitors)
    decreases |steps|
  {
    var step, s' := steps[0], Apply(s, steps[0]);
    ReachableStep(s, step);
    if !MovesOf(step, g) {
      OthersTellNothing(s, step, g);
      LockedCallsTellAll(s', steps[1..], g);
    } else {
      AcquireTellsNothing(s, step, g);
      HandlersTellTheRest(s', steps[1..], g);
    }
  }

  lemma {:induction false} CallbackTells(s: State, steps: seq<Step>, g: nat)
    requires Reachable(s) && Legal(s, steps) && OneCallback(s, steps, g)
    requires g in s.polls && s.polls[g].Lookup?
    ensures var f := Final(s, steps);
            f.raised == if Sorted(s.polls[g].record).WantLock?
                        then s.raised + Calls(Sorted(s.polls[g].record).notice, f.st.monitors)
                        else s.raised
    decreases |steps|
  {
    var step, s' := steps[0], Apply(s, steps[0]);
    ReachableStep(s, step);
    if !MovesOf(step, g) {
      OthersTellNothing(s, step, g);
      CallbackTells(s', steps[1..], g);
    } else {
      SortingTellsNothing(s, step, g);
      if s'.polls[g].WantLock? {
        LockedCallsTellAll(s', steps[1..], g);
      } else {
        assert steps[1..] == [];
      }
    }
  }

  /** The calls added to the log between two states are `e` to each of `ms`, once each and in order. */
  predicate ToldEach(s: State, f: State, e: Notice, ms: seq<Monitor>) {
    && |f.raised| == |s.raised| + |ms|
    && f.raised[..|s.raised|] == s.raised
    && forall i :: 0 <= i < |ms| ==> f.raised[|s.raised| + i] == (e, ms[i])
  }

  /** In every run, from the delivery of a record to the return of the callback, the handlers are called
      for exactly the monitors listed under the lock, once each and in list order: with a creation for
      operation 0, with a destruction for operation 1, and not at all for any other record. */
  lemma CallbackReachesEveryMonitor(s: State, steps: seq<Step>, g: nat, r: Record)
    requires Reachable(s) && At(s, g, Lookup(r)) && Legal(s, steps) && OneCallback(s, steps, g)
    ensures var f := Final(s, steps);
            && (r.size == 112 && r.operation == 0 ==> ToldEach(s, f, Created(r.pid), f.st.monitors))
            && (r.size == 112 && r.operation == 1 ==> ToldEach(s, f, Destroyed(r.pid), f.st.monitors))
            && (r.size != 112 || r.operation > 1 ==> f.raised == s.raised)
  {
    CallbackTells(s, steps, g);
  }

  /** The same from the moment the callback asks for the lock; while it holds the lock the list stays as
      it is. */
  lemma LockHolderReachesEveryMonitor(s: State, steps: seq<Step>, g: nat, e: Notice)
    requires Reachable(s) && Legal(s, steps) && OneCallback(s, steps, g)
    requires At(s, g, WantLock(e)) || At(s, g, Handlers(e, 0))
    ensures ToldEach(s, Final(s, steps), e, Final(s, steps).st.monitors)
    ensures s.polls[g].Handlers? ==> Final(s, steps).st.monitors == s.st.monitors
  {
    if s.polls[g].Handlers? {
      HandlersTellTheRest(s, steps, g);
      assert s.st.monitors[0..] == s.st.monitors;
    } else {
      LockedCallsTellAll(s, steps, g);
    }
  }

  lemma {:induction false} CountOnce(log: seq<(Notice, Monitor)>, e: Notice, ms: seq<Monitor>, pm: Monitor)
    requires forall i, j :: 0 <= i < j < |ms| ==> ms[i] != ms[j]
    ensures multiset(Calls(e, ms))[(e, pm)] == if pm in ms then 1 else 0
    ensures multiset(log + Calls(e, ms))[(e, pm)] == multiset(log)[(e, pm)] + if pm in ms then 1 else 0
  {
    assert multiset(log + Calls(e, ms)) == multiset(log) + multiset(Calls(e, ms));
    if ms != [] {
      var n := |ms| - 1;
      CountOnce(log, e, ms[..n], pm);
      assert Calls(e, ms) == Calls(e, ms[..n]) + [(e, ms[n])];
      assert ms == ms[..n] + [ms[n]];
    }
  }

  lemma ListedOnce(s: State, pm: Monitor)
    requires Reachable(s)
    ensures forall i, j :: 0 <= i < j < |s.st.monitors| ==> s.st.monitors[i] != s.st.monitors[j]
    ensures pm in s.status && s.status[pm].Subscribed? ==> pm in s.st.monitors
  {
    ReachableInv(s);
    assert pm in s.status && s.status[pm].Subscribed? ==> Listed(s.status[pm]);
  }

  /** A monitor that is subscribed when the callback returns has been told of the creation, or of the
      destruction, exactly once; one that is not listed has not been told. */
  lemma SubscribedMonitorHearsOnce(s: State, steps: seq<Step>, g: nat, r: Record, pm: Monitor)
    requires Reachable(s) && At(s, g, Lookup(r)) && Legal(s, steps) && OneCallback(s, steps, g)
    requires r.size == 112 && r.operation <= 1
    ensures var f := Final(s, steps);
            var e := if r.operation == 0 then Created(r.pid) else Destroyed(r.pid);
            && (pm in f.status && f.status[pm].Subscribed? ==>
                  multiset(f.raised)[(e, pm)] == multiset(s.raised)[(e, pm)] + 1)
            && (pm !in f.st.monitors ==> multiset(f.raised)[(e, pm)] == multiset(s.raised)[(e, pm)])
  {
    CallbackTells(s, steps, g);
    var f := Final(s, steps);
    ReachableRun(s, steps);
    ListedOnce(f, pm);
    CountOnce(s.raised, if r.operation == 0 then Created(r.pid) else Destroyed(r.pid), f.st.monitors, pm);
  }

  // ------------------------------------------------------------------ the callback can always return

  ghost predicate CanReturnToPoll(s: State, g: nat) {
    exists steps :: Legal(s, steps) && OneCallback(s, steps, g)
  }

  lemma {:induction false} ReturnsAfter(s: State, step: Step, g: nat)
    requires Enabled(s, step) && g in s.polls && s.polls[g] != Polling
    requires CanReturnToPoll(Apply(s, step), g)
    ensures CanReturnToPoll(s, g)
  {
    var rest :| Legal(Apply(s, step), rest) && OneCallback(Apply(s, step), rest, g);
    var steps := [step] + rest;
    assert steps[1..] == rest;
    assert Legal(s, steps) && OneCallback(s, steps, g);
  }

  lemma {:induction false} HandlersCanReturn(s: State, g: nat)
    requires g in s.polls && s.polls[g].Handlers? && s.polls[g].next <= |s.st.monitors|
    ensures CanReturnToPoll(s, g)
    decreases |s.st.monitors| - s.polls[g].next
  {
    var n := s.polls[g].next;
    var step := Poll(g, if n < |s.st.monitors| then Handlers(s.polls[g].notice, n + 1) else Polling);
    if n < |s.st.monitors| {
      HandlersCanReturn(Apply(s, step), g);
    } else {
      assert OneCallback(Apply(s, step), [], g);
    }
    ReturnsAfter(s, step, g);
  }

  /** A poll thread that wants the lock finds it free or held by a call that can go on. */
  lemma LockIsFreeOrMoving(s: State, g: nat)
    requires Reachable(s) && g in s.polls && s.polls[g].WantLock?
    ensures !s.lock.ByPoll?
    ensures s.lock.ByCall? ==>
              && s.lock.t in s.calls && HoldsLock(s.calls[s.lock.t])
              && var step := LockedStep(s.lock.t, s.calls[s.lock.t]);
              && Enabled(s, step) && CallsCloser(s, Apply(s, step))
  {
    ReachableInv(s);
    if s.lock.ByCall? {
      LockedStepIsCloser(s, s.lock.t);
    }
  }

  lemma {:induction false} WaiterCanReturn(s: State, g: nat)
    requires Reachable(s) && g in s.polls && s.polls[g].WantLock?
    ensures CanReturnToPoll(s, g)
    decreases Total(s.calls, LeaveWeight), Total(s.calls, JoinWeight)
  {
    LockIsFreeOrMoving(s, g);
    if s.lock.ByCall? {
      var step := LockedStep(s.lock.t, s.calls[s.lock.t]);
      OthersTellNothing(s, step, g);
      ReachableStep(s, step);
      WaiterCanReturn(Apply(s, step), g);
      ReturnsAfter(s, step, g);
    } else {
      var step := Poll(g, Handlers(s.polls[g].notice, 0));
      HandlersCanReturn(Apply(s, step), g);
      ReturnsAfter(s, step, g);
    }
  }

  /** In every reachable state the ring buffer can hand any record to a polling thread, and the callback
      that this starts can be run to its return. */
  lemma DeliveryCanFinish(s: State, g: nat, r: Record)
    requires Reachable(s) && At(s, g, Polling)
    ensures Enabled(s, Poll(g, Lookup(r))) && CanReturnToPoll(Apply(s, Poll(g, Lookup(r))), g)
  {
    var s' := Apply(s, Poll(g, Lookup(r)));
    var step := Poll(g, Sorted(r));
    ReachableStep(s, Poll(g, Lookup(r)));
    ReachableStep(s', step);
    if Sorted(r).WantLock? {
      WaiterCanReturn(Apply(s', step), g);
    } else {
      assert OneCallback(Apply(s', step), [], g);
    }
    ReturnsAfter(s', step, g);
  }
}
