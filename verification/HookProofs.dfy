/** Registration count, rundown protection and exactly-once release of hook clients, over every run. */
module HookProofs {
  import opened Common
  import opened HookLifecycle

  // ------------------------------------------------------------------ every step keeps the invariant

  /** The actions of an attach. */
  predicate Attaching(action: Action) {
    match action
    case AllocateRecord(_) | CheckDispatch(_) | AllocateItem(_) | AttachCallback(_, _) | Insert | CleanUp => true
    case _ => false
  }

  lemma LedgerAttaching(client: Client, action: Action, accepted: bool)
    requires Ledger(client) && client.phase == From(action) && Attaching(action)
    ensures Ledger(Moved(client, action, accepted))
  {
  }

  lemma LedgerDetaching(client: Client, action: Action, accepted: bool)
    requires Ledger(client) && client.phase == From(action) && !Attaching(action)
    requires action.EndWait? ==> client.holders == 0
    ensures Ledger(Moved(client, action, accepted))
  {
  }

  lemma LedgerMoved(client: Client, action: Action, accepted: bool)
    requires Ledger(client) && client.phase == From(action)
    requires action.EndWait? ==> client.holders == 0
    ensures Ledger(Moved(client, action, accepted))
  {
    if Attaching(action) { LedgerAttaching(client, action, accepted); } else { LedgerDetaching(client, action, accepted); }
  }

  lemma LedgerKept(s: State, step: Step)
    requires LedgerInv(s) && RundownInv(s) && Enabled(s, step)
    ensures LedgerInv(Apply(s, step))
  {
    if step.Act? {
      LedgerMoved(s.clients[step.c], step.action, RegAfter(s.reg, step.action).1);
    } else if step.Enter? || step.Leave? {
      assert Ledger(s.clients[s.cursors[step.d].c]);
    }
  }

  lemma ListWithout(list: seq<ClientId>, c: ClientId)
    requires c in list && forall i, j :: 0 <= i < j < |list| ==> list[i] != list[j]
    ensures var r := ListAfter(list, c, Unlink);
            && (forall i, j :: 0 <= i < j < |r| ==> r[i] != r[j])
            && (forall x :: x in r <==> x in list && x != c)
  {
    var i := IndexOf(list, c);
    var r := ListAfter(list, c, Unlink);
    forall x | x in list && x != c ensures x in r {
      var k :| 0 <= k < |list| && list[k] == x;
      assert r[if k < i then k else k - 1] == x;
    }
  }

  lemma InListMoved(client: Client, action: Action, accepted: bool)
    requires client.phase == From(action)
    ensures InList(Moved(client, action, accepted).phase) <==>
            action.Insert? || (InList(client.phase) && !action.Unlink?)
  {
  }

  lemma ListKeptByClient(s: State, c: ClientId, action: Action)
    requires ListInv(s) && Enabled(s, Act(c, action))
    ensures ListInv(Apply(s, Act(c, action)))
  {
    InListMoved(s.clients[c], action, RegAfter(s.reg, action).1);
    assert c in s.list <==> InList(s.clients[c].phase);
    if action.Unlink? {
      ListWithout(s.list, c);
    }
  }

  lemma ListKept(s: State, step: Step)
    requires ListInv(s) && Enabled(s, step)
    ensures ListInv(Apply(s, step))
  {
    if step.Act? {
      ListKeptByClient(s, step.c, step.action);
    }
  }

  function One(b: bool): nat { if b then 1 else 0 }

  lemma WithoutOne(a: set<nat>, x: nat)
    ensures |a| == |a - {x}| + One(x in a)
  {
    if x in a { assert a == (a - {x}) + {x}; } else { assert a == a - {x}; }
  }

  lemma CountedMoved(clients: map<ClientId, Client>, c: ClientId, client: Client)
    ensures var was := c in clients && Counted(clients[c].phase);
            && (was ==> |CountedSet(clients)| > 0)
            && |CountedSet(clients[c := client])| == |CountedSet(clients)| - One(was) + One(Counted(client.phase))
  {
    var a, b := CountedSet(clients), CountedSet(clients[c := client]);
    assert a - {c} == b - {c};
    assert c in a <==> c in clients && Counted(clients[c].phase);
    assert c in b <==> Counted(client.phase);
    WithoutOne(a, c);
    WithoutOne(b, c);
  }

  lemma RegMoved(reg: Registration, client: Client, action: Action, n: int)
    requires RegFits(reg, n) && client.phase == From(action) && (Counted(client.phase) ==> n > 0)
    ensures var (reg', accepted) := RegAfter(reg, action);
            RegFits(reg', n - One(Counted(client.phase)) + One(Counted(Moved(client, action, accepted).phase)))
  {
  }

  lemma RegKept(s: State, step: Step)
    requires RegInv(s) && Enabled(s, step)
    ensures RegInv(Apply(s, step))
  {
    var n := |CountedSet(s.clients)|;
    match step
    case AttachStart(c) => CountedMoved(s.clients, c, Fresh());
    case Act(c, action) =>
      var (reg, accepted) := RegAfter(s.reg, action);
      CountedMoved(s.clients, c, Moved(s.clients[c], action, accepted));
      RegMoved(s.reg, s.clients[c], action, n);
    case Enter(d) => CountedMoved(s.clients, s.cursors[d].c, Apply(s, step).clients[s.cursors[d].c]);
    case Leave(d) => CountedMoved(s.clients, s.cursors[d].c, Apply(s, step).clients[s.cursors[d].c]);
    case _ =>
  }

  lemma InsideMoved(cursors: map<DispatcherId, Cursor>, d: DispatcherId, to: Cursor, c: ClientId)
    requires d in cursors
    ensures |InsideSet(cursors[d := to], c)| ==
            |InsideSet(cursors, c)| - One(cursors[d] == Inside(c)) + One(to == Inside(c))
  {
    var a, b := InsideSet(cursors, c), InsideSet(cursors[d := to], c);
    assert a - {d} == b - {d} by {
      forall e ensures e in a - {d} <==> e in b - {d} {
        assert e != d ==> (e in cursors <==> e in cursors[d := to]);
      }
    }
    WithoutOne(a, d);
    WithoutOne(b, d);
  }

  lemma NewClientUnused(s: State, c: ClientId)
    requires RundownInv(s) && c !in s.clients
    ensures InsideSet(s.cursors, c) == {}
  {
    if d :| d in InsideSet(s.cursors, c) {
      assert Pointed(s.clients, s.cursors[d].c);
    }
  }

  lemma ReleasedClientUnused(s: State, c: ClientId)
    requires RundownInv(s) && c in s.clients && Ledger(s.clients[c])
    requires s.clients[c].phase.ItemReturned? && MayRelease(s, c)
    ensures forall d :: d in s.cursors ==> s.cursors[d].c != c
  {
    assert InsideSet(s.cursors, c) == {};
    forall d | d in s.cursors ensures s.cursors[d].c != c {
      assert d !in InsideSet(s.cursors, c);
    }
  }

  lemma PointedMoved(clients: map<ClientId, Client>, c: ClientId, action: Action, accepted: bool)
    requires Pointed(clients, c) && clients[c].phase == From(action) && !action.Release?
    ensures Pointed(clients[c := Moved(clients[c], action, accepted)], c)
  {
  }

  lemma HoldersMoved(client: Client, action: Action, accepted: bool)
    ensures Moved(client, action, accepted).holders == client.holders
  {
  }

  lemma RundownKeptByClient(s: State, c: ClientId, action: Action)
    requires RundownInv(s) && LedgerInv(s) && Enabled(s, Act(c, action))
    ensures RundownInv(Apply(s, Act(c, action)))
  {
    var s' := Apply(s, Act(c, action));
    var accepted := RegAfter(s.reg, action).1;
    HoldersMoved(s.clients[c], action, accepted);
    assert s'.cursors == s.cursors && s'.clients == s.clients[c := Moved(s.clients[c], action, accepted)];
    if action.Release? {
      ReleasedClientUnused(s, c);
    } else {
      forall d | d in s.cursors ensures Pointed(s'.clients, s.cursors[d].c) {
        if s.cursors[d].c == c {
          PointedMoved(s.clients, c, action, accepted);
        }
      }
    }
  }

  lemma RundownKeptByRundown(s: State, step: Step)
    requires RundownInv(s) && LedgerInv(s) && Enabled(s, step) && (step.Enter? || step.Leave?)
    ensures RundownInv(Apply(s, step))
  {
    var d, c0 := step.d, s.cursors[step.d].c;
    var s' := Apply(s, step);
    assert Ledger(s.clients[c0]) && Pointed(s.clients, c0);
    assert forall c :: Pointed(s'.clients, c) <==> Pointed(s.clients, c);
    forall c | c in s'.clients ensures s'.clients[c].holders == |InsideSet(s'.cursors, c)| {
      InsideMoved(s.cursors, d, s'.cursors[d], c);
      assert s'.cursors == s.cursors[d := s'.cursors[d]];
    }
  }

  lemma InsideUnmoved(s: State, cursors: map<DispatcherId, Cursor>, d: DispatcherId, c: ClientId)
    requires cursors - {d} == s.cursors - {d}
    requires (d in cursors ==> !cursors[d].Inside?) && (d in s.cursors ==> !s.cursors[d].Inside?)
    ensures InsideSet(cursors, c) == InsideSet(s.cursors, c)
  {
    forall e | e != d ensures (e in cursors <==> e in s.cursors) && (e in cursors ==> cursors[e] == s.cursors[e]) {
      assert e in cursors - {d} <==> e in s.cursors - {d};
      if e in cursors { assert (cursors - {d})[e] == (s.cursors - {d})[e]; }
    }
  }

  lemma ListedIsPointed(s: State, i: nat)
    requires ListInv(s) && i < |s.list|
    ensures Pointed(s.clients, s.list[i])
  {
    assert s.list[i] in s.list;
  }

  lemma WalkPoints(s: State, step: Step)
    requires ListInv(s) && LedgerInv(s) && Enabled(s, step) && (step.First? || step.Successor?)
    ensures var cursors := Apply(s, step).cursors;
            && cursors - {step.d} == s.cursors - {step.d}
            && (step.d in cursors ==>
                  cursors[step.d].Outside? && Pointed(s.clients, cursors[step.d].c))
  {
    if step.First? {
      if s.list != [] { ListedIsPointed(s, 0); }
    } else {
      var i := IndexOf(s.list, s.cursors[step.d].c);
      if i + 1 < |s.list| {
        ListedIsPointed(s, i + 1);
      } else if i == |s.list| && !step.end {
        assert Ledger(s.clients[step.stale]);
      }
    }
  }

  lemma RundownKeptByWalk(s: State, step: Step)
    requires RundownInv(s) && LedgerInv(s) && ListInv(s) && Enabled(s, step) && (step.First? || step.Successor?)
    ensures RundownInv(Apply(s, step))
  {
    var s' := Apply(s, step);
    WalkPoints(s, step);
    forall c | c in s'.clients ensures s'.clients[c].holders == |InsideSet(s'.cursors, c)| {
      InsideUnmoved(s, s'.cursors, step.d, c);
    }
    forall d | d in s'.cursors ensures Pointed(s'.clients, s'.cursors[d].c) {
      if d != step.d { assert d in s.cursors - {step.d} && (s'.cursors - {step.d})[d] == s.cursors[d]; }
    }
  }

  lemma StepKeepsInv(s: State, step: Step)
    requires Inv(s) && Enabled(s, step)
    ensures Inv(Apply(s, step))
  {
    LedgerKept(s, step);
    ListKept(s, step);
    RegKept(s, step);
    match step
    case AttachStart(c) => NewClientUnused(s, c);
    case Act(c, action) => RundownKeptByClient(s, c, action);
    case Enter(_) => RundownKeptByRundown(s, step);
    case Leave(_) => RundownKeptByRundown(s, step);
    case _ => RundownKeptByWalk(s, step);
  }

  lemma {:induction false} RunKeepsInv(s: State, steps: seq<Step>)
    requires Inv(s) && Legal(s, steps)
    ensures Inv(Final(s, steps))
    decreases |steps|
  {
    if steps != [] {
      StepKeepsInv(s, steps[0]);
      RunKeepsInv(Apply(s, steps[0]), steps[1..]);
    }
  }

  lemma {:induction false} ReachableInv(s: State)
    requires Reachable(s)
    ensures Inv(s)
  {
    var steps :| Legal(Initial, steps) && Final(Initial, steps) == s;
    assert CountedSet(Initial.clients) == {};
    RunKeepsInv(Initial, steps);
  }

  // ------------------------------------------------------------------ the registration count

  ghost function InPhase(s: State, phase: Phase): set<ClientId> {
    set c | c in s.clients && s.clients[c].phase == phase
  }

  lemma {:induction false} DistinctSize(list: seq<ClientId>, members: set<ClientId>)
    requires forall i, j :: 0 <= i < j < |list| ==> list[i] != list[j]
    requires forall c :: c in list <==> c in members
    ensures |list| == |members|
    decreases |list|
  {
    if list == [] {
      assert members == {};
    } else {
      assert list[0] in members;
      forall c ensures c in list[1..] <==> c in members - {list[0]} {
        if c in list[1..] { var k :| 0 <= k < |list[1..]| && list[1..][k] == c; assert list[k + 1] == c; }
        if c in list && c != list[0] { var k :| 0 <= k < |list| && list[k] == c; assert list[1..][k - 1] == c; }
      }
      DistinctSize(list[1..], members - {list[0]});
    }
  }

  lemma CountedSize(s: State)
    ensures |CountedSet(s.clients)| == |InPhase(s, Attached)| + |InPhase(s, Registered)|
  {
    assert CountedSet(s.clients) == InPhase(s, Attached) + InPhase(s, Registered);
    assert InPhase(s, Attached) !! InPhase(s, Registered);
  }

  lemma ListSize(s: State)
    requires ListInv(s)
    ensures |s.list| == |InPhase(s, Attached)| + |InPhase(s, DetachCalled)|
  {
    var members := InPhase(s, Attached) + InPhase(s, DetachCalled);
    assert InPhase(s, Attached) !! InPhase(s, DetachCalled);
    forall c ensures c in s.list <==> c in members {
      assert c in members <==> c in s.clients && InList(s.clients[c].phase);
    }
    DistinctSize(s.list, members);
  }

  /** At every point of every run the registration count is the length of the attached list, plus
      the attaches whose callback succeeded but that are not inserted yet, minus the detaches whose
      callback ran but that are not unlinked yet; the flag says whether it is positive, and while it
      is the kernel routine is registered. */
  lemma RegistrationCount(s: State)
    requires Reachable(s)
    ensures s.reg.count == |s.list| + |InPhase(s, Registered)| - |InPhase(s, DetachCalled)|
    ensures s.reg.count >= 0 && (s.reg.registered <==> s.reg.count > 0)
    ensures s.reg.registered ==> s.reg.osRegistered
  {
    ReachableInv(s);
    CountedSize(s);
    ListSize(s);
  }

  /** A detach callback always finds a positive count to decrement. */
  lemma DetachNeverUnderflows(s: State, c: ClientId, osOk: bool)
    requires Reachable(s) && Enabled(s, Act(c, DetachCallback(osOk)))
    ensures s.reg.registered && s.reg.count >= 1 && OnDetach(s.reg, osOk).count == s.reg.count - 1
  {
    ReachableInv(s);
    assert c in CountedSet(s.clients);
  }

  // ------------------------------------------------------------------ the kernel routine

  /** A step that takes the count from one to zero. */
  predicate LastDetach(s: State, step: Step) { step.Act? && step.action.DetachCallback? && s.reg.count == 1 }

  /** The kernel refused the most recent of the last detaches of a run; `before` says it for the runs
      that lead up to it. */
  predicate LastRefused(s: State, steps: seq<Step>, before: bool)
    requires Legal(s, steps)
    decreases |steps|
  {
    if steps == [] then before
    else
      LastRefused(Apply(s, steps[0]), steps[1..], if LastDetach(s, steps[0]) then !steps[0].action.osOk else before)
  }

  lemma RoutineStep(s: State, step: Step, before: bool)
    requires RegInv(s) && Enabled(s, step) && (s.reg.osRegistered <==> s.reg.registered || before)
    ensures var reg := Apply(s, step).reg;
            var after := if LastDetach(s, step) then !step.action.osOk else before;
            reg.osRegistered <==> reg.registered || after
  {
    if step.Act? && step.action.DetachCallback? {
      assert step.c in CountedSet(s.clients);
    }
  }

  lemma {:induction false} RoutineRun(s: State, steps: seq<Step>, before: bool)
    requires Inv(s) && Legal(s, steps) && (s.reg.osRegistered <==> s.reg.registered || before)
    ensures var reg := Final(s, steps).reg; reg.osRegistered <==> reg.registered || LastRefused(s, steps, before)
    decreases |steps|
  {
    if steps != [] {
      StepKeepsInv(s, steps[0]);
      RoutineStep(s, steps[0], before);
      RoutineRun(Apply(s, steps[0]), steps[1..],
                 if LastDetach(s, steps[0]) then !steps[0].action.osOk else before);
    }
  }

  /** At the end of every run the kernel routine is registered exactly while the flag is set, that is
      while there are clients, or when the kernel refused to remove it at the most recent last detach. */
  lemma {:induction false} KernelRoutineExact(steps: seq<Step>)
    requires Legal(Initial, steps)
    ensures var reg := Final(Initial, steps).reg;
            reg.osRegistered <==> reg.count > 0 || LastRefused(Initial, steps, false)
  {
    assert CountedSet(Initial.clients) == {};
    RoutineRun(Initial, steps, false);
    RunKeepsInv(Initial, steps);
  }

  predicate DetachesAccepted(steps: seq<Step>) {
    forall i :: 0 <= i < |steps| && steps[i].Act? && steps[i].action.DetachCallback? ==> steps[i].action.osOk
  }

  lemma {:induction false} NoneRefused(s: State, steps: seq<Step>)
    requires Legal(s, steps) && DetachesAccepted(steps)
    ensures !LastRefused(s, steps, false)
    decreases |steps|
  {
    if steps != [] {
      NoneRefused(Apply(s, steps[0]), steps[1..]);
    }
  }

  /** In every run whose detach callbacks the kernel all accepts, the routine is registered exactly while
      the flag is set and exactly while the count is positive. */
  lemma RoutineFollowsClients(steps: seq<Step>)
    requires Legal(Initial, steps) && DetachesAccepted(steps)
    ensures var reg := Final(Initial, steps).reg;
            (reg.osRegistered <==> reg.registered) && (reg.osRegistered <==> reg.count > 0)
  {
    KernelRoutineExact(steps);
    NoneRefused(Initial, steps);
    assert Reachable(Final(Initial, steps));
    RegistrationCount(Final(Initial, steps));
  }

  // ------------------------------------------------------------------ rundown protection

  /** Inside its rundown a client's record and work item are allocated and its detach has not
      passed the wait. */
  lemma RundownProtects(s: State, d: DispatcherId, c: ClientId)
    requires Inv(s) && d in s.cursors && s.cursors[d] == Inside(c)
    ensures c in s.clients && RecordLive(s.clients[c]) && s.clients[c].itemFrees == 0
    ensures !PastWait(s.clients[c].phase)
  {
    assert d in InsideSet(s.cursors, c);
    assert Pointed(s.clients, c) && Ledger(s.clients[c]);
  }

  lemma InsideKept(s: State, step: Step, d: DispatcherId, c: ClientId)
    requires Enabled(s, step) && d in s.cursors && s.cursors[d] == Inside(c) && step != Leave(d)
    ensures d in Apply(s, step).cursors && Apply(s, step).cursors[d] == Inside(c)
  {
  }

  lemma {:induction false} InsideUntilLeave(s: State, steps: seq<Step>, d: DispatcherId, c: ClientId)
    requires Inv(s) && d in s.cursors && s.cursors[d] == Inside(c)
    requires Legal(s, steps) && Leave(d) !in steps
    ensures var s' := Final(s, steps);
            && d in s'.cursors && s'.cursors[d] == Inside(c)
            && c in s'.clients && RecordLive(s'.clients[c]) && !PastWait(s'.clients[c].phase)
    decreases |steps|
  {
    if steps == [] {
      RundownProtects(s, d, c);
    } else {
      InsideKept(s, steps[0], d, c);
      StepKeepsInv(s, steps[0]);
      InsideUntilLeave(Apply(s, steps[0]), steps[1..], d, c);
    }
  }

  /** From a successful entry to the matching leave, whatever the other threads do, the record is
      not freed and the detach does not complete. */
  lemma ProtectedUntilLeave(s: State, steps: seq<Step>, d: DispatcherId, c: ClientId)
    requires Reachable(s) && d in s.cursors && s.cursors[d] == Inside(c)
    requires Legal(s, steps) && Leave(d) !in steps
    ensures var s' := Final(s, steps);
            && d in s'.cursors && s'.cursors[d] == Inside(c)
            && c in s'.clients && RecordLive(s'.clients[c]) && !PastWait(s'.clients[c].phase)
  {
    ReachableInv(s);
    InsideUntilLeave(s, steps, d, c);
  }

  lemma PastWaitKept(s: State, step: Step, c: ClientId)
    requires Enabled(s, step) && c in s.clients && PastWait(s.clients[c].phase)
    ensures c in Apply(s, step).clients && PastWait(Apply(s, step).clients[c].phase)
  {
  }

  lemma {:induction false} NobodyInsideAfterWait(s: State, steps: seq<Step>, c: ClientId)
    requires Inv(s) && c in s.clients && PastWait(s.clients[c].phase) && Legal(s, steps)
    ensures var s' := Final(s, steps);
            && c in s'.clients && PastWait(s'.clients[c].phase)
            && forall d :: d in s'.cursors ==> s'.cursors[d] != Inside(c)
    decreases |steps|
  {
    if steps == [] {
      forall d | d in s.cursors ensures s.cursors[d] != Inside(c) {
        if s.cursors[d] == Inside(c) { RundownProtects(s, d, c); }
      }
    } else {
      StepKeepsInv(s, steps[0]);
      PastWaitKept(s, steps[0], c);
      NobodyInsideAfterWait(Apply(s, steps[0]), steps[1..], c);
    }
  }

  /** Once the completion routine has passed its wait, no invocation of the client is in progress
      and none ever starts again. */
  lemma NoInvocationAfterWait(s: State, steps: seq<Step>, c: ClientId)
    requires Reachable(s) && c in s.clients && PastWait(s.clients[c].phase) && Legal(s, steps)
    ensures var s' := Final(s, steps);
            && c in s'.clients && PastWait(s'.clients[c].phase)
            && forall d :: d in s'.cursors ==> s'.cursors[d] != Inside(c)
  {
    ReachableInv(s);
    NobodyInsideAfterWait(s, steps, c);
  }

  /** A dispatcher that is done with a listed client goes on to the next one in the list, and ends its walk
      at the last. */
  lemma SuccessorIsNext(s: State, step: Step, i: nat)
    requires Reachable(s) && Enabled(s, step) && step.Successor? && i < |s.list| && s.cursors[step.d].c == s.list[i]
    ensures var s' := Apply(s, step);
            if i + 1 < |s.list| then step.d in s'.cursors && s'.cursors[step.d] == Outside(s.list[i + 1])
            else step.d !in s'.cursors
  {
    ReachableInv(s);
  }

  // ------------------------------------------------------------------ exactly-once release

  /** A record and a work item are allocated at most once and freed at most once and only when
      allocated; once the attach was rejected or the client released, both balances are even. */
  lemma ReleasedExactlyOnce(s: State, c: ClientId)
    requires Reachable(s) && c in s.clients
    ensures var k := s.clients[c];
            && k.recordFrees <= k.recordAllocs <= 1 && k.itemFrees <= k.itemAllocs <= 1
            && (k.phase.Rejected? || k.phase.Released? ==>
                  k.recordFrees == k.recordAllocs && k.itemFrees == k.itemAllocs)
            && (k.phase.Released? ==> k.recordFrees == 1 && k.itemFrees == 1)
  {
    ReachableInv(s);
    assert Ledger(s.clients[c]);
  }

  predicate Settled(client: Client, success: bool) {
    if success then WasAttached(client) else client.phase.Failed? || client.phase.Rejected?
  }

  lemma SettledKept(s: State, step: Step, c: ClientId, success: bool)
    requires Enabled(s, step) && c in s.clients && Settled(s.clients[c], success)
    ensures c in Apply(s, step).clients && Settled(Apply(s, step).clients[c], success)
  {
  }

  lemma {:induction false} SettledForever(s: State, steps: seq<Step>, c: ClientId, success: bool)
    requires Legal(s, steps) && c in s.clients && Settled(s.clients[c], success)
    ensures c in Final(s, steps).clients && Settled(Final(s, steps).clients[c], success)
    decreases |steps|
  {
    if steps != [] {
      SettledKept(s, steps[0], c, success);
      SettledForever(Apply(s, steps[0]), steps[1..], c, success);
    }
  }

  /** Only clients whose attach returned success are ever in the list: a listed client is never
      rejected later, and a failed one is never listed later. */
  lemma OnlySuccessfulClientsListed(s: State, steps: seq<Step>, c: ClientId)
    requires Reachable(s) && Legal(s, steps) && c in s.clients
    ensures c in s.list ==> c in Final(s, steps).clients && WasAttached(Final(s, steps).clients[c])
    ensures s.clients[c].phase.Failed? || s.clients[c].phase.Rejected? ==> c !in Final(s, steps).list
  {
    ReachableInv(s);
    RunKeepsInv(s, steps);
    if c in s.list {
      SettledForever(s, steps, c, true);
    } else if Settled(s.clients[c], false) {
      SettledForever(s, steps, c, false);
    }
  }
}
