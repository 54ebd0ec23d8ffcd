/** The life of hook clients: attach, dispatch under rundown protection, detach and free.

    Any number of clients attach and detach, and any number of dispatchers walk the list, all at
    once.  Every section the driver runs under one lock is one step: the attach and detach
    callbacks under the extension's push lock, the insertion, the removal and the look-ups under
    the provider's spin lock.  The outcome of an allocation or of a foreign call is part of the
    step's label, so a run ranges over every pattern of failures.
 */
module HookLifecycle {
  import opened Common

  type ClientId = nat
  type DispatcherId = nat

  /** How far a client has come. */
  datatype Phase =
    | Started         // attach entered
    | Allocated       // record allocated and zeroed
    | Checked         // dispatch table accepted
    | Prepared        // work item allocated, rundown initialised
    | Registered      // attach callback succeeded, not yet in the list
    | Attached        // in the list, attach returned success
    | Failed          // attach fails after the record was allocated
    | Rejected        // attach returned an error
    | DetachCalled    // detach callback ran, still in the list
    | Unlinked        // removed from the list
    | Queued          // completion work item queued
    | Waiting         // completion waits for the rundown
    | Drained         // the wait returned
    | ItemReturned    // work item freed
    | Released        // NMR told, record freed

  datatype Client = Client(
    phase: Phase,
    recordAllocs: nat, recordFrees: nat,
    itemAllocs: nat, itemFrees: nat,
    holders: nat,          // references held on the rundown object
    waitBegun: bool)       // the rundown object refuses further entries

  /** A dispatcher's pointer to a client, and whether it is inside that client's rundown. */
  datatype Cursor = Outside(c: ClientId) | Inside(c: ClientId) | Left(c: ClientId)

  /** The extension's registration with the kernel, guarded by the push lock. */
  datatype Registration = Registration(registered: bool, count: int, osRegistered: bool)

  datatype State = State(
    clients: map<ClientId, Client>,
    list: seq<ClientId>,
    reg: Registration,
    cursors: map<DispatcherId, Cursor>)

  const Initial := State(map[], [], Registration(false, 0, false), map[])

  /** What a client's attach, detach or completion thread does next. */
  datatype Action =
    | AllocateRecord(ok: bool)
    | CheckDispatch(ok: bool)
    | AllocateItem(ok: bool)
    | AttachCallback(accepts: bool, osOk: bool)
    | Insert
    | CleanUp
    | DetachCallback(osOk: bool)
    | Unlink
    | QueueItem
    | BeginWait
    | EndWait
    | FreeItem
    | Release

  datatype Step =
    | AttachStart(c: ClientId)
    | Act(c: ClientId, action: Action)
    | First(d: DispatcherId)
    | Enter(d: DispatcherId)
    | Leave(d: DispatcherId)
    | Successor(d: DispatcherId, stale: ClientId, end: bool)

  // ------------------------------------------------------------------ the attach and detach callbacks

  /** The attach callback under the push lock.  `accepts` is what it decides from the client data
      alone; the first client registers with the kernel, which may refuse. */
  function OnAttach(reg: Registration, accepts: bool, osOk: bool): (Registration, bool) {
    if !accepts then (reg, false)
    else if !reg.registered && !osOk then (reg, false)
    else (Registration(true, reg.count + 1, reg.osRegistered || !reg.registered), true)
  }

  /** The detach callback: the last client unregisters, and the flag is cleared even if the kernel
      refuses. */
  function OnDetach(reg: Registration, osOk: bool): Registration {
    var count := reg.count - 1;
    if reg.registered && count == 0
    then Registration(false, 0, reg.osRegistered && !osOk)
    else reg.(count := count)
  }

  // ------------------------------------------------------------------ the steps

  function Fresh(): Client { Client(Started, 0, 0, 0, 0, 0, false) }

  predicate RecordLive(client: Client) { client.recordAllocs > client.recordFrees }

  predicate WasAttached(client: Client) {
    match client.phase
    case Attached | DetachCalled | Unlinked | Queued | Waiting | Drained | ItemReturned | Released => true
    case _ => false
  }

  /** Assumption on the environment: a record is not released while a dispatcher holds a pointer to
      it outside its rundown, that is before entering the rundown or before reading the successor.
      Inside the rundown nothing is assumed. */
  predicate MayRelease(s: State, c: ClientId) {
    forall d :: d in s.cursors ==> s.cursors[d] != Outside(c) && s.cursors[d] != Left(c)
  }

  /** The phase in which a client takes an action. */
  function From(action: Action): Phase {
    match action
    case AllocateRecord(_) => Started
    case CheckDispatch(_) => Allocated
    case AllocateItem(_) => Checked
    case AttachCallback(_, _) => Prepared
    case Insert => Registered
    case CleanUp => Failed
    case DetachCallback(_) => Attached
    case Unlink => DetachCalled
    case QueueItem => Unlinked
    case BeginWait => Queued
    case EndWait => Waiting
    case FreeItem => Drained
    case Release => ItemReturned
  }

  predicate Enabled(s: State, step: Step) {
    match step
    case AttachStart(c) => c !in s.clients
    case Act(c, action) =>
      && c in s.clients && s.clients[c].phase == From(action)
      && (action.EndWait? ==> s.clients[c].holders == 0)
      && (action.Release? ==> MayRelease(s, c))
    case First(d) => d !in s.cursors
    case Enter(d) => d in s.cursors && s.cursors[d].Outside? && s.cursors[d].c in s.clients
    case Leave(d) => d in s.cursors && s.cursors[d].Inside? && s.cursors[d].c in s.clients
    case Successor(d, stale, end) =>
      && d in s.cursors && s.cursors[d].Left?
      // A client that was removed meanwhile may point to the list head (`end`) or to any record
      // that is still allocated.
      && (s.cursors[d].c !in s.list && !end ==>
            stale in s.clients && WasAttached(s.clients[stale]) && RecordLive(s.clients[stale]))
  }

  /** The client after one of its actions; `accepted` is the result of the attach callback. */
  function Moved(client: Client, action: Action, accepted: bool): Client {
    match action
    case AllocateRecord(ok) =>
      if ok then client.(phase := Allocated, recordAllocs := client.recordAllocs + 1) else client.(phase := Rejected)
    case CheckDispatch(ok) => client.(phase := if ok then Checked else Failed)
    case AllocateItem(ok) =>
      if ok then client.(phase := Prepared, itemAllocs := client.itemAllocs + 1) else client.(phase := Failed)
    case AttachCallback(_, _) => client.(phase := if accepted then Registered else Failed)
    case Insert => client.(phase := Attached)
    case CleanUp =>
      client.(phase := Rejected, recordFrees := client.recordFrees + 1,
              itemFrees := client.itemFrees + if client.itemAllocs > client.itemFrees then 1 else 0)
    case DetachCallback(_) => client.(phase := DetachCalled)
    case Unlink => client.(phase := Unlinked)
    case QueueItem => client.(phase := Queued)
    case BeginWait => client.(phase := Waiting, waitBegun := true)
    case EndWait => client.(phase := Drained)
    case FreeItem => client.(phase := ItemReturned, itemFrees := client.itemFrees + 1)
    case Release => client.(phase := Released, recordFrees := client.recordFrees + 1)
  }

  function RegAfter(reg: Registration, action: Action): (Registration, bool) {
    match action
    case AttachCallback(accepts, osOk) => OnAttach(reg, accepts, osOk)
    case DetachCallback(osOk) => (OnDetach(reg, osOk), false)
    case _ => (reg, false)
  }

  function ListAfter(list: seq<ClientId>, c: ClientId, action: Action): seq<ClientId> {
    match action
    case Insert => list + [c]
    case Unlink =>
      var i := IndexOf(list, c);
      if i < |list| then Without(list, i) else list
    case _ => list
  }

  /** Where a dispatcher goes from a client it has finished with; it may end its walk. */
  function CursorsAfter(s: State, step: Step): map<DispatcherId, Cursor>
    requires Enabled(s, step) && step.Successor?
  {
    var i := IndexOf(s.list, s.cursors[step.d].c);
    if i + 1 < |s.list| then s.cursors[step.d := Outside(s.list[i + 1])]
    else if i < |s.list| || step.end then s.cursors - {step.d}
    else s.cursors[step.d := Outside(step.stale)]
  }

  function Apply(s: State, step: Step): State
    requires Enabled(s, step)
  {
    match step
    case AttachStart(c) => s.(clients := s.clients[c := Fresh()])
    case Act(c, action) =>
      var (reg, accepted) := RegAfter(s.reg, action);
      s.(clients := s.clients[c := Moved(s.clients[c], action, accepted)],
         list := ListAfter(s.list, c, action), reg := reg)
    case First(d) => if s.list == [] then s else s.(cursors := s.cursors[d := Outside(s.list[0])])
    case Enter(d) =>
      var c := s.cursors[d].c;
      if s.clients[c].waitBegun then s.(cursors := s.cursors[d := Left(c)])
      else s.(cursors := s.cursors[d := Inside(c)],
              clients := s.clients[c := s.clients[c].(holders := s.clients[c].holders + 1)])
    case Leave(d) =>
      var c := s.cursors[d].c;
      var h := s.clients[c].holders;
      s.(cursors := s.cursors[d := Left(c)],
         clients := s.clients[c := s.clients[c].(holders := if h > 0 then h - 1 else 0)])
    case Successor(_, _, _) => s.(cursors := CursorsAfter(s, step))
  }

  // ------------------------------------------------------------------ runs

  predicate Legal(s: State, steps: seq<Step>)
    decreases |steps|
  {
    steps == [] || (Enabled(s, steps[0]) && Legal(Apply(s, steps[0]), steps[1..]))
  }

  function Final(s: State, steps: seq<Step>): State
    requires Legal(s, steps)
    decreases |steps|
  {
    if steps == [] then s else Final(Apply(s, steps[0]), steps[1..])
  }

  ghost predicate Reachable(s: State) {
    exists steps :: Legal(Initial, steps) && Final(Initial, steps) == s
  }

  // ------------------------------------------------------------------ the invariant

  predicate InList(phase: Phase) { phase.Attached? || phase.DetachCalled? }

  predicate Counted(phase: Phase) { phase.Registered? || phase.Attached? }

  /** No reference can be taken any more, and none is held. */
  predicate PastWait(phase: Phase) { phase.Drained? || phase.ItemReturned? || phase.Released? }

  /** What a client's phase says about its allocations and its rundown. */
  predicate Ledger(client: Client) {
    var r, rf, w, wf := client.recordAllocs, client.recordFrees, client.itemAllocs, client.itemFrees;
    && (match client.phase
        case Started => r == rf == w == wf == 0
        case Allocated | Checked => r == 1 && rf == w == wf == 0
        case Failed => r == 1 && rf == wf == 0 && w <= 1
        case Rejected => rf == r <= 1 && wf == w <= 1
        case ItemReturned => r == w == wf == 1 && rf == 0
        case Released => r == rf == w == wf == 1
        case _ => r == w == 1 && rf == wf == 0)
    && (client.waitBegun <==> client.phase.Waiting? || PastWait(client.phase))
    && (client.holders > 0 ==> WasAttached(client) && !PastWait(client.phase))
  }

  ghost predicate ListInv(s: State) {
    && (forall i, j :: 0 <= i < j < |s.list| ==> s.list[i] != s.list[j])
    && (forall c :: c in s.list <==> c in s.clients && InList(s.clients[c].phase))
  }

  ghost function CountedSet(clients: map<ClientId, Client>): set<ClientId> {
    set c | c in clients && Counted(clients[c].phase)
  }

  /** The registration accounts for `n` clients. */
  predicate RegFits(reg: Registration, n: int) {
    && reg.count == n >= 0
    && (reg.registered <==> reg.count > 0)
    && (reg.registered ==> reg.osRegistered)
  }

  ghost predicate RegInv(s: State) { RegFits(s.reg, |CountedSet(s.clients)|) }

  ghost function InsideSet(cursors: map<DispatcherId, Cursor>, c: ClientId): set<DispatcherId> {
    set d | d in cursors && cursors[d] == Inside(c)
  }

  /** A dispatcher's pointer is to a client that was attached and whose record is not freed. */
  predicate Pointed(clients: map<ClientId, Client>, c: ClientId) {
    c in clients && WasAttached(clients[c]) && !clients[c].phase.Released?
  }

  ghost predicate RundownInv(s: State) {
    && (forall d :: d in s.cursors ==> Pointed(s.clients, s.cursors[d].c))
    && (forall c :: c in s.clients ==> s.clients[c].holders == |InsideSet(s.cursors, c)|)
  }

  ghost predicate LedgerInv(s: State) { forall c :: c in s.clients ==> Ledger(s.clients[c]) }

  ghost predicate Inv(s: State) {
    LedgerInv(s) && ListInv(s) && RegInv(s) && RundownInv(s)
  }
}
