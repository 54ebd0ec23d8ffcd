/** The process notify routine: dispatch to the attached clients, the verdict, and the release of
    the account buffers. */
module ProcessNotify {
  import opened Common
  import opened KernelPool
  import opened ListRing
  import opened ProcessAccount
  import opened ProcessHelpers

  const ACCOUNT_STRING_INLINE_BYTES: nat := 80

  /** An attached client, as the dispatcher meets it: whether its rundown can be entered, the helper
      calls its program makes, and the status the invocation leaves (0 unless the program sets it). */
  datatype Program = Program(enters: bool, calls: seq<Call>, status: int)

  predicate WellFormed(p: Program) { forall i :: 0 <= i < |p.calls| ==> p.calls[i].length <= p.calls[i].room }

  // ------------------------------------------------------------------ the verdict

  datatype Verdict = Verdict(creationStatus: int, ran: seq<Program>)

  function Status(p: Program): int { if p.enters then p.status else STATUS_SUCCESS }

  predicate Fails(p: Program) { p.enters && !NtSuccess(p.status) }

  /** The dispatch loop as a fold over the clients in attach order. */
  function Dispatch(ps: seq<Program>, create: bool, creationStatus: int): Verdict {
    if ps == [] then Verdict(creationStatus, [])
    else
      var ran := if ps[0].enters then [ps[0]] else [];
      if !NtSuccess(Status(ps[0])) && create then Verdict(Status(ps[0]), ran)
      else
        var rest := Dispatch(ps[1..], create, creationStatus);
        Verdict(rest.creationStatus, ran + rest.ran)
  }

  function Entering(ps: seq<Program>): seq<Program> {
    if ps == [] then [] else (if ps[0].enters then [ps[0]] else []) + Entering(ps[1..])
  }

  function FirstFailure(ps: seq<Program>): (k: nat)
    ensures k <= |ps|
    ensures k < |ps| ==> Fails(ps[k])
    ensures forall j :: 0 <= j < k ==> !Fails(ps[j])
  {
    if ps == [] || Fails(ps[0]) then 0 else 1 + FirstFailure(ps[1..])
  }

  /** On creation the status becomes that of the first failing client, and the clients that ran are
      those up to it that could be entered; without a failing client the status is untouched and all
      of them ran.  On deletion no status counts: every client that can be entered runs. */
  lemma {:induction false} VerdictIsFirstFailure(ps: seq<Program>, create: bool, creationStatus: int)
    ensures var v := Dispatch(ps, create, creationStatus);
            var k := FirstFailure(ps);
            if create && k < |ps|
            then v == Verdict(ps[k].status, Entering(ps[..k + 1]))
            else v == Verdict(creationStatus, Entering(ps))
  {
    if ps != [] {
      VerdictIsFirstFailure(ps[1..], create, creationStatus);
      var k := FirstFailure(ps);
      if Fails(ps[0]) {
        assert ps[..1] == [ps[0]];
      } else if k < |ps| {
        assert ps[..k + 1][0] == ps[0] && ps[..k + 1][1..] == ps[1..][..k];
        assert ps[1..][k - 1] == ps[k];
      }
    }
  }

  lemma {:induction false} DispatchSplit(ps: seq<Program>, k: nat, create: bool, creationStatus: int)
    requires k <= |ps| && (create ==> forall j :: 0 <= j < k ==> !Fails(ps[j]))
    ensures Dispatch(ps, create, creationStatus) ==
            var rest := Dispatch(ps[k..], create, creationStatus);
            Verdict(rest.creationStatus, Entering(ps[..k]) + rest.ran)
    decreases k
  {
    if k == 0 {
      assert ps[0..] == ps;
    } else {
      DispatchSplit(ps[1..], k - 1, create, creationStatus);
      assert ps[1..][k - 1..] == ps[k..] && ps[..k][1..] == ps[1..][..k - 1];
      Associate(if ps[0].enters then [ps[0]] else [], Entering(ps[1..][..k - 1]),
                       Dispatch(ps[k..], create, creationStatus).ran);
    }
  }

  lemma {:induction false} EnteringSnoc(ps: seq<Program>, p: Program)
    ensures Entering(ps + [p]) == Entering(ps) + if p.enters then [p] else []
    decreases |ps|
  {
    if ps == [] {
      assert ps + [p] == [p] && [p][1..] == [];
    } else {
      EnteringSnoc(ps[1..], p);
      assert (ps + [p])[1..] == ps[1..] + [p];
      Associate(if ps[0].enters then [ps[0]] else [], Entering(ps[1..]), if p.enters then [p] else []);
    }
  }

  /** The clients among the first `k` that can be entered. */
  function EnteringTo(ps: seq<Program>, k: nat): seq<Program>
    requires k <= |ps|
  {
    if k == 0 then [] else EnteringTo(ps, k - 1) + if ps[k - 1].enters then [ps[k - 1]] else []
  }

  /** None of the first `k` clients ended the dispatch. */
  predicate NoVeto(ps: seq<Program>, k: nat, create: bool)
    requires k <= |ps|
  {
    k == 0 || (NoVeto(ps, k - 1, create) && !Vetoes(ps[k - 1], create))
  }

  predicate Vetoes(p: Program, create: bool) { create && Fails(p) }

  lemma {:induction false} EnteringToIs(ps: seq<Program>, k: nat)
    requires k <= |ps|
    ensures EnteringTo(ps, k) == Entering(ps[..k])
  {
    if k > 0 {
      EnteringToIs(ps, k - 1);
      assert ps[..k] == ps[..k - 1] + [ps[k - 1]];
      EnteringSnoc(ps[..k - 1], ps[k - 1]);
    }
  }

  lemma {:induction false} NoVetoIs(ps: seq<Program>, k: nat, create: bool)
    requires k <= |ps| && NoVeto(ps, k, create)
    ensures create ==> forall j :: 0 <= j < k ==> !Fails(ps[j])
  {
    if k > 0 {
      NoVetoIs(ps, k - 1, create);
    }
  }

  /** The verdict, once the client at `k` vetoes or the list ends there without a veto. */
  lemma VerdictAt(ps: seq<Program>, k: nat, create: bool, creationStatus: int)
    requires k <= |ps| && NoVeto(ps, k, create) && (k < |ps| ==> Vetoes(ps[k], create))
    ensures Dispatch(ps, create, creationStatus) ==
            if k < |ps| then Verdict(ps[k].status, EnteringTo(ps, k + 1)) else Verdict(creationStatus, EnteringTo(ps, k))
  {
    EnteringToIs(ps, k);
    NoVetoIs(ps, k, create);
    DispatchSplit(ps, k, create, creationStatus);
    if k < |ps| {
      assert ps[k..][0] == ps[k];
    } else {
      assert ps[..k] == ps && ps[k..] == [];
    }
  }

  // ------------------------------------------------------------------ the routine

  /** What the query of the process's primary token comes to: the process has none, the query fails,
      it succeeds without a result, or it passes on a pool block with a SID, which RtlValidSid,
      RtlLengthSid and RtlCopySid then speak about. */
  datatype TokenQuery = NoToken | QueryFailed | NullUser | UserFound(sidValid: bool, sidLength: nat, copyOk: bool)

  const TOKEN_SID_MAX_SIZE: nat := 68

  /** PS_CREATE_NOTIFY_INFO, with the answer to the token query. */
  datatype CreateInfo = CreateInfo(
    parentProcessId: nat, creatingProcessId: nat, creatingThreadId: nat,
    commandLine: UnicodeString, imageFileName: UnicodeString, token: TokenQuery, creationStatus: int)

  datatype Notification =
    | Create(processId: nat, creationTime: nat, info: CreateInfo)
    | Delete(processId: nat, creationTime: nat, exitTime: nat, exitCode: nat)

  function AllCalls(ps: seq<Program>): seq<Call> {
    if ps == [] then [] else AllCalls(ps[..|ps| - 1]) + ps[|ps| - 1].calls
  }

  ghost function Clients(s: seq<ListEntry<Program>>): seq<Program> {
    seq(|s|, i requires 0 <= i < |s| => s[i].record)
  }

  /** A dispatch so far: where it started, and the programs that ran one after the other, with what each
      was invoked on and observed and the account it left. */
  datatype Log =
    | Start(answer: nat -> Lookup, given: Invocation, first: Snapshot)
    | Ran(before: Log, program: Program, on: Invocation, os: seq<Observation>, now: Snapshot)

  function Origin(log: Log): (o: Log)
    ensures o.Start?
  {
    match log
    case Start(_, _, _) => log
    case Ran(before, _, _, _, _) => Origin(before)
  }

  /** The account after the last program. */
  function End(log: Log): Snapshot {
    match log
    case Start(_, _, first) => first
    case Ran(_, _, _, _, now) => now
  }

  function Programs(log: Log): seq<Program> {
    match log
    case Start(_, _, _) => []
    case Ran(before, p, _, _, _) => Programs(before) + [p]
  }

  function Observed(log: Log): seq<Observation> {
    match log
    case Start(_, _, _) => []
    case Ran(before, _, _, os, _) => Observed(before) + os
  }

  /** Every program of the dispatch was invoked on `given`. */
  predicate AllOn(log: Log, given: Invocation) {
    match log
    case Start(_, _, _) => true
    case Ran(before, _, on, _, _) => AllOn(before, given) && on == given
  }

  /** Every program ran on what the dispatch started with, from the account that the one before it left. */
  ghost predicate Chain(log: Log) {
    match log
    case Start(_, _, _) => true
    case Ran(before, p, on, os, now) =>
      var o := Origin(before);
      Chain(before) && on == o.given && Stretch(o.answer, on.hasSid, on.image, os, p.calls, End(before), now)
  }

  lemma {:induction false} ChainIsOnOne(log: Log)
    requires Chain(log)
    ensures AllOn(log, Origin(log).given)
  {
    match log
    case Start(_, _, _) =>
    case Ran(before, _, _, _, _) => ChainIsOnOne(before);
  }

  /** All that the programs observed, they observed as one program making all of their calls would. */
  lemma {:induction false} ChainIsStretch(log: Log)
    requires Chain(log)
    ensures var o := Origin(log);
            Stretch(o.answer, o.given.hasSid, o.given.image, Observed(log), AllCalls(Programs(log)), o.first, End(log))
  {
    match log
    case Start(_, _, _) =>
    case Ran(before, p, on, os, now) =>
      var o := Origin(log);
      ChainIsStretch(before);
      assert Programs(log)[..|Programs(before)|] == Programs(before);
      StretchConcat(o.answer, on.hasSid, on.image, Observed(before), AllCalls(Programs(before)), os, p.calls,
                    o.first, End(before), now);
  }

  /** The log is that of a dispatch that started as `o`, and the context stands where it ends. */
  ghost predicate Follows(log: Log, o: Log, pool: Pool, authority: Authority, ctx: ProcessContext)
    reads pool, authority, ctx, ctx.accountName.buffer, ctx.accountDomain.buffer, ctx.commandLine.buffer,
          ctx.imageFileName.buffer
  {
    && o.Start? && Origin(log) == o && Chain(log) && pool.Valid() && ctx.Valid()
    && authority.answer == o.answer && InvocationOf(ctx) == o.given
    && Now(pool, authority, ctx) == End(log)
  }

  /** Enter the client's rundown, invoke its program on the shared context, leave the rundown; a
      client that cannot be entered is passed over.  The list is not disturbed. */
  method Visit(pool: Pool, authority: Authority, ctx: ProcessContext, p: Program, ghost o: Log, ghost log0: Log,
               ghost head: ListEntry<Program>, ghost s: seq<ListEntry<Program>>)
    returns (status: int, ghost log: Log)
    requires (forall k :: Honest(authority.answer(k))) && WellFormed(p) && Follows(log0, o, pool, authority, ctx) && Ring(head, s)
    modifies pool, authority`calls, ctx`accountName, ctx`accountDomain, ctx`accountLookupDone,
             ctx.accountName.buffer, ctx.accountDomain.buffer
    ensures Follows(log, o, pool, authority, ctx) && ctx.BuffersKeptOrNew() && Ring(head, s)
    ensures status == Status(p) && Programs(log) == if p.enters then Programs(log0) + [p] else Programs(log0)
  {
    status, log := STATUS_SUCCESS, log0;
    if p.enters {
      ghost var on := InvocationOf(ctx);
      var os := RunProgram(pool, authority, ctx, p.calls);
      ghost var now := Now(pool, authority, ctx);
      log := Ran(log0, p, on, os, now);
      status := p.status;
    }
  }

  /** The body of the dispatch loop: visit the client, and look up the next one unless it vetoed a
      creation. */
  method Turn(pool: Pool, authority: Authority, ctx: ProcessContext, head: ListEntry<Program>,
              client: ListEntry<Program>, create: bool, ghost o: Log, ghost log0: Log,
              ghost s: seq<ListEntry<Program>>, ghost k: nat)
    returns (veto: bool, status: int, next: ListEntry?<Program>, ghost log: Log)
    requires (forall j :: Honest(authority.answer(j))) && Follows(log0, o, pool, authority, ctx)
    requires Ring(head, s) && k < |s| && s[k] == client && WellFormed(client.record)
    modifies pool, authority`calls, ctx`accountName, ctx`accountDomain, ctx`accountLookupDone,
             ctx.accountName.buffer, ctx.accountDomain.buffer
    ensures Follows(log, o, pool, authority, ctx) && ctx.BuffersKeptOrNew() && Ring(head, s)
    ensures status == Status(client.record) && (veto <==> Fails(client.record) && create)
    ensures Programs(log) == if client.record.enters then Programs(log0) + [client.record] else Programs(log0)
    ensures !veto ==> if k + 1 < |s| then next == s[k + 1] else next == null
  {
    status, log := Visit(pool, authority, ctx, client.record, o, log0, head, s);
    veto, next := !NtSuccess(status) && create, null;
    if !veto {
      next := GetNext(head, client, s, k);
    }
  }

  /** The programs of the entries, all of them well formed. */
  ghost predicate Records(s: seq<ListEntry<Program>>, ps: seq<Program>) {
    && |ps| == |s|
    && (s != [] ==> ps[0] == s[0].record && WellFormed(ps[0]) && Records(s[1..], ps[1..]))
  }

  lemma {:induction false} RecordsAt(s: seq<ListEntry<Program>>, ps: seq<Program>, k: nat)
    requires Records(s, ps) && k < |s|
    ensures ps[k] == s[k].record && WellFormed(ps[k])
  {
    if k > 0 {
      RecordsAt(s[1..], ps[1..], k - 1);
    }
  }

  lemma {:induction false} ClientsAreRecords(s: seq<ListEntry<Program>>)
    requires forall i :: 0 <= i < |s| ==> WellFormed(s[i].record)
    ensures Records(s, Clients(s))
  {
    if s != [] {
      assert Clients(s)[1..] == Clients(s[1..]);
      ClientsAreRecords(s[1..]);
    }
  }

  /** The dispatcher has dealt with the first `k` clients, or with one more if that one vetoed. */
  ghost predicate Reached(ps: seq<Program>, k: nat, create: bool, veto: bool, status: int, log: Log) {
    && k <= |ps| && NoVeto(ps, k, create)
    && if veto then k < |ps| && Vetoes(ps[k], create) && status == ps[k].status && Programs(log) == EnteringTo(ps, k + 1)
       else Programs(log) == EnteringTo(ps, k)
  }

  /** The body of the dispatch loop at the k-th client. */
  method Round(pool: Pool, authority: Authority, ctx: ProcessContext, head: ListEntry<Program>,
               client: ListEntry<Program>, create: bool, ghost o: Log, ghost log0: Log,
               ghost s: seq<ListEntry<Program>>, ghost ps: seq<Program>, ghost k: nat)
    returns (veto: bool, status: int, next: ListEntry?<Program>, ghost log: Log)
    requires (forall j :: Honest(authority.answer(j))) && Follows(log0, o, pool, authority, ctx)
    requires Records(s, ps) && Ring(head, s) && k < |s| && s[k] == client && Reached(ps, k, create, false, 0, log0)
    modifies pool, authority`calls, ctx`accountName, ctx`accountDomain, ctx`accountLookupDone,
             ctx.accountName.buffer, ctx.accountDomain.buffer
    ensures Follows(log, o, pool, authority, ctx) && ctx.BuffersKeptOrNew() && Ring(head, s)
    ensures Reached(ps, if veto then k else k + 1, create, veto, status, log)
    ensures !veto ==> if k + 1 < |s| then next == s[k + 1] else next == null
  {
    RecordsAt(s, ps, k);
    veto, status, next, log := Turn(pool, authority, ctx, head, client, create, o, log0, s, k);
  }

  /** The dispatch loop from `first` on, the first of the list if there is one: it runs to the end of the
      list, or to the client at `k` that vetoes. */
  method DispatchFrom(pool: Pool, authority: Authority, ctx: ProcessContext, head: ListEntry<Program>,
                      first: ListEntry?<Program>, create: bool, ghost o: Log,
                      ghost s: seq<ListEntry<Program>>, ghost ps: seq<Program>)
    returns (veto: bool, status: int, ghost log: Log, ghost k: nat)
    requires (forall k :: Honest(authority.answer(k))) && Records(s, ps)
    requires Ring(head, s) && (if s == [] then first == null else first == s[0])
    requires Follows(o, o, pool, authority, ctx)
    modifies pool, authority`calls, ctx`accountName, ctx`accountDomain, ctx`accountLookupDone,
             ctx.accountName.buffer, ctx.accountDomain.buffer
    ensures Follows(log, o, pool, authority, ctx) && ctx.BuffersKeptOrNew()
    ensures Reached(ps, k, create, veto, status, log) && (!veto ==> k == |ps|)
  {
    veto, status, log, k := false, STATUS_SUCCESS, o, 0;
    var client := first;
    while client != null
      invariant 0 <= k <= |s| && (if k < |s| then client == s[k] else client == null)
      invariant Follows(log, o, pool, authority, ctx) && ctx.BuffersKeptOrNew() && Ring(head, s)
      invariant !veto && Reached(ps, k, create, false, 0, log)
      decreases |s| - k
    {
      veto, status, client, log := Round(pool, authority, ctx, head, client, create, o, log, s, ps, k);
      if veto {
        break;
      }
      k := k + 1;
    }
  }

  /** The dispatch: the clients in attach order, one look-up of the list at a time. */
  method DispatchLoop(pool: Pool, authority: Authority, ctx: ProcessContext, head: ListEntry<Program>,
                      create: bool, creationStatus0: int, ghost o: Log,
                      ghost s: seq<ListEntry<Program>>, ghost ps: seq<Program>)
    returns (creationStatus: int, ghost log: Log)
    requires (forall k :: Honest(authority.answer(k))) && Records(s, ps) && Ring(head, s)
    requires Follows(o, o, pool, authority, ctx)
    modifies pool, authority`calls, ctx`accountName, ctx`accountDomain, ctx`accountLookupDone,
             ctx.accountName.buffer, ctx.accountDomain.buffer
    ensures Follows(log, o, pool, authority, ctx) && ctx.BuffersKeptOrNew()
    ensures Verdict(creationStatus, Programs(log)) == Dispatch(ps, create, creationStatus0)
  {
    var first := GetNext(head, null, s, 0);
    var veto, status;
    ghost var k;
    veto, status, log, k := DispatchFrom(pool, authority, ctx, head, first, create, o, s, ps);
    creationStatus := if veto then status else creationStatus0;
    VerdictAt(ps, k, create, creationStatus0);
  }

  predicate SoundInfo(n: Notification) { n.Create? ==> Sound(n.info.commandLine) && Sound(n.info.imageFileName) }

  const PROCESS_OPERATION_CREATE: nat := 0
  const PROCESS_OPERATION_DELETE: nat := 1

  function MdOf(n: Notification): ProcessMd {
    match n
    case Create(id, time, info) =>
      ProcessMd(PROCESS_OPERATION_CREATE, id, info.parentProcessId, info.creatingProcessId, info.creatingThreadId, time, 0, 0)
    case Delete(id, time, exitTime, exitCode) =>
      ProcessMd(PROCESS_OPERATION_DELETE, id, 0, 0, 0, time, exitTime, exitCode)
  }

  /** What the programs of a notification are invoked on. */
  ghost function GivenBy(n: Notification): Invocation
    requires SoundInfo(n)
    reads if n.Create? then {n.info.commandLine.buffer, n.info.imageFileName.buffer} else {}
  {
    if n.Create? then Invocation(HasSid(n), CapturedSize(n.info.token), MdOf(n), Contents(n.info.commandLine), Contents(n.info.imageFileName))
    else Invocation(false, 0, MdOf(n), [], [])
  }

  /** Give back the account buffer unless it is still the inline one. */
  method FreeUnlessInline(pool: Pool, u: UnicodeString, stack: array<Byte>)
    requires pool.Valid() && (u.buffer != null && u.buffer != stack ==> u.buffer in pool.Live())
    modifies pool
    ensures pool.Valid() && pool.taken == old(pool.taken) && pool.refused == old(pool.refused)
    ensures pool.freed == old(pool.freed) + if u.buffer != null && u.buffer != stack then {u.buffer} else {}
  {
    if u.buffer != null && u.buffer != stack {
      pool.Free(u.buffer);
    }
  }

  /** Both account buffers at the end of a notification: what the strings moved to is given back, so
      the pool is what it was at the start; the inline buffers are not among it. */
  method FreeAccount(pool: Pool, name: UnicodeString, domain: UnicodeString, nameStack: array<Byte>, domainStack: array<Byte>,
                     ghost live: set<object>)
    requires pool.Valid() && Apart(name, domain) && name.buffer != domainStack && domain.buffer != nameStack
    requires var moved := MovedBoth(name, Inline(nameStack), domain, Inline(domainStack));
             pool.Live() == live + moved && live !! moved
    modifies pool
    ensures pool.Valid() && pool.Live() == live && pool.taken == old(pool.taken) && pool.refused == old(pool.refused)
    ensures nameStack !in pool.freed - old(pool.freed) && domainStack !in pool.freed - old(pool.freed)
  {
    FreeUnlessInline(pool, name, nameStack);
    FreeUnlessInline(pool, domain, domainStack);
  }

  function Inline(stack: array<Byte>): UnicodeString { UnicodeString(0, ACCOUNT_STRING_INLINE_BYTES, stack) }

  /** The size of the SID that ends up in the context; 0 if none does. */
  function CapturedSize(q: TokenQuery): nat {
    if q.UserFound? && q.sidValid && q.sidLength <= TOKEN_SID_MAX_SIZE && q.copyOk then q.sidLength else 0
  }

  predicate HasSid(n: Notification) { n.Create? && CapturedSize(n.info.token) != 0 }

  /** The notification loses a block: the query passed one on whose SID is not valid. */
  predicate LosesToken(n: Notification) { n.Create? && n.info.token.UserFound? && !n.info.token.sidValid }

  class TokenUser {
    constructor () {}
  }

  /** Capture the SID of the primary token.  The block of the query is given back only where its SID
      was found to be valid. */
  method CaptureSid(pool: Pool, q: TokenQuery) returns (size: nat, ghost lost: set<object>)
    requires pool.Valid()
    modifies pool
    ensures pool.Valid() && size == CapturedSize(q) && pool.refused == old(pool.refused)
    ensures pool.Live() == old(pool.Live()) + lost && lost !! old(pool.taken) && fresh(lost)
    ensures |lost| == if q.UserFound? && !q.sidValid then 1 else 0
  {
    size, lost := 0, {};
    if q.UserFound? {
      var user := new TokenUser();
      pool.HandOver(user);
      lost := {user};
      if q.sidValid {
        if q.sidLength <= TOKEN_SID_MAX_SIZE && q.copyOk {
          size := q.sidLength;
        }
        pool.Free(user);
        lost := {};
      }
    }
  }

  /** The context of a notification, with the account strings on the inline buffers. */
  method MakeContext(pool: Pool, n: Notification)
    returns (ctx: ProcessContext, nameStack: array<Byte>, domainStack: array<Byte>, ghost lost: set<object>)
    requires pool.Valid()
    requires SoundInfo(n)
    modifies pool
    ensures pool.Valid() && pool.refused == old(pool.refused)
    ensures pool.Live() == old(pool.Live()) + lost && lost !! old(pool.taken) && fresh(lost)
    ensures |lost| == if LosesToken(n) then 1 else 0
    ensures fresh(ctx) && fresh(nameStack) && fresh(domainStack)
    ensures ctx.Valid() && !ctx.accountLookupDone && InvocationOf(ctx) == old(GivenBy(n))
    ensures nameStack.Length == domainStack.Length == ACCOUNT_STRING_INLINE_BYTES
    ensures ctx.accountName == Inline(nameStack) && ctx.accountDomain == Inline(domainStack)
  {
    nameStack := new Byte[ACCOUNT_STRING_INLINE_BYTES](_ => 0);
    domainStack := new Byte[ACCOUNT_STRING_INLINE_BYTES](_ => 0);
    lost := {};
    if n.Create? {
      var size;
      size, lost := CaptureSid(pool, n.info.token);
      // A valid SID is what was copied, so the copy is valid too.
      ctx := new ProcessContext(MdOf(n), n.info.commandLine, n.info.imageFileName, Inline(nameStack), Inline(domainStack),
                                false, size, size != 0);
    } else {
      ctx := new ProcessContext(MdOf(n), NullString, NullString, Inline(nameStack), Inline(domainStack), false, 0, false);
    }
  }

  /** The dispatch over the clients, and what is given back after it. */
  method DispatchAndFree(pool: Pool, authority: Authority, ctx: ProcessContext, head: ListEntry<Program>,
                         create: bool, creationStatus0: int, nameStack: array<Byte>, domainStack: array<Byte>,
                         ghost o: Log, ghost s: seq<ListEntry<Program>>)
    returns (creationStatus: int, ghost log: Log)
    requires (forall k :: Honest(authority.answer(k))) && Follows(o, o, pool, authority, ctx)
    requires Ring(head, s) && forall i :: 0 <= i < |s| ==> WellFormed(s[i].record)
    requires ctx.accountName == Inline(nameStack) && ctx.accountDomain == Inline(domainStack)
    modifies pool, authority`calls, ctx, nameStack, domainStack
    ensures pool.Valid() && pool.Live() == old(pool.Live())
    ensures Chain(log) && Origin(log) == o && End(log).calls == authority.calls && End(log).refused == pool.refused
    ensures Verdict(creationStatus, Programs(log)) == Dispatch(Clients(s), create, creationStatus0)
  {
    ghost var live := pool.Live();
    ClientsAreRecords(s);
    creationStatus, log := DispatchLoop(pool, authority, ctx, head, create, creationStatus0, o, s, Clients(s));
    ChainIsStretch(log);
    StretchLive(o.answer, o.given.hasSid, o.given.image, Observed(log), AllCalls(Programs(log)), o.first, End(log));
    FreeAccount(pool, ctx.accountName, ctx.accountDomain, nameStack, domainStack, live);
  }

  /** The dispatch started on a context whose account is not resolved yet and whose strings have inline
      buffers of 80 bytes. */
  ghost predicate Witnessed(log: Log, answer: nat -> Lookup, given: Invocation) {
    var o := Origin(log);
    && Chain(log) && o.answer == answer && o.given == given
    && !o.first.done && Cached(o.first) && Sound(o.first.name) && Sound(o.first.domain)
    && o.first.name.maximumLength == o.first.domain.maximumLength == 80 && o.first.nameBytes == o.first.domainBytes == []
  }

  /** So every program is invoked on the same, the programs observe the account as one program making all
      of their calls would, and all of them see one and the same. */
  lemma WitnessedIsOneAccount(log: Log, answer: nat -> Lookup, given: Invocation)
    requires Witnessed(log, answer, given)
    ensures AllOn(log, given)
    ensures var os, calls, s, s' := Observed(log), AllCalls(Programs(log)), Origin(log).first, End(log);
            Stretch(answer, given.hasSid, given.image, os, calls, s, s') && AllAgree(os, calls, given.image, ViewOf(s'))
  {
    ChainIsOnOne(log);
    ChainIsStretch(log);
    OneAccount(answer, given.hasSid, given.image, Observed(log), AllCalls(Programs(log)), Origin(log).first, End(log));
  }

  /** Calls that never ask for the account agree with any account. */
  lemma AnyViewWithoutAccount(os: seq<Observation>, calls: seq<Call>, image: seq<Byte>, view: View)
    requires AllAgree(os, calls, image, view)
    ensures OnlyImagePath(calls) ==> forall view' :: AllAgree(os, calls, image, view')
  {
  }

  /** On strings of 80 bytes: without a usable SID the calls see no account, and with one they see the
      account of the first answer if it fits. */
  lemma FirstAnswerShown(answer: nat -> Lookup, hasSid: bool, image: seq<Byte>,
                         os: seq<Observation>, calls: seq<Call>, s: Snapshot, s': Snapshot)
    requires Stretch(answer, hasSid, image, os, calls, s, s') && !s.done && Cached(s)
    requires s.name.maximumLength == s.domain.maximumLength == 80
    ensures var a := answer(s.calls);
            && (!hasSid ==> AllAgree(os, calls, image, Missing))
            && (hasSid && a.Found? && a.nameSize <= 80 && a.domainSize <= 80 ==>
                  AllAgree(os, calls, image, Known(a.name, a.domain)))
  {
    OneAccount(answer, hasSid, image, os, calls, s, s');
    AnyViewWithoutAccount(os, calls, image, ViewOf(s'));
  }

  /** What account the programs of a notification see: if the token's SID is valid, of 1 to 68 bytes and
      copied, and the lookup answers with an account that fits the inline buffers, that account; with any
      other token, and on a deletion, none. */
  lemma AccountSeen(log: Log, answer: nat -> Lookup, n: Notification, given: Invocation)
    requires Witnessed(log, answer, given) && SoundInfo(n) && given == GivenBy(n)
    ensures var os, calls, a, t := Observed(log), AllCalls(Programs(log)), answer(Origin(log).first.calls),
                                   if n.Create? then n.info.token else NoToken;
            if t.UserFound? && t.sidValid && 1 <= t.sidLength <= 68 && t.copyOk
            then a.Found? && a.nameSize <= 80 && a.domainSize <= 80 ==> AllAgree(os, calls, given.image, Known(a.name, a.domain))
            else AllAgree(os, calls, given.image, Missing)
  {
    WitnessedIsOneAccount(log, answer, given);
    FirstAnswerShown(answer, given.hasSid, given.image, Observed(log), AllCalls(Programs(log)), Origin(log).first, End(log));
  }

  /** _ebpf_process_create_process_notify_routine_ex.  The verdict is the fold of the clients in
      attach order, all of them see one and the same account, and whatever allocations and lookups
      fail the pool is left as it was found, exactly unless the token query passed on a block with an
      invalid SID: that one block is then lost. */
  method Notify(pool: Pool, authority: Authority, n: Notification,
                head: ListEntry<Program>, ghost s: seq<ListEntry<Program>>)
    returns (creationStatus: int, ghost log: Log, ghost lost: set<object>)
    requires pool.Valid() && forall k :: Honest(authority.answer(k))
    requires Ring(head, s) && forall i :: 0 <= i < |s| ==> WellFormed(s[i].record)
    requires SoundInfo(n)
    modifies pool, authority`calls
    ensures pool.Valid() && (pool.Live() == old(pool.Live()) <==> !LosesToken(n))
    ensures pool.Live() == old(pool.Live()) + lost && lost !! old(pool.Live()) && |lost| == if LosesToken(n) then 1 else 0
    ensures Verdict(creationStatus, Programs(log)) == Dispatch(Clients(s), n.Create?, if n.Create? then n.info.creationStatus else 0)
    ensures Witnessed(log, authority.answer, old(GivenBy(n)))
    ensures n.Create? ==>
              var t := n.info.token;
              var size := if t.UserFound? && t.sidValid && t.sidLength <= 68 && t.copyOk then t.sidLength else 0;
              AllOn(log, Invocation(size > 0, size, ProcessMd(0, n.processId, n.info.parentProcessId, n.info.creatingProcessId,
                                                     n.info.creatingThreadId, n.creationTime, 0, 0),
                                    old(Contents(n.info.commandLine)), old(Contents(n.info.imageFileName))))
    ensures n.Delete? ==>
              AllOn(log, Invocation(false, 0, ProcessMd(1, n.processId, 0, 0, 0, n.creationTime, n.exitTime, n.exitCode), [], []))
    ensures Origin(log).first.calls == old(authority.calls) && End(log).calls == authority.calls
    ensures Origin(log).first.refused == old(pool.refused) && End(log).refused == pool.refused
  {
    ghost var given := GivenBy(n);
    var ctx, nameStack, domainStack;
    ctx, nameStack, domainStack, lost := MakeContext(pool, n);
    ghost var o := Start(authority.answer, given, Now(pool, authority, ctx));
    creationStatus, log :=
      DispatchAndFree(pool, authority, ctx, head, n.Create?, if n.Create? then n.info.creationStatus else 0,
                      nameStack, domainStack, o, s);
    ChainIsOnOne(log);
    assert lost == {} <==> !LosesToken(n);
  }

  /** Such a notification on the code itself: the process's token has a SID that is not valid. */
  method InvalidSidLosesBlock(pool: Pool, authority: Authority, head: ListEntry<Program>, ghost s: seq<ListEntry<Program>>)
    requires pool.Valid() && forall k :: Honest(authority.answer(k))
    requires Ring(head, s) && forall i :: 0 <= i < |s| ==> WellFormed(s[i].record)
    modifies pool, authority`calls
    ensures pool.Valid() && pool.Live() > old(pool.Live())
  {
    var n := Create(0, 0, CreateInfo(0, 0, 0, NullString, NullString, UserFound(false, 12, true), STATUS_SUCCESS));
    var _, _, lost := Notify(pool, authority, n, head, s);
  }

  /** The number of notifications that lose a block. */
  function Losses(ns: seq<Notification>): nat {
    if ns == [] then 0 else Losses(ns[..|ns| - 1]) + if LosesToken(ns[|ns| - 1]) then 1 else 0
  }

  lemma LostTogether(live: set<object>, a: set<object>, b: set<object>)
    requires a !! live && b !! live + a
    ensures live + a + b == live + (a + b) && (a + b) !! live && |a + b| == |a| + |b|
  {
  }

  /** The status that a notification ends with. */
  function Outcome(n: Notification, ps: seq<Program>): int {
    Dispatch(ps, n.Create?, if n.Create? then n.info.creationStatus else 0).creationStatus
  }

  function Outcomes(ns: seq<Notification>, ps: seq<Program>): seq<int> {
    if ns == [] then [] else Outcomes(ns[..|ns| - 1], ps) + [Outcome(ns[|ns| - 1], ps)]
  }

  /** One more notification, after others lost `before`. */
  method NotifyOne(pool: Pool, authority: Authority, n: Notification, head: ListEntry<Program>,
                   ghost s: seq<ListEntry<Program>>, ghost before: set<object>, ghost live: set<object>)
    returns (status: int, ghost lost: set<object>)
    requires pool.Valid() && forall k :: Honest(authority.answer(k))
    requires Ring(head, s) && forall i :: 0 <= i < |s| ==> WellFormed(s[i].record)
    requires SoundInfo(n)
    requires pool.Live() == live + before && before !! live
    modifies pool, authority`calls
    ensures pool.Valid() && pool.Live() == live + lost && lost !! live && status == Outcome(n, Clients(s))
    ensures |lost| == |before| + if LosesToken(n) then 1 else 0
  {
    ghost var log, more;
    status, log, more := Notify(pool, authority, n, head, s);
    LostTogether(live, before, more);
    lost := before + more;
  }

  /** Over any sequence of notifications every one ends with its verdict, and the pool grows by exactly
      one block for each that loses one. */
  method NotifyAll(pool: Pool, authority: Authority, ns: seq<Notification>,
                   head: ListEntry<Program>, ghost s: seq<ListEntry<Program>>)
    returns (statuses: seq<int>, ghost lost: set<object>)
    requires pool.Valid() && forall k :: Honest(authority.answer(k))
    requires Ring(head, s) && forall i :: 0 <= i < |s| ==> WellFormed(s[i].record)
    requires forall i :: 0 <= i < |ns| ==> SoundInfo(ns[i])
    modifies pool, authority`calls
    ensures pool.Valid() && pool.Live() == old(pool.Live()) + lost && lost !! old(pool.Live()) && |lost| == Losses(ns)
    ensures statuses == Outcomes(ns, Clients(s))
    decreases |ns|
  {
    statuses, lost := [], {};
    if ns != [] {
      var n := |ns| - 1;
      statuses, lost := NotifyAll(pool, authority, ns[..n], head, s);
      var status;
      status, lost := NotifyOne(pool, authority, ns[n], head, s, lost, old(pool.Live()));
      statuses := statuses + [status];
    }
  }
}
