/** UNICODE_STRINGs, the process context, and the lazily resolved, cached account. */
module ProcessAccount {
  import opened Common
  import opened KernelPool

  const STATUS_SUCCESS: int := 0
  const STATUS_UNSUCCESSFUL: int := -0x3FFFFFFF
  const STATUS_BUFFER_TOO_SMALL: int := -0x3FFFFFDD
  const STATUS_BUFFER_OVERFLOW: int := -0x7FFFFFFB
  const STATUS_INSUFFICIENT_RESOURCES: int := -0x3FFFFF66
  const EINVAL: int := 22
  const ENOENT: int := 2
  const USHRT_MAX: int := 65535

  predicate NtSuccess(status: int) { status >= 0 }

  /** A UNICODE_STRING: lengths are in bytes. */
  datatype UnicodeString = UnicodeString(length: nat, maximumLength: nat, buffer: array?<Byte>)

  const NullString := UnicodeString(0, 0, null)

  predicate Sound(u: UnicodeString) {
    && u.length <= u.maximumLength <= USHRT_MAX
    && (if u.buffer == null then u.maximumLength == 0 else u.maximumLength <= u.buffer.Length)
  }

  ghost function Contents(u: UnicodeString): seq<Byte>
    requires Sound(u)
    reads u.buffer
  {
    if u.buffer == null then [] else u.buffer[..u.length]
  }

  // ------------------------------------------------------------------ SecLookupAccountSid

  /** What one call of the lookup routine answers: a failure, or the account together with the
      buffer sizes it asks for. */
  datatype Lookup =
    | Refused(status: int)
    | Found(name: seq<Byte>, domain: seq<Byte>, nameSize: nat, domainSize: nat)

  predicate Honest(a: Lookup) {
    match a
    case Refused(status) => status < 0 && status != STATUS_BUFFER_TOO_SMALL
    case Found(name, domain, nameSize, domainSize) => |name| <= nameSize && |domain| <= domainSize
  }

  predicate Fits(a: Lookup, name: UnicodeString, domain: UnicodeString) {
    a.Found? && a.nameSize <= name.maximumLength && a.domainSize <= domain.maximumLength
  }

  /** memcpy to the start of `dest`. */
  method Write(dest: array?<Byte>, bytes: seq<Byte>)
    requires if dest == null then bytes == [] else |bytes| <= dest.Length
    modifies dest
    ensures dest != null ==> dest[..] == bytes + old(dest[..])[|bytes|..]
  {
    if dest != null {
      forall i | 0 <= i < |bytes| {
        dest[i] := bytes[i];
      }
    }
  }

  /** The lookup routine and the number of times it was called.  The k-th call answers `answer(k)`,
      so a run ranges over every pattern of lookup failures. */
  class Authority {
    const answer: nat -> Lookup
    var calls: nat

    constructor (answer: nat -> Lookup)
      ensures this.answer == answer && calls == 0
    {
      this.answer := answer;
      calls := 0;
    }

    method LookupAccountSid(nameSize: nat, name: UnicodeString, domainSize: nat, domain: UnicodeString)
      returns (status: int, nameSize': nat, name': UnicodeString, domainSize': nat, domain': UnicodeString)
      requires Sound(name) && Sound(domain) && Honest(answer(calls))
      requires name.buffer != null ==> name.buffer != domain.buffer
      modifies this`calls, name.buffer, domain.buffer
      ensures calls == old(calls) + 1
      ensures var a := answer(old(calls));
              if Fits(a, name, domain) then
                && status == STATUS_SUCCESS
                && name' == name.(length := |a.name|) && domain' == domain.(length := |a.domain|)
                && Contents(name') == a.name && Contents(domain') == a.domain
              else
                && status == (if a.Found? then STATUS_BUFFER_TOO_SMALL else a.status)
                && nameSize' == (if a.Found? then a.nameSize else nameSize)
                && domainSize' == (if a.Found? then a.domainSize else domainSize)
                && name' == name && domain' == domain
                && Contents(name) == old(Contents(name)) && Contents(domain) == old(Contents(domain))
    {
      var a := answer(calls);
      calls := calls + 1;
      status, nameSize', name', domainSize', domain' := STATUS_SUCCESS, nameSize, name, domainSize, domain;
      match a {
        case Refused(st) =>
          status := st;
        case Found(nm, dm, ns, ds) =>
          nameSize', domainSize' := ns, ds;
          if ns <= name.maximumLength && ds <= domain.maximumLength {
            Write(name.buffer, nm);
            Write(domain.buffer, dm);
            name' := name.(length := |nm|);
            domain' := domain.(length := |dm|);
          } else {
            status := STATUS_BUFFER_TOO_SMALL;
          }
      }
    }
  }

  /** The strings are the name and the domain that `a` found. */
  ghost predicate Are(name: UnicodeString, domain: UnicodeString, a: Lookup)
    requires Sound(name) && Sound(domain)
    reads name.buffer, domain.buffer
  {
    a.Found? && Contents(name) == a.name && Contents(domain) == a.domain
  }

  // ------------------------------------------------------------------ the process context

  /** The numbers of a process_md_t; its command pointers are the command line of the context. */
  datatype ProcessMd = ProcessMd(
    operation: nat, processId: nat, parentProcessId: nat, creatingProcessId: nat, creatingThreadId: nat,
    creationTime: nat, exitTime: nat, exitCode: nat)

  class ProcessContext {
    const md: ProcessMd
    var commandLine: UnicodeString
    var imageFileName: UnicodeString
    var accountName: UnicodeString
    var accountDomain: UnicodeString
    var accountLookupDone: bool
    var tokenSidSize: nat
    var sidValid: bool          // what RtlValidSid says about the captured SID

    constructor (md: ProcessMd, commandLine: UnicodeString, imageFileName: UnicodeString,
                 accountName: UnicodeString, accountDomain: UnicodeString,
                 lookupDone: bool, tokenSidSize: nat, sidValid: bool)
      ensures this.md == md && this.commandLine == commandLine && this.imageFileName == imageFileName
      ensures this.accountName == accountName && this.accountDomain == accountDomain
      ensures accountLookupDone == lookupDone
      ensures this.tokenSidSize == tokenSidSize && this.sidValid == sidValid
    {
      this.md := md;
      this.commandLine := commandLine;
      this.imageFileName := imageFileName;
      this.accountName := accountName;
      this.accountDomain := accountDomain;
      accountLookupDone := lookupDone;
      this.tokenSidSize := tokenSidSize;
      this.sidValid := sidValid;
    }

    /** The strings are sound and no two of them share a buffer. */
    ghost predicate Valid()
      reads this
    {
      && Sound(commandLine) && Sound(imageFileName) && Sound(accountName) && Sound(accountDomain)
      && Apart(accountName, accountDomain)
      && Apart(accountName, commandLine) && Apart(accountName, imageFileName)
      && Apart(accountDomain, commandLine) && Apart(accountDomain, imageFileName)
    }

    predicate HasSid()
      reads this
    {
      tokenSidSize != 0 && sidValid
    }

    twostate predicate BuffersKeptOrNew()
      reads this
    {
      && (accountName.buffer == old(accountName.buffer) || accountName.buffer == null || fresh(accountName.buffer))
      && (accountDomain.buffer == old(accountDomain.buffer) || accountDomain.buffer == null || fresh(accountDomain.buffer))
    }
  }

  predicate Apart(u: UnicodeString, v: UnicodeString) {
    u.buffer != null ==> u.buffer != v.buffer
  }

  // ------------------------------------------------------------------ _ebpf_process_resolve_account

  /** The heap block a string was moved to since it was `initial`. */
  ghost function Moved(u: UnicodeString, initial: UnicodeString): set<object> {
    if u.buffer != null && u.buffer != initial.buffer then {u.buffer} else {}
  }

  /** Make room for `size` bytes: a larger request moves the string to a heap block. */
  method Grow(pool: Pool, u: UnicodeString, size: nat) returns (u': UnicodeString, ok: bool, moved: bool)
    requires pool.Valid() && Sound(u) && size <= USHRT_MAX
    modifies pool
    ensures pool.Valid() && pool.freed == old(pool.freed)
    ensures ok <==> size <= u'.maximumLength
    ensures ok ==> u'.maximumLength == Max(u.maximumLength, size)
    ensures moved <==> u' != u
    ensures moved <==> size > u.maximumLength && pool.refused == old(pool.refused)
    ensures pool.refused == old(pool.refused) + if ok then 0 else 1
    ensures !moved ==> u' == u && pool.taken == old(pool.taken)
    ensures moved ==> u'.buffer != null && fresh(u'.buffer) && u'.buffer.Length == size == u'.maximumLength
                      && pool.taken == old(pool.taken) + {u'.buffer} && ok
    ensures u'.length == u.length && Sound(u')
  {
    u', ok, moved := u, true, false;
    if size > u.maximumLength {
      var block := pool.Allocate(size);
      if block != null {
        u' := UnicodeString(u.length, size, block);
        moved := true;
      } else {
        ok := false;
      }
    }
  }

  /** `a` names an account whose strings a UNICODE_STRING can hold. */
  predicate Nameable(a: Lookup) {
    a.Found? && a.nameSize <= USHRT_MAX && a.domainSize <= USHRT_MAX
  }

  predicate FitsIn(a: Lookup, nameMax: nat, domainMax: nat) {
    a.Found? && a.nameSize <= nameMax && a.domainSize <= domainMax
  }

  /** Whether two lookups answering `a` and `b` resolve the account for strings of the given
      capacities: the first fits, or it can be granted the sizes it asks for and the second fits. */
  predicate Resolves(a: Lookup, b: Lookup, nameMax: nat, domainMax: nat, starved: bool) {
    || FitsIn(a, nameMax, domainMax)
    || (Nameable(a) && !starved && FitsIn(b, Max(nameMax, a.nameSize), Max(domainMax, a.domainSize)))
  }

  /** With a lookup routine that always answers the same, success does not depend on the
      capacities at hand. */
  lemma ResolvesSame(a: Lookup, nameMax: nat, domainMax: nat, starved: bool)
    requires nameMax <= USHRT_MAX && domainMax <= USHRT_MAX
    requires starved ==> !FitsIn(a, nameMax, domainMax)
    ensures Resolves(a, a, nameMax, domainMax, starved) <==> Nameable(a) && !starved
  {
  }

  /** The blocks the name and the domain were moved to. */
  ghost function MovedBoth(name: UnicodeString, name0: UnicodeString, domain: UnicodeString, domain0: UnicodeString)
    : set<object>
  {
    Moved(name, name0) + Moved(domain, domain0)
  }

  /** Grow both strings, the name first. */
  method GrowBoth(pool: Pool, name0: UnicodeString, nameSize: nat, domain0: UnicodeString, domainSize: nat)
    returns (ok: bool, name: UnicodeString, nameMoved: bool, domain: UnicodeString, domainMoved: bool)
    requires pool.Valid() && Sound(name0) && Sound(domain0) && Apart(name0, domain0)
    requires nameSize <= USHRT_MAX && domainSize <= USHRT_MAX
    modifies pool
    ensures pool.Valid() && Sound(name) && Sound(domain) && Apart(name, domain) && pool.freed == old(pool.freed)
    ensures nameMoved <==> name.buffer != name0.buffer
    ensures domainMoved <==> domain.buffer != domain0.buffer
    ensures nameMoved ==> name.buffer != null && fresh(name.buffer)
    ensures domainMoved ==> domain.buffer != null && fresh(domain.buffer)
    ensures pool.taken == old(pool.taken) + MovedBoth(name, name0, domain, domain0)
    ensures ok ==> name.maximumLength == Max(name0.maximumLength, nameSize)
    ensures ok ==> domain.maximumLength == Max(domain0.maximumLength, domainSize)
    ensures !ok ==> nameSize > name0.maximumLength || domainSize > domain0.maximumLength
    ensures ok <==> pool.refused == old(pool.refused)
    ensures ok ==> (nameMoved <==> nameSize > name0.maximumLength) && (domainMoved <==> domainSize > domain0.maximumLength)
    ensures pool.refused >= old(pool.refused)
  {
    domain, domainMoved := domain0, false;
    name, ok, nameMoved := Grow(pool, name0, nameSize);
    if ok {
      domain, ok, domainMoved := Grow(pool, domain0, domainSize);
    }
  }

  /** How many lookups a resolution takes that is answered `a` first. */
  function Lookups(a: Lookup, nameMax: nat, domainMax: nat, starved: bool): nat {
    if Nameable(a) && !FitsIn(a, nameMax, domainMax) && !starved then 2 else 1
  }

  /** The string has a buffer after the account was resolved: it had one before, or was given one
      because the first answer asked for room. */
  predicate Buffered(u: UnicodeString, size: nat) { u.buffer != null || size > 0 }

  /** The second try, with room of the sizes asked for, unless an allocation is refused. */
  method Retry(pool: Pool, authority: Authority, name0: UnicodeString, nameSize: nat, domain0: UnicodeString, domainSize: nat)
    returns (status: int, name: UnicodeString, nameMoved: bool, domain: UnicodeString, domainMoved: bool)
    requires pool.Valid() && Sound(name0) && Sound(domain0) && Apart(name0, domain0)
    requires nameSize <= USHRT_MAX && domainSize <= USHRT_MAX && Honest(authority.answer(authority.calls))
    modifies pool, authority`calls, name0.buffer, domain0.buffer
    ensures pool.Valid() && Sound(name) && Sound(domain) && Apart(name, domain) && pool.freed == old(pool.freed)
    ensures nameMoved <==> name.buffer != name0.buffer
    ensures domainMoved <==> domain.buffer != domain0.buffer
    ensures nameMoved ==> name.buffer != null && fresh(name.buffer)
    ensures domainMoved ==> domain.buffer != null && fresh(domain.buffer)
    ensures pool.taken == old(pool.taken) + MovedBoth(name, name0, domain, domain0)
    ensures pool.refused >= old(pool.refused)
    ensures pool.refused > old(pool.refused) ==> nameSize > name0.maximumLength || domainSize > domain0.maximumLength
    ensures authority.calls == old(authority.calls) + if pool.refused > old(pool.refused) then 0 else 1
    ensures NtSuccess(status) <==>
            && pool.refused == old(pool.refused)
            && FitsIn(authority.answer(old(authority.calls)), Max(name0.maximumLength, nameSize), Max(domain0.maximumLength, domainSize))
    ensures NtSuccess(status) ==> Are(name, domain, authority.answer(old(authority.calls)))
    ensures NtSuccess(status) ==> (name.buffer != null <==> Buffered(name0, nameSize))
    ensures NtSuccess(status) ==> (domain.buffer != null <==> Buffered(domain0, domainSize))
  {
    var ok;
    ok, name, nameMoved, domain, domainMoved := GrowBoth(pool, name0, nameSize, domain0, domainSize);
    if !ok {
      return STATUS_INSUFFICIENT_RESOURCES, name, nameMoved, domain, domainMoved;
    }
    var n, d;
    status, n, name, d, domain := authority.LookupAccountSid(nameSize, name, domainSize, domain);
  }

  /** The lookup proper: try the buffers at hand, then retry once with blocks of the sizes asked
      for, unless an allocation is refused. */
  method LookUp(pool: Pool, authority: Authority, name0: UnicodeString, domain0: UnicodeString)
    returns (status: int, name: UnicodeString, nameMoved: bool, domain: UnicodeString, domainMoved: bool)
    requires pool.Valid() && Sound(name0) && Sound(domain0) && Apart(name0, domain0)
    requires forall k :: Honest(authority.answer(k))
    modifies pool, authority`calls, name0.buffer, domain0.buffer
    ensures pool.Valid() && Sound(name) && Sound(domain) && Apart(name, domain) && pool.freed == old(pool.freed)
    ensures NtSuccess(status) ==> authority.calls > 0 && Are(name, domain, authority.answer(authority.calls - 1))
    ensures nameMoved <==> name.buffer != name0.buffer
    ensures domainMoved <==> domain.buffer != domain0.buffer
    ensures nameMoved ==> name.buffer != null && fresh(name.buffer)
    ensures domainMoved ==> domain.buffer != null && fresh(domain.buffer)
    ensures pool.taken == old(pool.taken) + MovedBoth(name, name0, domain, domain0)
    ensures pool.refused >= old(pool.refused)
    ensures var a, b := authority.answer(old(authority.calls)), authority.answer(old(authority.calls) + 1);
            var starved := pool.refused > old(pool.refused);
            && (starved ==> Nameable(a) && !Fits(a, name0, domain0))
            && authority.calls == old(authority.calls) + Lookups(a, name0.maximumLength, domain0.maximumLength, starved)
            && (NtSuccess(status) <==> Resolves(a, b, name0.maximumLength, domain0.maximumLength, starved))
            && (NtSuccess(status) ==> (name.buffer != null <==> Buffered(name0, a.nameSize)))
            && (NtSuccess(status) ==> (domain.buffer != null <==> Buffered(domain0, a.domainSize)))
            && (a.Found? && (a.nameSize > 65535 || a.domainSize > 65535) ==> status == -0x7FFFFFFB)
  {
    nameMoved, domainMoved := false, false;
    var nameSize, domainSize := name0.maximumLength, domain0.maximumLength;
    status, nameSize, name, domainSize, domain := authority.LookupAccountSid(nameSize, name0, domainSize, domain0);
    if status == STATUS_BUFFER_TOO_SMALL {
      if nameSize > USHRT_MAX || domainSize > USHRT_MAX {
        status := STATUS_BUFFER_OVERFLOW;
      } else {
        status, name, nameMoved, domain, domainMoved := Retry(pool, authority, name, nameSize, domain, domainSize);
      }
    }
  }

  /** Everything the account helpers may change, as a value. */
  datatype Snapshot = Snapshot(
    done: bool,
    name: UnicodeString, nameBytes: seq<Byte>,
    domain: UnicodeString, domainBytes: seq<Byte>,
    calls: nat, taken: set<object>, freed: set<object>, refused: nat)

  ghost function Shot(pool: Pool, authority: Authority, done: bool, name: UnicodeString, domain: UnicodeString): Snapshot
    requires Sound(name) && Sound(domain)
    reads pool, authority, name.buffer, domain.buffer
  {
    Snapshot(done, name, Contents(name), domain, Contents(domain), authority.calls, pool.taken, pool.freed, pool.refused)
  }

  ghost function Now(pool: Pool, authority: Authority, ctx: ProcessContext): Snapshot
    requires ctx.Valid()
    reads pool, authority, ctx, ctx.accountName.buffer, ctx.accountDomain.buffer
  {
    Shot(pool, authority, ctx.accountLookupDone, ctx.accountName, ctx.accountDomain)
  }

  /** What the cache goes by: both strings have a buffer. */
  predicate Cached(s: Snapshot) { s.name.buffer != null && s.domain.buffer != null }

  ghost function Live(s: Snapshot): set<object> { s.taken - s.freed }

  /** An allocation was refused on the way from `s` to `s'`. */
  predicate Starved(s: Snapshot, s': Snapshot) { s'.refused > s.refused }

  /** The resolution from `s` to `s'` finds the account: there is a usable SID, and the first answer
      fits, or the room it asks for is granted and the second answer fits. */
  predicate Succeeds(answer: nat -> Lookup, hasSid: bool, s: Snapshot, s': Snapshot) {
    hasSid && Resolves(answer(s.calls), answer(s.calls + 1), s.name.maximumLength, s.domain.maximumLength, Starved(s, s'))
  }

  /** The cache will recognise the account that a resolution starting at `s` finds: each string has a
      buffer already, or the first answer asks for room for it. */
  predicate Lasting(answer: nat -> Lookup, s: Snapshot) {
    var a := answer(s.calls);
    a.Found? && Buffered(s.name, a.nameSize) && Buffered(s.domain, a.domainSize)
  }

  /** From `s` to `s'` the account was resolved for the first time: the strings are the account of
      the last lookup, or empty.  What was taken from the pool was given back or is where the strings
      moved to. */
  ghost predicate Resolved(answer: nat -> Lookup, hasSid: bool, s: Snapshot, s': Snapshot) {
    && !s.done && s'.done
    && Counted(answer, hasSid, s, s')
    && (if Succeeds(answer, hasSid, s, s') then
          && s'.calls > 0 && var a := answer(s'.calls - 1);
          && a.Found? && s'.nameBytes == a.name && s'.domainBytes == a.domain
          && (Cached(s') <==> Lasting(answer, s))
        else
          s'.name == s'.domain == NullString && s'.nameBytes == s'.domainBytes == [])
    && Balanced(s, s')
  }

  /** The number of lookups and of refused allocations. */
  predicate Counted(answer: nat -> Lookup, hasSid: bool, s: Snapshot, s': Snapshot) {
    var a := answer(s.calls);
    && s'.refused >= s.refused
    && (Starved(s, s') ==> hasSid && Nameable(a) && !Fits(a, s.name, s.domain))
    && s'.calls == s.calls +
         (if hasSid then Lookups(a, s.name.maximumLength, s.domain.maximumLength, Starved(s, s')) else 0)
  }

  /** Nothing is lost: the live blocks grow by those the strings moved to. */
  ghost predicate Balanced(s: Snapshot, s': Snapshot) {
    var moved := MovedBoth(s'.name, s.name, s'.domain, s.domain);
    s.taken <= s'.taken && Live(s') == Live(s) + moved && moved !! s.taken
  }

  lemma BooksBalance(taken: set<object>, freed: set<object>, moved: set<object>)
    requires freed <= taken && moved !! taken
    ensures taken + moved - freed == taken - freed + moved && taken + moved - (freed + moved) == taken - freed
  {
  }

  /** The lookup with a usable SID: on failure the blocks taken for the retry are given back and the
      strings are emptied. */
  method LookUpOrDrop(pool: Pool, authority: Authority, name0: UnicodeString, domain0: UnicodeString)
    returns (status: int, name: UnicodeString, domain: UnicodeString)
    requires pool.Valid() && Sound(name0) && Sound(domain0) && Apart(name0, domain0)
    requires forall k :: Honest(authority.answer(k))
    modifies pool, authority`calls, name0.buffer, domain0.buffer
    ensures pool.Valid() && Sound(name) && Sound(domain) && Apart(name, domain)
    ensures name.buffer == name0.buffer || name.buffer == null || fresh(name.buffer)
    ensures domain.buffer == domain0.buffer || domain.buffer == null || fresh(domain.buffer)
    ensures var s, s' := old(Shot(pool, authority, false, name0, domain0)), Shot(pool, authority, true, name, domain);
            Resolved(authority.answer, true, s, s') && (NtSuccess(status) <==> Succeeds(authority.answer, true, s, s'))
  {
    ghost var taken, freed := pool.taken, pool.freed;
    var nameMoved, domainMoved;
    status, name, nameMoved, domain, domainMoved := LookUp(pool, authority, name0, domain0);
    ghost var moved := MovedBoth(name, name0, domain, domain0);
    assert moved !! taken;
    BooksBalance(taken, freed, moved);
    if !NtSuccess(status) {
      name, domain := DropBoth(pool, name, nameMoved, domain, domainMoved);
      assert pool.freed == freed + moved;
    }
  }

  /** The first resolution. */
  method ResolveFirst(pool: Pool, authority: Authority, hasSid: bool, name0: UnicodeString, domain0: UnicodeString)
    returns (status: int, name: UnicodeString, domain: UnicodeString)
    requires pool.Valid() && Sound(name0) && Sound(domain0) && Apart(name0, domain0)
    requires forall k :: Honest(authority.answer(k))
    modifies pool, authority`calls, name0.buffer, domain0.buffer
    ensures pool.Valid() && Sound(name) && Sound(domain) && Apart(name, domain)
    ensures name.buffer == name0.buffer || name.buffer == null || fresh(name.buffer)
    ensures domain.buffer == domain0.buffer || domain.buffer == null || fresh(domain.buffer)
    ensures var s, s' := old(Shot(pool, authority, false, name0, domain0)), Shot(pool, authority, true, name, domain);
            Resolved(authority.answer, hasSid, s, s') && (NtSuccess(status) <==> Succeeds(authority.answer, hasSid, s, s'))
  {
    if hasSid {
      status, name, domain := LookUpOrDrop(pool, authority, name0, domain0);
    } else {
      status, name, domain := STATUS_UNSUCCESSFUL, NullString, NullString;
    }
  }

  /** Clear both strings, giving back what they were moved to. */
  method DropBoth(pool: Pool, name0: UnicodeString, nameMoved: bool, domain0: UnicodeString, domainMoved: bool)
    returns (name: UnicodeString, domain: UnicodeString)
    requires pool.Valid() && Apart(name0, domain0)
    requires nameMoved ==> name0.buffer != null && name0.buffer in pool.Live()
    requires domainMoved ==> domain0.buffer != null && domain0.buffer in pool.Live()
    modifies pool
    ensures pool.Valid() && pool.taken == old(pool.taken) && pool.refused == old(pool.refused)
    ensures pool.freed == old(pool.freed) + (if nameMoved then {name0.buffer as object} else {})
                          + (if domainMoved then {domain0.buffer as object} else {})
    ensures name == domain == NullString
  {
    if nameMoved {
      pool.Free(name0.buffer);
    }
    name := NullString;
    if domainMoved {
      pool.Free(domain0.buffer);
    }
    domain := NullString;
  }

  /** _ebpf_process_resolve_account: resolve the account on the first call, and answer later calls
      from the cache. */
  method ResolveAccount(pool: Pool, authority: Authority, ctx: ProcessContext)
    returns (status: int)
    requires pool.Valid() && ctx.Valid() && forall k :: Honest(authority.answer(k))
    modifies pool, authority`calls, ctx`accountName, ctx`accountDomain, ctx`accountLookupDone,
             ctx.accountName.buffer, ctx.accountDomain.buffer
    ensures pool.Valid() && ctx.Valid()
    ensures ctx.BuffersKeptOrNew()
    ensures if old(ctx.accountLookupDone)
            then Now(pool, authority, ctx) == old(Now(pool, authority, ctx))
                 && (NtSuccess(status) <==> Cached(Now(pool, authority, ctx)))
            else Resolved(authority.answer, ctx.HasSid(), old(Now(pool, authority, ctx)), Now(pool, authority, ctx))
                 && (NtSuccess(status) <==>
                       Succeeds(authority.answer, ctx.HasSid(), old(Now(pool, authority, ctx)), Now(pool, authority, ctx)))
    ensures authority.calls > old(authority.calls) <==> !old(ctx.accountLookupDone) && ctx.tokenSidSize != 0 && ctx.sidValid
  {
    if ctx.accountLookupDone {
      return if ctx.accountName.buffer != null && ctx.accountDomain.buffer != null
             then STATUS_SUCCESS else STATUS_UNSUCCESSFUL;
    }
    status := FillCache(pool, authority, ctx);
  }

  /** The uncached half of ResolveAccount. */
  method FillCache(pool: Pool, authority: Authority, ctx: ProcessContext)
    returns (status: int)
    requires pool.Valid() && ctx.Valid() && !ctx.accountLookupDone && forall k :: Honest(authority.answer(k))
    modifies pool, authority`calls, ctx`accountName, ctx`accountDomain, ctx`accountLookupDone,
             ctx.accountName.buffer, ctx.accountDomain.buffer
    ensures pool.Valid() && ctx.Valid()
    ensures ctx.BuffersKeptOrNew()
    ensures Resolved(authority.answer, ctx.HasSid(), old(Now(pool, authority, ctx)), Now(pool, authority, ctx))
    ensures NtSuccess(status) <==>
            Succeeds(authority.answer, ctx.HasSid(), old(Now(pool, authority, ctx)), Now(pool, authority, ctx))
  {
    var name, domain;
    status, name, domain := ResolveFirst(pool, authority, ctx.HasSid(), ctx.accountName, ctx.accountDomain);
    ctx.accountLookupDone := true;
    ctx.accountName, ctx.accountDomain := name, domain;
  }
}
