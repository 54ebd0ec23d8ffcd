/** The helpers a process program calls, and runs of any number of them on one context. */
module ProcessHelpers {
  import opened Common
  import opened KernelPool
  import opened ProcessAccount

  /** What _copy_unicode_string_to_buffer returns for a string `src` and a buffer of `n` bytes. */
  function CopyResult(src: seq<Byte>, n: nat): int { if |src| > n then -EINVAL else |src| }

  /** What it leaves in the buffer: everything past the copied bytes is kept. */
  function Copied(src: seq<Byte>, dest: seq<Byte>, n: nat): seq<Byte>
    requires n <= |dest|
  {
    if |src| <= n then src + dest[|src|..] else dest
  }

  method CopyUnicodeStringToBuffer(source: UnicodeString, dest: array<Byte>, destLength: nat) returns (r: int)
    requires Sound(source) && destLength <= dest.Length && dest != source.buffer
    modifies dest
    ensures r == CopyResult(Contents(source), destLength)
    ensures dest[..] == Copied(Contents(source), old(dest[..]), destLength)
    ensures dest[destLength..] == old(dest[..])[destLength..]
    ensures r == if |Contents(source)| > destLength then -22 else |Contents(source)|
  {
    if source.length > destLength {
      return -EINVAL;
    }
    if source.buffer != null && source.length > 0 {
      Write(dest, source.buffer[..source.length]);
      return source.length;
    }
    return 0;
  }

  datatype Helper = ImagePath | AccountName | AccountDomain

  /** One call: which helper, with which length, into a buffer of `room` bytes. */
  datatype Call = Call(helper: Helper, length: nat, room: nat)

  /** What the program sees of a call. */
  datatype Observation = Observation(result: int, before: seq<Byte>, after: seq<Byte>)

  /** The account as the program can see it. */
  datatype View = Missing | Known(name: seq<Byte>, domain: seq<Byte>)

  ghost function ViewOf(s: Snapshot): View {
    if Cached(s) then Known(s.nameBytes, s.domainBytes) else Missing
  }

  /** Direct lookup, the specification of the helpers: the string that is asked for, if any. */
  function Wanted(helper: Helper, image: seq<Byte>, view: View): (r: View) {
    match helper
    case ImagePath => Known(image, [])
    case AccountName => view
    case AccountDomain => if view.Known? then Known(view.domain, []) else Missing
  }

  /** An observation agrees with direct lookup: -ENOENT without an account, else the string's bytes,
      or -EINVAL with the buffer untouched if they do not fit. */
  predicate Agrees(o: Observation, call: Call, image: seq<Byte>, view: View) {
    match Wanted(call.helper, image, view)
    case Missing => o.result == -ENOENT && o.after == o.before
    case Known(src, _) =>
      && call.length <= |o.before|
      && o.result == CopyResult(src, call.length) && o.after == Copied(src, o.before, call.length)
  }

  method GetImagePath(ctx: ProcessContext, path: array<Byte>, length: nat) returns (r: int)
    requires ctx.Valid() && length <= path.Length && path != ctx.imageFileName.buffer
    modifies path
    ensures r == CopyResult(Contents(ctx.imageFileName), length)
    ensures path[..] == Copied(Contents(ctx.imageFileName), old(path[..]), length)
  {
    r := CopyUnicodeStringToBuffer(ctx.imageFileName, path, length);
  }

  /** What the account call from `s` to `s'` shows: the call that resolves the account shows what it
      found, later calls show what the cache recognises. */
  ghost function Shown(answer: nat -> Lookup, hasSid: bool, s: Snapshot, s': Snapshot): View {
    if !s.done && Succeeds(answer, hasSid, s, s') then Known(s'.nameBytes, s'.domainBytes) else ViewOf(s')
  }

  /** _ebpf_process_get_account_name and _ebpf_process_get_account_domain. */
  method GetAccount(pool: Pool, authority: Authority, ctx: ProcessContext, helper: Helper,
                    dest: array<Byte>, length: nat)
    returns (r: int)
    requires pool.Valid() && ctx.Valid() && forall k :: Honest(authority.answer(k))
    requires helper != ImagePath && length <= dest.Length
    requires dest != ctx.accountName.buffer && dest != ctx.accountDomain.buffer
    modifies pool, authority`calls, ctx`accountName, ctx`accountDomain, ctx`accountLookupDone,
             ctx.accountName.buffer, ctx.accountDomain.buffer, dest
    ensures pool.Valid() && ctx.Valid() && ctx.BuffersKeptOrNew()
    ensures if old(ctx.accountLookupDone) then Now(pool, authority, ctx) == old(Now(pool, authority, ctx))
            else Resolved(authority.answer, ctx.HasSid(), old(Now(pool, authority, ctx)), Now(pool, authority, ctx))
    ensures Agrees(Observation(r, old(dest[..]), dest[..]), Call(helper, length, dest.Length), [],
                   Shown(authority.answer, ctx.HasSid(), old(Now(pool, authority, ctx)), Now(pool, authority, ctx)))
    ensures Shown(authority.answer, ctx.HasSid(), old(Now(pool, authority, ctx)), Now(pool, authority, ctx)).Missing? ==> r == -2
  {
    var status := ResolveAccount(pool, authority, ctx);
    if !NtSuccess(status) {
      return -ENOENT;
    }
    r := CopyUnicodeStringToBuffer(if helper == AccountName then ctx.accountName else ctx.accountDomain, dest, length);
  }

  twostate predicate RestKept(ctx: ProcessContext)
    requires old(ctx.Valid()) && ctx.Valid()
    reads ctx, ctx.commandLine.buffer, ctx.imageFileName.buffer
  {
    && ctx.commandLine == old(ctx.commandLine) && ctx.imageFileName == old(ctx.imageFileName)
    && Contents(ctx.commandLine) == old(Contents(ctx.commandLine))
    && Contents(ctx.imageFileName) == old(Contents(ctx.imageFileName))
  }

  /** What a program is invoked on, apart from the account: whether there is a usable SID and its size, the
      numbers, the bytes between the command pointers, and the image path. */
  datatype Invocation = Invocation(hasSid: bool, tokenSidSize: nat, md: ProcessMd, command: seq<Byte>, image: seq<Byte>)

  ghost function InvocationOf(ctx: ProcessContext): Invocation
    requires ctx.Valid()
    reads ctx, ctx.commandLine.buffer, ctx.imageFileName.buffer
  {
    Invocation(ctx.HasSid(), ctx.tokenSidSize, ctx.md, Contents(ctx.commandLine), Contents(ctx.imageFileName))
  }

  /** Every observation agrees with direct lookup of one and the same account. */
  predicate AllAgree(os: seq<Observation>, calls: seq<Call>, image: seq<Byte>, view: View) {
    |os| == |calls| && forall i :: 0 <= i < |calls| ==> Agrees(os[i], calls[i], image, view)
  }

  predicate OnlyImagePath(calls: seq<Call>) { forall i :: 0 <= i < |calls| ==> calls[i].helper == ImagePath }

  /** The position of the first account call, or the number of calls. */
  function FirstAccount(calls: seq<Call>): (k: nat)
    ensures k <= |calls| && (k < |calls| ==> calls[k].helper != ImagePath)
    ensures forall i :: 0 <= i < k ==> calls[i].helper == ImagePath
  {
    if calls == [] || calls[0].helper != ImagePath then 0 else 1 + FirstAccount(calls[1..])
  }

  /** What the i-th call shows: the call that resolves the account shows what it found, every other
      one what the cache recognises at the end. */
  ghost function ViewAt(answer: nat -> Lookup, hasSid: bool, calls: seq<Call>, i: nat, s: Snapshot, s': Snapshot): View {
    if i == FirstAccount(calls) then Shown(answer, hasSid, s, s') else ViewOf(s')
  }

  ghost predicate Seen(answer: nat -> Lookup, hasSid: bool, image: seq<Byte>,
                       os: seq<Observation>, calls: seq<Call>, s: Snapshot, s': Snapshot)
  {
    && |os| == |calls|
    && forall i :: 0 <= i < |calls| ==> Agrees(os[i], calls[i], image, ViewAt(answer, hasSid, calls, i, s, s'))
  }

  /** From `s` to `s'` the calls were observed as `os`, and the account was resolved by the first
      account call unless it had been before. */
  ghost predicate Stretch(answer: nat -> Lookup, hasSid: bool, image: seq<Byte>,
                          os: seq<Observation>, calls: seq<Call>, s: Snapshot, s': Snapshot)
  {
    && Seen(answer, hasSid, image, os, calls, s, s')
    && if s.done || OnlyImagePath(calls) then s' == s else Resolved(answer, hasSid, s, s')
  }

  lemma StretchOne(answer: nat -> Lookup, hasSid: bool, image: seq<Byte>, o: Observation, call: Call, s: Snapshot, s': Snapshot)
    requires call.helper != ImagePath && Agrees(o, call, [], Shown(answer, hasSid, s, s'))
    requires if s.done then s' == s else Resolved(answer, hasSid, s, s')
    ensures Stretch(answer, hasSid, image, [o], [call], s, s')
  {
    assert [call][0] == call;
  }

  /** One account helper call. */
  method InvokeAccount(pool: Pool, authority: Authority, ctx: ProcessContext, call: Call) returns (o: Observation)
    requires pool.Valid() && ctx.Valid() && forall k :: Honest(authority.answer(k))
    requires call.length <= call.room && call.helper != ImagePath
    modifies pool, authority`calls, ctx`accountName, ctx`accountDomain, ctx`accountLookupDone,
             ctx.accountName.buffer, ctx.accountDomain.buffer
    ensures pool.Valid() && ctx.Valid() && ctx.BuffersKeptOrNew() && RestKept(ctx)
    ensures Stretch(authority.answer, ctx.HasSid(), Contents(ctx.imageFileName), [o], [call],
                    old(Now(pool, authority, ctx)), Now(pool, authority, ctx))
  {
    ghost var s := Now(pool, authority, ctx);
    var dest := new Byte[call.room];
    var before := dest[..];
    var r := GetAccount(pool, authority, ctx, call.helper, dest, call.length);
    o := Observation(r, before, dest[..]);
    StretchOne(authority.answer, ctx.HasSid(), Contents(ctx.imageFileName), o, call, s, Now(pool, authority, ctx));
  }

  /** One helper call, into a buffer of the program's own. */
  method Invoke(pool: Pool, authority: Authority, ctx: ProcessContext, call: Call) returns (o: Observation)
    requires pool.Valid() && ctx.Valid() && forall k :: Honest(authority.answer(k))
    requires call.length <= call.room
    modifies pool, authority`calls, ctx`accountName, ctx`accountDomain, ctx`accountLookupDone,
             ctx.accountName.buffer, ctx.accountDomain.buffer
    ensures pool.Valid() && ctx.Valid() && ctx.BuffersKeptOrNew() && RestKept(ctx)
    ensures Stretch(authority.answer, ctx.HasSid(), Contents(ctx.imageFileName), [o], [call],
                    old(Now(pool, authority, ctx)), Now(pool, authority, ctx))
  {
    if call.helper == ImagePath {
      var dest := new Byte[call.room];
      var before := dest[..];
      var r := GetImagePath(ctx, dest, call.length);
      o := Observation(r, before, dest[..]);
      assert [call][0] == call;
    } else {
      o := InvokeAccount(pool, authority, ctx, call);
    }
  }

  lemma FirstAccountConcat(calls: seq<Call>, calls1: seq<Call>)
    ensures var k := FirstAccount(calls);
            FirstAccount(calls + calls1) == if k < |calls| then k else |calls| + FirstAccount(calls1)
  {
    var all, k, k1, m := calls + calls1, FirstAccount(calls), FirstAccount(calls1), FirstAccount(calls + calls1);
    assert forall i :: 0 <= i < |calls| ==> all[i] == calls[i];
    assert forall i :: |calls| <= i < |all| ==> all[i] == calls1[i - |calls|];
    if k < |calls| {
      assert all[k].helper != ImagePath && m <= k;
    } else if k1 < |calls1| {
      assert all[|calls| + k1].helper != ImagePath && m <= |calls| + k1;
    }
    if m < |all| {
      assert all[m].helper != ImagePath;
    }
  }

  lemma OnlyImagePathConcat(calls: seq<Call>, calls1: seq<Call>)
    ensures OnlyImagePath(calls + calls1) <==> OnlyImagePath(calls) && OnlyImagePath(calls1)
  {
    var all := calls + calls1;
    assert forall i :: 0 <= i < |calls| ==> all[i] == calls[i];
    assert forall i :: 0 <= i < |calls1| ==> calls1[i] == all[|calls| + i];
  }

  /** The i-th of two runs of calls shows in the whole what it shows in its own run. */
  lemma ShownInWhole(answer: nat -> Lookup, hasSid: bool, image: seq<Byte>, o: Observation,
                     calls: seq<Call>, calls1: seq<Call>, s0: Snapshot, s1: Snapshot, s2: Snapshot, i: nat)
    requires i < |calls| + |calls1|
    requires if s0.done || OnlyImagePath(calls) then s1 == s0 else s1.done && s2 == s1
    requires s1.done ==> s2 == s1
    requires var c, view := if i < |calls| then calls[i] else calls1[i - |calls|],
                            if i < |calls| then ViewAt(answer, hasSid, calls, i, s0, s1)
                            else ViewAt(answer, hasSid, calls1, i - |calls|, s1, s2);
             Agrees(o, c, image, view)
    ensures Agrees(o, (calls + calls1)[i], image, ViewAt(answer, hasSid, calls + calls1, i, s0, s2))
  {
    FirstAccountConcat(calls, calls1);
  }

  /** Two stretches of calls make one: the account is resolved in at most one of them. */
  lemma StretchConcat(answer: nat -> Lookup, hasSid: bool, image: seq<Byte>,
                      os: seq<Observation>, calls: seq<Call>, os1: seq<Observation>, calls1: seq<Call>,
                      s0: Snapshot, s1: Snapshot, s2: Snapshot)
    requires Stretch(answer, hasSid, image, os, calls, s0, s1) && Stretch(answer, hasSid, image, os1, calls1, s1, s2)
    ensures Stretch(answer, hasSid, image, os + os1, calls + calls1, s0, s2)
  {
    OnlyImagePathConcat(calls, calls1);
    forall i | 0 <= i < |calls + calls1|
      ensures Agrees((os + os1)[i], (calls + calls1)[i], image, ViewAt(answer, hasSid, calls + calls1, i, s0, s2))
    {
      ShownInWhole(answer, hasSid, image, (os + os1)[i], calls, calls1, s0, s1, s2, i);
    }
  }

  /** What a stretch of calls adds to the live blocks is where the strings moved to. */
  lemma StretchLive(answer: nat -> Lookup, hasSid: bool, image: seq<Byte>, os: seq<Observation>, calls: seq<Call>,
                    s: Snapshot, s': Snapshot)
    requires Stretch(answer, hasSid, image, os, calls, s, s')
    ensures var moved := MovedBoth(s'.name, s.name, s'.domain, s.domain);
            Live(s') == Live(s) + moved && Live(s) <= s.taken && moved !! s.taken
  {
  }

  /** Whatever helpers a program calls, in whatever order and however often: the first account call
      resolves the account and shows it, and every later one shows what the cache recognises. */
  method RunProgram(pool: Pool, authority: Authority, ctx: ProcessContext, calls: seq<Call>)
    returns (os: seq<Observation>)
    requires pool.Valid() && ctx.Valid() && forall k :: Honest(authority.answer(k))
    requires forall i :: 0 <= i < |calls| ==> calls[i].length <= calls[i].room
    modifies pool, authority`calls, ctx`accountName, ctx`accountDomain, ctx`accountLookupDone,
             ctx.accountName.buffer, ctx.accountDomain.buffer
    ensures pool.Valid() && ctx.Valid() && ctx.BuffersKeptOrNew() && RestKept(ctx)
    ensures Stretch(authority.answer, ctx.HasSid(), Contents(ctx.imageFileName), os, calls,
                    old(Now(pool, authority, ctx)), Now(pool, authority, ctx))
    decreases |calls|
  {
    os := [];
    ghost var s0 := Now(pool, authority, ctx);
    if calls != [] {
      os := RunProgram(pool, authority, ctx, calls[..|calls| - 1]);
      os := InvokeLast(pool, authority, ctx, calls, os, s0);
    }
  }

  /** The last of `calls`, after the others were observed as `os0`. */
  method InvokeLast(pool: Pool, authority: Authority, ctx: ProcessContext, calls: seq<Call>,
                    os0: seq<Observation>, ghost s0: Snapshot)
    returns (os: seq<Observation>)
    requires pool.Valid() && ctx.Valid() && forall k :: Honest(authority.answer(k))
    requires calls != [] && calls[|calls| - 1].length <= calls[|calls| - 1].room
    requires Stretch(authority.answer, ctx.HasSid(), Contents(ctx.imageFileName), os0, calls[..|calls| - 1],
                     s0, Now(pool, authority, ctx))
    modifies pool, authority`calls, ctx`accountName, ctx`accountDomain, ctx`accountLookupDone,
             ctx.accountName.buffer, ctx.accountDomain.buffer
    ensures pool.Valid() && ctx.Valid() && ctx.BuffersKeptOrNew() && RestKept(ctx)
    ensures Stretch(authority.answer, ctx.HasSid(), Contents(ctx.imageFileName), os, calls, s0, Now(pool, authority, ctx))
  {
    var n := |calls| - 1;
    assert calls[..n] + [calls[n]] == calls;
    ghost var s1 := Now(pool, authority, ctx);
    var o := Invoke(pool, authority, ctx, calls[n]);
    os := os0 + [o];
    StretchConcat(authority.answer, ctx.HasSid(), Contents(ctx.imageFileName), os0, calls[..n], [o], [calls[n]],
                  s0, s1, Now(pool, authority, ctx));
  }

  /** What direct lookup shows of an account that the lookup routine answers with `a`. */
  function DirectView(hasSid: bool, a: Lookup, starved: bool): View {
    if hasSid && Nameable(a) && !starved then Known(a.name, a.domain) else Missing
  }

  /** At least two of the calls ask for the account. */
  predicate AsksAgain(calls: seq<Call>) { !OnlyImagePath(calls) && !OnlyImagePath(calls[FirstAccount(calls) + 1..]) }

  lemma SecondAccount(calls: seq<Call>) returns (j: nat)
    requires AsksAgain(calls)
    ensures FirstAccount(calls) < j < |calls| && calls[j].helper != ImagePath
  {
    var k := FirstAccount(calls);
    var i :| 0 <= i < |calls[k + 1..]| && calls[k + 1..][i].helper != ImagePath;
    j := k + 1 + i;
  }

  /** All calls agree on the account, exactly unless the account is asked for again after a resolution
      that found it but left a string without a buffer, which the cache takes for a failure. */
  lemma AgreementIsExact(answer: nat -> Lookup, hasSid: bool, image: seq<Byte>,
                         os: seq<Observation>, calls: seq<Call>, s: Snapshot, s': Snapshot)
    requires Stretch(answer, hasSid, image, os, calls, s, s')
    ensures (exists view :: AllAgree(os, calls, image, view)) <==>
            (s.done || (Succeeds(answer, hasSid, s, s') ==> Lasting(answer, s)) || !AsksAgain(calls))
  {
    var k := FirstAccount(calls);
    var shown := Shown(answer, hasSid, s, s');
    if s.done || (Succeeds(answer, hasSid, s, s') ==> Lasting(answer, s)) || !AsksAgain(calls) {
      forall i | 0 <= i < |calls| ensures Agrees(os[i], calls[i], image, shown) {
        assert Agrees(os[i], calls[i], image, ViewAt(answer, hasSid, calls, i, s, s'));
        if i > k && !AsksAgain(calls) {
          assert calls[k + 1..][i - k - 1] == calls[i];
        }
      }
      assert AllAgree(os, calls, image, shown);
    } else {
      var j := SecondAccount(calls);
      assert Agrees(os[k], calls[k], image, shown) && Agrees(os[j], calls[j], image, Missing);
      forall view ensures !AllAgree(os, calls, image, view) {
        assert Agrees(os[k], calls[k], image, view) ==> !Agrees(os[j], calls[j], image, view);
      }
    }
  }

  /** On a context whose strings have buffers, such as that of a notification, all calls always agree. */
  lemma OneAccount(answer: nat -> Lookup, hasSid: bool, image: seq<Byte>,
                   os: seq<Observation>, calls: seq<Call>, s: Snapshot, s': Snapshot)
    requires Stretch(answer, hasSid, image, os, calls, s, s') && (s.done || Cached(s))
    ensures AllAgree(os, calls, image, ViewOf(s'))
  {
    forall i | 0 <= i < |calls| ensures Agrees(os[i], calls[i], image, ViewOf(s')) {
      assert Agrees(os[i], calls[i], image, ViewAt(answer, hasSid, calls, i, s, s'));
    }
  }

  /** The case in question, on the code itself: without buffers at the start, an account with a name
      but no domain is found by the first call and not by the second. */
  method AgreementFails(pool: Pool, authority: Authority, ctx: ProcessContext) returns (os: seq<Observation>)
    requires pool.Valid() && ctx.Valid() && forall k :: Honest(authority.answer(k))
    requires !ctx.accountLookupDone && ctx.HasSid() && ctx.accountName == ctx.accountDomain == NullString
    requires authority.answer(authority.calls) == authority.answer(authority.calls + 1) == Found([1, 2], [], 2, 0)
    modifies pool, authority`calls, ctx
    ensures |os| == 2
    ensures pool.refused == old(pool.refused) ==> os[0].result == 2 && os[1].result == -ENOENT
  {
    ghost var s := Now(pool, authority, ctx);
    var call := Call(AccountName, 2, 2);
    os := RunProgram(pool, authority, ctx, [call, call]);
    ghost var s' := Now(pool, authority, ctx);
    assert [call, call][0] == call && FirstAccount([call, call]) == 0;
    assert Agrees(os[0], call, Contents(ctx.imageFileName), Shown(authority.answer, true, s, s'));
    assert Agrees(os[1], call, Contents(ctx.imageFileName), ViewOf(s'));
  }

  /** With a lookup routine that always answers `a`, any calls on a notify context call it at most
      twice, and every observation is the one direct lookup gives: all of them show the account, or
      all of them show none because there is no usable SID, the routine refuses, a string would not
      fit a UNICODE_STRING, or the pool refused a block that was needed. */
  lemma CacheRefinesDirectLookup(answer: nat -> Lookup, hasSid: bool, image: seq<Byte>, a: Lookup,
                                 os: seq<Observation>, calls: seq<Call>, s: Snapshot, s': Snapshot)
    requires Stretch(answer, hasSid, image, os, calls, s, s')
    requires !s.done && Cached(s) && Sound(s.name) && Sound(s.domain)
    requires answer(s.calls) == answer(s.calls + 1) == a
    ensures s'.calls <= s.calls + 2
    ensures Starved(s, s') ==> hasSid && Nameable(a) && !Fits(a, s.name, s.domain)
    ensures AllAgree(os, calls, image, DirectView(hasSid, a, Starved(s, s')))
  {
    ResolvesSame(a, s.name.maximumLength, s.domain.maximumLength, Starved(s, s'));
    forall i | 0 <= i < |calls| ensures Agrees(os[i], calls[i], image, DirectView(hasSid, a, Starved(s, s'))) {
      assert Agrees(os[i], calls[i], image, ViewAt(answer, hasSid, calls, i, s, s'));
      if calls[i].helper != ImagePath {
        assert Resolved(answer, hasSid, s, s');
        assert ViewAt(answer, hasSid, calls, i, s, s') == DirectView(hasSid, a, Starved(s, s'));
      }
    }
  }
}
