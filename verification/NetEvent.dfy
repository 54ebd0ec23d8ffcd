/** The network event extension: per-CPU event buffers, the framing of a pushed event, and the
    monitor program that consumes it. */
module NetEvent {
  import opened Common
  import opened KernelPool

  const INIT_EVENT_BUFFER_SIZE: nat := 4096
  const DATA_HEADER_SIZE: nat := 4            // sizeof(netevent_data_header_t)
  const PKTMON_EVENT_HEADER_LENGTH: nat := 0x35
  const EVENT_VERSION: Byte := 1              // NETEVENT_PKTMON_EVENT_CURRENT_VERSION, low byte
  const EVENT_SIZE_MAX: nat := 128
  const HEADER_LENGTH: nat := 57              // DATA_HEADER_SIZE + PKTMON_EVENT_HEADER_LENGTH

  type Cpu = nat

  /** A pushed event: the bytes from `start` up to `end` of some memory of the provider's. */
  datatype Event = NullEvent | Event(memory: array<Byte>, start: nat, end: nat)

  predicate InMemory(e: Event) { e.Event? ==> e.start <= e.memory.Length && e.end <= e.memory.Length }

  predicate Acceptable(e: Event) {
    e.Event? && e.end > e.start && e.end - e.start >= PKTMON_EVENT_HEADER_LENGTH
  }

  /** The size of the frame an event is passed on in; 0 for one that never is. */
  function FrameSize(e: Event): nat { if Acceptable(e) then DATA_HEADER_SIZE + (e.end - e.start) else 0 }

  ghost function Bytes(e: Event): seq<Byte>
    requires InMemory(e) && Acceptable(e)
    reads if e.Event? then {e.memory} else {}
  {
    e.memory[e.start..e.end]
  }

  /** netevent_event_md_t: pointers into one event buffer, as offsets. */
  datatype Context = Context(buffer: array<Byte>, dataMeta: nat, data: nat, dataEnd: nat)

  datatype Dispatched = Dropped | Passed(context: Context)

  /** An event that is pushed on a CPU. */
  datatype Arrival = Arrival(cpu: Cpu, event: Event)

  /** Nothing but a refused allocation stands in the way of the event. */
  predicate Deliverable(a: Arrival, cpus: nat) { Acceptable(a.event) && a.cpu < cpus }

  /** What the programs see of an event: its type, a padding byte nobody writes, the version as two
      little-endian bytes, and the event itself. */
  function Frame(event: seq<Byte>, padding: Byte): seq<Byte>
    requires event != []
  {
    [event[0], padding, EVENT_VERSION, 0] + event
  }

  /** One event passed to the programs. */
  datatype Entry = Entry(cpu: Cpu, total: nat)

  /** The largest of the initial size and of the sizes dispatched on `cpu`. */
  function Peak(history: seq<Entry>, cpu: Cpu): (p: nat)
    ensures p >= 4096
    ensures forall i :: 0 <= i < |history| && history[i].cpu == cpu ==> history[i].total <= p
    ensures p == 4096 || exists i :: 0 <= i < |history| && history[i].cpu == cpu && history[i].total == p
  {
    if history == [] then INIT_EVENT_BUFFER_SIZE
    else
      var n := |history| - 1;
      var p := Peak(history[..n], cpu);
      assert forall i :: 0 <= i < n ==> history[..n][i] == history[i];
      if history[n].cpu == cpu then Max(p, history[n].total) else p
  }

  lemma PeakSnoc(history: seq<Entry>, e: Entry, cpu: Cpu)
    ensures Peak(history + [e], cpu) == if e.cpu == cpu then Max(Peak(history, cpu), e.total) else Peak(history, cpu)
  {
    assert (history + [e])[..|history|] == history;
  }

  /** The blocks among the entries of the pointer array. */
  ghost function Held(s: seq<array?<Byte>>): set<object> { set i | 0 <= i < |s| && s[i] != null :: s[i] as object }

  predicate Distinct(s: seq<array?<Byte>>) {
    && (forall c :: 0 <= c < |s| ==> s[c] != null)
    && (forall c, d :: 0 <= c < d < |s| ==> s[c] != s[d])
  }

  /** Every CPU has a buffer of its own, whose recorded size is its true length and the largest size
      dispatched on that CPU. */
  predicate Sound(bs: seq<array?<Byte>>, ss: seq<nat>, history: seq<Entry>) {
    && Distinct(bs)
    && |bs| == |ss|
    && (forall c :: 0 <= c < |bs| ==> bs[c].Length == ss[c] == Peak(history, c))
  }

  lemma SoundKeep(bs: seq<array?<Byte>>, ss: seq<nat>, history: seq<Entry>, e: Entry)
    requires Sound(bs, ss, history) && e.cpu < |bs| && e.total <= ss[e.cpu]
    ensures Sound(bs, ss, history + [e])
  {
    forall c | 0 <= c < |bs| ensures Peak(history + [e], c) == Peak(history, c) {
      PeakSnoc(history, e, c);
    }
  }

  lemma SoundReplace(bs: seq<array?<Byte>>, ss: seq<nat>, history: seq<Entry>, e: Entry, b: array<Byte>)
    requires Sound(bs, ss, history) && e.cpu < |bs| && e.total > ss[e.cpu]
    requires b.Length == e.total && b !in bs
    ensures Sound(bs[e.cpu := b], ss[e.cpu := e.total], history + [e])
  {
    forall c | 0 <= c < |bs|
      ensures Peak(history + [e], c) == if c == e.cpu then e.total else Peak(history, c)
    {
      PeakSnoc(history, e, c);
    }
  }

  lemma HeldUpdate(s: seq<array?<Byte>>, i: nat, b: array<Byte>)
    requires i < |s| && s[i] == null
    ensures Held(s[i := b]) == Held(s) + {b}
  {
    assert s[i := b][i] == b;
    forall x | x in Held(s) ensures x in Held(s[i := b]) {
      var k :| 0 <= k < |s| && s[k] != null && s[k] as object == x;
      assert s[i := b][k] == s[k];
    }
  }

  lemma HeldSnoc(s: seq<array?<Byte>>, i: nat)
    requires i < |s| && Distinct(s)
    ensures Held(s[..i + 1]) == Held(s[..i]) + {s[i] as object} && s[i] !in Held(s[..i])
  {
    assert s[..i + 1] == s[..i] + [s[i]];
    assert s[..i + 1][i] == s[i];
    forall x | x in Held(s[..i]) ensures x in Held(s[..i + 1]) {
      var k :| 0 <= k < i && s[..i][k] != null && s[..i][k] as object == x;
      assert s[..i + 1][k] == s[..i][k];
    }
  }

  lemma {:induction false} HeldSize(s: seq<array?<Byte>>)
    requires Distinct(s)
    ensures |Held(s)| == |s|
  {
    if s != [] {
      var n := |s| - 1;
      HeldSnoc(s, n);
      assert s[..n + 1] == s;
      HeldSize(s[..n]);
    }
  }

  lemma HeldReplace(s: seq<array?<Byte>>, i: nat, b: array<Byte>)
    requires i < |s| && Distinct(s)
    ensures Held(s[i := b]) == Held(s) - {s[i] as object} + {b}
    ensures s[i] in Held(s)
  {
    var t := s[i := b];
    assert t[i] == b;
    forall x | x in Held(s) && x != s[i] ensures x in Held(t) {
      var k :| 0 <= k < |s| && s[k] != null && s[k] as object == x;
      assert t[k] == s[k];
    }
    forall x | x in Held(t) && x != b ensures x in Held(s) && x != s[i] {
      var k :| 0 <= k < |t| && t[k] != null && t[k] as object == x;
      assert t[k] == s[k] && k != i;
    }
  }

  method CopyBytes(to: array<Byte>, at: nat, from: array<Byte>, start: nat, count: nat)
    requires to != from && at + count <= to.Length && start + count <= from.Length
    modifies to
    ensures forall i :: 0 <= i < to.Length ==> to[i] == if at <= i < at + count then from[start + i - at] else old(to[i])
  {
    for i := 0 to count
      invariant forall k :: 0 <= k < to.Length ==> to[k] == if at <= k < at + i then from[start + k - at] else old(to[k])
    {
      to[at + i] := from[start + i];
    }
  }

  /** The event is framed at the start of the buffer; the rest of the buffer and the padding stay. */
  method WriteFrame(buffer: array<Byte>, event: Event, ghost bytes: seq<Byte>)
    requires InMemory(event) && Acceptable(event) && buffer != event.memory && bytes == Bytes(event)
    requires DATA_HEADER_SIZE + (event.end - event.start) <= buffer.Length
    modifies buffer
    ensures buffer[..DATA_HEADER_SIZE + (event.end - event.start)] == Frame(bytes, buffer[1]) && buffer[1] == old(buffer[1])
    ensures forall i :: DATA_HEADER_SIZE + (event.end - event.start) <= i < buffer.Length ==> buffer[i] == old(buffer[i])
  {
    buffer[2], buffer[3] := EVENT_VERSION, 0;
    buffer[0] := event.memory[event.start];   // the low byte of the event id
    CopyBytes(buffer, DATA_HEADER_SIZE, event.memory, event.start, PKTMON_EVENT_HEADER_LENGTH);
    var size := event.end - event.start;
    CopyBytes(buffer, HEADER_LENGTH, event.memory, event.start + PKTMON_EVENT_HEADER_LENGTH,
      size - PKTMON_EVENT_HEADER_LENGTH);
    assert forall i :: DATA_HEADER_SIZE <= i < DATA_HEADER_SIZE + size ==>
      buffer[i] == event.memory[event.start + i - DATA_HEADER_SIZE];
  }

  /** The allocation loop of the registration. */
  method AllocateBuffers(pool: Pool, bs: array<array?<Byte>>, ss: array<nat>) returns (ok: bool)
    requires pool.Valid() && bs.Length == ss.Length
    requires forall c :: 0 <= c < bs.Length ==> bs[c] == null
    modifies pool, bs, ss
    ensures pool.Valid() && pool.freed == old(pool.freed)
    ensures pool.taken == old(pool.taken) + Held(bs[..]) && fresh(Held(bs[..]))
    ensures ok ==> Sound(bs[..], ss[..], [])
    ensures pool.refused == old(pool.refused) + if ok then 0 else 1
  {
    var n := bs.Length;
    for i := 0 to n
      invariant pool.Valid() && pool.freed == old(pool.freed) && pool.refused == old(pool.refused)
      invariant forall c :: 0 <= c < i ==> bs[c] != null && bs[c].Length == ss[c] == INIT_EVENT_BUFFER_SIZE
      invariant forall c :: 0 <= c < i ==> bs[c] in pool.taken
      invariant forall c :: i <= c < n ==> bs[c] == null
      invariant forall c, d :: 0 <= c < d < i ==> bs[c] != bs[d]
      invariant pool.taken == old(pool.taken) + Held(bs[..]) && fresh(Held(bs[..]))
    {
      ss[i] := INIT_EVENT_BUFFER_SIZE;
      ghost var before := bs[..];
      var block := pool.Allocate(ss[i]);
      if block == null {
        return false;
      }
      bs[i] := block;
      HeldUpdate(before, i, block);
      assert bs[..] == before[i := block];
    }
    ok := true;
  }

  /** The entries of the arrivals that were passed on, in order. */
  function Entries(arrivals: seq<Arrival>, passed: seq<bool>): seq<Entry>
    requires |passed| == |arrivals|
  {
    if arrivals == [] then []
    else
      var n := |arrivals| - 1;
      Entries(arrivals[..n], passed[..n]) + if passed[n] then [Entry(arrivals[n].cpu, FrameSize(arrivals[n].event))] else []
  }

  /** How many arrivals were lost although they could have been delivered. */
  function Lost(arrivals: seq<Arrival>, passed: seq<bool>, cpus: nat): nat
    requires |passed| == |arrivals|
  {
    if arrivals == [] then 0
    else
      var n := |arrivals| - 1;
      Lost(arrivals[..n], passed[..n], cpus) + if Deliverable(arrivals[n], cpus) && !passed[n] then 1 else 0
  }

  /** Only arrivals that could be delivered were passed on. */
  predicate Fitting(arrivals: seq<Arrival>, passed: seq<bool>, cpus: nat) {
    |passed| == |arrivals| && forall i :: 0 <= i < |passed| && passed[i] ==> Deliverable(arrivals[i], cpus)
  }

  lemma OneMore(arrivals: seq<Arrival>, passed: seq<bool>, n: nat, p: bool, cpus: nat)
    requires n < |arrivals| && Fitting(arrivals[..n], passed, cpus) && (p ==> Deliverable(arrivals[n], cpus))
    ensures Fitting(arrivals[..n + 1], passed + [p], cpus)
    ensures Entries(arrivals[..n + 1], passed + [p]) == Entries(arrivals[..n], passed) +
              if p then [Entry(arrivals[n].cpu, FrameSize(arrivals[n].event))] else []
    ensures Lost(arrivals[..n + 1], passed + [p], cpus) ==
              Lost(arrivals[..n], passed, cpus) + if Deliverable(arrivals[n], cpus) && !p then 1 else 0
  {
    assert arrivals[..n + 1][..n] == arrivals[..n] && (passed + [p])[..n] == passed;
  }

  class EventBuffers {
    var cpuCount: nat
    var buffers: array?<array?<Byte>>
    var sizes: array?<nat>
    ghost var history: seq<Entry>

    constructor ()
      ensures buffers == null && sizes == null && history == []
    {
      cpuCount, buffers, sizes, history := 0, null, null, [];
    }

    ghost predicate Registered()
      reads this
    {
      buffers != null && sizes != null
    }

    /** The blocks of the pool the extension holds. */
    ghost function Owned(): set<object>
      reads this, buffers
    {
      (if sizes == null then {} else {sizes})
      + (if buffers == null then {} else {buffers} + Held(buffers[..]))
    }

    ghost predicate Valid(pool: Pool)
      reads this, buffers, sizes, pool
    {
      && pool.Valid()
      && (Registered() || (buffers == null && sizes == null))
      && Owned() <= pool.Live()
      && (Registered() ==> buffers.Length == cpuCount && Sound(buffers[..], sizes[..], history))
    }

    /** The set-up of the per-CPU buffers during registration.  Only a successful one is described:
        on failure the caller unregisters, which is not part of this model. */
    method Register(pool: Pool, count: nat) returns (ok: bool)
      requires pool.Valid() && buffers == null && sizes == null
      modifies this, pool
      ensures pool.Valid() && (ok <==> pool.refused == old(pool.refused)) && pool.refused >= old(pool.refused)
      ensures ok ==> Valid(pool) && Registered() && cpuCount == count && history == []
      ensures ok ==> pool.taken == old(pool.taken) + Owned() && pool.freed == old(pool.freed) && fresh(Owned())
    {
      cpuCount, history := count, [];
      var bs := new array?<Byte>[count](_ => null);
      var ss := new nat[count](_ => 0);
      var gotBuffers := pool.AllocateFor(bs);
      var gotSizes := pool.AllocateFor(ss);
      if !gotBuffers || !gotSizes {
        return false;
      }
      buffers, sizes := bs, ss;
      ok := AllocateBuffers(pool, bs, ss);
    }

    /** Tear-down: everything that is held is given back, and a second call changes nothing. */
    method Unregister(pool: Pool)
      requires Valid(pool)
      modifies this, buffers, pool
      ensures Valid(pool) && buffers == null && sizes == null
      ensures pool.taken == old(pool.taken) && pool.freed == old(pool.freed) + old(Owned())
      ensures history == old(history) && pool.refused == old(pool.refused)
      ensures !old(Registered()) ==> unchanged(this) && unchanged(pool)
    {
      if sizes != null {
        pool.Free(sizes);
        sizes := null;
      }
      if buffers != null {
        ghost var all := buffers[..];
        ghost var freed := pool.freed;
        for i := 0 to cpuCount
          invariant pool.refused == old(pool.refused)
          invariant pool.Valid() && buffers == old(buffers) && buffers != null && buffers.Length == cpuCount == |all|
          invariant sizes == null && cpuCount == old(cpuCount) && history == old(history)
          invariant pool.taken == old(pool.taken) && pool.freed == freed + Held(all[..i])
          invariant forall c :: i <= c < cpuCount ==> buffers[c] == all[c]
          invariant Distinct(all) && forall c :: 0 <= c < |all| ==> all[c] in pool.taken && all[c] !in freed
        {
          HeldSnoc(all, i);
          if buffers[i] != null {
            pool.Free(buffers[i]);
            buffers[i] := null;
          }
        }
        assert all[..cpuCount] == all;
        pool.Free(buffers);
        buffers := null;
      }
    }

    /** What a dropped event leaves alone: everything. */
    twostate predicate Untouched(pool: Pool)
      reads this, buffers, sizes, pool, if buffers != null then Held(buffers[..]) else {}
    {
      && unchanged(this)
      && pool.taken == old(pool.taken) && pool.freed == old(pool.freed)
      && (sizes != null ==> sizes[..] == old(sizes[..]))
      && (buffers != null ==> buffers[..] == old(buffers[..]))
      && (buffers != null ==> forall c :: 0 <= c < buffers.Length && buffers[c] != null ==> unchanged(buffers[c]))
    }

    /** Replace the buffer of `cpu` by one of `total` bytes; a refused replacement changes nothing. */
    method Replace(pool: Pool, cpu: Cpu, total: nat) returns (ok: bool)
      requires Valid(pool) && Registered() && cpu < cpuCount && total > sizes[cpu]
      modifies this`history, buffers, sizes, pool
      ensures Valid(pool) && Registered()
      ensures !ok ==> total > old(sizes[cpu]) && Untouched(pool)
      ensures pool.refused == old(pool.refused) + if ok then 0 else 1
      ensures ok ==> history == old(history) + [Entry(cpu, total)] && total <= buffers[cpu].Length
      ensures ok ==> buffers[..] == old(buffers[..])[cpu := buffers[cpu]]
      ensures buffers[cpu] == old(buffers[cpu]) || fresh(buffers[cpu])
      ensures pool.taken == old(pool.taken) + Owned() && pool.freed == old(pool.freed) + (old(Owned()) - Owned())
      ensures (Owned() - old(Owned())) !! old(pool.taken)
    {
      ghost var all, recorded := buffers[..], sizes[..];
      var block := pool.Allocate(total);
      if block == null {
        return false;
      }
      HeldReplace(all, cpu, block);
      SoundReplace(all, recorded, history, Entry(cpu, total), block);
      if buffers[cpu] != null {
        pool.Free(buffers[cpu]);
      }
      buffers[cpu] := block;
      sizes[cpu] := total;
      assert buffers[..] == all[cpu := block] && sizes[..] == recorded[cpu := total];
      history := history + [Entry(cpu, total)];
      ok := true;
    }

    /** Make room for `total` bytes on `cpu`, replacing the buffer by a larger one if need be. */
    method EnsureRoom(pool: Pool, cpu: Cpu, total: nat) returns (ok: bool)
      requires Valid(pool) && Registered() && cpu < cpuCount
      modifies this`history, buffers, sizes, pool
      ensures Valid(pool) && Registered()
      ensures !ok ==> total > old(sizes[cpu]) && Untouched(pool)
      ensures pool.refused == old(pool.refused) + if ok then 0 else 1
      ensures ok ==> history == old(history) + [Entry(cpu, total)] && total <= buffers[cpu].Length
      ensures ok ==> buffers[..] == old(buffers[..])[cpu := buffers[cpu]]
      ensures buffers[cpu] == old(buffers[cpu]) || fresh(buffers[cpu])
      ensures pool.taken == old(pool.taken) + Owned() && pool.freed == old(pool.freed) + (old(Owned()) - Owned())
      ensures (Owned() - old(Owned())) !! old(pool.taken)
    {
      if total > sizes[cpu] {
        ok := Replace(pool, cpu, total);
      } else {
        SoundKeep(buffers[..], sizes[..], history, Entry(cpu, total));
        history := history + [Entry(cpu, total)];
        ok := true;
      }
    }

    /** The CPUs an event can be taken on: none unless registered. */
    ghost function Cpus(): nat
      reads this
    {
      if Registered() then cpuCount else 0
    }

    /** What a push on `cpu` may write besides the bookkeeping. */
    ghost function Target(cpu: Cpu): set<object>
      reads this, buffers
    {
      if buffers != null && cpu < buffers.Length && buffers[cpu] != null then {buffers[cpu]} else {}
    }

    /** An event that could be delivered on `cpu`: it is dropped because the room for it is refused, or
        framed in that CPU's buffer. */
    method PushHere(pool: Pool, cpu: Cpu, event: Event) returns (d: Dispatched)
      requires Valid(pool) && InMemory(event) && (event.Event? ==> event.memory !in Owned())
      requires Deliverable(Arrival(cpu, event), Cpus())
      modifies this`history, buffers, sizes, pool, Target(cpu)
      ensures Valid(pool)
      ensures d.Dropped? ==> Untouched(pool)
      ensures Registered() && pool.refused == old(pool.refused) + if d.Passed? then 0 else 1
      ensures d.Dropped? ==> FrameSize(event) > sizes[cpu]
      ensures d.Passed? ==> d.context == Context(buffers[cpu], 0, HEADER_LENGTH, FrameSize(event))
      ensures d.Passed? ==> HEADER_LENGTH <= d.context.dataEnd <= d.context.buffer.Length
      ensures d.Passed? ==> d.context.buffer[..d.context.dataEnd] == Frame(Bytes(event), d.context.buffer[1])
      ensures d.Passed? ==> history == old(history) + [Entry(cpu, d.context.dataEnd)]
      ensures d.Passed? ==> buffers[..] == old(buffers[..])[cpu := d.context.buffer]
      ensures fresh(Owned() - old(Owned()))
      ensures pool.taken == old(pool.taken) + Owned() && pool.freed == old(pool.freed) + (old(Owned()) - Owned())
      ensures (Owned() - old(Owned())) !! old(pool.taken)
    {
      ghost var bytes := Bytes(event);
      var total := DATA_HEADER_SIZE + (event.end - event.start);
      var ok := EnsureRoom(pool, cpu, total);
      if !ok {
        return Dropped;
      }
      WriteFrame(buffers[cpu], event, bytes);
      d := Passed(Context(buffers[cpu], 0, HEADER_LENGTH, total));
    }

    /** One event arrives on `cpu`: it is dropped and nothing changes, or it is framed in that CPU's
        buffer and the programs get a context that spans exactly the frame. */
    method Push(pool: Pool, cpu: Cpu, event: Event) returns (d: Dispatched)
      requires Valid(pool) && InMemory(event) && (event.Event? ==> event.memory !in Owned())
      modifies this`history, buffers, sizes, pool, Target(cpu)
      ensures Valid(pool)
      ensures d.Dropped? ==> Untouched(pool)
      ensures d.Dropped? && Deliverable(Arrival(cpu, event), Cpus()) ==>
        FrameSize(event) > sizes[cpu] && pool.refused == old(pool.refused) + 1
      ensures d.Passed? || !Deliverable(Arrival(cpu, event), Cpus()) ==> pool.refused == old(pool.refused)
      ensures d.Passed? ==> Deliverable(Arrival(cpu, event), Cpus()) && Registered()
      // In numbers: nothing but an event shorter than 0x35 bytes, a CPU without a buffer and a refused
      // allocation keeps an event from the programs, and up to 4092 bytes none is needed.
      ensures d.Passed? <==>
              && Registered() && cpu < cpuCount && event.Event? && event.end - event.start >= 0x35
              && pool.refused == old(pool.refused)
      ensures Registered() && cpu < cpuCount && event.Event? && 0x35 <= event.end - event.start <= 4092 ==> d.Passed?
      ensures d.Passed? ==> d.context.dataMeta == 0 && d.context.data == 57 && d.context.dataEnd == 4 + event.end - event.start
      ensures d.Passed? ==> d.context == Context(buffers[cpu], 0, HEADER_LENGTH, FrameSize(event))
      ensures d.Passed? ==> HEADER_LENGTH <= d.context.dataEnd <= d.context.buffer.Length
      ensures d.Passed? ==> d.context.buffer[..d.context.dataEnd] == Frame(Bytes(event), d.context.buffer[1])
      ensures d.Passed? ==> history == old(history) + [Entry(cpu, d.context.dataEnd)]
      ensures d.Passed? ==> buffers[..] == old(buffers[..])[cpu := d.context.buffer]
      ensures fresh(Owned() - old(Owned()))
      ensures pool.taken == old(pool.taken) + Owned() && pool.freed == old(pool.freed) + (old(Owned()) - Owned())
      ensures (Owned() - old(Owned())) !! old(pool.taken)
    {
      if !Acceptable(event) || buffers == null || sizes == null || cpu >= cpuCount {
        return Dropped;
      }
      d := PushHere(pool, cpu, event);
    }
  }

  lemma OwnedSize(events: EventBuffers, pool: Pool)
    requires events.Valid(pool) && events.Registered()
    ensures |events.Owned()| == events.cpuCount + 2
  {
    var held := Held(events.buffers[..]);
    HeldSize(events.buffers[..]);
    var arrays: set<object> := {events.sizes as object, events.buffers as object};
    assert |arrays| == 2;
    forall x | x in held ensures x !in arrays {
      var k :| 0 <= k < |events.buffers[..]| && events.buffers[..][k] != null && events.buffers[..][k] as object == x;
      assert x is array<Byte>;
    }
    assert events.Owned() == arrays + held && arrays !! held;
  }

  // ----- The consumer -----

  datatype Output = Rejected | Emitted(record: seq<Byte>)

  /** How much payload the monitor sends on: the length is first cut down to 32 bits. */
  function PayloadSent(length: nat): (n: nat)
    ensures n <= length && n <= EVENT_SIZE_MAX
  {
    var dataLen := length % 0x1_0000_0000;
    if dataLen > EVENT_SIZE_MAX then EVENT_SIZE_MAX else dataLen
  }

  /** The monitor sends all of a short payload and the first 128 bytes of a longer one exactly if
      the length fits 32 bits, or what is left of it after cutting it down is still 128 or more. */
  lemma ClampIsExact(length: nat)
    ensures PayloadSent(length) == (if length < EVENT_SIZE_MAX then length else EVENT_SIZE_MAX)
      <==> length < 0x1_0000_0000 || length % 0x1_0000_0000 >= EVENT_SIZE_MAX
  {
  }

  /** A payload of exactly 2^32 bytes is sent as no payload at all. */
  lemma ClampLosesPayload()
    ensures PayloadSent(0x1_0000_0000) == 0
  {
  }

  /** The program emits the header and some payload, all inside the context, exactly if the context
      has the expected layout. */
  method NetEventMonitor(ctx: Context) returns (o: Output)
    requires ctx.dataMeta <= ctx.data <= ctx.dataEnd <= ctx.buffer.Length
    ensures o.Emitted? <==> ctx.dataMeta + HEADER_LENGTH == ctx.data
    ensures o.Emitted? ==> ctx.data + PayloadSent(ctx.dataEnd - ctx.data) <= ctx.dataEnd
    ensures o.Emitted? ==> o.record == ctx.buffer[ctx.dataMeta..ctx.data + PayloadSent(ctx.dataEnd - ctx.data)]
  {
    var dataLen := (ctx.dataEnd - ctx.data) % 0x1_0000_0000;
    var eventLen := HEADER_LENGTH;
    if ctx.dataMeta + HEADER_LENGTH == ctx.data {
      if dataLen > EVENT_SIZE_MAX {
        dataLen := EVENT_SIZE_MAX;
      }
      eventLen := eventLen + dataLen;
      return Emitted(ctx.buffer[ctx.dataMeta..ctx.dataMeta + eventLen]);
    }
    o := Rejected;
  }

  /** What the user-mode side should see of an event. */
  function Report(bytes: seq<Byte>, padding: Byte): seq<Byte>
    requires |bytes| >= PKTMON_EVENT_HEADER_LENGTH
  {
    var rest := bytes[PKTMON_EVENT_HEADER_LENGTH..];
    [bytes[0], padding, EVENT_VERSION, 0] + bytes[..PKTMON_EVENT_HEADER_LENGTH] + rest[..PayloadSent(|rest|)]
  }

  lemma FramePrefix(bytes: seq<Byte>, padding: Byte)
    requires |bytes| >= PKTMON_EVENT_HEADER_LENGTH
    ensures |bytes| - PKTMON_EVENT_HEADER_LENGTH == |Frame(bytes, padding)| - HEADER_LENGTH
    ensures Report(bytes, padding)
      == Frame(bytes, padding)[..HEADER_LENGTH + PayloadSent(|bytes| - PKTMON_EVENT_HEADER_LENGTH)]
  {
    var rest := bytes[PKTMON_EVENT_HEADER_LENGTH..];
    assert bytes == bytes[..PKTMON_EVENT_HEADER_LENGTH] + rest;
  }

  /** On a context that spans exactly one frame the layout guard holds and the report is emitted. */
  method MonitorFrame(ctx: Context, ghost bytes: seq<Byte>, ghost padding: Byte) returns (o: Output)
    requires ctx.dataMeta == 0 && ctx.data == HEADER_LENGTH <= ctx.dataEnd <= ctx.buffer.Length
    requires |bytes| >= PKTMON_EVENT_HEADER_LENGTH && ctx.buffer[..ctx.dataEnd] == Frame(bytes, padding)
    ensures o == Emitted(Report(bytes, padding))
  {
    o := NetEventMonitor(ctx);
    FramePrefix(bytes, padding);
    ghost var sent := HEADER_LENGTH + PayloadSent(|bytes| - PKTMON_EVENT_HEADER_LENGTH);
    assert ctx.buffer[..sent] == ctx.buffer[..ctx.dataEnd][..sent];
  }

  /** The report of an event shorter than 4 GiB is its type, the padding, the version, and the event itself,
      cut after 181 bytes. */
  lemma ReportIs(event: Event, bytes: seq<Byte>, padding: Byte)
    requires InMemory(event) && Acceptable(event) && bytes == Bytes(event)
    ensures |bytes| < 0x1_0000_0000 ==>
            Report(bytes, padding) ==
            [event.memory[event.start], padding, 1, 0] +
            event.memory[event.start..if event.end - event.start < 181 then event.end else event.start + 181]
  {
    var h := PKTMON_EVENT_HEADER_LENGTH;
    if |bytes| < 0x1_0000_0000 {
      var k := h + PayloadSent(|bytes| - h);
      assert bytes[..h] + bytes[h..][..k - h] == bytes[..k];
      assert k == if |bytes| < 181 then |bytes| else 181;
    }
  }

  /** From provider to perf map: an event that is not dropped is always emitted, as its type, a
      padding byte, the version, the packet-monitor header and the start of the payload. */
  method PushAndMonitor(events: EventBuffers, pool: Pool, cpu: Cpu, event: Event)
    returns (d: Dispatched, o: Output, ghost padding: Byte)
    requires events.Valid(pool) && InMemory(event) && (event.Event? ==> event.memory !in events.Owned())
    modifies events`history, events.buffers, events.sizes, pool, events.Target(cpu)
    ensures events.Valid(pool)
    ensures o.Emitted? <==> d.Passed?
    ensures d.Dropped? ==> events.Untouched(pool)
    ensures d.Passed? ==> Deliverable(Arrival(cpu, event), events.Cpus()) && pool.refused == old(pool.refused)
    ensures d.Dropped? && Deliverable(Arrival(cpu, event), events.Cpus()) ==>
      FrameSize(event) > events.sizes[cpu] && pool.refused == old(pool.refused) + 1
    ensures o.Emitted? ==> Acceptable(event) && o.record == Report(Bytes(event), padding)
    ensures o.Emitted? <==>
            && events.Registered() && cpu < events.cpuCount && event.Event? && event.end - event.start >= 0x35
            && pool.refused == old(pool.refused)
    ensures events.Registered() && cpu < events.cpuCount && event.Event? && 0x35 <= event.end - event.start <= 4092 ==> o.Emitted?
    ensures o.Emitted? && event.end - event.start < 0x1_0000_0000 ==>
            o.record == [event.memory[event.start], padding, 1, 0] +
                        event.memory[event.start..if event.end - event.start < 181 then event.end else event.start + 181]
  {
    d := events.Push(pool, cpu, event);
    o, padding := Rejected, 0;
    if d.Passed? {
      padding := d.context.buffer[1];
      o := MonitorFrame(d.context, Bytes(event), padding);
      ReportIs(event, Bytes(event), padding);
    }
  }

  // ----- The whole life of the buffers -----

  predicate AllInMemory(arrivals: seq<Arrival>) {
    forall i :: 0 <= i < |arrivals| ==> InMemory(arrivals[i].event)
  }

  /** Between two states of the pool nothing was lost: what is live besides `owned` is what was live
      besides the earlier `owned`, and nothing leaves the books. */
  ghost predicate Balanced(taken: set<object>, freed: set<object>, owned: set<object>,
                           taken': set<object>, freed': set<object>, owned': set<object>)
  {
    && taken <= taken' && freed <= freed' && owned' <= taken' - freed'
    && taken' - freed' - owned' == taken - freed - owned
  }

  lemma BalancedStep(t: set<object>, f: set<object>, o: set<object>, t': set<object>, f': set<object>, o': set<object>)
    requires f <= t && o <= t - f && (o' - o) !! t
    requires t' == t + o' && f' == f + (o - o')
    ensures Balanced(t, f, o, t', f', o')
  {
    assert o' !! f' by {
      assert o' * f == {};
    }
  }

  lemma BalancedNext(t: set<object>, f: set<object>, o: set<object>, t1: set<object>, f1: set<object>, o1: set<object>,
                     t2: set<object>, f2: set<object>, o2: set<object>)
    requires Balanced(t, f, o, t1, f1, o1) && f1 <= t1 && (o2 - o1) !! t1
    requires t2 == t1 + o2 && f2 == f1 + (o1 - o2)
    ensures Balanced(t, f, o, t2, f2, o2)
  {
    BalancedStep(t1, f1, o1, t2, f2, o2);
  }

  lemma BalancedLife(t: set<object>, f: set<object>, o: set<object>, t': set<object>, f': set<object>, o': set<object>)
    requires f <= t && o !! t && Balanced(t + o, f, o, t', f', o') && f' <= t'
    ensures t' - (f' + o') == t - f
    ensures (f' + o') - f == t' - t
  {
    assert t + o - f - o == t - f == t' - f' - o' == t' - (f' + o');
    forall x: object
      ensures x in (f' + o') - f <==> x in t' - t
    {
      assert x in t - f <==> x in t' - (f' + o');
    }
  }

  /** Any run of events on any CPUs keeps the buffers sound and loses no block.  The log of what was
      dispatched, whose peaks the buffer sizes are, grows by exactly the events that were passed on,
      and an event that could be delivered is lost only to a refused allocation. */
  method PushAll(events: EventBuffers, pool: Pool, arrivals: seq<Arrival>) returns (passed: seq<bool>)
    requires events.Valid(pool) && AllInMemory(arrivals)
    requires forall i :: 0 <= i < |arrivals| && arrivals[i].event.Event? ==> arrivals[i].event.memory !in events.Owned()
    modifies events`history, events.buffers, events.sizes, pool, events.Owned()
    ensures events.Valid(pool) && fresh(events.Owned() - old(events.Owned()))
    ensures Logged(events, pool, arrivals, passed,
                   old(pool.taken), old(pool.freed), old(events.Owned()), old(events.history), old(pool.refused))
  {
    passed := [];
    ghost var t, f, o, h, r := pool.taken, pool.freed, events.Owned(), events.history, pool.refused;
    for i := 0 to |arrivals|
      invariant events.Valid(pool) && fresh(events.Owned() - o)
      invariant Logged(events, pool, arrivals[..i], passed, t, f, o, h, r)
    {
      passed := PushNext(events, pool, arrivals, i, passed, t, f, o, h, r);
    }
    assert arrivals[..|arrivals|] == arrivals;
  }

  /** Since the books stood at `t`, `f`, `o`, `h` and `r` the arrivals came, and those that `passed`
      says were passed on. */
  ghost predicate Logged(events: EventBuffers, pool: Pool, arrivals: seq<Arrival>, passed: seq<bool>,
                         t: set<object>, f: set<object>, o: set<object>, h: seq<Entry>, r: nat)
    reads events, events.buffers, pool
  {
    && Fitting(arrivals, passed, events.Cpus())
    && events.history == h + Entries(arrivals, passed)
    && pool.refused == r + Lost(arrivals, passed, events.Cpus())
    && Balanced(t, f, o, pool.taken, pool.freed, events.Owned())
  }

  lemma LogNext(arrivals: seq<Arrival>, passed: seq<bool>, n: nat, p: bool, cpus: nat,
                h: seq<Entry>, h1: seq<Entry>, h2: seq<Entry>)
    requires n < |arrivals| && Fitting(arrivals[..n], passed, cpus) && (p ==> Deliverable(arrivals[n], cpus))
    requires h1 == h + Entries(arrivals[..n], passed)
    requires h2 == if p then h1 + [Entry(arrivals[n].cpu, FrameSize(arrivals[n].event))] else h1
    ensures Fitting(arrivals[..n + 1], passed + [p], cpus)
    ensures h2 == h + Entries(arrivals[..n + 1], passed + [p])
    ensures Lost(arrivals[..n + 1], passed + [p], cpus) ==
              Lost(arrivals[..n], passed, cpus) + if Deliverable(arrivals[n], cpus) && !p then 1 else 0
  {
    OneMore(arrivals, passed, n, p, cpus);
  }

  method PushNext(events: EventBuffers, pool: Pool, arrivals: seq<Arrival>, i: nat, passed0: seq<bool>,
                  ghost t: set<object>, ghost f: set<object>, ghost o: set<object>, ghost h: seq<Entry>, ghost r: nat)
    returns (passed: seq<bool>)
    requires events.Valid(pool) && i < |arrivals| && InMemory(arrivals[i].event)
    requires arrivals[i].event.Event? ==> arrivals[i].event.memory !in events.Owned()
    requires Logged(events, pool, arrivals[..i], passed0, t, f, o, h, r)
    modifies events`history, events.buffers, events.sizes, pool, events.Target(arrivals[i].cpu)
    ensures events.Valid(pool) && fresh(events.Owned() - old(events.Owned()))
    ensures Logged(events, pool, arrivals[..i + 1], passed, t, f, o, h, r)
  {
    ghost var t1, f1, o1, h1 := pool.taken, pool.freed, events.Owned(), events.history;
    var d := events.Push(pool, arrivals[i].cpu, arrivals[i].event);
    BalancedNext(t, f, o, t1, f1, o1, pool.taken, pool.freed, events.Owned());
    LogNext(arrivals, passed0, i, d.Passed?, events.Cpus(), h, h1, events.history);
    passed := passed0 + [d.Passed?];
  }

  /** Register, take any events on any CPUs, unregister, and take further events and a further
      unregister.  It goes wrong only if an allocation is refused.  Otherwise every block taken from
      the pool on the way is given back, once, when the first unregister returns (`taken` and `freed`
      are the pool's books then), and what comes after it passes nothing on and changes nothing. */
  method Lifetime(events: EventBuffers, pool: Pool, count: nat, before: seq<Arrival>, after: seq<Arrival>)
    returns (ok: bool, passed: seq<bool>, ghost owned: set<object>, ghost taken: set<object>, ghost freed: set<object>)
    requires pool.Valid() && events.buffers == null && events.sizes == null
    requires AllInMemory(before) && AllInMemory(after)
    modifies events, pool
    ensures !ok ==> pool.refused > old(pool.refused)
    ensures ok ==> |owned| == count + 2 && owned !! old(pool.taken) && owned <= freed
    ensures ok ==> Fitting(before, passed, count) && events.history == Entries(before, passed)
    ensures ok ==> pool.refused == old(pool.refused) + Lost(before, passed, count)
    ensures ok ==> taken - freed == old(pool.Live()) && freed - old(pool.freed) == taken - old(pool.taken)
    ensures ok ==> pool.Valid() && pool.taken == taken && pool.freed == freed
  {
    passed, owned, taken, freed := [], {}, {}, {};
    ok := events.Register(pool, count);
    if !ok {
      return;
    }
    owned := events.Owned();
    OwnedSize(events, pool);
    passed := PushAll(events, pool, before);
    BalancedLife(old(pool.taken), old(pool.freed), owned, pool.taken, pool.freed, events.Owned());
    OwnedReturned(old(pool.taken), old(pool.freed), owned, pool.taken, pool.freed, events.Owned());
    events.Unregister(pool);
    taken, freed := pool.taken, pool.freed;
    AfterUnregister(events, pool, after);
  }

  /** After the unregister nothing is passed on and nothing changes. */
  method AfterUnregister(events: EventBuffers, pool: Pool, after: seq<Arrival>)
    requires events.Valid(pool) && events.buffers == null && events.sizes == null && AllInMemory(after)
    modifies events, pool
    ensures events.Valid(pool) && unchanged(events)
    ensures pool.taken == old(pool.taken) && pool.freed == old(pool.freed) && pool.refused == old(pool.refused)
  {
    for i := 0 to |after|
      invariant events.Valid(pool) && unchanged(events)
      invariant pool.taken == old(pool.taken) && pool.freed == old(pool.freed) && pool.refused == old(pool.refused)
    {
      var d := events.Push(pool, after[i].cpu, after[i].event);
      assert d.Dropped?;
    }
    events.Unregister(pool);
  }

  lemma OwnedReturned(t: set<object>, f: set<object>, o: set<object>, t': set<object>, f': set<object>, o': set<object>)
    requires f <= t && o !! t && Balanced(t + o, f, o, t', f', o') && f' <= t'
    ensures o <= f' + o'
  {
    assert t + o - f - o == t' - f' - o';
    assert forall x :: x in o ==> x !in t' - f' - o';
  }
}
