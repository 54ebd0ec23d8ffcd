/** The process monitor program: one scratch buffer, refilled for each field of each new process,
    and the four maps it stores into. */
module MonitorProgram {
  import opened Common
  import opened KernelPool
  import opened ProcessHelpers
  import ProcessAccount

  const COMMAND_SCRATCH_SIZE: nat := 65520
  const IMAGE_PATH_SIZE: nat := 1024
  const MAX_ACCOUNT_NAME_SIZE: nat := 64
  const MAX_ACCOUNT_DOMAIN_SIZE: nat := 512
  const USHRT_MAX: nat := ProcessAccount.USHRT_MAX

  type Pid = nat

  /** A process event, with the strings its context holds and the account its helpers show. */
  datatype Event =
    | Create(pid: Pid, command: seq<Byte>, image: seq<Byte>, account: View)
    | Delete(pid: Pid)

  /** The strings of an event are UNICODE_STRINGs, whose lengths are 16 bits wide. */
  predicate Bounded(e: Event) {
    e.Create? ==>
      && |e.command| <= USHRT_MAX && |e.image| <= USHRT_MAX
      && (e.account.Known? ==> |e.account.name| <= USHRT_MAX && |e.account.domain| <= USHRT_MAX)
  }

  datatype Field = Command | Image | Name | Domain

  /** The size of a field's map values. */
  function Slot(f: Field): nat {
    match f
    case Command => COMMAND_SCRATCH_SIZE
    case Image => IMAGE_PATH_SIZE
    case Name => MAX_ACCOUNT_NAME_SIZE
    case Domain => MAX_ACCOUNT_DOMAIN_SIZE
  }

  /** How many bytes of a field the program makes room for, so that a terminator stays. */
  function Room(f: Field): nat {
    match f
    case Command => COMMAND_SCRATCH_SIZE - 1
    case Image => IMAGE_PATH_SIZE - 1
    case Name => MAX_ACCOUNT_NAME_SIZE - 2
    case Domain => MAX_ACCOUNT_DOMAIN_SIZE - 2
  }

  function Zeros(n: nat): seq<Byte> { seq(n, _ => 0) }

  predicate Has(e: Event, f: Field) {
    e.Create? && (f == Name || f == Domain ==> e.account.Known?)
  }

  /** The field's own bytes. */
  function Own(e: Event, f: Field): seq<Byte>
    requires Has(e, f)
  {
    match f
    case Command => e.command
    case Image => e.image
    case Name => e.account.name
    case Domain => e.account.domain
  }

  predicate Fits(e: Event, f: Field) { Has(e, f) && |Own(e, f)| <= Room(f) }

  /** The account strings are stored only if they fit; the other two always. */
  predicate Stores(e: Event, f: Field) { e.Create? && (f == Name || f == Domain ==> Fits(e, f)) }

  /** A field's own bytes, zero-padded, or all zeros if they do not fit. */
  function Clean(e: Event, f: Field): (v: seq<Byte>)
    requires Stores(e, f)
    ensures |v| == Slot(f)
  {
    if Fits(e, f) then Own(e, f) + Zeros(Slot(f) - |Own(e, f)|) else Zeros(Slot(f))
  }

  // ----- The scratch buffer -----

  method Clear(buffer: array<Byte>, count: nat)
    requires count <= buffer.Length
    modifies buffer
    ensures forall i :: 0 <= i < buffer.Length ==> buffer[i] == if i < count then 0 else old(buffer[i])
  {
    for i := 0 to count
      invariant forall k :: 0 <= k < buffer.Length ==> buffer[k] == if k < i then 0 else old(buffer[k])
    {
      buffer[i] := 0;
    }
  }

  /** The contents of a scratch buffer. */
  type Contents = s: seq<Byte> | |s| == COMMAND_SCRATCH_SIZE witness Zeros(COMMAND_SCRATCH_SIZE)

  /** The scratch space of a thread: a fresh map element, cleared, except for thread key 0, whose
      lookup hits the slot of the CPU itself and gets it as it is. */
  class Scratch {
    const temps: seq<array<Byte>>   // one slot per CPU
    var space: map<nat, array<Byte>>
    const grants: nat -> bool       // whether the k-th insertion into the map of scratch spaces succeeds
    var requests: nat

    /** The slots are apart and hold `slots`. */
    ghost predicate Holds(slots: seq<Contents>)
      reads temps
    {
      && |slots| == |temps|
      && (forall c :: 0 <= c < |temps| ==> temps[c].Length == COMMAND_SCRATCH_SIZE && temps[c][..] == slots[c])
      && (forall c, d :: 0 <= c < d < |temps| ==> temps[c] != temps[d])
    }

    constructor (cpus: nat, grants: nat -> bool)
      ensures Holds(EmptySlots(cpus)) && space == map[] && this.grants == grants && requests == 0
      ensures fresh(set t | t in temps)
    {
      var ts: seq<array<Byte>> := [];
      for i := 0 to cpus
        invariant |ts| == i && forall c :: 0 <= c < i ==> fresh(ts[c])
        invariant forall c :: 0 <= c < i ==> ts[c].Length == COMMAND_SCRATCH_SIZE && ts[c][..] == Zeros(COMMAND_SCRATCH_SIZE)
        invariant forall c, d :: 0 <= c < d < i ==> ts[c] != ts[d]
      {
        var t := new Byte[COMMAND_SCRATCH_SIZE](_ => 0);
        assert t[..] == Zeros(COMMAND_SCRATCH_SIZE);
        ts := ts + [t];
      }
      temps, space, requests := ts, map[], 0;
      this.grants := grants;
    }

    method Get(cpu: nat, key: nat) returns (buffer: array?<Byte>)
      requires cpu < |temps| && temps[cpu].Length == COMMAND_SCRATCH_SIZE
      modifies this
      ensures buffer != null ==> buffer.Length == COMMAND_SCRATCH_SIZE
      ensures key == 0 ==> buffer == temps[cpu]
      ensures buffer != null && key != 0 ==> fresh(buffer) && buffer[..] == Zeros(COMMAND_SCRATCH_SIZE)
      ensures buffer != null <==> key == 0 || grants(old(requests))
      ensures requests == old(requests) + if key == 0 then 0 else 1
      ensures space == if buffer != null && key != 0 then old(space)[key := buffer] else old(space)
    {
      var temp := temps[cpu];
      if key == 0 {
        return temp;
      }
      requests := requests + 1;
      if !grants(requests - 1) {
        return null;
      }
      buffer := new Byte[COMMAND_SCRATCH_SIZE](i requires 0 <= i < temp.Length reads temp => temp[i]);
      space := space[key := buffer];
      Clear(buffer, COMMAND_SCRATCH_SIZE);
    }
  }

  function EmptySlots(cpus: nat): seq<Contents> { seq(cpus, _ => Zeros(COMMAND_SCRATCH_SIZE)) }

  /** What memcpy_s with a room of one byte less than the buffer leaves: the command over what was
      there before, or zeros over all of the room if the command is too long for it. */
  function StoredCommand(command: seq<Byte>, before: seq<Byte>): (v: seq<Byte>)
    requires |before| == COMMAND_SCRATCH_SIZE
    ensures |v| == COMMAND_SCRATCH_SIZE
  {
    if |command| <= Room(Command) then command + before[|command|..]
    else Zeros(Room(Command)) + before[Room(Command)..]
  }

  /** How much of the buffer the copy is sure to overwrite. */
  function Overwritten(command: seq<Byte>): nat {
    if |command| <= Room(Command) then |command| else Room(Command)
  }

  /** The stored command is clean exactly if the buffer was zero past what the copy overwrites. */
  lemma CommandIsClean(e: Event, before: seq<Byte>)
    requires e.Create? && |before| == COMMAND_SCRATCH_SIZE
    ensures StoredCommand(e.command, before) == Clean(e, Command)
      <==> forall i :: Overwritten(e.command) <= i < |before| ==> before[i] == 0
  {
    var n := Overwritten(e.command);
    var stored, clean := StoredCommand(e.command, before), Clean(e, Command);
    assert forall i :: 0 <= i < n ==> stored[i] == clean[i];
    assert forall i :: n <= i < |before| ==> stored[i] == before[i] && clean[i] == 0;
    if forall i :: n <= i < |before| ==> before[i] == 0 {
      assert stored == clean;
    }
  }

  /** A command of 65520 bytes or more is stored as nothing at all, however it is clamped first. */
  lemma LongCommandsAreLost(e: Event)
    requires e.Create? && |e.command| >= 65520
    ensures StoredCommand(e.command, Zeros(COMMAND_SCRATCH_SIZE)) == Zeros(COMMAND_SCRATCH_SIZE)
  {
  }

  method StoreCommand(buffer: array<Byte>, command: seq<Byte>) returns (value: seq<Byte>)
    requires buffer.Length == COMMAND_SCRATCH_SIZE && |command| <= USHRT_MAX
    modifies buffer
    ensures value == StoredCommand(command, old(buffer[..]))
  {
    var length := |command|;
    if length > COMMAND_SCRATCH_SIZE {
      length := COMMAND_SCRATCH_SIZE;
    }
    if length > COMMAND_SCRATCH_SIZE - 1 {
      Clear(buffer, COMMAND_SCRATCH_SIZE - 1);
    } else {
      forall i | 0 <= i < length {
        buffer[i] := command[i];
      }
    }
    value := buffer[..];
  }

  function HelperFor(f: Field): Helper
    requires f != Command
  {
    match f
    case Image => ImagePath
    case Name => AccountName
    case Domain => AccountDomain
  }

  /** A helper call of the program: the string it asks for goes through the extension's copy routine,
      so the call satisfies what every helper call does. */
  method CallHelper(e: Event, f: Field, buffer: array<Byte>, length: nat) returns (r: int)
    requires e.Create? && Bounded(e) && f != Command && length <= buffer.Length
    modifies buffer
    ensures Agrees(Observation(r, old(buffer[..]), buffer[..]), Call(HelperFor(f), length, buffer.Length), e.image, e.account)
  {
    if !Has(e, f) {
      return -ProcessAccount.ENOENT;
    }
    var src := Own(e, f);
    var block := new Byte[|src|](i requires 0 <= i < |src| => src[i]);
    assert block[..|src|] == src;
    r := CopyUnicodeStringToBuffer(ProcessAccount.UnicodeString(|src|, |src|, block), buffer, length);
  }

  /** A field's own bytes, zero-padded to `count` bytes, or zeros if they do not fit. */
  function Filled(e: Event, f: Field, count: nat): (v: seq<Byte>)
    requires e.Create? && Slot(f) <= count
    ensures |v| == count
  {
    if Fits(e, f) then Own(e, f) + Zeros(count - |Own(e, f)|) else Zeros(count)
  }

  /** A helper's copy over a cleared front. */
  lemma FilledOver(e: Event, f: Field, count: nat, rest: seq<Byte>)
    requires e.Create? && f != Command && Slot(f) <= count
    ensures Fits(e, f) ==> Own(e, f) + (Zeros(count) + rest)[|Own(e, f)|..] == Filled(e, f, count) + rest
    ensures !Fits(e, f) ==> Zeros(count) + rest == Filled(e, f, count) + rest
    ensures Stores(e, f) ==> (Filled(e, f, count) + rest)[..Slot(f)] == Clean(e, f)
  {
    if Fits(e, f) {
      assert (Zeros(count) + rest)[|Own(e, f)|..] == Zeros(count - |Own(e, f)|) + rest;
    }
  }

  /** One of the other three fields: clear the front of the buffer, call the helper, and take the
      slot.  Nothing of what was in the buffer shows. */
  method Fetch(buffer: array<Byte>, e: Event, f: Field, count: nat) returns (r: int, value: seq<Byte>)
    requires e.Create? && Bounded(e) && f != Command && buffer.Length == COMMAND_SCRATCH_SIZE && Slot(f) <= count <= buffer.Length
    modifies buffer
    ensures r >= 0 <==> Fits(e, f)
    ensures Stores(e, f) ==> value == Clean(e, f)
    ensures buffer[..] == Filled(e, f, count) + old(buffer[..])[count..]
  {
    Clear(buffer, count);
    ghost var before := buffer[..];
    r := CallHelper(e, f, buffer, Room(f));
    value := buffer[..Slot(f)];
    ghost var rest := old(buffer[..])[count..];
    assert before == Zeros(count) + rest;
    FilledOver(e, f, count, rest);
    assert value == buffer[..][..Slot(f)];
  }

  /** What the buffer holds when the program is done with a new process: its domain in front, and what
      of its image path lies further back. */
  function Leftover(e: Event): (v: Contents)
    requires e.Create?
  {
    Filled(e, Domain, MAX_ACCOUNT_DOMAIN_SIZE) + Filled(e, Image, COMMAND_SCRATCH_SIZE)[MAX_ACCOUNT_DOMAIN_SIZE..]
  }

  lemma LeftoverIs(e: Event, before: seq<Byte>, afterImage: seq<Byte>, afterName: seq<Byte>, afterDomain: seq<Byte>)
    requires e.Create? && |before| == COMMAND_SCRATCH_SIZE
    requires afterImage == Filled(e, Image, COMMAND_SCRATCH_SIZE) + before[COMMAND_SCRATCH_SIZE..]
    requires afterName == Filled(e, Name, Slot(Name)) + afterImage[Slot(Name)..]
    requires afterDomain == Filled(e, Domain, Slot(Domain)) + afterName[Slot(Domain)..]
    ensures afterDomain == Leftover(e)
  {
    assert afterName[Slot(Domain)..] == afterImage[Slot(Domain)..];
  }

  // ----- The maps -----

  /** An LRU map and the number of updates it has seen. */
  datatype Lru = Lru(entries: map<Pid, seq<Byte>>, updates: nat)

  const EmptyLru := Lru(map[], 0)

  /** An update; `victims` are evicted to make room. */
  function Updated(l: Lru, victims: set<Pid>, key: Pid, value: seq<Byte>): Lru {
    Lru((l.entries - victims)[key := value], l.updates + 1)
  }

  /** What the k-th update of a field's map evicts; a run ranges over every pattern of evictions. */
  type Evictions = (Field, nat) -> set<Pid>

  /** An event that the program handled, and what its scratch buffer held at the start. */
  datatype Handled = Handled(event: Event, start: Contents)

  /** The value that is stored for a field. */
  function Value(h: Handled, f: Field): (v: seq<Byte>)
    requires Stores(h.event, f)
    ensures |v| == Slot(f)
  {
    if f == Command then StoredCommand(h.event.command, h.start) else Clean(h.event, f)
  }

  /** The buffer was zero past what the command overwrites. */
  predicate ClearPast(h: Handled)
    requires h.event.Create?
  {
    forall i :: Overwritten(h.event.command) <= i < |h.start| ==> h.start[i] == 0
  }

  /** What is stored is the process's own, zero-padded, if and only if it is not a command written over
      something else: the buffer's earlier contents never show in the other three fields. */
  lemma ValueIsClean(h: Handled, f: Field)
    requires Stores(h.event, f)
    ensures Value(h, f) == Clean(h.event, f) <==> f != Command || ClearPast(h)
  {
    CommandIsClean(h.event, h.start);
  }

  /** The stored values in bytes: a command shorter than 65520 over what the buffer held; a path of up to
      1023 padded to 1024, a longer one as zeros; a name of up to 62 padded to 64, a domain of up to 510 padded
      to 512, longer ones not at all. */
  lemma StoredInBytes(h: Handled)
    requires h.event.Create?
    ensures var e := h.event;
            && Stores(e, Command) && (|e.command| < 65520 ==> Value(h, Command) == e.command + h.start[|e.command|..])
            && (|e.command| >= 65520 ==> Value(h, Command) == Zeros(65519) + h.start[65519..])
            && Stores(e, Image)
            && Value(h, Image) == (if |e.image| <= 1023 then e.image + Zeros(1024 - |e.image|) else Zeros(1024))
            && (Stores(e, Name) <==> e.account.Known? && |e.account.name| <= 62)
            && (Stores(e, Name) ==> Value(h, Name) == e.account.name + Zeros(64 - |e.account.name|))
            && (Stores(e, Domain) <==> e.account.Known? && |e.account.domain| <= 510)
            && (Stores(e, Domain) ==> Value(h, Domain) == e.account.domain + Zeros(512 - |e.account.domain|))
  {
  }

  /** The reference: the value of a field for `pid` after a history of events is the one that the
      latest process with that id to store the field stored. */
  function Latest(history: seq<Handled>, f: Field, pid: Pid): Option<seq<Byte>> {
    if history == [] then None
    else
      var n := |history| - 1;
      if history[n].event.pid == pid && Stores(history[n].event, f) then Some(Value(history[n], f))
      else Latest(history[..n], f, pid)
  }

  lemma LatestSnoc(history: seq<Handled>, h: Handled, f: Field, pid: Pid)
    ensures Latest(history + [h], f, pid)
      == if h.event.pid == pid && Stores(h.event, f) then Some(Value(h, f)) else Latest(history, f, pid)
  {
    assert (history + [h])[..|history|] == history;
  }

  /** The latest value belongs to a process with that id, all of it, and no later process with that
      id stored the field. */
  lemma {:induction false} LatestIsOwn(history: seq<Handled>, f: Field, pid: Pid) returns (i: nat)
    requires Latest(history, f, pid).Some?
    ensures i < |history| && history[i].event.pid == pid && Stores(history[i].event, f)
    ensures Latest(history, f, pid) == Some(Value(history[i], f))
    ensures forall j :: i < j < |history| && history[j].event.pid == pid ==> !Stores(history[j].event, f)
  {
    var n := |history| - 1;
    if history[n].event.pid == pid && Stores(history[n].event, f) {
      return n;
    }
    i := LatestIsOwn(history[..n], f, pid);
    assert forall j :: 0 <= j < n ==> history[..n][j] == history[j];
  }

  /** A field's map after a history, updated in turn by every event that stores the field. */
  function Replay(evict: Evictions, history: seq<Handled>, f: Field): Lru {
    if history == [] then EmptyLru
    else
      var n := |history| - 1;
      var before := Replay(evict, history[..n], f);
      if Stores(history[n].event, f)
      then Updated(before, evict(f, before.updates), history[n].event.pid, Value(history[n], f))
      else before
  }

  lemma ReplaySnoc(evict: Evictions, history: seq<Handled>, h: Handled, f: Field)
    ensures var before := Replay(evict, history, f);
            Replay(evict, history + [h], f) ==
              if Stores(h.event, f) then Updated(before, evict(f, before.updates), h.event.pid, Value(h, f)) else before
  {
    assert (history + [h])[..|history|] == history;
  }

  /** The entry was evicted by an update since the latest process with that id stored it. */
  predicate Evicted(evict: Evictions, history: seq<Handled>, f: Field, pid: Pid) {
    history != [] &&
    var n := |history| - 1;
    if !Stores(history[n].event, f) then Evicted(evict, history[..n], f, pid)
    else history[n].event.pid != pid &&
         (pid in evict(f, Replay(evict, history[..n], f).updates) || Evicted(evict, history[..n], f, pid))
  }

  /** A map shows exactly the latest value that was stored for an id, unless it was evicted since. */
  lemma {:induction false} ReplayIsLatest(evict: Evictions, history: seq<Handled>, f: Field, pid: Pid)
    ensures var m := Replay(evict, history, f).entries;
            && (pid in m <==> Latest(history, f, pid).Some? && !Evicted(evict, history, f, pid))
            && (pid in m ==> Latest(history, f, pid) == Some(m[pid]))
  {
    if history != [] {
      ReplayIsLatest(evict, history[..|history| - 1], f, pid);
    }
  }

  lemma {:induction false} NeverEvicted(evict: Evictions, history: seq<Handled>, f: Field, pid: Pid)
    requires forall k :: pid !in evict(f, k)
    ensures !Evicted(evict, history, f, pid)
  {
    if history != [] {
      NeverEvicted(evict, history[..|history| - 1], f, pid);
    }
  }

  method StoreCommandField(evict: Evictions, l: Lru, buffer: array<Byte>, e: Event, ghost history: seq<Handled>)
    returns (l': Lru)
    requires e.Create? && Bounded(e) && buffer.Length == COMMAND_SCRATCH_SIZE && l == Replay(evict, history, Command)
    modifies buffer
    ensures l' == Replay(evict, history + [Handled(e, old(buffer[..]))], Command)
  {
    ReplaySnoc(evict, history, Handled(e, buffer[..]), Command);
    var value := StoreCommand(buffer, e.command);
    l' := Updated(l, evict(Command, l.updates), e.pid, value);
  }

  method StoreImagePath(evict: Evictions, l: Lru, buffer: array<Byte>, e: Event, ghost history: seq<Handled>,
                        ghost start: Contents)
    returns (l': Lru)
    requires e.Create? && Bounded(e) && buffer.Length == COMMAND_SCRATCH_SIZE && l == Replay(evict, history, Image)
    modifies buffer
    ensures l' == Replay(evict, history + [Handled(e, start)], Image)
    ensures buffer[..] == Filled(e, Image, COMMAND_SCRATCH_SIZE) + old(buffer[..])[COMMAND_SCRATCH_SIZE..]
  {
    ReplaySnoc(evict, history, Handled(e, start), Image);
    var _, value := Fetch(buffer, e, Image, COMMAND_SCRATCH_SIZE);
    l' := Updated(l, evict(Image, l.updates), e.pid, value);
  }

  method StoreAccountField(evict: Evictions, l: Lru, buffer: array<Byte>, e: Event, f: Field, ghost history: seq<Handled>,
                           ghost start: Contents)
    returns (l': Lru)
    requires e.Create? && Bounded(e) && buffer.Length == COMMAND_SCRATCH_SIZE
    requires (f == Name || f == Domain) && l == Replay(evict, history, f)
    modifies buffer
    ensures l' == Replay(evict, history + [Handled(e, start)], f)
    ensures buffer[..] == Filled(e, f, Slot(f)) + old(buffer[..])[Slot(f)..]
  {
    l' := l;
    ReplaySnoc(evict, history, Handled(e, start), f);
    var r, value := Fetch(buffer, e, f, Slot(f));
    if r >= 0 {
      l' := Updated(l, evict(f, l.updates), e.pid, value);
    }
  }

  class Maps {
    const evict: Evictions
    var command: Lru
    var image: Lru
    var name: Lru
    var domain: Lru
    ghost var history: seq<Handled>

    constructor (evict: Evictions)
      ensures this.evict == evict && Valid() && history == []
    {
      this.evict := evict;
      command, image, name, domain, history := EmptyLru, EmptyLru, EmptyLru, EmptyLru, [];
    }

    function Of(f: Field): Lru
      reads this
    {
      match f
      case Command => command
      case Image => image
      case Name => name
      case Domain => domain
    }

    /** Every map is what the history makes of it. */
    ghost predicate Valid()
      reads this
    {
      && command == Replay(evict, history, Command) && image == Replay(evict, history, Image)
      && name == Replay(evict, history, Name) && domain == Replay(evict, history, Domain)
    }

    /** The program.  A new process is handled unless its thread gets no scratch space, and then nothing
        changes.  The start of its scratch buffer is zero for every key but 0; with key 0 it is what
        the previous one left in the slot of that CPU, and this one leaves its own. */
    method ProcessMonitor(scratch: Scratch, a: Arrival, ghost slots: seq<Contents>) returns (handled: bool)
      requires Valid() && scratch.Holds(slots) && a.cpu < |slots| && Bounded(a.event)
      modifies this, scratch, scratch.temps[a.cpu]
      ensures Valid() && scratch.Holds(SlotsNext(a, slots))
      ensures scratch.requests == old(scratch.requests) + if NeedsSpace(a) then 1 else 0
      ensures handled <==> !NeedsSpace(a) || scratch.grants(old(scratch.requests))
      ensures !handled ==> unchanged(this)
      ensures handled ==> history == old(history) + [Handled(a.event, StartOf(a, slots))]
    {
      handled := true;
      if a.event.Create? {
        var buffer := scratch.Get(a.cpu, a.key);
        if buffer == null {
          return false;
        }
        StoreAll(buffer, a.event);
      } else {
        Skip(a.event);
      }
    }

    ghost method Skip(e: Event)
      requires Valid() && !e.Create?
      modifies this`history
      ensures Valid() && history == old(history) + [Handled(e, Zeros(COMMAND_SCRATCH_SIZE))]
    {
      var h := Handled(e, Zeros(COMMAND_SCRATCH_SIZE));
      ReplaySnoc(evict, history, h, Command);
      ReplaySnoc(evict, history, h, Image);
      ReplaySnoc(evict, history, h, Name);
      ReplaySnoc(evict, history, h, Domain);
      history := history + [h];
    }

    method StoreAll(buffer: array<Byte>, e: Event)
      requires Valid() && e.Create? && Bounded(e) && buffer.Length == COMMAND_SCRATCH_SIZE
      modifies this, buffer
      ensures Valid() && history == old(history) + [Handled(e, old(buffer[..]))]
      ensures buffer[..] == Leftover(e)
    {
      ghost var start := buffer[..];
      command := StoreCommandField(evict, command, buffer, e, history);
      ghost var b0 := buffer[..];
      image := StoreImagePath(evict, image, buffer, e, history, start);
      ghost var b1 := buffer[..];
      name := StoreAccountField(evict, name, buffer, e, Name, history, start);
      ghost var b2 := buffer[..];
      domain := StoreAccountField(evict, domain, buffer, e, Domain, history, start);
      LeftoverIs(e, b0, b1, b2, buffer[..]);
      history := history + [Handled(e, start)];
    }
  }

  // ----- Runs -----

  /** An event on a CPU, on a thread with that key. */
  datatype Arrival = Arrival(cpu: nat, key: nat, event: Event)

  /** The event asks for a scratch space of the thread's own. */
  predicate NeedsSpace(a: Arrival) { a.event.Create? && a.key != 0 }

  function Requests(arrivals: seq<Arrival>): nat {
    if arrivals == [] then 0
    else Requests(arrivals[..|arrivals| - 1]) + if NeedsSpace(arrivals[|arrivals| - 1]) then 1 else 0
  }

  /** Which of the arrivals are handled: all but those whose request for a scratch space is turned down. */
  predicate HandledAre(arrivals: seq<Arrival>, handled: seq<bool>, grants: nat -> bool, requests: nat) {
    && |handled| == |arrivals|
    && (arrivals != [] ==>
          var n := |arrivals| - 1;
          && HandledAre(arrivals[..n], handled[..n], grants, requests)
          && (handled[n] <==> !NeedsSpace(arrivals[n]) || grants(requests + Requests(arrivals[..n]))))
  }

  /** The per-CPU slots after an event. */
  function SlotsNext(a: Arrival, slots: seq<Contents>): (r: seq<Contents>)
    requires a.cpu < |slots|
    ensures |r| == |slots|
  {
    if a.key == 0 && a.event.Create? then slots[a.cpu := Leftover(a.event)] else slots
  }

  /** What an event finds in its scratch buffer, if it uses one. */
  function StartOf(a: Arrival, slots: seq<Contents>): Contents
    requires a.cpu < |slots|
  {
    if a.key == 0 && a.event.Create? then slots[a.cpu] else Zeros(COMMAND_SCRATCH_SIZE)
  }

  predicate OnCpus(arrivals: seq<Arrival>, cpus: nat) { forall i :: 0 <= i < |arrivals| ==> arrivals[i].cpu < cpus }

  function SlotsAfter(arrivals: seq<Arrival>, slots: seq<Contents>): (r: seq<Contents>)
    requires OnCpus(arrivals, |slots|)
    ensures |r| == |slots|
  {
    if arrivals == [] then slots else SlotsNext(arrivals[|arrivals| - 1], SlotsAfter(arrivals[..|arrivals| - 1], slots))
  }

  /** The history entry of the n-th arrival, if it is handled. */
  function EntryAt(arrivals: seq<Arrival>, n: nat, slots: seq<Contents>): Handled
    requires n < |arrivals| && OnCpus(arrivals, |slots|)
  {
    Handled(arrivals[n].event, StartOf(arrivals[n], SlotsAfter(arrivals[..n], slots)))
  }

  /** The history that the arrivals make, of which those in `handled` were handled. */
  function HistoryOf(arrivals: seq<Arrival>, handled: seq<bool>, slots: seq<Contents>): seq<Handled>
    requires |handled| == |arrivals| && OnCpus(arrivals, |slots|)
  {
    if arrivals == [] then []
    else
      var n := |arrivals| - 1;
      HistoryOf(arrivals[..n], handled[..n], slots) + if handled[n] then [EntryAt(arrivals, n, slots)] else []
  }

  lemma OneMore(arrivals: seq<Arrival>, handled: seq<bool>, n: nat, h: bool, slots: seq<Contents>,
                grants: nat -> bool, requests: nat)
    requires n < |arrivals| && OnCpus(arrivals, |slots|) && HandledAre(arrivals[..n], handled, grants, requests)
    requires h <==> !NeedsSpace(arrivals[n]) || grants(requests + Requests(arrivals[..n]))
    ensures HandledAre(arrivals[..n + 1], handled + [h], grants, requests)
    ensures HistoryOf(arrivals[..n + 1], handled + [h], slots) ==
              HistoryOf(arrivals[..n], handled, slots) + if h then [EntryAt(arrivals, n, slots)] else []
    ensures SlotsAfter(arrivals[..n + 1], slots) == SlotsNext(arrivals[n], SlotsAfter(arrivals[..n], slots))
    ensures Requests(arrivals[..n + 1]) == Requests(arrivals[..n]) + if NeedsSpace(arrivals[n]) then 1 else 0
  {
    assert arrivals[..n + 1][..n] == arrivals[..n] && (handled + [h])[..n] == handled;
  }

  /** Any sequence of events on any CPUs and threads: the maps are exactly what the history that the
      events make and the evictions make of them, whatever was in the scratch buffers, and an event is
      left out only because its thread got no scratch space. */
  method Run(maps: Maps, scratch: Scratch, arrivals: seq<Arrival>, ghost slots: seq<Contents>) returns (handled: seq<bool>)
    requires maps.Valid() && scratch.Holds(slots) && OnCpus(arrivals, |slots|)
    requires forall i :: 0 <= i < |arrivals| ==> Bounded(arrivals[i].event)
    modifies maps, scratch, scratch.temps
    ensures maps.Valid() && HandledAre(arrivals, handled, scratch.grants, old(scratch.requests))
    ensures maps.history == old(maps.history) + HistoryOf(arrivals, handled, slots)
    ensures scratch.Holds(SlotsAfter(arrivals, slots))
    ensures scratch.requests == old(scratch.requests) + Requests(arrivals)
  {
    handled := [];
    ghost var before, requests := maps.history, scratch.requests;
    for i := 0 to |arrivals|
      invariant maps.Valid() && HandledAre(arrivals[..i], handled, scratch.grants, requests)
      invariant maps.history == before + HistoryOf(arrivals[..i], handled, slots)
      invariant scratch.Holds(SlotsAfter(arrivals[..i], slots))
      invariant scratch.requests == requests + Requests(arrivals[..i])
    {
      var h := maps.ProcessMonitor(scratch, arrivals[i], SlotsAfter(arrivals[..i], slots));
      OneMore(arrivals, handled, i, h, slots, scratch.grants, requests);
      Associate(before, HistoryOf(arrivals[..i], handled, slots), if h then [EntryAt(arrivals, i, slots)] else []);
      handled := handled + [h];
    }
    assert arrivals[..|arrivals|] == arrivals;
  }

  /** How many of the first `j` arrivals were handled: the place of the j-th one in the history. */
  function Place(handled: seq<bool>, j: nat): nat
    requires j <= |handled|
  {
    if j == 0 then 0 else Place(handled, j - 1) + if handled[j - 1] then 1 else 0
  }

  lemma {:induction false} PlacePrefix(handled: seq<bool>, n: nat, j: nat)
    requires j <= n <= |handled|
    ensures Place(handled[..n], j) == Place(handled, j)
  {
    if j > 0 {
      PlacePrefix(handled, n, j - 1);
    }
  }

  lemma {:induction false} HistorySize(arrivals: seq<Arrival>, handled: seq<bool>, slots: seq<Contents>)
    requires |handled| == |arrivals| && OnCpus(arrivals, |slots|)
    ensures |HistoryOf(arrivals, handled, slots)| == Place(handled, |handled|)
    decreases |arrivals|
  {
    if arrivals != [] {
      var n := |arrivals| - 1;
      HistorySize(arrivals[..n], handled[..n], slots);
      PlacePrefix(handled, n, n);
    }
  }

  /** A handled arrival is in the history, at its place. */
  lemma {:induction false} HistoryAt(arrivals: seq<Arrival>, handled: seq<bool>, slots: seq<Contents>, j: nat)
    requires |handled| == |arrivals| && OnCpus(arrivals, |slots|) && j < |arrivals| && handled[j]
    ensures var history := HistoryOf(arrivals, handled, slots);
            Place(handled, j) < |history| && history[Place(handled, j)] == EntryAt(arrivals, j, slots)
    decreases |arrivals|
  {
    var n := |arrivals| - 1;
    PlacePrefix(handled, n, j);
    if j < n {
      HistoryAt(arrivals[..n], handled[..n], slots, j);
      assert arrivals[..n][..j] == arrivals[..j];
    } else {
      HistorySize(arrivals[..n], handled[..n], slots);
    }
  }

  /** What comes later in the history arrived later. */
  lemma {:induction false} LaterArrived(arrivals: seq<Arrival>, handled: seq<bool>, slots: seq<Contents>, j: nat, i: nat)
    returns (k: nat)
    requires |handled| == |arrivals| && OnCpus(arrivals, |slots|) && j < |arrivals| && handled[j]
    requires Place(handled, j) < i < |HistoryOf(arrivals, handled, slots)|
    ensures j < k < |arrivals| && handled[k] && HistoryOf(arrivals, handled, slots)[i].event == arrivals[k].event
    decreases |arrivals|
  {
    var n := |arrivals| - 1;
    HistorySize(arrivals, handled, slots);
    HistorySize(arrivals[..n], handled[..n], slots);
    PlacePrefix(handled, n, n);
    if i < |HistoryOf(arrivals[..n], handled[..n], slots)| {
      PlacePrefix(handled, n, j);
      assert j < n;
      k := LaterArrived(arrivals[..n], handled[..n], slots, j, i);
    } else {
      k := n;
    }
  }

  /** On a thread whose scratch space gets cleared, every value that is stored is the field's own bytes,
      zero-padded, or zeros, whatever other threads do: never bytes of another field or process. */
  lemma ClearedMeansClean(arrivals: seq<Arrival>, handled: seq<bool>, slots: seq<Contents>, j: nat, f: Field)
    requires |handled| == |arrivals| && OnCpus(arrivals, |slots|) && j < |arrivals| && handled[j] && arrivals[j].key != 0
    ensures Place(handled, j) < |HistoryOf(arrivals, handled, slots)|
    ensures var h := HistoryOf(arrivals, handled, slots)[Place(handled, j)];
            h.event == arrivals[j].event && (Stores(h.event, f) ==> Value(h, f) == Clean(h.event, f))
  {
    HistoryAt(arrivals, handled, slots, j);
    var h := EntryAt(arrivals, j, slots);
    if Stores(h.event, f) {
      ValueIsClean(h, f);
    }
  }

  /** Two new processes one after the other on one CPU, on threads with key 0: the second one's command
      is stored clean exactly if the first one left nothing past it. */
  method TwoAtKeyZero(maps: Maps, scratch: Scratch, cpu: nat, e1: Event, e2: Event, ghost slots: seq<Contents>)
    requires maps.Valid() && scratch.Holds(slots) && cpu < |slots|
    requires e1.Create? && e2.Create? && Bounded(e1) && Bounded(e2)
    modifies maps, scratch, scratch.temps[cpu]
    ensures e2.pid in maps.command.entries
    ensures maps.command.entries[e2.pid] == Clean(e2, Command) <==>
            forall i :: Overwritten(e2.command) <= i < COMMAND_SCRATCH_SIZE ==> Leftover(e1)[i] == 0
  {
    var a1, a2 := Arrival(cpu, 0, e1), Arrival(cpu, 0, e2);
    var _ := maps.ProcessMonitor(scratch, a1, slots);
    ghost var history := maps.history;
    var _ := maps.ProcessMonitor(scratch, a2, SlotsNext(a1, slots));
    ReplaySnoc(maps.evict, history, Handled(e2, Leftover(e1)), Command);
    ValueIsClean(Handled(e2, Leftover(e1)), Command);
  }

  /** An image path of more than 512 bytes and then an empty command: the second process's command is
      not its own. */
  method CommandShowsImagePath(maps: Maps, scratch: Scratch, cpu: nat, ghost slots: seq<Contents>) returns (e2: Event)
    requires maps.Valid() && scratch.Holds(slots) && cpu < |slots|
    modifies maps, scratch, scratch.temps[cpu]
    ensures e2.Create? && e2.command == [] && e2.pid in maps.command.entries
    ensures maps.command.entries[e2.pid] != Clean(e2, Command)
  {
    var e1 := Create(1, [], seq(514, _ => 65), Missing);
    e2 := Create(2, [], [], Missing);
    assert Leftover(e1)[512] == 65;
    TwoAtKeyZero(maps, scratch, cpu, e1, e2, slots);
  }
}
