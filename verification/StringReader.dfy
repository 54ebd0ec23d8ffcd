/** The user-mode reader of the monitor's maps: the bytes of a map value become a string again. */
module StringReader {
  import opened Common
  import opened KernelPool
  import opened MonitorProgram

  newtype Unit = x: int | 0 <= x < 0x1_0000

  const SPAN_SIZE: nat := 65536
  const REPLACEMENT: Unit := 0xFFFD

  // ----- UTF-16, little-endian -----

  function Encode(s: seq<Unit>): (b: seq<Byte>)
    ensures |b| == 2 * |s|
  {
    if s == [] then [] else [(s[0] % 256) as Byte, (s[0] / 256) as Byte] + Encode(s[1..])
  }

  function Units(b: seq<Byte>): (s: seq<Unit>)
    ensures |s| == |b| / 2
  {
    if |b| < 2 then [] else [b[0] as Unit + 256 * b[1] as Unit] + Units(b[2..])
  }

  predicate High(u: Unit) { 0xD800 <= u < 0xDC00 }

  predicate Low(u: Unit) { 0xDC00 <= u < 0xE000 }

  /** A surrogate at `i` has its other half beside it. */
  predicate PairedAt(s: seq<Unit>, i: nat)
    requires i < |s|
  {
    && (High(s[i]) ==> i + 1 < |s| && Low(s[i + 1]))
    && (Low(s[i]) ==> 0 < i && High(s[i - 1]))
  }

  predicate WellFormed(s: seq<Unit>) { forall i :: 0 <= i < |s| ==> PairedAt(s, i) }

  /** Encoding.Unicode's decoder: an unpaired surrogate is replaced. */
  function Decode(s: seq<Unit>): (r: seq<Unit>)
    ensures |r| == |s|
  {
    if s == [] then []
    else if |s| > 1 && High(s[0]) && Low(s[1]) then s[..2] + Decode(s[2..])
    else [if High(s[0]) || Low(s[0]) then REPLACEMENT else s[0]] + Decode(s[1..])
  }

  function TrimStart(s: seq<Unit>): (r: seq<Unit>)
    ensures |r| <= |s| && (r == [] || r[0] != 0)
    ensures |r| == |s| ==> r == s
  {
    if s != [] && s[0] == 0 then TrimStart(s[1..]) else s
  }

  function TrimEnd(s: seq<Unit>): (r: seq<Unit>)
    ensures |r| <= |s| && (r == [] || r[|r| - 1] != 0)
    ensures |r| == |s| ==> r == s
  {
    if s != [] && s[|s| - 1] == 0 then TrimEnd(s[..|s| - 1]) else s
  }

  function Trim(s: seq<Unit>): seq<Unit> { TrimEnd(TrimStart(s)) }

  function NulUnits(n: nat): seq<Unit> { seq(n, _ => 0) }

  predicate NoNulAtEnds(s: seq<Unit>) { s == [] || (s[0] != 0 && s[|s| - 1] != 0) }

  // ----- Lemmas on the decoder -----

  lemma {:induction false} UnitsEncode(s: seq<Unit>)
    ensures Units(Encode(s)) == s
  {
    if s != [] {
      var b := Encode(s);
      assert b[2..] == Encode(s[1..]);
      UnitsEncode(s[1..]);
      assert b[0] as Unit + 256 * b[1] as Unit == s[0];
    }
  }

  lemma {:induction false} UnitsZeros(n: nat)
    ensures Units(Zeros(n)) == NulUnits(n / 2)
  {
    if n >= 2 {
      assert Zeros(n)[2..] == Zeros(n - 2);
      UnitsZeros(n - 2);
    }
  }

  lemma {:induction false} UnitsAppend(s: seq<Unit>, p: seq<Byte>)
    ensures Units(Encode(s) + p) == s + Units(p)
  {
    var b := Encode(s) + p;
    if s == [] {
      assert b == p;
    } else {
      assert b[2..] == Encode(s[1..]) + p;
      UnitsAppend(s[1..], p);
      assert b[0] as Unit + 256 * b[1] as Unit == s[0];
      Associate([s[0]], s[1..], Units(p));
    }
  }

  lemma UnitsPadded(s: seq<Unit>, n: nat)
    ensures Units(Encode(s) + Zeros(n)) == s + NulUnits(n / 2)
  {
    UnitsAppend(s, Zeros(n));
    UnitsZeros(n);
  }

  lemma {:induction false} DecodeNuls(n: nat)
    ensures Decode(NulUnits(n)) == NulUnits(n)
  {
    if n > 0 {
      assert NulUnits(n)[1..] == NulUnits(n - 1);
      DecodeNuls(n - 1);
    }
  }

  /** Padding neither completes nor breaks a surrogate pair. */
  lemma {:induction false} DecodePadded(s: seq<Unit>, p: seq<Unit>)
    requires p == [] || p[0] == 0
    ensures Decode(s + p) == Decode(s) + Decode(p)
  {
    var t := s + p;
    if s == [] {
      assert t == p;
    } else if |s| > 1 && High(s[0]) && Low(s[1]) {
      assert t[2..] == s[2..] + p && t[..2] == s[..2];
      DecodePadded(s[2..], p);
      Associate(s[..2], Decode(s[2..]), Decode(p));
    } else {
      assert t[1..] == s[1..] + p && t[0] == s[0];
      DecodePadded(s[1..], p);
      Associate([if High(s[0]) || Low(s[0]) then REPLACEMENT else s[0]], Decode(s[1..]), Decode(p));
    }
  }

  /** The rest of a string stays well formed when whole characters are taken off its front, and
      only then. */
  lemma WellFormedTail(s: seq<Unit>, k: nat)
    requires (k == 1 && |s| >= 1 && !High(s[0]) && !Low(s[0])) || (k == 2 && |s| >= 2 && High(s[0]) && Low(s[1]))
    ensures WellFormed(s) <==> WellFormed(s[k..])
  {
    var t := s[k..];
    if WellFormed(t) {
      forall i | 0 <= i < |s| ensures PairedAt(s, i) {
        if i >= k {
          assert PairedAt(t, i - k);
        }
      }
    }
    if WellFormed(s) {
      forall i | 0 <= i < |t| ensures PairedAt(t, i) {
        assert PairedAt(s, i + k);
      }
    }
  }

  /** Decoding changes nothing exactly for well-formed strings. */
  lemma {:induction false} DecodeIsExact(s: seq<Unit>)
    ensures Decode(s) == s <==> WellFormed(s)
  {
    if s == [] {
    } else if |s| > 1 && High(s[0]) && Low(s[1]) {
      DecodeIsExact(s[2..]);
      WellFormedTail(s, 2);
      assert s == s[..2] + s[2..];
    } else if High(s[0]) || Low(s[0]) {
      assert Decode(s)[0] == REPLACEMENT && !PairedAt(s, 0);
    } else {
      DecodeIsExact(s[1..]);
      WellFormedTail(s, 1);
      assert s == [s[0]] + s[1..];
    }
  }

  /** The decoder unit by unit: a surrogate whose other half is not beside it becomes U+FFFD, and nothing
      else changes. */
  lemma {:induction false} DecodeAt(s: seq<Unit>, i: nat)
    requires i < |s|
    ensures Decode(s)[i] ==
            if || (0xD800 <= s[i] <= 0xDBFF && !(i + 1 < |s| && 0xDC00 <= s[i + 1] <= 0xDFFF))
               || (0xDC00 <= s[i] <= 0xDFFF && !(0 < i && 0xD800 <= s[i - 1] <= 0xDBFF))
            then 0xFFFD else s[i]
  {
    if |s| > 1 && High(s[0]) && Low(s[1]) {
      if i >= 2 {
        DecodeAt(s[2..], i - 2);
      }
    } else if i >= 1 {
      DecodeAt(s[1..], i - 1);
    }
  }

  lemma {:induction false} TrimEndPadded(s: seq<Unit>, n: nat)
    ensures TrimEnd(s + NulUnits(n)) == TrimEnd(s)
  {
    var t := s + NulUnits(n);
    if n > 0 {
      assert t[..|t| - 1] == s + NulUnits(n - 1);
      TrimEndPadded(s, n - 1);
    } else {
      assert t == s;
    }
  }

  lemma {:induction false} TrimPadded(s: seq<Unit>, n: nat)
    ensures Trim(s + NulUnits(n)) == Trim(s)
  {
    var t := s + NulUnits(n);
    if s != [] && s[0] == 0 {
      assert t[1..] == s[1..] + NulUnits(n);
      TrimPadded(s[1..], n);
    } else if s != [] {
      assert TrimStart(t) == t;
      TrimEndPadded(s, n);
    } else {
      assert t == NulUnits(n);
      TrimNuls(n);
    }
  }

  lemma {:induction false} TrimNuls(n: nat)
    ensures TrimStart(NulUnits(n)) == []
  {
    if n > 0 {
      assert NulUnits(n)[1..] == NulUnits(n - 1);
      TrimNuls(n - 1);
    }
  }

  /** What the reader makes of the string `s`, padded to any size, is `s` itself exactly if `s` is
      well formed and has no NUL at either end. */
  lemma ReadBackIsExact(s: seq<Unit>, n: nat)
    ensures Trim(Decode(Units(Encode(s) + Zeros(n)))) == s <==> WellFormed(s) && NoNulAtEnds(s)
  {
    UnitsPadded(s, n);
    DecodePadded(s, NulUnits(n / 2));
    DecodeNuls(n / 2);
    TrimPadded(Decode(s), n / 2);
    DecodeIsExact(s);
    var d := Decode(s);
    if Trim(d) == s {
      assert |TrimStart(d)| == |d|;
      assert d == s;
    }
  }

  // ----- The reader -----

  /** A field of a process as the user sees it: empty if the map has no entry. */
  method GetUnicodeString(m: map<Pid, seq<Byte>>, pid: Pid) returns (s: seq<Unit>)
    requires pid in m ==> |m[pid]| <= SPAN_SIZE
    ensures pid !in m ==> s == []
    ensures pid in m ==> s == Trim(Decode(Units(m[pid] + Zeros(65536 - |m[pid]|))))
  {
    var span := new Byte[SPAN_SIZE](_ => 0);
    if pid !in m {
      return [];
    }
    var value := m[pid];
    forall i | 0 <= i < |value| {
      span[i] := value[i];
    }
    assert span[..] == value + Zeros(SPAN_SIZE - |value|);
    s := Trim(Decode(Units(span[..])));
  }

  /** The latest process with that id. */
  ghost predicate IsLatestCreate(history: seq<Handled>, pid: Pid, i: nat) {
    && i < |history| && history[i].event.Create? && history[i].event.pid == pid
    && forall j :: i < j < |history| ==> !(history[j].event.Create? && history[j].event.pid == pid)
  }

  lemma {:induction false} LatestCreateDecides(history: seq<Handled>, f: Field, pid: Pid, i: nat)
    requires IsLatestCreate(history, pid, i) && Stores(history[i].event, f)
    ensures Latest(history, f, pid) == Some(Value(history[i], f))
  {
    var n := |history| - 1;
    if i < n {
      assert IsLatestCreate(history[..n], pid, i);
      LatestCreateDecides(history[..n], f, pid, i);
    }
  }

  /** If the latest process with that id did not store the field, then whatever the map shows for the
      id is all of an earlier process's. */
  lemma OtherwiseEarlier(history: seq<Handled>, f: Field, pid: Pid, i: nat) returns (j: nat)
    requires IsLatestCreate(history, pid, i) && !Stores(history[i].event, f) && Latest(history, f, pid).Some?
    ensures j < i && history[j].event.pid == pid && Stores(history[j].event, f)
    ensures Latest(history, f, pid) == Some(Value(history[j], f))
  {
    j := LatestIsOwn(history, f, pid);
  }

  lemma PaddingAdds(b: seq<Byte>, m: nat, n: nat)
    ensures b + Zeros(m) + Zeros(n) == b + Zeros(m + n)
  {
  }

  /** A clean value that fits is read back exactly under the same condition. */
  lemma CleanReadsBack(e: Event, f: Field, s: seq<Unit>)
    requires Fits(e, f) && Own(e, f) == Encode(s)
    ensures Trim(Decode(Units(Clean(e, f) + Zeros(SPAN_SIZE - Slot(f))))) == s <==> WellFormed(s) && NoNulAtEnds(s)
  {
    PaddingAdds(Encode(s), Slot(f) - |Encode(s)|, SPAN_SIZE - Slot(f));
    ReadBackIsExact(s, SPAN_SIZE - |Encode(s)|);
  }

  /** From program to reader: unless it was evicted, the string a field had in the latest process with
      that id is read back, for every field that fits its slot and was stored from a clear buffer,
      exactly if it is well formed and has no NUL at either end. */
  method ReadField(maps: Maps, f: Field, pid: Pid, ghost i: nat, ghost original: seq<Unit>) returns (s: seq<Unit>)
    requires maps.Valid() && !Evicted(maps.evict, maps.history, f, pid)
    requires IsLatestCreate(maps.history, pid, i) && Fits(maps.history[i].event, f)
    requires f == Command ==> ClearPast(maps.history[i])
    requires Own(maps.history[i].event, f) == Encode(original)
    ensures s == original <==> WellFormed(original) && NoNulAtEnds(original)
  {
    s := Read(maps, f, pid);
    LatestCreateReadsBack(maps.history, f, pid, i, original);
  }

  /** What the reader makes of a stored value. */
  function Shown(value: Option<seq<Byte>>): seq<Unit>
    requires value.Some? ==> |value.value| <= SPAN_SIZE
  {
    if value.None? then [] else Trim(Decode(Units(value.value + Zeros(SPAN_SIZE - |value.value|))))
  }

  lemma {:induction false} LatestSize(history: seq<Handled>, f: Field, pid: Pid)
    ensures Latest(history, f, pid).Some? ==> |Latest(history, f, pid).value| == Slot(f)
  {
    if history != [] {
      LatestSize(history[..|history| - 1], f, pid);
    }
  }

  /** The reader shows the latest value that was stored, or nothing if it was evicted since. */
  method Read(maps: Maps, f: Field, pid: Pid) returns (s: seq<Unit>)
    requires maps.Valid()
    ensures Latest(maps.history, f, pid).Some? ==> |Latest(maps.history, f, pid).value| <= SPAN_SIZE
    ensures s == Shown(if Evicted(maps.evict, maps.history, f, pid) then None else Latest(maps.history, f, pid))
  {
    var m := maps.Of(f).entries;
    LatestSize(maps.history, f, pid);
    ReplayIsLatest(maps.evict, maps.history, f, pid);
    s := GetUnicodeString(m, pid);
  }

  lemma LatestCreateReadsBack(history: seq<Handled>, f: Field, pid: Pid, i: nat, original: seq<Unit>)
    requires IsLatestCreate(history, pid, i) && Fits(history[i].event, f) && (f == Command ==> ClearPast(history[i]))
    requires Own(history[i].event, f) == Encode(original)
    ensures Latest(history, f, pid).Some? && |Latest(history, f, pid).value| == Slot(f)
    ensures Shown(Latest(history, f, pid)) == original <==> WellFormed(original) && NoNulAtEnds(original)
  {
    LatestCreateDecides(history, f, pid, i);
    ValueIsClean(history[i], f);
    CleanReadsBack(history[i].event, f, original);
  }

  // ----- Whole runs -----

  /** The j-th arrival is the latest new process with that id that was handled. */
  predicate IsLatestArrival(arrivals: seq<Arrival>, handled: seq<bool>, pid: Pid, j: nat)
    requires |handled| == |arrivals|
  {
    && j < |arrivals| && handled[j] && arrivals[j].event.Create? && arrivals[j].event.pid == pid
    && forall k :: j < k < |arrivals| && handled[k] ==> !(arrivals[k].event.Create? && arrivals[k].event.pid == pid)
  }

  lemma LatestArrivalIsLatestCreate(arrivals: seq<Arrival>, handled: seq<bool>, slots: seq<Contents>, pid: Pid, j: nat)
    requires |handled| == |arrivals| && OnCpus(arrivals, |slots|) && IsLatestArrival(arrivals, handled, pid, j)
    ensures IsLatestCreate(HistoryOf(arrivals, handled, slots), pid, Place(handled, j))
    ensures HistoryOf(arrivals, handled, slots)[Place(handled, j)] == EntryAt(arrivals, j, slots)
  {
    var history := HistoryOf(arrivals, handled, slots);
    HistoryAt(arrivals, handled, slots, j);
    forall i | Place(handled, j) < i < |history| ensures !(history[i].event.Create? && history[i].event.pid == pid) {
      var k := LaterArrived(arrivals, handled, slots, j, i);
    }
  }

  /** What a run of arrivals makes of the string that a field of `pid` had. */
  predicate ReadsBack(arrivals: seq<Arrival>, handled: seq<bool>, f: Field, pid: Pid, j: nat, original: seq<Unit>, s: seq<Unit>)
    requires |handled| == |arrivals|
  {
    IsLatestArrival(arrivals, handled, pid, j) && Fits(arrivals[j].event, f) && Own(arrivals[j].event, f) == Encode(original)
    && (f == Command ==> arrivals[j].key != 0)
    ==> (s == original <==> WellFormed(original) && NoNulAtEnds(original))
  }

  lemma RunReadsBack(arrivals: seq<Arrival>, handled: seq<bool>, slots: seq<Contents>, f: Field, pid: Pid, j: nat,
                     original: seq<Unit>, s: seq<Unit>)
    requires |handled| == |arrivals| && OnCpus(arrivals, |slots|)
    requires Latest(HistoryOf(arrivals, handled, slots), f, pid).Some? ==>
               |Latest(HistoryOf(arrivals, handled, slots), f, pid).value| <= SPAN_SIZE
    requires s == Shown(Latest(HistoryOf(arrivals, handled, slots), f, pid))
    ensures ReadsBack(arrivals, handled, f, pid, j, original, s)
  {
    if IsLatestArrival(arrivals, handled, pid, j) && Fits(arrivals[j].event, f) && Own(arrivals[j].event, f) == Encode(original)
       && (f == Command ==> arrivals[j].key != 0) {
      LatestArrivalIsLatestCreate(arrivals, handled, slots, pid, j);
      LatestCreateReadsBack(HistoryOf(arrivals, handled, slots), f, pid, Place(handled, j), original);
    }
  }

  /** `original` is the field of a new process and within its limit in bytes: a command shorter than 65520
      on a thread whose scratch space gets cleared, a path of at most 1022, a name of at most 62, a domain of
      at most 510. */
  predicate InLimits(a: Arrival, f: Field, original: seq<Unit>)
    requires a.event.Create?
  {
    match f
    case Command => a.event.command == Encode(original) && 2 * |original| < 65520 && a.key != 0
    case Image => a.event.image == Encode(original) && 2 * |original| <= 1022
    case Name => a.event.account.Known? && a.event.account.name == Encode(original) && 2 * |original| <= 62
    case Domain => a.event.account.Known? && a.event.account.domain == Encode(original) && 2 * |original| <= 510
  }

  /** The same in bytes. */
  predicate RoundTrips(arrivals: seq<Arrival>, handled: seq<bool>, f: Field, pid: Pid, j: nat, original: seq<Unit>, s: seq<Unit>)
    requires |handled| == |arrivals|
  {
    IsLatestArrival(arrivals, handled, pid, j) && InLimits(arrivals[j], f, original)
    ==> (s == original <==> WellFormed(original) && NoNulAtEnds(original))
  }

  lemma RoundTripsOf(arrivals: seq<Arrival>, handled: seq<bool>, f: Field, pid: Pid, j: nat, original: seq<Unit>, s: seq<Unit>)
    requires |handled| == |arrivals| && ReadsBack(arrivals, handled, f, pid, j, original, s)
    ensures RoundTrips(arrivals, handled, f, pid, j, original, s)
  {
  }

  /** From the first event to the reader: new maps take any events on any CPUs and threads, and then a
      field of a process is read.  If that process's entry is never evicted, the string of the latest
      process with that id that was handled is read back, for every field that fits its slot, and for
      the command on a thread whose scratch space gets cleared, exactly if it is well formed and has no
      NUL at either end. */
  method RunAndRead(evict: Evictions, grants: nat -> bool, cpus: nat, arrivals: seq<Arrival>, f: Field, pid: Pid)
    returns (handled: seq<bool>, s: seq<Unit>)
    requires OnCpus(arrivals, cpus) && forall i :: 0 <= i < |arrivals| ==> Bounded(arrivals[i].event)
    ensures HandledAre(arrivals, handled, grants, 0)
    ensures (forall k :: pid !in evict(f, k)) ==> forall j, original :: ReadsBack(arrivals, handled, f, pid, j, original, s)
    ensures (forall k :: pid !in evict(f, k)) ==> forall j, original :: RoundTrips(arrivals, handled, f, pid, j, original, s)
  {
    var maps := new Maps(evict);
    var scratch := new Scratch(cpus, grants);
    ghost var slots := EmptySlots(cpus);
    handled := Run(maps, scratch, arrivals, slots);
    s := Read(maps, f, pid);
    assert maps.history == HistoryOf(arrivals, handled, slots);
    if forall k :: pid !in evict(f, k) {
      NeverEvicted(evict, maps.history, f, pid);
      forall j, original
        ensures ReadsBack(arrivals, handled, f, pid, j, original, s) && RoundTrips(arrivals, handled, f, pid, j, original, s)
      {
        RunReadsBack(arrivals, handled, slots, f, pid, j, original, s);
        RoundTripsOf(arrivals, handled, f, pid, j, original, s);
      }
    }
  }
}
