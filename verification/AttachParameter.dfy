/** Compatibility of attach parameters: a wild-card client attaches alone, others attach once per
    parameter. */
module AttachParameter {
  import opened Common
  import opened ListRing

  type Bytes = seq<nat>

  /** The client data of an attached client; NULL data stands for the wild card. */
  datatype ClientData = NullData | Data(bytes: Bytes)

  datatype CheckResult = Success | AccessDenied

  /** The parameter a client is attached under: what memcmp sees of it. */
  function Effective(data: ClientData, wildcard: Bytes, size: nat): Bytes
    requires size <= |wildcard| && (data.Data? ==> size <= |data.bytes|)
  {
    if data.NullData? then wildcard[..size] else data.bytes[..size]
  }

  ghost predicate LongEnough(s: seq<ListEntry<ClientData>>, size: nat) {
    forall i :: 0 <= i < |s| ==> (s[i].record.Data? ==> size <= |s[i].record.bytes|)
  }

  /** The effective parameters of the attached clients, in attach order. */
  ghost function Parameters(s: seq<ListEntry<ClientData>>, wildcard: Bytes, size: nat): (p: seq<Bytes>)
    requires size <= |wildcard| && LongEnough(s, size)
  {
    seq(|s|, i requires 0 <= i < |s| => Effective(s[i].record, wildcard, size))
  }

  /** A wild card joins nobody; anything else joins neither a wild card nor its like. */
  predicate Compatible(attached: seq<Bytes>, p: Bytes, wildcard: Bytes) {
    if p == wildcard then attached == [] else wildcard !in attached && p !in attached
  }

  /** The client has data of its own, and it differs from the parameter and from the wild card. */
  predicate Differs(data: ClientData, parameter: Bytes, wildcard: Bytes, size: nat)
    requires size <= |parameter| && size <= |wildcard| && (data.Data? ==> size <= |data.bytes|)
  {
    data.Data? && data.bytes[..size] != parameter[..size] && data.bytes[..size] != wildcard[..size]
  }

  lemma DiffersIs(s: seq<ListEntry<ClientData>>, parameter: Bytes, wildcard: Bytes, size: nat)
    requires size <= |parameter| && size <= |wildcard| && LongEnough(s, size)
    ensures var attached := Parameters(s, wildcard, size);
            && (wildcard[..size] !in attached && parameter[..size] !in attached <==>
                  forall i :: 0 <= i < |s| ==> Differs(s[i].record, parameter, wildcard, size))
            && ((exists i :: 0 <= i < |s| && s[i].record.NullData?) ==> wildcard[..size] in attached)
  {
    var attached := Parameters(s, wildcard, size);
    forall i | 0 <= i < |s|
      ensures Differs(s[i].record, parameter, wildcard, size) <==> attached[i] != wildcard[..size] && attached[i] != parameter[..size]
    {
    }
    if i :| 0 <= i < |s| && s[i].record.NullData? {
      assert attached[i] == wildcard[..size];
    }
  }

  /** ebpf_extension_hook_check_attach_parameter. */
  method CheckAttachParameter(size: nat, parameter: Bytes, wildcard: Bytes,
                              head: ListEntry<ClientData>, ghost s: seq<ListEntry<ClientData>>)
    returns (result: CheckResult)
    requires size <= |parameter| && size <= |wildcard|
    requires Ring(head, s) && LongEnough(s, size)
    ensures result.Success? <==> Compatible(Parameters(s, wildcard, size), parameter[..size], wildcard[..size])
    ensures (exists i :: 0 <= i < |s| && s[i].record.NullData?) ==> result.AccessDenied?
    ensures parameter[..size] == wildcard[..size] ==> (result.Success? <==> s == [])
    ensures parameter[..size] != wildcard[..size] ==>
              (result.Success? <==> forall i :: 0 <= i < |s| ==> Differs(s[i].record, parameter, wildcard, size))
  {
    ghost var attached := Parameters(s, wildcard, size);
    DiffersIs(s, parameter, wildcard, size);
    if parameter[..size] == wildcard[..size] {
      var empty := IsEmpty(head, s);
      return if empty then Success else AccessDenied;
    }
    assert Linked(Node(head, s, 0), Node(head, s, 1));
    var link := head.flink;
    ghost var k := 0;
    while link != head
      invariant 0 <= k <= |s| && link == Node(head, s, k + 1)
      invariant wildcard[..size] !in attached[..k] && parameter[..size] !in attached[..k]
      decreases |s| - k
    {
      var next := Effective(link.record, wildcard, size);
      assert attached[k] == next && attached[..k + 1] == attached[..k] + [next];
      if wildcard[..size] == next || parameter[..size] == next {
        return AccessDenied;
      }
      assert Linked(Node(head, s, k + 1), Node(head, s, k + 2));
      link := link.flink;
      k := k + 1;
    }
    assert attached[..k] == attached;
    return Success;
  }

  // ------------------------------------------------------------------ runs of gated attaches and detaches

  /** Pairwise distinct, and a wild card is alone. */
  ghost predicate Exclusive(attached: seq<Bytes>, wildcard: Bytes) {
    && (forall i, j :: 0 <= i < j < |attached| ==> attached[i] != attached[j])
    && (wildcard in attached ==> |attached| == 1)
  }

  /** The gate is exact: it admits a client if and only if exclusion survives the insertion. */
  lemma GateIsExact(attached: seq<Bytes>, p: Bytes, wildcard: Bytes)
    requires Exclusive(attached, wildcard)
    ensures Compatible(attached, p, wildcard) <==> Exclusive(attached + [p], wildcard)
  {
    var t := attached + [p];
    assert t[|attached|] == p;
    if Exclusive(t, wildcard) {
      forall q | q in attached ensures q != p {
        var i :| 0 <= i < |attached| && attached[i] == q;
        assert t[i] != t[|attached|];
      }
    }
  }

  /** One event: an attach that passes the gate or is denied, or a detach. */
  datatype Event = Attach(parameter: Bytes) | Detach(index: nat)

  function Step(attached: seq<Bytes>, event: Event, wildcard: Bytes): seq<Bytes> {
    match event
    case Attach(p) => if Compatible(attached, p, wildcard) then attached + [p] else attached
    case Detach(i) => if i < |attached| then Without(attached, i) else attached
  }

  function Run(attached: seq<Bytes>, events: seq<Event>, wildcard: Bytes): seq<Bytes>
    decreases |events|
  {
    if events == [] then attached else Run(Step(attached, events[0], wildcard), events[1..], wildcard)
  }

  lemma StepKeepsExclusion(attached: seq<Bytes>, event: Event, wildcard: Bytes)
    requires Exclusive(attached, wildcard)
    ensures Exclusive(Step(attached, event, wildcard), wildcard)
  {
    match event
    case Attach(p) => GateIsExact(attached, p, wildcard);
    case Detach(i) =>
  }

  lemma {:induction false} RunKeepsExclusion(attached: seq<Bytes>, events: seq<Event>, wildcard: Bytes)
    requires Exclusive(attached, wildcard)
    ensures Exclusive(Run(attached, events, wildcard), wildcard)
    decreases |events|
  {
    if events != [] {
      StepKeepsExclusion(attached, events[0], wildcard);
      RunKeepsExclusion(Step(attached, events[0], wildcard), events[1..], wildcard);
    }
  }

  /** However clients attach through the gate and detach, the attached parameters are pairwise
      distinct and a wild-card client is alone. */
  lemma ExclusionForever(events: seq<Event>, wildcard: Bytes)
    ensures Exclusive(Run([], events, wildcard), wildcard)
  {
    RunKeepsExclusion([], events, wildcard);
  }

  /** An attach gated by the check: it performs one `Step` of the run on the ring itself. */
  method AttachGated(size: nat, wildcard: Bytes, head: ListEntry<ClientData>, entry: ListEntry<ClientData>,
                     ghost s: seq<ListEntry<ClientData>>)
    returns (result: CheckResult, ghost s': seq<ListEntry<ClientData>>)
    requires size <= |wildcard| && Ring(head, s) && LongEnough(s, size)
    requires entry.record.Data? ==> size <= |entry.record.bytes|
    requires entry != head && entry !in s
    modifies head, entry, head.blink
    ensures Ring(head, s') && LongEnough(s', size)
    ensures s' == if result.Success? then s + [entry] else s
    ensures entry.record.NullData? ==> (result.Success? <==> s == [])
    ensures (exists i :: 0 <= i < |s| && s[i].record.NullData?) ==> result.AccessDenied?
    ensures Parameters(s', wildcard, size) ==
            Step(Parameters(s, wildcard, size), Attach(Effective(entry.record, wildcard, size)), wildcard[..size])
  {
    var parameter := Effective(entry.record, wildcard, size);
    result := CheckAttachParameter(size, parameter, wildcard, head, s);
    assert parameter[..size] == parameter;
    s' := s;
    if result.Success? {
      InsertTail(head, entry, s);
      s' := s + [entry];
      assert Parameters(s', wildcard, size) == Parameters(s, wildcard, size) + [parameter];
    }
  }

  /** A detach is a step of the run, too. */
  method DetachGated(size: nat, wildcard: Bytes, entry: ListEntry<ClientData>,
                     ghost head: ListEntry<ClientData>, ghost s: seq<ListEntry<ClientData>>, ghost k: nat)
    requires size <= |wildcard| && Ring(head, s) && LongEnough(s, size) && k < |s| && s[k] == entry
    modifies entry.flink, entry.blink
    ensures Ring(head, Without(s, k)) && LongEnough(Without(s, k), size)
    ensures Parameters(Without(s, k), wildcard, size) == Step(Parameters(s, wildcard, size), Detach(k), wildcard[..size])
  {
    var _ := RemoveEntry(entry, head, s, k);
  }
}
