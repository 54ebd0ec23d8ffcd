/** The intrusive circular doubly linked list, at the level of its pointers. */
module ListRing {
  import opened Common

  /** A LIST_ENTRY.  `record` is the structure the entry is embedded in (CONTAINING_RECORD). */
  class ListEntry<T> {
    var flink: ListEntry<T>
    var blink: ListEntry<T>
    const record: T

    /** An entry on its own is an empty list head. */
    constructor (record: T)
      ensures this.record == record && Ring(this, [])
    {
      this.record := record;
      flink := this;
      blink := this;
    }
  }

  /** The i-th node met from the head, which is met again at the end. */
  function Node<T>(head: ListEntry<T>, s: seq<ListEntry<T>>, i: nat): ListEntry<T>
    requires i <= |s| + 1
  {
    if i == 0 || i == |s| + 1 then head else s[i - 1]
  }

  ghost predicate Linked<T>(a: ListEntry<T>, b: ListEntry<T>)
    reads a, b
  {
    a.flink == b && b.blink == a
  }

  /** The ring through `head` holds exactly the entries `s`, in this order, in both directions. */
  ghost predicate Ring<T>(head: ListEntry<T>, s: seq<ListEntry<T>>)
    reads {head} + set e | e in s
  {
    && head !in s
    && (forall i, j :: 0 <= i < j < |s| ==> s[i] != s[j])
    && (forall i :: 0 <= i <= |s| ==> Linked(Node(head, s, i), Node(head, s, i + 1)))
  }

  method Initialize<T>(head: ListEntry<T>)
    modifies head
    ensures Ring(head, [])
  {
    head.flink := head;
    head.blink := head;
  }

  method IsEmpty<T>(head: ListEntry<T>, ghost s: seq<ListEntry<T>>) returns (empty: bool)
    requires Ring(head, s)
    ensures empty <==> s == []
  {
    assert Linked(Node(head, s, 0), Node(head, s, 1));
    empty := head.flink == head;
  }

  method InsertTail<T>(head: ListEntry<T>, entry: ListEntry<T>, ghost s: seq<ListEntry<T>>)
    requires Ring(head, s) && entry != head && entry !in s
    modifies head, entry, head.blink
    ensures Ring(head, s + [entry])
  {
    ghost var t := s + [entry];
    assert Linked(Node(head, s, |s|), Node(head, s, |s| + 1));
    var previous := head.blink;
    entry.flink := head;
    entry.blink := previous;
    previous.flink := entry;
    head.blink := entry;
    forall i | 0 <= i <= |t| ensures Linked(Node(head, t, i), Node(head, t, i + 1)) {
      if i < |s| {
        assert old(Linked(Node(head, s, i), Node(head, s, i + 1)));
      }
    }
  }

  /** Removing an entry deletes exactly that entry and reports whether the list is now empty.  The
      entry's own links are left as they were. */
  method RemoveEntry<T>(entry: ListEntry<T>, ghost head: ListEntry<T>, ghost s: seq<ListEntry<T>>, ghost k: nat)
    returns (empty: bool)
    requires Ring(head, s) && k < |s| && s[k] == entry
    modifies entry.flink, entry.blink
    ensures Ring(head, Without(s, k))
    ensures empty <==> Without(s, k) == []
    ensures entry.flink == old(entry.flink) && entry.blink == old(entry.blink)
  {
    ghost var t := Without(s, k);
    assert Linked(Node(head, s, k), Node(head, s, k + 1)) && Linked(Node(head, s, k + 1), Node(head, s, k + 2));
    var next := entry.flink;
    var previous := entry.blink;
    previous.flink := next;
    next.blink := previous;
    forall i | 0 <= i <= |t| ensures Linked(Node(head, t, i), Node(head, t, i + 1)) {
      if i < k {
        assert old(Linked(Node(head, s, i), Node(head, s, i + 1)));
      } else if i > k {
        assert old(Linked(Node(head, s, i + 1), Node(head, s, i + 2)));
      }
    }
    empty := previous == next;
  }

  /** Removing the head entry takes the first entry, or returns the head of an empty list. */
  method RemoveHead<T>(head: ListEntry<T>, ghost s: seq<ListEntry<T>>) returns (removed: ListEntry<T>)
    requires Ring(head, s)
    modifies head, head.flink.flink
    ensures Ring(head, if s == [] then [] else s[1..])
    ensures removed == if s == [] then head else s[0]
  {
    assert Linked(Node(head, s, 0), Node(head, s, 1));
    if head.flink == head {
      return head;
    }
    assert Linked(Node(head, s, 1), Node(head, s, 2));
    removed := head.flink;
    head.flink := removed.flink;
    removed.flink.blink := head;
    ghost var t := s[1..];
    forall i | 0 <= i <= |t| ensures Linked(Node(head, t, i), Node(head, t, i + 1)) {
      if i > 0 {
        assert old(Linked(Node(head, s, i + 1), Node(head, s, i + 2)));
      }
    }
  }

  /** Appending a headless ring `t`, given by its first entry, concatenates. */
  method AppendTailList<T>(head: ListEntry<T>, first: ListEntry<T>,
                           ghost s: seq<ListEntry<T>>, ghost t: seq<ListEntry<T>>)
    requires Ring(head, s) && t != [] && t[0] == first && Ring(first, t[1..])
    requires head !in t && forall e :: e in s ==> e !in t
    modifies head, first, head.blink, first.blink
    ensures Ring(head, s + t)
  {
    ghost var u := s + t;
    forall i, j | 0 <= i < j < |u| ensures u[i] != u[j] {
      if i < |s| {
        assert u[i] in s && (j >= |s| ==> u[j] in t);
      } else if i == |s| {
        assert t[1..][j - |s| - 1] == u[j];
      } else {
        assert t[1..][i - |s| - 1] == u[i] && t[1..][j - |s| - 1] == u[j];
      }
    }
    assert Linked(Node(head, s, |s|), Node(head, s, |s| + 1));
    assert Linked(Node(first, t[1..], |t| - 1), Node(first, t[1..], |t|));
    var end := head.blink;
    head.blink.flink := first;
    head.blink := first.blink;
    first.blink.flink := head;
    first.blink := end;
    forall i | 0 <= i <= |u| ensures Linked(Node(head, u, i), Node(head, u, i + 1)) {
      if i < |s| {
        assert old(Linked(Node(head, s, i), Node(head, s, i + 1)));
        assert Node(head, u, i) != end && Node(head, u, i) !in t;
      } else if |s| < i < |u| {
        assert u[i - 1] != u[|u| - 1] && u[i - 1] in t;
        assert old(Linked(Node(first, t[1..], i - |s| - 1), Node(first, t[1..], i - |s|)));
      }
    }
  }

  /** The first attached entry, or the one after `current`; null at the end of the list. */
  function GetNext<T>(head: ListEntry<T>, current: ListEntry?<T>, ghost s: seq<ListEntry<T>>, ghost k: nat)
    : (next: ListEntry?<T>)
    requires Ring(head, s)
    requires current == null || (k < |s| && s[k] == current)
    reads {head} + set e | e in s
    ensures var i := if current == null then 0 else k + 1;
            if i < |s| then next == s[i] else next == null
  {
    if current == null then
      assert Linked(Node(head, s, 0), Node(head, s, 1));
      if head.flink != head then head.flink else null
    else
      assert Linked(Node(head, s, k + 1), Node(head, s, k + 2));
      if current.flink != head then current.flink else null
  }

  // ------------------------------------------------------------------ sequences of operations

  datatype Op<T> = Insert(entry: T) | Remove(index: nat) | TakeHead | Append(chunk: seq<T>)

  predicate Applicable<T(==)>(s: seq<T>, op: Op<T>) {
    match op
    case Insert(entry) => entry !in s
    case Remove(index) => index < |s|
    case TakeHead => true
    case Append(chunk) => chunk != [] && forall e :: e in chunk ==> e !in s
  }

  function After<T(==)>(s: seq<T>, op: Op<T>): seq<T>
    requires Applicable(s, op)
  {
    match op
    case Insert(entry) => s + [entry]
    case Remove(index) => Without(s, index)
    case TakeHead => if s == [] then [] else s[1..]
    case Append(chunk) => s + chunk
  }

  predicate AllApplicable<T(==)>(s: seq<T>, ops: seq<Op<T>>)
    decreases |ops|
  {
    ops == [] || (Applicable(s, ops[0]) && AllApplicable(After(s, ops[0]), ops[1..]))
  }

  function AfterAll<T(==)>(s: seq<T>, ops: seq<Op<T>>): seq<T>
    requires AllApplicable(s, ops)
    decreases |ops|
  {
    if ops == [] then s else AfterAll(After(s, ops[0]), ops[1..])
  }

  lemma NeighboursInRing<T>(head: ListEntry<T>, s: seq<ListEntry<T>>)
    requires Ring(head, s)
    ensures head.blink == head || head.blink in s
    ensures (head.flink == head || head.flink in s) && (head.flink.flink == head || head.flink.flink in s)
    ensures forall e :: e in s ==> (e.flink == head || e.flink in s) && (e.blink == head || e.blink in s)
  {
    assert Linked(Node(head, s, 0), Node(head, s, 1)) && Linked(Node(head, s, |s|), Node(head, s, |s| + 1));
    assert s != [] ==> s[0] in s;
    forall e | e in s ensures (e.flink == head || e.flink in s) && (e.blink == head || e.blink in s) {
      var k :| 0 <= k < |s| && s[k] == e;
      assert Linked(Node(head, s, k), Node(head, s, k + 1)) && Linked(Node(head, s, k + 1), Node(head, s, k + 2));
    }
  }

  /** The entries an operation brings along. */
  function Brings<T>(op: Op<T>): seq<T> {
    match op
    case Insert(entry) => [entry]
    case Append(chunk) => chunk
    case _ => []
  }

  /** A ring without a head, to be entered at its first entry. */
  ghost predicate Headless<T>(chunk: seq<ListEntry<T>>)
    reads set e | e in chunk
  {
    chunk != [] ==> Ring(chunk[0], chunk[1..])
  }

  /** What is appended is not touched by anything before the append. */
  ghost predicate Untangled<T>(head: ListEntry<T>, entries: seq<ListEntry<T>>, ops: seq<Op<ListEntry<T>>>) {
    && (forall i :: 0 <= i < |ops| ==> head !in Brings(ops[i]))
    && (forall i, e :: 0 <= i < |ops| && ops[i].Append? && e in ops[i].chunk ==> e !in entries)
    && (forall i, j, e :: 0 <= i < j < |ops| && ops[j].Append? && e in ops[j].chunk ==> e !in Brings(ops[i]))
  }

  lemma UntangledTail<T>(head: ListEntry<T>, entries: seq<ListEntry<T>>, ops: seq<Op<ListEntry<T>>>)
    requires Untangled(head, entries, ops) && ops != [] && Applicable(entries, ops[0])
    ensures Untangled(head, After(entries, ops[0]), ops[1..])
  {
    var next := After(entries, ops[0]);
    assert forall e :: e in next ==> e in entries || e in Brings(ops[0]);
  }

  /** One operation on the ring computes the same operation on the sequence. */
  method RunOne<T>(head: ListEntry<T>, op: Op<ListEntry<T>>, entries: seq<ListEntry<T>>)
    requires Ring(head, entries) && Applicable(entries, op) && head !in Brings(op)
    requires op.Append? ==> Headless(op.chunk)
    modifies {head} + (set e | e in entries) + set e | e in Brings(op)
    ensures Ring(head, After(entries, op))
  {
    NeighboursInRing(head, entries);
    match op {
      case Insert(entry) => InsertTail(head, entry, entries);
      case Remove(index) => var _ := RemoveEntry(entries[index], head, entries, index);
      case TakeHead => var _ := RemoveHead(head, entries);
      case Append(chunk) =>
        NeighboursInRing(chunk[0], chunk[1..]);
        AppendTailList(head, chunk[0], entries, chunk);
    }
  }

  /** Any sequence of operations on the ring computes the same operations on the sequence. */
  method RunAll<T>(head: ListEntry<T>, ops: seq<Op<ListEntry<T>>>, entries: seq<ListEntry<T>>)
    requires Ring(head, entries) && AllApplicable(entries, ops) && Untangled(head, entries, ops)
    requires forall i :: 0 <= i < |ops| && ops[i].Append? ==> Headless(ops[i].chunk)
    modifies {head} + (set e | e in entries) + set i, e | 0 <= i < |ops| && e in Brings(ops[i]) :: e
    ensures Ring(head, AfterAll(entries, ops))
    decreases |ops|
  {
    if ops != [] {
      RunOne(head, ops[0], entries);
      UntangledTail(head, entries, ops);
      assert forall e :: e in After(entries, ops[0]) ==> e in entries || e in Brings(ops[0]);
      RunAll(head, ops[1..], After(entries, ops[0]));
    }
  }
}
