/** A dispatcher's walk over the attached list while other threads attach and detach.

    A client is named by its attach ticket: tail insertion hands out increasing tickets, so attach
    order is ticket order.  Between two look-ups of the dispatcher any number of clients attach, and
    any client other than the one the dispatcher holds detaches (assumption on the environment: the
    held client is not removed before its successor is read).
 */
module Iteration {
  import opened Common

  type Ticket = nat

  datatype Position = NotStarted | At(held: Ticket) | Done

  datatype Walk = Walk(list: seq<Ticket>, next: Ticket, position: Position, visited: seq<Ticket>)

  datatype Step = Attach | Detach(index: nat) | Read

  predicate Enabled(w: Walk, step: Step) {
    match step
    case Attach => true
    case Detach(i) => i < |w.list| && w.position != At(w.list[i])
    case Read => w.position != Done
  }

  /** ebpf_extension_hook_get_next_attached_client: the entry at `i` is the next one to hold. */
  function Moved(w: Walk, i: nat): Walk {
    if i < |w.list| then w.(position := At(w.list[i]), visited := w.visited + [w.list[i]])
    else w.(position := Done)
  }

  /** The entry the next read looks at. */
  function NextIndex(w: Walk): nat {
    if w.position.At? then IndexOf(w.list, w.position.held) + 1 else 0
  }

  function Apply(w: Walk, step: Step): Walk
    requires Enabled(w, step)
  {
    match step
    case Attach => w.(list := w.list + [w.next], next := w.next + 1)
    case Detach(i) => w.(list := Without(w.list, i))
    case Read => Moved(w, NextIndex(w))
  }

  predicate Legal(w: Walk, steps: seq<Step>)
    decreases |steps|
  {
    steps == [] || (Enabled(w, steps[0]) && Legal(Apply(w, steps[0]), steps[1..]))
  }

  function Final(w: Walk, steps: seq<Step>): Walk
    requires Legal(w, steps)
    decreases |steps|
  {
    if steps == [] then w else Final(Apply(w, steps[0]), steps[1..])
  }

  // ------------------------------------------------------------------ the invariant

  predicate Increasing(s: seq<Ticket>) { forall i, j :: 0 <= i < j < |s| ==> s[i] < s[j] }

  /** A dispatch is about to start on an attached list. */
  predicate Start(w: Walk) {
    && w.position == NotStarted && w.visited == []
    && Increasing(w.list) && forall t :: t in w.list ==> t < w.next
  }

  /** Everything attached no later than the held client has been visited; after the end, everything
      in the list except clients attached since. */
  ghost predicate Inv(w: Walk, limit: Ticket) {
    && Increasing(w.list) && Increasing(w.visited)
    && (forall t :: t in w.list ==> t < w.next)
    && match w.position
       case NotStarted => w.visited == []
       case At(h) =>
         && h in w.list && w.visited != [] && w.visited[|w.visited| - 1] == h
         && forall t :: t in w.list && t <= h ==> t in w.visited
       case Done => limit <= w.next && forall t :: t in w.list && t < limit ==> t in w.visited
  }

  /** What lies before it has been visited. */
  lemma VisitedBefore(w: Walk, limit: Ticket, k: nat)
    requires Inv(w, limit) && Enabled(w, Read) && k < |w.list| && k < NextIndex(w)
    ensures w.list[k] in w.visited
  {
    assert w.list[k] in w.list;
  }

  lemma ReadKeepsInv(w: Walk, limit: Ticket)
    requires Inv(w, limit) && Enabled(w, Read) && limit <= w.next
    ensures Inv(Apply(w, Read), limit)
  {
    var i, w' := NextIndex(w), Apply(w, Read);
    forall k | 0 <= k < |w.list| && k <= i ensures w.list[k] in w'.visited {
      if k < i {
        VisitedBefore(w, limit, k);
      } else {
        assert w'.visited[|w.visited|] == w.list[k];
      }
    }
    if i < |w.list| {
      forall t | t in w.list && t <= w.list[i] ensures t in w'.visited {
        var k :| 0 <= k < |w.list| && w.list[k] == t;
      }
    }
  }

  lemma AttachKeepsInv(w: Walk, limit: Ticket)
    requires Inv(w, limit) && limit <= w.next
    ensures Inv(Apply(w, Attach), limit)
  {
    var list := Apply(w, Attach).list;
    forall i | 0 <= i < |w.list| ensures list[i] < w.next {
      assert w.list[i] in w.list;
    }
    assert forall t :: t in list <==> t in w.list || t == w.next;
  }

  lemma IncreasingWithout(s: seq<Ticket>, i: nat)
    requires Increasing(s) && i < |s|
    ensures Increasing(Without(s, i)) && forall t :: t in Without(s, i) ==> t in s
  {
    var r := Without(s, i);
    assert forall k :: 0 <= k < |r| ==> r[k] == s[if k < i then k else k + 1];
  }

  lemma StillHeld(s: seq<Ticket>, i: nat, t: Ticket)
    requires i < |s| && t in s && s[i] != t
    ensures t in Without(s, i)
  {
    var k := IndexOf(s, t);
    assert Without(s, i)[if k < i then k else k - 1] == t;
  }

  lemma DetachKeepsInv(w: Walk, i: nat, limit: Ticket)
    requires Inv(w, limit) && Enabled(w, Detach(i)) && limit <= w.next
    ensures Inv(Apply(w, Detach(i)), limit)
  {
    IncreasingWithout(w.list, i);
    if w.position.At? {
      StillHeld(w.list, i, w.position.held);
    }
  }

  lemma {:induction false} RunKeepsInv(w: Walk, steps: seq<Step>, limit: Ticket)
    requires Inv(w, limit) && limit <= w.next && Legal(w, steps)
    ensures Inv(Final(w, steps), limit)
    decreases |steps|
  {
    if steps != [] {
      match steps[0] {
        case Attach => AttachKeepsInv(w, limit);
        case Detach(i) => DetachKeepsInv(w, i, limit);
        case Read => ReadKeepsInv(w, limit);
      }
      RunKeepsInv(Apply(w, steps[0]), steps[1..], limit);
    }
  }

  // ------------------------------------------------------------------ the theorem

  /** No client is visited twice, clients are visited in attach order, and when the walk has ended
      every client that was attached when it started and still is (it stayed attached throughout,
      as tickets are never handed out again) has been visited. */
  lemma VisitsEveryStayingClientOnce(w: Walk, steps: seq<Step>)
    requires Start(w) && Legal(w, steps)
    ensures var w' := Final(w, steps);
            && (forall i, j :: 0 <= i < j < |w'.visited| ==> w'.visited[i] < w'.visited[j])
            && (w'.position.Done? ==> forall t :: t in w.list && t in w'.list ==> t in w'.visited)
  {
    RunKeepsInv(w, steps, w.next);
  }

  /** At the very read that ends the walk everything then attached has been visited, clients that
      attached while the walk was under way included. */
  lemma EndOfWalkHasSeenAll(w: Walk, steps: seq<Step>)
    requires Start(w) && Legal(w, steps) && Enabled(Final(w, steps), Read)
    ensures var w' := Apply(Final(w, steps), Read);
            w'.position.Done? ==> forall t :: t in w'.list ==> t in w'.visited
  {
    RunKeepsInv(w, steps, w.next);
    var v := Final(w, steps);
    if v.position.At? && Apply(v, Read).position.Done? {
      var i := IndexOf(v.list, v.position.held);
      forall t | t in v.list ensures t in v.visited {
        var k :| 0 <= k < |v.list| && v.list[k] == t;
        assert k <= i;
      }
    }
  }
}
