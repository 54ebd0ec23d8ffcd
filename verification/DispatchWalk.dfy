/** A dispatch over a list that changes under it: the walk of a dispatcher, the programs it invokes on the
    way, and the verdict that comes of it.  Between two look-ups of the dispatcher other threads attach and
    detach as they like. */
module DispatchWalk {
  import opened Common
  import opened ProcessNotify
  import Iteration

  /** The dispatcher's walk and what it has decided so far.  `program` is the program of each ticket. */
  datatype Pass = Pass(walk: Iteration.Walk, vetoed: bool, creationStatus: int, ran: seq<Program>)

  predicate Enabled(d: Pass, step: Iteration.Step) {
    Iteration.Enabled(d.walk, step) && (step.Read? ==> !d.vetoed)
  }

  /** The client that was just read, if any, is entered and invoked; it may end the dispatch. */
  function Invoked(d: Pass, p: Program, create: bool): Pass {
    var ran := if p.enters then d.ran + [p] else d.ran;
    if Vetoes(p, create) then d.(vetoed := true, creationStatus := p.status, ran := ran) else d.(ran := ran)
  }

  function Apply(d: Pass, step: Iteration.Step, program: Iteration.Ticket -> Program, create: bool): Pass
    requires Enabled(d, step)
  {
    var w := Iteration.Apply(d.walk, step);
    if step.Read? && w.position.At? then Invoked(d, program(w.position.held), create).(walk := w) else d.(walk := w)
  }

  predicate Legal(d: Pass, steps: seq<Iteration.Step>, program: Iteration.Ticket -> Program, create: bool)
    decreases |steps|
  {
    steps == [] || (Enabled(d, steps[0]) && Legal(Apply(d, steps[0], program, create), steps[1..], program, create))
  }

  function Final(d: Pass, steps: seq<Iteration.Step>, program: Iteration.Ticket -> Program, create: bool): Pass
    requires Legal(d, steps, program, create)
    decreases |steps|
  {
    if steps == [] then d else Final(Apply(d, steps[0], program, create), steps[1..], program, create)
  }

  function Visited(tickets: seq<Iteration.Ticket>, program: Iteration.Ticket -> Program): (ps: seq<Program>)
    ensures |ps| == |tickets|
  {
    if tickets == [] then [] else Visited(tickets[..|tickets| - 1], program) + [program(tickets[|tickets| - 1])]
  }

  /** What the dispatcher has decided is the fold over the clients it has visited. */
  ghost predicate Decided(d: Pass, program: Iteration.Ticket -> Program, create: bool, creationStatus: int) {
    var ps := Visited(d.walk.visited, program);
    && d.ran == EnteringTo(ps, |ps|)
    && (if d.vetoed
        then ps != [] && NoVeto(ps, |ps| - 1, create) && Vetoes(ps[|ps| - 1], create) && d.creationStatus == ps[|ps| - 1].status
        else NoVeto(ps, |ps|, create) && d.creationStatus == creationStatus)
  }

  lemma {:induction false} PrefixSame(ps: seq<Program>, p: Program, k: nat, create: bool)
    requires k <= |ps|
    ensures EnteringTo(ps + [p], k) == EnteringTo(ps, k) && NoVeto(ps + [p], k, create) == NoVeto(ps, k, create)
  {
    if k > 0 {
      PrefixSame(ps, p, k - 1, create);
    }
  }

  lemma StepDecides(d: Pass, step: Iteration.Step, program: Iteration.Ticket -> Program, create: bool, creationStatus: int)
    requires Enabled(d, step) && Decided(d, program, create, creationStatus)
    ensures Decided(Apply(d, step, program, create), program, create, creationStatus)
  {
    var d' := Apply(d, step, program, create);
    if step.Read? && d'.walk.position.At? {
      var ps, p := Visited(d.walk.visited, program), program(d'.walk.position.held);
      assert d'.walk.visited[..|d.walk.visited|] == d.walk.visited;
      assert Visited(d'.walk.visited, program) == ps + [p];
      PrefixSame(ps, p, |ps|, create);
    }
  }

  lemma {:induction false} RunDecides(d: Pass, steps: seq<Iteration.Step>, program: Iteration.Ticket -> Program,
                                      create: bool, creationStatus: int)
    requires Legal(d, steps, program, create) && Decided(d, program, create, creationStatus)
    ensures Decided(Final(d, steps, program, create), program, create, creationStatus)
    decreases |steps|
  {
    if steps != [] {
      StepDecides(d, steps[0], program, create, creationStatus);
      RunDecides(Apply(d, steps[0], program, create), steps[1..], program, create, creationStatus);
    }
  }

  lemma {:induction false} WalkIsLegal(d: Pass, steps: seq<Iteration.Step>, program: Iteration.Ticket -> Program, create: bool)
    requires Legal(d, steps, program, create)
    ensures Iteration.Legal(d.walk, steps) && Iteration.Final(d.walk, steps) == Final(d, steps, program, create).walk
    decreases |steps|
  {
    if steps != [] {
      WalkIsLegal(Apply(d, steps[0], program, create), steps[1..], program, create);
    }
  }

  predicate Starts(d: Pass, creationStatus: int) {
    Iteration.Start(d.walk) && !d.vetoed && d.ran == [] && d.creationStatus == creationStatus
  }

  /** At every point of a dispatch, however the list changes meanwhile, the verdict is the fold over the
      clients visited so far, in attach order: the first of them that fails decides a creation, none comes
      after it, and exactly those that could be entered ran. */
  lemma VerdictOverWalk(d: Pass, steps: seq<Iteration.Step>, program: Iteration.Ticket -> Program, create: bool, creationStatus: int)
    requires Starts(d, creationStatus) && Legal(d, steps, program, create)
    ensures var d' := Final(d, steps, program, create);
            && Iteration.Increasing(d'.walk.visited)
            && Verdict(d'.creationStatus, d'.ran) == Dispatch(Visited(d'.walk.visited, program), create, creationStatus)
  {
    RunDecides(d, steps, program, create, creationStatus);
    WalkIsLegal(d, steps, program, create);
    Iteration.VisitsEveryStayingClientOnce(d.walk, steps);
    var d' := Final(d, steps, program, create);
    var ps := Visited(d'.walk.visited, program);
    VerdictAt(ps, if d'.vetoed then |ps| - 1 else |ps|, create, creationStatus);
  }

  lemma {:induction false} RanIfVisited(tickets: seq<Iteration.Ticket>, program: Iteration.Ticket -> Program, t: Iteration.Ticket)
    requires t in tickets && program(t).enters
    ensures var ps := Visited(tickets, program); program(t) in EnteringTo(ps, |ps|)
  {
    var n := |tickets| - 1;
    var before := Visited(tickets[..n], program);
    PrefixSame(before, program(tickets[n]), n, false);
    if tickets[n] != t {
      assert t in tickets[..n];
      RanIfVisited(tickets[..n], program, t);
    }
  }

  /** When a dispatch has ended without a veto, and a deletion always does, every client that stayed
      attached and could be entered ran. */
  lemma StayingClientsRun(d: Pass, steps: seq<Iteration.Step>, program: Iteration.Ticket -> Program, create: bool,
                          creationStatus: int, t: Iteration.Ticket)
    requires Starts(d, creationStatus) && Legal(d, steps, program, create)
    requires var d' := Final(d, steps, program, create);
             d'.walk.position.Done? && t in d.walk.list && t in d'.walk.list && program(t).enters
    ensures var d' := Final(d, steps, program, create);
            program(t) in d'.ran && (!create ==> !d'.vetoed && d'.creationStatus == creationStatus)
  {
    RunDecides(d, steps, program, create, creationStatus);
    WalkIsLegal(d, steps, program, create);
    Iteration.VisitsEveryStayingClientOnce(d.walk, steps);
    RanIfVisited(Final(d, steps, program, create).walk.visited, program, t);
  }
}
