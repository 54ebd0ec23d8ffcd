/** The loader's static fields and the bodies of its locked sections, proved against the updates
    that the protocol's steps are made of. */
module LoaderCode {
  import opened LoaderProtocol

  class Loader {
    var monitors: seq<Monitor>
    var shutdownInProgress: bool
    var isShutdown: bool
    var bpfObject: Handle
    var link: Handle
    var ringBuffer: Handle
    var pollCts: Handle
    var pollThread: Handle
    ghost var cancelled: set<nat>
    ghost var freedRings: set<nat>
    ghost var closedObjects: set<nat>

    ghost function Value(): Statics
      reads this
    {
      Statics(monitors, shutdownInProgress, isShutdown, bpfObject, link, ringBuffer, pollCts, pollThread)
    }

    /** Initialize, when every foreign call succeeds. */
    method Initialize(g: nat)
      modifies this
      ensures Value() == StartPoll(NewRing(OpenObject(old(Value()), g), g), g)
      ensures unchanged(`cancelled) && unchanged(`freedRings) && unchanged(`closedObjects)
    {
      bpfObject := Live(g);
      link := Live(g);
      ringBuffer := Live(g);
      isShutdown := false;
      pollCts := Live(g);
      pollThread := Live(g);
    }

    /** Subscribe past its wait loop. */
    method SubscribeLocked(pm: Monitor, g: nat)
      requires !shutdownInProgress
      modifies this
      ensures monitors == old(monitors) + [pm]
      ensures Value() == (if old(monitors) == []
                          then StartPoll(NewRing(OpenObject(old(Value()), g), g), g)
                          else old(Value())).(monitors := monitors)
    {
      if |monitors| == 0 {
        Initialize(g);
      }
      monitors := monitors + [pm];
    }

    /** The first locked section of Unsubscribe. */
    method UnsubscribeLocked(pm: Monitor) returns (doShutdown: bool, threadToJoin: Handle)
      modifies this
      ensures Value() == RemoveMonitor(old(Value()), pm)
      ensures doShutdown <==> monitors == []
      ensures threadToJoin == if doShutdown then pollThread else Zero
      ensures cancelled == old(cancelled) + if doShutdown then Cancels(old(Value())) else {}
    {
      doShutdown, threadToJoin := false, Zero;
      monitors := Removed(monitors, pm);
      if |monitors| == 0 {
        doShutdown := true;
        shutdownInProgress := true;
        cancelled := cancelled + Cancels(Value());
        threadToJoin := pollThread;
      }
    }

    /** The link is detached and destroyed. */
    method ReleaseLink()
      modifies this`link
      ensures link == Zero
    {
      if link != Zero {
        link := Zero;
      }
    }

    /** The poll thread is told to stop and the ring buffer is freed, if there is one. */
    method ReleaseRing()
      requires TearsDown(Value())
      modifies this
      ensures Value() == FreeRing(old(Value()))
      ensures cancelled == old(cancelled) + if old(ringBuffer).Live? then Cancels(old(Value())) else {}
      ensures freedRings == old(freedRings) + if old(ringBuffer).Live? then {old(ringBuffer).gen} else {}
      ensures unchanged(`closedObjects)
    {
      if ringBuffer != Zero {
        cancelled := cancelled + Cancels(Value());
        pollCts := Zero;
        pollThread := Zero;
        freedRings := freedRings + {ringBuffer.gen};
        ringBuffer := Zero;
      }
    }

    /** Shutdown frees exactly what its guards find open, and is the composition of the protocol's
        three stages; a second call changes nothing. */
    method Shutdown()
      modifies this
      ensures Value() == CloseObject(FreeRing(DetachLink(old(Value()))))
      ensures isShutdown && (old(isShutdown) ==> Value() == old(Value()))
      ensures cancelled == old(cancelled) +
                if TearsDown(old(Value())) && old(ringBuffer).Live? then Cancels(old(Value())) else {}
      ensures freedRings == old(freedRings) +
                if TearsDown(old(Value())) && old(ringBuffer).Live? then {old(ringBuffer).gen} else {}
      ensures closedObjects == old(closedObjects) +
                if TearsDown(old(Value())) then {old(bpfObject).gen} else {}
    {
      if !isShutdown {
        if bpfObject != Zero {
          ReleaseLink();
          ReleaseRing();
          closedObjects := closedObjects + {bpfObject.gen};
          bpfObject := Zero;
        }
        isShutdown := true;
      }
    }
  }
}
