/** The attach and detach callbacks of the two extensions, each the body of a push-lock section,
    proved against the registration updates that the lifecycle's steps are made of. */
module HookCallbacks {
  import opened HookLifecycle

  /** The client data of a network event program: absent, or a header with a capture type. */
  datatype AttachData = NoData | AttachData(version: nat, dataSize: nat, hasData: bool, captureType: nat)

  const CLIENT_DATA_VERSION: nat := 1
  const ATTACH_OPTS_SIZE: nat := 4
  const CAPTURE_ALL: nat := 1
  const CAPTURE_NONE: nat := 4

  predicate Accepts(d: AttachData) {
    && d.AttachData? && d.version >= CLIENT_DATA_VERSION && d.dataSize == ATTACH_OPTS_SIZE && d.hasData
    && CAPTURE_ALL <= d.captureType <= CAPTURE_NONE
  }

  /** The globals of one extension. */
  class HookState {
    var registered: bool
    var count: nat
    var captureType: nat
    ghost var osRegistered: bool

    ghost function Value(): Registration
      reads this
    {
      Registration(registered, count, osRegistered)
    }

    constructor ()
      ensures Value() == Initial.reg && RegFits(Value(), 0)
    {
      registered, count, captureType, osRegistered := false, 0, 3, false;
    }

    /** The callback of the process extension.  `osOk` is what the kernel answers if it is asked. */
    method OnProcessAttach(osOk: bool) returns (ok: bool)
      modifies this
      ensures (Value(), ok) == OnAttach(old(Value()), true, osOk) && captureType == old(captureType)
      ensures ok <==> old(registered) || osOk
      ensures ok ==> registered && count == old(count) + 1 && osRegistered == (old(osRegistered) || !old(registered))
      ensures !ok ==> Value() == old(Value())
      ensures forall n :: RegFits(old(Value()), n) ==> RegFits(Value(), if ok then n + 1 else n)
    {
      if !registered {
        if !osOk {
          return false;
        }
        registered, osRegistered := true, true;
      }
      count := count + 1;
      ok := true;
    }

    /** The callback of the network event extension, which also takes over the capture type. */
    method OnNetEventAttach(d: AttachData, osOk: bool) returns (ok: bool)
      modifies this
      ensures (Value(), ok) == OnAttach(old(Value()), Accepts(d), osOk)
      ensures ok <==>
              && d.AttachData? && d.version >= 1 && d.dataSize == 4 && d.hasData && 1 <= d.captureType <= 4
              && (old(registered) || osOk)
      ensures ok ==> registered && count == old(count) + 1 && osRegistered == (old(osRegistered) || !old(registered))
      ensures !ok ==> Value() == old(Value())
      ensures captureType == if Accepts(d) then d.captureType else old(captureType)
      ensures forall n :: RegFits(old(Value()), n) ==> RegFits(Value(), if ok then n + 1 else n)
    {
      if d.NoData? || d.version < CLIENT_DATA_VERSION || d.dataSize != ATTACH_OPTS_SIZE || !d.hasData {
        return false;
      }
      if d.captureType >= CAPTURE_ALL && d.captureType <= CAPTURE_NONE {
        captureType := d.captureType;
      } else {
        return false;
      }
      if !registered {
        if !osOk {
          return false;
        }
        registered, osRegistered := true, true;
      }
      count := count + 1;
      ok := true;
    }

    /** The detach callback, the same in both extensions. */
    method OnClientDetach(osOk: bool)
      requires count > 0
      modifies this
      ensures Value() == OnDetach(old(Value()), osOk) && captureType == old(captureType)
      ensures count == old(count) - 1 && (registered <==> old(registered) && count > 0)
      // The last client takes the kernel routine down, if the kernel agrees; nobody else touches it.
      ensures old(registered) && old(count) == 1 && osOk ==> !osRegistered
      ensures !old(registered) || old(count) > 1 || !osOk ==> osRegistered == old(osRegistered)
      ensures forall n :: RegFits(old(Value()), n) ==> RegFits(Value(), n - 1)
    {
      count := count - 1;
      if registered && count == 0 {
        if osOk {
          osRegistered := false;
        }
        registered := false;
      }
    }
  }
}
