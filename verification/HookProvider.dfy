/** The provider's attach and detach routines as code: the client record and its work item on the
    pool, the list of attached clients at the level of its pointers, and the clean-up on failure. */
module HookProvider {
  import opened Common
  import opened KernelPool
  import opened ListRing
  import opened HookLifecycle
  import opened HookCallbacks

  class WorkItem {
    constructor () {}
  }

  /** ebpf_extension_hook_client_t; the list entry it embeds points back to it as its `record`. */
  class HookClient {
    var detachWorkItem: WorkItem?

    constructor ()
      ensures detachWorkItem == null
    {
      detachWorkItem := null;
    }
  }

  type Link = ListEntry<HookClient?>

  /** Which extension's callback the provider was registered with. */
  datatype Callback = ProcessHook | NetEventHook(data: AttachData)

  predicate Willing(callback: Callback) { callback.ProcessHook? || Accepts(callback.data) }

  datatype Status = Success | Pending | InvalidParameter | NoMemory | InsufficientResources | AccessDenied

  ghost function Blocks(client: HookClient?): set<object>
    reads client
  {
    if client == null then {}
    else {client} + if client.detachWorkItem == null then {} else {client.detachWorkItem}
  }

  /** A client that is fully set up, on blocks of its own. */
  ghost predicate Complete(client: HookClient?, pool: Pool)
    reads client, pool
  {
    client != null && client.detachWorkItem != null && Blocks(client) <= pool.Live()
  }

  /** _ebpf_extension_hook_client_cleanup. */
  method CleanUpClient(pool: Pool, client: HookClient?)
    requires pool.Valid() && Blocks(client) <= pool.Live()
    modifies pool
    ensures pool.Valid() && pool.taken == old(pool.taken) && pool.freed == old(pool.freed) + Blocks(client)
    ensures pool.refused == old(pool.refused)
  {
    if client != null {
      if client.detachWorkItem != null {
        pool.Free(client.detachWorkItem);
      }
      pool.Free(client);
    }
  }

  /** _ebpf_ext_attach_init_rundown. */
  method InitRundown(pool: Pool, client: HookClient) returns (ok: bool)
    requires pool.Valid() && client.detachWorkItem == null && client in pool.Live()
    modifies pool, client
    ensures pool.Valid() && pool.freed == old(pool.freed) && pool.taken == old(pool.taken) + Blocks(client)
    ensures ok <==> client.detachWorkItem != null
    ensures pool.refused == old(pool.refused) + if ok then 0 else 1
    ensures fresh(Blocks(client) - {client})
  {
    var item := new WorkItem();
    ok := pool.AllocateFor(item);
    if ok {
      client.detachWorkItem := item;
    }
  }

  /** The first half of the attach, up to the callback: the record and its work item. */
  method SetUpClient(pool: Pool, hasDispatch: bool) returns (status: Status, client: HookClient?)
    requires pool.Valid()
    modifies pool
    ensures pool.Valid() && pool.freed == old(pool.freed) && pool.taken == old(pool.taken) + Blocks(client)
    ensures fresh(Blocks(client)) && (client != null ==> fresh(client))
    ensures status.Success? <==> hasDispatch && pool.refused == old(pool.refused)
    ensures status.Success? ==> Complete(client, pool)
    ensures status.NoMemory? || status.InsufficientResources? <==> pool.refused > old(pool.refused)
    ensures pool.refused >= old(pool.refused) && !status.Pending? && !status.AccessDenied?
  {
    client := new HookClient();
    var ok := pool.AllocateFor(client);
    if !ok {
      return NoMemory, null;
    }
    if !hasDispatch {
      return InvalidParameter, client;
    }
    ok := InitRundown(pool, client);
    status := if ok then Success else InsufficientResources;
  }

  class Provider {
    const head: Link
    const hook: HookState
    ghost var clients: seq<Link>

    constructor ()
      ensures fresh(head) && fresh(hook) && clients == [] && Valid()
    {
      head := new ListEntry(null);
      hook := new HookState();
      clients := [];
    }

    /** The ring holds the attached clients, and the registration counts exactly them. */
    ghost predicate Valid()
      reads this, hook, head, clients
    {
      Ring(head, clients) && RegFits(hook.Value(), |clients|)
    }

    method AttachCallback(callback: Callback, osOk: bool) returns (ok: bool)
      modifies hook
      ensures (hook.Value(), ok) == OnAttach(old(hook.Value()), Willing(callback), osOk)
      ensures forall n :: RegFits(old(hook.Value()), n) ==> RegFits(hook.Value(), if ok then n + 1 else n)
    {
      match callback
      case ProcessHook => ok := hook.OnProcessAttach(osOk);
      case NetEventHook(data) => ok := hook.OnNetEventAttach(data, osOk);
    }

    /** _ebpf_extension_hook_provider_attach_client.  It succeeds with one more client at the tail of
        the list, fully set up; or it fails, and the list, the registration and the live blocks are
        what they were. */
    method AttachClient(pool: Pool, hasDispatch: bool, callback: Callback, osOk: bool)
      returns (status: Status, link: ListEntry?<HookClient?>)
      requires Valid() && pool.Valid()
      modifies this`clients, hook, head, head.blink, pool
      ensures Valid() && pool.Valid()
      ensures status.Success? <==> link != null
      ensures status.Success? ==> fresh(link) && clients == old(clients) + [link] && Complete(link.record, pool)
      ensures status.Success? ==> pool.Live() == old(pool.Live()) + Blocks(link.record) && fresh(Blocks(link.record))
      ensures !status.Success? ==> clients == old(clients) && hook.Value() == old(hook.Value()) && pool.Live() == old(pool.Live())
      ensures status.Success? <==>
              hasDispatch && OnAttach(old(hook.Value()), Willing(callback), osOk).1 && pool.refused == old(pool.refused)
      ensures status.Success? ==> hook.Value() == OnAttach(old(hook.Value()), Willing(callback), osOk).0
      ensures status.NoMemory? || status.InsufficientResources? <==> pool.refused > old(pool.refused)
      ensures pool.refused >= old(pool.refused) && !status.Pending?
      ensures status.Success? ==> pool.freed == old(pool.freed) && pool.taken == old(pool.taken) + Blocks(link.record)
      ensures status.Success? ==> Blocks(link.record) !! old(pool.taken)
      ensures status.InvalidParameter? ==> !hasDispatch
      ensures status.AccessDenied? ==> hasDispatch && !OnAttach(old(hook.Value()), Willing(callback), osOk).1
    {
      link := null;
      var client;
      status, client := SetUpClient(pool, hasDispatch);
      if status.Success? {
        var ok := AttachCallback(callback, osOk);
        if ok {
          link := new ListEntry(client);
          InsertTail(head, link, clients);
          clients := clients + [link];
        } else {
          status := AccessDenied;
        }
      }
      if !status.Success? {
        CleanUpClient(pool, client);
      }
    }

    /** _ebpf_extension_hook_provider_detach_client: the client leaves the registration and the list
        at once; its blocks stay until the queued completion. */
    method DetachClient(link: Link, ghost k: nat, osOk: bool) returns (status: Status)
      requires Valid() && k < |clients| && clients[k] == link
      modifies this`clients, hook, link.flink, link.blink
      ensures Valid() && clients == Without(old(clients), k) && status.Pending?
      ensures hook.osRegistered == (old(hook.osRegistered) && (clients != [] || !osOk))
    {
      NeighboursInRing(head, clients);
      hook.OnClientDetach(osOk);
      var _ := RemoveEntry(link, head, clients, k);
      clients := Without(clients, k);
      status := Pending;
    }
  }

  /** _ebpf_extension_detach_client_completion, past its wait, with the clean-up of the binding
      context that it leads to: both blocks are given back. */
  method CompleteDetach(pool: Pool, client: HookClient)
    requires pool.Valid() && Complete(client, pool)
    modifies pool
    ensures pool.Valid() && pool.taken == old(pool.taken) && pool.freed == old(pool.freed) + Blocks(client)
    ensures pool.refused == old(pool.refused)
  {
    var item := client.detachWorkItem;
    pool.Free(item);
    pool.Free(client);
  }

  /** A detach and its completion give the client's two blocks back. */
  method DetachAndComplete(provider: Provider, pool: Pool, link: Link, ghost k: nat, osOk: bool) returns (status: Status)
    requires provider.Valid() && pool.Valid() && k < |provider.clients| && provider.clients[k] == link
    requires Complete(link.record, pool)
    modifies provider`clients, provider.hook, link.flink, link.blink, pool
    ensures provider.Valid() && provider.clients == Without(old(provider.clients), k) && status.Pending?
    ensures provider.hook.osRegistered == (old(provider.hook.osRegistered) && (provider.clients != [] || !osOk))
    ensures pool.Valid() && pool.taken == old(pool.taken) && pool.refused == old(pool.refused)
    ensures pool.freed == old(pool.freed) + Blocks(link.record) && |Blocks(link.record)| == 2
  {
    status := provider.DetachClient(link, k, osOk);
    CompleteDetach(pool, link.record);
  }

  lemma BackToStart(t: set<object>, f: set<object>, b: set<object>, t': set<object>, f': set<object>)
    requires f <= t && b !! t && t' == t + b && f' == f + b
    ensures t' - f' == t - f && f' - f == b
  {
  }

  /** An attach that succeeds and the detach of that client undo each other. */
  method AttachAndDetach(provider: Provider, pool: Pool, hasDispatch: bool, callback: Callback, osOk: bool, osOk': bool)
    returns (status: Status)
    requires provider.Valid() && pool.Valid()
    modifies provider`clients, provider.hook, provider.head, provider.head.blink, pool
    ensures provider.Valid() && pool.Valid()
    ensures status.Pending? <==>
            hasDispatch && OnAttach(old(provider.hook.Value()), Willing(callback), osOk).1 && pool.refused == old(pool.refused)
    ensures status.Pending? ==> |pool.freed - old(pool.freed)| == 2
    ensures provider.clients == old(provider.clients) && pool.Live() == old(pool.Live())
    ensures provider.hook.count == old(provider.hook.count) && provider.hook.registered == old(provider.hook.registered)
    ensures status.Pending? && osOk' ==> (provider.hook.osRegistered <==> provider.clients != [])
  {
    ghost var t, f, tail := pool.taken, pool.freed, provider.head.blink;
    TailOf(provider.head, provider.clients);
    var link;
    status, link := provider.AttachClient(pool, hasDispatch, callback, osOk);
    if link != null {
      ghost var k, b := |provider.clients| - 1, Blocks(link.record);
      assert Without(provider.clients, k) == old(provider.clients);
      NewestNeighbours(provider.head, provider.clients);
      assert link.flink == provider.head && link.blink == tail;
      status := DetachAndComplete(provider, pool, link, k, osOk');
      BackToStart(t, f, b, pool.taken, pool.freed);
    }
  }

  lemma TailOf(head: Link, clients: seq<Link>)
    requires Ring(head, clients)
    ensures head.blink == if clients == [] then head else clients[|clients| - 1]
  {
    assert Linked(Node(head, clients, |clients|), Node(head, clients, |clients| + 1));
  }

  /** The newest client lies between the head and what was the tail. */
  lemma NewestNeighbours(head: Link, clients: seq<Link>)
    requires Ring(head, clients) && clients != []
    ensures var link := clients[|clients| - 1];
            link.flink == head && link.blink == if |clients| == 1 then head else clients[|clients| - 2]
  {
    var k := |clients| - 1;
    assert Linked(Node(head, clients, k), Node(head, clients, k + 1));
    assert Linked(Node(head, clients, k + 1), Node(head, clients, k + 2));
  }
}
