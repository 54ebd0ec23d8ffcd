/** The kernel pool, as the set of blocks it has handed out and the set of blocks given back. */
module KernelPool {

  newtype Byte = x: int | 0 <= x < 256

  class Pool {
    ghost var taken: set<object>
    ghost var freed: set<object>
    ghost var refused: nat   // allocations that failed

    ghost predicate Valid()
      reads this
    {
      freed <= taken
    }

    ghost function Live(): set<object>
      reads this
    {
      taken - freed
    }

    constructor ()
      ensures Valid() && Live() == {}
    {
      taken := {};
      freed := {};
      refused := 0;
    }

    /** ExAllocatePoolUninitialized: any allocation may fail, and the contents are arbitrary. */
    method Allocate(size: nat) returns (block: array?<Byte>)
      requires Valid()
      modifies this
      ensures Valid() && freed == old(freed)
      ensures block == null ==> taken == old(taken) && refused == old(refused) + 1
      ensures block != null ==> fresh(block) && block.Length == size && taken == old(taken) + {block} && refused == old(refused)
    {
      if * {
        block := null;
        refused := refused + 1;
      } else {
        block := new Byte[size];
        taken := taken + {block};
      }
    }

    /** The same for a block that holds a structure: the structure is put into service, or not. */
    method AllocateFor(structure: object) returns (ok: bool)
      requires Valid() && structure !in taken
      modifies this
      ensures Valid() && freed == old(freed)
      ensures taken == if ok then old(taken) + {structure} else old(taken)
      ensures refused == old(refused) + if ok then 0 else 1
    {
      if * {
        ok := false;
        refused := refused + 1;
      } else {
        ok := true;
        taken := taken + {structure};
      }
    }

    /** A block that another kernel routine took from the pool and passes on to its caller. */
    method HandOver(structure: object)
      requires Valid() && structure !in taken
      modifies this
      ensures Valid() && freed == old(freed) && taken == old(taken) + {structure} && refused == old(refused)
    {
      taken := taken + {structure};
    }

    /** ExFreePool: only a live block may be given back, so no block is freed twice and nothing
        that did not come from the pool is freed at all. */
    method Free(block: object)
      requires Valid() && block in Live()
      modifies this
      ensures Valid() && taken == old(taken) && freed == old(freed) + {block} && refused == old(refused)
    {
      freed := freed + {block};
    }
  }
}
