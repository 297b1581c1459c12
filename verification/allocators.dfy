// CreateMessageBlock of Acceptor and of Connection: a pool of message blocks that is
// replaced when a request does not fit or finds it exhausted.
module Allocators {
  import opened MessageBlocks
  import opened Wrappers

  const DEFAULT_DATA_BLOCK_SIZE: nat := 576
  const BUFFER_SIZE: nat := 150 * 1024

  /** An allocator: the size of its data blocks, and how many of its `count` blocks are free. */
  datatype Pool = Pool(blockSize: nat, count: nat, free: nat)

  function MemorySize(payload: nat): nat {
    payload + HEADER
  }

  function Max(a: nat, b: nat): nat {
    if a > b then a else b
  }

  function Fresh(ratio: nat, payload: nat): Pool {
    var count := BUFFER_SIZE * ratio / MemorySize(payload);
    Pool(MemorySize(payload), count, count)
  }

  /** The pool a request is tried on first. */
  function Fitting(pool: Option<Pool>, size: nat): Pool {
    if pool.None? then Fresh(1, Max(DEFAULT_DATA_BLOCK_SIZE, size))
    else if MemorySize(size) > pool.value.blockSize then Fresh(1, size)
    else pool.value
  }

  function Taken(p: Pool): Pool {
    p.(free := if p.free > 0 then p.free - 1 else 0)
  }

  /** The pool after a request, and whether it was met. */
  datatype Served = Served(pool: Pool, ok: bool)

  function Request(pool: Option<Pool>, size: nat): Served {
    var first := Fitting(pool, size);
    if first.free > 0 || first.blockSize < HEADER then Served(Taken(first), first.free > 0)
    else
      var second := Fresh(2, first.blockSize - HEADER);
      Served(Taken(second), second.free > 0)
  }

  // ---------------------------------------------------------------- the two loops

  class Acceptor {
    var allocator: Option<Pool>

    constructor ()
      ensures allocator == None
    {
      allocator := None;
    }

    method CreateNewAllocator(ratio: nat, payload: nat)
      modifies this
      ensures allocator == Some(Fresh(ratio, payload))
    {
      var count := BUFFER_SIZE * ratio / MemorySize(payload);
      allocator := Some(Pool(MemorySize(payload), count, count));
    }

    /** UniqueMessageBlockHolder::Create on the current allocator. */
    method Create(size: nat) returns (isSet: bool)
      requires allocator.Some? && MemorySize(size) <= allocator.value.blockSize
      modifies this
      ensures isSet <==> old(allocator).value.free > 0
      ensures allocator == Some(Taken(old(allocator).value))
    {
      isSet := allocator.value.free > 0;
      allocator := Some(Taken(allocator.value));
    }

    method CreateMessageBlock(size: nat) returns (ok: bool)
      requires size > 0 && (allocator.Some? ==> allocator.value.blockSize >= HEADER)
      modifies this
      ensures allocator.Some? && Served(allocator.value, ok) == Request(old(allocator), size)
      ensures MemorySize(size) <= allocator.value.blockSize
    {
      if allocator.None? {
        CreateNewAllocator(1, Max(DEFAULT_DATA_BLOCK_SIZE, size));
      } else if MemorySize(size) > allocator.value.blockSize {
        CreateNewAllocator(1, size);
      }
      var isError := false;
      while true
        invariant allocator.Some? && allocator.value.blockSize >= Max(MemorySize(size), HEADER)
        invariant !isError ==> allocator == Some(Fitting(old(allocator), size))
        invariant isError ==> Fitting(old(allocator), size).free == 0
                              && allocator == Some(Fresh(2, Fitting(old(allocator), size).blockSize - HEADER))
        decreases !isError
      {
        var isSet := Create(size);
        if isSet {
          return true;
        }
        if isError {
          return false;
        }
        CreateNewAllocator(2, allocator.value.blockSize - HEADER);
        isError := true;
      }
    }
  }

  class Connection {
    var externalMessagesAllocator: Option<Pool>

    constructor ()
      ensures externalMessagesAllocator == None
    {
      externalMessagesAllocator := None;
    }

    method CreateNewExternalMessagesAllocator(ratio: nat, payload: nat)
      modifies this
      ensures externalMessagesAllocator == Some(Fresh(ratio, payload))
    {
      var count := BUFFER_SIZE * ratio / MemorySize(payload);
      externalMessagesAllocator := Some(Pool(MemorySize(payload), count, count));
    }

    /** The same for a loop that also replaces an allocator that is missing or too small. */
    method CreateMessageBlock(size: nat) returns (ok: bool)
      requires size > 0
      requires externalMessagesAllocator.Some? ==> externalMessagesAllocator.value.blockSize >= HEADER
      modifies this
      ensures externalMessagesAllocator.Some?
      ensures Served(externalMessagesAllocator.value, ok) == Request(old(externalMessagesAllocator), size)
      ensures MemorySize(size) <= externalMessagesAllocator.value.blockSize
    {
      var isSizeError := false;
      ghost var fitting := Fitting(externalMessagesAllocator, size);
      ghost var replaced := false;
      while true
        invariant externalMessagesAllocator.Some? ==> externalMessagesAllocator.value.blockSize >= HEADER
        invariant !isSizeError && !replaced ==> externalMessagesAllocator == old(externalMessagesAllocator)
        invariant !isSizeError && replaced ==> externalMessagesAllocator == Some(fitting)
        invariant replaced ==> externalMessagesAllocator.Some?
                               && MemorySize(size) <= externalMessagesAllocator.value.blockSize
        invariant isSizeError ==> replaced && fitting.free == 0
                                  && externalMessagesAllocator == Some(Fresh(2, fitting.blockSize - HEADER))
        decreases !isSizeError, !replaced
      {
        if externalMessagesAllocator.Some? && MemorySize(size) <= externalMessagesAllocator.value.blockSize {
          var pool := externalMessagesAllocator.value;
          externalMessagesAllocator := Some(Taken(pool));
          if pool.free > 0 {
            return true;
          }
          if isSizeError {
            return false;
          }
          isSizeError := true;
        }
        if isSizeError {
          CreateNewExternalMessagesAllocator(2, externalMessagesAllocator.value.blockSize - HEADER);
        } else if externalMessagesAllocator.None? {
          CreateNewExternalMessagesAllocator(1, Max(DEFAULT_DATA_BLOCK_SIZE, size));
        } else if MemorySize(size) > externalMessagesAllocator.value.blockSize {
          CreateNewExternalMessagesAllocator(1, size);
        }
        replaced := true;
      }
    }
  }

  // ---------------------------------------------------------------- every run

  datatype Event = Create(size: nat) | Free(count: nat)

  /** Blocks come back to the pool they were taken from, unless it was replaced. */
  function Apply(pool: Option<Pool>, e: Event): Option<Pool> {
    match e
    case Create(size) => Some(Request(pool, size).pool)
    case Free(count) =>
      if pool.Some? && pool.value.free + count <= pool.value.count
      then Some(pool.value.(free := pool.value.free + count)) else pool
  }

  function After(events: seq<Event>): Option<Pool> {
    if events == [] then None else Apply(After(events[..|events| - 1]), events[|events| - 1])
  }

  const LARGEST: nat := 2 * BUFFER_SIZE - HEADER

  /** What a pool is like when no request was larger than the largest that can be met, and when one was. */
  ghost predicate Sound(pool: Option<Pool>, oversized: bool) {
    && (oversized ==> pool.Some? && pool.value.blockSize > 2 * BUFFER_SIZE)
    && (pool.Some? ==>
          && HEADER <= pool.value.blockSize && pool.value.free <= pool.value.count
          && (oversized ==> pool.value.count == 0)
          && (!oversized ==> pool.value.blockSize <= 2 * BUFFER_SIZE))
  }

  predicate Oversized(events: seq<Event>) {
    exists i :: 0 <= i < |events| && events[i].Create? && events[i].size > LARGEST
  }

  lemma NoneFit(total: nat, size: nat)
    requires size > 0
    ensures total / size == 0 <==> total < size
  {
  }

  lemma FreshPool(ratio: nat, payload: nat)
    requires 1 <= ratio <= 2
    ensures var p := Fresh(ratio, payload);
            && p.blockSize == payload + HEADER && p.free == p.count
            && (p.count > 0 <==> payload + HEADER <= BUFFER_SIZE * ratio)
  {
    NoneFit(BUFFER_SIZE * ratio, payload + HEADER);
  }

  /** One request: met exactly when neither it nor an earlier one was too large; blocks only grow. */
  lemma RequestStep(pool: Option<Pool>, size: nat, oversized: bool)
    requires Sound(pool, oversized)
    ensures var served := Request(pool, size);
            var tooLarge := oversized || size > LARGEST;
            && Sound(Some(served.pool), tooLarge)
            && (served.ok <==> !tooLarge)
            && MemorySize(size) <= served.pool.blockSize
            && (pool.Some? ==> pool.value.blockSize <= served.pool.blockSize)
  {
    var first := Fitting(pool, size);
    FreshPool(1, Max(DEFAULT_DATA_BLOCK_SIZE, size));
    FreshPool(1, size);
    hide Fresh;
    assert first.blockSize >= HEADER;
    FreshPool(2, first.blockSize - HEADER);
  }

  lemma {:induction false} RunIsSound(events: seq<Event>)
    ensures Sound(After(events), Oversized(events))
  {
    if events != [] {
      var before, e := events[..|events| - 1], events[|events| - 1];
      RunIsSound(before);
      OversizedSoFar(events);
      hide Request, Sound, Oversized;
      if e.Create? {
        RequestStep(After(before), e.size, Oversized(before));
      } else {
        FreeStep(After(before), e, Oversized(before));
      }
    }
  }

  lemma FreeStep(pool: Option<Pool>, e: Event, oversized: bool)
    requires Sound(pool, oversized) && e.Free?
    ensures Sound(Apply(pool, e), oversized)
  {
  }

  lemma OversizedSoFar(events: seq<Event>)
    requires events != []
    ensures var last := events[|events| - 1];
            Oversized(events) <==> Oversized(events[..|events| - 1]) || (last.Create? && last.size > LARGEST)
  {
    var before := events[..|events| - 1];
    if Oversized(before) {
      var i :| 0 <= i < |before| && before[i].Create? && before[i].size > LARGEST;
      assert events[i] == before[i];
    }
    if Oversized(events) {
      var i :| 0 <= i < |events| && events[i].Create? && events[i].size > LARGEST;
      assert i < |before| ==> before[i] == events[i];
    }
  }

  /** In every run of requests and releases a request is met, with room for what was asked, exactly when neither
      it nor any request before it was larger than 2 * 150 * 1024 - 4 bytes: one such request ends them all. */
  lemma RequestsAreMet(events: seq<Event>, size: nat)
    ensures var served := Request(After(events), size);
            && (served.ok <==> !Oversized(events) && size <= LARGEST)
            && MemorySize(size) <= served.pool.blockSize
            && (After(events).Some? ==> After(events).value.blockSize <= served.pool.blockSize)
  {
    RunIsSound(events);
    RequestStep(After(events), size, Oversized(events));
  }

  /** One byte can be asked for at first, but not after a request that was too large. */
  lemma OneLargeRequestEndsThem()
    ensures Request(After([]), 1).ok && !Request(After([Create(LARGEST + 1)]), 1).ok
  {
    var large := [Create(LARGEST + 1)];
    RequestsAreMet([], 1);
    RequestsAreMet(large, 1);
    assert large[0].size > LARGEST;
  }

  /** What a request makes of the pool: it takes one block of the pool there is if the size fits and a block is free;
      otherwise one of a new pool of the default buffer, or of twice that if no block fits in it, or the pool there
      was is exhausted. */
  lemma RequestTakesOne(pool: Option<Pool>, size: nat)
    requires pool.Some? ==> HEADER <= pool.value.blockSize
    ensures var served := Request(pool, size);
            var fits := pool.Some? && MemorySize(size) <= pool.value.blockSize;
            var payload := if pool.None? then Max(DEFAULT_DATA_BLOCK_SIZE, size) else size;
            && (fits && pool.value.free > 0 ==> served == Served(pool.value.(free := pool.value.free - 1), true))
            && (fits && pool.value.free == 0 ==>
                  && served.pool.blockSize == pool.value.blockSize
                  && served.pool.count == 2 * BUFFER_SIZE / pool.value.blockSize)
            && (!fits ==>
                  && served.pool.blockSize == MemorySize(payload)
                  && served.pool.count ==
                     (if MemorySize(payload) <= BUFFER_SIZE then 1 else 2) * BUFFER_SIZE / MemorySize(payload))
            && (!(fits && pool.value.free > 0) && served.ok ==> served.pool.free + 1 == served.pool.count)
  {
    FreshPool(1, Max(DEFAULT_DATA_BLOCK_SIZE, size));
    FreshPool(1, size);
    if pool.Some? {
      FreshPool(2, pool.value.blockSize - HEADER);
    }
  }

  function LargestRequest(events: seq<Event>): nat {
    if events == [] then DEFAULT_DATA_BLOCK_SIZE
    else
      var e := events[|events| - 1];
      Max(LargestRequest(events[..|events| - 1]), if e.Create? then e.size else 0)
  }

  lemma RequestSize(pool: Option<Pool>, size: nat, largest: nat)
    requires largest >= DEFAULT_DATA_BLOCK_SIZE && (pool.Some? ==> pool.value.blockSize == MemorySize(largest))
    requires pool.None? ==> largest == DEFAULT_DATA_BLOCK_SIZE
    ensures Request(pool, size).pool.blockSize == MemorySize(Max(largest, size))
  {
    RequestTakesOne(pool, size);
    hide Request;
  }

  /** The blocks of a pool are those of the largest request so far, and of the default size at least. */
  lemma {:induction false} BlocksAreTheLargest(events: seq<Event>)
    ensures LargestRequest(events) >= DEFAULT_DATA_BLOCK_SIZE
    ensures After(events).Some? ==> After(events).value.blockSize == MemorySize(LargestRequest(events))
    ensures After(events).None? ==> LargestRequest(events) == DEFAULT_DATA_BLOCK_SIZE
  {
    if events != [] {
      var before, e := events[..|events| - 1], events[|events| - 1];
      BlocksAreTheLargest(before);
      hide Request;
      if e.Create? {
        RequestSize(After(before), e.size, LargestRequest(before));
      }
    }
  }
}
