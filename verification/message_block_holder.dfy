// The operations of message_blocks.dfy step by step, on memory that changes in place,
// and the holder that owns one message block.
module MessageBlockHolder {
  import opened MessageBlocks
  import opened Wrappers

  /** The allocators of a connection and what was taken from them. */
  class Memory {
    const limits: Limits
    var blocksInUse: nat
    var data: map<nat, Data>
    var satellites: map<nat, int>
    var next: nat

    function View(): Store
      reads this
    {
      Store(limits, blocksInUse, data, satellites, next)
    }

    constructor (limits: Limits)
      ensures View() == Empty(limits)
    {
      this.limits := limits;
      blocksInUse := 0;
      data := map[];
      satellites := map[];
      next := 0;
    }

    /** None without an exception means that there was no satellite. */
    method Create(size: nat, isTunnel: bool) returns (block: Option<Ref>, threw: bool)
      requires next !in satellites
      modifies this
      ensures match MessageBlocks.Create(old(View()), size, isTunnel)
              case NoSatellite => block == None && !threw && View() == old(View())
              case CreateThrew => block == None && threw && View() == old(View())
              case Made(st, r) => block == Some(r) && !threw && View() == st
    {
      if |satellites| >= limits.dataBlocks {
        return None, false;
      }
      hide AddressOf;
      var satellite := next;
      AddThenDrop(satellites, satellite, 0, 1);
      satellites := satellites[satellite := 0];
      if blocksInUse >= limits.messageBlocks {
        satellites := satellites - {satellite};
        return None, true;
      }
      if |data| >= limits.dataBlocks || size + HEADER > limits.dataBlockSize {
        satellites := satellites - {satellite};
        return None, true;
      }
      blocksInUse := blocksInUse + 1;
      var cells := AddressOf(satellite) + seq(size, _ => Raw);
      satellites := satellites[satellite := satellites[satellite] + 1];
      data := data[satellite := Data(cells, true, isTunnel, map[satellite := MessageBlocks.View(HEADER, HEADER)])];
      next := next + 1;
      return Some(Ref(satellite, satellite)), false;
    }

    /** None means that an exception was thrown. */
    method Duplicate(r: Ref) returns (copy: Option<Ref>)
      requires Has(View(), r)
      modifies this
      ensures match MessageBlocks.Duplicate(old(View()), r)
              case Made(st, c) => copy == Some(c) && View() == st
              case _ => copy == None && View() == old(View())
    {
      if blocksInUse >= limits.messageBlocks {
        return None;
      }
      blocksInUse := blocksInUse + 1;
      var block := next;
      next := next + 1;
      var views := data[r.data].views;
      data := data[r.data := data[r.data].(views := views[block := views[r.block]])];
      var satellite := SatelliteOf(data[r.data]);
      if satellite in satellites {
        satellites := satellites[satellite := satellites[satellite] + 1];
      }
      return Some(Ref(r.data, block));
    }

    method Delete(r: Ref)
      requires Has(View(), r)
      modifies this
      ensures View() == MessageBlocks.Delete(old(View()), r)
    {
      var hasSatellite := data[r.data].hasSatellite;
      var satellite := SatelliteOf(data[r.data]);
      var views := data[r.data].views - {r.block};
      if blocksInUse > 0 {
        blocksInUse := blocksInUse - 1;
      }
      if views == map[] {
        data := data - {r.data};
      } else {
        data := data[r.data := data[r.data].(views := views)];
      }
      if hasSatellite && satellite in satellites {
        ghost var before := satellites;
        satellites := satellites[satellite := satellites[satellite] - 1];
        if satellites[satellite] == 0 {
          satellites := satellites - {satellite};
          assert satellites == before - {satellite};
        }
      }
    }
  }

  lemma AddThenDrop<V>(m: map<nat, V>, k: nat, v: V, w: V)
    requires k !in m
    ensures m[k := v] - {k} == m && m[k := v][k := w] == m[k := w]
  {
  }

  /** Owns a message block, which it deletes when it is reset. */
  class UniqueMessageBlockHolder {
    const memory: Memory
    var messageBlock: Option<Ref>

    constructor (memory: Memory, block: Option<Ref>)
      ensures this.memory == memory && messageBlock == block
    {
      this.memory := memory;
      messageBlock := block;
    }

    predicate IsSet()
      reads this, memory
    {
      messageBlock.Some? && Has(memory.View(), messageBlock.value)
    }

    method Duplicate() returns (copy: Option<Ref>)
      requires IsSet()
      modifies memory
      ensures match MessageBlocks.Duplicate(old(memory.View()), messageBlock.value)
              case Made(st, c) => copy == Some(c) && memory.View() == st
              case _ => copy == None && memory.View() == old(memory.View())
    {
      copy := memory.Duplicate(messageBlock.value);
    }

    method Reset(newBlock: Option<Ref>)
      requires messageBlock.Some? ==> IsSet()
      modifies this, memory
      ensures messageBlock == newBlock
      ensures memory.View() == if old(messageBlock).None? then old(memory.View())
                               else MessageBlocks.Delete(old(memory.View()), old(messageBlock).value)
    {
      if messageBlock.Some? {
        memory.Delete(messageBlock.value);
      }
      messageBlock := newBlock;
    }

    method Release()
      requires IsSet()
      modifies this
      ensures messageBlock == None
    {
      messageBlock := None;
    }

    /** The bytes replace the data of the block, which may become another one on the same satellite. */
    method SetData(bytes: seq<int>) returns (threw: bool)
      requires IsSet() && memory.next !in memory.data && |memory.data[messageBlock.value.data].cells| >= HEADER
      modifies this, memory
      ensures match MessageBlocks.SetData(old(memory.View()), old(messageBlock).value, bytes)
              case Made(st, r) => !threw && messageBlock == Some(r) && memory.View() == st
              case _ => threw && messageBlock == old(messageBlock) && memory.View() == old(memory.View())
    {
      var r := messageBlock.value;
      var was := memory.data[r.data];
      if bytes == [] {
        memory.data := memory.data[r.data := was.(views := was.views[r.block := MessageBlocks.View(HEADER, HEADER)])];
        return false;
      }
      if memory.blocksInUse >= memory.limits.messageBlocks
      || |memory.data| >= memory.limits.dataBlocks
      || |bytes| + HEADER > memory.limits.dataBlockSize {
        return true;
      }
      var id := memory.next;
      memory.next := memory.next + 1;
      memory.blocksInUse := memory.blocksInUse + 1;
      memory.data := memory.data[r.data := was.(hasSatellite := false)][id := NewData(was, id, bytes)];
      memory.Delete(r);
      messageBlock := Some(Ref(id, id));
      return false;
    }

    /** The client fills space behind the data and takes it. */
    method TakeWritableSpace(bytes: seq<int>) returns (threw: bool)
      requires IsSet()
      modifies memory
      ensures match MessageBlocks.Append(old(memory.View()), messageBlock.value, bytes)
              case Made(st, _) => !threw && memory.View() == st
              case _ => threw && memory.View() == old(memory.View())
    {
      var r := messageBlock.value;
      var block, view := memory.data[r.data], memory.data[r.data].views[r.block];
      if |block.cells| < view.wr + |bytes| {
        return true;
      }
      block := block.(cells := Overwritten(block.cells, view.wr, bytes));
      block := block.(views := block.views[r.block := view.(wr := view.wr + |bytes|)]);
      memory.data := memory.data[r.data := block];
      return false;
    }

    method Read(size: nat)
      requires IsSet() && size <= ViewOf(memory.View(), messageBlock.value).wr - ViewOf(memory.View(), messageBlock.value).rd
      modifies memory
      ensures memory.View() == MessageBlocks.Read(old(memory.View()), messageBlock.value, size)
    {
      var r := messageBlock.value;
      var block, view := memory.data[r.data], memory.data[r.data].views[r.block];
      memory.data := memory.data[r.data := block.(views := block.views[r.block := view.(rd := view.rd + size)])];
    }
  }
}
