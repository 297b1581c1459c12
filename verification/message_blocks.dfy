// UniqueMessageBlockHolder: message blocks that share a data block, and the satellite
// whose address is kept in the first bytes of the data. Pools are finite.
module MessageBlocks {

  const HEADER: nat := 4 // the size of a pointer to the satellite

  /** One byte of a data block: never written, client data, or a part of the satellite's address. */
  datatype Cell = Raw | Byte(value: int) | AddressByte(satellite: nat, index: nat)

  /** A message block is a pair of positions in its data. */
  datatype View = View(rd: nat, wr: nat)

  /** A data block and the live message blocks on it, by id. Duplicates share the flags, which belong to the data. */
  datatype Data = Data(cells: seq<Cell>, hasSatellite: bool, isTunnel: bool, views: map<nat, View>)

  datatype Limits = Limits(messageBlocks: nat, dataBlocks: nat, dataBlockSize: nat)

  datatype Store = Store(
    limits: Limits,
    blocksInUse: nat, // message blocks taken from their allocator and not given back
    data: map<nat, Data>,
    satellites: map<nat, int>, // live satellites and their reference counts
    next: nat) // ids never used so far

  /** A pointer to a message block: its data and its id there. */
  datatype Ref = Ref(data: nat, block: nat)

  datatype Created = NoSatellite | CreateThrew | Made(store: Store, ref: Ref)

  predicate Has(st: Store, r: Ref) {
    r.data in st.data && r.block in st.data[r.data].views
  }

  function ViewOf(st: Store, r: Ref): View
    requires Has(st, r)
  {
    st.data[r.data].views[r.block]
  }

  function Empty(limits: Limits): Store {
    Store(limits, 0, map[], map[], 0)
  }

  function AddressOf(satellite: nat): seq<Cell> {
    seq(HEADER, (k: nat) => AddressByte(satellite, k))
  }

  /** The first bytes are the address of `satellite`, as GetSatellite reads them back. */
  predicate HoldsAddress(cells: seq<Cell>, satellite: nat) {
    |cells| >= HEADER && forall k :: 0 <= k < HEADER ==> cells[k] == AddressByte(satellite, k)
  }

  // ---------------------------------------------------------------- the operations

  /** A new message block with room for `size` bytes of data. */
  function Create(st: Store, size: nat, isTunnel: bool): Created {
    if |st.satellites| >= st.limits.dataBlocks then NoSatellite
    else if st.blocksInUse >= st.limits.messageBlocks
         || |st.data| >= st.limits.dataBlocks
         || size + HEADER > st.limits.dataBlockSize then CreateThrew
    else
      var id := st.next;
      var data := Data(AddressOf(id) + seq(size, _ => Raw), true, isTunnel, map[id := View(HEADER, HEADER)]);
      Made(st.(blocksInUse := st.blocksInUse + 1,
               data := st.data[id := data],
               satellites := st.satellites[id := 1],
               next := id + 1), Ref(id, id))
  }

  function Counted(satellites: map<nat, int>, s: nat, change: int): map<nat, int> {
    if s in satellites then satellites[s := satellites[s] + change] else satellites
  }

  /** The address a block's data starts with; blocks without one are never asked. */
  function SatelliteOf(data: Data): nat {
    if |data.cells| > 0 && data.cells[0].AddressByte? then data.cells[0].satellite else 0
  }

  /** A second message block on the same data. */
  function Duplicate(st: Store, r: Ref): Created
    requires Has(st, r)
  {
    if st.blocksInUse >= st.limits.messageBlocks then CreateThrew
    else
      var data := st.data[r.data];
      Made(st.(blocksInUse := st.blocksInUse + 1,
               data := st.data[r.data := data.(views := data.views[st.next := data.views[r.block]])],
               satellites := Counted(st.satellites, SatelliteOf(data), 1),
               next := st.next + 1), Ref(r.data, st.next))
  }

  /** The message block goes; its data goes with the last block on it; so does the satellite. */
  function Delete(st: Store, r: Ref): Store
    requires Has(st, r)
  {
    var data := st.data[r.data];
    var views := data.views - {r.block};
    var s := SatelliteOf(data);
    st.(blocksInUse := if st.blocksInUse > 0 then st.blocksInUse - 1 else 0,
        data := if views == map[] then st.data - {r.data} else st.data[r.data := data.(views := views)],
        satellites := if !data.hasSatellite then st.satellites
                      else if s in st.satellites && st.satellites[s] == 1 then st.satellites - {s}
                      else Counted(st.satellites, s, -1))
  }

  function Bytes(bytes: seq<int>): seq<Cell> {
    seq(|bytes|, i requires 0 <= i < |bytes| => Byte(bytes[i]))
  }

  /** The data SetData puts in place of `was`. */
  function NewData(was: Data, id: nat, bytes: seq<int>): Data
    requires |was.cells| >= HEADER
  {
    var cells := was.cells[..HEADER] + Bytes(bytes);
    Data(cells, true, was.isTunnel, map[id := View(HEADER, |cells|)])
  }

  /** The satellite has moved to the new data, and the block that SetData replaces is still there. */
  function Placed(st: Store, r: Ref, bytes: seq<int>): Store
    requires Has(st, r) && |st.data[r.data].cells| >= HEADER
  {
    var was, id := st.data[r.data], st.next;
    st.(blocksInUse := st.blocksInUse + 1,
        data := st.data[r.data := was.(hasSatellite := false)][id := NewData(was, id, bytes)],
        next := id + 1)
  }

  /** SetData: new data of the given bytes under the same satellite, in place of the block. */
  function SetData(st: Store, r: Ref, bytes: seq<int>): Created
    requires Has(st, r) && st.next !in st.data
  {
    var was := st.data[r.data];
    if bytes == [] then
      Made(st.(data := st.data[r.data := was.(views := was.views[r.block := View(HEADER, HEADER)])]), r)
    else if st.blocksInUse >= st.limits.messageBlocks
         || |st.data| >= st.limits.dataBlocks
         || |bytes| + HEADER > st.limits.dataBlockSize
         || |was.cells| < HEADER then CreateThrew
    else
      Made(Delete(Placed(st, r, bytes), r), Ref(st.next, st.next))
  }

  function Overwritten(cells: seq<Cell>, at: nat, bytes: seq<int>): seq<Cell>
    requires at + |bytes| <= |cells|
  {
    cells[..at] + Bytes(bytes) + cells[at + |bytes|..]
  }

  /** The client fills writable space it asked for and takes it. */
  function Append(st: Store, r: Ref, bytes: seq<int>): Created
    requires Has(st, r)
  {
    var data, view := st.data[r.data], ViewOf(st, r);
    if |data.cells| < view.wr + |bytes| then CreateThrew
    else
      Made(st.(data := st.data[r.data := data.(cells := Overwritten(data.cells, view.wr, bytes),
                                               views := data.views[r.block := view.(wr := view.wr + |bytes|)])]), r)
  }

  /** The client has read that many bytes; it may not ask for more than there are. */
  function Read(st: Store, r: Ref, size: nat): Store
    requires Has(st, r) && size <= ViewOf(st, r).wr - ViewOf(st, r).rd
  {
    var data, view := st.data[r.data], ViewOf(st, r);
    st.(data := st.data[r.data := data.(views := data.views[r.block := view.(rd := view.rd + size)])])
  }

  // ---------------------------------------------------------------- the invariant

  /** The positions of every block stay beyond the satellite's address and inside the data. */
  ghost predicate InBounds(data: Data) {
    forall b :: b in data.views ==> HEADER <= data.views[b].rd <= data.views[b].wr <= |data.cells|
  }

  /** Data carries its satellite: the flag is set, the address is intact, the count is its live blocks. */
  ghost predicate Carries(data: Data, s: nat, refs: int) {
    data.hasSatellite && HoldsAddress(data.cells, s) && refs == |data.views| > 0 && InBounds(data)
  }

  ghost predicate Valid(st: Store) {
    exists home :: ValidWith(st, home)
  }

  /** `home` tells the one data block that carries each live satellite, and no data is without one. */
  ghost predicate ValidWith(st: Store, home: map<nat, nat>) {
    && home.Keys == st.satellites.Keys
    && home.Values == st.data.Keys
    && (forall s :: s in home ==> s < st.next && Carries(st.data[home[s]], s, st.satellites[s]))
    && (forall d :: d in st.data ==> d < st.next && IdsBelow(st.data[d], st.next))
  }

  ghost predicate IdsBelow(data: Data, next: nat) {
    forall b :: b in data.views ==> b < next
  }

  lemma EmptyIsValid(limits: Limits)
    ensures Valid(Empty(limits))
  {
    assert ValidWith(Empty(limits), map[]);
  }

  lemma AddressIsReadBack(data: Data, s: nat)
    requires HoldsAddress(data.cells, s)
    ensures SatelliteOf(data) == s
  {
    assert data.cells[0] == AddressByte(s, 0);
  }

  ghost predicate AloneAt(home: map<nat, nat>, s: nat)
    requires s in home
  {
    forall t :: t in home && t != s ==> home[t] != home[s]
  }

  lemma ValuesWithout(home: map<nat, nat>, s: nat)
    requires s in home && AloneAt(home, s)
    ensures (home - {s}).Values == home.Values - {home[s]}
  {
    forall d | d in home.Values - {home[s]}
      ensures d in (home - {s}).Values
    {
      var t :| t in home && home[t] == d;
      assert t in home - {s} && (home - {s})[t] == d;
    }
  }

  lemma ValuesWith(home: map<nat, nat>, s: nat, d: nat)
    requires s !in home
    ensures home[s := d].Values == home.Values + {d}
  {
    assert home[s := d][s] == d;
    forall e | e in home.Values
      ensures e in home[s := d].Values
    {
      var t :| t in home && home[t] == e;
      assert home[s := d][t] == e;
    }
  }

  /** Two satellites never share their data: it starts with the address of one of them. */
  lemma HomesDiffer(st: Store, home: map<nat, nat>, s: nat)
    requires ValidWith(st, home) && s in home
    ensures home[s] in st.data && SatelliteOf(st.data[home[s]]) == s && AloneAt(home, s)
  {
    AddressIsReadBack(st.data[home[s]], s);
    forall t | t in home && t != s
      ensures home[t] != home[s]
    {
      AddressIsReadBack(st.data[home[t]], t);
    }
  }

  lemma Replace<V>(m: map<nat, V>, s: nat, v: V)
    ensures (m - {s})[s := v] == m[s := v]
  {
  }

  lemma DropKeeps(st: Store, home: map<nat, nat>, s: nat, after: Store)
    requires ValidWith(st, home) && s in home
    requires after.data == st.data - {home[s]} && after.satellites == st.satellites - {s} && after.next == st.next
    ensures ValidWith(after, home - {s})
  {
    HomesDiffer(st, home, s);
    ValuesWithout(home, s);
  }

  lemma AddKeeps(st: Store, home: map<nat, nat>, s: nat, d: nat, data: Data, refs: int, after: Store)
    requires ValidWith(st, home) && s !in home && d !in st.data && s < after.next && d < after.next
    requires after.data == st.data[d := data] && after.satellites == st.satellites[s := refs] && after.next >= st.next
    requires Carries(data, s, refs) && IdsBelow(data, after.next)
    ensures ValidWith(after, home[s := d])
  {
    hide Carries;
    ValuesWith(home, s, d);
  }

  /** A satellite gets its data changed, or gets other data. */
  lemma PutKeeps(st: Store, home: map<nat, nat>, s: nat, d: nat, data: Data, refs: int, after: Store)
    requires ValidWith(st, home) && s in home
    requires d == home[s] || (d !in st.data && d < after.next)
    requires after.data == (st.data - {home[s]})[d := data] && after.satellites == st.satellites[s := refs]
    requires after.next >= st.next && Carries(data, s, refs) && IdsBelow(data, after.next)
    ensures ValidWith(after, home[s := d])
  {
    var dropped := st.(data := st.data - {home[s]}, satellites := st.satellites - {s});
    assert ValidWith(dropped, home - {s}) by { DropKeeps(st, home, s, dropped); }
    assert d !in dropped.data && d < after.next && s < after.next;
    Replace(st.satellites, s, refs);
    Replace(home, s, d);
    AddKeeps(dropped, home - {s}, s, d, data, refs, after);
  }

  // ---------------------------------------------------------------- every operation keeps it

  /** The satellite of a live block. */
  lemma HomeOf(st: Store, home: map<nat, nat>, d: nat) returns (s: nat)
    requires ValidWith(st, home) && d in st.data
    ensures s in home && home[s] == d && s == SatelliteOf(st.data[d]) && Carries(st.data[d], s, st.satellites[s])
  {
    assert d in home.Values;
    s :| s in home && home[s] == d;
    AddressIsReadBack(st.data[d], s);
  }

  lemma CreateKeeps(st: Store, home: map<nat, nat>, size: nat, isTunnel: bool)
    requires ValidWith(st, home)
    ensures var c := Create(st, size, isTunnel);
            c.Made? ==> ValidWith(c.store, home[c.ref.data := c.ref.data])
  {
    var c := Create(st, size, isTunnel);
    if c.Made? {
      var id := st.next;
      AddKeeps(st, home, id, id, c.store.data[id], 1, c.store);
    }
  }

  lemma DuplicateKeeps(st: Store, home: map<nat, nat>, r: Ref)
    requires ValidWith(st, home) && Has(st, r)
    ensures var c := Duplicate(st, r);
            c.Made? ==> ValidWith(c.store, home) && !Has(st, c.ref)
  {
    var c := Duplicate(st, r);
    if c.Made? {
      var s := HomeOf(st, home, r.data);
      var data := c.store.data[r.data];
      assert |data.views| == |st.data[r.data].views| + 1;
      MovedView(st, home, s, data, c.store);
    }
  }

  /** The data of satellite `s` is replaced under its old name. */
  lemma MovedView(st: Store, home: map<nat, nat>, s: nat, data: Data, after: Store)
    requires ValidWith(st, home) && s in home && after.next >= st.next
    requires after.data == st.data[home[s] := data]
    requires after.satellites == st.satellites[s := |data.views|]
    requires Carries(data, s, |data.views|) && IdsBelow(data, after.next)
    ensures ValidWith(after, home)
  {
    hide Carries;
    assert home[s] in st.data by { HomesDiffer(st, home, s); }
    hide ValidWith, IdsBelow;
    Replace(st.data, home[s], data);
    PutKeeps(st, home, s, home[s], data, |data.views|, after);
    assert home[s := home[s]] == home;
  }

  /** Deleting any block but the last takes one off the count; deleting the last frees data and satellite. */
  lemma DeleteKeeps(st: Store, home: map<nat, nat>, r: Ref)
    requires ValidWith(st, home) && Has(st, r)
    ensures var after := Delete(st, r);
            var s := SatelliteOf(st.data[r.data]);
            && s in st.satellites
            && Valid(after)
            && (st.satellites[s] == 1 ==> s !in after.satellites && r.data !in after.data)
            && (st.satellites[s] > 1 ==> s in after.satellites && after.satellites[s] == st.satellites[s] - 1)
  {
    var after := Delete(st, r);
    var data := st.data[r.data];
    var s := HomeOf(st, home, r.data);
    var views := data.views - {r.block};
    assert |views| == |data.views| - 1;
    if views == map[] {
      DropKeeps(st, home, s, after);
    } else {
      MovedView(st, home, s, data.(views := views), after);
    }
  }

  lemma AppendedCarries(data: Data, s: nat, block: nat, bytes: seq<int>)
    requires block in data.views && Carries(data, s, |data.views|) && data.views[block].wr + |bytes| <= |data.cells|
    ensures var view := data.views[block];
            var after := data.(cells := Overwritten(data.cells, view.wr, bytes),
                               views := data.views[block := view.(wr := view.wr + |bytes|)]);
            Carries(after, s, |after.views|) && |after.views| == |data.views| && after.views.Keys == data.views.Keys
  {
    var view := data.views[block];
    assert data.views[block := view.(wr := view.wr + |bytes|)].Keys == data.views.Keys;
  }

  lemma AppendKeeps(st: Store, home: map<nat, nat>, r: Ref, bytes: seq<int>)
    requires ValidWith(st, home) && Has(st, r)
    ensures var c := Append(st, r, bytes);
            c.Made? ==> ValidWith(c.store, home) && c.store.satellites == st.satellites
  {
    hide Carries, Overwritten;
    var c := Append(st, r, bytes);
    if c.Made? {
      var s := HomeOf(st, home, r.data);
      IsCounted(st.data[r.data], s, st.satellites[s]);
      AppendedCarries(st.data[r.data], s, r.block, bytes);
      assert c.store.satellites == st.satellites[s := |st.data[r.data].views|];
      MovedView(st, home, s, c.store.data[r.data], c.store);
    }
  }

  lemma IsCounted(data: Data, s: nat, refs: int)
    requires Carries(data, s, refs)
    ensures refs == |data.views| && Carries(data, s, |data.views|)
  {
  }

  lemma ReadKeeps(st: Store, home: map<nat, nat>, r: Ref, size: nat)
    requires ValidWith(st, home) && Has(st, r) && size <= ViewOf(st, r).wr - ViewOf(st, r).rd
    ensures ValidWith(Read(st, r, size), home) && Read(st, r, size).satellites == st.satellites
  {
    var after := Read(st, r, size);
    var s := HomeOf(st, home, r.data);
    assert after.satellites == st.satellites[s := |st.data[r.data].views|];
    MovedView(st, home, s, after.data[r.data], after);
  }

  lemma MoveKey<V>(m: map<nat, V>, d: nat, id: nat, v: V, w: V)
    requires d != id
    ensures m[d := v][id := w] - {d} == (m - {d})[id := w]
  {
  }

  lemma NewDataCarries(was: Data, s: nat, id: nat, bytes: seq<int>)
    requires HoldsAddress(was.cells, s)
    ensures Carries(NewData(was, id, bytes), s, 1) && IdsBelow(NewData(was, id, bytes), id + 1)
  {
  }

  /** The data of the only block on it gives way to the new data. */
  lemma SetDataReplaces(st: Store, r: Ref, bytes: seq<int>)
    requires Has(st, r) && st.next !in st.data && bytes != []
    requires SetData(st, r, bytes).Made? && |st.data[r.data].views| == 1
    ensures var after, data := SetData(st, r, bytes).store, NewData(st.data[r.data], st.next, bytes);
            && after.data == (st.data - {r.data})[st.next := data]
            && after.next == st.next + 1 && after.satellites == st.satellites
  {
    hide NewData, SatelliteOf;
    var was := st.data[r.data];
    assert |was.views - {r.block}| == 0;
    MoveKey(st.data, r.data, st.next, was.(hasSatellite := false), NewData(was, st.next, bytes));
  }

  /** The one block is what its satellite counts. */
  lemma AloneIsCounted(st: Store, home: map<nat, nat>, r: Ref) returns (s: nat)
    requires ValidWith(st, home) && Has(st, r) && |st.data[r.data].views| == 1
    ensures s in home && home[s] == r.data
    ensures |st.data[r.data].cells| >= HEADER && HoldsAddress(st.data[r.data].cells, s)
    ensures st.satellites == st.satellites[s := 1]
  {
    s := HomeOf(st, home, r.data);
  }

  lemma SetDataAlone(st: Store, home: map<nat, nat>, r: Ref, bytes: seq<int>)
    requires ValidWith(st, home) && Has(st, r) && st.next !in st.data && bytes != []
    requires SetData(st, r, bytes).Made? && |st.data[r.data].views| == 1
    ensures Valid(SetData(st, r, bytes).store)
  {
    hide Carries, ValidWith, SetData, NewData, HoldsAddress, IdsBelow;
    var s := AloneIsCounted(st, home, r);
    SetDataReplaces(st, r, bytes);
    NewDataCarries(st.data[r.data], s, st.next, bytes);
    PutKeeps(st, home, s, st.next, NewData(st.data[r.data], st.next, bytes), 1, SetData(st, r, bytes).store);
  }

  lemma FlagIsSet(st: Store, d: nat)
    requires Valid(st) && d in st.data
    ensures st.data[d].hasSatellite
  {
    var home :| ValidWith(st, home);
    var _ := HomeOf(st, home, d);
  }

  lemma SetDataShared(st: Store, home: map<nat, nat>, r: Ref, bytes: seq<int>)
    requires ValidWith(st, home) && Has(st, r) && st.next !in st.data && bytes != []
    requires SetData(st, r, bytes).Made? && |st.data[r.data].views| > 1
    ensures !Valid(SetData(st, r, bytes).store)
  {
    var after := SetData(st, r, bytes).store;
    assert |st.data[r.data].views - {r.block}| > 0;
    assert r.data in after.data && !after.data[r.data].hasSatellite;
    if Valid(after) {
      FlagIsSet(after, r.data);
    }
  }

  /** SetData keeps the ownership exactly when the block has no live duplicate. */
  lemma SetDataKeeps(st: Store, r: Ref, bytes: seq<int>)
    requires Valid(st) && Has(st, r) && st.next !in st.data && bytes != []
    requires SetData(st, r, bytes).Made?
    ensures Valid(SetData(st, r, bytes).store) <==> |st.data[r.data].views| == 1
  {
    var home :| ValidWith(st, home);
    var _ := HomeOf(st, home, r.data);
    if |st.data[r.data].views| == 1 {
      SetDataAlone(st, home, r, bytes);
    } else {
      SetDataShared(st, home, r, bytes);
    }
  }

  // ---------------------------------------------------------------- every run

  datatype Op =
    | OpCreate(size: nat, isTunnel: bool)
    | OpDuplicate(ref: Ref)
    | OpDelete(ref: Ref)
    | OpSetData(ref: Ref, bytes: seq<int>)
    | OpAppend(ref: Ref, bytes: seq<int>)
    | OpRead(ref: Ref, size: nat)

  /** What the callers owe: live blocks, reads within the data, and no SetData beside a duplicate. */
  predicate Allowed(st: Store, op: Op) {
    match op
    case OpCreate(_, _) => true
    case OpDuplicate(r) => Has(st, r)
    case OpDelete(r) => Has(st, r)
    case OpSetData(r, _) => Has(st, r) && st.next !in st.data && |st.data[r.data].views| == 1
    case OpAppend(r, _) => Has(st, r)
    case OpRead(r, size) => Has(st, r) && size <= ViewOf(st, r).wr - ViewOf(st, r).rd
  }

  /** An operation that throws, or finds no satellite, changes nothing. */
  function Perform(st: Store, op: Op): Store
    requires Allowed(st, op)
  {
    match op
    case OpCreate(size, isTunnel) => StoreOr(Create(st, size, isTunnel), st)
    case OpDuplicate(r) => StoreOr(Duplicate(st, r), st)
    case OpDelete(r) => Delete(st, r)
    case OpSetData(r, bytes) => StoreOr(SetData(st, r, bytes), st)
    case OpAppend(r, bytes) => StoreOr(Append(st, r, bytes), st)
    case OpRead(r, size) => Read(st, r, size)
  }

  function StoreOr(c: Created, st: Store): Store {
    if c.Made? then c.store else st
  }

  lemma ResetKeeps(st: Store, home: map<nat, nat>, r: Ref)
    requires ValidWith(st, home) && Has(st, r) && st.next !in st.data
    ensures ValidWith(SetData(st, r, []).store, home)
  {
    var s := HomeOf(st, home, r.data);
    var after := SetData(st, r, []).store;
    assert after.satellites == st.satellites[s := |st.data[r.data].views|];
    MovedView(st, home, s, after.data[r.data], after);
  }

  lemma PerformSetDataKeeps(st: Store, home: map<nat, nat>, r: Ref, bytes: seq<int>)
    requires ValidWith(st, home) && Allowed(st, OpSetData(r, bytes))
    ensures Valid(Perform(st, OpSetData(r, bytes)))
  {
    if bytes == [] {
      ResetKeeps(st, home, r);
    } else if SetData(st, r, bytes).Made? {
      SetDataAlone(st, home, r, bytes);
    }
  }

  lemma PerformNewKeeps(st: Store, home: map<nat, nat>, op: Op)
    requires ValidWith(st, home) && Allowed(st, op) && (op.OpCreate? || op.OpDuplicate?)
    ensures Valid(Perform(st, op))
  {
    match op
    case OpCreate(size, isTunnel) => CreateKeeps(st, home, size, isTunnel);
    case OpDuplicate(r) => DuplicateKeeps(st, home, r);
  }

  lemma PerformMoveKeeps(st: Store, home: map<nat, nat>, op: Op)
    requires ValidWith(st, home) && Allowed(st, op) && (op.OpAppend? || op.OpRead?)
    ensures Valid(Perform(st, op))
  {
    match op
    case OpAppend(r, bytes) => AppendKeeps(st, home, r, bytes);
    case OpRead(r, size) => ReadKeeps(st, home, r, size);
  }

  lemma PerformKeeps(st: Store, op: Op)
    requires Valid(st) && Allowed(st, op)
    ensures Valid(Perform(st, op))
  {
    var home :| ValidWith(st, home);
    match op
    case OpDelete(r) => DeleteKeeps(st, home, r);
    case OpSetData(r, bytes) => PerformSetDataKeeps(st, home, r, bytes);
    case OpCreate(_, _) | OpDuplicate(_) => PerformNewKeeps(st, home, op);
    case OpAppend(_, _) | OpRead(_, _) => PerformMoveKeeps(st, home, op);
  }

  ghost predicate Runs(st: Store, ops: seq<Op>)
    decreases |ops|
  {
    ops == [] || (Allowed(st, ops[0]) && Runs(Perform(st, ops[0]), ops[1..]))
  }

  ghost function After(st: Store, ops: seq<Op>): Store
    requires Runs(st, ops)
    decreases |ops|
  {
    if ops == [] then st else After(Perform(st, ops[0]), ops[1..])
  }

  lemma {:induction false} RunKeeps(st: Store, ops: seq<Op>)
    requires Valid(st) && Runs(st, ops)
    ensures Valid(After(st, ops))
    decreases |ops|
  {
    if ops != [] {
      PerformKeeps(st, ops[0]);
      RunKeeps(Perform(st, ops[0]), ops[1..]);
    }
  }

  lemma TwoSteps(st: Store, first: Op, second: Op)
    requires Allowed(st, first) && Allowed(Perform(st, first), second)
    ensures Runs(st, [first, second]) && After(st, [first, second]) == Perform(Perform(st, first), second)
  {
    hide Allowed, Perform;
    var next, last := Perform(st, first), Perform(Perform(st, first), second);
    assert [first, second][1..] == [second] && [second][1..] == [];
    assert Runs(last, []) && Runs(next, [second]) && After(next, [second]) == last;
  }

  /** A block, a duplicate of it, and SetData on the block: the duplicate is left without its satellite. */
  lemma SharedSetDataBreaks(limits: Limits)
    requires limits.messageBlocks >= 3 && limits.dataBlocks >= 2 && limits.dataBlockSize > HEADER
    ensures var ops, r := [OpCreate(1, true), OpDuplicate(Ref(0, 0))], Ref(0, 0);
            && Runs(Empty(limits), ops)
            && var st := After(Empty(limits), ops);
            && Has(st, r) && st.next !in st.data && SetData(st, r, [7]).Made?
            && Valid(st) && !Valid(SetData(st, r, [7]).store)
  {
    hide Valid, Runs, After, SatelliteOf;
    var ops, r := [OpCreate(1, true), OpDuplicate(Ref(0, 0))], Ref(0, 0);
    var two := Perform(Perform(Empty(limits), ops[0]), ops[1]);
    TwoSteps(Empty(limits), ops[0], ops[1]);
    assert |two.data[0].views| == 2;
    EmptyIsValid(limits);
    RunKeeps(Empty(limits), ops);
    SetDataKeeps(two, r, [7]);
  }

  /** In every run the address in front of any live block is intact and names a live satellite, whose count
      is the number of live blocks on that data; the block's positions are beyond the address. */
  lemma AddressAndCountAreRight(limits: Limits, ops: seq<Op>, r: Ref)
    requires Runs(Empty(limits), ops) && Has(After(Empty(limits), ops), r)
    ensures var st := After(Empty(limits), ops);
            var data := st.data[r.data];
            var s := SatelliteOf(data);
            && data.hasSatellite && HoldsAddress(data.cells, s)
            && s in st.satellites && st.satellites[s] == |data.views|
            && (forall d :: d in st.data && SatelliteOf(st.data[d]) == s ==> d == r.data)
            && HEADER <= ViewOf(st, r).rd <= ViewOf(st, r).wr <= |data.cells|
  {
    EmptyIsValid(limits);
    RunKeeps(Empty(limits), ops);
    var st := After(Empty(limits), ops);
    var home :| ValidWith(st, home);
    var s := HomeOf(st, home, r.data);
    forall d | d in st.data && SatelliteOf(st.data[d]) == s
      ensures d == r.data
    {
      var t := HomeOf(st, home, d);
    }
  }

  lemma SetDataFreesNoSatellite(st: Store, r: Ref, bytes: seq<int>)
    requires Has(st, r) && st.next !in st.data && SetData(st, r, bytes).Made?
    ensures SetData(st, r, bytes).store.satellites == st.satellites
  {
  }

  lemma OnlyDeleteFrees(st: Store, op: Op, s: nat)
    requires Allowed(st, op) && s in st.satellites && !op.OpDelete?
    ensures s in Perform(st, op).satellites
  {
    if op.OpSetData? && SetData(st, op.ref, op.bytes).Made? {
      SetDataFreesNoSatellite(st, op.ref, op.bytes);
    }
  }

  lemma DeleteFrees(st: Store, r: Ref, s: nat)
    requires Has(st, r) && s in st.satellites && st.data[r.data].hasSatellite
    requires SatelliteOf(st.data[r.data]) in st.satellites
    ensures s !in Delete(st, r).satellites <==>
              SatelliteOf(st.data[r.data]) == s && st.satellites[s] == 1
  {
  }

  /** A satellite is freed by the step that deletes the last block carrying it, and by no other. */
  lemma FreedByTheLastDelete(st: Store, op: Op, s: nat)
    requires Valid(st) && Allowed(st, op) && s in st.satellites
    ensures s !in Perform(st, op).satellites <==>
              && op.OpDelete?
              && SatelliteOf(st.data[op.ref.data]) == s
              && |st.data[op.ref.data].views| == 1
  {
    if op.OpDelete? {
      var home :| ValidWith(st, home);
      var _ := HomeOf(st, home, op.ref.data);
      DeleteFrees(st, op.ref, s);
    } else {
      OnlyDeleteFrees(st, op, s);
    }
  }

  /** How often deleting a message block destroys `s`: once if its data names `s` as its own, and no other block
      that carries `s` is left. A satellite that is gone already would be destroyed again. */
  function Destroys(st: Store, r: Ref, s: nat): nat
    requires Has(st, r)
  {
    var data := st.data[r.data];
    if data.hasSatellite && SatelliteOf(data) == s && !(s in st.satellites && st.satellites[s] > 1) then 1 else 0
  }

  function Frees(st: Store, op: Op, s: nat): nat
    requires Allowed(st, op)
  {
    match op
    case OpDelete(r) => Destroys(st, r, s)
    case OpSetData(r, bytes) =>
      if bytes != [] && SetData(st, r, bytes).Made? then Destroys(Placed(st, r, bytes), r, s) else 0
    case _ => 0
  }

  function Makes(st: Store, op: Op, s: nat): nat {
    match op
    case OpCreate(size, isTunnel) =>
      var c := Create(st, size, isTunnel);
      if c.Made? && c.ref.data == s then 1 else 0
    case _ => 0
  }

  /** How often `s` is destroyed in a run, and how often it is made. */
  ghost function Freed(st: Store, ops: seq<Op>, s: nat): nat
    requires Runs(st, ops)
    decreases |ops|
  {
    if ops == [] then 0 else Frees(st, ops[0], s) + Freed(Perform(st, ops[0]), ops[1..], s)
  }

  ghost function MadeIn(st: Store, ops: seq<Op>, s: nat): nat
    requires Runs(st, ops)
    decreases |ops|
  {
    if ops == [] then 0 else Makes(st, ops[0], s) + MadeIn(Perform(st, ops[0]), ops[1..], s)
  }

  function Live(st: Store, s: nat): nat {
    if s in st.satellites then 1 else 0
  }

  lemma CountIsPositive(st: Store, r: Ref)
    requires Valid(st) && Has(st, r)
    ensures st.data[r.data].hasSatellite
    ensures SatelliteOf(st.data[r.data]) in st.satellites && st.satellites[SatelliteOf(st.data[r.data])] > 0
  {
    var home :| ValidWith(st, home);
    var _ := HomeOf(st, home, r.data);
  }

  lemma DestroysCounted(st: Store, r: Ref, s: nat)
    requires Valid(st) && Has(st, r)
    ensures Destroys(st, r, s) + Live(Delete(st, r), s) == Live(st, s)
  {
    CountIsPositive(st, r);
    hide Valid, SatelliteOf;
  }

  lemma CreateCounted(st: Store, size: nat, isTunnel: bool, s: nat)
    requires Valid(st)
    ensures var op := OpCreate(size, isTunnel);
            && Live(Perform(st, op), s) == Live(st, s) + Makes(st, op, s)
            && (Makes(st, op, s) == 1 ==> s == st.next)
  {
    NextIsFresh(st);
    hide Valid, AddressOf;
  }

  lemma SetDataCounted(st: Store, r: Ref, bytes: seq<int>, s: nat)
    requires Allowed(st, OpSetData(r, bytes))
    ensures Frees(st, OpSetData(r, bytes), s) == 0 && Live(Perform(st, OpSetData(r, bytes)), s) == Live(st, s)
  {
    if SetData(st, r, bytes).Made? {
      SetDataFreesNoSatellite(st, r, bytes);
    }
    hide Delete, SatelliteOf, NewData;
  }

  lemma NextGrows(st: Store, op: Op, s: nat)
    requires Allowed(st, op)
    ensures st.next <= Perform(st, op).next
    ensures Makes(st, op, s) <= 1 && (Makes(st, op, s) == 1 ==> st.next < Perform(st, op).next)
  {
    hide SatelliteOf, NewData, Counted;
  }

  lemma FreesCounted(st: Store, op: Op, s: nat)
    requires Valid(st) && Allowed(st, op)
    ensures Frees(st, op, s) + Live(Perform(st, op), s) == Live(st, s) + Makes(st, op, s)
    ensures Makes(st, op, s) == 1 ==> s == st.next
  {
    match op
    case OpDelete(r) => hide Valid; DestroysCounted(st, r, s);
    case OpSetData(r, bytes) => SetDataCounted(st, r, bytes, s);
    case OpCreate(size, isTunnel) => CreateCounted(st, size, isTunnel, s);
    case _ =>
  }

  lemma {:induction false} FreedCounted(st: Store, ops: seq<Op>, s: nat)
    requires Valid(st) && Runs(st, ops)
    ensures Freed(st, ops, s) + Live(After(st, ops), s) == Live(st, s) + MadeIn(st, ops, s)
    ensures MadeIn(st, ops, s) <= if s < st.next then 0 else 1
    decreases |ops|
  {
    hide Valid, Perform, Allowed, Frees, Makes, Live;
    if ops != [] {
      FreesCounted(st, ops[0], s);
      NextGrows(st, ops[0], s);
      PerformKeeps(st, ops[0]);
      FreedCounted(Perform(st, ops[0]), ops[1..], s);
    }
  }

  /** In every run a satellite is made at most once, never destroyed before it is made, and destroyed exactly once
      if it was made and is no longer there. */
  lemma FreedOnce(limits: Limits, ops: seq<Op>, s: nat)
    requires Runs(Empty(limits), ops)
    ensures var st, freed, made := After(Empty(limits), ops), Freed(Empty(limits), ops, s), MadeIn(Empty(limits), ops, s);
            && freed <= made <= 1
            && (freed == 1 <==> made == 1 && s !in st.satellites)
  {
    EmptyIsValid(limits);
    FreedCounted(Empty(limits), ops, s);
  }

  // ---------------------------------------------------------------- the limits

  lemma {:induction false} InjectiveSize(home: map<nat, nat>)
    requires forall s :: s in home ==> AloneAt(home, s)
    ensures |home.Values| == |home.Keys|
    decreases |home|
  {
    if s :| s in home {
      var rest := home - {s};
      assert rest.Keys == home.Keys - {s};
      ValuesWithout(home, s);
      forall t | t in rest
        ensures AloneAt(rest, t)
      {
        assert AloneAt(home, t);
      }
      assert |rest| == |rest.Keys| && |home| == |home.Keys|;
      InjectiveSize(rest);
      assert home.Values == rest.Values + {home[s]} && home[s] !in rest.Values;
    } else {
      assert home.Keys == {} && home.Values == {};
    }
  }

  /** There are as many satellites as data blocks. */
  lemma OneSatelliteEach(st: Store)
    requires Valid(st)
    ensures |st.data| == |st.satellites|
  {
    var home :| ValidWith(st, home);
    forall s | s in home
      ensures AloneAt(home, s)
    {
      HomesDiffer(st, home, s);
    }
    InjectiveSize(home);
    assert |st.data| == |st.data.Keys| && |st.satellites| == |st.satellites.Keys|;
  }

  /** Create makes a block exactly if there are a satellite, a message block, and data blocks that are large enough.
      Only the want of a satellite is answered without an exception. */
  lemma CreateAnswers(st: Store, size: nat, isTunnel: bool)
    requires Valid(st)
    ensures var c := Create(st, size, isTunnel);
            && (c.NoSatellite? <==> |st.satellites| >= st.limits.dataBlocks)
            && (c.Made? <==>
                 && |st.satellites| < st.limits.dataBlocks
                 && st.blocksInUse < st.limits.messageBlocks
                 && size + HEADER <= st.limits.dataBlockSize)
  {
    OneSatelliteEach(st);
    hide Valid, AddressOf;
  }

  /** SetData of bytes succeeds exactly if both pools have a block and the bytes fit; of nothing it always does. */
  lemma SetDataAnswers(st: Store, r: Ref, bytes: seq<int>)
    requires Valid(st) && Has(st, r) && st.next !in st.data
    ensures SetData(st, r, bytes).Made? <==>
            || bytes == []
            || (&& st.blocksInUse < st.limits.messageBlocks && |st.satellites| < st.limits.dataBlocks
                && |bytes| + HEADER <= st.limits.dataBlockSize)
  {
    OneSatelliteEach(st);
    LiveIsInBounds(st, r);
    hide Valid, Delete, Placed;
  }

  /** The pools are not overdrawn, and no data is larger than its block. */
  ghost predicate Within(st: Store) {
    && st.blocksInUse <= st.limits.messageBlocks && |st.data| <= st.limits.dataBlocks
    && forall d :: d in st.data ==> |st.data[d].cells| <= st.limits.dataBlockSize
  }

  lemma CreatedSizes(st: Store, size: nat, isTunnel: bool)
    requires Create(st, size, isTunnel).Made?
    ensures var after := Create(st, size, isTunnel).store;
            && after.limits == st.limits && after.blocksInUse == st.blocksInUse + 1 && st.next in after.data
            && after.data == st.data[st.next := after.data[st.next]]
            && |after.data[st.next].cells| == size + HEADER
  {
  }

  lemma CreateWithin(st: Store, size: nat, isTunnel: bool)
    requires Valid(st) && Within(st)
    ensures Within(Perform(st, OpCreate(size, isTunnel)))
  {
    hide Valid, Create;
    CreateAnswers(st, size, isTunnel);
    OneSatelliteEach(st);
    if Create(st, size, isTunnel).Made? {
      CreatedSizes(st, size, isTunnel);
      SizeAfterPut(st.data, st.next, Create(st, size, isTunnel).store.data[st.next]);
    }
  }

  lemma DeleteWithin(st: Store, r: Ref)
    requires Has(st, r) && st.limits.messageBlocks >= st.blocksInUse - 1
    requires forall d :: d in st.data ==> |st.data[d].cells| <= st.limits.dataBlockSize
    ensures var after := Delete(st, r);
            && after.blocksInUse <= st.limits.messageBlocks && after.limits == st.limits
            && |after.data| == |st.data| - (if |st.data[r.data].views| == 1 then 1 else 0)
            && forall d :: d in after.data ==> |after.data[d].cells| <= st.limits.dataBlockSize
  {
    hide SatelliteOf, Counted;
    var data := st.data[r.data];
    assert |data.views - {r.block}| == |data.views| - 1 by { SizeAfterDrop(data.views, r.block); }
    SizeAfterDrop(st.data, r.data);
    SizeAfterPut(st.data, r.data, data.(views := data.views - {r.block}));
  }

  lemma PlacedWithin(st: Store, r: Ref, bytes: seq<int>)
    requires Within(st) && Allowed(st, OpSetData(r, bytes)) && |st.data[r.data].cells| >= HEADER
    requires |bytes| + HEADER <= st.limits.dataBlockSize
    ensures var placed := Placed(st, r, bytes);
            && |placed.data| == |st.data| + 1 && |placed.data[r.data].views| == 1
            && forall d :: d in placed.data ==> |placed.data[d].cells| <= st.limits.dataBlockSize
  {
    var was := st.data[r.data].(hasSatellite := false);
    SizeAfterPut(st.data, r.data, was);
    SizeAfterPut(st.data[r.data := was], st.next, NewData(st.data[r.data], st.next, bytes));
    assert |NewData(st.data[r.data], st.next, bytes).cells| == HEADER + |bytes|;
    hide NewData;
  }

  lemma SetDataWithin(st: Store, r: Ref, bytes: seq<int>)
    requires Within(st) && Allowed(st, OpSetData(r, bytes)) && |st.data[r.data].cells| >= HEADER
    ensures Within(Perform(st, OpSetData(r, bytes)))
  {
    hide Delete, Placed, NewData;
    if SetData(st, r, bytes).Made? {
      if bytes == [] {
        var data := st.data[r.data];
        SizeAfterPut(st.data, r.data, data.(views := data.views[r.block := View(HEADER, HEADER)]));
      } else {
        PlacedWithin(st, r, bytes);
        PlacedKeepsLimits(st, r, bytes);
        DeleteWithin(Placed(st, r, bytes), r);
      }
    }
  }

  lemma PlacedKeepsLimits(st: Store, r: Ref, bytes: seq<int>)
    requires Has(st, r) && |st.data[r.data].cells| >= HEADER && st.next !in st.data
    ensures var placed := Placed(st, r, bytes);
            placed.limits == st.limits && placed.blocksInUse == st.blocksInUse + 1 && Has(placed, r)
  {
  }

  lemma MoveWithin(st: Store, op: Op)
    requires Within(st) && Allowed(st, op) && (op.OpAppend? || op.OpRead? || op.OpDuplicate?)
    ensures Within(Perform(st, op))
  {
    hide SatelliteOf, Counted;
    if Perform(st, op) != st {
      SizeAfterPut(st.data, op.ref.data, Perform(st, op).data[op.ref.data]);
    }
  }

  lemma PerformWithin(st: Store, op: Op)
    requires Valid(st) && Within(st) && Allowed(st, op)
    ensures Within(Perform(st, op)) && Perform(st, op).limits == st.limits
  {
    hide Within, Delete, SetData, Append, Create, Duplicate;
    PerformLimits(st, op);
    match op
    case OpCreate(size, isTunnel) => CreateWithin(st, size, isTunnel);
    case OpSetData(r, bytes) => {
      LiveIsInBounds(st, r);
      SetDataWithin(st, r, bytes);
    }
    case OpDelete(r) => DeletedWithin(st, r);
    case _ => MoveWithin(st, op);
  }

  lemma DeletedWithin(st: Store, r: Ref)
    requires Within(st) && Has(st, r)
    ensures Within(Delete(st, r))
  {
    hide Delete;
    DeleteWithin(st, r);
  }

  lemma PerformLimits(st: Store, op: Op)
    requires Allowed(st, op)
    ensures Perform(st, op).limits == st.limits
  {
    hide SatelliteOf, Counted, NewData, Overwritten;
  }

  lemma {:induction false} RunWithin(st: Store, ops: seq<Op>)
    requires Valid(st) && Within(st) && Runs(st, ops)
    ensures Within(After(st, ops)) && After(st, ops).limits == st.limits
    decreases |ops|
  {
    hide Valid, Within, Perform, Allowed;
    if ops != [] {
      PerformWithin(st, ops[0]);
      PerformKeeps(st, ops[0]);
      RunWithin(Perform(st, ops[0]), ops[1..]);
    }
  }

  /** No run overdraws a pool or puts more bytes into a data block than it has, and every satellite is counted. */
  lemma PoolsAreRespected(limits: Limits, ops: seq<Op>)
    requires Runs(Empty(limits), ops)
    ensures var st := After(Empty(limits), ops);
            && st.blocksInUse <= limits.messageBlocks
            && |st.satellites| == |st.data| <= limits.dataBlocks
            && forall d :: d in st.data ==> |st.data[d].cells| <= limits.dataBlockSize
  {
    EmptyIsValid(limits);
    RunWithin(Empty(limits), ops);
    RunKeeps(Empty(limits), ops);
    OneSatelliteEach(After(Empty(limits), ops));
  }

  // ---------------------------------------------------------------- room and flag

  /** A new block takes any bytes up to the size it was made for, and no more; there is nothing to read in it. */
  lemma CreatedHasRoom(st: Store, size: nat, isTunnel: bool, bytes: seq<int>)
    requires Create(st, size, isTunnel).Made?
    ensures var c := Create(st, size, isTunnel);
            && Has(c.store, c.ref) && ViewOf(c.store, c.ref).rd == ViewOf(c.store, c.ref).wr
            && (Append(c.store, c.ref, bytes).Made? <==> |bytes| <= size)
  {
    hide Overwritten;
  }

  /** The flags that satellites were made with. */
  ghost function Noted(flags: map<nat, bool>, st: Store, op: Op): map<nat, bool> {
    if op.OpCreate? && Create(st, op.size, op.isTunnel).Made?
    then flags[Create(st, op.size, op.isTunnel).ref.data := op.isTunnel] else flags
  }

  ghost function FlagsMade(flags: map<nat, bool>, st: Store, ops: seq<Op>): map<nat, bool>
    requires Runs(st, ops)
    decreases |ops|
  {
    if ops == [] then flags else FlagsMade(Noted(flags, st, ops[0]), Perform(st, ops[0]), ops[1..])
  }

  /** All data carries the flag its satellite was made with. */
  ghost predicate Flagged(st: Store, flags: map<nat, bool>) {
    forall d :: d in st.data ==> FlagIs(st.data[d], flags)
  }

  ghost predicate FlagIs(data: Data, flags: map<nat, bool>) {
    SatelliteOf(data) in flags && flags[SatelliteOf(data)] == data.isTunnel
  }

  predicate SameOwner(was: Data, data: Data) {
    SatelliteOf(data) == SatelliteOf(was) && data.isTunnel == was.isTunnel
  }

  lemma AppendSameOwner(data: Data, view: View, bytes: seq<int>)
    requires HEADER <= view.wr && view.wr + |bytes| <= |data.cells|
    ensures SatelliteOf(data.(cells := Overwritten(data.cells, view.wr, bytes))) == SatelliteOf(data)
  {
  }

  lemma NewDataSameOwner(was: Data, id: nat, bytes: seq<int>)
    requires |was.cells| >= HEADER
    ensures SameOwner(was, NewData(was, id, bytes))
  {
  }

  /** The data was there before, or took over from some. */
  ghost predicate Continues(st: Store, data: Data) {
    exists e :: e in st.data && SameOwner(st.data[e], data)
  }

  lemma SameCells(st: Store, e: nat, data: Data)
    requires e in st.data && data.cells == st.data[e].cells && data.isTunnel == st.data[e].isTunnel
    ensures Continues(st, data)
  {
    assert SatelliteOf(data) == SatelliteOf(st.data[e]);
    assert SameOwner(st.data[e], data);
  }

  lemma DeleteContinues(st: Store, r: Ref, d: nat)
    requires Has(st, r) && d in Delete(st, r).data
    ensures d in st.data && Continues(st, Delete(st, r).data[d])
  {
    hide SatelliteOf, Continues;
    SameCells(st, d, Delete(st, r).data[d]);
  }

  lemma DuplicateContinues(st: Store, r: Ref, d: nat)
    requires Has(st, r) && Duplicate(st, r).Made? && d in Duplicate(st, r).store.data
    ensures Continues(st, Duplicate(st, r).store.data[d])
  {
    hide SatelliteOf, Continues, Counted;
    SameCells(st, d, Duplicate(st, r).store.data[d]);
  }

  lemma ReadContinues(st: Store, r: Ref, size: nat, d: nat)
    requires Allowed(st, OpRead(r, size)) && d in Read(st, r, size).data
    ensures Continues(st, Read(st, r, size).data[d])
  {
    hide SatelliteOf, Continues;
    SameCells(st, d, Read(st, r, size).data[d]);
  }

  lemma AppendContinues(st: Store, r: Ref, bytes: seq<int>, d: nat)
    requires Has(st, r) && HEADER <= ViewOf(st, r).wr
    requires Append(st, r, bytes).Made? && d in Append(st, r, bytes).store.data
    ensures Continues(st, Append(st, r, bytes).store.data[d])
  {
    var data, view := st.data[r.data], ViewOf(st, r);
    AppendSameOwner(data, view, bytes);
    var cells := Overwritten(data.cells, view.wr, bytes);
    var written := data.(cells := cells);
    hide SatelliteOf, Overwritten;
    if d == r.data {
      OwnerOfCells(written, written.(views := data.views[r.block := view.(wr := view.wr + |bytes|)]));
      assert SameOwner(data, Append(st, r, bytes).store.data[d]);
    } else {
      SameCells(st, d, st.data[d]);
    }
  }

  lemma OwnerOfCells(was: Data, data: Data)
    requires data.cells == was.cells
    ensures SatelliteOf(data) == SatelliteOf(was)
  {
  }

  lemma PlacedContinues(st: Store, r: Ref, bytes: seq<int>, d: nat)
    requires Has(st, r) && |st.data[r.data].cells| >= HEADER && d in Placed(st, r, bytes).data
    ensures Continues(st, Placed(st, r, bytes).data[d])
  {
    NewDataSameOwner(st.data[r.data], st.next, bytes);
    hide SatelliteOf, NewData;
    if d != st.next {
      SameCells(st, d, Placed(st, r, bytes).data[d]);
    } else {
      assert SameOwner(st.data[r.data], Placed(st, r, bytes).data[d]);
    }
  }

  lemma SetDataContinues(st: Store, r: Ref, bytes: seq<int>, d: nat)
    requires Allowed(st, OpSetData(r, bytes)) && |st.data[r.data].cells| >= HEADER
    requires SetData(st, r, bytes).Made? && d in SetData(st, r, bytes).store.data
    ensures Continues(st, SetData(st, r, bytes).store.data[d])
  {
    hide SatelliteOf, NewData;
    if bytes == [] {
      hide Continues;
      SameCells(st, d, SetData(st, r, []).store.data[d]);
    } else {
      var placed := Placed(st, r, bytes);
      DeleteContinues(placed, r, d);
      hide Delete, Placed;
      var e :| e in placed.data && SameOwner(placed.data[e], Delete(placed, r).data[d]);
      PlacedContinues(st, r, bytes, e);
      var f :| f in st.data && SameOwner(st.data[f], placed.data[e]);
      assert SameOwner(st.data[f], Delete(placed, r).data[d]);
    }
  }

  /** Whatever data there is after an operation other than Create was there before, or took over from some. */
  lemma OwnersStay(st: Store, op: Op, d: nat)
    requires Valid(st) && Allowed(st, op) && !op.OpCreate? && d in Perform(st, op).data
    ensures Continues(st, Perform(st, op).data[d])
  {
    LiveIsInBounds(st, op.ref);
    hide Valid, SatelliteOf, Continues, Delete, Duplicate, SetData, Append, Read;
    if Perform(st, op) == st {
      SameCells(st, d, st.data[d]);
    } else {
      match op
      case OpDelete(r) => DeleteContinues(st, r, d);
      case OpDuplicate(r) => DuplicateContinues(st, r, d);
      case OpRead(r, size) => ReadContinues(st, r, size, d);
      case OpAppend(r, bytes) => AppendContinues(st, r, bytes, d);
      case OpSetData(r, bytes) => SetDataContinues(st, r, bytes, d);
    }
  }

  lemma CreatedData(st: Store, size: nat, isTunnel: bool)
    requires Create(st, size, isTunnel).Made?
    ensures var c := Create(st, size, isTunnel);
            && c.ref.data == st.next && c.store.data == st.data[st.next := c.store.data[st.next]]
            && SatelliteOf(c.store.data[st.next]) == st.next && c.store.data[st.next].isTunnel == isTunnel
  {
    AddressIsReadBack(Create(st, size, isTunnel).store.data[st.next], st.next);
    hide SatelliteOf;
  }

  lemma CreateFlagged(st: Store, flags: map<nat, bool>, size: nat, isTunnel: bool)
    requires Valid(st) && Flagged(st, flags)
    ensures Flagged(Perform(st, OpCreate(size, isTunnel)), Noted(flags, st, OpCreate(size, isTunnel)))
  {
    hide SatelliteOf, Valid, Create;
    if Create(st, size, isTunnel).Made? {
      CreatedData(st, size, isTunnel);
      NextIsFresh(st);
      forall d | d in st.data
        ensures SatelliteOf(st.data[d]) != st.next && FlagIs(st.data[d], flags)
      {
        OwnerIsLive(st, d);
      }
    }
  }

  lemma OwnerIsLive(st: Store, d: nat)
    requires Valid(st) && d in st.data
    ensures SatelliteOf(st.data[d]) in st.satellites
  {
    var home :| ValidWith(st, home);
    var _ := HomeOf(st, home, d);
  }

  lemma StepFlagged(st: Store, flags: map<nat, bool>, op: Op)
    requires Valid(st) && Flagged(st, flags) && Allowed(st, op)
    ensures Flagged(Perform(st, op), Noted(flags, st, op))
  {
    hide Valid, Perform, Allowed, SatelliteOf;
    if op.OpCreate? {
      CreateFlagged(st, flags, op.size, op.isTunnel);
    } else {
      forall d | d in Perform(st, op).data
        ensures FlagIs(Perform(st, op).data[d], flags)
      {
        OwnersStay(st, op, d);
        assert Continues(st, Perform(st, op).data[d]);
        var e :| e in st.data && SameOwner(st.data[e], Perform(st, op).data[d]);
        assert FlagIs(st.data[e], flags);
      }
    }
  }

  lemma {:induction false} RunFlagged(st: Store, flags: map<nat, bool>, ops: seq<Op>)
    requires Valid(st) && Flagged(st, flags) && Runs(st, ops)
    ensures Flagged(After(st, ops), FlagsMade(flags, st, ops))
    decreases |ops|
  {
    hide Valid, Flagged, Perform, Allowed, Noted;
    if ops != [] {
      StepFlagged(st, flags, ops[0]);
      PerformKeeps(st, ops[0]);
      RunFlagged(Perform(st, ops[0]), Noted(flags, st, ops[0]), ops[1..]);
    }
  }

  /** In every run every block, also a duplicate or one that SetData made, is a tunnel message if and only if the block
      that its satellite was made with was to be one. */
  lemma FlagStays(limits: Limits, ops: seq<Op>, r: Ref)
    requires Runs(Empty(limits), ops) && Has(After(Empty(limits), ops), r)
    ensures var data, flags := After(Empty(limits), ops).data[r.data], FlagsMade(map[], Empty(limits), ops);
            SatelliteOf(data) in flags && data.isTunnel == flags[SatelliteOf(data)]
  {
    EmptyIsValid(limits);
    RunFlagged(Empty(limits), map[], ops);
    assert FlagIs(After(Empty(limits), ops).data[r.data], FlagsMade(map[], Empty(limits), ops));
  }

  // ---------------------------------------------------------------- the data

  /** What a client can still read from a block. */
  function Unread(st: Store, r: Ref): seq<Cell>
    requires Has(st, r) && InBounds(st.data[r.data])
  {
    st.data[r.data].cells[ViewOf(st, r).rd..ViewOf(st, r).wr]
  }

  lemma LiveIsInBounds(st: Store, r: Ref)
    requires Valid(st) && Has(st, r)
    ensures InBounds(st.data[r.data]) && |st.data[r.data].cells| >= HEADER && st.next !in st.data
  {
    var home :| ValidWith(st, home);
    var _ := HomeOf(st, home, r.data);
  }

  lemma DeleteSparesOthers(st: Store, r: Ref, q: Ref)
    requires Has(st, r) && Has(st, q) && q != r
    ensures var after := Delete(st, r);
            Has(after, q) && ViewOf(after, q) == ViewOf(st, q) && after.data[q.data].cells == st.data[q.data].cells
  {
    if q.data == r.data {
      assert q.block in st.data[r.data].views - {r.block};
    }
  }

  lemma NewDataIsRead(was: Data, id: nat, bytes: seq<int>)
    requires |was.cells| >= HEADER
    ensures var data := NewData(was, id, bytes);
            && id in data.views && InBounds(data)
            && data.cells[data.views[id].rd..data.views[id].wr] == Bytes(bytes)
  {
  }

  lemma NewDataIsPlaced(st: Store, r: Ref, bytes: seq<int>)
    requires Has(st, r) && st.next !in st.data && SetData(st, r, bytes).Made? && bytes != []
    ensures var c := SetData(st, r, bytes);
            && c.ref == Ref(st.next, st.next) && st.next in c.store.data
            && c.store.data[st.next] == NewData(st.data[r.data], st.next, bytes)
  {
    hide NewData, SatelliteOf;
  }

  /** SetData leaves exactly its bytes to read. */
  lemma SetDataIsRead(st: Store, r: Ref, bytes: seq<int>)
    requires Valid(st) && Has(st, r) && st.next !in st.data && SetData(st, r, bytes).Made?
    ensures var c := SetData(st, r, bytes);
            && Has(c.store, c.ref) && InBounds(c.store.data[c.ref.data])
            && Unread(c.store, c.ref) == Bytes(bytes)
  {
    LiveIsInBounds(st, r);
    if bytes != [] {
      hide NewData, Valid, SetData;
      NewDataIsRead(st.data[r.data], st.next, bytes);
      NewDataIsPlaced(st, r, bytes);
    }
  }

  /** Every other block, a duplicate too, keeps what it reads. */
  lemma SetDataSparesOthers(st: Store, r: Ref, bytes: seq<int>, q: Ref)
    requires Valid(st) && Has(st, r) && st.next !in st.data && SetData(st, r, bytes).Made?
    requires Has(st, q) && q != r
    ensures var after := SetData(st, r, bytes).store;
            Has(after, q) && ViewOf(after, q) == ViewOf(st, q) && after.data[q.data].cells == st.data[q.data].cells
  {
    LiveIsInBounds(st, r);
    if bytes != [] {
      hide Valid, NewData;
      DeleteSparesOthers(Placed(st, r, bytes), r, q);
    }
  }

  lemma OverwrittenIsRead(cells: seq<Cell>, rd: nat, at: nat, bytes: seq<int>)
    requires rd <= at && at + |bytes| <= |cells|
    ensures Overwritten(cells, at, bytes)[rd..at + |bytes|] == cells[rd..at] + Bytes(bytes)
  {
  }

  /** What is taken behind the data is read after it. */
  lemma AppendedIsRead(st: Store, r: Ref, bytes: seq<int>)
    requires Valid(st) && Has(st, r) && Append(st, r, bytes).Made?
    ensures InBounds(st.data[r.data])
    ensures var after := Append(st, r, bytes).store;
            && Has(after, r) && InBounds(after.data[r.data])
            && Unread(after, r) == Unread(st, r) + Bytes(bytes)
  {
    LiveIsInBounds(st, r);
    hide Valid, Overwritten;
    OverwrittenIsRead(st.data[r.data].cells, ViewOf(st, r).rd, ViewOf(st, r).wr, bytes);
  }

  /** What was read is gone from the front. */
  lemma ReadIsGone(st: Store, r: Ref, size: nat)
    requires Valid(st) && Has(st, r) && size <= ViewOf(st, r).wr - ViewOf(st, r).rd
    ensures InBounds(st.data[r.data])
    ensures var after := Read(st, r, size);
            && Has(after, r) && InBounds(after.data[r.data])
            && Unread(after, r) == Unread(st, r)[size..]
  {
    LiveIsInBounds(st, r);
    hide Valid;
  }

  /** A duplicate reads what the block reads. */
  lemma DuplicateReadsTheSame(st: Store, r: Ref)
    requires Valid(st) && Has(st, r) && Duplicate(st, r).Made?
    ensures var c := Duplicate(st, r);
            && Has(c.store, r) && Has(c.store, c.ref) && c.ref != r
            && ViewOf(c.store, c.ref) == ViewOf(c.store, r) == ViewOf(st, r)
            && c.store.data[c.ref.data].cells == st.data[r.data].cells
  {
    NextIsFresh(st);
    assert st.next !in st.data[r.data].views;
    hide Valid, FreshNext, Counted;
  }

  // ---------------------------------------------------------------- what the pools notice

  /** Which blocks share which data. */
  function Shape(st: Store): map<nat, set<nat>> {
    map d | d in st.data :: st.data[d].views.Keys
  }

  lemma ShapeSize(st: Store)
    ensures Shape(st).Keys == st.data.Keys && |Shape(st)| == |st.data|
  {
    assert |Shape(st)| == |Shape(st).Keys| && |st.data| == |st.data.Keys|;
  }

  lemma ShapePut(st: Store, d: nat, data: Data, after: Store)
    requires after.data == st.data[d := data]
    ensures Shape(after) == Shape(st)[d := data.views.Keys]
  {
  }

  lemma ShapeDrop(st: Store, d: nat, after: Store)
    requires after.data == st.data - {d}
    ensures Shape(after) == Shape(st) - {d}
  {
  }

  lemma SizeAfterPut<V>(m: map<nat, V>, k: nat, v: V)
    ensures |m[k := v]| == if k in m then |m| else |m| + 1
  {
    assert m[k := v].Keys == m.Keys + {k};
    assert |m[k := v]| == |m[k := v].Keys| && |m| == |m.Keys|;
  }

  lemma SizeAfterDrop<V>(m: map<nat, V>, k: nat)
    requires k in m
    ensures |m - {k}| == |m| - 1
  {
    assert (m - {k}).Keys == m.Keys - {k};
    assert |m - {k}| == |(m - {k}).Keys| && |m| == |m.Keys|;
  }

  lemma NextIsNoData(st: Store, home: map<nat, nat>)
    requires ValidWith(st, home)
    ensures st.next !in st.data
  {
    hide Carries, IdsBelow;
  }

  lemma NextIsNoSatellite(st: Store, home: map<nat, nat>)
    requires ValidWith(st, home)
    ensures st.next !in st.satellites
  {
    hide Carries, IdsBelow;
    assert st.next in st.satellites ==> st.next in home;
  }

  lemma NextIsNoBlock(st: Store, home: map<nat, nat>, d: nat)
    requires ValidWith(st, home) && d in st.data
    ensures st.next !in st.data[d].views
  {
    hide Carries;
    assert IdsBelow(st.data[d], st.next);
  }

  /** What a valid store says about the next id. */
  lemma NextIsFresh(st: Store)
    requires Valid(st)
    ensures FreshNext(st)
  {
    var home :| ValidWith(st, home);
    hide ValidWith;
    NextIsNoData(st, home);
    NextIsNoSatellite(st, home);
    forall d | d in st.data
      ensures st.next !in st.data[d].views
    {
      NextIsNoBlock(st, home, d);
    }
  }

  predicate FreshNext(st: Store) {
    && st.next !in st.data && st.next !in st.satellites
    && forall d :: d in st.data ==> st.next !in st.data[d].views
  }

  /** What a valid store says about one of its blocks. */
  lemma BlockIsCounted(st: Store, r: Ref)
    requires Valid(st) && Has(st, r)
    ensures CountedBlock(st, r)
  {
    var home :| ValidWith(st, home);
    var _ := HomeOf(st, home, r.data);
  }

  predicate CountedBlock(st: Store, r: Ref)
    requires Has(st, r)
  {
    var data := st.data[r.data];
    data.hasSatellite && SatelliteOf(data) in st.satellites && st.satellites[SatelliteOf(data)] == |data.views|
  }

  lemma CreateShape(st: Store, size: nat, isTunnel: bool)
    requires FreshNext(st) && Create(st, size, isTunnel).Made?
    ensures var c := Create(st, size, isTunnel);
            && c.ref.data !in st.data
            && Shape(c.store) == Shape(st)[c.ref.data := {c.ref.block}]
            && |c.store.satellites| == |st.satellites| + 1
  {
    var c := Create(st, size, isTunnel);
    ShapePut(st, st.next, c.store.data[st.next], c.store);
    assert c.store.data[st.next].views.Keys == {st.next};
    SizeAfterPut(st.satellites, st.next, 1);
  }

  lemma DuplicateShape(st: Store, r: Ref)
    requires FreshNext(st) && Has(st, r) && CountedBlock(st, r) && Duplicate(st, r).Made?
    ensures var c := Duplicate(st, r);
            && c.ref.data == r.data && c.ref.block !in st.data[r.data].views
            && Shape(c.store) == Shape(st)[r.data := st.data[r.data].views.Keys + {c.ref.block}]
            && |c.store.satellites| == |st.satellites|
  {
    var c := Duplicate(st, r);
    var data, s := c.store.data[r.data], SatelliteOf(st.data[r.data]);
    ShapePut(st, r.data, data, c.store);
    assert data.views.Keys == st.data[r.data].views.Keys + {st.next};
    SizeAfterPut(st.satellites, s, st.satellites[s] + 1);
  }

  lemma DeleteLastShape(st: Store, r: Ref)
    requires Has(st, r) && CountedBlock(st, r) && st.data[r.data].views.Keys == {r.block}
    ensures Shape(Delete(st, r)) == Shape(st) - {r.data}
    ensures |Delete(st, r).satellites| == |st.satellites| - 1
  {
    var data, s := st.data[r.data], SatelliteOf(st.data[r.data]);
    assert |data.views| == |data.views.Keys| == 1;
    assert data.views - {r.block} == map[];
    ShapeDrop(st, r.data, Delete(st, r));
    SizeAfterDrop(st.satellites, s);
  }

  lemma DeleteSharedShape(st: Store, r: Ref)
    requires Has(st, r) && CountedBlock(st, r) && st.data[r.data].views.Keys != {r.block}
    ensures Shape(Delete(st, r)) == Shape(st)[r.data := st.data[r.data].views.Keys - {r.block}]
    ensures |Delete(st, r).satellites| == |st.satellites|
  {
    var data, s := st.data[r.data], SatelliteOf(st.data[r.data]);
    var views := data.views - {r.block};
    assert views.Keys == data.views.Keys - {r.block};
    OneOfSeveral(data.views.Keys, r.block);
    assert |data.views| == |data.views.Keys|;
    ShapePut(st, r.data, data.(views := views), Delete(st, r));
    SizeAfterPut(st.satellites, s, st.satellites[s] - 1);
  }

  lemma OneOfSeveral(blocks: set<nat>, b: nat)
    requires b in blocks && blocks != {b}
    ensures |blocks| > 1 && blocks - {b} != {}
  {
    var others := blocks - {b};
    assert others != {};
    assert |others| == |blocks| - 1;
  }
}
