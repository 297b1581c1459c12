// The reading side of a tunnel: a connection, its pool of message blocks, and the blocks
// that are being written to the other side. Each completion handler is one step.
module Relay {
  import opened Connection
  import opened MessageBlocks
  import opened Wrappers

  datatype State = State(
    c: Conn,
    st: Store, // the tunnel message blocks of this connection
    incoming: Option<Ref>, // the block of the read that is under way
    flying: set<Ref>, // duplicates whose write has not completed
    threw: bool, // a Duplicate or a Create ran out of its pool
    gone: bool) // the tunnel was asked to close this connection

  /** How the operating system would answer a read. */
  datatype Answer = ReadOk | ReadRefused | ReadThrew

  /** What became of the data of a read: no write was issued for it, one was, or passing it on threw; `caught` says
      that the exception is a LocalException, which the handler catches and reports to the tunnel. */
  datatype Passing = NotPassed | Passed | PassingThrew(caught: bool)

  datatype Event =
    | Start(answer: Answer)
    | Stop
    | Data(now: nat, passing: Passing, stops: bool, answer: Answer) // a read brought data
    | End // a read failed or met the end of the stream
    | Written(ref: Ref, answer: Answer) // the write of a block completed; nobody catches what a restarted read throws
    | Close

  /** Opened with `capacity` satellites and data blocks for `payload` bytes, and one message block more. */
  function Init(capacity: nat, payload: nat): State {
    var c := OpenedBy(New(0), true, true, true, StreamsOpen).0;
    State(c, MessageBlocks.Empty(Limits(capacity + 1, capacity, payload + HEADER)), None, {}, false, false)
  }

  predicate Enabled(s: State, e: Event) {
    match e
    case Start(_) => !s.c.closed && (s.c.reading.NotAllowed? || s.c.reading.NotStarted?)
    case Stop => !s.c.reading.StoppingReading?
    case Data(_, _, _, _) => s.incoming.Some? && Has(s.st, s.incoming.value)
    case End => s.incoming.Some? && Has(s.st, s.incoming.value)
    case Written(r, _) => r in s.flying && Has(s.st, r)
    case Close => true
  }

  /** How issuing a read ends, by the pool and the operating system. */
  function IssueOf(st: Store, answer: Answer): Issue {
    match Create(st, RoomFor(st), true)
    case NoSatellite => NoBlock
    case CreateThrew => Threw
    case Made(_, _) => match answer
                       case ReadOk => Issued
                       case ReadRefused => Refused
                       case ReadThrew => Threw
  }

  function RoomFor(st: Store): nat {
    if st.limits.dataBlockSize >= HEADER then st.limits.dataBlockSize - HEADER else 0
  }

  /** Whether the tunnel is asked to close after this reaction; an exception may be `caught` where that is done. */
  predicate Told(reaction: Reaction, caught: bool) {
    reaction.AsksToClose? || (reaction.Throws? && caught)
  }

  /** InitMessageReading: nothing unless a read is due; then a block, then the read. */
  function TryRead(s: State, answer: Answer, caught: bool): State {
    if !s.c.reading.NotReading? then s
    else
      var issue := IssueOf(s.st, answer);
      var told := s.(c := ReadInitiated(s.c, issue), gone := s.gone || Told(InitReaction(s.c, issue), caught));
      match Create(s.st, RoomFor(s.st), true)
      case NoSatellite => told
      case CreateThrew => told.(threw := true)
      case Made(st, r) =>
        if issue.Issued? then told.(st := st, incoming := Some(r)) else told.(st := Released(st, r))
  }

  function Released(st: Store, r: Ref): Store {
    if Has(st, r) then Delete(st, r) else st
  }

  /** ReadRemote, down to SendToRemote of the other side: a duplicate goes into the write. Says whether nothing threw. */
  function PassingOn(s: State, b: Ref, passing: Passing): (State, bool)
    requires Has(s.st, b)
  {
    match passing
    case NotPassed => (s, true)
    case PassingThrew(caught) => (s.(gone := s.gone || caught), false)
    case Passed =>
      match Duplicate(s.st, b)
      case Made(st, copy) => (s.(st := st, flying := s.flying + {copy}), true)
      case _ => (s.(threw := true, gone := true), false)
  }

  function Apply(s: State, e: Event): State
    requires Enabled(s, e)
  {
    match e
    case Start(answer) =>
      if s.c.reading.NotAllowed? then s else TryRead(s.(c := s.c.(reading := NotReading)), answer, false)
    case Stop => s.(c := ReadingStopped(s.c))
    case Data(now, passing, stops, answer) =>
      var b := s.incoming.value;
      var taken := s.(c := ReadingCancelled(s.c), incoming := None);
      if s.c.closed then taken.(st := Released(s.st, b))
      else
        var (told, fine) := PassingOn(taken.(c := PassedOn(taken.c, now)), b, passing);
        if !fine then told.(c := StoppedIf(told.c, stops), st := Released(told.st, b))
        else
          var next := TryRead(told.(c := StoppedIf(told.c, stops)), answer, true);
          next.(st := Released(next.st, b))
    case End =>
      s.(c := ReadBroken(s.c, true).0, st := Released(s.st, s.incoming.value), incoming := None)
    case Written(r, answer) =>
      var freed := s.(st := Released(s.st, r), flying := s.flying - {r});
      if s.c.closed || !s.st.data[r.data].isTunnel then freed else TryRead(freed, answer, false)
    case Close => s.(c := CheckedDeleted(s.c, true, true).0)
  }

  // ---------------------------------------------------------------- the pool between and inside the steps

  /** The blocks `refs` are all there is, each alone on its data, but for one that shares with `extra`. */
  ghost predicate Tight(st: Store, refs: set<Ref>, extra: Option<Ref>) {
    Valid(st) && AllTunnel(st) && Fits(Shape(st), |st.satellites|, st.blocksInUse, refs, extra)
  }

  /** All blocks are tunnel messages. */
  ghost predicate AllTunnel(st: Store) {
    forall d :: d in st.data ==> st.data[d].isTunnel
  }

  lemma TunnelBlocks(st: Store, r: Ref, size: nat)
    requires AllTunnel(st)
    ensures Create(st, size, true).Made? ==> AllTunnel(Create(st, size, true).store)
    ensures Has(st, r) ==> AllTunnel(Delete(st, r)) && (Duplicate(st, r).Made? ==> AllTunnel(Duplicate(st, r).store))
  {
    hide SatelliteOf, Counted, AddressOf;
  }

  ghost predicate Fits(shape: map<nat, set<nat>>, satellites: nat, blocks: nat, refs: set<Ref>, extra: Option<Ref>) {
    && |shape| == satellites == |refs|
    && blocks == |refs| + (if extra.Some? then 1 else 0)
    && (forall r :: r in refs ==> r.data in shape && shape[r.data] == Sharing(r, extra))
    && (forall r, q :: r in refs && q in refs && r.data == q.data ==> r == q)
    && (extra.Some? ==> extra.value !in refs && exists r :: r in refs && r.data == extra.value.data)
  }

  function Sharing(r: Ref, extra: Option<Ref>): set<nat> {
    if extra.Some? && extra.value.data == r.data then {r.block, extra.value.block} else {r.block}
  }

  lemma FitsOneMore(shape: map<nat, set<nat>>, satellites: nat, blocks: nat, refs: set<Ref>, extra: Option<Ref>, r: Ref)
    requires Fits(shape, satellites, blocks, refs, extra) && r.data !in shape
    ensures r !in refs && Fits(shape[r.data := {r.block}], satellites + 1, blocks + 1, refs + {r}, extra)
  {
    SizeAfterPut(shape, r.data, {r.block});
  }

  lemma FitsOneFewer(shape: map<nat, set<nat>>, satellites: nat, blocks: nat, refs: set<Ref>, extra: Option<Ref>, r: Ref)
    requires Fits(shape, satellites, blocks, refs, extra) && r in refs && (extra.Some? ==> extra.value.data != r.data)
    ensures Fits(shape - {r.data}, satellites - 1, blocks - 1, refs - {r}, extra)
  {
    SizeAfterDrop(shape, r.data);
    if extra.Some? {
      var q :| q in refs && q.data == extra.value.data;
      assert q in refs - {r};
    }
  }

  lemma FitsCopy(shape: map<nat, set<nat>>, satellites: nat, blocks: nat, refs: set<Ref>, b: Ref, copy: Ref)
    requires Fits(shape, satellites, blocks, refs, None) && b in refs && copy.data == b.data && copy.block != b.block
    ensures copy !in refs
    ensures Fits(shape[b.data := {b.block, copy.block}], satellites, blocks + 1, refs - {b} + {copy}, Some(b))
  {
    SizeAfterPut(shape, b.data, {b.block, copy.block});
    assert copy in refs - {b} + {copy};
  }

  lemma FitsWithoutExtra(shape: map<nat, set<nat>>, satellites: nat, blocks: nat, refs: set<Ref>, b: Ref)
    requires Fits(shape, satellites, blocks, refs, Some(b))
    ensures b.data in shape && b.block in shape[b.data] && shape[b.data] != {b.block}
    ensures Fits(shape[b.data := shape[b.data] - {b.block}], satellites, blocks - 1, refs, None)
  {
    var r :| r in refs && r.data == b.data;
    SizeAfterPut(shape, b.data, shape[b.data] - {b.block});
    assert shape[b.data] - {b.block} == {r.block};
  }

  lemma FitsSizes(shape: map<nat, set<nat>>, satellites: nat, blocks: nat, refs: set<Ref>, extra: Option<Ref>)
    requires Fits(shape, satellites, blocks, refs, extra)
    ensures |shape| == satellites == |refs| && blocks == |refs| + (if extra.Some? then 1 else 0)
    ensures extra.Some? ==> extra.value.data in shape
  {
  }

  lemma CreateFits(st: Store, refs: set<Ref>, extra: Option<Ref>, size: nat)
    requires Fits(Shape(st), |st.satellites|, st.blocksInUse, refs, extra)
    requires FreshNext(st) && Create(st, size, true).Made?
    ensures var c := Create(st, size, true);
            && c.ref !in refs && c.ref.data !in st.data
            && Fits(Shape(c.store), |c.store.satellites|, c.store.blocksInUse, refs + {c.ref}, extra)
  {
    hide Fits;
    CreateShape(st, size, true);
    FitsOneMore(Shape(st), |st.satellites|, st.blocksInUse, refs, extra, Create(st, size, true).ref);
  }

  lemma CreateTight(st: Store, refs: set<Ref>, extra: Option<Ref>, size: nat)
    requires Tight(st, refs, extra) && size + HEADER <= st.limits.dataBlockSize
    requires st.limits.messageBlocks == st.limits.dataBlocks + 1
    ensures match Create(st, size, true)
            case NoSatellite => |refs| >= st.limits.dataBlocks
            case CreateThrew => false
            case Made(after, r) =>
              && |refs| < st.limits.dataBlocks && r !in refs && after.limits == st.limits
              && (extra.Some? ==> extra.value.data != r.data)
              && Tight(after, refs + {r}, extra)
  {
    hide Fits, AllTunnel, Valid, FreshNext;
    ShapeSize(st);
    FitsSizes(Shape(st), |st.satellites|, st.blocksInUse, refs, extra);
    TunnelBlocks(st, Ref(0, 0), size);
    if Create(st, size, true).Made? {
      PerformKeeps(st, OpCreate(size, true));
      NextIsFresh(st);
      CreateFits(st, refs, extra, size);
    }
  }

  lemma DuplicateFits(st: Store, refs: set<Ref>, b: Ref)
    requires Fits(Shape(st), |st.satellites|, st.blocksInUse, refs, None) && b in refs && Has(st, b)
    requires FreshNext(st) && CountedBlock(st, b) && Duplicate(st, b).Made?
    ensures var c := Duplicate(st, b);
            && c.ref !in refs
            && Fits(Shape(c.store), |c.store.satellites|, c.store.blocksInUse, refs - {b} + {c.ref}, Some(b))
  {
    var copy := Duplicate(st, b).ref;
    DuplicateShape(st, b);
    FitsCopy(Shape(st), |st.satellites|, st.blocksInUse, refs, b, copy);
    assert st.data[b.data].views.Keys == Shape(st)[b.data] == {b.block};
    assert {b.block} + {copy.block} == {b.block, copy.block};
  }

  lemma DuplicateTight(st: Store, refs: set<Ref>, b: Ref)
    requires Tight(st, refs, None) && b in refs
    requires st.limits.messageBlocks == st.limits.dataBlocks + 1 && |refs| <= st.limits.dataBlocks
    ensures Has(st, b)
    ensures var c := Duplicate(st, b);
            c.Made? && c.ref !in refs && c.store.limits == st.limits && Tight(c.store, refs - {b} + {c.ref}, Some(b))
  {
    assert b.block in Shape(st)[b.data];
    NextIsFresh(st);
    BlockIsCounted(st, b);
    DuplicateFits(st, refs, b);
    PerformKeeps(st, OpDuplicate(b));
    TunnelBlocks(st, b, 0);
  }

  /** A block of `refs` that shares with nobody is alone on its data. */
  lemma AloneOnItsData(st: Store, refs: set<Ref>, extra: Option<Ref>, b: Ref)
    requires Tight(st, refs, extra) && b in refs && (extra.Some? ==> extra.value.data != b.data)
    ensures Has(st, b) && st.data[b.data].views.Keys == {b.block} && CountedBlock(st, b)
  {
    hide Valid, ValidWith;
    assert Shape(st)[b.data] == {b.block};
    BlockIsCounted(st, b);
  }

  lemma DeleteFits(st: Store, refs: set<Ref>, extra: Option<Ref>, b: Ref)
    requires Fits(Shape(st), |st.satellites|, st.blocksInUse, refs, extra)
    requires b in refs && (extra.Some? ==> extra.value.data != b.data)
    requires Has(st, b) && st.data[b.data].views.Keys == {b.block} && CountedBlock(st, b)
    ensures var after := Delete(st, b);
            Fits(Shape(after), |after.satellites|, after.blocksInUse, refs - {b}, extra)
  {
    hide Fits, CountedBlock;
    DeleteLastShape(st, b);
    FitsOneFewer(Shape(st), |st.satellites|, st.blocksInUse, refs, extra, b);
    FitsSizes(Shape(st), |st.satellites|, st.blocksInUse, refs, extra);
    OneAtLeast(refs, b);
  }

  lemma DeleteTight(st: Store, refs: set<Ref>, extra: Option<Ref>, b: Ref)
    requires Tight(st, refs, extra) && b in refs && (extra.Some? ==> extra.value.data != b.data)
    ensures Has(st, b) && Released(st, b).limits == st.limits && Tight(Released(st, b), refs - {b}, extra)
  {
    hide Fits, AllTunnel, Valid;
    AloneOnItsData(st, refs, extra, b);
    hide CountedBlock;
    PerformKeeps(st, OpDelete(b));
    TunnelBlocks(st, b, 0);
    DeleteFits(st, refs, extra, b);
  }

  lemma OneAtLeast(refs: set<Ref>, b: Ref)
    requires b in refs
    ensures |refs| > 0
  {
  }

  lemma DeleteExtraTight(st: Store, refs: set<Ref>, b: Ref)
    requires Tight(st, refs, Some(b))
    ensures Has(st, b) && Released(st, b).limits == st.limits && Tight(Released(st, b), refs, None)
  {
    FitsWithoutExtra(Shape(st), |st.satellites|, st.blocksInUse, refs, b);
    assert b.block in Shape(st)[b.data];
    PerformKeeps(st, OpDelete(b));
    BlockIsCounted(st, b);
    TunnelBlocks(st, b, 0);
    DeleteSharedShape(st, b);
  }

  // ---------------------------------------------------------------- the invariant

  function Blocks(s: State): set<Ref> {
    s.flying + if s.incoming.Some? then {s.incoming.value} else {}
  }

  predicate Roomy(limits: Limits) {
    limits.messageBlocks == limits.dataBlocks + 1 && limits.dataBlockSize >= HEADER
  }

  ghost predicate Inv(s: State) {
    && Roomy(s.st.limits)
    && Tight(s.st, Blocks(s), None)
    && |Blocks(s)| <= s.st.limits.dataBlocks
    && (s.incoming.Some? ==> s.incoming.value !in s.flying)
    && (s.incoming.Some? <==> s.c.reading.Reading? || s.c.reading.StoppingReading?)
    && !s.threw
  }

  /** The connection waits for a block and somebody will bring one. */
  ghost predicate Kept(s: State) {
    s.c.reading.NotReading? && !s.c.closed && !s.gone ==> s.flying != {}
  }

  /** The middle of a step: no read is under way, `extra` is still in hand. */
  ghost predicate Between(s: State, extra: Option<Ref>) {
    && Roomy(s.st.limits)
    && Tight(s.st, s.flying, extra)
    && |s.flying| <= s.st.limits.dataBlocks
    && s.incoming.None?
    && !s.c.reading.Reading? && !s.c.reading.StoppingReading?
    && !s.threw
  }

  function ReadSize(s: State): nat
    requires Roomy(s.st.limits)
  {
    s.st.limits.dataBlockSize - HEADER
  }

  lemma TryReadLacks(s: State, answer: Answer, caught: bool, extra: Option<Ref>)
    requires Between(s, extra) && (s.c.reading.NotReading? ==> |s.flying| == s.st.limits.dataBlocks)
    ensures TryRead(s, answer, caught) == s
  {
    hide Tight;
    if s.c.reading.NotReading? {
      CreateTight(s.st, s.flying, extra, ReadSize(s));
      assert Create(s.st, ReadSize(s), true).NoSatellite?;
    }
  }

  /** There is a block and the read is issued. */
  lemma TryReadTakes(s: State, caught: bool, extra: Option<Ref>)
    requires Between(s, extra) && s.c.reading.NotReading? && |s.flying| < s.st.limits.dataBlocks
    ensures var t := TryRead(s, ReadOk, caught);
            && t.incoming.Some? && t.incoming.value !in s.flying
            && t == s.(c := ReadInitiated(s.c, Issued), st := t.st, incoming := t.incoming)
            && t.c.reading.Reading?
            && t.st.limits == s.st.limits
            && Tight(t.st, s.flying + {t.incoming.value}, extra)
  {
    hide Tight, Create;
    CreateTight(s.st, s.flying, extra, ReadSize(s));
    assert Create(s.st, ReadSize(s), true).Made?;
  }

  /** The tunnel hears of a read that was not issued, unless an exception goes past everybody who would tell it. */
  predicate Reported(answer: Answer, caught: bool) {
    answer.ReadRefused? || (answer.ReadThrew? && caught)
  }

  /** There is a block but the read is not issued: the block is given back. */
  lemma TryReadGivesBack(s: State, answer: Answer, caught: bool, extra: Option<Ref>)
    requires Between(s, extra) && s.c.reading.NotReading? && |s.flying| < s.st.limits.dataBlocks && !answer.ReadOk?
    ensures var t := TryRead(s, answer, caught);
            && t == s.(st := t.st, gone := s.gone || Reported(answer, caught))
            && t.st.limits == s.st.limits
            && Tight(t.st, s.flying, extra)
  {
    hide Tight, Create, Delete;
    CreateTight(s.st, s.flying, extra, ReadSize(s));
    var made := Create(s.st, ReadSize(s), true);
    DeleteTight(made.store, s.flying + {made.ref}, extra, made.ref);
    assert s.flying + {made.ref} - {made.ref} == s.flying;
  }

  /** The end of a step: `extra` is still in hand, and a read that was due failed for want of a block or with an
      exception that `escaped`. */
  ghost predicate Tried(s: State, t: State, extra: Option<Ref>, escaped: bool) {
    && t.flying == s.flying && t.c.closed == s.c.closed && t.st.limits == s.st.limits
    && Tight(t.st, Blocks(t), extra)
    && |Blocks(t)| <= t.st.limits.dataBlocks
    && (t.incoming.Some? ==> t.incoming.value !in t.flying)
    && (t.incoming.Some? <==> t.c.reading.Reading? || t.c.reading.StoppingReading?)
    && !t.threw
    && (t.c.reading.NotReading? && !t.gone ==> |t.flying| == t.st.limits.dataBlocks || escaped)
    && (t.c.reading.NotReading? ==> s.c.reading.NotReading?)
    && (escaped && s.c.reading.NotReading? && |s.flying| < s.st.limits.dataBlocks ==>
          t.c.reading.NotReading? && t.gone == s.gone)
  }

  lemma TryReadTried(s: State, answer: Answer, caught: bool, extra: Option<Ref>)
    requires Between(s, extra)
    ensures Tried(s, TryRead(s, answer, caught), extra, answer.ReadThrew? && !caught)
  {
    hide Tight, TryRead;
    if s.c.reading.NotReading? && |s.flying| < s.st.limits.dataBlocks {
      if answer.ReadOk? {
        TryReadTakes(s, caught, extra);
      } else {
        TryReadGivesBack(s, answer, caught, extra);
        assert Blocks(TryRead(s, answer, caught)) == s.flying;
      }
    } else {
      TryReadLacks(s, answer, caught, extra);
      assert Blocks(s) == s.flying;
    }
  }

  /** Exactly these steps leave a connection that is open, wants to read, has nothing under way, and of which the
      tunnel has heard nothing: an exception escapes while no block, or no other block, is being written. */
  predicate Strands(s: State, e: Event) {
    && !s.gone && !s.c.closed
    && match e
       case Start(answer) => answer.ReadThrew? && s.c.reading.NotStarted? && s.flying == {}
       case Written(r, answer) => answer.ReadThrew? && s.c.reading.NotReading? && s.flying == {r}
       case Data(_, passing, stops, _) =>
         passing == PassingThrew(false) && !stops && s.c.reading.Reading? && s.flying == {}
       case _ => false
  }

  lemma StartKeeps(s: State, e: Event)
    requires Inv(s) && Enabled(s, e) && e.Start?
    ensures Inv(Apply(s, e))
    ensures s.st.limits.dataBlocks >= 1 && Kept(s) ==> (Kept(Apply(s, e)) <==> !Strands(s, e))
  {
    hide Tight, TryRead;
    assert Blocks(s) == s.flying;
    if !s.c.reading.NotAllowed? {
      TryReadTried(s.(c := s.c.(reading := NotReading)), e.answer, false, None);
    }
  }

  lemma QuietKeeps(s: State, e: Event)
    requires Inv(s) && Enabled(s, e) && (e.Stop? || e.Close?)
    ensures Inv(Apply(s, e)) && (Kept(s) ==> Kept(Apply(s, e)))
  {
    hide Tight;
    assert Blocks(Apply(s, e)) == Blocks(s);
    hide Blocks;
  }

  lemma IsTunnel(st: Store, refs: set<Ref>, extra: Option<Ref>, r: Ref)
    requires Tight(st, refs, extra) && r in refs
    ensures r.data in st.data && st.data[r.data].isTunnel
  {
    assert r.data in Shape(st);
  }

  lemma FewerBlocks(s: State, r: Ref)
    requires Inv(s) && r in s.flying
    ensures var left := s.(st := Released(s.st, r), flying := s.flying - {r});
            && Has(s.st, r) && Blocks(left) == Blocks(s) - {r} && |Blocks(left)| < |Blocks(s)|
            && Inv(left) && left.st.limits == s.st.limits
            && s.st.data[r.data].isTunnel
  {
    hide Tight, Released;
    IsTunnel(s.st, Blocks(s), None, r);
    DeleteTight(s.st, Blocks(s), None, r);
    assert |Blocks(s) - {r}| == |Blocks(s)| - 1;
  }

  lemma WrittenKeeps(s: State, e: Event)
    requires Inv(s) && Enabled(s, e) && e.Written?
    ensures Inv(Apply(s, e))
    ensures s.st.limits.dataBlocks >= 1 && Kept(s) ==> (Kept(Apply(s, e)) <==> !Strands(s, e))
  {
    hide Tight, Released, TryRead;
    FewerBlocks(s, e.ref);
    var left := s.(st := Released(s.st, e.ref), flying := s.flying - {e.ref});
    if s.c.closed {
    } else if left.incoming.Some? {
      assert TryRead(left, e.answer, false) == left by { NotDue(left, e.answer); }
    } else {
      assert Blocks(left) == left.flying;
      assert left.flying == {} <==> s.flying == {e.ref};
      TryReadTried(left, e.answer, false, None);
    }
  }

  lemma NotDue(s: State, answer: Answer)
    requires !s.c.reading.NotReading?
    ensures TryRead(s, answer, false) == s
  {
  }

  lemma EndKeeps(s: State, e: Event)
    requires Inv(s) && Enabled(s, e) && e.End?
    ensures Inv(Apply(s, e)) && Kept(Apply(s, e))
  {
    hide Tight, Released;
    var b := s.incoming.value;
    DeleteTight(s.st, Blocks(s), None, b);
    assert Blocks(s) - {b} == s.flying == Blocks(Apply(s, e));
  }

  lemma FlyingIsNotAsked(s: State, flying: set<Ref>, answer: Answer)
    ensures TryRead(s.(flying := flying), answer, true) == TryRead(s, answer, true).(flying := flying)
  {
    hide Create, Released, ReadInitiated;
  }

  lemma OneFewer(s: State, b: Ref)
    requires b in s.flying && (s.incoming.Some? ==> s.incoming.value != b)
    ensures Blocks(s.(flying := s.flying - {b})) == Blocks(s) - {b}
    ensures |Blocks(s) - {b}| == |Blocks(s)| - 1
    ensures |s.flying| >= 2 ==> s.flying - {b} != {}
  {
    assert |s.flying - {b}| == |s.flying| - 1;
  }

  /** The data was not sent on: its block counts until the next read was tried. */
  lemma NotPassedKeeps(s: State, b: Ref, answer: Answer)
    requires Between(s.(flying := s.flying + {b}), None) && b !in s.flying
    ensures Has(TryRead(s, answer, true).st, b)
    ensures var tried := TryRead(s, answer, true);
            var next := tried.(st := Released(tried.st, b));
            Inv(next) && (s.st.limits.dataBlocks >= 2 ==> Kept(next))
  {
    hide Tight, Released, TryRead, Blocks;
    var full := s.(flying := s.flying + {b});
    var tried := TryRead(full, answer, true);
    TryReadTried(full, answer, true, None);
    FlyingIsNotAsked(s, full.flying, answer);
    FlyingIsNotAsked(full, s.flying, answer);
    assert full.(flying := s.flying) == s && full.flying - {b} == s.flying;
    assert b in Blocks(tried) by { InBlocks(tried, b); }
    DeleteTight(tried.st, Blocks(tried), None, b);
    OneFewer(tried, b);
    BlocksOf(tried.(flying := s.flying), Released(tried.st, b));
  }

  lemma InBlocks(s: State, b: Ref)
    requires b in s.flying
    ensures b in Blocks(s)
  {
  }

  lemma BlocksOf(s: State, st: Store)
    ensures Blocks(s.(st := st)) == Blocks(s)
  {
  }

  lemma PassedKeeps(s: State, b: Ref, answer: Answer)
    requires Between(s, Some(b)) && s.flying != {}
    ensures Has(TryRead(s, answer, true).st, b)
    ensures var tried := TryRead(s, answer, true);
            var next := tried.(st := Released(tried.st, b));
            Inv(next) && Kept(next)
  {
    hide Tight, Released, TryRead;
    var tried := TryRead(s, answer, true);
    TryReadTried(s, answer, true, Some(b));
    DeleteExtraTight(tried.st, Blocks(tried), b);
    assert Blocks(tried.(st := Released(tried.st, b))) == Blocks(tried);
  }

  lemma DroppedKeeps(s: State, b: Ref)
    requires Between(s.(flying := s.flying + {b}), None) && b !in s.flying
    ensures Has(s.st, b)
    ensures Inv(s.(st := Released(s.st, b)))
    ensures Kept(s.(st := Released(s.st, b))) <==>
              s.c.closed || s.gone || !s.c.reading.NotReading? || s.flying != {}
  {
    hide Tight, Released;
    DeleteTight(s.st, s.flying + {b}, None, b);
    assert s.flying + {b} - {b} == s.flying == Blocks(s.(st := Released(s.st, b)));
    assert |s.flying| < |s.flying + {b}|;
  }

  /** The state in which the data of a read is passed on. */
  function Received(s: State, now: nat): State {
    s.(c := PassedOn(ReadingCancelled(s.c), now), incoming := None)
  }

  lemma ReceivedIsBetween(s: State, now: nat)
    requires Inv(s) && s.incoming.Some?
    ensures Between(Received(s, now).(flying := s.flying + {s.incoming.value}), None)
  {
    hide Tight;
    assert s.flying + {s.incoming.value} == Blocks(s);
  }

  lemma SentIsBetween(s: State, b: Ref)
    requires Between(s.(flying := s.flying + {b}), None) && b !in s.flying
    ensures Has(s.st, b)
    ensures var (told, fine) := PassingOn(s, b, Passed);
            && fine && Between(told, Some(b)) && told.flying != {} && told.c == s.c && !told.threw
            && |told.flying| == |s.flying| + 1 && told.gone == s.gone && told.st.limits == s.st.limits
  {
    hide Tight, Duplicate;
    DuplicateTight(s.st, s.flying + {b}, b);
    var copy := Duplicate(s.st, b).ref;
    assert s.flying + {b} - {b} + {copy} == s.flying + {copy};
    assert |s.flying + {b}| == |s.flying| + 1 == |s.flying + {copy}|;
  }

  lemma DataThrewKeeps(s: State, e: Event)
    requires Inv(s) && Enabled(s, e) && e.Data? && e.passing.PassingThrew? && !s.c.closed
    ensures Inv(Apply(s, e)) && (Kept(Apply(s, e)) <==> !Strands(s, e))
  {
    hide Tight, Released;
    var taken := Received(s, e.now);
    ReceivedIsBetween(s, e.now);
    DroppedKeeps(taken.(c := StoppedIf(taken.c, e.stops), gone := taken.gone || e.passing.caught), s.incoming.value);
  }

  lemma DataSentKeeps(s: State, e: Event)
    requires Inv(s) && Enabled(s, e) && e.Data? && (!e.passing.PassingThrew? || s.c.closed)
    ensures Inv(Apply(s, e))
    ensures s.st.limits.dataBlocks >= 2 ==> Kept(Apply(s, e))
  {
    hide Tight, Released, TryRead;
    var b := s.incoming.value;
    var taken := Received(s, e.now);
    ReceivedIsBetween(s, e.now);
    if s.c.closed {
      DroppedKeeps(taken.(c := ReadingCancelled(s.c)), b);
    } else if e.passing.NotPassed? {
      NotPassedKeeps(taken.(c := StoppedIf(taken.c, e.stops)), b, e.answer);
    } else {
      SentIsBetween(taken, b);
      var told := PassingOn(taken, b, Passed).0;
      PassedKeeps(told.(c := StoppedIf(told.c, e.stops)), b, e.answer);
    }
  }

  lemma DataKeeps(s: State, e: Event)
    requires Inv(s) && Enabled(s, e) && e.Data?
    ensures Inv(Apply(s, e))
    ensures s.st.limits.dataBlocks >= 2 ==> (Kept(Apply(s, e)) <==> !Strands(s, e))
  {
    hide Inv, Kept, Apply, Enabled;
    if e.passing.PassingThrew? && !s.c.closed {
      DataThrewKeeps(s, e);
    } else {
      DataSentKeeps(s, e);
    }
  }

  /** Every handler keeps the pool; with two satellites or more it keeps the resume exactly when it does not strand
      the connection. */
  lemma StepKeeps(s: State, e: Event)
    requires Inv(s) && Enabled(s, e)
    ensures Inv(Apply(s, e))
    ensures s.st.limits.dataBlocks >= 2 && Kept(s) ==> (Kept(Apply(s, e)) <==> !Strands(s, e))
  {
    hide Inv, Kept, Apply;
    match e
    case Start(_) => StartKeeps(s, e);
    case Stop | Close => QuietKeeps(s, e);
    case Data(_, _, _, _) => DataKeeps(s, e);
    case End => EndKeeps(s, e);
    case Written(_, _) => WrittenKeeps(s, e);
  }

  // ---------------------------------------------------------------- every run

  ghost predicate Runs(s: State, events: seq<Event>)
    decreases |events|
  {
    events == [] || (Enabled(s, events[0]) && Runs(Apply(s, events[0]), events[1..]))
  }

  ghost function After(s: State, events: seq<Event>): State
    requires Runs(s, events)
    decreases |events|
  {
    if events == [] then s else After(Apply(s, events[0]), events[1..])
  }

  lemma InitInv(capacity: nat, payload: nat)
    ensures Inv(Init(capacity, payload)) && Kept(Init(capacity, payload))
  {
    EmptyIsValid(Limits(capacity + 1, capacity, payload + HEADER));
  }

  lemma StoresKeepLimits()
    ensures forall st: Store, r: Ref :: Released(st, r).limits == st.limits
    ensures forall s: State, answer: Answer, caught: bool :: TryRead(s, answer, caught).st.limits == s.st.limits
  {
  }

  lemma SameLimits(s: State, e: Event)
    requires Enabled(s, e)
    ensures Apply(s, e).st.limits == s.st.limits
  {
    hide Released, TryRead;
    StoresKeepLimits();
  }

  /** Some step of the run strands the connection. */
  ghost predicate Stranding(s: State, events: seq<Event>)
    requires Runs(s, events)
    decreases |events|
  {
    events != [] && (Strands(s, events[0]) || Stranding(Apply(s, events[0]), events[1..]))
  }

  lemma {:induction false} RunKeeps(s: State, events: seq<Event>)
    requires Inv(s) && Runs(s, events)
    ensures Inv(After(s, events)) && After(s, events).st.limits == s.st.limits
    ensures s.st.limits.dataBlocks >= 2 && Kept(s) && !Stranding(s, events) ==> Kept(After(s, events))
    decreases |events|
  {
    hide Inv, Kept, Enabled, Apply, Strands;
    if events != [] {
      StepKeeps(s, events[0]);
      SameLimits(s, events[0]);
      RunKeeps(Apply(s, events[0]), events[1..]);
    }
  }

  /** With one message block more than satellites neither a Duplicate nor a Create ever finds its pool
      exhausted, whatever the capacity, and between steps every message block has its own satellite. */
  lemma PoolIsEnough(capacity: nat, payload: nat, events: seq<Event>)
    requires Runs(Init(capacity, payload), events)
    ensures var s := After(Init(capacity, payload), events);
            !s.threw && s.st.blocksInUse == |s.st.satellites| <= capacity
  {
    InitInv(capacity, payload);
    RunKeeps(Init(capacity, payload), events);
  }

  /** Every block that is read or written is a tunnel message in every run. */
  lemma BlocksAreTunnelMessages(capacity: nat, payload: nat, events: seq<Event>, r: Ref)
    requires Runs(Init(capacity, payload), events)
    ensures var s := After(Init(capacity, payload), events);
            r in Blocks(s) ==> r.data in s.st.data && s.st.data[r.data].isTunnel
  {
    InitInv(capacity, payload);
    RunKeeps(Init(capacity, payload), events);
    var s := After(Init(capacity, payload), events);
    hide Runs, After;
    if r in Blocks(s) {
      IsTunnel(s.st, Blocks(s), None, r);
    }
  }

  // ---------------------------------------------------------------- the steps and the object

  /** What passing the data on is for the object. */
  function DeliveryOf(passing: Passing): Delivery {
    match passing
    case PassingThrew(caught) => if caught then DeliveryCaught else DeliveryEscaped
    case _ => Delivered
  }

  lemma TryReadIsTheObject(s: State, answer: Answer, caught: bool)
    ensures var t, issue := TryRead(s, answer, caught), IssueOf(s.st, answer);
            && t.c == ReadInitiated(s.c, issue)
            && (t.gone <==> s.gone || Told(InitReaction(s.c, issue), caught))
  {
    hide Create, Released;
  }

  /** StartReading: the connection is what the object makes of it, and the tunnel has heard what it answers. */
  lemma StartIsTheObject(s: State, answer: Answer)
    requires Enabled(s, Start(answer))
    ensures var t, issue := Apply(s, Start(answer)), IssueOf(s.st, answer);
            && t.c == ReadingStarted(s.c, issue)
            && (t.gone <==> s.gone || Told(StartReaction(s.c, issue), false))
  {
    hide TryRead, IssueOf;
    TryReadIsTheObject(s.(c := s.c.(reading := NotReading)), answer, false);
  }

  /** HandleWriteStream with OnMessageBlockSent, once the block has come back. */
  lemma WrittenIsTheObject(s: State, r: Ref, answer: Answer)
    requires Enabled(s, Written(r, answer))
    ensures var t, issue := Apply(s, Written(r, answer)), IssueOf(Released(s.st, r), answer);
            var isTunnel := s.st.data[r.data].isTunnel;
            && t.c == (if isTunnel then BlockSent(s.c, issue) else s.c)
            && (!s.c.closed ==> (t.gone <==> s.gone || Told(SentReaction(s.c, isTunnel, issue), false)))
  {
    hide TryRead, IssueOf, Released;
    TryReadIsTheObject(s.(st := Released(s.st, r), flying := s.flying - {r}), answer, false);
  }

  /** HandleReadStream: how the read that it issues ends depends on the pool while the block is still in hand. */
  lemma DataIsTheObject(s: State, e: Event)
    requires Inv(s) && Enabled(s, e) && e.Data? && !s.c.closed
    ensures var t, delivery := Apply(s, e), DeliveryOf(e.passing);
            var told := PassingOn(Received(s, e.now), s.incoming.value, e.passing).0;
            var issue := IssueOf(told.st, e.answer);
            && t.c == (if delivery.Delivered? then BlockReceived(s.c, e.now, e.stops, issue)
                       else BlockEscaped(s.c, e.now, e.stops))
            && (t.gone <==> s.gone || DataAsksToClose(s.c, e.now, e.stops, delivery, issue))
  {
    hide Inv, TryRead, IssueOf, Released, PassingOn;
    PassingIsFine(s, e);
    var told := PassingOn(Received(s, e.now), s.incoming.value, e.passing).0;
    PassedIsQuiet(Received(s, e.now), s.incoming.value, e.passing);
    TryReadIsTheObject(told.(c := StoppedIf(told.c, e.stops)), e.answer, true);
  }

  lemma PassedIsQuiet(s: State, b: Ref, passing: Passing)
    requires Has(s.st, b)
    ensures var (told, fine) := PassingOn(s, b, passing);
            && told.c == s.c
            && (fine ==> told.gone == s.gone)
            && (passing.PassingThrew? ==> (told.gone <==> s.gone || passing.caught))
  {
    hide Duplicate;
  }

  /** Passing on fails only by an exception of the receiver. */
  lemma PassingIsFine(s: State, e: Event)
    requires Inv(s) && Enabled(s, e) && e.Data?
    ensures PassingOn(Received(s, e.now), s.incoming.value, e.passing).1 <==> !e.passing.PassingThrew?
  {
    hide Tight, Duplicate;
    if e.passing.Passed? {
      ReceivedIsBetween(s, e.now);
      SentIsBetween(Received(s, e.now), s.incoming.value);
    }
  }

  // ---------------------------------------------------------------- the resume

  /** The next completed write restarts a read that waits for a block. */
  lemma WrittenRestarts(s: State, r: Ref)
    requires Inv(s) && s.c.reading.NotReading? && !s.c.closed && r in s.flying
    ensures Enabled(s, Written(r, ReadOk)) && Apply(s, Written(r, ReadOk)).c.reading.Reading?
  {
    hide Tight, Released, TryRead;
    FewerBlocks(s, r);
    var left := s.(st := Released(s.st, r), flying := s.flying - {r});
    assert Blocks(left) == left.flying;
    TryReadTakes(left, false, None);
  }

  /** In a run without a stranding step a started connection that waits for a block has a write under way, whose
      completion restarts the read, unless the tunnel was asked to close it. */
  lemma NoLostResume(capacity: nat, payload: nat, events: seq<Event>)
    requires capacity >= 2 && Runs(Init(capacity, payload), events) && !Stranding(Init(capacity, payload), events)
    ensures var s := After(Init(capacity, payload), events);
            s.c.reading.NotReading? && !s.c.closed && !s.gone ==>
              && s.flying != {}
              && forall r :: r in s.flying ==>
                   Enabled(s, Written(r, ReadOk)) && Apply(s, Written(r, ReadOk)).c.reading.Reading?
  {
    InitInv(capacity, payload);
    RunKeeps(Init(capacity, payload), events);
    var s := After(Init(capacity, payload), events);
    hide Runs, After, Inv, Stranding;
    if s.c.reading.NotReading? && !s.c.closed {
      forall r | r in s.flying
        ensures Enabled(s, Written(r, ReadOk)) && Apply(s, Written(r, ReadOk)).c.reading.Reading?
      {
        WrittenRestarts(s, r);
      }
    }
  }

  // ---------------------------------------------------------------- when a resume is lost

  /** Where exceptions may escape: from the read that StartReading issues, from the read that a completed write
      restarts, and from passing data on, as an exception that is not a LocalException. */
  datatype Faults = Faults(atStart: bool, atWritten: bool, foreign: bool)

  predicate Permits(f: Faults, e: Event) {
    match e
    case Start(answer) => answer.ReadThrew? ==> f.atStart
    case Written(_, answer) => answer.ReadThrew? ==> f.atWritten
    case Data(_, passing, _, _) => passing == PassingThrew(false) ==> f.foreign
    case _ => true
  }

  predicate Respects(f: Faults, events: seq<Event>) {
    forall i :: 0 <= i < |events| ==> Permits(f, events[i])
  }

  /** Some run with no other faults ends with a connection that is never resumed. */
  ghost predicate Loses(f: Faults, s: State) {
    exists events :: Runs(s, events) && Respects(f, events) && !Kept(After(s, events))
  }

  lemma LostAlready(f: Faults, s: State)
    requires !Kept(s)
    ensures Loses(f, s)
  {
    assert Runs(s, []) && After(s, []) == s;
  }

  lemma LosesAfter(f: Faults, s: State, e: Event)
    requires Enabled(s, e) && Permits(f, e) && Loses(f, Apply(s, e))
    ensures Loses(f, s)
  {
    hide Kept, Apply, Enabled, Permits;
    var events :| Runs(Apply(s, e), events) && Respects(f, events) && !Kept(After(Apply(s, e), events));
    assert ([e] + events)[1..] == events;
    assert Runs(s, [e] + events) && After(s, [e] + events) == After(Apply(s, e), events);
  }

  lemma LosesByStranding(f: Faults, s: State, e: Event)
    requires Inv(s) && Kept(s) && Enabled(s, e) && Strands(s, e) && Permits(f, e) && s.st.limits.dataBlocks >= 2
    ensures Loses(f, s)
  {
    StepKeeps(s, e);
    hide Kept, Apply, Enabled, Permits, Strands, Inv;
    LostAlready(f, Apply(s, e));
    LosesAfter(f, s, e);
  }

  /** A connection that reads, open, with this many satellites. */
  ghost predicate ReadsOn(s: State) {
    Inv(s) && s.c.reading.Reading? && !s.c.closed && !s.gone
  }

  /** A connection that waits for one of its blocks. */
  ghost predicate Waits(s: State) {
    Inv(s) && s.c.reading.NotReading? && !s.c.closed && !s.gone && s.flying != {}
  }

  lemma StartReads(s: State)
    requires Inv(s) && s.c.reading.NotStarted? && !s.c.closed && !s.gone && |s.flying| < s.st.limits.dataBlocks
    ensures var t := Apply(s, Start(ReadOk));
            ReadsOn(t) && t.incoming.Some? && t.flying == s.flying && t.st.limits == s.st.limits
  {
    hide Tight, TryRead;
    StartKeeps(s, Start(ReadOk));
    assert Blocks(s) == s.flying;
    TryReadTakes(s.(c := s.c.(reading := NotReading)), false, None);
  }

  /** The data of the only block is not sent on: no block for the next read, and none to come. */
  lemma OnlyBlockRead(s: State)
    requires ReadsOn(s) && s.flying == {} && s.st.limits.dataBlocks == 1
    ensures var data := Event.Data(0, NotPassed, false, ReadOk);
            Enabled(s, data) && !Kept(Apply(s, data))
  {
    hide Tight, TryRead, Released;
    var b := s.incoming.value;
    assert Blocks(s) == {b};
    DeleteTight(s.st, Blocks(s), None, b);
    ReceivedIsBetween(s, 0);
    var full := Received(s, 0).(flying := {b});
    assert s.flying + {b} == {b};
    TryReadLacks(full, ReadOk, true, None);
    FlyingIsNotAsked(full, {}, ReadOk);
    assert full.(flying := {}) == Received(s, 0);
  }

  lemma ReaderHasABlock(s: State)
    requires ReadsOn(s)
    ensures s.incoming.Some? && Has(s.st, s.incoming.value) && s.incoming.value !in s.flying
    ensures Blocks(s) == s.flying + {s.incoming.value} && |Blocks(s)| == |s.flying| + 1 <= s.st.limits.dataBlocks
  {
    hide Tight;
    DeleteTight(s.st, Blocks(s), None, s.incoming.value);
  }

  /** Data is sent on while there is a block for the next read: one more write is under way. */
  lemma FillStep(s: State)
    requires ReadsOn(s) && |Blocks(s)| < s.st.limits.dataBlocks
    ensures Enabled(s, Event.Data(0, Passed, false, ReadOk))
    ensures var t := Apply(s, Event.Data(0, Passed, false, ReadOk));
            ReadsOn(t) && |Blocks(t)| == |Blocks(s)| + 1 && t.st.limits == s.st.limits
  {
    hide Tight, TryRead, Released, Has;
    ReaderHasABlock(s);
    var b := s.incoming.value;
    var taken := Received(s, 0);
    ReceivedIsBetween(s, 0);
    SentIsBetween(taken, b);
    PassedReads(PassingOn(taken, b, Passed).0, b);
  }

  lemma PassedReads(s: State, b: Ref)
    requires Between(s, Some(b)) && s.flying != {} && s.c.reading.NotReading? && |s.flying| < s.st.limits.dataBlocks
    requires !s.c.closed && !s.gone
    ensures Has(TryRead(s, ReadOk, true).st, b)
    ensures var tried := TryRead(s, ReadOk, true);
            var next := tried.(st := Released(tried.st, b));
            ReadsOn(next) && |Blocks(next)| == |s.flying| + 1 && next.st.limits == s.st.limits
  {
    hide Tight, TryRead, Released;
    PassedKeeps(s, b, ReadOk);
    TryReadTakes(s, true, Some(b));
    var tried := TryRead(s, ReadOk, true);
    DeleteExtraTight(tried.st, s.flying + {tried.incoming.value}, b);
    assert Blocks(tried.(st := Released(tried.st, b))) == s.flying + {tried.incoming.value};
  }

  /** Data is dropped while all blocks are in use: the connection waits. */
  lemma FullStep(s: State)
    requires ReadsOn(s) && |Blocks(s)| == s.st.limits.dataBlocks >= 2
    ensures Enabled(s, Event.Data(0, NotPassed, false, ReadOk))
    ensures var t := Apply(s, Event.Data(0, NotPassed, false, ReadOk));
            Waits(t) && t.st.limits == s.st.limits
  {
    hide Tight, TryRead, Released, Has;
    ReaderHasABlock(s);
    var b := s.incoming.value;
    var taken := Received(s, 0);
    var full := taken.(flying := s.flying + {b});
    ReceivedIsBetween(s, 0);
    TryReadLacks(full, ReadOk, true, None);
    FlyingIsNotAsked(full, s.flying, ReadOk);
    assert full.(flying := s.flying) == taken;
    DroppedKeeps(taken, b);
    DeleteTight(s.st, Blocks(s), None, b);
  }

  /** A write completes, the read it restarts throws, and nobody catches that: one write fewer is under way. */
  lemma DrainStep(s: State, r: Ref)
    requires Waits(s) && r in s.flying && |s.flying| > 1
    ensures Enabled(s, Written(r, ReadThrew))
    ensures var t := Apply(s, Written(r, ReadThrew));
            Waits(t) && t.flying == s.flying - {r} && t.st.limits == s.st.limits
  {
    hide Tight, TryRead, Released, Has;
    FewerBlocks(s, r);
    var left := s.(st := Released(s.st, r), flying := s.flying - {r});
    assert Blocks(left) == left.flying;
    assert |left.flying| == |s.flying| - 1;
    TryReadGivesBack(left, ReadThrew, false, None);
    WrittenKeeps(s, Written(r, ReadThrew));
  }

  const IN_WRITES := Faults(false, true, false)

  lemma LastWriteStrands(s: State, r: Ref)
    requires Waits(s) && s.flying == {r}
    ensures Enabled(s, Written(r, ReadThrew)) && Strands(s, Written(r, ReadThrew)) && Inv(s) && Kept(s)
  {
    hide Tight;
    FewerBlocks(s, r);
  }

  lemma LastWriteIsLost(s: State, r: Ref)
    requires Waits(s) && s.flying == {r} && s.st.limits.dataBlocks >= 2
    ensures Loses(IN_WRITES, s)
  {
    hide Waits, Inv, Enabled, Strands, Kept, Apply, Loses;
    LastWriteStrands(s, r);
    LosesByStranding(IN_WRITES, s, Written(r, ReadThrew));
  }

  /** A waiting connection loses its resume when the reads its writes restart throw. */
  lemma {:induction false} WaitingIsLost(s: State)
    requires Waits(s) && s.st.limits.dataBlocks >= 2
    ensures Loses(IN_WRITES, s)
    decreases |s.flying|
  {
    hide Inv, Enabled, Apply, Loses;
    var r :| r in s.flying;
    assert |s.flying - {r}| == |s.flying| - 1;
    if |s.flying| == 1 {
      assert s.flying == {r};
      LastWriteIsLost(s, r);
    } else {
      DrainStep(s, r);
      WaitingIsLost(Apply(s, Written(r, ReadThrew)));
      LosesAfter(IN_WRITES, s, Written(r, ReadThrew));
    }
  }

  lemma {:induction false} ReadingIsLost(s: State)
    requires ReadsOn(s) && s.st.limits.dataBlocks >= 2
    ensures Loses(IN_WRITES, s)
    decreases s.st.limits.dataBlocks - |Blocks(s)|
  {
    hide Apply, Enabled, Loses, ReadsOn, Waits, Blocks;
    var sent, dropped := Event.Data(0, Passed, false, ReadOk), Event.Data(0, NotPassed, false, ReadOk);
    ReaderHasABlock(s);
    if |Blocks(s)| < s.st.limits.dataBlocks {
      FillStep(s);
      ReaderHasABlock(Apply(s, sent));
      ReadingIsLost(Apply(s, sent));
      LosesAfter(IN_WRITES, s, sent);
    } else {
      FullStep(s);
      WaitingIsLost(Apply(s, dropped));
      LosesAfter(IN_WRITES, s, dropped);
    }
  }

  /** With any number of satellites a connection is lost when writes complete and the reads they restart throw. */
  lemma LostInItsWrites(capacity: nat, payload: nat)
    requires capacity >= 2
    ensures Loses(IN_WRITES, Init(capacity, payload))
  {
    var s := Init(capacity, payload);
    InitInv(capacity, payload);
    StartReads(s);
    ReadingIsLost(Apply(s, Start(ReadOk)));
    LosesAfter(IN_WRITES, s, Start(ReadOk));
  }

  lemma ForeignFaultStrands(s: State)
    requires ReadsOn(s) && s.flying == {}
    ensures var e := Event.Data(0, PassingThrew(false), false, ReadOk);
            Enabled(s, e) && Strands(s, e)
  {
    ReaderHasABlock(s);
  }

  lemma LostAtTheStart(f: Faults, s: State)
    requires Inv(s) && s.c.reading.NotStarted? && !s.c.closed && !s.gone && s.flying == {} && s.st.limits.dataBlocks >= 2
    requires f.atStart || f.foreign
    ensures Loses(f, s)
  {
    if f.atStart {
      LosesByStranding(f, s, Start(ReadThrew));
    } else {
      StartReads(s);
      var t := Apply(s, Start(ReadOk));
      assert Inv(t) && Kept(t) && Enabled(s, Start(ReadOk));
      ForeignFaultStrands(t);
      hide Inv, Kept, Apply, Enabled, Strands, Loses;
      LosesByStranding(f, t, Event.Data(0, PassingThrew(false), false, ReadOk));
      LosesAfter(f, s, Start(ReadOk));
    }
  }

  lemma LostWithOne(f: Faults, s: State)
    requires Inv(s) && s.c.reading.NotStarted? && !s.c.closed && !s.gone && s.flying == {} && s.st.limits.dataBlocks == 1
    ensures Loses(f, s)
  {
    assert Enabled(s, Start(ReadOk));
    hide Apply, Enabled, Kept, Inv;
    StartReads(s);
    var t := Apply(s, Start(ReadOk));
    var data := Event.Data(0, NotPassed, false, ReadOk);
    OnlyBlockRead(t);
    LostAlready(f, Apply(t, data));
    LosesAfter(f, t, data);
    LosesAfter(f, s, Start(ReadOk));
  }

  lemma LostWithNone(f: Faults, payload: nat)
    ensures Loses(f, Init(0, payload))
  {
    LostAlready(f, Apply(Init(0, payload), Start(ReadOk)));
    LosesAfter(f, Init(0, payload), Start(ReadOk));
  }

  lemma {:induction false} NoFaultNoStranding(s: State, events: seq<Event>)
    requires Runs(s, events) && Respects(Faults(false, false, false), events)
    ensures !Stranding(s, events)
    decreases |events|
  {
    hide Apply, Enabled;
    if events != [] {
      assert Permits(Faults(false, false, false), events[0]);
      NoFaultNoStranding(Apply(s, events[0]), events[1..]);
    }
  }

  /** Whatever else happens, a read is never left waiting with nobody to resume it exactly when there are two
      satellites or more and no exception escapes. */
  lemma TwoAreNeeded(capacity: nat, payload: nat, f: Faults)
    ensures !Loses(f, Init(capacity, payload)) <==> capacity >= 2 && f == Faults(false, false, false)
  {
    var s := Init(capacity, payload);
    InitInv(capacity, payload);
    if capacity == 0 {
      LostWithNone(f, payload);
    } else if capacity == 1 {
      LostWithOne(f, s);
    } else if f.atStart || f.foreign {
      LostAtTheStart(f, s);
    } else if f.atWritten {
      LostInItsWrites(capacity, payload);
    } else {
      NeverLost(capacity, payload);
    }
  }

  lemma NeverLost(capacity: nat, payload: nat)
    requires capacity >= 2
    ensures !Loses(Faults(false, false, false), Init(capacity, payload))
  {
    var s, none := Init(capacity, payload), Faults(false, false, false);
    InitInv(capacity, payload);
    forall events | Runs(s, events) && Respects(none, events)
      ensures Kept(After(s, events))
    {
      NoFaultNoStranding(s, events);
      RunKeeps(s, events);
    }
  }
}
