// What is left of ReadWriteSpinMutex when 2^30 or more threads use it: the count of
// the readers then runs into the wait bit, and from there into the writer bit.
module RwSpinMutexLimit {
  import opened Bits
  import opened RwSpinMutex

  // ---------------------------------------------------------------- exactly 2^30 threads

  /** How the word relates to the threads. */
  datatype Shape =
    | Counted // it says what they hold
    | Full // 2^30 readers look like the wait bit alone
    | Stuck // the writer bit is set, and there is no writer
    | Over // with the wait bit, it says at least as many readers as there are

  ghost predicate Safe(s: State) {
    exists shape, bit, wait, count :: Shaped(s, shape, bit, wait, count)
  }

  ghost predicate Shaped(s: State, shape: Shape, bit: bool, wait: bool, count: nat) {
    var readers, writers := Count(s.threads, Reader), Count(s.threads, Writer);
    && s.word == Pack(bit, wait, count) && count < FLAG_WRITER_WAIT
    && Kept(s.threads)
    && match shape
       case Counted => writers == (if bit then 1 else 0) && (bit ==> readers == 0) && count == readers && Seen(s.threads)
       case Full => writers == 0 && readers == FLAG_WRITER_WAIT && !bit && wait && count == 0 && Seen(s.threads)
       case Stuck => writers == 0 && bit && count == 0
       case Over => writers == 0 && readers <= count && !bit && wait
  }

  ghost predicate Kept(threads: seq<Pc>) {
    forall i :: 0 <= i < |threads| ==> KeepsABit(threads[i])
  }

  ghost predicate Seen(threads: seq<Pc>) {
    forall i :: 0 <= i < |threads| ==> SeesAReader(threads[i])
  }

  predicate KeepsABit(pc: Pc) {
    pc.WriteLeaving? ==> pc.kept == 0 || pc.kept == FLAG_WRITER_WAIT
  }

  predicate SeesAReader(pc: Pc) {
    pc.ReadLeaveSeen? ==> And(pc.seen, FLAG_READER) != 0
  }

  /** The counts after thread `i` has moved to `pc`. */
  lemma Moves(s: State, i: nat, pc: Pc)
    requires i < |s.threads|
    ensures CountStep(s, i, pc, Reader) && CountStep(s, i, pc, Writer)
    ensures !Plays(s.threads[i], Reader) ==> Count(s.threads, Reader) < |s.threads|
    ensures Kept(s.threads) && KeepsABit(pc) ==> Kept(s.threads[i := pc])
    ensures Seen(s.threads) && SeesAReader(pc) ==> Seen(s.threads[i := pc])
    ensures Count(s.threads, Reader) == 0 ==> Seen(s.threads)
  {
    CountsAfter(s, i, pc);
    CountUpdate(s.threads, i, HoldsRead, Reader);
    if Count(s.threads, Reader) == 0 {
      forall j | 0 <= j < |s.threads|
        ensures SeesAReader(s.threads[j])
      {
        CountUpdate(s.threads, j, Outside, Reader);
      }
    }
  }

  lemma TakesWriteSafely(s: State, shape: Shape, bit: bool, wait: bool, count: nat, i: nat)
    requires Shaped(s, shape, bit, wait, count) && i < |s.threads| <= FLAG_WRITER_WAIT
    requires s.threads[i] == WriteSeen(s.word) && (s.word == 0 || s.word == FLAG_WRITER_WAIT)
    ensures Safe(State(FLAG_WRITER, s.threads[i := HoldsWrite]))
  {
    hide Kept, Seen, And, Count;
    Moves(s, i, HoldsWrite);
    assert Shaped(State(FLAG_WRITER, s.threads[i := HoldsWrite]), Counted, true, false, 0);
  }

  lemma MarksWaitSafely(s: State, shape: Shape, bit: bool, wait: bool, count: nat, i: nat)
    requires Shaped(s, shape, bit, wait, count) && i < |s.threads| <= FLAG_WRITER_WAIT
    requires s.threads[i] == WriteMark(s.word) && And(s.word, FLAG_WRITER_WAIT) == 0
    ensures Safe(State(Or(s.word, FLAG_WRITER_WAIT), s.threads[i := WriteLoop]))
  {
    hide Kept, Seen, And, Or, Count;
    Moves(s, i, WriteLoop);
    Masks(bit, wait, count);
    assert Shaped(State(Or(s.word, FLAG_WRITER_WAIT), s.threads[i := WriteLoop]), shape, bit, true, count);
  }

  lemma LeavesWriteSafely(s: State, shape: Shape, bit: bool, wait: bool, count: nat, i: nat)
    requires Shaped(s, shape, bit, wait, count) && i < |s.threads| && s.threads[i].WriteLeaving?
    ensures Safe(State(s.threads[i].kept, s.threads[i := Outside]))
  {
    var kept := s.threads[i].kept;
    assert KeepsABit(s.threads[i]);
    hide Kept, Seen, And, Count;
    Moves(s, i, Outside);
    assert Shaped(State(kept, s.threads[i := Outside]), Counted, false, kept == FLAG_WRITER_WAIT, 0);
  }

  /** The word with one reader more: the count runs into the wait bit, and with it into the writer bit. */
  lemma OneReaderMore(wait: bool, count: nat)
    requires count < FLAG_WRITER_WAIT
    ensures (Pack(false, wait, count) + 1) % WORD ==
            if count + 1 < FLAG_WRITER_WAIT then Pack(false, wait, count + 1) else Pack(wait, !wait, 0)
  {
    assert (Pack(false, wait, count) + 1) % WORD == Pack(false, wait, count) + 1;
  }

  lemma NoWriterBit(bit: bool, wait: bool, count: nat)
    requires count < FLAG_WRITER_WAIT && And(Pack(bit, wait, count), FLAG_WRITER) == 0
    ensures !bit
  {
    Masks(bit, wait, count);
  }

  lemma TakesReadSafely(s: State, shape: Shape, bit: bool, wait: bool, count: nat, i: nat)
    requires Shaped(s, shape, bit, wait, count) && i < |s.threads| <= FLAG_WRITER_WAIT
    requires s.threads[i] == ReadSeen(s.word) && And(s.word, FLAG_WRITER) == 0
    ensures Safe(State((s.word + 1) % WORD, s.threads[i := HoldsRead]))
  {
    hide Kept, Seen, And, Count, Pack;
    var after := State((s.word + 1) % WORD, s.threads[i := HoldsRead]);
    Moves(s, i, HoldsRead);
    NoWriterBit(bit, wait, count);
    OneReaderMore(wait, count);
    if count + 1 < FLAG_WRITER_WAIT {
      assert Shaped(after, shape, false, wait, count + 1);
    } else if wait {
      assert Shaped(after, Stuck, true, false, 0);
    } else {
      assert Shaped(after, Full, false, true, 0);
    }
  }

  lemma LeavesReadSafely(s: State, shape: Shape, bit: bool, wait: bool, count: nat, i: nat)
    requires Shaped(s, shape, bit, wait, count) && i < |s.threads| <= FLAG_WRITER_WAIT
    requires s.threads[i] == ReadLeaveSeen(s.word) && And(s.word, FLAG_READER) > 0
    ensures Safe(State(Or(And(s.word, FLAG_READER) - 1, And(s.word, FLAG_WRITER_WAIT)), s.threads[i := Outside]))
  {
    hide Kept, Seen, And, Or, Count;
    var after := State(Or(And(s.word, FLAG_READER) - 1, And(s.word, FLAG_WRITER_WAIT)), s.threads[i := Outside]);
    Moves(s, i, Outside);
    Masks(bit, wait, count);
    if count > 0 {
      OneReaderFewer(wait, count);
      assert Shaped(after, shape, false, wait, count - 1);
    } else {
      Masks(false, false, FLAG_WRITER_WAIT - 1);
      assert Shaped(after, Over, false, true, FLAG_WRITER_WAIT - 1);
    }
  }

  /** The assert of ReleaseRead fails, and the thread leaves without taking itself off the count. */
  lemma GivesUpSafely(s: State, shape: Shape, bit: bool, wait: bool, count: nat, i: nat)
    requires Shaped(s, shape, bit, wait, count) && i < |s.threads|
    requires s.threads[i].ReadLeaveSeen? && And(s.threads[i].seen, FLAG_READER) == 0
    ensures Safe(State(s.word, s.threads[i := Outside]))
  {
    assert !SeesAReader(s.threads[i]);
    assert !Seen(s.threads);
    hide Kept, Seen, And, Count;
    Moves(s, i, Outside);
    assert Shaped(State(s.word, s.threads[i := Outside]), shape, bit, wait, count);
  }

  /** What a thread remembers of a look at the word. */
  lemma LooksRight(s: State, shape: Shape, bit: bool, wait: bool, count: nat, i: nat, wantsWrite: bool)
    requires Shaped(s, shape, bit, wait, count) && i < |s.threads|
    ensures var pc := Act(s.word, s.threads[i], wantsWrite).1;
            && KeepsABit(pc)
            && (shape.Counted? || shape.Full? ==> SeesAReader(pc))
  {
    hide Pack, And, Or, Kept;
    Masks(bit, wait, count);
    CountUpdate(s.threads, i, Outside, Reader);
    var pc := s.threads[i];
    if pc.ReadLeaveLoop? && (shape.Counted? || shape.Full?) {
      PackIsZero(wait, count);
    }
  }

  lemma PackIsZero(wait: bool, count: nat)
    ensures Pack(false, wait, count) == 0 <==> !wait && count == 0
  {
  }

  lemma LooksSafely(s: State, shape: Shape, bit: bool, wait: bool, count: nat, i: nat, wantsWrite: bool)
    requires Shaped(s, shape, bit, wait, count) && i < |s.threads| <= FLAG_WRITER_WAIT
    requires var (w, pc) := Act(s.word, s.threads[i], wantsWrite);
             && w == s.word
             && Plays(pc, Reader) == Plays(s.threads[i], Reader)
             && Plays(pc, Writer) == Plays(s.threads[i], Writer)
    ensures Safe(Step(s, i, wantsWrite))
  {
    hide Kept, Seen, And, Or, Count, Act, Plays, KeepsABit, SeesAReader;
    var pc := Act(s.word, s.threads[i], wantsWrite).1;
    LooksRight(s, shape, bit, wait, count, i, wantsWrite);
    Moves(s, i, pc);
    assert Shaped(Step(s, i, wantsWrite), shape, bit, wait, count);
  }

  lemma StepIsSafe(s: State, i: nat, wantsWrite: bool)
    requires Safe(s) && i < |s.threads| <= FLAG_WRITER_WAIT
    ensures Safe(Step(s, i, wantsWrite))
  {
    hide And, Or, Shaped, Count;
    var shape, bit, wait, count :| Shaped(s, shape, bit, wait, count);
    var pc, pc' := s.threads[i], Act(s.word, s.threads[i], wantsWrite).1;
    if pc.WriteSeen? && pc'.HoldsWrite? {
      TakesWriteSafely(s, shape, bit, wait, count, i);
    } else if pc == WriteMark(s.word) && And(s.word, FLAG_WRITER_WAIT) == 0 {
      MarksWaitSafely(s, shape, bit, wait, count, i);
    } else if pc.WriteLeaving? {
      LeavesWriteSafely(s, shape, bit, wait, count, i);
    } else if pc.ReadSeen? && pc'.HoldsRead? {
      TakesReadSafely(s, shape, bit, wait, count, i);
    } else if pc.ReadLeaveSeen? && And(pc.seen, FLAG_READER) == 0 {
      GivesUpSafely(s, shape, bit, wait, count, i);
    } else if pc.ReadLeaveSeen? && pc'.Outside? {
      LeavesReadSafely(s, shape, bit, wait, count, i);
    } else {
      LooksSafely(s, shape, bit, wait, count, i, wantsWrite);
    }
  }

  lemma InitIsSafe(n: nat)
    ensures Safe(Init(n))
  {
    CountZero(Init(n).threads, Writer);
    CountZero(Init(n).threads, Reader);
    assert Shaped(Init(n), Counted, false, false, 0);
  }

  lemma {:induction false} RunIsSafe(n: nat, schedule: seq<Choice>)
    requires n <= FLAG_WRITER_WAIT
    ensures Safe(Run(Init(n), schedule))
  {
    if schedule == [] {
      InitIsSafe(n);
    } else {
      var c, before := schedule[|schedule| - 1], schedule[..|schedule| - 1];
      RunIsSafe(n, before);
      if c.thread < n {
        StepIsSafe(Run(Init(n), before), c.thread, c.wantsWrite);
      }
    }
  }

  lemma SafeIsExclusive(s: State)
    requires Safe(s)
    ensures Exclusive(s)
  {
    forall i, j | 0 <= i < |s.threads| && 0 <= j < |s.threads| && i != j && Plays(s.threads[i], Writer)
      ensures !Plays(s.threads[j], Writer) && !Plays(s.threads[j], Reader)
    {
      TwoHolders(s, i, j);
    }
  }

  // ---------------------------------------------------------------- 2^30 readers at once

  /** Thread after thread takes the lock for reading, `k` of them. */
  function ReadersIn(k: nat): seq<Choice> {
    if k == 0 then []
    else ReadersIn(k - 1) + [Choice(k - 1, false), Choice(k - 1, false), Choice(k - 1, false)]
  }

  function ReadersHold(n: nat, k: nat): State
    requires k <= n
  {
    State(k, seq(n, i => if i < k then HoldsRead else Outside))
  }

  lemma OneReaderGetsIn(n: nat, k: nat, schedule: seq<Choice>)
    requires k < n && k < FLAG_WRITER_WAIT
    requires Run(Init(n), schedule) == ReadersHold(n, k)
    ensures var c := Choice(k, false);
            Run(Init(n), schedule + [c, c, c]) == ReadersHold(n, k + 1)
  {
    hide And, Or;
    RunThreeMore(Init(n), schedule, Choice(k, false));
    Masks(false, false, k);
    var s := ReadersHold(n, k);
    assert s.threads[k] == Outside;
    assert s.threads[k := ReadLoop][k := ReadSeen(k)][k := HoldsRead] == ReadersHold(n, k + 1).threads;
  }

  lemma {:induction false} ReadersGetIn(n: nat, k: nat)
    requires k <= n && k <= FLAG_WRITER_WAIT
    ensures Run(Init(n), ReadersIn(k)) == ReadersHold(n, k)
  {
    if k == 0 {
      assert Init(n).threads == ReadersHold(n, 0).threads;
    } else {
      ReadersGetIn(n, k - 1);
      OneReaderGetsIn(n, k - 1, ReadersIn(k - 1));
    }
  }

  /** With more than 2^30 threads exclusion fails: 2^30 readers look like the wait bit alone. */
  lemma TooManyReaders(n: nat)
    requires n > FLAG_WRITER_WAIT
    ensures exists schedule :: !Exclusive(Run(Init(n), schedule))
  {
    var k := FLAG_WRITER_WAIT;
    var readers := ReadersHold(n, k);
    var c := Choice(k, true);
    ReadersGetIn(n, k);
    RunThreeMore(Init(n), ReadersIn(k), c);
    var s := Run(Init(n), ReadersIn(k) + [c, c, c]);
    assert s.threads[k] == HoldsWrite && s.threads[0] == HoldsRead;
  }

  /** Exclusion holds at every interleaving if and only if there are at most 2^30 threads. */
  lemma ExclusionIsBounded(n: nat)
    ensures (forall schedule :: Exclusive(Run(Init(n), schedule))) <==> n <= FLAG_WRITER_WAIT
  {
    if n <= FLAG_WRITER_WAIT {
      forall schedule
        ensures Exclusive(Run(Init(n), schedule))
      {
        RunIsSafe(n, schedule);
        SafeIsExclusive(Run(Init(n), schedule));
      }
    } else {
      TooManyReaders(n);
    }
  }

  // ---------------------------------------------------------------- 2^30 readers leave again

  /** Once 2^30 readers were in and `k` are left, the wait bit is set beside their count. */
  function ReadersLeft(n: nat, k: nat): State
    requires k <= n
  {
    ReadersHold(n, k).(word := if k == FLAG_WRITER_WAIT then k else FLAG_WRITER_WAIT + k)
  }

  function ReadersOut(k: nat): seq<Choice>
    requires k <= FLAG_WRITER_WAIT
    decreases FLAG_WRITER_WAIT - k
  {
    if k == FLAG_WRITER_WAIT then ReadersIn(k)
    else ReadersOut(k + 1) + [Choice(k, false), Choice(k, false), Choice(k, false)]
  }

  /** What ReleaseRead puts back for the last but `k` of them. */
  lemma WordLeft(k: nat)
    requires k < FLAG_WRITER_WAIT
    ensures var seen := if k + 1 == FLAG_WRITER_WAIT then FLAG_WRITER_WAIT else FLAG_WRITER_WAIT + k + 1;
            && And(seen, FLAG_READER) == seen && And(seen, FLAG_WRITER_WAIT) == FLAG_WRITER_WAIT
            && Or(seen - 1, FLAG_WRITER_WAIT) == FLAG_WRITER_WAIT + k
  {
    hide And, Or;
    Masks(false, true, if k + 1 == FLAG_WRITER_WAIT then 0 else k + 1);
    Masks(false, k + 1 != FLAG_WRITER_WAIT, k);
  }

  lemma OneReaderGetsOut(n: nat, k: nat, schedule: seq<Choice>)
    requires k < FLAG_WRITER_WAIT <= n
    requires Run(Init(n), schedule) == ReadersLeft(n, k + 1)
    ensures var c := Choice(k, false);
            Run(Init(n), schedule + [c, c, c]) == ReadersLeft(n, k)
  {
    hide And, Or;
    RunThreeMore(Init(n), schedule, Choice(k, false));
    WordLeft(k);
    var s := ReadersLeft(n, k + 1);
    assert s.threads[k] == HoldsRead;
    assert s.threads[k := ReadLeaveLoop][k := ReadLeaveSeen(s.word)][k := Outside] == ReadersLeft(n, k).threads;
  }

  lemma {:induction false} ReadersGetOut(n: nat, k: nat)
    requires k <= FLAG_WRITER_WAIT <= n
    ensures Run(Init(n), ReadersOut(k)) == ReadersLeft(n, k)
    decreases FLAG_WRITER_WAIT - k
  {
    if k == FLAG_WRITER_WAIT {
      ReadersGetIn(n, k);
    } else {
      ReadersGetOut(n, k + 1);
      OneReaderGetsOut(n, k, ReadersOut(k + 1));
    }
  }

  ghost predicate AcquirerIn(s: State) {
    exists i :: 0 <= i < |s.threads| && Plays(s.threads[i], Acquirer)
  }

  /** The wait bit always has an acquirer if and only if there are fewer than 2^30 threads. */
  lemma WaitBitIsBounded(n: nat)
    ensures (forall schedule :: And(Run(Init(n), schedule).word, FLAG_WRITER_WAIT) != 0
               ==> AcquirerIn(Run(Init(n), schedule)))
            <==> n < FLAG_WRITER_WAIT
  {
    hide And, Run;
    if n < FLAG_WRITER_WAIT {
      forall schedule | And(Run(Init(n), schedule).word, FLAG_WRITER_WAIT) != 0
        ensures AcquirerIn(Run(Init(n), schedule))
      {
        WaitBitHasAnAcquirer(n, schedule);
      }
    } else {
      ReadersGetIn(n, FLAG_WRITER_WAIT);
      Masks(false, true, 0);
      assert !AcquirerIn(ReadersHold(n, FLAG_WRITER_WAIT));
    }
  }

  ghost predicate AllQuiet(s: State) {
    forall pc :: pc in s.threads ==> Quiet(pc)
  }

  /** The destructor's assert holds in all runs if and only if there are fewer than 2^30 threads. */
  lemma QuietWordIsBounded(n: nat)
    ensures (forall schedule :: AllQuiet(Run(Init(n), schedule)) ==> Run(Init(n), schedule).word == 0)
            <==> n < FLAG_WRITER_WAIT
  {
    hide Run;
    if n < FLAG_WRITER_WAIT {
      forall schedule | AllQuiet(Run(Init(n), schedule))
        ensures Run(Init(n), schedule).word == 0
      {
        QuietWordIsZero(n, schedule);
      }
    } else {
      ReadersGetOut(n, 0);
      assert AllQuiet(ReadersLeft(n, 0));
    }
  }

  /** The assert of ReleaseRead holds in all runs if and only if there are fewer than 2^30 threads. */
  lemma ReleaseReadIsBounded(n: nat)
    ensures (forall schedule :: Seen(Run(Init(n), schedule).threads)) <==> n < FLAG_WRITER_WAIT
  {
    hide Run, And;
    if n < FLAG_WRITER_WAIT {
      forall schedule
        ensures Seen(Run(Init(n), schedule).threads)
      {
        forall i | 0 <= i < n && Run(Init(n), schedule).threads[i].ReadLeaveSeen?
          ensures And(Run(Init(n), schedule).threads[i].seen, FLAG_READER) != 0
        {
          ReleaseReadAlwaysCounts(n, schedule, i, false);
        }
      }
    } else {
      var _ := LastReaderComesBack(n);
    }
  }

  /** Of 2^30 readers one leaves, comes back, and finds no reader counted when it leaves again. */
  lemma LastReaderComesBack(n: nat) returns (schedule: seq<Choice>)
    requires n >= FLAG_WRITER_WAIT
    ensures !Seen(Run(Init(n), schedule).threads)
  {
    hide And, Or, Run;
    var k := FLAG_WRITER_WAIT - 1;
    var c := Choice(k, false);
    ReadersGetOut(n, k);
    var s := ReadersLeft(n, k);
    Masks(false, true, k);
    Masks(true, false, 0);
    RunThreeMore(Init(n), ReadersOut(k), c);
    RunMore(Init(n), ReadersOut(k) + [c, c, c], c);
    RunMore(Init(n), ReadersOut(k) + [c, c, c] + [c], c);
    schedule := ReadersOut(k) + [c, c, c] + [c] + [c];
    assert Run(Init(n), schedule).threads[k] == ReadLeaveSeen(FLAG_WRITER);
  }
}
