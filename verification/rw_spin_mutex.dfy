// ReadWriteSpinMutex: a reader/writer lock on one 32-bit word, as atomic steps of
// any number of threads. Every read of the word, every compare-exchange and every
// exchange is one step, and any other thread may run between two of them.
module RwSpinMutex {
  import opened Bits

  const FLAG_WRITER: nat := 0x8000_0000
  const FLAG_WRITER_WAIT: nat := 0x4000_0000
  const FLAG_READER: nat := 0x7FFF_FFFF // the complement of FLAG_WRITER: it overlaps FLAG_WRITER_WAIT
  const WORD: nat := 0x1_0000_0000

  /** Where a thread stands. `seen` is its copy of the word, `kept` the wait bit `ReleaseWrite` read. */
  datatype Pc =
    | Outside
    | WriteLoop // head of the loop of AcquireWrite
    | WriteSeen(seen: nat) // about to try to take the lock
    | WriteMark(seen: nat) // not taken: about to announce the wait
    | HoldsWrite
    | WriteLeaving(kept: nat) // between the read and the exchange of ReleaseWrite
    | ReadLoop
    | ReadSeen(seen: nat)
    | HoldsRead
    | ReadLeaveLoop
    | ReadLeaveSeen(seen: nat)

  datatype State = State(word: nat, threads: seq<Pc>)

  function CompareExchange(word: nat, exchange: nat, compare: nat): (nat, bool) {
    if word == compare then (exchange, true) else (word, false)
  }

  /** The next step of one thread. `wantsWrite` says which lock a thread outside asks for. */
  function Act(word: nat, pc: Pc, wantsWrite: bool): (nat, Pc) {
    match pc
    case Outside => (word, if wantsWrite then WriteLoop else ReadLoop)

    case WriteLoop => (word, WriteSeen(word))
    case WriteSeen(seen) =>
      if seen == 0 || seen == FLAG_WRITER_WAIT then
        var (w, taken) := CompareExchange(word, FLAG_WRITER, seen);
        (w, if taken then HoldsWrite else WriteMark(seen))
      else (word, WriteMark(seen))
    case WriteMark(seen) =>
      if And(seen, FLAG_WRITER_WAIT) == 0 then
        (CompareExchange(word, Or(seen, FLAG_WRITER_WAIT), seen).0, WriteLoop)
      else (word, WriteLoop)

    case HoldsWrite => (word, WriteLeaving(And(word, FLAG_WRITER_WAIT)))
    case WriteLeaving(kept) => (kept, Outside)

    case ReadLoop => (word, ReadSeen(word))
    case ReadSeen(seen) =>
      if And(seen, FLAG_WRITER) == 0 then
        var (w, taken) := CompareExchange(word, (seen + 1) % WORD, seen);
        (w, if taken then HoldsRead else ReadLoop)
      else (word, ReadLoop)

    case HoldsRead => (word, ReadLeaveLoop)
    case ReadLeaveLoop => (word, ReadLeaveSeen(word))
    case ReadLeaveSeen(seen) =>
      var count := And(seen, FLAG_READER);
      if count == 0 then (word, Outside) // the assert of ReleaseRead
      else
        var (w, left) := CompareExchange(word, Or(count - 1, And(seen, FLAG_WRITER_WAIT)), seen);
        (w, if left then Outside else ReadLeaveLoop)
  }

  function Step(s: State, i: nat, wantsWrite: bool): (s': State)
    requires i < |s.threads|
    ensures |s'.threads| == |s.threads|
  {
    var (w, pc) := Act(s.word, s.threads[i], wantsWrite);
    State(w, s.threads[i := pc])
  }

  function Init(n: nat): State {
    State(0, seq(n, _ => Outside))
  }

  /** One scheduling decision: which thread runs, and what it asks for if it is outside. */
  datatype Choice = Choice(thread: nat, wantsWrite: bool)

  /** The state after a schedule; choices that name no thread do nothing. */
  function Run(s: State, schedule: seq<Choice>): (s': State)
    ensures |s'.threads| == |s.threads|
  {
    if schedule == [] then s
    else
      var before := Run(s, schedule[..|schedule| - 1]);
      var c := schedule[|schedule| - 1];
      if c.thread < |before.threads| then Step(before, c.thread, c.wantsWrite) else before
  }

  lemma RunMore(s: State, schedule: seq<Choice>, c: Choice)
    requires c.thread < |s.threads|
    ensures Run(s, schedule + [c]) == Step(Run(s, schedule), c.thread, c.wantsWrite)
  {
    assert (schedule + [c])[..|schedule|] == schedule;
  }

  lemma RunThreeMore(s: State, schedule: seq<Choice>, c: Choice)
    requires c.thread < |s.threads|
    ensures var s1 := Step(Run(s, schedule), c.thread, c.wantsWrite);
            var s2 := Step(s1, c.thread, c.wantsWrite);
            Run(s, schedule + [c, c, c]) == Step(s2, c.thread, c.wantsWrite)
  {
    RunMore(s, schedule, c);
    RunMore(s, schedule + [c], c);
    RunMore(s, schedule + [c] + [c], c);
    assert schedule + [c, c, c] == schedule + [c] + [c] + [c];
  }

  // ---------------------------------------------------------------- who holds what

  datatype Role = Reader | Writer | Acquirer

  predicate Plays(pc: Pc, role: Role) {
    match role
    case Reader => pc.HoldsRead? || pc.ReadLeaveLoop? || pc.ReadLeaveSeen?
    case Writer => pc.HoldsWrite? || pc.WriteLeaving?
    case Acquirer => pc.WriteLoop? || pc.WriteSeen? || pc.WriteMark?
  }

  function One(pc: Pc, role: Role): nat {
    if Plays(pc, role) then 1 else 0
  }

  function Count(threads: seq<Pc>, role: Role): (n: nat)
    ensures n <= |threads|
  {
    if threads == [] then 0 else One(threads[0], role) + Count(threads[1..], role)
  }

  lemma {:induction false} CountUpdate(threads: seq<Pc>, i: nat, pc: Pc, role: Role)
    requires i < |threads|
    ensures Count(threads[i := pc], role) == Count(threads, role) - One(threads[i], role) + One(pc, role)
    ensures One(threads[i], role) <= Count(threads, role)
  {
    if i == 0 {
      assert threads[0 := pc][1..] == threads[1..];
    } else {
      assert threads[i := pc][1..] == threads[1..][i - 1 := pc];
      CountUpdate(threads[1..], i - 1, pc, role);
    }
  }

  lemma {:induction false} CountZero(threads: seq<Pc>, role: Role)
    requires forall i :: 0 <= i < |threads| ==> !Plays(threads[i], role)
    ensures Count(threads, role) == 0
  {
    if threads != [] {
      assert forall i :: 0 <= i < |threads[1..]| ==> threads[1..][i] == threads[i + 1];
      CountZero(threads[1..], role);
    }
  }

  // ---------------------------------------------------------------- the word

  /** The word that says: a writer or none, a wait bit or none, this many readers. */
  function Pack(writer: bool, wait: bool, readers: nat): nat {
    (if writer then FLAG_WRITER else 0) + (if wait then FLAG_WRITER_WAIT else 0) + readers
  }

  lemma PowersOfTwo()
    ensures Pow2(30) == FLAG_WRITER_WAIT && Pow2(31) == FLAG_WRITER
  {
    assert Pow2(8) == 0x100;
    assert Pow2(16) == 0x1_0000;
    assert Pow2(24) == 0x100_0000;
    assert Pow2(30) == FLAG_WRITER_WAIT;
  }

  /** What the masks of the source give on a packed word. */
  lemma Masks(writer: bool, wait: bool, readers: nat)
    requires readers < FLAG_WRITER_WAIT
    ensures And(Pack(writer, wait, readers), FLAG_WRITER) == (if writer then FLAG_WRITER else 0)
    ensures And(Pack(writer, wait, readers), FLAG_WRITER_WAIT) == (if wait then FLAG_WRITER_WAIT else 0)
    ensures And(Pack(writer, wait, readers), FLAG_READER) == Pack(false, wait, readers)
    ensures Or(Pack(writer, wait, readers), FLAG_WRITER_WAIT) == Pack(writer, true, readers)
  {
    hide And, Or;
    var w := Pack(writer, wait, readers);
    PowersOfTwo();
    AndPow2(w, 31);
    AndPow2(w, 30);
    AndLowMask(w, 31);
    OrPow2(w, 30);
  }

  /** The word ReleaseRead puts back: one reader fewer, the wait bit kept. */
  lemma OneReaderFewer(wait: bool, readers: nat)
    requires 0 < readers < FLAG_WRITER_WAIT
    ensures Or(Pack(false, wait, readers) - 1, if wait then FLAG_WRITER_WAIT else 0) == Pack(false, wait, readers - 1)
  {
    Masks(false, wait, readers - 1);
  }

  // ---------------------------------------------------------------- the invariant

  ghost predicate Inv(s: State) {
    exists wait :: Good(s, wait)
  }

  ghost predicate Good(s: State, wait: bool) {
    var readers, writers := Count(s.threads, Reader), Count(s.threads, Writer);
    && writers <= 1
    && (writers == 1 ==> readers == 0)
    && s.word == Pack(writers == 1, wait, readers)
    && (wait ==> Count(s.threads, Acquirer) > 0)
    && forall i :: 0 <= i < |s.threads| ==> Remembers(s.threads[i], Count(s.threads, Acquirer))
  }

  /** What a thread's own copy of the word may be. */
  ghost predicate Remembers(pc: Pc, acquirers: nat) {
    match pc
    case WriteLeaving(kept) => kept == 0 || (kept == FLAG_WRITER_WAIT && acquirers > 0)
    case ReadLeaveSeen(seen) => And(seen, FLAG_READER) != 0
    case _ => true
  }

  lemma InitInv(n: nat)
    ensures Inv(Init(n))
  {
    CountZero(Init(n).threads, Writer);
    CountZero(Init(n).threads, Reader);
    assert Good(Init(n), false);
  }

  ghost predicate CountStep(s: State, i: nat, pc: Pc, role: Role)
    requires i < |s.threads|
  {
    && Count(s.threads[i := pc], role) == Count(s.threads, role) - One(s.threads[i], role) + One(pc, role)
    && One(s.threads[i], role) <= Count(s.threads, role)
  }

  lemma CountsAfter(s: State, i: nat, pc: Pc)
    requires i < |s.threads|
    ensures CountStep(s, i, pc, Reader) && CountStep(s, i, pc, Writer) && CountStep(s, i, pc, Acquirer)
  {
    CountUpdate(s.threads, i, pc, Reader);
    CountUpdate(s.threads, i, pc, Writer);
    CountUpdate(s.threads, i, pc, Acquirer);
  }

  /** A step that takes a thread out of the acquirers finds no thread inside ReleaseWrite. */
  lemma OthersRemember(s: State, wait: bool, i: nat, pc: Pc)
    requires Good(s, wait) && i < |s.threads|
    requires Plays(s.threads[i], Acquirer) ==> Plays(pc, Acquirer) || Count(s.threads, Writer) == 0
    requires Remembers(pc, Count(s.threads[i := pc], Acquirer))
    ensures var after := s.threads[i := pc];
            forall j :: 0 <= j < |after| ==> Remembers(after[j], Count(after, Acquirer))
  {
    var after := s.threads[i := pc];
    CountsAfter(s, i, pc);
    forall j | 0 <= j < |after|
      ensures Remembers(after[j], Count(after, Acquirer))
    {
      if j != i {
        assert Remembers(s.threads[j], Count(s.threads, Acquirer));
        CountUpdate(s.threads, j, Outside, Writer);
      }
    }
  }

  /** The invariant after thread `i` moved to `pc` and left the word `w`. */
  lemma Moved(s: State, wait: bool, i: nat, w: nat, pc: Pc, wait': bool)
    requires Good(s, wait) && i < |s.threads|
    requires CountsAllow(s, i, w, pc, wait')
    requires Plays(s.threads[i], Acquirer) ==> Plays(pc, Acquirer) || Count(s.threads, Writer) == 0
    ensures Inv(State(w, s.threads[i := pc]))
  {
    OthersRemember(s, wait, i, pc);
    assert Good(State(w, s.threads[i := pc]), wait');
  }

  ghost predicate CountsAllow(s: State, i: nat, w: nat, pc: Pc, wait: bool)
    requires i < |s.threads|
  {
    var after := s.threads[i := pc];
    && Count(after, Writer) <= 1
    && (Count(after, Writer) == 1 ==> Count(after, Reader) == 0)
    && w == Pack(Count(after, Writer) == 1, wait, Count(after, Reader))
    && (wait ==> Count(after, Acquirer) > 0)
    && Remembers(pc, Count(after, Acquirer))
  }

  lemma TakesWrite(s: State, wait: bool, i: nat)
    requires Good(s, wait) && i < |s.threads| < FLAG_WRITER_WAIT
    requires s.threads[i] == WriteSeen(s.word) && (s.word == 0 || s.word == FLAG_WRITER_WAIT)
    ensures Inv(State(FLAG_WRITER, s.threads[i := HoldsWrite]))
  {
    CountsAfter(s, i, HoldsWrite);
    Moved(s, wait, i, FLAG_WRITER, HoldsWrite, false);
  }

  lemma MarksWait(s: State, wait: bool, i: nat)
    requires Good(s, wait) && i < |s.threads| < FLAG_WRITER_WAIT
    requires s.threads[i] == WriteMark(s.word)
    ensures Inv(State(Or(s.word, FLAG_WRITER_WAIT), s.threads[i := WriteLoop]))
  {
    CountsAfter(s, i, WriteLoop);
    Masks(Count(s.threads, Writer) == 1, wait, Count(s.threads, Reader));
    Moved(s, wait, i, Or(s.word, FLAG_WRITER_WAIT), WriteLoop, true);
  }

  lemma LeavesWrite(s: State, wait: bool, i: nat)
    requires Good(s, wait) && i < |s.threads| && s.threads[i].WriteLeaving?
    ensures Inv(State(s.threads[i].kept, s.threads[i := Outside]))
  {
    var kept := s.threads[i].kept;
    assert Remembers(s.threads[i], Count(s.threads, Acquirer));
    CountsAfter(s, i, Outside);
    Moved(s, wait, i, kept, Outside, kept == FLAG_WRITER_WAIT);
  }

  lemma TakesRead(s: State, wait: bool, i: nat)
    requires Good(s, wait) && i < |s.threads| < FLAG_WRITER_WAIT
    requires s.threads[i] == ReadSeen(s.word) && And(s.word, FLAG_WRITER) == 0
    ensures Inv(State((s.word + 1) % WORD, s.threads[i := HoldsRead]))
  {
    CountsAfter(s, i, HoldsRead);
    Masks(Count(s.threads, Writer) == 1, wait, Count(s.threads, Reader));
    Moved(s, wait, i, (s.word + 1) % WORD, HoldsRead, wait);
  }

  lemma LeavesRead(s: State, wait: bool, i: nat)
    requires Good(s, wait) && i < |s.threads| < FLAG_WRITER_WAIT
    requires s.threads[i] == ReadLeaveSeen(s.word) && And(s.word, FLAG_READER) > 0
    ensures Inv(State(Or(And(s.word, FLAG_READER) - 1, And(s.word, FLAG_WRITER_WAIT)), s.threads[i := Outside]))
  {
    var w := Or(And(s.word, FLAG_READER) - 1, And(s.word, FLAG_WRITER_WAIT));
    CountsAfter(s, i, Outside);
    Masks(false, wait, Count(s.threads, Reader));
    OneReaderFewer(wait, Count(s.threads, Reader));
    Moved(s, wait, i, w, Outside, wait);
  }

  /** A step that only moves a thread inside the same method leaves the word as it is. */
  lemma OnlyLooks(s: State, wait: bool, i: nat, wantsWrite: bool)
    requires Good(s, wait) && i < |s.threads| < FLAG_WRITER_WAIT
    requires var (w, pc) := Act(s.word, s.threads[i], wantsWrite);
             && w == s.word
             && Plays(pc, Reader) == Plays(s.threads[i], Reader)
             && Plays(pc, Writer) == Plays(s.threads[i], Writer)
             && (Plays(s.threads[i], Acquirer) ==> Plays(pc, Acquirer))
    ensures Inv(Step(s, i, wantsWrite))
  {
    var pc := Act(s.word, s.threads[i], wantsWrite).1;
    CountsAfter(s, i, pc);
    assert Remembers(s.threads[i], Count(s.threads, Acquirer));
    Masks(Count(s.threads, Writer) == 1, wait, Count(s.threads, Reader));
    Moved(s, wait, i, s.word, pc, wait);
  }

  lemma StepInv(s: State, i: nat, wantsWrite: bool)
    requires Inv(s) && i < |s.threads| < FLAG_WRITER_WAIT
    ensures Inv(Step(s, i, wantsWrite))
  {
    hide And, Or;
    var wait :| Good(s, wait);
    var pc, pc' := s.threads[i], Act(s.word, s.threads[i], wantsWrite).1;
    assert Remembers(pc, Count(s.threads, Acquirer));
    if pc.WriteSeen? && pc'.HoldsWrite? {
      TakesWrite(s, wait, i);
    } else if pc == WriteMark(s.word) && And(s.word, FLAG_WRITER_WAIT) == 0 {
      MarksWait(s, wait, i);
    } else if pc.WriteLeaving? {
      LeavesWrite(s, wait, i);
    } else if pc.ReadSeen? && pc'.HoldsRead? {
      TakesRead(s, wait, i);
    } else if pc.ReadLeaveSeen? && pc'.Outside? {
      LeavesRead(s, wait, i);
    } else {
      OnlyLooks(s, wait, i, wantsWrite);
    }
  }

  // ---------------------------------------------------------------- every run

  lemma {:induction false} RunInv(n: nat, schedule: seq<Choice>)
    requires n < FLAG_WRITER_WAIT
    ensures Inv(Run(Init(n), schedule))
  {
    if schedule == [] {
      InitInv(n);
    } else {
      var c, before := schedule[|schedule| - 1], schedule[..|schedule| - 1];
      RunInv(n, before);
      if c.thread < n {
        StepInv(Run(Init(n), before), c.thread, c.wantsWrite);
      }
    }
  }

  /** The lock is held by one writer and nobody else, or by readers only. */
  ghost predicate Exclusive(s: State) {
    forall i, j :: 0 <= i < |s.threads| && 0 <= j < |s.threads| && i != j && Plays(s.threads[i], Writer)
      ==> !Plays(s.threads[j], Writer) && !Plays(s.threads[j], Reader)
  }

  lemma TwoHolders(s: State, i: nat, j: nat)
    requires i < |s.threads| && j < |s.threads| && i != j && Plays(s.threads[i], Writer)
    ensures Plays(s.threads[j], Writer) ==> Count(s.threads, Writer) >= 2
    ensures Plays(s.threads[j], Reader) ==> Count(s.threads, Writer) >= 1 && Count(s.threads, Reader) >= 1
  {
    CountUpdate(s.threads, i, Outside, Writer);
    CountUpdate(s.threads[i := Outside], j, Outside, Writer);
    CountUpdate(s.threads, j, Outside, Reader);
  }

  lemma GoodIsExclusive(s: State, wait: bool)
    requires Good(s, wait)
    ensures Exclusive(s)
  {
    forall i, j | 0 <= i < |s.threads| && 0 <= j < |s.threads| && i != j && Plays(s.threads[i], Writer)
      ensures !Plays(s.threads[j], Writer) && !Plays(s.threads[j], Reader)
    {
      TwoHolders(s, i, j);
    }
  }

  lemma LowBits(writer: bool, wait: bool, readers: nat)
    requires readers < FLAG_WRITER_WAIT
    ensures Pack(writer, wait, readers) % FLAG_WRITER_WAIT == readers
  {
  }

  /** At every interleaving of fewer than 2^30 threads. */
  lemma MutualExclusion(n: nat, schedule: seq<Choice>)
    requires n < FLAG_WRITER_WAIT
    ensures var s := Run(Init(n), schedule);
            && Exclusive(s)
            && Count(s.threads, Writer) <= 1
            && (And(s.word, FLAG_WRITER) != 0 <==> Count(s.threads, Writer) == 1)
            && s.word % FLAG_WRITER_WAIT == Count(s.threads, Reader)
            && (Count(s.threads, Writer) == 0 || Count(s.threads, Reader) == 0)
  {
    var s := Run(Init(n), schedule);
    RunInv(n, schedule);
    var wait :| Good(s, wait);
    GoodIsExclusive(s, wait);
    Masks(Count(s.threads, Writer) == 1, wait, Count(s.threads, Reader));
    LowBits(Count(s.threads, Writer) == 1, wait, Count(s.threads, Reader));
  }

  /** The wait bit is never left behind: whoever sees it set, some thread is inside AcquireWrite. */
  lemma WaitBitHasAnAcquirer(n: nat, schedule: seq<Choice>)
    requires n < FLAG_WRITER_WAIT
    requires And(Run(Init(n), schedule).word, FLAG_WRITER_WAIT) != 0
    ensures var s := Run(Init(n), schedule);
            exists i :: 0 <= i < |s.threads| && Plays(s.threads[i], Acquirer)
  {
    var s := Run(Init(n), schedule);
    RunInv(n, schedule);
    var wait :| Good(s, wait);
    Masks(Count(s.threads, Writer) == 1, wait, Count(s.threads, Reader));
    if forall i :: 0 <= i < |s.threads| ==> !Plays(s.threads[i], Acquirer) {
      CountZero(s.threads, Acquirer);
    }
  }

  predicate Quiet(pc: Pc) {
    !Plays(pc, Reader) && !Plays(pc, Writer) && !Plays(pc, Acquirer)
  }

  /** The assert of the destructor: with no holder and no acquirer the word is exactly zero. */
  lemma QuietWordIsZero(n: nat, schedule: seq<Choice>)
    requires n < FLAG_WRITER_WAIT
    requires forall pc :: pc in Run(Init(n), schedule).threads ==> Quiet(pc)
    ensures Run(Init(n), schedule).word == 0
  {
    var s := Run(Init(n), schedule);
    RunInv(n, schedule);
    forall i | 0 <= i < |s.threads|
      ensures Quiet(s.threads[i])
    {
      assert s.threads[i] in s.threads;
    }
    CountZero(s.threads, Writer);
    CountZero(s.threads, Reader);
    CountZero(s.threads, Acquirer);
  }

  /** The assert of ReleaseRead: a thread that holds the lock for reading always sees a reader counted,
      so it leaves only by taking itself off the count. */
  lemma ReleaseReadAlwaysCounts(n: nat, schedule: seq<Choice>, i: nat, wantsWrite: bool)
    requires n < FLAG_WRITER_WAIT && i < n
    requires Run(Init(n), schedule).threads[i].ReadLeaveSeen?
    ensures var s := Run(Init(n), schedule);
            var s' := Step(s, i, wantsWrite);
            && And(s.threads[i].seen, FLAG_READER) != 0
            && (s'.threads[i].Outside? ==> s'.word + 1 == s.word)
            && (!s'.threads[i].Outside? ==> s'.threads[i] == ReadLeaveLoop && s'.word == s.word)
  {
    var s := Run(Init(n), schedule);
    RunInv(n, schedule);
    var wait :| Good(s, wait);
    assert Remembers(s.threads[i], Count(s.threads, Acquirer));
    CountsAfter(s, i, Outside);
    Masks(false, wait, Count(s.threads, Reader));
    OneReaderFewer(wait, Count(s.threads, Reader));
  }
}
