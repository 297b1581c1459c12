// What the threads of ReadWriteSpinMutex get done: who gets in, who announces that it waits,
// and what a leaving thread puts back. All of it is said of schedules of fewer than 2^30 threads.
module RwSpinMutexProgress {
  import opened Bits
  import opened RwSpinMutex

  /** The word and the threads tell the same story, with this wait bit. */
  lemma RunIsGood(n: nat, schedule: seq<Choice>) returns (wait: bool)
    requires n < FLAG_WRITER_WAIT
    ensures Good(Run(Init(n), schedule), wait)
  {
    RunInv(n, schedule);
    wait :| Good(Run(Init(n), schedule), wait);
  }

  function Holders(s: State): nat {
    Count(s.threads, Reader) + Count(s.threads, Writer)
  }

  lemma FreeWord(writer: bool, wait: bool, readers: nat)
    requires readers < FLAG_WRITER_WAIT
    ensures Pack(writer, wait, readers) == 0 || Pack(writer, wait, readers) == FLAG_WRITER_WAIT <==> !writer && readers == 0
  {
  }

  lemma RunTwoMore(s: State, schedule: seq<Choice>, c: Choice)
    requires c.thread < |s.threads|
    ensures Run(s, schedule + [c, c]) == Step(Step(Run(s, schedule), c.thread, c.wantsWrite), c.thread, c.wantsWrite)
  {
    RunMore(s, schedule, c);
    RunMore(s, schedule + [c], c);
    assert schedule + [c, c] == schedule + [c] + [c];
  }

  // ---------------------------------------------------------------- getting in

  /** A thread at the head of AcquireWrite takes two steps: it holds the lock if and only if nobody held it. */
  lemma WriterGetsIn(n: nat, schedule: seq<Choice>, c: Choice)
    requires n < FLAG_WRITER_WAIT && c.thread < n && Run(Init(n), schedule).threads[c.thread] == WriteLoop
    ensures Run(Init(n), schedule + [c, c]).threads[c.thread] == HoldsWrite <==> Holders(Run(Init(n), schedule)) == 0
  {
    hide And, Or, Count, Pack;
    var s := Run(Init(n), schedule);
    var wait := RunIsGood(n, schedule);
    FreeWord(Count(s.threads, Writer) == 1, wait, Count(s.threads, Reader));
    RunTwoMore(Init(n), schedule, c);
    hide Run;
  }

  /** If somebody holds it, a third step leaves the wait bit set, and nothing else changed. */
  lemma WaiterMarks(n: nat, schedule: seq<Choice>, c: Choice)
    requires n < FLAG_WRITER_WAIT && c.thread < n && Run(Init(n), schedule).threads[c.thread] == WriteLoop
    requires Holders(Run(Init(n), schedule)) > 0
    ensures var s, after := Run(Init(n), schedule), Run(Init(n), schedule + [c, c, c]);
            && after.threads == s.threads
            && And(after.word, FLAG_WRITER_WAIT) == FLAG_WRITER_WAIT
            && after.word == Pack(Count(s.threads, Writer) == 1, true, Count(s.threads, Reader))
  {
    hide And, Or, Count, Pack;
    var s := Run(Init(n), schedule);
    var wait := RunIsGood(n, schedule);
    var writer, readers := Count(s.threads, Writer) == 1, Count(s.threads, Reader);
    FreeWord(writer, wait, readers);
    Masks(writer, wait, readers);
    Masks(writer, true, readers);
    RunThreeMore(Init(n), schedule, c);
    hide Run;
    assert s.threads[c.thread := WriteSeen(s.word)][c.thread := WriteMark(s.word)][c.thread := WriteLoop] == s.threads;
  }

  lemma ReadableWord(s: State, wait: bool)
    requires Good(s, wait) && |s.threads| < FLAG_WRITER_WAIT
    ensures And(s.word, FLAG_WRITER) == 0 <==> Count(s.threads, Writer) == 0
    ensures Count(s.threads, Writer) == 0 ==> (s.word + 1) % WORD == s.word + 1
  {
    hide And, Or, Count;
    Masks(Count(s.threads, Writer) == 1, wait, Count(s.threads, Reader));
  }

  /** A thread at the head of AcquireRead takes two steps: it holds the lock if and only if nobody held it for
      writing, and is counted; otherwise nothing changed. */
  lemma ReaderGetsIn(n: nat, schedule: seq<Choice>, c: Choice)
    requires n < FLAG_WRITER_WAIT && c.thread < n && Run(Init(n), schedule).threads[c.thread] == ReadLoop
    ensures var s, after := Run(Init(n), schedule), Run(Init(n), schedule + [c, c]);
            && (after.threads[c.thread] == HoldsRead <==> Count(s.threads, Writer) == 0)
            && (Count(s.threads, Writer) == 0 ==> after.word == s.word + 1)
            && (Count(s.threads, Writer) > 0 ==> after == s)
  {
    hide And, Or, Count, Good;
    var s := Run(Init(n), schedule);
    var wait := RunIsGood(n, schedule);
    ReadableWord(s, wait);
    RunTwoMore(Init(n), schedule, c);
    hide Run;
    assert s.threads[c.thread := ReadSeen(s.word)][c.thread := ReadLoop] == s.threads;
  }

  /** A thread outside asks for the lock it wants. */
  lemma OutsiderAsks(n: nat, schedule: seq<Choice>, c: Choice)
    requires c.thread < n && Run(Init(n), schedule).threads[c.thread] == Outside
    ensures var s, after := Run(Init(n), schedule), Run(Init(n), schedule + [c]);
            after == s.(threads := s.threads[c.thread := if c.wantsWrite then WriteLoop else ReadLoop])
  {
    RunMore(Init(n), schedule, c);
  }

  // ---------------------------------------------------------------- getting out

  predicate NotOf(others: seq<Choice>, i: nat) {
    forall k :: 0 <= k < |others| ==> others[k].thread != i
  }

  lemma {:induction false} OthersLeaveIt(s: State, schedule: seq<Choice>, others: seq<Choice>, i: nat)
    requires i < |s.threads| && NotOf(others, i)
    ensures Run(s, schedule + others).threads[i] == Run(s, schedule).threads[i]
  {
    hide Act;
    if others == [] {
      assert schedule + others == schedule;
    } else {
      var last := |others| - 1;
      assert (schedule + others)[..|schedule + others| - 1] == schedule + others[..last];
      OthersLeaveIt(s, schedule, others[..last], i);
    }
  }

  /** ReleaseWrite puts back the wait bit that it read, whatever the others do between its two steps. */
  lemma WriterLeavesTheBit(n: nat, schedule: seq<Choice>, others: seq<Choice>, c: Choice)
    requires n < FLAG_WRITER_WAIT && c.thread < n && Run(Init(n), schedule).threads[c.thread] == HoldsWrite
    requires NotOf(others, c.thread)
    ensures var s, after := Run(Init(n), schedule), Run(Init(n), schedule + [c] + others + [c]);
            after.threads[c.thread] == Outside && after.word == And(s.word, FLAG_WRITER_WAIT)
  {
    hide And;
    RunMore(Init(n), schedule, c);
    OthersLeaveIt(Init(n), schedule + [c], others, c.thread);
    RunMore(Init(n), schedule + [c] + others, c);
    hide Run;
  }

  /** ReleaseRead, left alone, takes itself off the count in three steps and keeps the wait bit. */
  lemma ReaderLeaves(n: nat, schedule: seq<Choice>, c: Choice)
    requires n < FLAG_WRITER_WAIT && c.thread < n && Run(Init(n), schedule).threads[c.thread] == HoldsRead
    ensures var s, after := Run(Init(n), schedule), Run(Init(n), schedule + [c, c, c]);
            && after.threads[c.thread] == Outside && after.word + 1 == s.word
            && And(after.word, FLAG_WRITER_WAIT) == And(s.word, FLAG_WRITER_WAIT)
  {
    hide And, Or, Good, Count;
    var s := Run(Init(n), schedule);
    var wait := RunIsGood(n, schedule);
    ReadWord(s, wait, c.thread);
    RunThreeMore(Init(n), schedule, c);
    hide Run;
  }

  lemma ReadWord(s: State, wait: bool, i: nat)
    requires Good(s, wait) && i < |s.threads| < FLAG_WRITER_WAIT && s.threads[i] == HoldsRead
    ensures And(s.word, FLAG_READER) > 0
    ensures var left := Or(And(s.word, FLAG_READER) - 1, And(s.word, FLAG_WRITER_WAIT));
            && left + 1 == s.word && And(left, FLAG_WRITER_WAIT) == And(s.word, FLAG_WRITER_WAIT)
  {
    hide And, Or;
    var readers := Count(s.threads, Reader);
    CountsAfter(s, i, Outside);
    hide Count;
    Masks(false, wait, readers);
    Masks(false, wait, readers - 1);
    OneReaderFewer(wait, readers);
  }

  // ---------------------------------------------------------------- nobody is stuck

  /** The state after `k` steps of one thread. */
  function Alone(s: State, c: Choice, k: nat): (s': State)
    requires c.thread < |s.threads|
    ensures |s'.threads| == |s.threads|
    decreases k
  {
    if k == 0 then s else Alone(Step(s, c.thread, c.wantsWrite), c, k - 1)
  }

  function Again(c: Choice, k: nat): seq<Choice> {
    if k == 0 then [] else [c] + Again(c, k - 1)
  }

  lemma {:induction false} RunAlone(s: State, schedule: seq<Choice>, c: Choice, k: nat)
    requires c.thread < |s.threads|
    ensures Run(s, schedule + Again(c, k)) == Alone(Run(s, schedule), c, k)
    decreases k
  {
    if k == 0 {
      assert schedule + [] == schedule;
    } else {
      RunMore(s, schedule, c);
      RunAlone(s, schedule + [c], c, k - 1);
      assert schedule + [c] + Again(c, k - 1) == schedule + Again(c, k);
    }
  }

  /** Whether the thread gets there within `k` steps of its own. */
  ghost predicate GetsTo(s: State, c: Choice, k: nat, pc: Pc)
    requires c.thread < |s.threads|
    decreases k
  {
    s.threads[c.thread] == pc || (k > 0 && GetsTo(Step(s, c.thread, c.wantsWrite), c, k - 1, pc))
  }

  lemma {:induction false} GetsToMeans(s: State, c: Choice, k: nat, pc: Pc)
    requires c.thread < |s.threads| && GetsTo(s, c, k, pc)
    ensures exists j: nat :: j <= k && Alone(s, c, j).threads[c.thread] == pc
    decreases k
  {
    if s.threads[c.thread] == pc {
      assert Alone(s, c, 0).threads[c.thread] == pc;
    } else {
      GetsToMeans(Step(s, c.thread, c.wantsWrite), c, k - 1, pc);
      var j: nat :| j <= k - 1 && Alone(Step(s, c.thread, c.wantsWrite), c, j).threads[c.thread] == pc;
      assert Alone(s, c, j + 1).threads[c.thread] == pc;
    }
  }

  lemma HoldersAfter(s: State, i: nat, wantsWrite: bool)
    requires i < |s.threads|
    requires var pc := Act(s.word, s.threads[i], wantsWrite).1;
             Plays(pc, Reader) == Plays(s.threads[i], Reader) && Plays(pc, Writer) == Plays(s.threads[i], Writer)
    ensures Holders(Step(s, i, wantsWrite)) == Holders(s)
    ensures Count(Step(s, i, wantsWrite).threads, Writer) == Count(s.threads, Writer)
  {
    hide Act;
    CountsAfter(s, i, Act(s.word, s.threads[i], wantsWrite).1);
  }

  lemma FreeWordOf(s: State)
    requires Inv(s) && |s.threads| < FLAG_WRITER_WAIT
    ensures s.word == 0 || s.word == FLAG_WRITER_WAIT <==> Holders(s) == 0
    ensures And(s.word, FLAG_WRITER) == 0 <==> Count(s.threads, Writer) == 0
  {
    hide And;
    var wait :| Good(s, wait);
    FreeWord(Count(s.threads, Writer) == 1, wait, Count(s.threads, Reader));
    Masks(Count(s.threads, Writer) == 1, wait, Count(s.threads, Reader));
  }

  /** Wherever in AcquireWrite it is. */
  lemma {:induction false} AcquirerGetsIn(s: State, c: Choice, k: nat)
    requires Inv(s) && c.thread < |s.threads| < FLAG_WRITER_WAIT && Holders(s) == 0
    requires match s.threads[c.thread]
             case WriteSeen(seen) => k == if seen == s.word then 1 else 4
             case WriteLoop => k == 2
             case WriteMark(_) => k == 3
             case _ => false
    ensures GetsTo(s, c, k, HoldsWrite)
    decreases k
  {
    hide And, Or, Inv, Holders;
    var next := Step(s, c.thread, c.wantsWrite);
    FreeWordOf(s);
    if next.threads[c.thread] != HoldsWrite {
      StepInv(s, c.thread, c.wantsWrite);
      HoldersAfter(s, c.thread, c.wantsWrite);
      AcquirerGetsIn(next, c, k - 1);
    } else {
      assert GetsTo(next, c, k - 1, HoldsWrite);
    }
  }

  lemma {:induction false} AskingReaderGetsIn(s: State, c: Choice, k: nat)
    requires Inv(s) && c.thread < |s.threads| < FLAG_WRITER_WAIT && Count(s.threads, Writer) == 0
    requires match s.threads[c.thread]
             case ReadSeen(seen) => k == if seen == s.word then 1 else 3
             case ReadLoop => k == 2
             case _ => false
    ensures GetsTo(s, c, k, HoldsRead)
    decreases k
  {
    hide And, Or, Inv, Count;
    var next := Step(s, c.thread, c.wantsWrite);
    FreeWordOf(s);
    if next.threads[c.thread] != HoldsRead {
      StepInv(s, c.thread, c.wantsWrite);
      HoldersAfter(s, c.thread, c.wantsWrite);
      AskingReaderGetsIn(next, c, k - 1);
    } else {
      assert GetsTo(next, c, k - 1, HoldsRead);
    }
  }

  lemma {:induction false} HolderGetsOut(s: State, c: Choice, k: nat)
    requires Inv(s) && c.thread < |s.threads| < FLAG_WRITER_WAIT
    requires match s.threads[c.thread]
             case HoldsRead => k == 3
             case ReadLeaveLoop => k == 2
             case ReadLeaveSeen(seen) => k == if seen == s.word then 1 else 3
             case HoldsWrite => k == 2
             case WriteLeaving(_) => k == 1
             case _ => false
    ensures GetsTo(s, c, k, Outside)
    decreases k
  {
    hide And, Or, Inv;
    var next := Step(s, c.thread, c.wantsWrite);
    if next.threads[c.thread] != Outside {
      StepInv(s, c.thread, c.wantsWrite);
      HolderGetsOut(next, c, k - 1);
    } else {
      assert GetsTo(next, c, k - 1, Outside);
    }
  }

  predicate Asks(pc: Pc) {
    pc.ReadLoop? || pc.ReadSeen?
  }

  /** Where a thread is going. */
  function Goal(pc: Pc): Pc {
    if Plays(pc, Acquirer) then HoldsWrite else if Asks(pc) then HoldsRead else Outside
  }

  /** At any time of any run: a thread that is left alone gets done what it is about, within four steps of its own. It
      takes the lock for writing if nobody holds it and for reading if nobody holds it for writing, and it gets out. */
  lemma NobodyIsStuck(n: nat, schedule: seq<Choice>, c: Choice)
    requires n < FLAG_WRITER_WAIT && c.thread < n
    requires var s := Run(Init(n), schedule);
             && (Plays(s.threads[c.thread], Acquirer) ==> Holders(s) == 0)
             && (Asks(s.threads[c.thread]) ==> Count(s.threads, Writer) == 0)
    ensures exists k: nat ::
              && k <= 4
              && Run(Init(n), schedule + Again(c, k)).threads[c.thread] == Goal(Run(Init(n), schedule).threads[c.thread])
  {
    hide Run, Count, Inv, Alone, GetsTo;
    var s := Run(Init(n), schedule);
    var pc := s.threads[c.thread];
    RunInv(n, schedule);
    var k := Distance(s, c);
    NearGoal(s, c);
    GetsToMeans(s, c, k, Goal(pc));
    var j: nat :| j <= k && Alone(s, c, j).threads[c.thread] == Goal(pc);
    RunAlone(Init(n), schedule, c, j);
  }

  function Distance(s: State, c: Choice): nat
    requires c.thread < |s.threads|
  {
    match s.threads[c.thread]
    case Outside => 0
    case WriteSeen(seen) => if seen == s.word then 1 else 4
    case ReadSeen(seen) => if seen == s.word then 1 else 3
    case ReadLeaveSeen(seen) => if seen == s.word then 1 else 3
    case WriteLeaving(_) => 1
    case WriteMark(_) | HoldsRead => 3
    case _ => 2
  }

  lemma NearGoal(s: State, c: Choice)
    requires Inv(s) && c.thread < |s.threads| < FLAG_WRITER_WAIT
    requires Plays(s.threads[c.thread], Acquirer) ==> Holders(s) == 0
    requires Asks(s.threads[c.thread]) ==> Count(s.threads, Writer) == 0
    ensures GetsTo(s, c, Distance(s, c), Goal(s.threads[c.thread]))
  {
    hide Inv, Count, Holders;
    var pc := s.threads[c.thread];
    if Plays(pc, Acquirer) {
      AcquirerGetsIn(s, c, Distance(s, c));
    } else if Asks(pc) {
      AskingReaderGetsIn(s, c, Distance(s, c));
    } else if pc != Outside {
      HolderGetsOut(s, c, Distance(s, c));
    }
  }
}
