// One connection among its proactor, its completion handlers and its owner: every
// interleaving of their critical sections, with the decrement of RemoveRef outside
// the lock and the decrement and the test of CheckedDelete as two separate steps.
module ConnectionRuns {
  import opened Connection

  /** The idle timer as the proactor sees it. A fired timer is out of reach of cancel_timer. */
  datatype Queue = Empty | Scheduled(id: int) | Fired(id: int)

  /** What a CheckedDelete left to the handler of a timer it could not cancel. */
  datatype Loan = NoLoan | OwnRef | NoRef

  datatype Sys = Sys(
    c: Conn,
    queue: Queue,
    // the ledger: who still owes a decrement
    openRef: bool,
    readOps: nat, // reads whose handler has not entered its critical section
    readTails: nat, // read handlers between their critical section and RemoveRef
    writeOps: nat, // writes whose handler has not run RemoveRef
    loan: Loan,
    // threads inside the deletion protocol
    zeroed: bool, // a RemoveRef reached zero and is about to lock
    testing: bool, // a CheckedDelete holds the lock between its decrement and its test
    // what happened so far
    notified: nat, // OnConnectionClosed signals
    late: bool, // a timer was started on a closed connection
    stolen: bool, // a timer handler dropped a reference nobody had left to it
    crossed: bool) // a RemoveRef reached zero while a CheckedDelete was testing

  datatype Event =
    | Open(isReadingAllowed: bool, sameProactor: bool, hasHandle: bool, streams: Streams)
    | SetupOk(isDefault: bool, timerId: nat)
    | SetupFail
    | Start(issue: Issue)
    | Stop
    | Send(writeOk: bool)
    | Touch(time: nat)
    | ReadData(now: nat, stops: bool, issue: Issue) // an exception while the block is passed on is like `Threw`
    | ReadEnd
    | ReadRelease // RemoveRef of a read handler
    | BlockSentByPeer(issue: Issue)
    | WriteRelease // RemoveRef of a write handler
    | Fire
    | TimeOut(now: nat, nextId: nat)
    | Close
    | Zeroed // the rest of RemoveRef, under the lock
    | Test // the rest of CheckedDelete, still under the lock

  function Fresh(interval: nat): Sys {
    Sys(New(interval), Empty, false, 0, 0, 0, NoLoan, false, false, 0, false, false, false)
  }

  /** What the proactor, the lock and the asserts of the source allow. */
  predicate Enabled(s: Sys, e: Event) {
    match e
    case Open(_, _, _, _) => !s.testing
    case SetupOk(_, _) =>
      !s.testing && s.c.hasProactor && s.c.setup.SetupNotCompleted? && s.c.timer == TIMER_NOT_SET && s.c.update == NEVER
    case SetupFail => !s.testing && s.c.setup.SetupNotCompleted?
    case Start(_) => !s.testing && Rank(s.c.reading) <= Rank(StoppingReading) && !s.c.closed
    case Stop => !s.testing
    case Send(_) => !s.testing
    case Touch(_) => true
    case ReadData(_, _, _) => !s.testing && s.readOps > 0
    case ReadEnd => !s.testing && s.readOps > 0
    case ReadRelease => s.readTails > 0
    case BlockSentByPeer(_) => !s.testing
    case WriteRelease => s.writeOps > 0
    case Fire => s.queue.Scheduled?
    case TimeOut(_, _) => !s.testing && s.queue.Fired?
    case Close => !s.testing && s.openRef // the owner closes once
    case Zeroed => s.zeroed && !s.testing
    case Test => s.testing
  }

  function Flag(b: bool): nat { if b then 1 else 0 }

  /** CheckedDelete up to its decrement; the caller has taken its item off the ledger. */
  function Deleting(s: Sys, ref: Loan): Sys {
    var marked := MarkedClosed(s.c);
    if ParksOnTimer(s.c, s.queue == Scheduled(s.c.timer)) then s.(c := marked, loan := ref)
    else s.(c := if ref.OwnRef? then marked.(refs := marked.refs - 1) else marked,
            queue := if s.c.timer >= 0 then Empty else s.queue,
            testing := true)
  }

  /** The decrement of RemoveRef, outside the lock. */
  function Releasing(s: Sys): Sys {
    var left := s.c.refs - 1;
    s.(c := s.c.(refs := left), zeroed := s.zeroed || left <= 0, crossed := s.crossed || (left <= 0 && s.testing))
  }

  function Apply(s: Sys, e: Event): Sys
    requires Enabled(s, e)
  {
    match e
    case Open(isReadingAllowed, sameProactor, hasHandle, streams) =>
      var c := OpenedBy(s.c, isReadingAllowed, sameProactor, hasHandle, streams).0;
      s.(c := c, openRef := s.openRef || c.refs > s.c.refs)
    case SetupOk(isDefault, timerId) =>
      var c := SetUp(s.c, isDefault, timerId);
      if c.timer < 0 then s.(c := c) else s.(c := c, queue := Scheduled(timerId), late := s.late || s.c.closed)
    case SetupFail => s.(c := SetupCancelled(s.c))
    case Start(issue) =>
      var c := ReadingStarted(s.c, issue);
      s.(c := c, readOps := s.readOps + if c.refs > s.c.refs then 1 else 0)
    case Stop => s.(c := ReadingStopped(s.c))
    case Send(writeOk) =>
      var (c, result) := WrittenTo(s.c, writeOk);
      s.(c := c, writeOps := s.writeOps + if result.Sent? then 1 else 0)
    case Touch(time) => s.(c := Touched(s.c, time))
    case ReadData(now, stops, issue) =>
      var c := BlockReceived(s.c, now, stops, issue);
      s.(c := c, readOps := s.readOps - 1 + (if c.refs > s.c.refs then 1 else 0), readTails := s.readTails + 1)
    case ReadEnd => Deleting(s.(c := ReadingCancelled(s.c), readOps := s.readOps - 1), OwnRef)
    case ReadRelease => Releasing(s.(readTails := s.readTails - 1))
    case BlockSentByPeer(issue) =>
      var c := BlockSent(s.c, issue);
      s.(c := c, readOps := s.readOps + if c.refs > s.c.refs then 1 else 0)
    case WriteRelease => Releasing(s.(writeOps := s.writeOps - 1))
    case Fire => s.(queue := Fired(s.queue.id))
    case TimeOut(now, nextId) =>
      if s.c.timer < 0 then
        Deleting(s.(queue := Empty, loan := NoLoan, stolen := s.stolen || s.loan.NoRef?), OwnRef)
      else
        var (c, result) := TimedOut(s.c, now, nextId);
        s.(c := c, queue := if result.TimeOutRescheduled? then Scheduled(nextId) else Empty)
    case Close => Deleting(s.(openRef := false), OwnRef)
    case Zeroed => if s.c.refs > 0 then s.(zeroed := false) else Deleting(s.(zeroed := false), NoRef)
    case Test => s.(testing := false, notified := s.notified + if s.c.refs > 0 then 0 else 1)
  }

  ghost predicate Runs(s: Sys, events: seq<Event>)
    decreases |events|
  {
    events == [] || (Enabled(s, events[0]) && Runs(Apply(s, events[0]), events[1..]))
  }

  ghost function After(s: Sys, events: seq<Event>): Sys
    requires Runs(s, events)
    decreases |events|
  {
    if events == [] then s else After(Apply(s, events[0]), events[1..])
  }

  // ---------------------------------------------------------------- the invariant

  /** References somebody still has to drop. */
  function Owed(s: Sys): nat {
    Flag(s.openRef) + s.readOps + s.readTails + s.writeOps + Flag(s.loan.OwnRef?)
  }

  /** Threads that will signal OnConnectionClosed once they get on. */
  function Pending(s: Sys): nat {
    Flag(s.zeroed) + Flag(s.testing && s.c.refs <= 0) + Flag(s.loan.NoRef?)
  }

  ghost predicate Inv(s: Sys) {
    InvInHand(s, 0)
  }

  /** The invariant while the running thread has taken `inHand` references off the ledger. */
  ghost predicate InvInHand(s: Sys, inHand: nat) {
    && s.c.refs == Owed(s) + inHand - Flag(s.stolen)
    && TimerInv(s)
    && (s.openRef ==> s.c.hasProactor)
    && (!s.c.closed ==> s.loan.NoLoan? && !s.testing)
    && (!s.c.closed && inHand == 0 ==> (s.openRef <==> s.c.hasProactor))
    && (!s.c.hasProactor ==>
          Owed(s) + inHand == 0 && !s.c.closed && s.c.reading.NotAllowed? && !s.c.writable && s.queue.Empty?)
    && (s.c.refs > 0 || !s.c.hasProactor ==>
          s.notified == 0 && !s.zeroed && !s.crossed && !s.loan.NoRef? && !s.stolen)
    && (s.c.refs <= 0 && s.c.hasProactor ==> s.notified + Pending(s) == 1 + Flag(s.crossed))
    && (s.stolen || s.loan.NoRef? ==> Owed(s) + inHand == 0 && s.late && !s.zeroed)
    && (s.loan.NoRef? ==> !s.stolen && !s.testing)
  }

  ghost predicate TimerInv(s: Sys) {
    && (s.c.timer >= 0 ==> s.queue == Scheduled(s.c.timer) || s.queue == Fired(s.c.timer))
    && (s.c.timer < 0 ==> !s.queue.Scheduled?)
    && (s.c.timer < 0 && s.queue.Fired? ==> s.c.timer == TIMER_CANCELED && !s.loan.NoLoan?)
    && (!s.loan.NoLoan? ==> s.c.timer == TIMER_CANCELED && s.queue.Fired?)
    && (s.testing ==> s.c.timer < 0)
    && (s.c.closed && s.c.timer >= 0 ==> s.late)
  }

  lemma DeletingInv(s: Sys)
    requires InvInHand(s, 1) && !s.testing
    ensures Inv(Deleting(s, OwnRef))
  {
    var after := Deleting(s, OwnRef);
    assert Owed(after) == Owed(s) + Flag(after.loan.OwnRef?) - Flag(s.loan.OwnRef?);
  }

  lemma ReleasingInv(s: Sys)
    requires InvInHand(s, 1) && (s.c.closed || s.openRef)
    ensures Inv(Releasing(s))
  {
  }

  lemma HandlerInv(s: Sys, e: Event)
    requires Inv(s) && Enabled(s, e)
    requires e.ReadEnd? || e.ReadRelease? || e.WriteRelease? || e.Close?
    ensures Inv(Apply(s, e))
  {
    match e
    case ReadEnd => DeletingInv(s.(c := ReadingCancelled(s.c), readOps := s.readOps - 1));
    case ReadRelease => ReleasingInv(s.(readTails := s.readTails - 1));
    case WriteRelease => ReleasingInv(s.(writeOps := s.writeOps - 1));
    case Close => DeletingInv(s.(openRef := false));
  }

  lemma TimeOutInv(s: Sys, e: Event)
    requires Inv(s) && Enabled(s, e) && e.TimeOut?
    ensures Inv(Apply(s, e))
  {
    if s.c.timer < 0 {
      var taken := s.(queue := Empty, loan := NoLoan, stolen := s.stolen || s.loan.NoRef?);
      if s.loan.OwnRef? {
        DeletingInv(taken);
      } else {
        assert Apply(s, e) == taken.(c := Apply(s, e).c, testing := true);
        assert Owed(Apply(s, e)) == Owed(s) == 0;
      }
    } else {
      assert Owed(Apply(s, e)) == Owed(s);
    }
  }

  lemma ReadIssuingInv(s: Sys, e: Event)
    requires Inv(s) && Enabled(s, e)
    requires e.Start? || e.ReadData? || e.BlockSentByPeer?
    ensures Inv(Apply(s, e))
  {
    var after := Apply(s, e);
    assert Owed(after) - Owed(s) == after.c.refs - s.c.refs;
  }

  lemma IssuingInv(s: Sys, e: Event)
    requires Inv(s) && Enabled(s, e)
    requires e.Open? || e.Stop? || e.Send?
    ensures Inv(Apply(s, e))
  {
    var after := Apply(s, e);
    assert Owed(after) - Owed(s) == after.c.refs - s.c.refs;
  }

  lemma OtherInv(s: Sys, e: Event)
    requires Inv(s) && Enabled(s, e)
    requires e.SetupOk? || e.SetupFail? || e.Touch? || e.Fire?
    ensures Inv(Apply(s, e))
  {
    assert Apply(s, e).c.refs == s.c.refs && Owed(Apply(s, e)) == Owed(s);
  }

  lemma DeletionInv(s: Sys, e: Event)
    requires Inv(s) && Enabled(s, e)
    requires e.Zeroed? || e.Test?
    ensures Inv(Apply(s, e))
  {
  }

  lemma StepInv(s: Sys, e: Event)
    requires Inv(s) && Enabled(s, e)
    ensures Inv(Apply(s, e))
  {
    match e
    case ReadEnd | ReadRelease | WriteRelease | Close => HandlerInv(s, e);
    case TimeOut(_, _) => TimeOutInv(s, e);
    case SetupOk(_, _) | SetupFail | Touch(_) | Fire => OtherInv(s, e);
    case Zeroed | Test => DeletionInv(s, e);
    case Start(_) | ReadData(_, _, _) | BlockSentByPeer(_) => ReadIssuingInv(s, e);
    case _ => IssuingInv(s, e);
  }

  lemma {:induction false} RunInv(s: Sys, events: seq<Event>)
    requires Inv(s) && Runs(s, events)
    ensures Inv(After(s, events))
    decreases |events|
  {
    if events != [] {
      StepInv(s, events[0]);
      RunInv(Apply(s, events[0]), events[1..]);
    }
  }

  // ---------------------------------------------------------------- the ledger

  /** In every run the count is what is still owed, less the reference a late timer may have taken. */
  lemma RefLedger(interval: nat, events: seq<Event>)
    requires Runs(Fresh(interval), events)
    ensures var s := After(Fresh(interval), events);
            && s.c.refs == Owed(s) - Flag(s.stolen)
            && (s.stolen ==> s.late && s.c.refs == -1)
  {
    RunInv(Fresh(interval), events);
  }

  lemma IncrementsByReads(s: Sys, e: Event)
    requires Inv(s) && Enabled(s, e) && (e.Start? || e.ReadData? || e.BlockSentByPeer?)
    ensures Apply(s, e).c.refs > s.c.refs ==> Apply(s, e).c.refs == s.c.refs + 1 && s.c.refs >= 1
  {
  }

  lemma IncrementsByCalls(s: Sys, e: Event)
    requires Inv(s) && Enabled(s, e) && (e.Open? || e.Send?)
    ensures Apply(s, e).c.refs > s.c.refs ==>
              Apply(s, e).c.refs == s.c.refs + 1 && (if e.Open? then s.c.refs == 0 else s.c.refs >= 1)
  {
  }

  lemma DeletingDropsRefs(s: Sys, ref: Loan)
    ensures Deleting(s, ref).c.refs <= s.c.refs
  {
  }

  lemma DeletionDropsRefs(s: Sys, e: Event)
    requires Enabled(s, e) && (e.ReadEnd? || e.TimeOut? || e.Close? || e.Zeroed?)
    ensures Apply(s, e).c.refs <= s.c.refs
  {
    hide Deleting;
    match e
    case ReadEnd => DeletingDropsRefs(s.(c := ReadingCancelled(s.c), readOps := s.readOps - 1), OwnRef);
    case TimeOut(_, _) =>
      DeletingDropsRefs(s.(queue := Empty, loan := NoLoan, stolen := s.stolen || s.loan.NoRef?), OwnRef);
    case Close => DeletingDropsRefs(s.(openRef := false), OwnRef);
    case Zeroed => DeletingDropsRefs(s.(zeroed := false), NoRef);
  }

  lemma NoIncrement(s: Sys, e: Event)
    requires Enabled(s, e) && (e.SetupOk? || e.SetupFail? || e.Stop? || e.Touch? || e.Fire? || e.Test?
                               || e.ReadRelease? || e.WriteRelease?)
    ensures Apply(s, e).c.refs <= s.c.refs
  {
  }

  /** Outside Open no increment brings a dead connection back: the count is at least one before it. */
  lemma IncrementsFindALiveCount(interval: nat, events: seq<Event>, e: Event)
    requires Runs(Fresh(interval), events) && Enabled(After(Fresh(interval), events), e)
    ensures var s := After(Fresh(interval), events);
            Apply(s, e).c.refs > s.c.refs ==>
              && Apply(s, e).c.refs == s.c.refs + 1
              && (if e.Open? then s.c.refs == 0 else s.c.refs >= 1)
  {
    RunInv(Fresh(interval), events);
    var s := After(Fresh(interval), events);
    hide Runs, After, Inv, Apply;
    match e
    case Start(_) | ReadData(_, _, _) | BlockSentByPeer(_) => IncrementsByReads(s, e);
    case Open(_, _, _, _) | Send(_) => IncrementsByCalls(s, e);
    case ReadEnd | TimeOut(_, _) | Close | Zeroed => DeletionDropsRefs(s, e);
    case _ => NoIncrement(s, e);
  }

  ghost predicate Reaches(s: Sys, t: Sys) {
    exists events :: Runs(s, events) && After(s, events) == t
  }

  lemma Before(s: Sys, e: Event, next: Sys, t: Sys)
    requires Enabled(s, e) && Apply(s, e) == next
    requires next == t || Reaches(next, t)
    ensures Reaches(s, t)
  {
    var events :| Runs(next, events) && (next == t || After(next, events) == t) && (next == t ==> events == []);
    assert ([e] + events)[1..] == events;
    assert After(s, [e] + events) == t;
  }

  /** A connection with this count and idle timer, closed while one write was under way. */
  function ClosedConn(interval: nat, refs: int, timer: int): Conn {
    Conn(refs, NotStarted, SetupNotCompleted, true, true, true, interval, timer, NEVER)
  }

  /** Close has just dropped its reference and holds the lock; the write still has one. */
  function Closing(interval: nat): Sys {
    Sys(ClosedConn(interval, 1, TIMER_NOT_SET), Empty, false, 0, 0, 1, NoLoan, false, true, 0, false, false, false)
  }

  lemma ClosingIsReached(interval: nat, t: Sys)
    requires Reaches(Closing(interval), t)
    ensures Reaches(Fresh(interval), t)
  {
    var live := ClosedConn(interval, 1, TIMER_NOT_SET).(closed := false);
    var idle := Fresh(interval).(c := live, openRef := true);
    var sent := idle.(c := live.(refs := 2), writeOps := 1);
    assert Reaches(sent, t) by { Before(sent, Close, Closing(interval), t); }
    assert Reaches(idle, t) by { Before(idle, Send(true), sent, t); }
    Before(Fresh(interval), Open(true, true, true, StreamsOpen), idle, t);
  }

  /** The write is under way, the owner is gone, and a timer has just been started. */
  function LateTimer(interval: nat): Sys {
    var c := ClosedConn(interval, 1, 7).(setup := SetupCompleted);
    Sys(c, Scheduled(7), false, 0, 0, 1, NoLoan, false, false, 0, true, false, false)
  }

  lemma LateTimerSteals(interval: nat) returns (t: Sys)
    ensures Reaches(LateTimer(interval), t) && t.c.refs == -1 && Owed(t) == 0
  {
    var late := LateTimer(interval);
    var fired := late.(queue := Fired(7));
    var zeroed := fired.(c := fired.c.(refs := 0), writeOps := 0, zeroed := true);
    var lent := zeroed.(zeroed := false, c := zeroed.c.(timer := TIMER_CANCELED), loan := NoRef);
    t := lent.(queue := Empty, loan := NoLoan, stolen := true, testing := true, c := lent.c.(refs := -1));
    assert Reaches(lent, t) by { Before(lent, TimeOut(60, 8), t, t); }
    assert Reaches(zeroed, t) by { Before(zeroed, Zeroed, lent, t); }
    assert Reaches(fired, t) by { Before(fired, WriteRelease, zeroed, t); }
    Before(late, Fire, fired, t);
  }

  /** With any idle timeout a timer started on a closed connection can take a reference nobody left to it. */
  lemma LateTimerBreaksTheLedger(interval: nat)
    requires interval > 0
    ensures exists events ::
              && Runs(Fresh(interval), events)
              && After(Fresh(interval), events).c.refs == -1 && Owed(After(Fresh(interval), events)) == 0
  {
    var t := LateTimerSteals(interval);
    var released := Closing(interval).(testing := false);
    assert Reaches(released, t) by { Before(released, SetupOk(true, 7), LateTimer(interval), t); }
    assert Reaches(Closing(interval), t) by { Before(Closing(interval), Test, released, t); }
    ClosingIsReached(interval, t);
  }

  /** The two steps of the theft: a RemoveRef that reached zero finds a timer that has fired and leaves it no
      reference, and that timer drops one. */
  lemma StealingSteps(s: Sys, e: Event)
    requires Inv(s) && Enabled(s, e)
    ensures Apply(s, e).loan.NoRef? && !s.loan.NoRef? <==>
              e.Zeroed? && s.c.refs <= 0 && s.c.timer >= 0 && s.queue.Fired?
    ensures Apply(s, e).stolen && !s.stolen <==> e.TimeOut? && s.loan.NoRef?
  {
    assert TimerInv(s);
    hide Inv, Owed;
  }

  predicate SetupAfterClose(s: Sys, e: Event) {
    e.SetupOk? && s.c.closed
  }

  /** The callers report setup success only to connections that are not closed. */
  ghost predicate NeverSetUpClosed(s: Sys, events: seq<Event>)
    requires Runs(s, events)
    decreases |events|
  {
    events == [] || (!SetupAfterClose(s, events[0]) && NeverSetUpClosed(Apply(s, events[0]), events[1..]))
  }

  predicate NoTimer(s: Sys) {
    s.c.interval == 0 && s.c.timer < 0 && s.queue.Empty? && s.loan.NoLoan? && !s.late && !s.stolen
  }

  lemma StaysOnTime(s: Sys, e: Event)
    requires Inv(s) && Enabled(s, e) && !s.late
    requires !SetupAfterClose(s, e) || NoTimer(s)
    ensures !Apply(s, e).late && (NoTimer(s) ==> NoTimer(Apply(s, e)))
  {
  }

  lemma {:induction false} NeverLate(s: Sys, events: seq<Event>)
    requires Inv(s) && Runs(s, events) && !s.late && (NeverSetUpClosed(s, events) || NoTimer(s))
    ensures !After(s, events).late && Inv(After(s, events))
    decreases |events|
  {
    hide Inv, Apply, Enabled;
    if events != [] {
      StepInv(s, events[0]);
      StaysOnTime(s, events[0]);
      NeverLate(Apply(s, events[0]), events[1..]);
    }
  }

  predicate Exact(s: Sys) {
    s.c.refs == Owed(s)
  }

  lemma OnTimeIsExact(interval: nat, events: seq<Event>)
    requires Runs(Fresh(interval), events) && (NeverSetUpClosed(Fresh(interval), events) || interval == 0)
    ensures Exact(After(Fresh(interval), events))
  {
    NeverLate(Fresh(interval), events);
    hide Runs, NeverSetUpClosed, After;
  }

  /** The count is exactly what is owed in all runs iff setup success is never reported after Close, or the
      connection has no idle timeout. */
  lemma LedgerIsExact(interval: nat, disciplined: bool)
    ensures (forall events :: Runs(Fresh(interval), events) && (disciplined ==> NeverSetUpClosed(Fresh(interval), events))
               ==> Exact(After(Fresh(interval), events)))
            <==> disciplined || interval == 0
  {
    hide Runs, After, NeverSetUpClosed, Fresh;
    if disciplined || interval == 0 {
      forall events | Runs(Fresh(interval), events) && (disciplined ==> NeverSetUpClosed(Fresh(interval), events))
        ensures Exact(After(Fresh(interval), events))
      {
        OnTimeIsExact(interval, events);
      }
    } else {
      LateTimerBreaksTheLedger(interval);
    }
  }

  // ---------------------------------------------------------------- OnConnectionClosed

  /** When the signal is sent nobody owes a reference and no timer is scheduled or under way. */
  lemma ClosedMeansQuiet(interval: nat, events: seq<Event>, e: Event)
    requires Runs(Fresh(interval), events) && Enabled(After(Fresh(interval), events), e)
    ensures var s := After(Fresh(interval), events);
            Apply(s, e).notified != s.notified ==>
              && e.Test? && Apply(s, e).notified == s.notified + 1
              && Owed(s) == 0 && s.c.refs <= 0 && s.c.closed
              && s.queue.Empty? && s.loan.NoLoan?
  {
    RunInv(Fresh(interval), events);
  }

  /** Nobody is left who could change the count or send the signal. */
  predicate Settled(s: Sys) {
    s.c.hasProactor && Owed(s) == 0 && Pending(s) == 0
  }

  /** The signal is sent, and exactly once unless a RemoveRef reached zero between the decrement and the
      test of a CheckedDelete: then it is sent twice. */
  lemma ClosedExactlyOnce(interval: nat, events: seq<Event>)
    requires Runs(Fresh(interval), events)
    ensures var s := After(Fresh(interval), events);
            && s.notified <= 1 + Flag(s.crossed)
            && (s.notified > 0 ==> s.c.refs <= 0)
            && (Settled(s) ==> s.notified > 0 && (s.notified == 1 <==> !s.crossed))
  {
    RunInv(Fresh(interval), events);
  }

  /** Two signals do happen. */
  lemma ClosedTwice()
    ensures exists events :: Runs(Fresh(0), events) && After(Fresh(0), events).notified == 2
  {
    var crossed := Closing(0).(c := ClosedConn(0, 0, TIMER_NOT_SET), writeOps := 0, zeroed := true, crossed := true);
    var once := crossed.(testing := false, notified := 1);
    var again := once.(testing := true, zeroed := false);
    var twice := again.(testing := false, notified := 2);
    assert Reaches(again, twice) by { Before(again, Test, twice, twice); }
    assert Reaches(once, twice) by { Before(once, Zeroed, again, twice); }
    assert Reaches(crossed, twice) by { Before(crossed, Test, once, twice); }
    assert Reaches(Closing(0), twice) by { Before(Closing(0), WriteRelease, crossed, twice); }
    ClosingIsReached(0, twice);
  }

  /** Every CheckedDelete tests right after its decrement, as if the two were one step. */
  ghost predicate TestsAtOnce(s: Sys, events: seq<Event>)
    requires Runs(s, events)
    decreases |events|
  {
    events == [] || ((s.testing ==> events[0].Test?) && TestsAtOnce(Apply(s, events[0]), events[1..]))
  }

  lemma {:induction false} NothingCrosses(s: Sys, events: seq<Event>)
    requires Runs(s, events) && TestsAtOnce(s, events) && !s.crossed
    ensures !After(s, events).crossed
    decreases |events|
  {
    if events != [] {
      NothingCrosses(Apply(s, events[0]), events[1..]);
    }
  }

  lemma AtomicDeleteClosesOnce(interval: nat, events: seq<Event>)
    requires Runs(Fresh(interval), events) && TestsAtOnce(Fresh(interval), events)
    ensures var s := After(Fresh(interval), events);
            && s.notified <= 1
            && (Settled(s) ==> s.notified == 1)
  {
    NothingCrosses(Fresh(interval), events);
    ClosedExactlyOnce(interval, events);
  }

  /** The two steps together are the CheckedDelete that the object runs when nobody interferes. */
  lemma CloseIsOneCheckedDelete(s: Sys)
    requires Enabled(s, Close)
    ensures var (c, fate) := CheckedDeleted(s.c, true, s.queue == Scheduled(s.c.timer));
            var half := Apply(s, Close);
            && half.testing == (fate != Parked)
            && half.c == c
            && (half.testing ==> Apply(half, Test).notified == s.notified + Flag(fate == Connection.Finished))
  {
  }

  /** The same for RemoveRef: its decrement, then the rest under the lock. */
  lemma ReleaseIsOneRemoveRef(s: Sys)
    requires Inv(s) && Enabled(s, WriteRelease) && !s.testing
    ensures var (c, fate) := RefRemoved(s.c, s.queue == Scheduled(s.c.timer));
            var dropped := Apply(s, WriteRelease);
            && dropped.zeroed == (fate != Alive)
            && (if dropped.zeroed then Apply(dropped, Zeroed).c == c else dropped.c == c)
  {
    ReleasingInv(s.(writeOps := s.writeOps - 1));
  }

  /** The same for the handler of a timer that could not be cancelled. */
  lemma ParkedTimeOutIsOneCheckedDelete(s: Sys, now: nat, nextId: nat)
    requires Enabled(s, TimeOut(now, nextId)) && s.c.timer < 0
    ensures var (c, result) := TimedOut(s.c, now, nextId);
            var half := Apply(s, TimeOut(now, nextId));
            && half.testing && half.c == c && half.c == CheckedDeleted(s.c, true, true).0
            && result.TimeOutParked?
            && Apply(half, Test).notified == s.notified + Flag(result.fate == Connection.Finished)
  {
  }

  // ---------------------------------------------------------------- the setup

  lemma SetupByCalls(s: Sys, e: Event)
    requires Enabled(s, e) && (e.SetupOk? || e.SetupFail? || e.ReadData?)
    ensures SetupRight(s, e)
  {
  }

  lemma SetupByDeletion(s: Sys, e: Event)
    requires Enabled(s, e) && (e.TimeOut? || e.Close? || e.Zeroed? || e.ReadEnd?)
    ensures SetupRight(s, e)
  {
    hide Deleting;
    match e
    case ReadEnd => SetupDeleting(s.(c := ReadingCancelled(s.c), readOps := s.readOps - 1), OwnRef);
    case TimeOut(_, _) => SetupDeleting(s.(queue := Empty, loan := NoLoan, stolen := s.stolen || s.loan.NoRef?), OwnRef);
    case Close => SetupDeleting(s.(openRef := false), OwnRef);
    case Zeroed => SetupDeleting(s.(zeroed := false), NoRef);
  }

  lemma SetupDeleting(s: Sys, ref: Loan)
    ensures Deleting(s, ref).c.setup == s.c.setup
  {
  }

  lemma SetupElse(s: Sys, e: Event)
    requires Enabled(s, e) && (e.Open? || e.Start? || e.Stop? || e.Send? || e.Touch? || e.BlockSentByPeer?)
    ensures SetupRight(s, e)
  {
  }

  /** How a step moves the setup: success completes it or leaves it pending, the first data that is received completes
      a pending one, failure fails it, and nothing else touches it. */
  predicate SetupRight(s: Sys, e: Event)
    requires Enabled(s, e)
  {
    Apply(s, e).c.setup ==
    if e.SetupOk? then (if e.isDefault then SetupCompleted else SetupPending)
    else if e.SetupFail? then SetupFailed
    else if e.ReadData? && !s.c.closed && s.c.setup.SetupPending? then SetupCompleted
    else s.c.setup
  }

  lemma SetupStep(s: Sys, e: Event)
    requires Enabled(s, e)
    ensures SetupRight(s, e)
  {
    hide SetupRight;
    match e
    case SetupOk(_, _) | SetupFail | ReadData(_, _, _) => SetupByCalls(s, e);
    case TimeOut(_, _) | Close | Zeroed | ReadEnd => SetupByDeletion(s, e);
    case ReadRelease | WriteRelease | Fire | Test => SetupReleasing(s, e);
    case _ => SetupElse(s, e);
  }

  lemma SetupReleasing(s: Sys, e: Event)
    requires Enabled(s, e) && (e.ReadRelease? || e.WriteRelease? || e.Fire? || e.Test?)
    ensures SetupRight(s, e)
  {
  }

  /** The setup is decided once: completed or failed it stays so in every run. */
  lemma {:induction false} SetupIsDecidedOnce(s: Sys, events: seq<Event>)
    requires Runs(s, events) && (s.c.setup.SetupCompleted? || s.c.setup.SetupFailed?)
    ensures After(s, events).c.setup == s.c.setup
    decreases |events|
  {
    if events != [] {
      SetupStep(s, events[0]);
      assert !events[0].SetupOk? && !events[0].SetupFail?;
      hide Apply;
      SetupIsDecidedOnce(Apply(s, events[0]), events[1..]);
    }
  }

  // ---------------------------------------------------------------- one read at a time

  /** The reading state says whether a read is outstanding, and there is at most one. */
  predicate ReadInv(s: Sys) {
    && s.readOps <= 1
    && (s.readOps == 1 <==> s.c.reading.Reading? || s.c.reading.StoppingReading?)
  }

  predicate WhileStopping(s: Sys, e: Event) {
    (e.Start? || e.Stop?) && s.c.reading.StoppingReading?
  }

  lemma ReadInvHandlers(s: Sys, e: Event)
    requires Inv(s) && ReadInv(s) && Enabled(s, e)
    requires e.ReadData? || e.ReadEnd? || e.BlockSentByPeer?
    ensures ReadInv(Apply(s, e))
  {
  }

  lemma ReadInvCalls(s: Sys, e: Event)
    requires Inv(s) && ReadInv(s) && Enabled(s, e)
    requires e.Start? || e.Stop?
    ensures ReadInv(Apply(s, e)) <==> !s.c.reading.StoppingReading?
  {
  }

  /** Every step keeps it, except exactly StartReading and StopReading while stopping. */
  lemma ReadInvStep(s: Sys, e: Event)
    requires Inv(s) && ReadInv(s) && Enabled(s, e)
    ensures ReadInv(Apply(s, e)) <==> !WhileStopping(s, e)
  {
    if e.Start? || e.Stop? {
      ReadInvCalls(s, e);
    } else if e.ReadData? || e.ReadEnd? || e.BlockSentByPeer? {
      ReadInvHandlers(s, e);
    }
  }

  ghost predicate NeverWhileStopping(s: Sys, events: seq<Event>)
    requires Runs(s, events)
    decreases |events|
  {
    events == [] || (!WhileStopping(s, events[0]) && NeverWhileStopping(Apply(s, events[0]), events[1..]))
  }

  lemma {:induction false} OneRead(s: Sys, events: seq<Event>)
    requires Inv(s) && ReadInv(s) && Runs(s, events) && NeverWhileStopping(s, events)
    ensures ReadInv(After(s, events))
    decreases |events|
  {
    if events != [] {
      StepInv(s, events[0]);
      ReadInvStep(s, events[0]);
      OneRead(Apply(s, events[0]), events[1..]);
    }
  }

  /** An open connection that reads, with this many reads under way. */
  function ReadingOn(interval: nat, count: nat, reading: ReadingState): Sys {
    var c := Conn(1 + count, reading, SetupNotCompleted, true, true, false, interval, TIMER_NOT_SET, NEVER);
    Fresh(interval).(c := c, openRef := true, readOps := count)
  }

  /** A read is stopped and started again before it has come back: two are under way. */
  lemma TwoReads(interval: nat)
    ensures exists events :: Runs(Fresh(interval), events) && After(Fresh(interval), events).readOps == 2
  {
    var idle, one := ReadingOn(interval, 0, NotStarted), ReadingOn(interval, 1, Reading);
    var stopping, two := ReadingOn(interval, 1, StoppingReading), ReadingOn(interval, 2, Reading);
    assert Reaches(stopping, two) by { Before(stopping, Start(Issued), two, two); }
    assert Reaches(one, two) by { Before(one, Stop, stopping, two); }
    assert Reaches(idle, two) by { Before(idle, Start(Issued), one, two); }
    Before(Fresh(interval), Open(true, true, true, StreamsOpen), idle, two);
  }

  /** At most one read is under way in all runs iff StartReading and StopReading are never called while stopping. */
  lemma OneReadIsBounded(interval: nat, disciplined: bool)
    ensures (forall events :: Runs(Fresh(interval), events) && (disciplined ==> NeverWhileStopping(Fresh(interval), events))
               ==> After(Fresh(interval), events).readOps <= 1)
            <==> disciplined
  {
    hide Runs, After, NeverWhileStopping;
    if disciplined {
      forall events | Runs(Fresh(interval), events) && NeverWhileStopping(Fresh(interval), events)
        ensures After(Fresh(interval), events).readOps <= 1
      {
        OneRead(Fresh(interval), events);
      }
    } else {
      TwoReads(interval);
    }
  }

  /** The asserts of Close and of CheckedDelete about the reading state. */
  lemma ReadingIsOverWhenClosed(interval: nat, events: seq<Event>)
    requires Runs(Fresh(interval), events) && NeverWhileStopping(Fresh(interval), events)
    ensures var s := After(Fresh(interval), events);
            var isReading := s.c.reading.Reading? || s.c.reading.StoppingReading?;
            && (s.c.refs <= 0 ==> !isReading)
            && (s.openRef && s.c.refs <= 1 ==> !isReading)
  {
    RunInv(Fresh(interval), events);
    OneRead(Fresh(interval), events);
  }

  // ---------------------------------------------------------------- stopped means stopped

  /** No further read is due. */
  predicate AtRest(c: Conn) {
    c.reading.NotAllowed? || c.reading.NotStarted? || c.reading.StoppingReading?
  }

  lemma AtRestDeleting(s: Sys, ref: Loan)
    ensures Deleting(s, ref).c.reading == s.c.reading && Deleting(s, ref).readOps == s.readOps
  {
  }

  lemma AtRestReceiving(c: Conn, now: nat, stops: bool, issue: Issue)
    requires AtRest(c)
    ensures AtRest(BlockReceived(c, now, stops, issue)) && BlockReceived(c, now, stops, issue).refs == c.refs
  {
  }

  lemma AtRestReads(s: Sys, e: Event)
    requires Enabled(s, e) && AtRest(s.c) && (e.ReadData? || e.ReadEnd? || e.BlockSentByPeer?)
    ensures AtRest(Apply(s, e).c) && Apply(s, e).readOps <= s.readOps
  {
    hide Deleting, BlockReceived;
    match e
    case ReadData(now, stops, issue) => AtRestReceiving(s.c, now, stops, issue);
    case ReadEnd => AtRestDeleting(s.(c := ReadingCancelled(s.c), readOps := s.readOps - 1), OwnRef);
    case BlockSentByPeer(_) =>
  }

  lemma AtRestDeletions(s: Sys, e: Event)
    requires Enabled(s, e) && AtRest(s.c) && (e.TimeOut? || e.Close? || e.Zeroed?)
    ensures AtRest(Apply(s, e).c) && Apply(s, e).readOps <= s.readOps
  {
    hide Deleting;
    match e
    case TimeOut(_, _) => AtRestDeleting(s.(queue := Empty, loan := NoLoan, stolen := s.stolen || s.loan.NoRef?), OwnRef);
    case Close => AtRestDeleting(s.(openRef := false), OwnRef);
    case Zeroed => AtRestDeleting(s.(zeroed := false), NoRef);
  }

  lemma AtRestElse(s: Sys, e: Event)
    requires Enabled(s, e) && AtRest(s.c) && (e.Open? || e.SetupOk? || e.SetupFail? || e.Stop? || e.Send? || e.Touch?)
    ensures AtRest(Apply(s, e).c) && Apply(s, e).readOps <= s.readOps
  {
  }

  lemma AtRestStays(s: Sys, e: Event)
    requires Enabled(s, e) && AtRest(s.c) && !e.Start?
    ensures AtRest(Apply(s, e).c) && Apply(s, e).readOps <= s.readOps
  {
    match e
    case ReadData(_, _, _) | ReadEnd | BlockSentByPeer(_) => AtRestReads(s, e);
    case TimeOut(_, _) | Close | Zeroed => AtRestDeletions(s, e);
    case ReadRelease | WriteRelease | Fire | Test =>
    case _ => AtRestElse(s, e);
  }

  lemma {:induction false} AtRestRun(s: Sys, events: seq<Event>)
    requires Runs(s, events) && AtRest(s.c) && forall i :: 0 <= i < |events| ==> !events[i].Start?
    ensures AtRest(After(s, events).c) && After(s, events).readOps <= s.readOps
    decreases |events|
  {
    hide Enabled, Apply, AtRest;
    if events != [] {
      AtRestStays(s, events[0]);
      AtRestRun(Apply(s, events[0]), events[1..]);
    }
  }

  /** After StopReading, in whatever state it was called, no read is issued until StartReading is called again: the
      reads that were under way only come back. */
  lemma StoppedReadsNoMore(s: Sys, events: seq<Event>)
    requires Enabled(s, Stop) && Runs(Apply(s, Stop), events) && forall i :: 0 <= i < |events| ==> !events[i].Start?
    ensures var after := After(Apply(s, Stop), events);
            AtRest(after.c) && after.readOps <= s.readOps
  {
    AtRestRun(Apply(s, Stop), events);
    hide Runs, After;
  }

  /** StartReading on a connection that may read makes the read due: it is issued if there is a block and nothing fails. */
  lemma StartedReads(s: Sys)
    requires Enabled(s, Start(Issued))
    ensures var after := Apply(s, Start(Issued));
            if s.c.reading.NotAllowed? then after == s
            else after.c.reading.Reading? && after.readOps == s.readOps + 1 && after.c.refs == s.c.refs + 1
  {
  }

  // ---------------------------------------------------------------- who can write

  predicate SameStream(c: Conn, next: Conn) {
    c.hasProactor ==>
      next.hasProactor && next.writable == c.writable && (next.reading.NotAllowed? <==> c.reading.NotAllowed?)
  }

  lemma SameStreamDeleting(s: Sys, ref: Loan)
    ensures SameStream(s.c, Deleting(s, ref).c)
  {
  }

  lemma SameStreamReceiving(c: Conn, now: nat, stops: bool, issue: Issue)
    ensures SameStream(c, BlockReceived(c, now, stops, issue))
  {
  }

  lemma SameStreamHandling(s: Sys, e: Event)
    requires Enabled(s, e) && (e.ReadEnd? || e.TimeOut? || e.Close? || e.Zeroed? || e.ReadData? || e.Test?)
    ensures SameStream(s.c, Apply(s, e).c)
  {
    hide Deleting, BlockReceived;
    match e
    case ReadEnd => SameStreamDeleting(s.(c := ReadingCancelled(s.c), readOps := s.readOps - 1), OwnRef);
    case TimeOut(_, _) =>
      SameStreamDeleting(s.(queue := Empty, loan := NoLoan, stolen := s.stolen || s.loan.NoRef?), OwnRef);
    case Close => SameStreamDeleting(s.(openRef := false), OwnRef);
    case Zeroed => SameStreamDeleting(s.(zeroed := false), NoRef);
    case ReadData(now, stops, issue) => SameStreamReceiving(s.c, now, stops, issue);
    case Test =>
  }

  lemma SameStreamCalling(s: Sys, e: Event)
    requires Enabled(s, e) && (e.Open? || e.Start? || e.Stop? || e.Send? || e.BlockSentByPeer? || e.SetupOk?)
    ensures SameStream(s.c, Apply(s, e).c)
  {
  }

  lemma SameStreamElse(s: Sys, e: Event)
    requires Enabled(s, e) && (e.SetupFail? || e.Touch? || e.Fire? || e.ReadRelease? || e.WriteRelease?)
    ensures SameStream(s.c, Apply(s, e).c)
  {
  }

  lemma WriteStreamStays(s: Sys, e: Event)
    requires Enabled(s, e) && s.c.hasProactor
    ensures SameStream(s.c, Apply(s, e).c)
    ensures Apply(s, e).c.hasProactor && Apply(s, e).c.writable == s.c.writable
  {
    hide Apply, Enabled;
    match e
    case ReadEnd | TimeOut(_, _) | Close | Zeroed | ReadData(_, _, _) | Test => SameStreamHandling(s, e);
    case SetupFail | Touch(_) | Fire | ReadRelease | WriteRelease => SameStreamElse(s, e);
    case _ => SameStreamCalling(s, e);
  }

  /** Whether a connection can read and write is settled when it is opened. */
  lemma {:induction false} WriteStreamIsFixed(s: Sys, events: seq<Event>)
    requires Runs(s, events) && s.c.hasProactor
    ensures After(s, events).c.hasProactor && After(s, events).c.writable == s.c.writable
    ensures After(s, events).c.reading.NotAllowed? <==> s.c.reading.NotAllowed?
    decreases |events|
  {
    hide Apply, Enabled;
    if events != [] {
      WriteStreamStays(s, events[0]);
      WriteStreamIsFixed(Apply(s, events[0]), events[1..]);
    }
  }

  /** Whether SendToRemote can ever issue a write in a run from here. */
  ghost predicate CanSend(s: Sys) {
    exists events, writeOk :: Runs(s, events) && WrittenTo(After(s, events).c, writeOk).1 == Sent
  }

  /** An opened connection can send if and only if it was opened for reading, on a handle. One that was opened for
      writing only never has a write stream: SendToRemote drops every block or answers that it cannot write. */
  lemma OnlyReadersSend(interval: nat, e: Event)
    requires e.Open? && OpenedBy(New(interval), e.isReadingAllowed, e.sameProactor, e.hasHandle, e.streams).1 == OpenOk
    ensures CanSend(Apply(Fresh(interval), e)) <==> e.isReadingAllowed && e.hasHandle
    ensures !(e.isReadingAllowed && e.hasHandle) ==>
              forall events, writeOk :: Runs(Apply(Fresh(interval), e), events) ==>
                var c := After(Apply(Fresh(interval), e), events).c;
                WrittenTo(c, writeOk).1 == if c.closed then Dropped else NotWritable
  {
    var s := Apply(Fresh(interval), e);
    if e.isReadingAllowed && e.hasHandle {
      assert Runs(s, []) && After(s, []) == s;
      assert WrittenTo(After(s, []).c, true).1 == Sent;
    } else {
      forall events | Runs(s, events)
        ensures !After(s, events).c.writable
      {
        WriteStreamIsFixed(s, events);
      }
    }
  }

  /** And it can read under the same condition: StartReading, whenever it may be called, makes a read due that is then
      issued if there is a block for it. */
  lemma OnlyReadersRead(interval: nat, e: Event, events: seq<Event>)
    requires e.Open? && OpenedBy(New(interval), e.isReadingAllowed, e.sameProactor, e.hasHandle, e.streams).1 == OpenOk
    requires Runs(Apply(Fresh(interval), e), events)
    requires Enabled(After(Apply(Fresh(interval), e), events), Start(Issued))
    ensures var s := After(Apply(Fresh(interval), e), events);
            Apply(s, Start(Issued)).readOps == s.readOps + (if e.isReadingAllowed && e.hasHandle then 1 else 0)
  {
    WriteStreamIsFixed(Apply(Fresh(interval), e), events);
    var s := After(Apply(Fresh(interval), e), events);
    hide Runs, After;
    StartedReads(s);
  }
}
