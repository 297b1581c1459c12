// Connection::Implementation: the fields of one connection and what each of its
// critical sections does to them. Answers of the operating system (was the timer
// cancelled, was the read issued, what time is it) are parameters.
module Connection {
  import opened Wrappers

  /** In the order of the source: comparisons between states rely on it. */
  datatype ReadingState = NotAllowed | NotStarted | StoppingReading | Reading | NotReading

  datatype SetupState = SetupNotCompleted | SetupFailed | SetupPending | SetupCompleted

  const TIMER_NOT_SET := -1
  const TIMER_CANCELED := -2
  const TIMER_EXPIRED := -3
  const NEVER := -1

  datatype Conn = Conn(
    refs: int,
    reading: ReadingState,
    setup: SetupState,
    hasProactor: bool,
    writable: bool, // there is a write stream
    closed: bool,
    interval: nat,
    timer: int, // a timer id, or one of the three values above
    update: int) // seconds since the connection was created, or NEVER

  /** What happened when a read was about to be issued. */
  datatype Issue =
    | NoBlock // the pool of message blocks is exhausted
    | Issued
    | Refused // the remote side is gone: reported by the result
    | Threw // any other error

  /** How a CheckedDelete ended. */
  datatype Fate = Parked | Alive | Finished

  /** Whether the asynchronous streams could be opened on the handle. */
  datatype Streams = StreamsOpen | ReadStreamFails | WriteStreamFails

  /** How passing a block on to the tunnel ended: a LocalException is caught by the handler, any other one is not. */
  datatype Delivery = Delivered | DeliveryCaught | DeliveryEscaped

  datatype OpenError = OpenedTwice | ReadStreamNotOpened | WriteStreamNotOpened
  datatype OpenResult = OpenOk | OpenFailed(error: OpenError)

  datatype SendResult = Sent | Dropped | NotDuplicated | WriteFailed | NotWritable

  datatype TimeOut = TimeOutParked(fate: Fate) | TimeOutRescheduled(sleep: int) | TimeOutExpired

  function New(interval: nat): Conn {
    Conn(0, NotAllowed, SetupNotCompleted, false, false, false, interval, TIMER_NOT_SET, NEVER)
  }

  function Rank(r: ReadingState): nat {
    match r
    case NotAllowed => 0
    case NotStarted => 1
    case StoppingReading => 2
    case Reading => 3
    case NotReading => 4
  }

  // ---------------------------------------------------------------- the critical sections, as functions

  function OpenedBy(c: Conn, isReadingAllowed: bool, sameProactor: bool, hasHandle: bool, streams: Streams)
    : (Conn, OpenResult)
  {
    if c.hasProactor then
      (c, if !sameProactor || c.reading.NotAllowed? || isReadingAllowed then OpenFailed(OpenedTwice) else OpenOk)
    else if hasHandle && streams.ReadStreamFails? then
      (c, OpenFailed(ReadStreamNotOpened))
    else if hasHandle && streams.WriteStreamFails? && isReadingAllowed then
      (c, OpenFailed(WriteStreamNotOpened))
    else
      (c.(reading := if isReadingAllowed && hasHandle then NotStarted else NotAllowed,
          writable := isReadingAllowed && hasHandle,
          hasProactor := true,
          refs := c.refs + 1), OpenOk)
  }

  /** The first half of CheckedDelete: mark closed, give the timer up, say whether the reference stays parked. */
  function MarkedClosed(c: Conn): Conn {
    c.(closed := true, timer := if c.timer >= 0 then TIMER_CANCELED else c.timer)
  }

  predicate ParksOnTimer(c: Conn, cancelled: bool) {
    c.timer >= 0 && !cancelled
  }

  function CheckedDeleted(c: Conn, removeRef: bool, cancelled: bool): (Conn, Fate) {
    var marked := MarkedClosed(c);
    if ParksOnTimer(c, cancelled) then (marked, Parked)
    else
      var dropped := if removeRef then marked.(refs := marked.refs - 1) else marked;
      (dropped, if dropped.refs > 0 then Alive else Finished)
  }

  function RefRemoved(c: Conn, cancelled: bool): (Conn, Fate) {
    var dropped := c.(refs := c.refs - 1);
    if dropped.refs > 0 then (dropped, Alive) else CheckedDeleted(dropped, false, cancelled)
  }

  predicate IssuesRead(c: Conn, issue: Issue) {
    c.reading.NotReading? && issue.Issued?
  }

  function ReadInitiated(c: Conn, issue: Issue): Conn {
    if IssuesRead(c, issue) then c.(reading := Reading, refs := c.refs + 1) else c
  }

  /** What a method that may issue a read does after it: nothing, ask the tunnel to close, or throw. */
  datatype Reaction = Silent | AsksToClose | Throws

  function InitReaction(c: Conn, issue: Issue): Reaction {
    if c.reading.NotReading? && issue.Refused? then AsksToClose
    else if c.reading.NotReading? && issue.Threw? then Throws
    else Silent
  }

  /** A read that was due and found a block but was not issued is never passed over in silence: the tunnel is asked to
      close if it was refused, and anything else is thrown. Nothing else is reported. */
  lemma UnissuedReadIsHeard(c: Conn, issue: Issue)
    ensures var due := c.reading.NotReading? && ReadInitiated(c, issue) == c && !issue.NoBlock?;
            && (InitReaction(c, issue) != Silent <==> due)
            && (due ==> (InitReaction(c, issue) == AsksToClose <==> issue.Refused?))
  {
  }

  function StartReaction(c: Conn, issue: Issue): Reaction {
    if c.reading.NotAllowed? then Silent else InitReaction(c.(reading := NotReading), issue)
  }

  function SentReaction(c: Conn, isTunnelMessage: bool, issue: Issue): Reaction {
    if !isTunnelMessage then Silent else if c.closed then AsksToClose else InitReaction(c, issue)
  }

  /** Whether a read that brought data ends with the request to close. */
  predicate DataAsksToClose(c: Conn, now: nat, stops: bool, delivery: Delivery, issue: Issue) {
    || c.closed || delivery.DeliveryCaught?
    || (delivery.Delivered? && InitReaction(BlockEscaped(c, now, stops), issue) != Silent)
  }

  function ReadingCancelled(c: Conn): Conn {
    c.(reading := match c.reading
                  case StoppingReading => NotStarted
                  case Reading => NotReading
                  case other => other)
  }

  function ReadingStarted(c: Conn, issue: Issue): Conn {
    if c.reading.NotAllowed? then c else ReadInitiated(c.(reading := NotReading), issue)
  }

  function ReadingStopped(c: Conn): Conn {
    if c.reading.NotAllowed? then c
    else c.(reading := if c.reading.Reading? then StoppingReading else NotStarted)
  }

  function BlockSent(c: Conn, issue: Issue): Conn {
    if c.closed then c else ReadInitiated(c, issue)
  }

  function WrittenTo(c: Conn, writeOk: bool): (Conn, SendResult) {
    if c.closed then (c, Dropped)
    else if !c.writable then (c, NotWritable)
    else if !writeOk then (c, WriteFailed)
    else (c.(refs := c.refs + 1), Sent)
  }

  /** All of SendToRemote: the duplicate, the write, and the activity. */
  function SentToRemote(c: Conn, duplicated: bool, writeOk: bool, now: nat): (Conn, SendResult) {
    if !c.closed && !duplicated then (c, NotDuplicated)
    else
      var (written, result) := WrittenTo(c, writeOk);
      (if result.Sent? then Touched(written, now) else written, result)
  }

  /** ReadRemote passes the block on, unless the setup failed. */
  function PassedOn(c: Conn, now: nat): Conn {
    if c.setup.SetupFailed? then c
    else Touched(c.(setup := if c.setup.SetupPending? then SetupCompleted else c.setup), now)
  }

  /** A read came back with data; `stops` says that the receiver called StopReading from within. */
  function BlockReceived(c: Conn, now: nat, stops: bool, issue: Issue): Conn {
    var cancelled := ReadingCancelled(c);
    if c.closed then cancelled
    else ReadInitiated(StoppedIf(PassedOn(cancelled, now), stops), issue)
  }

  /** The same when an exception comes out of passing the block on: no read is issued. */
  function BlockEscaped(c: Conn, now: nat, stops: bool): Conn {
    StoppedIf(PassedOn(ReadingCancelled(c), now), stops)
  }

  function StoppedIf(c: Conn, stops: bool): Conn {
    if stops then ReadingStopped(c) else c
  }

  /** A read came back with an error or with the end of the stream. */
  function ReadBroken(c: Conn, cancelled: bool): (Conn, Fate) {
    CheckedDeleted(ReadingCancelled(c), true, cancelled)
  }

  function Touched(c: Conn, time: nat): Conn {
    if c.timer < 0 then c else c.(update := time)
  }

  predicate StillActive(c: Conn, now: int) {
    c.update >= 0 && now - c.update < c.interval
  }

  function TimedOut(c: Conn, now: int, newTimer: nat): (Conn, TimeOut) {
    if c.timer < 0 then
      var (deleted, fate) := CheckedDeleted(c, true, true);
      (deleted, TimeOutParked(fate))
    else if StillActive(c, now) then
      (c.(timer := newTimer), TimeOutRescheduled(c.interval - (now - c.update)))
    else (c.(timer := TIMER_EXPIRED), TimeOutExpired)
  }

  function SetUp(c: Conn, isDefault: bool, newTimer: nat): Conn {
    var done := c.(setup := if isDefault then SetupCompleted else SetupPending);
    if c.interval == 0 then done else done.(timer := newTimer)
  }

  function SetupCancelled(c: Conn): Conn {
    c.(setup := SetupFailed)
  }

  // ---------------------------------------------------------------- what the answers say

  /** A connection is opened once, if the streams it needs open: the read stream always, the write stream when it is
      opened for reading. Opening it again never changes it, and is allowed for the other half of a split use only:
      for writing, by the same proactor, on a connection that reads. */
  lemma OpenAnswers(c: Conn, isReadingAllowed: bool, sameProactor: bool, hasHandle: bool, streams: Streams)
    ensures var (after, result) := OpenedBy(c, isReadingAllowed, sameProactor, hasHandle, streams);
            && (c.hasProactor ==> after == c && (result == OpenOk || result == OpenFailed(OpenedTwice)))
            && (c.hasProactor ==> (result == OpenOk <==> sameProactor && !isReadingAllowed && !c.reading.NotAllowed?))
            && (!c.hasProactor ==>
                  && (result == OpenOk <==> after.hasProactor)
                  && (result == OpenFailed(ReadStreamNotOpened) <==> hasHandle && streams.ReadStreamFails?)
                  && (result == OpenFailed(WriteStreamNotOpened) <==>
                        hasHandle && isReadingAllowed && streams.WriteStreamFails?)
                  && result != OpenFailed(OpenedTwice))
            && (result != OpenOk ==> after == c)
  {
  }

  /** A completion that finds its connection closed asks the tunnel to close once more; a write is dropped in silence. */
  lemma ClosedIsHeard(c: Conn, now: nat, stops: bool, delivery: Delivery, issue: Issue, flag: bool)
    requires c.closed
    ensures DataAsksToClose(c, now, stops, delivery, issue) && SentReaction(c, true, issue) == AsksToClose
    ensures SentReaction(c, false, issue) == Silent
    ensures BlockReceived(c, now, stops, issue) == ReadingCancelled(c) && BlockSent(c, issue) == c
    ensures SentToRemote(c, flag, flag, now) == (c, Dropped)
  {
  }

  // ---------------------------------------------------------------- the object

  class Implementation {
    var refsCount: int
    var readingState: ReadingState
    var setupState: SetupState
    var isOpened: bool
    var hasWriteStream: bool
    var isClosed: bool
    const idleTimeoutInterval: nat
    var idleTimeoutTimer: int
    var idleTimeoutUpdateTime: int
    var signal: Option<nat> // the tunnel's signal object

    function View(): Conn
      reads this
    {
      Conn(refsCount, readingState, setupState, isOpened, hasWriteStream, isClosed,
           idleTimeoutInterval, idleTimeoutTimer, idleTimeoutUpdateTime)
    }

    constructor (idleTimeoutSeconds: nat)
      ensures View() == New(idleTimeoutSeconds) && signal == None
    {
      signal := None;
      refsCount := 0;
      readingState := NotAllowed;
      setupState := SetupNotCompleted;
      isOpened := false;
      hasWriteStream := false;
      isClosed := false;
      idleTimeoutInterval := idleTimeoutSeconds;
      idleTimeoutTimer := TIMER_NOT_SET;
      idleTimeoutUpdateTime := NEVER;
    }

    /** A successful Open takes the new signal, also when the connection is open already. */
    method Open(newSignal: nat, isReadingAllowed: bool, sameProactor: bool, hasHandle: bool, streams: Streams)
      returns (result: OpenResult)
      modifies this
      ensures (View(), result) == OpenedBy(old(View()), isReadingAllowed, sameProactor, hasHandle, streams)
      ensures signal == if result.OpenOk? then Some(newSignal) else old(signal)
    {
      if isOpened {
        if !sameProactor || readingState == NotAllowed || isReadingAllowed {
          return OpenFailed(OpenedTwice);
        }
        signal := Some(newSignal);
        return OpenOk;
      }
      if hasHandle {
        if streams == ReadStreamFails {
          return OpenFailed(ReadStreamNotOpened);
        }
        if isReadingAllowed && streams == WriteStreamFails {
          return OpenFailed(WriteStreamNotOpened);
        }
      }
      hasWriteStream := hasHandle && isReadingAllowed;
      readingState := if !isReadingAllowed || !hasHandle then NotAllowed else NotStarted;
      signal := Some(newSignal);
      isOpened := true;
      refsCount := refsCount + 1;
      return OpenOk;
    }

    method CheckedDelete(removeRef: bool, cancelled: bool) returns (fate: Fate)
      modifies this
      ensures (View(), fate) == CheckedDeleted(old(View()), removeRef, cancelled)
    {
      isClosed := true;
      if idleTimeoutTimer >= 0 {
        idleTimeoutTimer := TIMER_CANCELED;
        if !cancelled {
          return Parked;
        }
      }
      if removeRef {
        refsCount := refsCount - 1;
      }
      if refsCount > 0 {
        return Alive;
      }
      return Finished;
    }

    method RemoveRef(cancelled: bool) returns (fate: Fate)
      modifies this
      ensures (View(), fate) == RefRemoved(old(View()), cancelled)
    {
      refsCount := refsCount - 1;
      if refsCount > 0 {
        return Alive;
      }
      fate := CheckedDelete(false, cancelled);
    }

    method Close(cancelled: bool) returns (fate: Fate)
      requires refsCount > 0
      modifies this
      ensures (View(), fate) == CheckedDeleted(old(View()), true, cancelled)
    {
      fate := CheckedDelete(true, cancelled);
    }

    /** `duplicated` says that the pool had a message block for the duplicate; without one it throws. */
    method SendToRemote(duplicated: bool, writeOk: bool, now: nat) returns (result: SendResult)
      modifies this
      ensures (View(), result) == SentToRemote(old(View()), duplicated, writeOk, now)
    {
      if isClosed {
        return Dropped;
      }
      if !duplicated {
        return NotDuplicated;
      }
      if !hasWriteStream {
        return NotWritable;
      }
      if !writeOk {
        return WriteFailed;
      }
      refsCount := refsCount + 1;
      UpdateIdleTimer(now);
      return Sent;
    }

    /** Only a block that was read for the tunnel resumes a read. */
    method OnMessageBlockSent(isTunnelMessage: bool, issue: Issue) returns (reaction: Reaction)
      modifies this
      ensures !isTunnelMessage ==> View() == old(View())
      ensures isTunnelMessage ==> View() == BlockSent(old(View()), issue)
      ensures reaction == SentReaction(old(View()), isTunnelMessage, issue)
    {
      if !isTunnelMessage {
        return Silent;
      }
      if !isClosed {
        reaction := InitMessageReading(issue);
        return;
      }
      return AsksToClose;
    }

    method InitMessageReading(issue: Issue) returns (reaction: Reaction)
      modifies this
      ensures View() == ReadInitiated(old(View()), issue)
      ensures reaction == InitReaction(old(View()), issue)
    {
      if Rank(readingState) < Rank(NotReading) {
        return Silent;
      }
      match issue
      case NoBlock => return Silent;
      case Refused => return AsksToClose;
      case Threw => return Throws;
      case Issued =>
        readingState := Reading;
        refsCount := refsCount + 1;
        return Silent;
    }

    method StartReading(issue: Issue) returns (reaction: Reaction)
      requires Rank(readingState) <= Rank(StoppingReading) && !isClosed
      modifies this
      ensures View() == ReadingStarted(old(View()), issue)
      ensures reaction == StartReaction(old(View()), issue)
    {
      if readingState == NotAllowed {
        return Silent;
      }
      readingState := NotReading;
      reaction := InitMessageReading(issue);
    }

    method StopReading()
      modifies this
      ensures View() == ReadingStopped(old(View()))
    {
      if Rank(readingState) > Rank(NotAllowed) {
        readingState := if readingState == Reading then StoppingReading else NotStarted;
      }
    }

    method CancelReadingState()
      modifies this
      ensures View() == ReadingCancelled(old(View()))
    {
      match readingState
      case StoppingReading => readingState := NotStarted;
      case Reading => readingState := NotReading;
      case _ =>
    }

    /** HandleReadStream up to the point where it drops its reference, for a read that brought data. A LocalException
        that comes out of passing the block on is caught and asks to close, whatever the reading state. */
    method HandleReadData(now: nat, stops: bool, delivery: Delivery, issue: Issue) returns (asksToClose: bool, threw: bool)
      modifies this
      ensures threw <==> delivery == DeliveryEscaped && !old(isClosed)
      ensures View() == if old(isClosed) || delivery == Delivered then BlockReceived(old(View()), now, stops, issue)
                        else BlockEscaped(old(View()), now, stops)
      ensures asksToClose <==> DataAsksToClose(old(View()), now, stops, delivery, issue)
    {
      CancelReadingState();
      if isClosed {
        return true, false;
      }
      if setupState != SetupFailed {
        if setupState == SetupPending {
          setupState := SetupCompleted;
        }
        UpdateIdleTimer(now);
      }
      if stops {
        StopReading();
      }
      match delivery
      case DeliveryEscaped => return false, true;
      case DeliveryCaught => return true, false;
      case Delivered =>
        var reaction := InitMessageReading(issue);
        return reaction != Silent, false;
    }

    /** HandleReadStream for a read that failed or met the end of the stream. */
    method HandleReadEnd(cancelled: bool) returns (asksToClose: bool, fate: Fate)
      requires refsCount > 0
      modifies this
      ensures asksToClose && (View(), fate) == ReadBroken(old(View()), cancelled)
    {
      CancelReadingState();
      asksToClose := true;
      fate := CheckedDelete(true, cancelled);
    }

    /** All of HandleReadStream: a read that brought data keeps its reference exactly when an exception escapes. */
    method HandleReadStream(broughtData: bool, now: nat, stops: bool, delivery: Delivery, issue: Issue, cancelled: bool)
      returns (asksToClose: bool, fate: Option<Fate>)
      requires refsCount > 0
      modifies this
      ensures !broughtData ==> asksToClose && fate.Some? && (View(), fate.value) == ReadBroken(old(View()), cancelled)
      ensures broughtData && !old(isClosed) && delivery == DeliveryEscaped ==>
                fate == None && View() == BlockEscaped(old(View()), now, stops)
      ensures broughtData && !old(isClosed) && delivery == DeliveryCaught ==>
                && asksToClose && fate.Some?
                && (View(), fate.value) == RefRemoved(BlockEscaped(old(View()), now, stops), cancelled)
      ensures broughtData && (old(isClosed) || delivery == Delivered) ==>
                && fate.Some?
                && (View(), fate.value) == RefRemoved(BlockReceived(old(View()), now, stops, issue), cancelled)
      ensures asksToClose <==> !broughtData || DataAsksToClose(old(View()), now, stops, delivery, issue)
    {
      if !broughtData {
        var deleted;
        asksToClose, deleted := HandleReadEnd(cancelled);
        return asksToClose, Some(deleted);
      }
      var threw;
      asksToClose, threw := HandleReadData(now, stops, delivery, issue);
      if threw {
        return asksToClose, None;
      }
      var dropped := RemoveRef(cancelled);
      return asksToClose, Some(dropped);
    }

    /** HandleWriteStream: the tunnel's signal tells the reader of the block, and unless that throws the reference of
        the write is dropped. */
    method HandleWriteStream(readerThrows: bool, cancelled: bool) returns (fate: Option<Fate>)
      modifies this
      ensures readerThrows ==> fate == None && View() == old(View())
      ensures !readerThrows ==> fate.Some? && (View(), fate.value) == RefRemoved(old(View()), cancelled)
    {
      if readerThrows {
        return None;
      }
      var dropped := RemoveRef(cancelled);
      return Some(dropped);
    }

    method HandleTimeOut(now: int, newTimer: nat) returns (result: TimeOut)
      modifies this
      ensures (View(), result) == TimedOut(old(View()), now, newTimer)
    {
      if idleTimeoutTimer < 0 {
        var fate := CheckedDelete(true, true);
        return TimeOutParked(fate);
      }
      if !(idleTimeoutUpdateTime < 0) {
        var idleTime := now - idleTimeoutUpdateTime;
        if idleTime < idleTimeoutInterval {
          idleTimeoutTimer := newTimer;
          return TimeOutRescheduled(idleTimeoutInterval - idleTime);
        }
      }
      idleTimeoutTimer := TIMER_EXPIRED;
      return TimeOutExpired;
    }

    method UpdateIdleTimer(time: nat)
      modifies this
      ensures View() == Touched(old(View()), time)
    {
      if idleTimeoutTimer < 0 {
        return;
      }
      idleTimeoutUpdateTime := time;
    }

    /** Says whether the tunnel is told that the setup is completed. */
    method OnSetupSuccess(isDefaultSetupImplementation: bool, newTimer: nat) returns (signalled: bool)
      requires setupState == SetupNotCompleted && idleTimeoutTimer == TIMER_NOT_SET && idleTimeoutUpdateTime == NEVER
      modifies this
      ensures View() == SetUp(old(View()), isDefaultSetupImplementation, newTimer)
      ensures signalled == isDefaultSetupImplementation
    {
      signalled := isDefaultSetupImplementation;
      setupState := if !isDefaultSetupImplementation then SetupPending else SetupCompleted;
      if idleTimeoutInterval != 0 {
        idleTimeoutTimer := newTimer;
      }
    }

    method OnSetupFail()
      requires setupState == SetupNotCompleted
      modifies this
      ensures View() == SetupCancelled(old(View()))
    {
      setupState := SetupFailed;
    }
  }
}
