// The idle timer of a connection with a clock: when it expires, and what it has seen by then.
module IdleTimer {
  import opened Connection

  /** `deadline` is when the scheduled timer fires, `seen` the activity it was scheduled for, `expired` whether it
      found the connection idle. */
  datatype Timed = Timed(c: Conn, now: nat, deadline: int, seen: int, expired: bool)

  /** What happens to the connection; `time` is when the data came or the write was issued, now or before. */
  datatype Event =
    | Tick(seconds: nat)
    | Start(issue: Issue)
    | Stop
    | Data(time: nat, stops: bool, issue: Issue) // a read brought data
    | Send(duplicated: bool, writeOk: bool, time: nat) // SendToRemote
    | TimerFires(newTimer: nat)

  /** A connection that reads and writes, when its setup has been completed or left pending. */
  function Started(interval: nat, now: nat, timer: nat, isDefault: bool): Timed {
    var c := OpenedBy(New(interval), true, true, true, StreamsOpen).0;
    Timed(SetUp(c, isDefault, timer), now, now + interval, now, false)
  }

  /** Timers are exact: they fire at their deadline, and the clock does not pass it before. */
  predicate Enabled(t: Timed, e: Event) {
    !t.expired &&
    match e
    case Tick(seconds) => t.now + seconds <= t.deadline
    case Start(_) => Rank(t.c.reading) <= Rank(StoppingReading)
    case Stop => true
    case Data(time, _, _) => time <= t.now && (t.c.reading.Reading? || t.c.reading.StoppingReading?)
    case Send(_, _, time) => time <= t.now
    case TimerFires(_) => t.now == t.deadline
  }

  function Apply(t: Timed, e: Event): Timed
    requires Enabled(t, e)
  {
    match e
    case Tick(seconds) => t.(now := t.now + seconds)
    case Start(issue) => t.(c := ReadingStarted(t.c, issue))
    case Stop => t.(c := ReadingStopped(t.c))
    case Data(time, stops, issue) => t.(c := BlockReceived(t.c, time, stops, issue))
    case Send(duplicated, writeOk, time) => t.(c := SentToRemote(t.c, duplicated, writeOk, time).0)
    case TimerFires(newTimer) =>
      var (c, result) := TimedOut(t.c, t.now, newTimer);
      match result
      case TimeOutRescheduled(sleep) => t.(c := c, deadline := t.now + sleep, seen := t.c.update)
      case _ => t.(c := c, expired := true)
  }

  ghost predicate Runs(t: Timed, events: seq<Event>)
    decreases |events|
  {
    events == [] || (Enabled(t, events[0]) && Runs(Apply(t, events[0]), events[1..]))
  }

  ghost function After(t: Timed, events: seq<Event>): Timed
    requires Runs(t, events)
    decreases |events|
  {
    if events == [] then t else After(Apply(t, events[0]), events[1..])
  }

  /** Activity: data that was received, or a write that was issued. */
  predicate IsActivity(e: Event) {
    e.Data? || (e.Send? && e.duplicated && e.writeOk)
  }

  function TimeOf(e: Event): nat {
    match e
    case Data(time, _, _) => time
    case Send(_, _, time) => time
    case _ => 0
  }

  /** The latest activity there was: the start of the timer, or the latest data received or write issued since. */
  function Latest(start: nat, events: seq<Event>): nat
    decreases |events|
  {
    if events == [] then start
    else Latest(Later(start, events[0]), events[1..])
  }

  function Later(latest: nat, e: Event): nat {
    if IsActivity(e) && TimeOf(e) > latest then TimeOf(e) else latest
  }

  lemma {:induction false} LatestIsTheMaximum(start: nat, events: seq<Event>)
    ensures Latest(start, events) >= start
    ensures forall e :: e in events && IsActivity(e) ==> TimeOf(e) <= Latest(start, events)
    ensures Latest(start, events) == start
            || exists e :: e in events && IsActivity(e) && TimeOf(e) == Latest(start, events)
    decreases |events|
  {
    if events != [] {
      LatestIsTheMaximum(Later(start, events[0]), events[1..]);
      assert events[0] in events;
      assert forall e :: e in events <==> e == events[0] || e in events[1..];
    }
  }

  /** What is stored: the activity that was recorded last, whenever it was done, or the start. */
  function Stored(t: Timed, start: nat): int {
    if t.c.update < 0 then start else t.c.update
  }

  ghost predicate Inv(t: Timed, start: nat, latest: nat) {
    && t.c.interval > 0 && Stored(t, start) <= latest <= t.now
    && start <= t.seen <= latest && t.deadline == t.seen + t.c.interval
    && (t.c.update < 0 ==> t.seen == start)
    && !t.c.closed && t.c.writable && !t.c.setup.SetupFailed?
    && (if t.expired then t.now == t.deadline && Stored(t, start) <= t.seen
        else t.c.timer >= 0 && t.now <= t.deadline)
  }

  /** A firing timer either expires or sleeps for a positive time, up to the stored activity plus the interval. */
  lemma ReschedulesToTheInterval(c: Conn, now: int, newTimer: nat)
    requires c.update <= now && c.timer >= 0
    ensures match TimedOut(c, now, newTimer).1
            case TimeOutRescheduled(sleep) => c.update >= 0 && sleep > 0 && now + sleep == c.update + c.interval
            case TimeOutExpired => c.update < 0 || now - c.update >= c.interval
            case TimeOutParked(_) => false
  {
  }

  lemma StepInv(t: Timed, start: nat, latest: nat, e: Event)
    requires Inv(t, start, latest) && Enabled(t, e)
    ensures Inv(Apply(t, e), start, Later(latest, e)) && Apply(t, e).c.interval == t.c.interval
  {
    if e.TimerFires? {
      ReschedulesToTheInterval(t.c, t.now, e.newTimer);
    }
  }

  lemma {:induction false} RunInv(t: Timed, start: nat, latest: nat, events: seq<Event>)
    requires Inv(t, start, latest) && Runs(t, events)
    ensures Inv(After(t, events), start, Latest(latest, events)) && After(t, events).c.interval == t.c.interval
    decreases |events|
  {
    hide Inv, Enabled, Apply, Later;
    if events != [] {
      StepInv(t, start, latest, events[0]);
      RunInv(Apply(t, events[0]), start, Later(latest, events[0]), events[1..]);
    }
  }

  /** In every run a connection expires at the latest when the interval has passed since its latest activity, and
      it was idle for the whole interval exactly when that activity is the one the timer was last scheduled for. */
  lemma ExpiresOnlyWhenIdle(interval: nat, start: nat, timer: nat, isDefault: bool, events: seq<Event>)
    requires interval > 0 && Runs(Started(interval, start, timer, isDefault), events)
    ensures var t, latest := After(Started(interval, start, timer, isDefault), events), Latest(start, events);
            t.expired ==>
              && t.now <= latest + interval
              && (t.now - latest >= interval <==> t.seen == latest)
  {
    RunInv(Started(interval, start, timer, isDefault), start, start, events);
  }

  /** What is stored is never younger than the interval when the connection expires, and it is just that old exactly
      when nothing older was stored since the timer was last scheduled for it. */
  lemma StoredActivityIsOld(interval: nat, start: nat, timer: nat, isDefault: bool, events: seq<Event>)
    requires interval > 0 && Runs(Started(interval, start, timer, isDefault), events)
    ensures var t := After(Started(interval, start, timer, isDefault), events);
            t.expired ==>
              && t.now - Stored(t, start) >= interval
              && (t.now - Stored(t, start) == interval <==> Stored(t, start) == t.seen)
  {
    RunInv(Started(interval, start, timer, isDefault), start, start, events);
  }

  // ---------------------------------------------------------------- activity that is recorded in order

  /** Activity is recorded in the order it was done. */
  ghost predicate InOrder(t: Timed, start: nat, events: seq<Event>)
    requires Runs(t, events)
    decreases |events|
  {
    events == [] ||
    ((IsActivity(events[0]) ==> TimeOf(events[0]) >= Stored(t, start)) && InOrder(Apply(t, events[0]), start, events[1..]))
  }

  lemma {:induction false} StoredIsLatest(t: Timed, start: nat, latest: nat, events: seq<Event>)
    requires Inv(t, start, latest) && Stored(t, start) == latest && Runs(t, events) && InOrder(t, start, events)
    ensures Stored(After(t, events), start) == Latest(latest, events)
    decreases |events|
  {
    if events != [] {
      StepInv(t, start, latest, events[0]);
      StoredIsLatest(Apply(t, events[0]), start, Later(latest, events[0]), events[1..]);
    }
  }

  /** The connection is closed for idleness neither before nor after the interval has passed since its latest activity. */
  predicate OnTime(t: Timed, latest: nat) {
    t.expired ==> t.now == latest + t.c.interval
  }

  /** With activity recorded in order the connection expires exactly when the interval has passed. */
  lemma ExpiresExactly(interval: nat, start: nat, timer: nat, isDefault: bool, events: seq<Event>)
    requires interval > 0 && Runs(Started(interval, start, timer, isDefault), events)
    requires InOrder(Started(interval, start, timer, isDefault), start, events)
    ensures OnTime(After(Started(interval, start, timer, isDefault), events), Latest(start, events))
  {
    RunInv(Started(interval, start, timer, isDefault), start, start, events);
    StoredIsLatest(Started(interval, start, timer, isDefault), start, start, events);
  }

  /** Some run from here ends with a connection that expired too early. */
  ghost predicate CanBeEarly(t: Timed, latest: nat) {
    exists events ::
      && Runs(t, events) && After(t, events).expired
      && After(t, events).now < Latest(latest, events) + After(t, events).c.interval
  }

  lemma EarlyNow(t: Timed, latest: nat)
    requires t.expired && t.now < latest + t.c.interval
    ensures CanBeEarly(t, latest)
  {
    assert Runs(t, []) && After(t, []) == t && Latest(latest, []) == latest;
  }

  lemma EarlyAfter(t: Timed, latest: nat, e: Event)
    requires Enabled(t, e) && CanBeEarly(Apply(t, e), Later(latest, e))
    ensures CanBeEarly(t, latest)
  {
    hide Enabled, Apply, Later;
    var next, latter := Apply(t, e), Later(latest, e);
    var events :|
      && Runs(next, events) && After(next, events).expired
      && After(next, events).now < Latest(latter, events) + After(next, events).c.interval;
    assert ([e] + events)[1..] == events;
    assert Runs(t, [e] + events) && After(t, [e] + events) == After(next, events);
    assert Latest(latest, [e] + events) == Latest(latter, events);
  }

  /** Data received at the deadline is recorded, then an older write over it: the timer expires at once. */
  lemma EarlyWhenOutOfOrder(interval: nat, start: nat, timer: nat, isDefault: bool)
    requires interval > 0
    ensures CanBeEarly(Started(interval, start, timer, isDefault), start)
  {
    var s, end := Started(interval, start, timer, isDefault), start + interval;
    var due := Apply(s, Tick(interval));
    var reading := Apply(due, Start(Issued));
    var active := Apply(reading, Event.Data(end, false, NoBlock));
    var overwritten := Apply(active, Send(true, true, start));
    EarlyNow(Apply(overwritten, TimerFires(timer)), end);
    EarlyAfter(overwritten, end, TimerFires(timer));
    EarlyAfter(active, end, Send(true, true, start));
    EarlyAfter(reading, start, Event.Data(end, false, NoBlock));
    EarlyAfter(due, start, Start(Issued));
    EarlyAfter(s, start, Tick(interval));
  }

  /** Every run expires on time iff activity is recorded in order. */
  lemma OrderIsNeeded(interval: nat, start: nat, timer: nat, isDefault: bool, ordered: bool)
    requires interval > 0
    ensures var s := Started(interval, start, timer, isDefault);
            (forall events :: Runs(s, events) && (ordered ==> InOrder(s, start, events))
               ==> OnTime(After(s, events), Latest(start, events)))
            <==> ordered
  {
    var s := Started(interval, start, timer, isDefault);
    if ordered {
      forall events | Runs(s, events) && InOrder(s, start, events)
        ensures OnTime(After(s, events), Latest(start, events))
      {
        ExpiresExactly(interval, start, timer, isDefault, events);
      }
    } else {
      EarlyWhenOutOfOrder(interval, start, timer, isDefault);
      var events :|
        && Runs(s, events) && After(s, events).expired
        && After(s, events).now < Latest(start, events) + After(s, events).c.interval;
      assert !OnTime(After(s, events), Latest(start, events));
    }
  }

  ghost predicate Late(t: Timed, start: nat) {
    t.expired && t.now > Stored(t, start) + t.c.interval
  }

  ghost predicate Reaches(t: Timed, end: Timed) {
    exists events :: Runs(t, events) && After(t, events) == end
  }

  lemma Before(t: Timed, e: Event, next: Timed, end: Timed)
    requires Enabled(t, e) && Apply(t, e) == next
    requires next == end || Reaches(next, end)
    ensures Reaches(t, end)
  {
    var events :| Runs(next, events) && After(next, events) == end && (next == end ==> events == []);
    assert ([e] + events)[1..] == events;
    assert Runs(t, [e] + events) && After(t, [e] + events) == end;
  }

  /** The stored activity may also be older than the interval: at 30 the timer saw the data of 20, and then the write
      of 5 was recorded. */
  lemma LateWhenOutOfOrder()
    ensures exists events :: Runs(Started(30, 0, 1, true), events) && Late(After(Started(30, 0, 1, true), events), 0)
  {
    var s := Started(30, 0, 1, true);
    var due := Apply(Apply(Apply(Apply(s, Start(Issued)), Tick(20)), Event.Data(20, false, NoBlock)), Tick(10));
    var end := LateAtTheEnd(due);
    BeforeTheTimer(s, end);
  }

  /** The timer has just seen the data of 20, and an older write is recorded. */
  lemma LateAtTheEnd(due: Timed) returns (end: Timed)
    requires due.now == due.deadline == 30 && !due.expired && due.c.interval == 30 && due.c.update == 20
    requires due.c.timer >= 0 && !due.c.closed && due.c.writable
    ensures Late(end, 0) && Reaches(due, end)
  {
    var again := Apply(due, TimerFires(2));
    var back := Apply(again, Send(true, true, 5));
    var late := Apply(back, Tick(20));
    end := Apply(late, TimerFires(3));
    Before(late, TimerFires(3), end, end);
    Before(back, Tick(20), late, end);
    Before(again, Send(true, true, 5), back, end);
    Before(due, TimerFires(2), again, end);
  }

  lemma BeforeTheTimer(s: Timed, end: Timed)
    requires s == Started(30, 0, 1, true)
    requires Reaches(Apply(Apply(Apply(Apply(s, Start(Issued)), Tick(20)), Event.Data(20, false, NoBlock)), Tick(10)), end)
    ensures Reaches(s, end)
  {
    hide Reaches;
    var reading := Apply(s, Start(Issued));
    var later := Apply(reading, Tick(20));
    var recorded := Apply(later, Event.Data(20, false, NoBlock));
    Before(recorded, Tick(10), Apply(recorded, Tick(10)), end);
    Before(later, Event.Data(20, false, NoBlock), recorded, end);
    Before(reading, Tick(20), later, end);
    Before(s, Start(Issued), reading, end);
  }

  // ---------------------------------------------------------------- what the object records

  /** A read that brings data is recorded exactly while the timer is set, unless the connection is closed or its setup
      failed; with the time the data came. */
  lemma DataIsRecorded(c: Conn, time: nat, stops: bool, issue: Issue)
    ensures BlockReceived(c, time, stops, issue).update ==
            if c.timer >= 0 && !c.closed && !c.setup.SetupFailed? then time else c.update
    ensures !c.closed ==> BlockEscaped(c, time, stops).update == BlockReceived(c, time, stops, issue).update
  {
  }

  /** SendToRemote is recorded exactly while the timer is set and if the write was issued. */
  lemma SendIsRecorded(c: Conn, duplicated: bool, writeOk: bool, time: nat)
    ensures SentToRemote(c, duplicated, writeOk, time).0.update ==
            if c.timer >= 0 && !c.closed && c.writable && duplicated && writeOk then time else c.update
  {
  }
}
