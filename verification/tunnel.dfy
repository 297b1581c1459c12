// A tunnel's four connection pointers: which connections it waits for when it is
// destroyed, and where the signals between its two sides lead.
module Tunnels {
  import opened Wrappers
  import opened Connection
  import Runs = ConnectionRuns

  /** The connections of one side, by instance id; one connection may serve both directions. */
  datatype Side = Side(read: nat, write: nat)

  function Both(s: Side): seq<nat> {
    if s.read == s.write then [s.read] else [s.read, s.write]
  }

  function Connections(source: Side, destination: Side): set<nat> {
    {source.read, source.write, destination.read, destination.write}
  }

  predicate Apart(source: Side, destination: Side) {
    source.read != destination.read && source.read != destination.write &&
    source.write != destination.read && source.write != destination.write
  }

  /** Those whose setup is still to be done, in the order they are opened. */
  function ToSetUp(connections: seq<nat>, setUp: set<nat>): seq<nat> {
    if connections == [] then []
    else (if connections[0] in setUp then [] else [connections[0]]) + ToSetUp(connections[1..], setUp)
  }

  class Tunnel {
    const source: Side
    const destination: Side
    var connectionsToSetup: seq<nat>
    var connectionsToClose: nat
    var closedConnections: nat

    /** No connection is set up before it was opened here. If one of them cannot be opened there is no tunnel. */
    constructor (source: Side, destination: Side)
      ensures this.source == source && this.destination == destination && closedConnections == 0
      ensures connectionsToSetup == Both(source) + Both(destination)
      ensures connectionsToClose == |connectionsToSetup|
    {
      this.source := source;
      this.destination := destination;
      connectionsToSetup := [];
      connectionsToClose := 0;
      closedConnections := 0;
      new;
      var _ := Init({}, None);
      NothingSetUp(Both(source) + Both(destination));
    }

    /** Opens the connections one by one, up to the one that throws; `setUp` are those whose setup is completed. */
    method Init(setUp: set<nat>, throws: Option<nat>) returns (threw: bool)
      modifies this
      ensures threw <==> throws.Some? && throws.value in Both(source) + Both(destination)
      ensures threw ==> connectionsToSetup == old(connectionsToSetup) && connectionsToClose == old(connectionsToClose)
      ensures !threw ==> connectionsToSetup == ToSetUp(Both(source) + Both(destination), setUp)
      ensures !threw ==> connectionsToClose == old(connectionsToClose) + |connectionsToSetup|
      ensures closedConnections == old(closedConnections)
    {
      hide ToSetUp;
      ToSetUpOfSide(source, setUp);
      ToSetUpOfSide(destination, setUp);
      ToSetUpConcat(Both(source), Both(destination), setUp);
      var toSetup := [];
      if source.read == source.write {
        if throws == Some(source.read) { return true; }
        if source.read !in setUp { toSetup := toSetup + [source.read]; }
      } else {
        if throws == Some(source.read) { return true; }
        if source.read !in setUp { toSetup := toSetup + [source.read]; }
        if throws == Some(source.write) { return true; }
        if source.write !in setUp { toSetup := toSetup + [source.write]; }
      }
      assert toSetup == ToSetUp(Both(source), setUp);
      if destination.read == destination.write {
        if throws == Some(destination.read) { return true; }
        if destination.read !in setUp { toSetup := toSetup + [destination.read]; }
      } else {
        if throws == Some(destination.read) { return true; }
        if destination.read !in setUp { toSetup := toSetup + [destination.read]; }
        if throws == Some(destination.write) { return true; }
        if destination.write !in setUp { toSetup := toSetup + [destination.write]; }
      }
      connectionsToSetup := toSetup;
      connectionsToClose := connectionsToClose + |connectionsToSetup|;
      return false;
    }

    method OnConnectionClosed() returns (wakesDestructor: bool)
      modifies this
      ensures closedConnections == old(closedConnections) + 1
      ensures wakesDestructor <==> closedConnections >= connectionsToClose
      ensures connectionsToSetup == old(connectionsToSetup) && connectionsToClose == old(connectionsToClose)
    {
      closedConnections := closedConnections + 1;
      wakesDestructor := closedConnections >= connectionsToClose;
    }

    /** The connections in the order the destructor closes them; then it waits, through `signals` notifications, and
        returns exactly when the count is reached. */
    method Destroy(signals: nat) returns (closed: seq<nat>, returned: bool)
      modifies this
      ensures closed == Both(source) + Both(destination)
      ensures returned <==> old(closedConnections) + signals >= connectionsToClose
      ensures connectionsToSetup == old(connectionsToSetup) && connectionsToClose == old(connectionsToClose)
    {
      closed := [source.read];
      if source.read != source.write {
        closed := closed + [source.write];
      }
      closed := closed + [destination.read];
      if destination.read != destination.write {
        closed := closed + [destination.write];
      }
      var left := signals;
      while closedConnections < connectionsToClose
        invariant 0 <= left <= signals && closedConnections == old(closedConnections) + (signals - left)
        invariant connectionsToSetup == old(connectionsToSetup) && connectionsToClose == old(connectionsToClose)
        decreases left
      {
        if left == 0 {
          return closed, false;
        }
        var _ := OnConnectionClosed();
        left := left - 1;
      }
      return closed, true;
    }
  }

  lemma {:induction false} NothingSetUp(s: seq<nat>)
    ensures ToSetUp(s, {}) == s
  {
    if s != [] {
      NothingSetUp(s[1..]);
    }
  }

  lemma ToSetUpOfSide(s: Side, setUp: set<nat>)
    ensures ToSetUp(Both(s), setUp) ==
            (if s.read in setUp then [] else [s.read]) +
            (if s.read == s.write || s.write in setUp then [] else [s.write])
  {
    if s.read != s.write {
      assert [s.read, s.write][1..] == [s.write];
      assert ToSetUp([s.write], setUp) == if s.write in setUp then [] else [s.write];
    }
  }

  lemma {:induction false} ToSetUpConcat(a: seq<nat>, b: seq<nat>, setUp: set<nat>)
    ensures ToSetUp(a + b, setUp) == ToSetUp(a, setUp) + ToSetUp(b, setUp)
  {
    if a == [] {
      assert a + b == b;
    } else {
      assert (a + b)[1..] == a[1..] + b;
      ToSetUpConcat(a[1..], b, setUp);
    }
  }

  predicate NoRepeats(s: seq<nat>) {
    forall i, j :: 0 <= i < j < |s| ==> s[i] != s[j]
  }

  function Elements(s: seq<nat>): set<nat> {
    set x | x in s
  }

  lemma {:induction false} SizeOfElements(s: seq<nat>)
    requires NoRepeats(s)
    ensures |Elements(s)| == |s|
  {
    if s != [] {
      SizeOfElements(s[1..]);
      assert Elements(s) == {s[0]} + Elements(s[1..]);
    }
  }

  lemma OneInFront(x: nat, rest: seq<nat>)
    requires NoRepeats(rest) && x !in rest
    ensures NoRepeats([x] + rest) && NoRepeats([] + rest)
  {
    assert forall i :: 0 <= i < |rest| ==> rest[i] != x;
  }

  lemma {:induction false} ToSetUpIsTheRest(s: seq<nat>, setUp: set<nat>)
    requires NoRepeats(s)
    ensures NoRepeats(ToSetUp(s, setUp)) && Elements(ToSetUp(s, setUp)) == Elements(s) - setUp
  {
    if s != [] {
      ToSetUpIsTheRest(s[1..], setUp);
      var rest := ToSetUp(s[1..], setUp);
      assert forall x :: x in rest <==> x in Elements(s[1..]) - setUp;
      assert Elements(s) == {s[0]} + Elements(s[1..]);
      assert forall x :: x in ToSetUp(s, setUp) <==> x in rest || (x == s[0] && x !in setUp);
      assert s[0] !in rest;
      assert NoRepeats(ToSetUp(s, setUp)) by { OneInFront(s[0], rest); }
    }
  }

  /** The destructor closes every connection once. */
  lemma EachIsClosedOnce(source: Side, destination: Side)
    requires Apart(source, destination)
    ensures NoRepeats(Both(source) + Both(destination))
    ensures Elements(Both(source) + Both(destination)) == Connections(source, destination)
    ensures 2 <= |Connections(source, destination)| <= 4
  {
    var all := Both(source) + Both(destination);
    SizeOfElements(all);
    assert forall x :: x in Connections(source, destination) <==> x in all;
    assert Elements(all) == Connections(source, destination);
  }

  /** The number of connections the destructor waits for. */
  function ToClose(source: Side, destination: Side, setUp: set<nat>): nat {
    |ToSetUp(Both(source) + Both(destination), setUp)|
  }

  lemma ToCloseCountsTheRest(source: Side, destination: Side, setUp: set<nat>)
    requires Apart(source, destination)
    ensures ToClose(source, destination, setUp) == |Connections(source, destination) - setUp|
  {
    var all := Both(source) + Both(destination);
    EachIsClosedOnce(source, destination);
    ToSetUpIsTheRest(all, setUp);
    SizeOfElements(ToSetUp(all, setUp));
  }

  // ---------------------------------------------------------------- the tunnel and its connections

  /** A tunnel, the connections it was constructed with, and its destructor. */
  datatype System = System(
    source: Side,
    destination: Side,
    connections: map<nat, Runs.Sys>,
    toClose: nat,
    closed: nat,
    destroying: bool,
    pending: seq<nat>, // connections the destructor has not closed yet
    returned: bool) // the wait for the connections has ended

  datatype Event =
    | OfConnection(connection: nat, event: Runs.Event)
    | Destroy
    | CloseNext
    | Wait

  function Ids(source: Side, destination: Side): seq<nat> {
    Both(source) + Both(destination)
  }

  function Opened(interval: nat, readable: bool): Runs.Sys {
    Runs.Apply(Runs.Fresh(interval), Runs.Open(readable, true, true, StreamsOpen))
  }

  /** A tunnel whose constructor has opened its connections, each with an idle timeout of its own. */
  function Constructed(source: Side, destination: Side, interval: nat -> nat): System {
    var ids := Ids(source, destination);
    System(source, destination,
           map c | c in ids :: Opened(interval(c), c == source.read || c == destination.read),
           ToClose(source, destination, {}), 0, false, [], false)
  }

  /** With `atomic`, CheckedDelete takes its decrement and its test in one step. Only the destructor closes. It may go
      on here while a connection that it closed is still about to test: more runs than there are, and no harm. */
  predicate Enabled(t: System, e: Event, atomic: bool) {
    match e
    case OfConnection(c, event) =>
      && c in t.connections && Runs.Enabled(t.connections[c], event) && !event.Close? && !event.Open?
      && (atomic && t.connections[c].testing ==> event.Test?)
    case Destroy => !t.destroying
    case CloseNext =>
      && t.pending != [] && t.pending[0] in t.connections && Runs.Enabled(t.connections[t.pending[0]], Runs.Close)
    case Wait => t.destroying && t.pending == []
  }

  /** A connection takes a step; its OnConnectionClosed signals are counted by the tunnel. */
  function Stepped(t: System, c: nat, e: Runs.Event): System
    requires c in t.connections && Runs.Enabled(t.connections[c], e)
  {
    var next := Runs.Apply(t.connections[c], e);
    t.(connections := t.connections[c := next],
       closed := t.closed + if next.notified > t.connections[c].notified then 1 else 0)
  }

  function Apply(t: System, e: Event, atomic: bool): System
    requires Enabled(t, e, atomic)
  {
    match e
    case OfConnection(c, event) => Stepped(t, c, event)
    case Destroy => t.(destroying := true, pending := Ids(t.source, t.destination))
    case CloseNext => Stepped(t.(pending := t.pending[1..]), t.pending[0], Runs.Close)
    case Wait => t.(returned := t.returned || t.closed >= t.toClose)
  }

  ghost predicate RunsOn(t: System, events: seq<Event>, atomic: bool)
    decreases |events|
  {
    events == [] || (Enabled(t, events[0], atomic) && RunsOn(Apply(t, events[0], atomic), events[1..], atomic))
  }

  ghost function After(t: System, events: seq<Event>, atomic: bool): System
    requires RunsOn(t, events, atomic)
    decreases |events|
  {
    if events == [] then t else After(Apply(t, events[0], atomic), events[1..], atomic)
  }

  /** How often the connections have signalled OnConnectionClosed, all together. */
  function Signals(ids: seq<nat>, connections: map<nat, Runs.Sys>): nat
    requires forall c :: c in ids ==> c in connections
  {
    if ids == [] then 0 else connections[ids[0]].notified + Signals(ids[1..], connections)
  }

  lemma {:induction false} SignalsOfOthers(ids: seq<nat>, connections: map<nat, Runs.Sys>, c: nat, next: Runs.Sys)
    requires (forall i :: i in ids ==> i in connections) && c !in ids
    ensures Signals(ids, connections[c := next]) == Signals(ids, connections)
  {
    if ids != [] {
      SignalsOfOthers(ids[1..], connections, c, next);
    }
  }

  lemma {:induction false} SignalsAfter(ids: seq<nat>, connections: map<nat, Runs.Sys>, c: nat, next: Runs.Sys)
    requires (forall i :: i in ids ==> i in connections) && NoRepeats(ids) && c in ids
    ensures Signals(ids, connections[c := next]) == Signals(ids, connections) + next.notified - connections[c].notified
  {
    if ids[0] == c {
      SignalsOfOthers(ids[1..], connections, c, next);
    } else {
      SignalsAfter(ids[1..], connections, c, next);
    }
  }

  ghost predicate Inv(t: System, atomic: bool) {
    && Apart(t.source, t.destination) && t.toClose == |Ids(t.source, t.destination)|
    && AllConnected(Ids(t.source, t.destination), t.connections, atomic)
    && t.closed == Signals(Ids(t.source, t.destination), t.connections)
    && Closing(Ids(t.source, t.destination), t)
    && (t.returned && atomic ==> Everyone(t))
  }

  ghost predicate AllConnected(ids: seq<nat>, connections: map<nat, Runs.Sys>, atomic: bool) {
    && (forall c :: c in connections <==> c in ids)
    && (forall c :: c in ids ==> Connected(connections[c], atomic))
  }

  /** The references of Open that are left are those the destructor has still to drop. */
  ghost predicate Closing(ids: seq<nat>, t: System) {
    && (forall c :: c in ids ==> c in t.connections)
    && (forall c :: c in t.pending ==> c in ids) && NoRepeats(t.pending)
    && (t.destroying ==> forall c :: c in ids ==> (t.connections[c].openRef <==> c in t.pending))
    && (!t.destroying ==> t.pending == [] && !t.returned && forall c :: c in ids ==> t.connections[c].openRef)
  }

  /** A connection that was opened, and in which nothing crosses if CheckedDelete is atomic. */
  ghost predicate Connected(s: Runs.Sys, atomic: bool) {
    Runs.Inv(s) && s.c.hasProactor && (atomic ==> !s.crossed)
  }

  /** Every connection has signalled. */
  ghost predicate Everyone(t: System) {
    forall c :: c in t.connections ==> t.connections[c].notified >= 1
  }

  lemma ConnectedStep(s: Runs.Sys, e: Runs.Event, atomic: bool)
    requires Connected(s, atomic) && Runs.Enabled(s, e) && !e.Open? && (atomic && s.testing ==> e.Test?)
    ensures Connected(Runs.Apply(s, e), atomic)
    ensures s.notified <= Runs.Apply(s, e).notified <= s.notified + 1
    ensures e.Close? ==> s.openRef && !Runs.Apply(s, e).openRef
    ensures !e.Close? ==> Runs.Apply(s, e).openRef == s.openRef
  {
    Runs.StepInv(s, e);
    hide Runs.Inv;
  }

  lemma ConstructedInv(source: Side, destination: Side, interval: nat -> nat, atomic: bool)
    requires Apart(source, destination)
    ensures Inv(Constructed(source, destination, interval), atomic)
  {
    var t, ids := Constructed(source, destination, interval), Ids(source, destination);
    NothingSetUp(ids);
    forall c | c in ids
      ensures Connected(t.connections[c], atomic) && t.connections[c].openRef && t.connections[c].notified == 0
    {
      OpenedIsConnected(interval(c), c == source.read || c == destination.read, atomic);
    }
    NoSignals(ids, t.connections);
  }

  lemma OpenedIsConnected(interval: nat, readable: bool, atomic: bool)
    ensures var s := Opened(interval, readable);
            Connected(s, atomic) && s.openRef && s.notified == 0
  {
    Runs.StepInv(Runs.Fresh(interval), Runs.Open(readable, true, true, StreamsOpen));
  }

  lemma {:induction false} NoSignals(ids: seq<nat>, connections: map<nat, Runs.Sys>)
    requires forall c :: c in ids ==> c in connections && connections[c].notified == 0
    ensures Signals(ids, connections) == 0
  {
    if ids != [] {
      NoSignals(ids[1..], connections);
    }
  }

  lemma StillConnected(ids: seq<nat>, connections: map<nat, Runs.Sys>, atomic: bool, c: nat, next: Runs.Sys)
    requires AllConnected(ids, connections, atomic) && c in ids && Connected(next, atomic)
    ensures AllConnected(ids, connections[c := next], atomic)
  {
    hide Connected;
  }

  lemma SteppedConnected(t: System, c: nat, e: Runs.Event, atomic: bool)
    requires Inv(t, atomic) && c in t.connections && Runs.Enabled(t.connections[c], e) && !e.Open?
    requires atomic && t.connections[c].testing ==> e.Test?
    ensures var ids, next := Ids(t.source, t.destination), Runs.Apply(t.connections[c], e);
            && AllConnected(ids, t.connections[c := next], atomic)
            && Stepped(t, c, e).closed == Signals(ids, t.connections[c := next])
            && (Everyone(t) ==> Everyone(Stepped(t, c, e)))
  {
    hide Connected, Signals, Ids, Closing, Runs.Apply, Runs.Enabled;
    var ids, next := Ids(t.source, t.destination), Runs.Apply(t.connections[c], e);
    ConnectedStep(t.connections[c], e, atomic);
    StillConnected(ids, t.connections, atomic, c, next);
    IdsAreApart(t.source, t.destination);
    SignalsAfter(ids, t.connections, c, next);
  }

  lemma IdsAreApart(source: Side, destination: Side)
    requires Apart(source, destination)
    ensures NoRepeats(Ids(source, destination))
  {
    EachIsClosedOnce(source, destination);
  }

  lemma SteppedClosing(t: System, c: nat, e: Runs.Event, atomic: bool)
    requires Inv(t, atomic) && c in t.connections && Runs.Enabled(t.connections[c], e) && !e.Open? && !e.Close?
    requires atomic && t.connections[c].testing ==> e.Test?
    ensures Closing(Ids(t.source, t.destination), Stepped(t, c, e))
  {
    hide Connected, Signals, Ids, Runs.Apply, Runs.Enabled;
    ConnectedStep(t.connections[c], e, atomic);
  }

  lemma ClosedClosing(t: System, atomic: bool)
    requires Inv(t, atomic) && Enabled(t, CloseNext, atomic)
    ensures Closing(Ids(t.source, t.destination), Apply(t, CloseNext, atomic))
  {
    hide Connected, Signals, Ids, Runs.Apply, Runs.Enabled;
    CloseNeedsTheLock(t.connections[t.pending[0]]);
    ConnectedStep(t.connections[t.pending[0]], Runs.Close, atomic);
    FirstOfList(t.pending);
  }

  lemma CloseNeedsTheLock(s: Runs.Sys)
    requires Runs.Enabled(s, Runs.Close)
    ensures !s.testing
  {
  }

  lemma FirstOfList(s: seq<nat>)
    requires s != [] && NoRepeats(s)
    ensures NoRepeats(s[1..]) && forall c :: c in s[1..] <==> c in s && c != s[0]
  {
    forall c | c in s[1..]
      ensures c in s && c != s[0]
    {
      var i :| 0 <= i < |s[1..]| && s[1..][i] == c;
      assert s[i + 1] == c;
    }
  }

  lemma ConnectionStepInv(t: System, e: Event, atomic: bool)
    requires Inv(t, atomic) && Enabled(t, e, atomic) && e.OfConnection?
    ensures Inv(Apply(t, e, atomic), atomic)
  {
    hide AllConnected, Closing, Signals, Ids, Everyone, Runs.Apply, Runs.Enabled;
    SteppedConnected(t, e.connection, e.event, atomic);
    SteppedClosing(t, e.connection, e.event, atomic);
  }

  lemma CloseStepInv(t: System, atomic: bool)
    requires Inv(t, atomic) && Enabled(t, CloseNext, atomic)
    ensures Inv(Apply(t, CloseNext, atomic), atomic)
  {
    hide AllConnected, Closing, Signals, Ids, Everyone, Runs.Apply, Runs.Enabled;
    var c := t.pending[0];
    CloseNeedsTheLock(t.connections[c]);
    SteppedConnected(t, c, Runs.Close, atomic);
    ClosedClosing(t, atomic);
    SameEveryone(Stepped(t, c, Runs.Close), Apply(t, CloseNext, atomic));
  }

  lemma DestructorStepInv(t: System, e: Event, atomic: bool)
    requires Inv(t, atomic) && Enabled(t, e, atomic) && (e.Destroy? || e.Wait?)
    ensures Inv(Apply(t, e, atomic), atomic)
  {
    hide AllConnected, Signals, Connected;
    if e.Destroy? {
      IdsAreApart(t.source, t.destination);
    } else if atomic {
      CountIsExact(t);
    }
    hide Ids;
  }

  lemma StepInv(t: System, e: Event, atomic: bool)
    requires Inv(t, atomic) && Enabled(t, e, atomic)
    ensures Inv(Apply(t, e, atomic), atomic)
  {
    hide Inv, Apply;
    match e
    case OfConnection(_, _) => ConnectionStepInv(t, e, atomic);
    case CloseNext => CloseStepInv(t, atomic);
    case Destroy | Wait => DestructorStepInv(t, e, atomic);
  }

  lemma SameEveryone(t: System, u: System)
    requires t.connections == u.connections
    ensures Everyone(t) == Everyone(u)
  {
  }

  lemma {:induction false} SignalsBound(ids: seq<nat>, connections: map<nat, Runs.Sys>)
    requires forall c :: c in ids ==> c in connections && connections[c].notified <= 1
    ensures Signals(ids, connections) <= |ids|
    ensures Signals(ids, connections) == |ids| <==> forall c :: c in ids ==> connections[c].notified == 1
  {
    if ids != [] {
      SignalsBound(ids[1..], connections);
      assert forall c :: c in ids <==> c == ids[0] || c in ids[1..];
    }
  }

  lemma SignalsOnce(s: Runs.Sys)
    requires Connected(s, true)
    ensures s.notified <= 1
  {
  }

  /** With an atomic CheckedDelete the count never exceeds the connections, and reaches them when all have signalled. */
  lemma CountIsExact(t: System)
    requires Inv(t, true)
    ensures t.closed <= t.toClose && (t.closed == t.toClose <==> Everyone(t))
  {
    var ids := Ids(t.source, t.destination);
    forall c | c in ids
      ensures t.connections[c].notified <= 1
    {
      SignalsOnce(t.connections[c]);
    }
    SignalsBound(ids, t.connections);
  }

  lemma {:induction false} RunInv(t: System, events: seq<Event>, atomic: bool)
    requires Inv(t, atomic) && RunsOn(t, events, atomic)
    ensures Inv(After(t, events, atomic), atomic)
    decreases |events|
  {
    hide Inv, Apply, Enabled;
    if events != [] {
      StepInv(t, events[0], atomic);
      RunInv(Apply(t, events[0], atomic), events[1..], atomic);
    }
  }

  /** The asserts of the accounting, and the promise of the destructor. */
  ghost predicate Accounts(t: System) {
    && t.closed <= t.toClose
    && (t.closed >= t.toClose <==> Everyone(t))
    && (t.returned ==> Everyone(t))
  }

  lemma InvAccounts(t: System)
    requires Inv(t, true)
    ensures Accounts(t)
    ensures Enabled(t, Wait, true) ==> (Apply(t, Wait, true).returned <==> Everyone(t))
  {
    hide Signals, Ids, AllConnected, Closing, Everyone;
    CountIsExact(t);
    SameEveryone(t, if Enabled(t, Wait, true) then Apply(t, Wait, true) else t);
  }

  /** From construction to destruction, with all that happens to the connections: with an atomic CheckedDelete the
      count never exceeds the connections, the wait ends exactly when every one has signalled, and the destructor
      returns only then. */
  lemma DestructorWaitsForAll(source: Side, destination: Side, interval: nat -> nat, events: seq<Event>)
    requires Apart(source, destination) && RunsOn(Constructed(source, destination, interval), events, true)
    ensures var t := After(Constructed(source, destination, interval), events, true);
            && Accounts(t)
            && (Enabled(t, Wait, true) ==> (Apply(t, Wait, true).returned <==> Everyone(t)))
  {
    ConstructedInv(source, destination, interval, true);
    RunInv(Constructed(source, destination, interval), events, true);
    var t := After(Constructed(source, destination, interval), events, true);
    hide RunsOn, After, Constructed;
    InvAccounts(t);
  }

  // ---------------------------------------------------------------- without it

  /** How the accounting can fail: more signals than connections, or a wait that ends before all have signalled. */
  datatype Flaw = CountsTooMany | ReturnsEarly

  ghost predicate Shows(t: System, flaw: Flaw) {
    match flaw
    case CountsTooMany => t.closed > t.toClose
    case ReturnsEarly => t.returned && !Everyone(t)
  }

  /** Some run from here, with decrement and test apart, shows the flaw. */
  ghost predicate CanShow(t: System, flaw: Flaw) {
    exists events :: RunsOn(t, events, false) && Shows(After(t, events, false), flaw)
  }

  lemma ShowsNow(t: System, flaw: Flaw)
    requires Shows(t, flaw)
    ensures CanShow(t, flaw)
  {
    assert RunsOn(t, [], false) && After(t, [], false) == t;
  }

  lemma ShowsAfter(t: System, e: Event, flaw: Flaw)
    requires Enabled(t, e, false) && CanShow(Apply(t, e, false), flaw)
    ensures CanShow(t, flaw)
  {
    hide Enabled, Apply, Shows;
    var next := Apply(t, e, false);
    var events :| RunsOn(next, events, false) && Shows(After(next, events, false), flaw);
    assert ([e] + events)[1..] == events;
    assert RunsOn(t, [e] + events, false) && After(t, [e] + events, false) == After(next, events, false);
  }

  ghost predicate Idle(s: Runs.Sys) {
    exists interval, readable :: s == Opened(interval, readable)
  }

  lemma OpenedIsIdle(interval: nat, readable: bool)
    ensures Idle(Opened(interval, readable))
  {
  }

  lemma IdleCloses(s: Runs.Sys)
    requires Idle(s)
    ensures Runs.Enabled(s, Runs.Close)
    ensures var closed := Runs.Apply(s, Runs.Close);
            && Runs.Enabled(closed, Runs.Test) && closed.notified == s.notified == 0
            && Runs.Apply(closed, Runs.Test).notified == 1
  {
  }

  /** A connection with a read under way, and what Close makes of it: no signal before that read has come back. */
  ghost predicate Busy(s: Runs.Sys) {
    !s.testing && s.openRef && s.notified == 0 && s.c.refs >= 2 && s.c.timer < 0
  }

  lemma BusyStays(s: Runs.Sys)
    requires Busy(s)
    ensures Runs.Enabled(s, Runs.Close)
    ensures var closed := Runs.Apply(s, Runs.Close);
            && Runs.Enabled(closed, Runs.Test) && closed.notified == 0
            && Runs.Apply(closed, Runs.Test).notified == 0
  {
  }

  lemma StartedIsBusy(interval: nat)
    ensures var s := Opened(interval, true);
            && Runs.Enabled(s, Runs.Start(Issued)) && s.notified == 0
            && Busy(Runs.Apply(s, Runs.Start(Issued))) && Runs.Apply(s, Runs.Start(Issued)).notified == 0
  {
  }

  /** A read came back and was the last; its handler has still to drop its reference. */
  ghost predicate Read(s: Runs.Sys) {
    && !s.testing && s.openRef && s.notified == 0 && !s.zeroed && s.readTails == 1
    && s.c.refs == 2 && s.c.timer < 0
  }

  lemma StartedReads(interval: nat)
    ensures var s := Opened(interval, true);
            && Runs.Enabled(s, Runs.Start(Issued)) && s.notified == 0
            && var started := Runs.Apply(s, Runs.Start(Issued));
            && Runs.Enabled(started, Runs.ReadData(0, true, Issued)) && started.notified == 0
            && Read(Runs.Apply(started, Runs.ReadData(0, true, Issued)))
  {
  }

  /** Close, and a read that is released between its decrement and its test: both signal. */
  lemma SignalsTwice(s: Runs.Sys)
    requires Read(s)
    ensures Runs.Enabled(s, Runs.Close)
    ensures var closed := Runs.Apply(s, Runs.Close);
            && closed.notified == 0 && Runs.Enabled(closed, Runs.ReadRelease)
            && var released := Runs.Apply(closed, Runs.ReadRelease);
            && released.notified == 0 && Runs.Enabled(released, Runs.Test)
            && var tested := Runs.Apply(released, Runs.Test);
            && tested.notified == 1 && Runs.Enabled(tested, Runs.Zeroed)
            && var deleted := Runs.Apply(tested, Runs.Zeroed);
            && deleted.notified == 1 && Runs.Enabled(deleted, Runs.Test)
            && Runs.Apply(deleted, Runs.Test).notified == 2
  {
  }

  /** The destructor closes its next connection, which takes its test. */
  function ClosedNext(t: System): System
    requires Enabled(t, CloseNext, false)
    requires Runs.Enabled(Runs.Apply(t.connections[t.pending[0]], Runs.Close), Runs.Test)
  {
    Apply(Apply(t, CloseNext, false), OfConnection(t.pending[0], Runs.Test), false)
  }

  lemma ShowsAfterClosing(t: System, flaw: Flaw)
    requires Enabled(t, CloseNext, false)
    requires Runs.Enabled(Runs.Apply(t.connections[t.pending[0]], Runs.Close), Runs.Test)
    requires CanShow(ClosedNext(t), flaw)
    ensures CanShow(t, flaw)
  {
    hide CanShow, Runs.Apply, Runs.Enabled;
    var closed := Apply(t, CloseNext, false);
    ShowsAfter(closed, OfConnection(t.pending[0], Runs.Test), flaw);
    ShowsAfter(t, CloseNext, flaw);
  }

  /** The connections that are still to be closed were only opened. To return early there is one among them or behind
      them, `late`, that has a read under way and does not signal before it; the others' signals will be enough. */
  ghost predicate Ending(t: System, flaw: Flaw, late: nat) {
    && t.destroying && NoRepeats(t.pending) && late in t.connections
    && (forall c :: c in t.pending && (flaw.CountsTooMany? || c != late) ==> c in t.connections && Idle(t.connections[c]))
    && match flaw
       case CountsTooMany => t.closed + |t.pending| > t.toClose
       case ReturnsEarly =>
         && t.closed + |t.pending| >= t.toClose + (if late in t.pending then 1 else 0)
         && t.connections[late].notified == 0 && (late in t.pending ==> Busy(t.connections[late]))
  }

  lemma EndShows(t: System, flaw: Flaw, late: nat)
    requires Ending(t, flaw, late) && t.pending == []
    ensures CanShow(t, flaw)
  {
    if flaw.CountsTooMany? {
      ShowsNow(t, flaw);
    } else {
      ShowsNow(Apply(t, Wait, false), flaw);
      ShowsAfter(t, Wait, flaw);
    }
  }

  lemma EndingGoesOn(t: System, flaw: Flaw, late: nat)
    requires Ending(t, flaw, late) && t.pending != []
    ensures Enabled(t, CloseNext, false)
    ensures Runs.Enabled(Runs.Apply(t.connections[t.pending[0]], Runs.Close), Runs.Test)
    ensures Ending(ClosedNext(t), flaw, late) && ClosedNext(t).pending == t.pending[1..]
  {
    hide Idle, Busy, Runs.Apply, Runs.Enabled;
    var c := t.pending[0];
    FirstOfList(t.pending);
    if flaw.CountsTooMany? || c != late {
      IdleCloses(t.connections[c]);
    } else {
      BusyStays(t.connections[c]);
    }
  }

  lemma {:induction false} EndingShows(t: System, flaw: Flaw, late: nat)
    requires Ending(t, flaw, late)
    ensures CanShow(t, flaw)
    decreases |t.pending|
  {
    hide CanShow, Ending, Runs.Apply, Runs.Enabled;
    if t.pending == [] {
      EndShows(t, flaw, late);
    } else {
      EndingGoesOn(t, flaw, late);
      EndingShows(ClosedNext(t), flaw, late);
      ShowsAfterClosing(t, flaw);
    }
  }

  lemma EndingElsewhere(t: System, flaw: Flaw, late: nat, c: nat, next: Runs.Sys)
    requires Ending(t, flaw, late) && c !in t.pending && c != late
    ensures Ending(t.(connections := t.connections[c := next]), flaw, late)
  {
    hide Idle, Busy;
  }

  /** The first connection that the destructor closes signals twice. */
  lemma SecondSignalShows(t: System, flaw: Flaw, late: nat)
    requires t.destroying && t.pending != [] && NoRepeats(t.pending) && t.pending[0] != late
    requires t.pending[0] in t.connections && Read(t.connections[t.pending[0]])
    requires Ending(t.(pending := t.pending[1..], closed := t.closed + 2), flaw, late)
    ensures CanShow(t, flaw)
  {
    hide CanShow, Ending, Read, Runs.Apply, Runs.Enabled;
    var c := t.pending[0];
    SignalsTwice(t.connections[c]);
    FirstOfList(t.pending);
    var closed := Apply(t, CloseNext, false);
    var released := Apply(closed, OfConnection(c, Runs.ReadRelease), false);
    var tested := Apply(released, OfConnection(c, Runs.Test), false);
    var deleted := Apply(tested, OfConnection(c, Runs.Zeroed), false);
    var last := Apply(deleted, OfConnection(c, Runs.Test), false);
    assert last == t.(pending := t.pending[1..], closed := t.closed + 2,
                      connections := t.connections[c := last.connections[c]]);
    EndingElsewhere(t.(pending := t.pending[1..], closed := t.closed + 2), flaw, late, c, last.connections[c]);
    EndingShows(last, flaw, late);
    ShowsAfter(deleted, OfConnection(c, Runs.Test), flaw);
    ShowsAfter(tested, OfConnection(c, Runs.Zeroed), flaw);
    ShowsAfter(released, OfConnection(c, Runs.Test), flaw);
    ShowsAfter(closed, OfConnection(c, Runs.ReadRelease), flaw);
    ShowsAfter(t, CloseNext, flaw);
  }

  lemma NothingToSetUp(source: Side, destination: Side)
    ensures ToClose(source, destination, {}) == |Ids(source, destination)|
  {
    NothingSetUp(Ids(source, destination));
  }

  /** A tunnel with its first connection between a read and its release, in the destructor. */
  lemma FirstReads(t: System, interval: nat -> nat, flaw: Flaw, late: nat)
    requires Apart(t.source, t.destination) && late == t.destination.read && !t.destroying && t.pending == []
    requires t.closed == 0 && t.toClose == |Ids(t.source, t.destination)|
    requires forall c :: c in Ids(t.source, t.destination) ==> c in t.connections
    requires forall c :: c in Ids(t.source, t.destination) && (flaw.CountsTooMany? || c != late) ==> Idle(t.connections[c])
    requires t.connections[t.source.read] == Opened(interval(t.source.read), true)
    requires flaw.ReturnsEarly? ==> Busy(t.connections[late])
    ensures CanShow(t, flaw)
  {
    hide CanShow, Idle, Busy, Read, Runs.Apply, Runs.Enabled, Opened;
    var ids, c := Ids(t.source, t.destination), t.source.read;
    IdsAreApart(t.source, t.destination);
    FirstOfList(ids);
    StartedReads(interval(c));
    var started := Apply(t, OfConnection(c, Runs.Start(Issued)), false);
    var received := Apply(started, OfConnection(c, Runs.ReadData(0, true, Issued)), false);
    var destroying := Apply(received, Destroy, false);
    if flaw.ReturnsEarly? {
      BusyIsSilent(t.connections[late]);
    }
    SecondSignalShows(destroying, flaw, late);
    ShowsAfter(received, Destroy, flaw);
    ShowsAfter(started, OfConnection(c, Runs.ReadData(0, true, Issued)), flaw);
    ShowsAfter(t, OfConnection(c, Runs.Start(Issued)), flaw);
  }

  lemma BusyIsSilent(s: Runs.Sys)
    requires Busy(s)
    ensures s.notified == 0
  {
  }

  /** For every tunnel a run counts too many signals, and a run returns while the connection that reads from the
      destination has a read under way and has not signalled. */
  lemma EveryTunnelShows(source: Side, destination: Side, interval: nat -> nat, flaw: Flaw)
    requires Apart(source, destination)
    ensures CanShow(Constructed(source, destination, interval), flaw)
  {
    hide CanShow, Idle, Busy, Runs.Apply, Runs.Enabled, Opened, ToClose;
    var t, ids, late := Constructed(source, destination, interval), Ids(source, destination), destination.read;
    forall i | i in ids
      ensures Idle(t.connections[i])
    {
      OpenedIsIdle(interval(i), i == source.read || i == destination.read);
    }
    NothingToSetUp(source, destination);
    if flaw.CountsTooMany? {
      FirstReads(t, interval, flaw, late);
    } else {
      StartedIsBusy(interval(late));
      FirstReads(Apply(t, OfConnection(late, Runs.Start(Issued)), false), interval, flaw, late);
      ShowsAfter(t, OfConnection(late, Runs.Start(Issued)), flaw);
    }
  }

  lemma AccountsShowsNone(t: System, flaw: Flaw)
    requires Accounts(t)
    ensures !Shows(t, flaw)
  {
  }

  /** Each flaw by itself: no run counts too many signals, and no run returns before every connection has signalled,
      if and only if CheckedDelete takes its decrement and its test in one step. */
  lemma EachFlawNeedsTwoSteps(source: Side, destination: Side, interval: nat -> nat, flaw: Flaw, atomic: bool)
    requires Apart(source, destination)
    ensures (forall events :: RunsOn(Constructed(source, destination, interval), events, atomic) ==>
               !Shows(After(Constructed(source, destination, interval), events, atomic), flaw)) <==> atomic
  {
    hide RunsOn, After, Constructed, Shows;
    var t := Constructed(source, destination, interval);
    if atomic {
      forall events | RunsOn(t, events, true)
        ensures !Shows(After(t, events, true), flaw)
      {
        DestructorWaitsForAll(source, destination, interval, events);
        AccountsShowsNone(After(t, events, true), flaw);
      }
    } else {
      EveryTunnelShows(source, destination, interval, flaw);
      var events :| RunsOn(t, events, false) && Shows(After(t, events, false), flaw);
      assert RunsOn(t, events, atomic) && Shows(After(t, events, atomic), flaw);
    }
  }

  /** The accounting as a whole. */
  lemma AtomicDeleteIsNeeded(source: Side, destination: Side, interval: nat -> nat, atomic: bool)
    requires Apart(source, destination)
    ensures (forall events :: RunsOn(Constructed(source, destination, interval), events, atomic) ==>
               Accounts(After(Constructed(source, destination, interval), events, atomic))) <==> atomic
  {
    hide RunsOn, After, Constructed, Shows, Accounts;
    var t := Constructed(source, destination, interval);
    if atomic {
      forall events | RunsOn(t, events, true)
        ensures Accounts(After(t, events, true))
      {
        DestructorWaitsForAll(source, destination, interval, events);
      }
    } else {
      EveryTunnelShows(source, destination, interval, CountsTooMany);
      var events :| RunsOn(t, events, false) && Shows(After(t, events, false), CountsTooMany);
      if Accounts(After(t, events, false)) {
        AccountsShowsNone(After(t, events, false), CountsTooMany);
      }
      assert RunsOn(t, events, atomic) && !Accounts(After(t, events, atomic));
    }
  }

  /** The promise of the destructor by itself. */
  lemma ReturnsOnlyWhenAllSignalled(source: Side, destination: Side, interval: nat -> nat, atomic: bool)
    requires Apart(source, destination)
    ensures (forall events :: RunsOn(Constructed(source, destination, interval), events, atomic) ==>
               var t := After(Constructed(source, destination, interval), events, atomic);
               t.returned ==> Everyone(t)) <==> atomic
  {
    EachFlawNeedsTwoSteps(source, destination, interval, ReturnsEarly, atomic);
    hide RunsOn, After, Constructed;
    assert forall t: System :: Shows(t, ReturnsEarly) <==> t.returned && !Everyone(t);
  }

  // ---------------------------------------------------------------- who can write

  lemma {:induction false} WriteStreamsAreFixed(t: System, events: seq<Event>, atomic: bool, c: nat)
    requires RunsOn(t, events, atomic) && c in t.connections && t.connections[c].c.hasProactor
    ensures var after := After(t, events, atomic);
            && c in after.connections && after.connections[c].c.hasProactor
            && after.connections[c].c.writable == t.connections[c].c.writable
    decreases |events|
  {
    hide Runs.Apply, Runs.Enabled;
    if events != [] {
      var next := Apply(t, events[0], atomic);
      if events[0] == CloseNext && t.pending[0] == c {
        Runs.WriteStreamStays(t.connections[c], Runs.Close);
      } else if events[0].OfConnection? && events[0].connection == c {
        Runs.WriteStreamStays(t.connections[c], events[0].event);
      }
      WriteStreamsAreFixed(next, events[1..], atomic, c);
    }
  }

  /** Only the connections that read can write: at every time SendToRemote of any other answers that it cannot, until
      it is closed. */
  lemma OnlyReadersWrite(source: Side, destination: Side, interval: nat -> nat, events: seq<Event>, atomic: bool,
                         c: nat, writeOk: bool)
    requires RunsOn(Constructed(source, destination, interval), events, atomic) && c in Ids(source, destination)
    ensures var t := After(Constructed(source, destination, interval), events, atomic);
            && c in t.connections
            && WrittenTo(t.connections[c].c, writeOk).1 ==
               if t.connections[c].c.closed then Dropped
               else if c != source.read && c != destination.read then NotWritable
               else if writeOk then Sent else WriteFailed
  {
    WriteStreamsAreFixed(Constructed(source, destination, interval), events, atomic, c);
    hide RunsOn, After;
  }

  // ---------------------------------------------------------------- the signals

  /** The two signals of a tunnel, each opened with the connections of its side. */
  datatype Signal = SourceSignal | DestinationSignal

  function SignalOf(source: Side, destination: Side, connection: nat): Signal {
    if connection == source.read || connection == source.write then SourceSignal else DestinationSignal
  }

  /** Where a signal takes a block that was read. */
  function Receiver(source: Side, destination: Side, s: Signal): nat {
    match s
    case SourceSignal => destination.write
    case DestinationSignal => source.write
  }

  /** Whom a signal tells that a block was sent. */
  function Resumed(source: Side, destination: Side, s: Signal): nat {
    match s
    case SourceSignal => destination.read
    case DestinationSignal => source.read
  }

  /** The write of a block tells the very connection that read the block, which may then read on. */
  lemma BlocksComeBack(source: Side, destination: Side, reader: nat)
    requires Apart(source, destination) && (reader == source.read || reader == destination.read)
    ensures var writer := Receiver(source, destination, SignalOf(source, destination, reader));
            && writer in Connections(source, destination)
            && SignalOf(source, destination, writer) != SignalOf(source, destination, reader)
            && Resumed(source, destination, SignalOf(source, destination, writer)) == reader
  {
  }

  /** Whether a write to the remote end can ever be issued on a connection of the tunnel. */
  ghost predicate CanSend(t: System, c: nat, atomic: bool) {
    exists events :: RunsOn(t, events, atomic) && SendsIn(After(t, events, atomic), c)
  }

  ghost predicate SendsIn(t: System, c: nat) {
    c in t.connections && WrittenTo(t.connections[c].c, true).1 == Sent
  }

  /** What is read on the other side reaches the remote end of a side if and only if that side uses one connection for
      both directions: the write connection of a split side never issues a write. */
  lemma SplitSidesNeverWrite(source: Side, destination: Side, interval: nat -> nat, atomic: bool, s: Signal)
    requires Apart(source, destination)
    ensures CanSend(Constructed(source, destination, interval), Receiver(source, destination, s), atomic) <==>
            if s.SourceSignal? then destination.read == destination.write else source.read == source.write
  {
    hide Constructed;
    var writer, t := Receiver(source, destination, s), Constructed(source, destination, interval);
    forall events | RunsOn(t, events, atomic)
      ensures SendsIn(After(t, events, atomic), writer) ==> writer == source.read || writer == destination.read
    {
      OnlyReadersWrite(source, destination, interval, events, atomic, writer, true);
    }
    NewIsOpen(source, destination, interval, writer);
    assert RunsOn(t, [], atomic) && After(t, [], atomic) == t;
    OnlyReadersWrite(source, destination, interval, [], atomic, writer, true);
  }

  lemma NewIsOpen(source: Side, destination: Side, interval: nat -> nat, c: nat)
    requires c in Ids(source, destination)
    ensures var t := Constructed(source, destination, interval);
            c in t.connections && !t.connections[c].c.closed
  {
  }
}
