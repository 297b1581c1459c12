// The registries of ServerWorker: which rules are active, which tunnels are open, which
// services run and which tunnel rules wait to be tried again.
module Registry {
  import opened Wrappers

  /** The text of a uuid does not matter here: uuids are only compared. */
  type Uuid = nat

  /** An input endpoint: one that accepts connections, or one whose connections are opened with the rule. */
  datatype Endpoint = Accepting(uuid: Uuid, multiClient: bool) | Dialling

  datatype TunnelRule = TunnelRule(uuid: Uuid, enabled: bool, inputs: seq<Endpoint>)

  datatype ServiceRule = ServiceRule(uuid: Uuid, enabled: bool, services: nat)

  datatype ActiveRule = ActiveRule(isTunnel: bool, acceptHandlers: set<Uuid>)

  /** Rules by uuid; the rules of open tunnels and of running services by instance id. */
  datatype State = State(
    ruleLimit: nat,
    tunnelLimit: nat,
    rules: map<Uuid, ActiveRule>,
    tunnels: map<nat, Uuid>,
    services: map<nat, Uuid>,
    toCheck: map<Uuid, TunnelRule>,
    nextId: nat)

  /** What came of opening an endpoint or a service: done, a connection error, or any other error. */
  datatype Answer = Opened | NotConnected | Broken

  /** What the outside world answers during one update, in the order it is asked; Opened and true when it says nothing. */
  datatype World = World(filtersMade: bool, answers: seq<Answer>, setups: seq<bool>)

  const ALL_OPEN := World(true, [], [])

  datatype Error = LicenseError | LocalError
  datatype Outcome = Done(complete: bool) | Thrown(error: Error)
  datatype Updated = Updated(state: State, outcome: Outcome)
  datatype Deleted = Deleted(state: State, wasDeleted: bool)

  function AnswerAt(w: World, i: nat): Answer {
    if i < |w.answers| then w.answers[i] else Opened
  }

  function SetupAt(w: World, i: nat): bool {
    i < |w.setups| ==> w.setups[i]
  }

  function Empty(ruleLimit: nat, tunnelLimit: nat): State {
    State(ruleLimit, tunnelLimit, map[], map[], map[], map[], 0)
  }

  function Put<K, V>(m: map<K, V>, k: K, v: V): map<K, V> {
    if k in m then m else m[k := v]
  }

  // ---------------------------------------------------------------- what the operations do

  /** The copies OpenRule works on. */
  datatype Opening = Opening(
    handlers: set<Uuid>,
    tunnels: map<nat, Uuid>,
    added: seq<nat>,
    check: bool, // the rule is to be tried again
    nextId: nat,
    failed: bool)

  function Accepted(o: Opening, endpoint: Uuid): Opening {
    o.(handlers := o.handlers + {endpoint})
  }

  function Dialled(o: Opening, rule: Uuid): Opening {
    o.(tunnels := o.tunnels[o.nextId := rule], added := o.added + [o.nextId], nextId := o.nextId + 1)
  }

  function OpenInputs(limit: nat, rule: TunnelRule, w: World, i: nat, o: Opening): Opening
    decreases |rule.inputs| - i
  {
    if i >= |rule.inputs| then o
    else
      match rule.inputs[i]
      case Accepting(uuid, multiClient) =>
        if !multiClient then o
        else if AnswerAt(w, i).Broken? then o.(failed := true)
        else OpenInputs(limit, rule, w, i + 1, if AnswerAt(w, i).Opened? then Accepted(o, uuid) else o)
      case Dialling =>
        if |o.tunnels| + 1 > limit || AnswerAt(w, i).Broken? then o.(failed := true)
        else if AnswerAt(w, i).NotConnected? then OpenInputs(limit, rule, w, i + 1, o.(check := true))
        else OpenInputs(limit, rule, w, i + 1, Dialled(o, rule.uuid))
  }

  function RuleOpened(s: State, rule: TunnelRule, w: World): Opening {
    var start := Opening({}, s.tunnels, [], false, s.nextId, false);
    if w.filtersMade then OpenInputs(s.tunnelLimit, rule, w, 0, start) else start.(failed := true)
  }

  /** `victim` is the tunnel of the rule that the index finds first, if it has any. */
  predicate Finds(tunnels: map<nat, Uuid>, uuid: Uuid, victim: Option<nat>) {
    match victim
    case None => forall t :: t in tunnels ==> tunnels[t] != uuid
    case Some(t) => t in tunnels && tunnels[t] == uuid
  }

  /** The rule is taken out of every registry, with one of its tunnels, before it is opened again. */
  function TakenOut(s: State, uuid: Uuid, victim: Option<nat>): State {
    s.(toCheck := s.toCheck - {uuid}, rules := s.rules - {uuid},
       tunnels := if victim.Some? then s.tunnels - {victim.value} else s.tunnels)
  }

  /** The new tunnels are started one after the other up to the first that throws: that one is closed. */
  function FirstBadSetup(w: World, count: nat, i: nat): (bad: Option<nat>)
    ensures bad.Some? ==> bad.value < count
    decreases count - i
  {
    if i >= count then None else if SetupAt(w, i) then FirstBadSetup(w, count, i + 1) else Some(i)
  }

  function Installed(s: State, rule: TunnelRule, o: Opening): State {
    s.(rules := s.rules[rule.uuid := ActiveRule(true, o.handlers)],
       tunnels := o.tunnels,
       toCheck := if o.check then s.toCheck[rule.uuid := rule] else s.toCheck,
       nextId := o.nextId)
  }

  function TunnelRuleUpdated(s: State, rule: TunnelRule, victim: Option<nat>, w: World): Updated {
    var out := TakenOut(s, rule.uuid, victim);
    if !rule.enabled then Updated(out, Done(true))
    else if |out.rules| + 1 > s.ruleLimit then Updated(out, Thrown(LicenseError))
    else
      var o := RuleOpened(out, rule, w);
      if o.failed then Updated(out.(nextId := o.nextId), Thrown(LocalError))
      else Started(Installed(out, rule, o), rule, o, w)
  }

  function Started(installed: State, rule: TunnelRule, o: Opening, w: World): Updated {
    match FirstBadSetup(w, |o.added|, 0)
    case None => Updated(installed, Done(|rule.inputs| == |o.handlers| + |o.added|))
    case Some(k) => Updated(installed.(tunnels := installed.tunnels - {o.added[k]}), Thrown(LocalError))
  }

  function WithoutServicesOf(services: map<nat, Uuid>, uuid: Uuid): map<nat, Uuid> {
    map i | i in services && services[i] != uuid :: services[i]
  }

  /** `count` more services of a rule, with the next ids. */
  function WithServices(services: map<nat, Uuid>, uuid: Uuid, count: nat, id: nat): map<nat, Uuid> {
    if count == 0 then services else WithServices(services, uuid, count - 1, id)[id + count - 1 := uuid]
  }

  predicate AllServicesOpen(rule: ServiceRule, w: World) {
    forall i :: 0 <= i < rule.services ==> AnswerAt(w, i).Opened?
  }

  function ServiceRuleUpdated(s: State, rule: ServiceRule, w: World): Updated {
    if rule.services == 0 then Updated(s, Done(false))
    else
      var out := s.(services := WithoutServicesOf(s.services, rule.uuid));
      if !rule.enabled then Updated(out, Done(true))
      else if |s.rules| + 1 > s.ruleLimit then Updated(out, Thrown(LicenseError))
      else if !AllServicesOpen(rule, w) then Updated(out, Thrown(LocalError))
      else Updated(out.(services := WithServices(out.services, rule.uuid, rule.services, s.nextId),
                        rules := Put(s.rules, rule.uuid, ActiveRule(false, {})),
                        nextId := s.nextId + rule.services), Done(true))
  }

  /** One service of the rule is stopped: the one the index finds first. */
  function RuleDeleted(s: State, uuid: Uuid, service: Option<nat>): Deleted {
    Deleted(s.(rules := s.rules - {uuid},
                toCheck := s.toCheck - {uuid},
                services := if uuid in s.rules && !s.rules[uuid].isTunnel && service.Some?
                            then s.services - {service.value} else s.services),
            uuid in s.rules || uuid in s.toCheck)
  }

  function TunnelOpened(s: State, uuid: Uuid, setupFailed: bool, starts: bool): Updated {
    if setupFailed then Updated(s, Done(false))
    else if |s.tunnels| + 1 > s.tunnelLimit then Updated(s, Thrown(LocalError))
    else if !starts then Updated(s.(nextId := s.nextId + 1), Thrown(LocalError))
    else Updated(s.(tunnels := s.tunnels[s.nextId := uuid], nextId := s.nextId + 1), Done(true))
  }

  /** CloseTunnel takes the tunnel out; the rule of a static one as well, just before it is updated. */
  function TunnelClosed(s: State, id: nat, isStatic: bool): State {
    if id !in s.tunnels then s
    else s.(tunnels := s.tunnels - {id}, rules := if isStatic then s.rules - {s.tunnels[id]} else s.rules)
  }

  // ---------------------------------------------------------------- trying the waiting rules again

  /** One waiting rule, the tunnel that its update takes out, and what the world answers to it. */
  datatype Turn = Turn(rule: TunnelRule, victim: Option<nat>, world: World)

  /** What a pass over the waiting rules leaves, how many of them it tried, and the error that ended it. */
  datatype Pass = Pass(state: State, tried: nat, error: Option<Error>)

  /** CheckTunnelRules means to go on after a LicenseException. But Update rethrows the one it was handed by the type
      of its base class: the exception is `sliced`, and the handler that would go on never gets it. */
  predicate Ends(outcome: Outcome, sliced: bool) {
    outcome.Thrown? && (sliced || !outcome.error.LicenseError?)
  }

  function TurnTaken(s: State, t: Turn): Updated {
    TunnelRuleUpdated(s, t.rule, t.victim, t.world)
  }

  function PassOver(s: State, turns: seq<Turn>, sliced: bool): Pass
    decreases |turns|
  {
    if turns == [] then Pass(s, 0, None)
    else
      var Updated(next, outcome) := TurnTaken(s, turns[0]);
      if Ends(outcome, sliced) then Pass(next, 1, Some(outcome.error))
      else
        var rest := PassOver(next, turns[1..], sliced);
        rest.(tried := rest.tried + 1)
  }

  /** The tunnels that are taken out are those the index finds. */
  ghost predicate Follows(s: State, turns: seq<Turn>, sliced: bool)
    decreases |turns|
  {
    turns == [] ||
    (&& Finds(s.tunnels, turns[0].rule.uuid, turns[0].victim)
     && (Ends(TurnTaken(s, turns[0]).outcome, sliced) || Follows(TurnTaken(s, turns[0]).state, turns[1..], sliced)))
  }

  /** A pass goes on from where its first part left off, unless that was ended by an error. */
  lemma {:induction false} PassSplits(s: State, a: seq<Turn>, b: seq<Turn>, sliced: bool)
    requires Follows(s, a, sliced)
    ensures var p := PassOver(s, a, sliced);
            && p.tried <= |a|
            && (p.error.Some? ==> PassOver(s, a + b, sliced) == p && Follows(s, a + b, sliced))
            && (p.error.None? ==>
                  var rest := PassOver(p.state, b, sliced);
                  && p.tried == |a| && PassOver(s, a + b, sliced) == rest.(tried := |a| + rest.tried)
                  && (Follows(p.state, b, sliced) ==> Follows(s, a + b, sliced)))
    decreases |a|
  {
    hide TurnTaken, Finds;
    if a == [] {
      assert a + b == b;
    } else {
      assert (a + b)[1..] == a[1..] + b && (a + b)[0] == a[0];
      if !Ends(TurnTaken(s, a[0]).outcome, sliced) {
        PassSplits(TurnTaken(s, a[0]).state, a[1..], b, sliced);
      }
    }
  }

  lemma PassOfOne(s: State, t: Turn, sliced: bool)
    requires Finds(s.tunnels, t.rule.uuid, t.victim)
    ensures Follows(s, [t], sliced)
    ensures var Updated(next, outcome) := TurnTaken(s, t);
            PassOver(s, [t], sliced) == Pass(next, 1, if Ends(outcome, sliced) then Some(outcome.error) else None)
  {
    assert [t][1..] == [];
    assert PassOver(TurnTaken(s, t).state, [], sliced) == Pass(TurnTaken(s, t).state, 0, None);
  }

  function AnswerTo(worlds: map<Uuid, World>, uuid: Uuid): World {
    if uuid in worlds then worlds[uuid] else ALL_OPEN
  }

  /** Every waiting rule once, in the order the hashed container has them in. */
  predicate Lists(order: seq<Uuid>, waiting: map<Uuid, TunnelRule>) {
    && (forall i :: 0 <= i < |order| ==> order[i] in waiting) && (forall u :: u in waiting ==> u in order)
    && (forall i, j :: 0 <= i < j < |order| ==> order[i] != order[j])
  }

  ghost predicate TurnsOf(turns: seq<Turn>, order: seq<Uuid>, waiting: map<Uuid, TunnelRule>, worlds: map<Uuid, World>) {
    |turns| == |order| && forall i :: 0 <= i < |order| ==>
      order[i] in waiting && turns[i].rule == waiting[order[i]] && turns[i].world == AnswerTo(worlds, order[i])
  }

  /** The turns that do not come. */
  ghost function Untried(order: seq<Uuid>, waiting: map<Uuid, TunnelRule>, worlds: map<Uuid, World>): (turns: seq<Turn>)
    requires forall i :: 0 <= i < |order| ==> order[i] in waiting
    ensures TurnsOf(turns, order, waiting, worlds)
  {
    seq(|order|, i requires 0 <= i < |order| => Turn(waiting[order[i]], None, AnswerTo(worlds, order[i])))
  }

  /** The rules `order` are tried in, and these turns of them brought the registries to `s` without an error. */
  ghost predicate Underway(start: State, s: State, turns: seq<Turn>, order: seq<Uuid>, waiting: map<Uuid, TunnelRule>,
                           worlds: map<Uuid, World>)
  {
    && TurnsOf(turns, order, waiting, worlds)
    && Follows(start, turns, true) && PassOver(start, turns, true) == Pass(s, |order|, None)
  }

  lemma OneTurnMore(start: State, s: State, turns: seq<Turn>, order: seq<Uuid>, waiting: map<Uuid, TunnelRule>,
                    worlds: map<Uuid, World>, i: nat, victim: Option<nat>)
    requires i < |order| && order[i] in waiting && Underway(start, s, turns, order[..i], waiting, worlds)
    requires Finds(s.tunnels, waiting[order[i]].uuid, victim)
    ensures var t := Turn(waiting[order[i]], victim, AnswerTo(worlds, order[i]));
            var Updated(next, outcome) := TurnTaken(s, t);
            && TurnsOf(turns + [t], order[..i + 1], waiting, worlds) && Follows(start, turns + [t], true)
            && PassOver(start, turns + [t], true) == Pass(next, i + 1, if outcome.Thrown? then Some(outcome.error) else None)
  {
    hide TurnTaken, Follows, PassOver, Finds, AnswerTo;
    var t := Turn(waiting[order[i]], victim, AnswerTo(worlds, order[i]));
    PassOfOne(s, t, true);
    PassSplits(start, turns, [t], true);
  }

  lemma TurnsJoin(a: seq<Turn>, b: seq<Turn>, order: seq<Uuid>, waiting: map<Uuid, TunnelRule>,
                  worlds: map<Uuid, World>, i: nat)
    requires i <= |order| && TurnsOf(a, order[..i], waiting, worlds) && TurnsOf(b, order[i..], waiting, worlds)
    ensures TurnsOf(a + b, order, waiting, worlds)
  {
    hide AnswerTo;
    forall k | 0 <= k < |order|
      ensures order[k] in waiting
      ensures (a + b)[k].rule == waiting[order[k]] && (a + b)[k].world == AnswerTo(worlds, order[k])
    {
      if k < i {
        assert order[..i][k] == order[k] && (a + b)[k] == a[k];
      } else {
        assert order[i..][k - i] == order[k] && (a + b)[k] == b[k - i];
      }
    }
  }

  lemma RestIsUntried(start: State, turns: seq<Turn>, order: seq<Uuid>, waiting: map<Uuid, TunnelRule>,
                      worlds: map<Uuid, World>, i: nat)
    requires i <= |order| && forall k :: 0 <= k < |order| ==> order[k] in waiting
    requires TurnsOf(turns, order[..i], waiting, worlds) && Follows(start, turns, true)
    requires PassOver(start, turns, true).error.Some?
    ensures var all := turns + Untried(order[i..], waiting, worlds);
            && TurnsOf(all, order, waiting, worlds) && Follows(start, all, true)
            && PassOver(start, all, true) == PassOver(start, turns, true)
  {
    hide Follows, PassOver, AnswerTo;
    hide TurnsOf;
    TurnsJoin(turns, Untried(order[i..], waiting, worlds), order, waiting, worlds, i);
    PassSplits(start, turns, Untried(order[i..], waiting, worlds), true);
  }

  // ---------------------------------------------------------------- every run is safe

  /** `reopening` are the rules of static tunnels that were closed and not yet updated again. */
  ghost predicate Safe(s: State, reopening: set<Uuid>) {
    && |s.rules| <= s.ruleLimit
    && |s.tunnels| <= s.tunnelLimit
    && (forall u :: u in s.toCheck ==> u in s.rules || u in reopening)
    && (forall u :: u in s.toCheck ==> s.toCheck[u].uuid == u && s.toCheck[u].enabled)
    && (forall t :: t in s.tunnels ==> t < s.nextId)
  }

  lemma SizeWithout<K, V>(m: map<K, V>, k: K)
    ensures |m - {k}| == |m| - (if k in m then 1 else 0)
  {
    assert (m - {k}).Keys == m.Keys - {k};
    assert |m - {k}| == |(m - {k}).Keys| && |m| == |m.Keys|;
  }

  lemma SizeWith<K, V>(m: map<K, V>, k: K, v: V)
    ensures |m[k := v]| == |m| + (if k in m then 0 else 1)
  {
    assert m[k := v].Keys == m.Keys + {k};
    assert |m[k := v]| == |m[k := v].Keys| && |m| == |m.Keys|;
  }

  /** What opening the inputs may have done to the tunnels: more of them, all of this rule. */
  ghost predicate Grown(was: State, uuid: Uuid, tunnels: map<nat, Uuid>, added: seq<nat>, nextId: nat) {
    && |tunnels| <= was.tunnelLimit
    && |tunnels| == |was.tunnels| + |added| && |added| == nextId - was.nextId
    && (forall i :: 0 <= i < |added| ==> added[i] == was.nextId + i)
    && (forall t :: t in tunnels <==> t in was.tunnels || was.nextId <= t < nextId)
    && (forall t :: t in was.tunnels ==> t < was.nextId && tunnels[t] == was.tunnels[t])
    && (forall t :: was.nextId <= t < nextId ==> tunnels[t] == uuid)
  }

  lemma GrowsByOne(was: State, uuid: Uuid, tunnels: map<nat, Uuid>, added: seq<nat>, nextId: nat)
    requires Grown(was, uuid, tunnels, added, nextId) && |tunnels| + 1 <= was.tunnelLimit
    ensures Grown(was, uuid, tunnels[nextId := uuid], added + [nextId], nextId + 1)
  {
    SizeWith(tunnels, nextId, uuid);
  }

  lemma {:induction false} InputsGrow(was: State, rule: TunnelRule, w: World, i: nat, o: Opening)
    requires Grown(was, rule.uuid, o.tunnels, o.added, o.nextId)
    ensures var end := OpenInputs(was.tunnelLimit, rule, w, i, o);
            Grown(was, rule.uuid, end.tunnels, end.added, end.nextId)
    decreases |rule.inputs| - i
  {
    hide Grown;
    if i < |rule.inputs| {
      match rule.inputs[i]
      case Accepting(uuid, multiClient) =>
        InputsGrow(was, rule, w, i + 1, if AnswerAt(w, i).Opened? then Accepted(o, uuid) else o);
      case Dialling =>
        InputsGrow(was, rule, w, i + 1, o.(check := true));
        if |o.tunnels| + 1 <= was.tunnelLimit {
          GrowsByOne(was, rule.uuid, o.tunnels, o.added, o.nextId);
          InputsGrow(was, rule, w, i + 1, Dialled(o, rule.uuid));
        }
    }
  }

  lemma RuleGrows(s: State, rule: TunnelRule, w: World)
    requires |s.tunnels| <= s.tunnelLimit && forall t :: t in s.tunnels ==> t < s.nextId
    ensures var o := RuleOpened(s, rule, w);
            Grown(s, rule.uuid, o.tunnels, o.added, o.nextId)
  {
    if w.filtersMade {
      InputsGrow(s, rule, w, 0, Opening({}, s.tunnels, [], false, s.nextId, false));
    }
  }

  lemma TakenOutIsSafe(s: State, reopening: set<Uuid>, uuid: Uuid, victim: Option<nat>)
    requires Safe(s, reopening) && Finds(s.tunnels, uuid, victim)
    ensures Safe(TakenOut(s, uuid, victim), reopening - {uuid})
    ensures uuid in s.rules ==> |TakenOut(s, uuid, victim).rules| + 1 <= s.ruleLimit
  {
    SizeWithout(s.rules, uuid);
    if victim.Some? {
      SizeWithout(s.tunnels, victim.value);
    }
  }

  lemma InstalledIsSafe(s: State, reopening: set<Uuid>, rule: TunnelRule, w: World)
    requires Safe(s, reopening) && |s.rules| + 1 <= s.ruleLimit && rule.enabled
    ensures Safe(Installed(s, rule, RuleOpened(s, rule, w)), reopening)
  {
    RuleGrows(s, rule, w);
    SizeWith(s.rules, rule.uuid, ActiveRule(true, RuleOpened(s, rule, w).handlers));
  }

  lemma ClosingIsSafe(s: State, reopening: set<Uuid>, id: nat)
    requires Safe(s, reopening)
    ensures Safe(s.(tunnels := s.tunnels - {id}), reopening)
  {
    SizeWithout(s.tunnels, id);
  }

  lemma LaterIdsAreSafe(s: State, reopening: set<Uuid>, id: nat)
    requires Safe(s, reopening) && id >= s.nextId
    ensures Safe(s.(nextId := id), reopening)
  {
  }

  lemma StartedIsSafe(installed: State, reopening: set<Uuid>, rule: TunnelRule, o: Opening, w: World)
    requires Safe(installed, reopening)
    ensures Safe(Started(installed, rule, o, w).state, reopening)
  {
    hide Safe;
    var bad := FirstBadSetup(w, |o.added|, 0);
    if bad.Some? {
      ClosingIsSafe(installed, reopening, o.added[bad.value]);
    }
  }

  lemma TunnelUpdateIsSafe(s: State, reopening: set<Uuid>, rule: TunnelRule, victim: Option<nat>, w: World)
    requires Safe(s, reopening) && Finds(s.tunnels, rule.uuid, victim)
    ensures Safe(TunnelRuleUpdated(s, rule, victim, w).state, reopening - {rule.uuid})
  {
    hide Safe, RuleOpened, Installed, TakenOut, Started, Finds;
    var out, left := TakenOut(s, rule.uuid, victim), reopening - {rule.uuid};
    TakenOutIsSafe(s, reopening, rule.uuid, victim);
    TakenOutParts(s, rule.uuid, victim);
    if rule.enabled && |out.rules| + 1 <= s.ruleLimit {
      var o := RuleOpened(out, rule, w);
      IdsGrow(out, left, rule, w);
      LaterIdsAreSafe(out, left, o.nextId);
      InstalledIsSafe(out, left, rule, w);
      StartedIsSafe(Installed(out, rule, o), left, rule, o, w);
    }
  }

  lemma IdsGrow(s: State, reopening: set<Uuid>, rule: TunnelRule, w: World)
    requires Safe(s, reopening)
    ensures s.nextId <= RuleOpened(s, rule, w).nextId
  {
    hide RuleOpened;
    RuleGrows(s, rule, w);
  }

  lemma ServiceUpdateIsSafe(s: State, reopening: set<Uuid>, rule: ServiceRule, w: World)
    requires Safe(s, reopening)
    ensures Safe(ServiceRuleUpdated(s, rule, w).state, reopening)
  {
    SizeWith(s.rules, rule.uuid, ActiveRule(false, {}));
  }

  lemma DeletionIsSafe(s: State, reopening: set<Uuid>, uuid: Uuid, service: Option<nat>)
    requires Safe(s, reopening)
    ensures Safe(RuleDeleted(s, uuid, service).state, reopening)
  {
    SizeWithout(s.rules, uuid);
  }

  lemma OpeningIsSafe(s: State, reopening: set<Uuid>, uuid: Uuid, setupFailed: bool, starts: bool)
    requires Safe(s, reopening)
    ensures Safe(TunnelOpened(s, uuid, setupFailed, starts).state, reopening)
  {
    SizeWith(s.tunnels, s.nextId, uuid);
  }

  lemma ClosedTunnelIsSafe(s: State, reopening: set<Uuid>, id: nat, isStatic: bool)
    requires Safe(s, reopening)
    ensures Safe(TunnelClosed(s, id, isStatic),
                 if isStatic && id in s.tunnels then reopening + {s.tunnels[id]} else reopening)
  {
    if id in s.tunnels {
      SizeWithout(s.tunnels, id);
      SizeWithout(s.rules, s.tunnels[id]);
    }
  }

  datatype Event =
    | UpdateTunnelRule(rule: TunnelRule, victim: Option<nat>, world: World)
    | UpdateServiceRule(serviceRule: ServiceRule, world: World)
    | DeleteRule(uuid: Uuid, service: Option<nat>)
    | TakeRulesToCheck // the first step of CheckTunnelRules; an update of each rule follows
    | OpenTunnel(uuid: Uuid, setupFailed: bool, starts: bool)
    | CloseTunnel(id: nat, isStatic: bool)

  predicate Enabled(s: State, e: Event) {
    match e
    case UpdateTunnelRule(rule, victim, _) => Finds(s.tunnels, rule.uuid, victim)
    case DeleteRule(uuid, service) => Finds(s.services, uuid, service)
    case _ => true
  }

  /** The registries, and the rules of static tunnels that were closed and not yet updated again. */
  datatype Server = Server(registry: State, reopening: set<Uuid>)

  function Apply(server: Server, e: Event): Server {
    var Server(s, reopening) := server;
    match e
    case UpdateTunnelRule(rule, victim, w) => Server(TunnelRuleUpdated(s, rule, victim, w).state, reopening - {rule.uuid})
    case UpdateServiceRule(rule, w) => Server(ServiceRuleUpdated(s, rule, w).state, reopening)
    case DeleteRule(uuid, service) => Server(RuleDeleted(s, uuid, service).state, reopening)
    case TakeRulesToCheck => Server(s.(toCheck := map[]), reopening)
    case OpenTunnel(uuid, setupFailed, starts) => Server(TunnelOpened(s, uuid, setupFailed, starts).state, reopening)
    case CloseTunnel(id, isStatic) =>
      Server(TunnelClosed(s, id, isStatic), if isStatic && id in s.tunnels then reopening + {s.tunnels[id]} else reopening)
  }

  ghost predicate Runs(server: Server, events: seq<Event>)
    decreases |events|
  {
    events == [] || (Enabled(server.registry, events[0]) && Runs(Apply(server, events[0]), events[1..]))
  }

  ghost function After(server: Server, events: seq<Event>): Server
    requires Runs(server, events)
    decreases |events|
  {
    if events == [] then server else After(Apply(server, events[0]), events[1..])
  }

  lemma StepIsSafe(server: Server, e: Event)
    requires Safe(server.registry, server.reopening) && Enabled(server.registry, e)
    ensures Safe(Apply(server, e).registry, Apply(server, e).reopening)
  {
    hide TunnelRuleUpdated, ServiceRuleUpdated, RuleDeleted, TunnelOpened, TunnelClosed;
    var Server(s, reopening) := server;
    match e
    case UpdateTunnelRule(rule, victim, w) => TunnelUpdateIsSafe(s, reopening, rule, victim, w);
    case UpdateServiceRule(rule, w) => ServiceUpdateIsSafe(s, reopening, rule, w);
    case DeleteRule(uuid, service) => DeletionIsSafe(s, reopening, uuid, service);
    case TakeRulesToCheck =>
    case OpenTunnel(uuid, setupFailed, starts) => OpeningIsSafe(s, reopening, uuid, setupFailed, starts);
    case CloseTunnel(id, isStatic) => ClosedTunnelIsSafe(s, reopening, id, isStatic);
  }

  lemma SameLimits(server: Server, e: Event)
    ensures var Server(s, _) := Apply(server, e);
            s.ruleLimit == server.registry.ruleLimit && s.tunnelLimit == server.registry.tunnelLimit
  {
    hide RuleOpened, Started, TakenOut;
    if e.UpdateTunnelRule? {
      TakenOutParts(server.registry, e.rule.uuid, e.victim);
      var out := TakenOut(server.registry, e.rule.uuid, e.victim);
      var o := RuleOpened(out, e.rule, e.world);
      StartedParts(Installed(out, e.rule, o), e.rule, o, e.world);
    }
  }

  lemma {:induction false} RunIsSafe(server: Server, events: seq<Event>)
    requires Safe(server.registry, server.reopening) && Runs(server, events)
    ensures var Server(s, reopening) := After(server, events);
            && Safe(s, reopening)
            && s.ruleLimit == server.registry.ruleLimit && s.tunnelLimit == server.registry.tunnelLimit
    decreases |events|
  {
    hide Safe, Apply, Enabled;
    if events != [] {
      StepIsSafe(server, events[0]);
      SameLimits(server, events[0]);
      RunIsSafe(Apply(server, events[0]), events[1..]);
    }
  }

  /** In every run, with every throw on the way: never more rules or tunnels than licensed, and a rule that waits
      to be tried again is active, unless its static tunnel was closed and its update has not come yet. */
  lemma RegistriesAreSafe(ruleLimit: nat, tunnelLimit: nat, events: seq<Event>)
    requires Runs(Server(Empty(ruleLimit, tunnelLimit), {}), events)
    ensures var Server(s, reopening) := After(Server(Empty(ruleLimit, tunnelLimit), {}), events);
            && |s.rules| <= ruleLimit && |s.tunnels| <= tunnelLimit
            && (forall u :: u in s.toCheck ==> u in s.rules || u in reopening)
  {
    RunIsSafe(Server(Empty(ruleLimit, tunnelLimit), {}), events);
    hide Runs, After;
  }

  // ---------------------------------------------------------------- what one update promises

  lemma TakenOutParts(s: State, uuid: Uuid, victim: Option<nat>)
    ensures var out := TakenOut(s, uuid, victim);
            && out.rules == s.rules - {uuid} && out.toCheck == s.toCheck - {uuid}
            && out.nextId == s.nextId && out.ruleLimit == s.ruleLimit && out.tunnelLimit == s.tunnelLimit
  {
  }

  lemma StartedParts(installed: State, rule: TunnelRule, o: Opening, w: World)
    ensures var after := Started(installed, rule, o, w);
            && after.state.rules == installed.rules && after.state.toCheck == installed.toCheck
            && after.state.ruleLimit == installed.ruleLimit && after.state.tunnelLimit == installed.tunnelLimit
            && after.outcome != Thrown(LicenseError)
            && (after.outcome.Done? ==> after.state == installed)
  {
  }

  lemma RoomForRule(s: State, uuid: Uuid, victim: Option<nat>)
    requires |s.rules| <= s.ruleLimit
    ensures |TakenOut(s, uuid, victim).rules| + 1 <= s.ruleLimit <==> uuid in s.rules || |s.rules| < s.ruleLimit
  {
    SizeWithout(s.rules, uuid);
  }

  lemma OnlyThatKey<K, V>(m: map<K, V>, k: K, v: V)
    ensures (m - {k})[k := v] - {k} == m - {k} && m - {k} - {k} == m - {k}
  {
  }

  predicate Opens(s: State, rule: TunnelRule, victim: Option<nat>, w: World) {
    && rule.enabled
    && (rule.uuid in s.rules || |s.rules| < s.ruleLimit)
    && !RuleOpened(TakenOut(s, rule.uuid, victim), rule, w).failed
  }

  lemma RulesAfterUpdate(s: State, rule: TunnelRule, victim: Option<nat>, w: World)
    requires |s.rules| <= s.ruleLimit
    ensures var Updated(after, outcome) := TunnelRuleUpdated(s, rule, victim, w);
            var handlers := RuleOpened(TakenOut(s, rule.uuid, victim), rule, w).handlers;
            var others := s.rules - {rule.uuid};
            && after.rules == (if Opens(s, rule, victim, w) then others[rule.uuid := ActiveRule(true, handlers)] else others)
            && (rule.enabled && outcome.Done? ==> Opens(s, rule, victim, w))
            && (rule.uuid in s.rules ==> outcome != Thrown(LicenseError))
  {
    hide RuleOpened, TakenOut, Started;
    RoomForRule(s, rule.uuid, victim);
    TakenOutParts(s, rule.uuid, victim);
    var out := TakenOut(s, rule.uuid, victim);
    var o := RuleOpened(out, rule, w);
    StartedParts(Installed(out, rule, o), rule, o, w);
  }

  /** An update makes the rule active exactly when it is enabled, the licence has room for it and its inputs
      could be opened, whether or not the new tunnels start; every other rule stays as it was. A rule that was
      active never meets the licence, and one that was opened is active. */
  lemma UpdateActivates(s: State, rule: TunnelRule, victim: Option<nat>, w: World)
    requires |s.rules| <= s.ruleLimit
    ensures var Updated(after, outcome) := TunnelRuleUpdated(s, rule, victim, w);
            && (rule.uuid in after.rules <==> Opens(s, rule, victim, w))
            && after.rules - {rule.uuid} == s.rules - {rule.uuid}
            && (rule.uuid in s.rules ==> outcome != Thrown(LicenseError))
            && (rule.enabled && outcome.Done? ==> rule.uuid in after.rules)
  {
    RulesAfterUpdate(s, rule, victim, w);
    hide TunnelRuleUpdated, Opens, RuleOpened;
    OnlyThatKey(s.rules, rule.uuid, ActiveRule(true, RuleOpened(TakenOut(s, rule.uuid, victim), rule, w).handlers));
  }

  ghost predicate HasService(services: map<nat, Uuid>, uuid: Uuid) {
    exists i :: i in services && services[i] == uuid
  }

  lemma {:induction false} ServicesAdded(services: map<nat, Uuid>, uuid: Uuid, count: nat, id: nat)
    requires count > 0
    ensures HasService(WithServices(services, uuid, count, id), uuid)
  {
    assert WithServices(services, uuid, count, id)[id + count - 1] == uuid;
  }

  /** An active service rule has a running service, before an update of it and after, exactly when the rule was not
      active before, or it is enabled, the licence has room for one rule more, and its services all start. Disabling
      it, updating it when as many rules are active as the licence allows, or a failure leaves it active with none. */
  lemma ServiceUpdateLeavesAnEmptyRule(s: State, rule: ServiceRule, w: World)
    requires rule.services > 0 && (rule.uuid in s.rules <==> HasService(s.services, rule.uuid))
    ensures var after := ServiceRuleUpdated(s, rule, w).state;
            (rule.uuid in after.rules <==> HasService(after.services, rule.uuid))
            <==> (rule.uuid !in s.rules || (rule.enabled && |s.rules| < s.ruleLimit && AllServicesOpen(rule, w)))
  {
    var without := WithoutServicesOf(s.services, rule.uuid);
    assert !HasService(without, rule.uuid);
    ServicesAdded(without, rule.uuid, rule.services, s.nextId);
  }

  /** A deletion answers true exactly if a rule left one of the two sets, and takes out that one rule only. */
  lemma DeletionTells(s: State, uuid: Uuid, service: Option<nat>)
    requires Finds(s.services, uuid, service)
    ensures var Deleted(after, wasDeleted) := RuleDeleted(s, uuid, service);
            && (wasDeleted <==> after.rules != s.rules || after.toCheck != s.toCheck)
            && uuid !in after.rules && uuid !in after.toCheck
            && after.rules - {uuid} == s.rules - {uuid} && after.toCheck - {uuid} == s.toCheck - {uuid}
            && (!wasDeleted ==> after == s)
            && after.tunnels == s.tunnels
            && (forall u :: u != uuid ==> ServicesOf(after.services, u) == ServicesOf(s.services, u))
            && (uuid in s.rules && s.rules[uuid].isTunnel ==> after.services == s.services)
  {
    if uuid !in s.rules {
      assert s.rules - {uuid} == s.rules;
    }
    if uuid !in s.toCheck {
      assert s.toCheck - {uuid} == s.toCheck;
    }
    forall u | u != uuid
      ensures ServicesOf(RuleDeleted(s, uuid, service).state.services, u) == ServicesOf(s.services, u)
    {
    }
  }

  function ServicesOf(services: map<nat, Uuid>, uuid: Uuid): set<nat> {
    set i | i in services && services[i] == uuid
  }

  lemma {:induction false} ServicesCounted(services: map<nat, Uuid>, uuid: Uuid, count: nat, id: nat)
    requires ServicesOf(services, uuid) == {} && forall i :: i in services ==> i < id
    ensures var more := WithServices(services, uuid, count, id);
            && |ServicesOf(more, uuid)| == count
            && (forall i :: i in services ==> i in more && more[i] == services[i])
            && (forall i :: i in more ==> i < id + count && (i in services || more[i] == uuid))
  {
    if count > 0 {
      ServicesCounted(services, uuid, count - 1, id);
      var fewer, more := WithServices(services, uuid, count - 1, id), WithServices(services, uuid, count, id);
      assert ServicesOf(more, uuid) == ServicesOf(fewer, uuid) + {id + count - 1};
      assert id + count - 1 !in ServicesOf(fewer, uuid);
    }
  }

  /** What the update of a service rule answers, and which services run after it: all that it has if it was started,
      none on any other path past the first check; those of other rules run on. */
  lemma ServiceUpdateAnswers(s: State, rule: ServiceRule, w: World)
    requires forall i :: i in s.services ==> i < s.nextId
    ensures var Updated(after, outcome) := ServiceRuleUpdated(s, rule, w);
            var starts := rule.enabled && |s.rules| < s.ruleLimit && AllServicesOpen(rule, w);
            && (outcome == Done(false) <==> rule.services == 0)
            && (outcome == Done(true) <==> rule.services > 0 && (!rule.enabled || starts))
            && (outcome == Thrown(LicenseError) <==> rule.services > 0 && rule.enabled && |s.rules| >= s.ruleLimit)
            && (rule.services == 0 ==> after == s)
            && (rule.services > 0 ==> |ServicesOf(after.services, rule.uuid)| == if starts then rule.services else 0)
            && (forall u :: u != rule.uuid ==> ServicesOf(after.services, u) == ServicesOf(s.services, u))
            && (rule.uuid in after.rules && rule.uuid !in s.rules ==> after.rules[rule.uuid] == ActiveRule(false, {}))
            && (starts && rule.services > 0 ==> rule.uuid in after.rules)
            && after.rules - {rule.uuid} == s.rules - {rule.uuid}
            && after.tunnels == s.tunnels && after.toCheck == s.toCheck
  {
    var without := WithoutServicesOf(s.services, rule.uuid);
    assert ServicesOf(without, rule.uuid) == {};
    ServicesCounted(without, rule.uuid, rule.services, s.nextId);
    hide AllServicesOpen;
    var after := ServiceRuleUpdated(s, rule, w).state;
    forall u | u != rule.uuid
      ensures ServicesOf(after.services, u) == ServicesOf(s.services, u)
    {
      assert ServicesOf(without, u) == ServicesOf(s.services, u);
    }
    PutElse(s.rules, rule.uuid, ActiveRule(false, {}));
  }

  lemma PutElse<K, V>(m: map<K, V>, k: K, v: V)
    ensures Put(m, k, v) - {k} == m - {k}
  {
  }

  /** Opening a tunnel: it is there exactly if its setup has not failed, the licence has room and it starts. */
  lemma TunnelOpenedAnswers(s: State, uuid: Uuid, setupFailed: bool, starts: bool)
    requires s.nextId !in s.tunnels
    ensures var Updated(after, outcome) := TunnelOpened(s, uuid, setupFailed, starts);
            && (outcome == Done(true) <==> !setupFailed && |s.tunnels| < s.tunnelLimit && starts)
            && (outcome == Done(false) <==> setupFailed)
            && (outcome == Done(true) <==> s.nextId in after.tunnels)
            && after.tunnels - {s.nextId} == s.tunnels && after.rules == s.rules && after.toCheck == s.toCheck
            && (s.nextId in after.tunnels ==> after.tunnels[s.nextId] == uuid && after.nextId > s.nextId)
  {
    assert s.tunnels - {s.nextId} == s.tunnels;
  }

  /** Closing a tunnel takes out that tunnel, and for a static one its rule; nothing of a tunnel that is not there. */
  lemma TunnelClosedAlone(s: State, id: nat, isStatic: bool)
    ensures var after := TunnelClosed(s, id, isStatic);
            && id !in after.tunnels && after.tunnels == s.tunnels - {id}
            && (forall u :: u in s.rules ==>
                  (u in after.rules <==> !(isStatic && id in s.tunnels && s.tunnels[id] == u)))
            && (forall u :: u in after.rules ==> u in s.rules && after.rules[u] == s.rules[u])
            && after.services == s.services && after.toCheck == s.toCheck
  {
    if id !in s.tunnels {
      assert s.tunnels - {id} == s.tunnels;
    }
  }

  /** Deleting a service rule stops one of its services: none is left exactly when it had at most one. */
  lemma OneServiceIsStopped(s: State, uuid: Uuid, service: Option<nat>)
    requires uuid in s.rules && !s.rules[uuid].isTunnel && Finds(s.services, uuid, service)
    ensures !HasService(RuleDeleted(s, uuid, service).state.services, uuid) <==>
            forall i, j :: i in s.services && j in s.services && s.services[i] == s.services[j] == uuid ==> i == j
  {
    var left := RuleDeleted(s, uuid, service).state.services;
    if HasService(left, uuid) {
      var i :| i in left && left[i] == uuid;
      assert i in s.services && s.services[i] == uuid && service != Some(i);
    } else {
      forall i, j | i in s.services && j in s.services && s.services[i] == s.services[j] == uuid
        ensures i == j
      {
        assert i !in left && j !in left;
      }
    }
  }

  lemma StartedTunnels(s: State, installed: State, rule: TunnelRule, o: Opening, w: World)
    requires installed.tunnels == o.tunnels && forall i :: 0 <= i < |o.added| ==> o.added[i] >= s.nextId
    ensures forall t :: t < s.nextId && t in o.tunnels ==>
              t in Started(installed, rule, o, w).state.tunnels
    ensures forall t :: t in Started(installed, rule, o, w).state.tunnels ==>
              t in o.tunnels && Started(installed, rule, o, w).state.tunnels[t] == o.tunnels[t]
  {
  }

  lemma UpdatedTunnels(s: State, rule: TunnelRule, victim: Option<nat>, w: World)
    ensures var after, out := TunnelRuleUpdated(s, rule, victim, w).state, TakenOut(s, rule.uuid, victim);
            var o := RuleOpened(out, rule, w);
            after.tunnels == out.tunnels || after.tunnels == Started(Installed(out, rule, o), rule, o, w).state.tunnels
  {
    hide RuleOpened, Started, TakenOut;
  }

  /** On every path an update keeps the old tunnels but the one that was taken out. */
  lemma OldTunnelsLeft(s: State, reopening: set<Uuid>, rule: TunnelRule, victim: Option<nat>, w: World)
    requires Safe(s, reopening) && Finds(s.tunnels, rule.uuid, victim)
    ensures var after := TunnelRuleUpdated(s, rule, victim, w).state;
            && (forall t :: t in s.tunnels ==> t < s.nextId && (t in after.tunnels <==> victim != Some(t)))
            && (forall t :: t in after.tunnels && t < s.nextId ==> t in s.tunnels && after.tunnels[t] == s.tunnels[t])
  {
    hide RuleOpened, Started, TunnelRuleUpdated;
    var out := TakenOut(s, rule.uuid, victim);
    assert |out.tunnels| <= out.tunnelLimit by { TakenOutIsSafe(s, reopening, rule.uuid, victim); }
    OldTunnelsOpened(out, rule, w);
    var o := RuleOpened(out, rule, w);
    StartedTunnels(s, Installed(out, rule, o), rule, o, w);
    UpdatedTunnels(s, rule, victim, w);
  }

  lemma OldTunnelsOpened(s: State, rule: TunnelRule, w: World)
    requires |s.tunnels| <= s.tunnelLimit && forall t :: t in s.tunnels ==> t < s.nextId
    ensures var o := RuleOpened(s, rule, w);
            && (forall i :: 0 <= i < |o.added| ==> o.added[i] >= s.nextId)
            && (forall t :: t < s.nextId ==> (t in o.tunnels <==> t in s.tunnels))
            && (forall t :: t in s.tunnels ==> t in o.tunnels && o.tunnels[t] == s.tunnels[t])
  {
    RuleGrows(s, rule, w);
    hide RuleOpened;
  }

  /** An update, also one that throws, takes out one tunnel of the rule only: all its tunnels are new afterwards
      exactly when it had at most one before. */
  lemma OneTunnelIsReplaced(s: State, reopening: set<Uuid>, rule: TunnelRule, victim: Option<nat>, w: World)
    requires Safe(s, reopening) && Finds(s.tunnels, rule.uuid, victim)
    ensures var after := TunnelRuleUpdated(s, rule, victim, w).state;
            (forall t :: t in after.tunnels && after.tunnels[t] == rule.uuid ==> t >= s.nextId)
            <==> (forall t, t' :: t in s.tunnels && t' in s.tunnels && s.tunnels[t] == s.tunnels[t'] == rule.uuid
                    ==> t == t')
  {
    OldTunnelsLeft(s, reopening, rule, victim, w);
    hide TunnelRuleUpdated, Safe;
    var after := TunnelRuleUpdated(s, rule, victim, w).state;
    if t :| t in after.tunnels && after.tunnels[t] == rule.uuid && t < s.nextId {
      assert t in s.tunnels && s.tunnels[t] == rule.uuid;
      assert victim.Some? && victim.value != t;
    } else {
      forall t, t' | t in s.tunnels && t' in s.tunnels && s.tunnels[t] == s.tunnels[t'] == rule.uuid
        ensures t == t'
      {
        assert victim == Some(t) && victim == Some(t');
      }
    }
  }

  // ---------------------------------------------------------------- runs in which it goes wrong

  lemma TwoEvents(server: Server, e: Event, f: Event)
    requires Enabled(server.registry, e) && Enabled(Apply(server, e).registry, f)
    ensures Runs(server, [e, f]) && After(server, [e, f]) == Apply(Apply(server, e), f)
  {
    hide Apply, Enabled;
    assert [e, f][1..] == [f] && [f][1..] == [];
    assert Runs(Apply(Apply(server, e), f), []);
    assert Runs(Apply(server, e), [f]);
    assert After(Apply(server, e), [f]) == Apply(Apply(server, e), f);
  }

  /** The first update of a service rule starts its services. */
  lemma FirstServices(ruleLimit: nat, tunnelLimit: nat, uuid: Uuid, count: nat)
    requires ruleLimit >= 1 && count >= 1
    ensures var s := ServiceRuleUpdated(Empty(ruleLimit, tunnelLimit), ServiceRule(uuid, true, count), ALL_OPEN).state;
            && s.rules == map[uuid := ActiveRule(false, {})]
            && s.services == WithServices(map[], uuid, count, 0)
  {
    var s, rule := Empty(ruleLimit, tunnelLimit), ServiceRule(uuid, true, count);
    var without: map<nat, Uuid> := map[];
    assert WithoutServicesOf(s.services, uuid) == without;
    assert AllServicesOpen(rule, ALL_OPEN);
    var after := ServiceRuleUpdated(s, rule, ALL_OPEN).state;
    assert after.services == WithServices(without, uuid, count, 0);
    assert after.rules == Put(map[], uuid, ActiveRule(false, {}));
  }

  predicate Serving(s: State, uuid: Uuid) {
    uuid in s.rules && !s.rules[uuid].isTunnel ==> exists i :: i in s.services && s.services[i] == uuid
  }

  /** Over all runs: an active service rule always has a service iff no rule can be active at all. A rule that is
      disabled after its first update is the run that shows it. */
  lemma ServiceRulesAreServed(ruleLimit: nat, tunnelLimit: nat)
    ensures var start := Server(Empty(ruleLimit, tunnelLimit), {});
            (forall events, uuid :: Runs(start, events) ==> Serving(After(start, events).registry, uuid))
            <==> ruleLimit == 0
  {
    var start := Server(Empty(ruleLimit, tunnelLimit), {});
    if ruleLimit == 0 {
      forall events, uuid | Runs(start, events)
        ensures Serving(After(start, events).registry, uuid)
      {
        RunIsSafe(start, events);
        NoRules(After(start, events).registry, After(start, events).reopening, uuid);
      }
    } else {
      var e := UpdateServiceRule(ServiceRule(7, true, 1), ALL_OPEN);
      var f := UpdateServiceRule(ServiceRule(7, false, 1), ALL_OPEN);
      FirstServices(ruleLimit, tunnelLimit, 7, 1);
      TwoEvents(start, e, f);
      assert !Serving(After(start, [e, f]).registry, 7);
    }
  }

  lemma NoRules(s: State, reopening: set<Uuid>, uuid: Uuid)
    requires Safe(s, reopening) && s.ruleLimit == 0
    ensures uuid !in s.rules
  {
    SizeWithout(s.rules, uuid);
  }

  /** A service rule is refused, and emptied, when it is updated while as many rules are active as licensed. */
  lemma RefusedAtTheLimit()
    ensures var start := Server(Empty(1, 0), {});
            exists events :: Runs(start, events) && !Serving(After(start, events).registry, 7)
  {
    var start, e := Server(Empty(1, 0), {}), UpdateServiceRule(ServiceRule(7, true, 1), ALL_OPEN);
    FirstServices(1, 0, 7, 1);
    TwoEvents(start, e, e);
    assert !Serving(After(start, [e, e]).registry, 7);
  }

  /** A deleted service rule whose second service runs on. */
  lemma ServiceOutlivesItsRule(ruleLimit: nat, tunnelLimit: nat)
    requires ruleLimit >= 1
    ensures var start := Server(Empty(ruleLimit, tunnelLimit), {});
            exists events ::
              && Runs(start, events)
              && 7 !in After(start, events).registry.rules && HasService(After(start, events).registry.services, 7)
  {
    var start := Server(Empty(ruleLimit, tunnelLimit), {});
    var e, f := UpdateServiceRule(ServiceRule(7, true, 2), ALL_OPEN), DeleteRule(7, Some(0));
    FirstServices(ruleLimit, tunnelLimit, 7, 2);
    assert WithServices(map[], 7, 2, 0) == map[0 := 7, 1 := 7];
    TwoEvents(start, e, f);
    assert After(start, [e, f]).registry.services[1] == 7;
  }

  lemma TwoTunnels(ruleLimit: nat, tunnelLimit: nat, uuid: Uuid)
    requires ruleLimit >= 1 && tunnelLimit >= 2
    ensures var rule := TunnelRule(uuid, true, [Dialling, Dialling]);
            TunnelRuleUpdated(Empty(ruleLimit, tunnelLimit), rule, None, ALL_OPEN).state.tunnels == map[0 := uuid, 1 := uuid]
  {
    var rule := TunnelRule(uuid, true, [Dialling, Dialling]);
    var empty := TakenOut(Empty(ruleLimit, tunnelLimit), uuid, None);
    var o := Opening({}, map[], [], false, 0, false);
    var one := Dialled(o, uuid);
    var two := Dialled(one, uuid);
    assert |one.tunnels| == 1;
    assert OpenInputs(tunnelLimit, rule, ALL_OPEN, 2, two) == two;
    assert OpenInputs(tunnelLimit, rule, ALL_OPEN, 1, one) == two;
    assert OpenInputs(tunnelLimit, rule, ALL_OPEN, 0, o) == two;
    assert empty.tunnels == map[];
    assert FirstBadSetup(ALL_OPEN, 2, 2) == FirstBadSetup(ALL_OPEN, 2, 1) == FirstBadSetup(ALL_OPEN, 2, 0) == None;
  }

  /** A disabled tunnel rule whose second tunnel stays open. */
  lemma TunnelOutlivesItsRule(ruleLimit: nat, tunnelLimit: nat)
    requires ruleLimit >= 1 && tunnelLimit >= 2
    ensures var start := Server(Empty(ruleLimit, tunnelLimit), {});
            exists events ::
              && Runs(start, events)
              && 7 !in After(start, events).registry.rules
              && exists t :: t in After(start, events).registry.tunnels && After(start, events).registry.tunnels[t] == 7
  {
    var start := Server(Empty(ruleLimit, tunnelLimit), {});
    var e := UpdateTunnelRule(TunnelRule(7, true, [Dialling, Dialling]), None, ALL_OPEN);
    var f := UpdateTunnelRule(TunnelRule(7, false, []), Some(0), ALL_OPEN);
    TwoTunnels(ruleLimit, tunnelLimit, 7);
    hide RuleOpened, Started;
    TwoEvents(start, e, f);
    assert After(start, [e, f]).registry.tunnels[1] == 7;
  }

  // ---------------------------------------------------------------- the object

  class Implementation {
    const ruleLimit: nat
    const tunnelLimit: nat
    var activeRules: map<Uuid, ActiveRule>
    var activeTunnels: map<nat, Uuid>
    var activeServices: map<nat, Uuid>
    var tunnelRulesToCheck: map<Uuid, TunnelRule>
    var nextId: nat

    function View(): State
      reads this
    {
      State(ruleLimit, tunnelLimit, activeRules, activeTunnels, activeServices, tunnelRulesToCheck, nextId)
    }

    constructor (ruleLimit: nat, tunnelLimit: nat)
      ensures View() == Empty(ruleLimit, tunnelLimit)
    {
      this.ruleLimit := ruleLimit;
      this.tunnelLimit := tunnelLimit;
      activeRules := map[];
      activeTunnels := map[];
      activeServices := map[];
      tunnelRulesToCheck := map[];
      nextId := 0;
    }

    /** Opens the inputs of a rule on copies of the registries. */
    method OpenRule(rule: TunnelRule, w: World) returns (o: Opening)
      ensures o == RuleOpened(View(), rule, w)
    {
      o := Opening({}, activeTunnels, [], false, nextId, false);
      if !w.filtersMade {
        o := o.(failed := true);
        return;
      }
      var inputI := 0;
      while inputI < |rule.inputs|
        invariant inputI <= |rule.inputs|
        invariant OpenInputs(tunnelLimit, rule, w, inputI, o) == RuleOpened(View(), rule, w)
      {
        match rule.inputs[inputI] {
          case Accepting(uuid, multiClient) =>
            if !multiClient {
              return;
            }
            match AnswerAt(w, inputI) {
              case Opened => o := o.(handlers := o.handlers + {uuid});
              case NotConnected =>
              case Broken => o := o.(failed := true); return;
            }
          case Dialling =>
            if |o.tunnels| + 1 > tunnelLimit {
              o := o.(failed := true);
              return;
            }
            match AnswerAt(w, inputI) {
              case Opened =>
                o := o.(tunnels := o.tunnels[o.nextId := rule.uuid]);
                o := o.(added := o.added + [o.nextId], nextId := o.nextId + 1);
              case NotConnected => o := o.(check := true);
              case Broken => o := o.(failed := true); return;
            }
        }
        inputI := inputI + 1;
      }
    }

    method UpdateTunnelRule(rule: TunnelRule, w: World) returns (outcome: Outcome, ghost victim: Option<nat>)
      modifies this
      ensures Finds(old(activeTunnels), rule.uuid, victim)
      ensures Updated(View(), outcome) == TunnelRuleUpdated(old(View()), rule, victim, w)
    {
      hide RuleOpened;
      tunnelRulesToCheck := tunnelRulesToCheck - {rule.uuid};
      activeRules := activeRules - {rule.uuid};
      victim := None;
      if exists t :: t in activeTunnels && activeTunnels[t] == rule.uuid {
        var pos :| pos in activeTunnels && activeTunnels[pos] == rule.uuid;
        victim := Some(pos);
        activeTunnels := activeTunnels - {pos};
      }
      ghost var out := TakenOut(old(View()), rule.uuid, victim);
      assert View() == out;
      hide TakenOut, Finds;
      if !rule.enabled {
        return Done(true), victim;
      }
      if |activeRules| + 1 > ruleLimit {
        return Thrown(LicenseError), victim;
      }
      var opening := OpenRule(rule, w);
      nextId := opening.nextId;
      if opening.failed {
        return Thrown(LocalError), victim;
      }
      activeRules := activeRules[rule.uuid := ActiveRule(true, opening.handlers)];
      activeTunnels := opening.tunnels;
      if opening.check {
        tunnelRulesToCheck := tunnelRulesToCheck[rule.uuid := rule];
      }
      assert View() == Installed(out, rule, opening);
      hide Installed;
      label Opened:
      var i := 0;
      while i < |opening.added|
        invariant i <= |opening.added|
        invariant FirstBadSetup(w, |opening.added|, i) == FirstBadSetup(w, |opening.added|, 0)
        invariant View() == old@Opened(View())
      {
        if !SetupAt(w, i) {
          activeTunnels := activeTunnels - {opening.added[i]};
          return Thrown(LocalError), victim;
        }
        i := i + 1;
      }
      return Done(|rule.inputs| == |opening.handlers| + |opening.added|), victim;
    }

    method UpdateServiceRule(rule: ServiceRule, w: World) returns (outcome: Outcome)
      modifies this
      ensures Updated(View(), outcome) == ServiceRuleUpdated(old(View()), rule, w)
    {
      if rule.services == 0 {
        return Done(false);
      }
      activeServices := WithoutServicesOf(activeServices, rule.uuid);
      if !rule.enabled {
        return Done(true);
      }
      if |activeRules| + 1 > ruleLimit {
        return Thrown(LicenseError);
      }
      var services := activeServices;
      var i := 0;
      while i < rule.services
        invariant i <= rule.services
        invariant forall k :: 0 <= k < i ==> AnswerAt(w, k).Opened?
        invariant services == WithServices(activeServices, rule.uuid, i, nextId)
      {
        if !AnswerAt(w, i).Opened? {
          return Thrown(LocalError);
        }
        services := services[nextId + i := rule.uuid];
        i := i + 1;
      }
      activeServices := services;
      nextId := nextId + rule.services;
      activeRules := Put(activeRules, rule.uuid, ActiveRule(false, {}));
      return Done(true);
    }

    method DeleteRule(uuid: Uuid) returns (wasDeleted: bool, ghost stopped: Option<nat>)
      modifies this
      ensures Finds(old(activeServices), uuid, stopped)
      ensures Deleted(View(), wasDeleted) == RuleDeleted(old(View()), uuid, stopped)
    {
      stopped := None;
      if i :| i in activeServices && activeServices[i] == uuid {
        stopped := Some(i);
      }
      wasDeleted := uuid in activeRules;
      if wasDeleted && !activeRules[uuid].isTunnel {
        if exists i :: i in activeServices && activeServices[i] == uuid {
          var pos :| pos in activeServices && activeServices[pos] == uuid;
          stopped := Some(pos);
          activeServices := activeServices - {pos};
        }
      }
      activeRules := activeRules - {uuid};
      if uuid in tunnelRulesToCheck {
        tunnelRulesToCheck := tunnelRulesToCheck - {uuid};
        wasDeleted := true;
      } else {
        assert tunnelRulesToCheck - {uuid} == tunnelRulesToCheck;
      }
    }

    method OpenTunnelImplementation(ruleUuid: Uuid, setupFailed: bool, starts: bool) returns (outcome: Outcome)
      requires nextId !in activeTunnels
      modifies this
      ensures Updated(View(), outcome) == TunnelOpened(old(View()), ruleUuid, setupFailed, starts)
    {
      if setupFailed {
        return Done(false);
      }
      if |activeTunnels| + 1 > tunnelLimit {
        return Thrown(LocalError);
      }
      var id := nextId;
      nextId := nextId + 1;
      activeTunnels := activeTunnels[id := ruleUuid];
      if !starts {
        var _ := CloseTunnel(id, true, false, false);
        assert activeTunnels == old(activeTunnels);
        return Thrown(LocalError);
      }
      return Done(true);
    }

    /** Up to the update that reopens the rule of a static tunnel. */
    method CloseTunnel(tunnelId: nat, isDead: bool, isSetupFailed: bool, isStatic: bool) returns (next: AfterClose)
      modifies this
      ensures var reopens := !isDead && !isSetupFailed && isStatic;
              View() == TunnelClosed(old(View()), tunnelId, reopens)
      ensures next == if tunnelId !in old(activeTunnels) then NothingToDo
                      else if isDead then Destroyed
                      else if isSetupFailed then Switched
                      else if isStatic then Reopened
                      else Destroyed
    {
      if tunnelId !in activeTunnels {
        return NothingToDo;
      }
      var ruleUuid := activeTunnels[tunnelId];
      activeTunnels := activeTunnels - {tunnelId};
      if !isDead {
        if isSetupFailed {
          return Switched;
        } else if isStatic {
          activeRules := activeRules - {ruleUuid};
          return Reopened;
        }
      }
      return Destroyed;
    }

    /** Tries the waiting rules again, in the given order, up to the first error. The rules it has not come to do not
        wait any more: they are lost. */
    method CheckTunnelRules(order: seq<Uuid>, worlds: map<Uuid, World>)
      returns (more: bool, threw: bool, lost: seq<Uuid>, ghost turns: seq<Turn>)
      requires Lists(order, tunnelRulesToCheck)
      modifies this
      ensures TurnsOf(turns, order, old(tunnelRulesToCheck), worlds)
      ensures Follows(old(View()).(toCheck := map[]), turns, true)
      ensures var pass := PassOver(old(View()).(toCheck := map[]), turns, true);
              && View() == pass.state && (threw <==> pass.error.Some?)
              && pass.tried <= |order| && lost == order[pass.tried..]
      ensures more <==> !threw && tunnelRulesToCheck != map[]
    {
      hide TunnelRuleUpdated, Finds, PassOver, Follows, AnswerTo, TurnsOf;
      turns := [];
      NoTurns(View().(toCheck := map[]), tunnelRulesToCheck, worlds);
      if tunnelRulesToCheck == map[] {
        NobodyWaits(order, tunnelRulesToCheck);
        return false, false, [], turns;
      }
      var rulesToCheck := tunnelRulesToCheck;
      tunnelRulesToCheck := map[];
      ghost var start := View();
      for i := 0 to |order|
        invariant Underway(start, View(), turns, order[..i], rulesToCheck, worlds)
      {
        var rule := rulesToCheck[order[i]];
        ghost var now := View();
        var outcome, victim := UpdateTunnelRule(rule, AnswerTo(worlds, order[i]));
        OneTurnMore(start, now, turns, order, rulesToCheck, worlds, i, victim);
        turns := turns + [Turn(rule, victim, AnswerTo(worlds, order[i]))];
        if outcome.Thrown? { // also a licence error: Update has sliced it
          RestIsUntried(start, turns, order, rulesToCheck, worlds, i + 1);
          turns := turns + Untried(order[i + 1..], rulesToCheck, worlds);
          return false, true, order[i + 1..], turns;
        }
      }
      assert order[..|order|] == order;
      return tunnelRulesToCheck != map[], false, [], turns;
    }
  }

  lemma NobodyWaits(order: seq<Uuid>, waiting: map<Uuid, TunnelRule>)
    requires Lists(order, waiting)
    ensures waiting == map[] <==> order == []
  {
    if order != [] {
      assert order[0] in waiting;
    } else {
      assert forall u :: u in waiting ==> u in order;
    }
  }

  lemma NoTurns(s: State, waiting: map<Uuid, TunnelRule>, worlds: map<Uuid, World>)
    ensures Underway(s, s, [], [], waiting, worlds)
  {
  }

  /** What becomes of a tunnel that is taken out of the active ones. */
  datatype AfterClose = NothingToDo | Switched | Reopened | Destroyed
}
