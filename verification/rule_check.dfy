// CheckTunnelRules as a whole: which waiting rules a pass opens again, where it ends, and
// which rules it loses.
module RuleCheck {
  import opened Wrappers
  import opened Registry

  // ---------------------------------------------------------------- one update

  function Flag(b: bool): nat { if b then 1 else 0 }

  /** Inputs are opened in order up to the first that accepts a single client. */
  function Reached(inputs: seq<Endpoint>, i: nat): nat
    decreases |inputs| - i
  {
    if i >= |inputs| || (inputs[i].Accepting? && !inputs[i].multiClient) then i else Reached(inputs, i + 1)
  }

  /** The tunnels that the first `k` inputs dial. */
  function Dials(rule: TunnelRule, w: World, k: nat): nat
    requires k <= |rule.inputs|
  {
    if k == 0 then 0
    else Dials(rule, w, k - 1) + Flag(rule.inputs[k - 1].Dialling? && AnswerAt(w, k - 1).Opened?)
  }

  /** No error at this input: none from outside, and one more tunnel is licensed before it is dialled. */
  predicate InputOpens(rule: TunnelRule, w: World, k: nat, room: int)
    requires k < |rule.inputs|
  {
    !AnswerAt(w, k).Broken? && (rule.inputs[k].Dialling? ==> Dials(rule, w, k) < room)
  }

  lemma {:induction false} ReachedIsInside(inputs: seq<Endpoint>, i: nat)
    requires i <= |inputs|
    ensures i <= Reached(inputs, i) <= |inputs|
    decreases |inputs| - i
  {
    if i < |inputs| {
      ReachedIsInside(inputs, i + 1);
    }
  }

  /** All inputs open when there is room for that many tunnels. */
  predicate InputsOpen(rule: TunnelRule, w: World, room: int) {
    w.filtersMade && OpenFrom(rule, w, 0, room)
  }

  predicate OpenFrom(rule: TunnelRule, w: World, i: nat, room: int) {
    forall k: nat | i <= k < Reached(rule.inputs, i) && k < |rule.inputs| :: InputOpens(rule, w, k, room)
  }

  function AllDials(rule: TunnelRule, w: World): nat {
    ReachedIsInside(rule.inputs, 0);
    Dials(rule, w, Reached(rule.inputs, 0))
  }

  predicate SetupsStart(rule: TunnelRule, w: World) {
    forall k :: 0 <= k < AllDials(rule, w) ==> SetupAt(w, k)
  }

  ghost predicate HasTunnel(s: State, uuid: Uuid) {
    exists t :: t in s.tunnels && s.tunnels[t] == uuid
  }

  lemma OneInput(rule: TunnelRule, w: World, i: nat, room: int)
    requires i < Reached(rule.inputs, i) && i < |rule.inputs|
    ensures OpenFrom(rule, w, i, room) <==> InputOpens(rule, w, i, room) && OpenFrom(rule, w, i + 1, room)
    ensures Reached(rule.inputs, i) == Reached(rule.inputs, i + 1)
  {
    hide InputOpens;
  }

  /** The copies after an input that opened. */
  function InputOpened(rule: TunnelRule, w: World, i: nat, o: Opening): Opening
    requires i < |rule.inputs|
  {
    match rule.inputs[i]
    case Accepting(uuid, _) => if AnswerAt(w, i).Opened? then Accepted(o, uuid) else o
    case Dialling => if AnswerAt(w, i).NotConnected? then o.(check := true) else Dialled(o, rule.uuid)
  }

  lemma OpenOne(limit: nat, rule: TunnelRule, w: World, i: nat, o: Opening, base: nat)
    requires i < Reached(rule.inputs, i) && i < |rule.inputs| && |o.tunnels| == base + Dials(rule, w, i) && !o.failed
    ensures InputOpens(rule, w, i, limit - base) ==>
              && OpenInputs(limit, rule, w, i, o) == OpenInputs(limit, rule, w, i + 1, InputOpened(rule, w, i, o))
              && |InputOpened(rule, w, i, o).added| == |o.added| + Dials(rule, w, i + 1) - Dials(rule, w, i)
    ensures !InputOpens(rule, w, i, limit - base) ==> OpenInputs(limit, rule, w, i, o).failed
  {
  }

  lemma OneInputGrows(was: State, rule: TunnelRule, w: World, i: nat, o: Opening)
    requires i < |rule.inputs| && Grown(was, rule.uuid, o.tunnels, o.added, o.nextId)
    requires InputOpens(rule, w, i, was.tunnelLimit - |was.tunnels|) && |o.added| == Dials(rule, w, i)
    ensures var next := InputOpened(rule, w, i, o);
            Grown(was, rule.uuid, next.tunnels, next.added, next.nextId) && next.failed == o.failed
  {
    if InputOpened(rule, w, i, o) == Dialled(o, rule.uuid) && rule.inputs[i].Dialling? {
      GrowsByOne(was, rule.uuid, o.tunnels, o.added, o.nextId);
    }
  }

  lemma NoneReached(limit: nat, rule: TunnelRule, w: World, i: nat, o: Opening, room: int)
    requires i <= |rule.inputs| && Reached(rule.inputs, i) == i
    ensures OpenInputs(limit, rule, w, i, o) == o && OpenFrom(rule, w, i, room)
  {
    if i < |rule.inputs| {
      ReachedIsInside(rule.inputs, i + 1);
    }
  }

  lemma {:induction false} InputsOpened(was: State, rule: TunnelRule, w: World, i: nat, o: Opening)
    requires i <= |rule.inputs| && !o.failed && |o.added| == Dials(rule, w, i)
    requires Grown(was, rule.uuid, o.tunnels, o.added, o.nextId)
    ensures var end, last := OpenInputs(was.tunnelLimit, rule, w, i, o), Reached(rule.inputs, i);
            && i <= last <= |rule.inputs|
            && (!end.failed <==> OpenFrom(rule, w, i, was.tunnelLimit - |was.tunnels|))
            && (!end.failed ==> |end.added| == Dials(rule, w, last))
    decreases |rule.inputs| - i
  {
    assert |o.tunnels| == |was.tunnels| + Dials(rule, w, i);
    hide Grown, InputOpened, InputOpens, OpenInputs, Dials, Reached, OpenFrom;
    ReachedIsInside(rule.inputs, i);
    if Reached(rule.inputs, i) == i {
      NoneReached(was.tunnelLimit, rule, w, i, o, was.tunnelLimit - |was.tunnels|);
    } else {
      OneInput(rule, w, i, was.tunnelLimit - |was.tunnels|);
      OpenOne(was.tunnelLimit, rule, w, i, o, |was.tunnels|);
      if InputOpens(rule, w, i, was.tunnelLimit - |was.tunnels|) {
        OneInputGrows(was, rule, w, i, o);
        InputsOpened(was, rule, w, i + 1, InputOpened(rule, w, i, o));
      }
    }
  }

  lemma RuleOpens(s: State, rule: TunnelRule, w: World)
    requires |s.tunnels| <= s.tunnelLimit && forall t :: t in s.tunnels ==> t < s.nextId
    ensures var o := RuleOpened(s, rule, w);
            && (!o.failed <==> InputsOpen(rule, w, s.tunnelLimit - |s.tunnels|))
            && (!o.failed ==> |o.added| == AllDials(rule, w))
  {
    if w.filtersMade {
      InputsOpened(s, rule, w, 0, Opening({}, s.tunnels, [], false, s.nextId, false));
    }
  }

  lemma {:induction false} SetupsUpTo(w: World, count: nat, i: nat)
    ensures FirstBadSetup(w, count, i) == None <==> forall k :: i <= k < count ==> SetupAt(w, k)
    ensures var bad := FirstBadSetup(w, count, i);
            bad.Some? ==> i <= bad.value && !SetupAt(w, bad.value) && forall k :: i <= k < bad.value ==> SetupAt(w, k)
    decreases count - i
  {
    if i < count {
      SetupsUpTo(w, count, i + 1);
    }
  }

  predicate Licensed(s: State, uuids: set<Uuid>) {
    |s.rules.Keys + uuids| <= s.ruleLimit
  }

  function Room(s: State, own: nat): int {
    s.tunnelLimit - |s.tunnels| + own
  }

  lemma RulesTakenOut(s: State, uuid: Uuid, victim: Option<nat>)
    ensures |TakenOut(s, uuid, victim).rules| + 1 <= s.ruleLimit <==> Licensed(s, {uuid})
  {
    SizeWithout(s.rules, uuid);
    if uuid in s.rules {
      assert s.rules.Keys + {uuid} == s.rules.Keys;
    }
  }

  lemma TunnelsTakenOut(s: State, uuid: Uuid, victim: Option<nat>)
    requires Finds(s.tunnels, uuid, victim)
    ensures |TakenOut(s, uuid, victim).tunnels| == |s.tunnels| - Flag(HasTunnel(s, uuid))
  {
    if victim.Some? {
      SizeWithout(s.tunnels, victim.value);
    }
  }

  lemma StartedSucceeds(installed: State, rule: TunnelRule, o: Opening, w: World)
    ensures Started(installed, rule, o, w).outcome != Thrown(LicenseError)
    ensures |o.added| == AllDials(rule, w) ==> (Started(installed, rule, o, w).outcome.Done? <==> SetupsStart(rule, w))
  {
    SetupsUpTo(w, |o.added|, 0);
  }

  lemma SafeTunnels(s: State, reopening: set<Uuid>)
    requires Safe(s, reopening)
    ensures |s.tunnels| <= s.tunnelLimit && forall t :: t in s.tunnels ==> t < s.nextId
  {
  }

  lemma OutcomeOf(s: State, rule: TunnelRule, victim: Option<nat>, w: World)
    requires rule.enabled
    ensures var out := TakenOut(s, rule.uuid, victim);
            var o := RuleOpened(out, rule, w);
            TunnelRuleUpdated(s, rule, victim, w).outcome ==
            if |out.rules| + 1 > s.ruleLimit then Thrown(LicenseError)
            else if o.failed then Thrown(LocalError) else Started(Installed(out, rule, o), rule, o, w).outcome
  {
    hide TakenOut, RuleOpened, Started, Installed;
  }

  /** The guards of an update: when it succeeds, and when the licence is what it fails at. */
  lemma UpdateSucceeds(s: State, reopening: set<Uuid>, rule: TunnelRule, victim: Option<nat>, w: World)
    requires Safe(s, reopening) && Finds(s.tunnels, rule.uuid, victim) && rule.enabled
    ensures var outcome := TunnelRuleUpdated(s, rule, victim, w).outcome;
            && (outcome == Thrown(LicenseError) <==> !Licensed(s, {rule.uuid}))
            && (outcome.Done? <==>
                 && Licensed(s, {rule.uuid})
                 && InputsOpen(rule, w, Room(s, Flag(HasTunnel(s, rule.uuid)))) && SetupsStart(rule, w))
  {
    hide Safe, TakenOut, RuleOpened, InputsOpen, HasTunnel, Licensed, Finds, Started, Installed, SetupsStart, AllDials;
    hide TunnelRuleUpdated;
    var out := TakenOut(s, rule.uuid, victim);
    OutcomeOf(s, rule, victim, w);
    TakenOutIsSafe(s, reopening, rule.uuid, victim);
    TakenOutParts(s, rule.uuid, victim);
    RulesTakenOut(s, rule.uuid, victim);
    TunnelsTakenOut(s, rule.uuid, victim);
    SafeTunnels(out, reopening - {rule.uuid});
    RuleOpens(out, rule, w);
    var o := RuleOpened(out, rule, w);
    StartedSucceeds(Installed(out, rule, o), rule, o, w);
  }

  /** What a successful update leaves: the rule active, its tunnels dialled, other rules with the tunnels they had. */
  lemma UpdateLeaves(s: State, reopening: set<Uuid>, rule: TunnelRule, victim: Option<nat>, w: World)
    requires Safe(s, reopening) && Finds(s.tunnels, rule.uuid, victim) && rule.enabled
    requires TunnelRuleUpdated(s, rule, victim, w).outcome.Done?
    ensures var after := TunnelRuleUpdated(s, rule, victim, w).state;
            && after.ruleLimit == s.ruleLimit && after.tunnelLimit == s.tunnelLimit
            && after.rules.Keys == s.rules.Keys + {rule.uuid}
            && |after.tunnels| == |s.tunnels| - Flag(HasTunnel(s, rule.uuid)) + AllDials(rule, w)
            && forall u :: u != rule.uuid ==> (HasTunnel(after, u) <==> HasTunnel(s, u))
  {
    hide Safe, TakenOut, RuleOpened, InputsOpen, HasTunnel, Licensed, Finds, Started, Installed, SetupAt, Grown;
    var out := TakenOut(s, rule.uuid, victim);
    TakenOutIsSafe(s, reopening, rule.uuid, victim);
    TakenOutParts(s, rule.uuid, victim);
    TunnelsTakenOut(s, rule.uuid, victim);
    SafeTunnels(out, reopening - {rule.uuid});
    RuleOpens(out, rule, w);
    RuleGrows(out, rule, w);
    var o := RuleOpened(out, rule, w);
    StartedParts(Installed(out, rule, o), rule, o, w);
    InstalledParts(s, rule, victim, o);
    forall u | u != rule.uuid
      ensures HasTunnel(Installed(out, rule, o), u) <==> HasTunnel(s, u)
    {
      OtherTunnels(s, rule, victim, o, u);
    }
  }

  lemma InstalledParts(s: State, rule: TunnelRule, victim: Option<nat>, o: Opening)
    requires var out := TakenOut(s, rule.uuid, victim);
             Grown(out, rule.uuid, o.tunnels, o.added, o.nextId)
    ensures var out := TakenOut(s, rule.uuid, victim);
            var after := Installed(out, rule, o);
            && after.ruleLimit == s.ruleLimit && after.tunnelLimit == s.tunnelLimit
            && after.rules.Keys == s.rules.Keys + {rule.uuid}
            && |after.tunnels| == |out.tunnels| + |o.added|
  {
    hide TakenOut, Grown;
    TakenOutParts(s, rule.uuid, victim);
    GrownSize(TakenOut(s, rule.uuid, victim), rule.uuid, o);
    PutBack(s.rules, rule.uuid, ActiveRule(true, o.handlers));
  }

  lemma GrownSize(out: State, uuid: Uuid, o: Opening)
    requires Grown(out, uuid, o.tunnels, o.added, o.nextId)
    ensures |o.tunnels| == |out.tunnels| + |o.added|
  {
  }

  lemma PutBack<K, V>(m: map<K, V>, k: K, v: V)
    ensures (m - {k})[k := v].Keys == m.Keys + {k}
  {
  }

  lemma OtherTunnels(s: State, rule: TunnelRule, victim: Option<nat>, o: Opening, u: Uuid)
    requires Finds(s.tunnels, rule.uuid, victim) && u != rule.uuid
    requires Grown(TakenOut(s, rule.uuid, victim), rule.uuid, o.tunnels, o.added, o.nextId)
    ensures HasTunnel(Installed(TakenOut(s, rule.uuid, victim), rule, o), u) <==> HasTunnel(s, u)
  {
    var out := TakenOut(s, rule.uuid, victim);
    var after := Installed(out, rule, o);
    if t :| t in s.tunnels && s.tunnels[t] == u {
      assert t in out.tunnels && t in after.tunnels;
    }
    if t :| t in after.tunnels && after.tunnels[t] == u {
      assert t in out.tunnels && s.tunnels[t] == u;
    }
  }

  // ---------------------------------------------------------------- what an update opens

  /** The uuids of the accepting inputs that were opened, among the first `k`. */
  function Handled(rule: TunnelRule, w: World, k: nat): set<Uuid>
    requires k <= |rule.inputs|
  {
    set j | 0 <= j < k && rule.inputs[j].Accepting? && AnswerAt(w, j).Opened? :: rule.inputs[j].uuid
  }

  /** Some input that dials was not connected. */
  predicate Unanswered(rule: TunnelRule, w: World, k: nat)
    requires k <= |rule.inputs|
  {
    exists j :: 0 <= j < k && rule.inputs[j].Dialling? && AnswerAt(w, j).NotConnected?
  }

  lemma OneMoreHandled(rule: TunnelRule, w: World, k: nat)
    requires k < |rule.inputs|
    ensures Handled(rule, w, k + 1) == Handled(rule, w, k) +
              if rule.inputs[k].Accepting? && AnswerAt(w, k).Opened? then {rule.inputs[k].uuid} else {}
    ensures Unanswered(rule, w, k + 1) <==>
              Unanswered(rule, w, k) || (rule.inputs[k].Dialling? && AnswerAt(w, k).NotConnected?)
  {
    var more := if rule.inputs[k].Accepting? && AnswerAt(w, k).Opened? then {rule.inputs[k].uuid} else {};
    forall u | u in Handled(rule, w, k + 1)
      ensures u in Handled(rule, w, k) + more
    {
      var j :| 0 <= j < k + 1 && rule.inputs[j].Accepting? && AnswerAt(w, j).Opened? && rule.inputs[j].uuid == u;
    }
  }

  ghost predicate OpenedUpTo(o: Opening, rule: TunnelRule, w: World, k: nat)
    requires k <= |rule.inputs|
  {
    o.handlers == Handled(rule, w, k) && (o.check <==> Unanswered(rule, w, k))
  }

  lemma InputOpenedUpTo(rule: TunnelRule, w: World, i: nat, o: Opening)
    requires i < Reached(rule.inputs, i) && i < |rule.inputs| && OpenedUpTo(o, rule, w, i)
    requires !AnswerAt(w, i).Broken?
    ensures OpenedUpTo(InputOpened(rule, w, i, o), rule, w, i + 1)
  {
    OneMoreHandled(rule, w, i);
    hide Handled, Unanswered;
  }

  lemma OpenNext(limit: nat, rule: TunnelRule, w: World, i: nat, o: Opening)
    requires i < Reached(rule.inputs, i) && i < |rule.inputs|
    ensures OpenInputs(limit, rule, w, i, o).failed || !AnswerAt(w, i).Broken?
    ensures OpenInputs(limit, rule, w, i, o).failed ||
              OpenInputs(limit, rule, w, i, o) == OpenInputs(limit, rule, w, i + 1, InputOpened(rule, w, i, o))
    ensures Reached(rule.inputs, i) == Reached(rule.inputs, i + 1)
  {
  }

  lemma {:induction false} InputsOpenedUpTo(limit: nat, rule: TunnelRule, w: World, i: nat, o: Opening)
    requires i <= |rule.inputs| && OpenedUpTo(o, rule, w, i)
    ensures Reached(rule.inputs, i) <= |rule.inputs|
    ensures var end := OpenInputs(limit, rule, w, i, o);
            end.failed || OpenedUpTo(end, rule, w, Reached(rule.inputs, i))
    decreases |rule.inputs| - i
  {
    hide OpenedUpTo, InputOpened, OpenInputs, Reached;
    ReachedIsInside(rule.inputs, i);
    if Reached(rule.inputs, i) == i {
      NoneReached(limit, rule, w, i, o, 0);
    } else {
      OpenNext(limit, rule, w, i, o);
      if !OpenInputs(limit, rule, w, i, o).failed {
        InputOpenedUpTo(rule, w, i, o);
        InputsOpenedUpTo(limit, rule, w, i + 1, InputOpened(rule, w, i, o));
      }
    }
  }

  /** An opened rule handles exactly its accepting inputs that were opened, and is to be tried again exactly if one that
      dials was not connected; both up to the first input that accepts a single client. */
  lemma OpenedRule(s: State, rule: TunnelRule, w: World)
    requires !RuleOpened(s, rule, w).failed
    ensures var o, last := RuleOpened(s, rule, w), Reached(rule.inputs, 0);
            && last <= |rule.inputs|
            && o.handlers == Handled(rule, w, last) && (o.check <==> Unanswered(rule, w, last))
  {
    InputsOpenedUpTo(s.tunnelLimit, rule, w, 0, Opening({}, s.tunnels, [], false, s.nextId, false));
  }

  /** No two accepting inputs have the same uuid. */
  predicate Distinct(rule: TunnelRule, k: nat)
    requires k <= |rule.inputs|
  {
    forall i, j :: 0 <= i < j < k && rule.inputs[i].Accepting? && rule.inputs[j].Accepting? ==>
      rule.inputs[i].uuid != rule.inputs[j].uuid
  }

  predicate AllOpened(w: World, k: nat) {
    forall j :: 0 <= j < k ==> AnswerAt(w, j).Opened?
  }

  lemma OneMoreDistinct(rule: TunnelRule, w: World, k: nat)
    requires k < |rule.inputs| && AllOpened(w, k + 1)
    ensures Distinct(rule, k + 1) <==>
              Distinct(rule, k) && (rule.inputs[k].Accepting? ==> rule.inputs[k].uuid !in Handled(rule, w, k))
  {
    if rule.inputs[k].Accepting? && rule.inputs[k].uuid !in Handled(rule, w, k) && Distinct(rule, k) {
      forall i | 0 <= i < k && rule.inputs[i].Accepting?
        ensures rule.inputs[i].uuid != rule.inputs[k].uuid
      {
        assert rule.inputs[i].uuid in Handled(rule, w, k);
      }
    }
  }

  /** As many handlers and tunnels as inputs: only if all were opened, under different uuids. */
  lemma {:induction false} HandledCount(rule: TunnelRule, w: World, k: nat)
    requires k <= |rule.inputs|
    ensures |Handled(rule, w, k)| + Dials(rule, w, k) <= k
    ensures |Handled(rule, w, k)| + Dials(rule, w, k) == k <==> AllOpened(w, k) && Distinct(rule, k)
  {
    if k == 0 {
      assert Handled(rule, w, 0) == {};
    } else {
      hide Handled, Unanswered, AllOpened, Distinct, Dials;
      HandledCount(rule, w, k - 1);
      HandledMore(rule, w, k - 1);
      OneMoreOpened(w, k - 1);
      if AllOpened(w, k) {
        OneMoreDistinct(rule, w, k - 1);
      }
    }
  }

  /** What one input adds to the handlers and the tunnels. */
  lemma HandledMore(rule: TunnelRule, w: World, k: nat)
    requires k < |rule.inputs|
    ensures |Handled(rule, w, k + 1)| + Dials(rule, w, k + 1) == |Handled(rule, w, k)| + Dials(rule, w, k) +
              Flag(AnswerAt(w, k).Opened?
                   && (rule.inputs[k].Dialling? || rule.inputs[k].uuid !in Handled(rule, w, k)))
  {
    OneMoreHandled(rule, w, k);
    hide Handled, Unanswered;
    if rule.inputs[k].Accepting? {
      SizeWithOne(Handled(rule, w, k), rule.inputs[k].uuid);
    }
  }

  lemma OneMoreOpened(w: World, k: nat)
    ensures AllOpened(w, k + 1) <==> AllOpened(w, k) && AnswerAt(w, k).Opened?
  {
  }

  lemma SizeWithOne(s: set<Uuid>, u: Uuid)
    ensures |s + {u}| == |s| + if u in s then 0 else 1
  {
    if u in s {
      assert s + {u} == s;
    }
  }

  /** Every input was opened: none accepts a single client, and the accepting ones have different uuids. */
  predicate Complete(rule: TunnelRule, w: World) {
    Reached(rule.inputs, 0) == |rule.inputs| && AllOpened(w, |rule.inputs|) && Distinct(rule, |rule.inputs|)
  }

  lemma CompleteCount(s: State, rule: TunnelRule, w: World)
    requires |s.tunnels| <= s.tunnelLimit && (forall t :: t in s.tunnels ==> t < s.nextId) && !RuleOpened(s, rule, w).failed
    ensures var o := RuleOpened(s, rule, w);
            |rule.inputs| == |o.handlers| + |o.added| <==> Complete(rule, w)
  {
    hide RuleOpened, Reached, Handled, Dials, AllOpened, Distinct, InputsOpen;
    RuleOpens(s, rule, w);
    OpenedRule(s, rule, w);
    ReachedIsInside(rule.inputs, 0);
    HandledCount(rule, w, Reached(rule.inputs, 0));
  }

  lemma StartedAnswers(installed: State, rule: TunnelRule, o: Opening, w: World)
    ensures Started(installed, rule, o, w).outcome.Done? ==>
              Started(installed, rule, o, w).outcome == Done(|rule.inputs| == |o.handlers| + |o.added|)
  {
  }

  /** An update answers that the rule is completely open exactly if the rule is disabled, or the guards of the update
      hold and every input was opened. */
  lemma UpdateAnswers(s: State, reopening: set<Uuid>, rule: TunnelRule, victim: Option<nat>, w: World)
    requires Safe(s, reopening) && Finds(s.tunnels, rule.uuid, victim)
    ensures TunnelRuleUpdated(s, rule, victim, w).outcome == Done(true) <==>
            || !rule.enabled
            || (&& Licensed(s, {rule.uuid}) && InputsOpen(rule, w, Room(s, Flag(HasTunnel(s, rule.uuid))))
                && SetupsStart(rule, w) && Complete(rule, w))
  {
    hide Safe, TakenOut, RuleOpened, InputsOpen, HasTunnel, Licensed, Finds, Started, Installed, SetupsStart, Complete;
    if rule.enabled {
      var out := TakenOut(s, rule.uuid, victim);
      var o := RuleOpened(out, rule, w);
      UpdateSucceeds(s, reopening, rule, victim, w);
      OutcomeOf(s, rule, victim, w);
      hide TunnelRuleUpdated;
      StartedAnswers(Installed(out, rule, o), rule, o, w);
      TakenOutIsSafe(s, reopening, rule.uuid, victim);
      SafeTunnels(out, reopening - {rule.uuid});
      if !o.failed {
        CompleteCount(out, rule, w);
      }
    }
  }

  /** The rule that an update makes active handles what was opened, and waits exactly if an input was not connected. */
  lemma UpdateInstalls(s: State, reopening: set<Uuid>, rule: TunnelRule, victim: Option<nat>, w: World)
    requires Safe(s, reopening) && Opens(s, rule, victim, w)
    ensures var after, last := TunnelRuleUpdated(s, rule, victim, w).state, Reached(rule.inputs, 0);
            && last <= |rule.inputs|
            && rule.uuid in after.rules && after.rules[rule.uuid] == ActiveRule(true, Handled(rule, w, last))
            && (rule.uuid in after.toCheck <==> Unanswered(rule, w, last))
            && (rule.uuid in after.toCheck ==> after.toCheck[rule.uuid] == rule)
  {
    SafeRules(s, reopening);
    RulesAfterUpdate(s, rule, victim, w);
    WaitsAfterUpdate(s, rule, victim, w);
    hide Safe, TakenOut, RuleOpened, TunnelRuleUpdated, Handled, Unanswered;
    OpenedRule(TakenOut(s, rule.uuid, victim), rule, w);
  }

  lemma StartedTunnelsOnly(installed: State, rule: TunnelRule, o: Opening, w: World)
    requires installed.tunnels == o.tunnels
    ensures var after := Started(installed, rule, o, w).state;
            var bad := FirstBadSetup(w, |o.added|, 0);
            after.tunnels == if bad.Some? then o.tunnels - {o.added[bad.value]} else o.tunnels
  {
  }

  lemma GrownTunnels(out: State, uuid: Uuid, o: Opening, bad: Option<nat>)
    requires Grown(out, uuid, o.tunnels, o.added, o.nextId) && (bad.Some? ==> bad.value < |o.added|)
    ensures var after := if bad.Some? then o.tunnels - {o.added[bad.value]} else o.tunnels;
            && (forall t :: t in after && t >= out.nextId ==> after[t] == uuid)
            && (forall t :: t >= out.nextId ==>
                  (t in after <==> t < out.nextId + |o.added| && (bad.Some? ==> t != out.nextId + bad.value)))
  {
  }

  /** The new tunnels of an update, which have the next ids: one for every input that was dialled, but for the first
      whose setup does not start. */
  lemma NewTunnels(s: State, reopening: set<Uuid>, rule: TunnelRule, victim: Option<nat>, w: World)
    requires Safe(s, reopening) && Finds(s.tunnels, rule.uuid, victim) && Opens(s, rule, victim, w)
    ensures var after, bad := TunnelRuleUpdated(s, rule, victim, w).state, FirstBadSetup(w, AllDials(rule, w), 0);
            && (forall t :: t in after.tunnels && t >= s.nextId ==> after.tunnels[t] == rule.uuid)
            && (forall t :: t >= s.nextId ==>
                  (t in after.tunnels <==> t < s.nextId + AllDials(rule, w) && (bad.Some? ==> t != s.nextId + bad.value)))
  {
    hide Safe, TakenOut, RuleOpened, Started, AllDials, Finds, FirstBadSetup, InputsOpen, Grown, TunnelRuleUpdated, Opens;
    var out := TakenOut(s, rule.uuid, victim);
    var o := RuleOpened(out, rule, w);
    SafeRules(s, reopening);
    OpenedTunnels(s, rule, victim, w);
    TakenOutIsSafe(s, reopening, rule.uuid, victim);
    TakenOutParts(s, rule.uuid, victim);
    SafeTunnels(out, reopening - {rule.uuid});
    RuleOpens(out, rule, w);
    RuleGrows(out, rule, w);
    GrownTunnels(out, rule.uuid, o, FirstBadSetup(w, |o.added|, 0));
  }

  lemma OpenedTunnels(s: State, rule: TunnelRule, victim: Option<nat>, w: World)
    requires |s.rules| <= s.ruleLimit && Opens(s, rule, victim, w)
    ensures var o := RuleOpened(TakenOut(s, rule.uuid, victim), rule, w);
            var bad := FirstBadSetup(w, |o.added|, 0);
            && !o.failed
            && TunnelRuleUpdated(s, rule, victim, w).state.tunnels ==
               if bad.Some? then o.tunnels - {o.added[bad.value]} else o.tunnels
  {
    hide TakenOut, RuleOpened, Started, FirstBadSetup;
    var out := TakenOut(s, rule.uuid, victim);
    var o := RuleOpened(out, rule, w);
    RoomForRule(s, rule.uuid, victim);
    TakenOutParts(s, rule.uuid, victim);
    StartedTunnelsOnly(Installed(out, rule, o), rule, o, w);
  }

  // ---------------------------------------------------------------- a pass over the waiting rules

  /** The rules of the first `n` turns. */
  function Uuids(turns: seq<Turn>, n: nat): set<Uuid> {
    set j | 0 <= j < n && j < |turns| :: turns[j].rule.uuid
  }

  /** How many tunnels turn `i` may have, when those before it succeed: each gives up one it has and dials its own. */
  ghost function RoomAt(s: State, turns: seq<Turn>, i: nat): int
    requires i < |turns|
  {
    (if i == 0 then s.tunnelLimit - |s.tunnels|
     else RoomAt(s, turns, i - 1) - AllDials(turns[i - 1].rule, turns[i - 1].world))
    + Flag(HasTunnel(s, turns[i].rule.uuid))
  }

  /** Turn `i` has a licence, its inputs open and its setups start, when those before it succeed. All of this can be
      told from the registries before the pass. */
  ghost predicate Succeeds(s: State, turns: seq<Turn>, i: nat)
    requires i < |turns|
  {
    && Licensed(s, Uuids(turns, i + 1))
    && InputsOpen(turns[i].rule, turns[i].world, RoomAt(s, turns, i))
    && SetupsStart(turns[i].rule, turns[i].world)
  }

  /** Waiting rules are enabled, and no two have the same uuid. */
  ghost predicate Tryable(turns: seq<Turn>) {
    && (forall i :: 0 <= i < |turns| ==> turns[i].rule.enabled)
    && (forall i, j :: 0 <= i < j < |turns| ==> turns[i].rule.uuid != turns[j].rule.uuid)
  }

  ghost predicate Follow(s: State, t: Turn, next: State) {
    && next.ruleLimit == s.ruleLimit && next.tunnelLimit == s.tunnelLimit
    && next.rules.Keys == s.rules.Keys + {t.rule.uuid}
    && |next.tunnels| == |s.tunnels| - Flag(HasTunnel(s, t.rule.uuid)) + AllDials(t.rule, t.world)
    && forall u :: u != t.rule.uuid ==> (HasTunnel(next, u) <==> HasTunnel(s, u))
  }

  lemma UuidsShift(turns: seq<Turn>, n: nat)
    requires turns != []
    ensures Uuids(turns, n + 1) == {turns[0].rule.uuid} + Uuids(turns[1..], n)
  {
    forall u | u in Uuids(turns[1..], n)
      ensures u in Uuids(turns, n + 1)
    {
      var j :| 0 <= j < n && j < |turns[1..]| && turns[1..][j].rule.uuid == u;
      assert turns[j + 1].rule.uuid == u;
    }
    forall u | u in Uuids(turns, n + 1) && u != turns[0].rule.uuid
      ensures u in Uuids(turns[1..], n)
    {
      var j :| 0 <= j < n + 1 && j < |turns| && turns[j].rule.uuid == u;
      assert turns[1..][j - 1].rule.uuid == u;
    }
  }

  lemma LicenceShifts(s: State, turns: seq<Turn>, next: State, n: nat)
    requires turns != [] && Follow(s, turns[0], next)
    ensures Licensed(s, Uuids(turns, n + 1)) <==> Licensed(next, Uuids(turns[1..], n))
  {
    hide Uuids, Follow;
    UuidsShift(turns, n);
    FollowRules(s, turns[0], next);
    UnionShifts(s.rules.Keys, {turns[0].rule.uuid}, Uuids(turns[1..], n));
  }

  lemma FollowRules(s: State, t: Turn, next: State)
    requires Follow(s, t, next)
    ensures next.rules.Keys == s.rules.Keys + {t.rule.uuid} && next.ruleLimit == s.ruleLimit
  {
  }

  lemma UnionShifts(a: set<Uuid>, b: set<Uuid>, c: set<Uuid>)
    ensures a + (b + c) == a + b + c
  {
  }

  lemma {:induction false} RoomShifts(s: State, turns: seq<Turn>, next: State, i: nat)
    requires i + 1 < |turns| && Follow(s, turns[0], next) && Tryable(turns)
    ensures RoomAt(s, turns, i + 1) == RoomAt(next, turns[1..], i)
  {
    hide HasTunnel, AllDials;
    assert turns[1..][i] == turns[i + 1] && turns[i + 1].rule.uuid != turns[0].rule.uuid;
    if i > 0 {
      RoomShifts(s, turns, next, i - 1);
      assert turns[1..][i - 1] == turns[i];
    } else {
      assert RoomAt(s, turns, 0) == s.tunnelLimit - |s.tunnels| + Flag(HasTunnel(s, turns[0].rule.uuid));
    }
  }

  lemma SuccessShifts(s: State, turns: seq<Turn>, next: State, i: nat)
    requires i + 1 < |turns| && Follow(s, turns[0], next) && Tryable(turns)
    ensures Succeeds(s, turns, i + 1) <==> Succeeds(next, turns[1..], i)
  {
    hide Licensed, InputsOpen, SetupsStart, RoomAt, Follow, Tryable, Uuids;
    LicenceShifts(s, turns, next, i + 1);
    RoomShifts(s, turns, next, i);
    assert turns[1..][i] == turns[i + 1];
  }

  lemma FirstTurn(s: State, reopening: set<Uuid>, turns: seq<Turn>)
    requires turns != [] && Safe(s, reopening) && Tryable(turns) && Follows(s, turns, true)
    ensures var Updated(next, outcome) := TurnTaken(s, turns[0]);
            && (Ends(outcome, true) <==> !Succeeds(s, turns, 0))
            && (outcome == Thrown(LicenseError) <==> !Licensed(s, Uuids(turns, 1)))
            && (!Ends(outcome, true) ==> Follow(s, turns[0], next) && Follows(next, turns[1..], true))
            && Safe(next, reopening - {turns[0].rule.uuid})
  {
    hide Safe, TurnTaken, Licensed, InputsOpen, SetupsStart, HasTunnel, AllDials, Uuids, Finds;
    var t := turns[0];
    FirstUuid(turns);
    FirstRoom(s, turns);
    FirstUpdate(s, reopening, t);
    if TurnTaken(s, t).outcome.Done? {
      FirstLeaves(s, reopening, t);
    }
  }

  lemma FirstUuid(turns: seq<Turn>)
    requires turns != []
    ensures Uuids(turns, 1) == {turns[0].rule.uuid}
  {
  }

  lemma FirstRoom(s: State, turns: seq<Turn>)
    requires turns != []
    ensures RoomAt(s, turns, 0) == Room(s, Flag(HasTunnel(s, turns[0].rule.uuid)))
  {
    hide HasTunnel;
  }

  lemma FirstUpdate(s: State, reopening: set<Uuid>, t: Turn)
    requires Safe(s, reopening) && t.rule.enabled && Finds(s.tunnels, t.rule.uuid, t.victim)
    ensures var Updated(next, outcome) := TurnTaken(s, t);
            && (outcome == Thrown(LicenseError) <==> !Licensed(s, {t.rule.uuid}))
            && (outcome.Done? <==>
                 && Licensed(s, {t.rule.uuid})
                 && InputsOpen(t.rule, t.world, Room(s, Flag(HasTunnel(s, t.rule.uuid)))) && SetupsStart(t.rule, t.world))
            && Safe(next, reopening - {t.rule.uuid})
  {
    hide Safe, TunnelRuleUpdated, Licensed, InputsOpen, SetupsStart, HasTunnel, Finds, Room;
    UpdateSucceeds(s, reopening, t.rule, t.victim, t.world);
    TunnelUpdateIsSafe(s, reopening, t.rule, t.victim, t.world);
  }

  lemma FirstLeaves(s: State, reopening: set<Uuid>, t: Turn)
    requires Safe(s, reopening) && t.rule.enabled && Finds(s.tunnels, t.rule.uuid, t.victim)
    requires TurnTaken(s, t).outcome.Done?
    ensures Follow(s, t, TurnTaken(s, t).state)
  {
    hide Safe, TunnelRuleUpdated, HasTunnel, AllDials, Finds;
    UpdateLeaves(s, reopening, t.rule, t.victim, t.world);
  }

  /** How a pass ends: it tries one rule after the other while they succeed. */
  ghost predicate EndsRight(s: State, turns: seq<Turn>, p: Pass) {
    && p.tried <= |turns|
    && (p.error.None? ==> p.tried == |turns| && forall i: nat :: i < |turns| ==> Succeeds(s, turns, i))
    && (p.error.Some? ==>
          && 0 < p.tried && !Succeeds(s, turns, p.tried - 1)
          && (forall i: nat :: i < p.tried - 1 ==> Succeeds(s, turns, i))
          && (p.error.value.LicenseError? <==> !Licensed(s, Uuids(turns, p.tried))))
  }

  lemma EndShifts(s: State, turns: seq<Turn>, next: State, p: Pass)
    requires turns != [] && Follow(s, turns[0], next) && Tryable(turns) && Succeeds(s, turns, 0)
    requires EndsRight(next, turns[1..], p)
    ensures EndsRight(s, turns, p.(tried := p.tried + 1))
  {
    hide Succeeds, Follow, Tryable, Licensed, Uuids;
    forall i: nat | i + 1 < |turns|
      ensures Succeeds(s, turns, i + 1) <==> Succeeds(next, turns[1..], i)
    {
      SuccessShifts(s, turns, next, i);
    }
    LicenceShifts(s, turns, next, p.tried);
    forall k: nat | k < |turns| && (k < p.tried || p.error.None?)
      ensures Succeeds(s, turns, k)
    {
      if k > 0 {
        assert Succeeds(next, turns[1..], k - 1);
      }
    }
    if p.error.Some? {
      assert Succeeds(s, turns, p.tried) <==> Succeeds(next, turns[1..], p.tried - 1);
    }
  }

  lemma {:induction false} PassEnds(s: State, reopening: set<Uuid>, turns: seq<Turn>)
    requires Safe(s, reopening) && Tryable(turns) && Follows(s, turns, true)
    ensures EndsRight(s, turns, PassOver(s, turns, true))
    decreases |turns|
  {
    hide Safe, TurnTaken, Follow, Succeeds, Licensed, Uuids;
    if turns != [] {
      FirstTurn(s, reopening, turns);
      hide EndsRight, Follows;
      var Updated(next, outcome) := TurnTaken(s, turns[0]);
      if Ends(outcome, true) {
        EndsAtOnce(s, turns, Pass(next, 1, Some(outcome.error)));
      } else {
        PassEnds(next, reopening - {turns[0].rule.uuid}, turns[1..]);
        EndShifts(s, turns, next, PassOver(next, turns[1..], true));
      }
    } else {
      assert EndsRight(s, turns, Pass(s, 0, None));
    }
  }

  lemma EndsAtOnce(s: State, turns: seq<Turn>, p: Pass)
    requires turns != [] && p.tried == 1 && p.error.Some? && !Succeeds(s, turns, 0)
    requires p.error.value.LicenseError? <==> !Licensed(s, Uuids(turns, 1))
    ensures EndsRight(s, turns, p)
  {
  }

  /** A pass loses no rule if and only if every rule before the last is licensed or active already, has its inputs
      opened and its setups started. */
  lemma PassTriesAll(s: State, reopening: set<Uuid>, turns: seq<Turn>)
    requires Safe(s, reopening) && Tryable(turns) && Follows(s, turns, true)
    ensures PassOver(s, turns, true).tried == |turns| <==> forall i: nat :: i < |turns| - 1 ==> Succeeds(s, turns, i)
    ensures PassOver(s, turns, true).error.None? <==> forall i: nat :: i < |turns| ==> Succeeds(s, turns, i)
  {
    PassEnds(s, reopening, turns);
    hide Succeeds, PassOver, Follows, Safe;
  }

  // ---------------------------------------------------------------- what a pass keeps

  ghost predicate OthersKept(was: map<Uuid, ActiveRule>, rules: map<Uuid, ActiveRule>, changed: set<Uuid>) {
    forall u :: u in was && u !in changed ==> u in rules && rules[u] == was[u]
  }

  lemma WaitsAfterUpdate(s: State, rule: TunnelRule, victim: Option<nat>, w: World)
    requires |s.rules| <= s.ruleLimit
    ensures var after := TunnelRuleUpdated(s, rule, victim, w).state;
            var o := RuleOpened(TakenOut(s, rule.uuid, victim), rule, w);
            after.toCheck == if Opens(s, rule, victim, w) && o.check then (s.toCheck - {rule.uuid})[rule.uuid := rule]
                             else s.toCheck - {rule.uuid}
  {
    hide RuleOpened, TakenOut, Started;
    RoomForRule(s, rule.uuid, victim);
    TakenOutParts(s, rule.uuid, victim);
    var out := TakenOut(s, rule.uuid, victim);
    var o := RuleOpened(out, rule, w);
    StartedParts(Installed(out, rule, o), rule, o, w);
  }

  lemma OthersAfterUpdate(rules: map<Uuid, ActiveRule>, after: map<Uuid, ActiveRule>, uuid: Uuid)
    requires after - {uuid} == rules - {uuid}
    ensures OthersKept(rules, after, {uuid})
    ensures after.Keys >= rules.Keys - {uuid}
  {
    forall u | u in rules && u != uuid
      ensures u in after && after[u] == rules[u]
    {
      assert u in after - {uuid} && (after - {uuid})[u] == rules[u];
    }
  }

  /** The rules of the turns wait no more in the registry, and are active or being reopened. */
  ghost predicate Waited(s: State, reopening: set<Uuid>, turns: seq<Turn>) {
    forall i :: 0 <= i < |turns| ==>
      && turns[i].rule.uuid !in s.toCheck && (turns[i].rule.uuid in s.rules || turns[i].rule.uuid in reopening)
  }

  /** Other rules stay as they were; the rules that were tried are active again, but for the one that ended the pass,
      which the licence refuses only if its static tunnel is being reopened. The rules that were not tried do not wait. */
  ghost predicate Kept(s: State, reopening: set<Uuid>, turns: seq<Turn>, p: Pass) {
    && p.tried <= |turns|
    && Safe(p.state, reopening - Uuids(turns, p.tried))
    && OthersKept(s.rules, p.state.rules, Uuids(turns, p.tried))
    && (forall i :: p.tried <= i < |turns| ==> turns[i].rule.uuid !in p.state.toCheck)
    && (forall i :: 0 <= i < p.tried - Flag(p.error.Some?) ==> turns[i].rule.uuid in p.state.rules)
    && (p.error == Some(LicenseError) ==>
          0 < p.tried && turns[p.tried - 1].rule.uuid in reopening && turns[p.tried - 1].rule.uuid !in s.rules)
  }

  /** One update of a waiting rule. */
  ghost predicate OneKept(s: State, t: Turn, next: State, outcome: Outcome) {
    && OthersKept(s.rules, next.rules, {t.rule.uuid})
    && (forall u :: u in next.toCheck ==> u in s.toCheck || u == t.rule.uuid)
    && (outcome.Done? ==> t.rule.uuid in next.rules)
    && (outcome == Thrown(LicenseError) ==> t.rule.uuid !in s.rules)
  }

  lemma TurnKeeps(s: State, t: Turn)
    requires |s.rules| <= s.ruleLimit && t.rule.enabled
    ensures OneKept(s, t, TurnTaken(s, t).state, TurnTaken(s, t).outcome)
  {
    hide TunnelRuleUpdated, RuleOpened, Opens, TakenOut, OthersKept;
    UpdateActivates(s, t.rule, t.victim, t.world);
    WaitsAfterUpdate(s, t.rule, t.victim, t.world);
    OthersAfterUpdate(s.rules, TurnTaken(s, t).state.rules, t.rule.uuid);
  }

  lemma StillWaited(s: State, reopening: set<Uuid>, turns: seq<Turn>, next: State, outcome: Outcome)
    requires turns != [] && Tryable(turns) && Waited(s, reopening, turns) && OneKept(s, turns[0], next, outcome)
    ensures Waited(next, reopening - {turns[0].rule.uuid}, turns[1..]) && Tryable(turns[1..])
    ensures forall i :: 1 <= i < |turns| ==> turns[i].rule.uuid !in next.toCheck
  {
    forall i | 0 <= i < |turns[1..]|
      ensures turns[1..][i].rule.uuid !in next.toCheck
      ensures turns[1..][i].rule.uuid in next.rules || turns[1..][i].rule.uuid in reopening - {turns[0].rule.uuid}
    {
      assert turns[1..][i] == turns[i + 1];
    }
  }

  lemma KeptAtOnce(s: State, reopening: set<Uuid>, turns: seq<Turn>, next: State, error: Error)
    requires turns != [] && Waited(s, reopening, turns) && Tryable(turns)
    requires OneKept(s, turns[0], next, Thrown(error)) && Safe(next, reopening - {turns[0].rule.uuid})
    ensures Kept(s, reopening, turns, Pass(next, 1, Some(error)))
  {
    hide Safe, OthersKept;
    FirstUuid(turns);
    hide Uuids;
    StillWaited(s, reopening, turns, next, Thrown(error));
  }

  lemma OthersKeptOn(was: map<Uuid, ActiveRule>, rules: map<Uuid, ActiveRule>, after: map<Uuid, ActiveRule>,
                     uuid: Uuid, more: set<Uuid>)
    requires OthersKept(was, rules, {uuid}) && OthersKept(rules, after, more)
    ensures OthersKept(was, after, {uuid} + more)
  {
  }

  lemma KeptGoesOn(s: State, reopening: set<Uuid>, turns: seq<Turn>, next: State, outcome: Outcome, p: Pass)
    requires turns != [] && Tryable(turns) && OneKept(s, turns[0], next, outcome) && outcome.Done?
    requires Kept(next, reopening - {turns[0].rule.uuid}, turns[1..], p)
    ensures Kept(s, reopening, turns, p.(tried := p.tried + 1))
  {
    UuidsShift(turns, p.tried);
    var uuid, more := turns[0].rule.uuid, Uuids(turns[1..], p.tried);
    assert reopening - Uuids(turns, p.tried + 1) == reopening - {uuid} - more;
    OthersKeptOn(s.rules, next.rules, p.state.rules, uuid, more);
    assert uuid in p.state.rules by {
      assert uuid !in more;
      KeptMeans(next.rules, p.state.rules, more, uuid);
    }
    hide Safe, Uuids;
    forall i | 1 <= i < |turns|
      ensures turns[i] == turns[1..][i - 1]
    {
    }
    if p.error == Some(LicenseError) {
      var last := turns[1..][p.tried - 1].rule.uuid;
      assert last == turns[p.tried].rule.uuid && last != uuid;
      assert last in s.rules ==> last in next.rules;
    }
    hide OthersKept;
  }

  lemma KeptMeans(rules: map<Uuid, ActiveRule>, after: map<Uuid, ActiveRule>, changed: set<Uuid>, u: Uuid)
    requires OthersKept(rules, after, changed) && u in rules && u !in changed
    ensures u in after
  {
  }

  lemma {:induction false} PassKeeps(s: State, reopening: set<Uuid>, turns: seq<Turn>)
    requires Safe(s, reopening) && Tryable(turns) && Waited(s, reopening, turns) && Follows(s, turns, true)
    ensures Kept(s, reopening, turns, PassOver(s, turns, true))
    decreases |turns|
  {
    hide TurnTaken, OneKept, Kept, Waited, Tryable;
    if turns == [] {
      NothingTried(s, reopening);
    } else {
      var Updated(next, outcome) := TurnTaken(s, turns[0]);
      FirstTurn(s, reopening, turns);
      IsEnabled(turns);
      TurnKeeps(s, turns[0]);
      hide Safe, Succeeds, Licensed, Follow;
      if Ends(outcome, true) {
        KeptAtOnce(s, reopening, turns, next, outcome.error);
      } else {
        StillWaited(s, reopening, turns, next, outcome);
        PassKeeps(next, reopening - {turns[0].rule.uuid}, turns[1..]);
        KeptGoesOn(s, reopening, turns, next, outcome, PassOver(next, turns[1..], true));
      }
    }
  }

  lemma IsEnabled(turns: seq<Turn>)
    requires turns != [] && Tryable(turns)
    ensures turns[0].rule.enabled
  {
  }

  lemma NothingTried(s: State, reopening: set<Uuid>)
    requires Safe(s, reopening)
    ensures Kept(s, reopening, [], Pass(s, 0, None))
  {
    assert reopening - Uuids([], 0) == reopening;
  }

  // ---------------------------------------------------------------- the handler that is never reached

  /** As it was meant to be, a pass would get further if and only if a licence error, and not the last rule's, is what
      ends it. */
  lemma {:induction false} SlicingEndsThePass(s: State, turns: seq<Turn>)
    ensures var p, meant := PassOver(s, turns, true), PassOver(s, turns, false);
            && p.tried <= meant.tried
            && (p.tried < meant.tried <==> p.error == Some(LicenseError) && p.tried < |turns|)
            && (p.error != Some(LicenseError) ==> p == meant)
    decreases |turns|
  {
    hide TurnTaken;
    if turns != [] {
      SlicingEndsThePass(TurnTaken(s, turns[0]).state, turns[1..]);
      AtLeastOne(TurnTaken(s, turns[0]).state, turns[1..]);
    }
  }

  lemma AtLeastOne(s: State, turns: seq<Turn>)
    ensures turns != [] <==> PassOver(s, turns, false).tried > 0
  {
    hide TurnTaken;
  }

  // ---------------------------------------------------------------- passes in runs

  /** The turns of a pass from here: every waiting rule once. */
  ghost predicate IsPass(s: State, turns: seq<Turn>) {
    AllWaiting(turns, s.toCheck) && Follows(s.(toCheck := map[]), turns, true)
  }

  ghost predicate AllWaiting(turns: seq<Turn>, waiting: map<Uuid, TunnelRule>) {
    && (forall i :: 0 <= i < |turns| ==> turns[i].rule.uuid in waiting && waiting[turns[i].rule.uuid] == turns[i].rule)
    && (forall u :: u in waiting ==> u in Uuids(turns, |turns|))
    && (forall i, j :: 0 <= i < j < |turns| ==> turns[i].rule.uuid != turns[j].rule.uuid)
  }

  /** The turns of the method are such a pass. */
  lemma TurnsAreAPass(s: State, reopening: set<Uuid>, turns: seq<Turn>, order: seq<Uuid>, worlds: map<Uuid, World>)
    requires Safe(s, reopening) && Lists(order, s.toCheck) && TurnsOf(turns, order, s.toCheck, worlds)
    requires Follows(s.(toCheck := map[]), turns, true)
    ensures IsPass(s, turns)
  {
    hide Follows, AnswerTo;
    forall i | 0 <= i < |turns|
      ensures turns[i].rule.uuid == order[i]
    {
      assert s.toCheck[order[i]].uuid == order[i];
    }
    forall u | u in s.toCheck
      ensures u in Uuids(turns, |turns|)
    {
      var i :| 0 <= i < |order| && order[i] == u;
      assert turns[i].rule.uuid == u;
    }
  }

  lemma PassIsTryable(s: State, reopening: set<Uuid>, turns: seq<Turn>)
    requires Safe(s, reopening) && IsPass(s, turns)
    ensures Tryable(turns) && Safe(s.(toCheck := map[]), reopening) && Waited(s.(toCheck := map[]), reopening, turns)
  {
    hide Follows, Uuids;
  }

  /** Every pass of every run: which rules it opens, what it keeps, and that none is lost exactly when the guards of all
      but the last hold. */
  lemma PassInARun(ruleLimit: nat, tunnelLimit: nat, events: seq<Event>, turns: seq<Turn>)
    requires Runs(Server(Empty(ruleLimit, tunnelLimit), {}), events)
    requires IsPass(After(Server(Empty(ruleLimit, tunnelLimit), {}), events).registry, turns)
    ensures var Server(s, reopening) := After(Server(Empty(ruleLimit, tunnelLimit), {}), events);
            var start := s.(toCheck := map[]);
            var p := PassOver(start, turns, true);
            && Kept(start, reopening, turns, p)
            && (p.tried == |turns| <==> forall i: nat :: i < |turns| - 1 ==> Succeeds(start, turns, i))
            && (p.error.None? <==> forall i: nat :: i < |turns| ==> Succeeds(start, turns, i))
  {
    RunIsSafe(Server(Empty(ruleLimit, tunnelLimit), {}), events);
    var Server(s, reopening) := After(Server(Empty(ruleLimit, tunnelLimit), {}), events);
    IsPassFollows(s, turns);
    hide Runs, After, IsPass, Safe, Follows, Waited, Tryable, PassOver, Kept, Succeeds;
    PassIsTryable(s, reopening, turns);
    PassTriesAll(s.(toCheck := map[]), reopening, turns);
    PassKeeps(s.(toCheck := map[]), reopening, turns);
  }

  lemma IsPassFollows(s: State, turns: seq<Turn>)
    requires IsPass(s, turns)
    ensures Follows(s.(toCheck := map[]), turns, true)
  {
  }

  ghost predicate Loses(s: State) {
    exists turns :: LosesWith(s, turns)
  }

  ghost predicate LosesWith(s: State, turns: seq<Turn>) {
    IsPass(s, turns) && PassOver(s.(toCheck := map[]), turns, true).tried < |turns|
  }

  predicate NoneWaits(s: State) {
    s.toCheck == map[] && (s.ruleLimit == 0 || s.tunnelLimit == 0)
  }

  lemma {:induction false} NoneToCheck(rule: TunnelRule, w: World, i: nat, o: Opening)
    requires !o.check
    ensures OpenInputs(0, rule, w, i, o).check ==> OpenInputs(0, rule, w, i, o).failed
    decreases |rule.inputs| - i
  {
    if i < |rule.inputs| && rule.inputs[i].Accepting? {
      NoneToCheck(rule, w, i + 1, if AnswerAt(w, i).Opened? then Accepted(o, rule.inputs[i].uuid) else o);
    }
  }

  lemma NoneToCheckAfter(s: State, rule: TunnelRule, victim: Option<nat>, w: World)
    requires |s.rules| <= s.ruleLimit && NoneWaits(s)
    ensures TunnelRuleUpdated(s, rule, victim, w).state.toCheck == map[]
  {
    var out := TakenOut(s, rule.uuid, victim);
    var o := Opening({}, out.tunnels, [], false, out.nextId, false);
    if s.tunnelLimit == 0 {
      NoneToCheck(rule, w, 0, o);
    } else {
      assert |s.rules| == 0;
      SizeWithout(s.rules, rule.uuid);
    }
    WaitsAfterUpdate(s, rule, victim, w);
    hide OpenInputs, TunnelRuleUpdated;
  }

  lemma StillNoneWaits(server: Server, e: Event)
    requires Safe(server.registry, server.reopening) && NoneWaits(server.registry) && Enabled(server.registry, e)
    ensures NoneWaits(Apply(server, e).registry)
  {
    hide Safe, TunnelRuleUpdated, Enabled;
    SameLimits(server, e);
    if e.UpdateTunnelRule? {
      assert |server.registry.rules| <= server.registry.ruleLimit by { SafeRules(server.registry, server.reopening); }
      NoneToCheckAfter(server.registry, e.rule, e.victim, e.world);
    }
  }

  lemma SafeRules(s: State, reopening: set<Uuid>)
    requires Safe(s, reopening)
    ensures |s.rules| <= s.ruleLimit
  {
  }

  lemma {:induction false} RunWithoutWaiting(server: Server, events: seq<Event>)
    requires Safe(server.registry, server.reopening) && NoneWaits(server.registry) && Runs(server, events)
    ensures NoneWaits(After(server, events).registry)
    decreases |events|
  {
    hide Safe, Apply, Enabled, NoneWaits;
    if events != [] {
      StepIsSafe(server, events[0]);
      StillNoneWaits(server, events[0]);
      RunWithoutWaiting(Apply(server, events[0]), events[1..]);
    }
  }

  lemma NothingToLose(s: State)
    requires NoneWaits(s)
    ensures !Loses(s)
  {
    forall turns: seq<Turn> | IsPass(s, turns)
      ensures turns == []
    {
    }
  }

  /** Two inputs, of which the first is not connected and the second is: the rule has a tunnel and waits. */
  const HALF_OPEN := TunnelRule(7, true, [Dialling, Dialling])
  const HALF := World(true, [NotConnected, Opened], [])

  /** One input that is not connected. */
  const UNCONNECTED := TunnelRule(8, true, [Dialling])
  const NOBODY := World(true, [NotConnected], [])

  lemma HalfOpened(ruleLimit: nat, tunnelLimit: nat)
    requires ruleLimit >= 1 && tunnelLimit >= 1
    ensures TunnelRuleUpdated(Empty(ruleLimit, tunnelLimit), HALF_OPEN, None, HALF).state ==
            State(ruleLimit, tunnelLimit, map[7 := ActiveRule(true, {})], map[0 := 7], map[], map[7 := HALF_OPEN], 1)
  {
    var rule := HALF_OPEN;
    var o := Opening({}, map[], [], false, 0, false);
    var checked := o.(check := true);
    var dialled := Dialled(checked, 7);
    assert OpenInputs(tunnelLimit, rule, HALF, 2, dialled) == dialled;
    assert OpenInputs(tunnelLimit, rule, HALF, 1, checked) == dialled;
    assert OpenInputs(tunnelLimit, rule, HALF, 0, o) == dialled;
    var out := TakenOut(Empty(ruleLimit, tunnelLimit), 7, None);
    assert out == Empty(ruleLimit, tunnelLimit);
    assert FirstBadSetup(HALF, 1, 1) == FirstBadSetup(HALF, 1, 0) == None;
  }

  /** The static tunnel of that rule has been closed, and another rule has become active and waits. */
  function Reopening(ruleLimit: nat, tunnelLimit: nat): State {
    State(ruleLimit, tunnelLimit, map[8 := ActiveRule(true, {})], map[], map[], map[7 := HALF_OPEN, 8 := UNCONNECTED], 1)
  }

  lemma Unconnected(ruleLimit: nat, tunnelLimit: nat)
    requires ruleLimit >= 1 && tunnelLimit >= 1
    ensures var s := State(ruleLimit, tunnelLimit, map[], map[], map[], map[7 := HALF_OPEN], 1);
            TunnelRuleUpdated(s, UNCONNECTED, None, NOBODY).state == Reopening(ruleLimit, tunnelLimit)
  {
    var s, rule := State(ruleLimit, tunnelLimit, map[], map[], map[], map[7 := HALF_OPEN], 1), UNCONNECTED;
    var o := Opening({}, map[], [], false, 1, false);
    var checked := o.(check := true);
    assert OpenInputs(tunnelLimit, rule, NOBODY, 1, checked) == checked;
    assert OpenInputs(tunnelLimit, rule, NOBODY, 0, o) == checked;
    assert TakenOut(s, 8, None) == s;
    assert FirstBadSetup(NOBODY, 0, 0) == None;
  }

  lemma ReopeningIsReached(ruleLimit: nat, tunnelLimit: nat) returns (events: seq<Event>)
    requires ruleLimit >= 1 && tunnelLimit >= 1
    ensures var start := Server(Empty(ruleLimit, tunnelLimit), {});
            Runs(start, events) && After(start, events) == Server(Reopening(ruleLimit, tunnelLimit), {7})
  {
    hide TunnelRuleUpdated;
    var start := Server(Empty(ruleLimit, tunnelLimit), {});
    var e := UpdateTunnelRule(HALF_OPEN, None, HALF);
    var f := Event.CloseTunnel(0, true);
    var g := UpdateTunnelRule(UNCONNECTED, None, NOBODY);
    HalfOpened(ruleLimit, tunnelLimit);
    Unconnected(ruleLimit, tunnelLimit);
    var open := Apply(start, e);
    var closed := Apply(open, f);
    assert closed.registry == State(ruleLimit, tunnelLimit, map[], map[], map[], map[7 := HALF_OPEN], 1);
    assert closed.reopening == {7};
    var last := Apply(closed, g);
    assert last == Server(Reopening(ruleLimit, tunnelLimit), {7});
    hide Apply, Enabled;
    events := [e, f, g];
    assert events[1..] == [f, g] && [f, g][1..] == [g] && [g][1..] == [];
    assert Runs(last, []) && Runs(closed, [g]) && Runs(open, [f, g]);
    assert After(closed, [g]) == last && After(open, [f, g]) == last;
  }

  /** A pass that tries the reopened rule first, which fails or is refused. */
  function LosingTurns(w: World): seq<Turn> {
    [Turn(HALF_OPEN, None, w), Turn(UNCONNECTED, None, ALL_OPEN)]
  }

  lemma FirstFails(ruleLimit: nat, tunnelLimit: nat, w: World)
    requires ruleLimit >= 1 && (ruleLimit == 1 || !w.filtersMade)
    ensures var s := Reopening(ruleLimit, tunnelLimit);
            var p := PassOver(s.(toCheck := map[]), LosingTurns(w), true);
            && IsPass(s, LosingTurns(w)) && LosesWith(s, LosingTurns(w)) && p.tried == 1
            && p.error == Some(if ruleLimit == 1 then LicenseError else LocalError)
  {
    var s, turns := Reopening(ruleLimit, tunnelLimit), LosingTurns(w);
    hide TurnTaken, Finds, PassOver, Follows, AllWaiting;
    FirstOutcome(ruleLimit, tunnelLimit, w);
    EndsWithFirst(s.(toCheck := map[]), turns);
    LosingTurnsWait(w);
  }

  lemma LosingTurnsWait(w: World)
    ensures AllWaiting(LosingTurns(w), map[7 := HALF_OPEN, 8 := UNCONNECTED])
  {
    var turns := LosingTurns(w);
    assert turns[0].rule.uuid in Uuids(turns, 2) && turns[1].rule.uuid in Uuids(turns, 2);
  }

  lemma EndsWithFirst(s: State, turns: seq<Turn>)
    requires turns != [] && TurnTaken(s, turns[0]).outcome.Thrown?
    requires Finds(s.tunnels, turns[0].rule.uuid, turns[0].victim)
    ensures Follows(s, turns, true)
    ensures var Updated(next, outcome) := TurnTaken(s, turns[0]);
            PassOver(s, turns, true) == Pass(next, 1, Some(outcome.error))
  {
    hide TurnTaken, Finds;
  }

  lemma FirstOutcome(ruleLimit: nat, tunnelLimit: nat, w: World)
    requires ruleLimit >= 1 && (ruleLimit == 1 || !w.filtersMade)
    ensures var start := Reopening(ruleLimit, tunnelLimit).(toCheck := map[]);
            && TurnTaken(start, LosingTurns(w)[0]).outcome == Thrown(if ruleLimit == 1 then LicenseError else LocalError)
            && Finds(start.tunnels, 7, LosingTurns(w)[0].victim)
  {
    var start := Reopening(ruleLimit, tunnelLimit).(toCheck := map[]);
    hide OpenInputs, Started;
    assert TakenOut(start, 7, None) == start;
  }

  /** A run, and a pass in which a rule of which nothing was asked waits no more: the rule before it could not be
      opened. */
  lemma ErrorLosesARule(ruleLimit: nat, tunnelLimit: nat)
    requires ruleLimit >= 2 && tunnelLimit >= 1
    ensures var start := Server(Empty(ruleLimit, tunnelLimit), {});
            exists events, turns: seq<Turn> ::
              && Runs(start, events) && LosesWith(After(start, events).registry, turns)
              && PassOver(After(start, events).registry.(toCheck := map[]), turns, true).error == Some(LocalError)
  {
    var events := ReopeningIsReached(ruleLimit, tunnelLimit);
    FirstFails(ruleLimit, tunnelLimit, World(false, [], []));
  }

  /** The same by the licence: the only active rule took its place while the static tunnel was reopened. The handler
      of licence errors would have let the pass go on. */
  lemma RefusalLosesARule(tunnelLimit: nat)
    requires tunnelLimit >= 1
    ensures var start := Server(Empty(1, tunnelLimit), {});
            exists events, turns: seq<Turn> ::
              && Runs(start, events) && LosesWith(After(start, events).registry, turns)
              && var s := After(start, events).registry.(toCheck := map[]);
              && PassOver(s, turns, true).error == Some(LicenseError)
              && turns[0].rule.uuid in After(start, events).reopening
              && PassOver(s, turns, true).tried < PassOver(s, turns, false).tried
  {
    var events := ReopeningIsReached(1, tunnelLimit);
    FirstFails(1, tunnelLimit, ALL_OPEN);
    SlicingEndsThePass(Reopening(1, tunnelLimit).(toCheck := map[]), LosingTurns(ALL_OPEN));
    assert LosesWith(After(Server(Empty(1, tunnelLimit), {}), events).registry, LosingTurns(ALL_OPEN));
  }

  /** Some pass of some run loses a waiting rule if and only if the licence allows any rule and any tunnel at all. */
  lemma WaitingRulesAreLost(ruleLimit: nat, tunnelLimit: nat)
    ensures var start := Server(Empty(ruleLimit, tunnelLimit), {});
            (exists events :: Runs(start, events) && Loses(After(start, events).registry))
            <==> ruleLimit >= 1 && tunnelLimit >= 1
  {
    hide Loses;
    var start := Server(Empty(ruleLimit, tunnelLimit), {});
    if ruleLimit >= 1 && tunnelLimit >= 1 {
      var events := ReopeningIsReached(ruleLimit, tunnelLimit);
      ReopeningLoses(ruleLimit, tunnelLimit);
      assert Loses(After(start, events).registry);
    } else {
      forall events | Runs(start, events)
        ensures !Loses(After(start, events).registry)
      {
        RunWithoutWaiting(start, events);
        NothingToLose(After(start, events).registry);
      }
    }
  }

  lemma ReopeningLoses(ruleLimit: nat, tunnelLimit: nat)
    requires ruleLimit >= 1
    ensures Loses(Reopening(ruleLimit, tunnelLimit))
  {
    FirstFails(ruleLimit, tunnelLimit, World(false, [], []));
  }
}
