// Rule sets, the documents they are saved to, and the schema: which rule sets can be saved
// and which documents can be loaded.
module RuleDocuments {
  import opened Wrappers
  import opened XmlTree
  import opened RuleSchema
  import opened RuleXml

  // ---------------------------------------------------------------- which documents load

  lemma {:induction false} TraverseOk<T(!new), U>(f: T -> Result<U, XmlError>, s: seq<T>)
    ensures Traverse(f, s).Ok? <==> forall x :: x in s ==> f(x).Ok?
  {
    if s != [] {
      var last := |s| - 1;
      TraverseOk(f, s[..last]);
      assert forall x :: x in s <==> x in s[..last] || x == s[last];
    }
  }

  /** Whether a child of an endpoint's element can be read does not depend on what was read before it. */
  predicate PartReadable(side: Side, n: Node) {
    if n.name == "CombinedAddress" then
      "ResourceIdentifier" in n.attributes && (side.Input? ==> "IsAcceptor" in n.attributes)
    else if n.name == "SplitAddress" then
      && "ReadResourceIdentifier" in n.attributes && "WriteResourceIdentifier" in n.attributes
      && (side.Input? ==> "Acceptor" in n.attributes)
    else "Name" in n.attributes
  }

  lemma PartOk(side: Side, e: Endpoint, n: Node)
    ensures PartRead(side, e, n).Ok? <==> PartReadable(side, n)
  {
  }

  lemma {:induction false} PartsOk(side: Side, e: Endpoint, nodes: seq<Node>)
    ensures PartsRead(side, e, nodes).Ok? <==> forall i :: 0 <= i < |nodes| ==> PartReadable(side, nodes[i])
  {
    hide PartReadable, PartRead;
    if nodes != [] {
      var last := |nodes| - 1;
      PartsOk(side, e, nodes[..last]);
      if PartsRead(side, e, nodes[..last]).Ok? {
        PartOk(side, PartsRead(side, e, nodes[..last]).value, nodes[last]);
      }
      assert forall i :: 0 <= i < last ==> nodes[..last][i] == nodes[i];
    }
  }

  /** A combined address of an input says whether it accepts connections. */
  predicate SaysAcceptor(endpoint: Node) {
    endpoint.children != [] &&
    var address := endpoint.children[|endpoint.children| - 1];
    address.name == "CombinedAddress" ==> "IsAcceptor" in address.attributes
  }

  lemma EndpointOk(side: Side, n: Node)
    requires IsEndpoint(side, n)
    ensures EndpointRead(side, n).Ok? <==> (side.Input? ==> SaysAcceptor(n))
  {
    hide IsUuid, IsResourceIdentifier, PartsRead, IsBlank;
    var pre :| IsEndpointWith(side, n, pre);
    var last := |n.children| - 1;
    PartsOk(side, Endpoint(n.attributes["Uuid"], "", "", NoAcceptor, [], []), n.children);
    forall i | 0 <= i < last
      ensures PartReadable(side, n.children[i])
    {
      assert "Name" in n.children[i].attributes by { assert n.children[i].attributes.Keys == {"Name"}; }
    }
    AddressOk(side, n.children[last]);
  }

  lemma AddressOk(side: Side, n: Node)
    requires IsCombinedAddress(side, n) || IsSplitAddress(side, n)
    ensures PartReadable(side, n) <==> (side.Input? && n.name == "CombinedAddress" ==> "IsAcceptor" in n.attributes)
  {
    hide IsResourceIdentifier, IsBlank;
    if IsSplitAddress(side, n) {
      assert "ReadResourceIdentifier" in n.attributes.Keys && "WriteResourceIdentifier" in n.attributes.Keys;
      assert side.Input? ==> "Acceptor" in n.attributes.Keys;
    }
  }

  lemma RuleOk(n: Node)
    requires IsRule(n)
    ensures EntityRead(n).Ok?
  {
    assert "Uuid" in n.attributes.Keys && "Name" in n.attributes.Keys;
    assert "ErrorsTreatment" in n.attributes.Keys && "IsEnabled" in n.attributes.Keys;
  }

  lemma ServiceRuleOk(n: Node)
    requires IsServiceRule(n)
    ensures ServiceRuleRead(n).Ok?
  {
    hide IsRule, IsUuid;
    RuleOk(n);
    TraverseOk(ServiceRead, n.children);
    forall s | s in n.children
      ensures ServiceRead(s).Ok?
    {
      assert "Uuid" in s.attributes.Keys && "Name" in s.attributes.Keys;
    }
  }

  /** The combined addresses among the inputs of a tunnel rule all say whether they accept. */
  predicate RuleSaysAcceptors(rule: Node) {
    |rule.children| > 1 && forall e :: e in rule.children[1].children ==> SaysAcceptor(e)
  }

  lemma FiltersOk(n: Node)
    requires IsFilterSet(n)
    ensures Traverse(FilterRead, n.children).Ok?
  {
    TraverseOk(FilterRead, n.children);
    forall f | f in n.children
      ensures FilterRead(f).Ok?
    {
      assert "Name" in f.attributes.Keys;
    }
  }

  lemma TunnelRuleOk(n: Node)
    requires IsTunnelRule(n)
    ensures TunnelRuleRead(n).Ok? <==> RuleSaysAcceptors(n)
  {
    hide IsRule, SaysAcceptor, IsEndpoint, EndpointRead, IsFilterSet;
    RuleOk(n);
    FiltersOk(n.children[0]);
    TraverseOk(InputRead, n.children[1].children);
    TraverseOk(DestinationRead, n.children[2].children);
    forall e | e in n.children[1].children
      ensures InputRead(e).Ok? <==> SaysAcceptor(e)
    {
      EndpointOk(Input, e);
    }
    forall e | e in n.children[2].children
      ensures DestinationRead(e).Ok?
    {
      EndpointOk(Destination, e);
    }
  }

  lemma {:induction false} Selected(nodes: seq<Node>, name: string)
    ensures forall n :: n in Select(nodes, name) <==> n in nodes && n.name == name
  {
    if nodes != [] {
      Selected(nodes[1..], name);
      assert forall n :: n in nodes <==> n == nodes[0] || n in nodes[1..];
    }
  }

  predicate AcceptorsAreGiven(root: Node) {
    forall n :: n in root.children && n.name == "TunnelRule" ==> RuleSaysAcceptors(n)
  }

  lemma RulesOfDocument(root: Node, n: Node)
    requires Matches(root) && n in root.children
    ensures if n.name == "ServiceRule" then IsServiceRule(n) else n.name == "TunnelRule" && IsTunnelRule(n)
  {
    hide IsRule, IsFilterSet, IsEndpointSet, IsService;
    var services :| IsRuleSetWith(root, services);
  }

  /** A document that the schema accepts is loaded exactly when every combined address among its inputs carries
      the attribute IsAcceptor, which the schema does not ask for. */
  lemma MatchingDocumentLoads(root: Node)
    requires Matches(root)
    ensures Loaded(root).Ok? <==> AcceptorsAreGiven(root)
  {
    hide IsServiceRule, IsTunnelRule, ServiceRuleRead, TunnelRuleRead, RuleSaysAcceptors;
    var services, tunnels := Select(root.children, "ServiceRule"), Select(root.children, "TunnelRule");
    Selected(root.children, "ServiceRule");
    Selected(root.children, "TunnelRule");
    TraverseOk(ServiceRuleRead, services);
    TraverseOk(TunnelRuleRead, tunnels);
    forall n | n in root.children
      ensures n.name == "ServiceRule" ==> ServiceRuleRead(n).Ok?
      ensures n.name == "TunnelRule" ==> (TunnelRuleRead(n).Ok? <==> RuleSaysAcceptors(n))
    {
      RulesOfDocument(root, n);
      if n.name == "ServiceRule" {
        ServiceRuleOk(n);
      } else {
        TunnelRuleOk(n);
      }
    }
    hide Matches;
  }

  // ---------------------------------------------------------------- which rule sets can be saved

  predicate WellFormedEndpoint(e: Endpoint) {
    IsUuid(e.uuid) && IsResourceIdentifier(e.read) && (e.IsCombined() || IsResourceIdentifier(e.write))
  }

  predicate WellFormedTunnelRule(r: TunnelRule) {
    && IsUuid(r.entity.uuid) && r.inputs != [] && r.destinations != []
    && (forall e :: e in r.inputs ==> WellFormedEndpoint(e))
    && (forall e :: e in r.destinations ==> WellFormedEndpoint(e))
  }

  predicate WellFormedServiceRule(r: ServiceRule) {
    IsUuid(r.entity.uuid) && r.services != [] && forall s :: s in r.services ==> IsUuid(s.uuid)
  }

  /** What the schema asks of a rule set: uuids, resource identifiers, and sets that are not empty. */
  predicate WellFormed(rules: RuleSet) {
    && (forall r :: r in rules.services ==> WellFormedServiceRule(r))
    && (forall r :: r in rules.tunnels ==> WellFormedTunnelRule(r))
  }

  lemma AddressMatches(side: Side, e: Endpoint)
    ensures var n := AddressNode(side, e);
            IsCombinedAddress(side, n) || IsSplitAddress(side, n)
            <==> IsResourceIdentifier(e.read) && (e.IsCombined() || IsResourceIdentifier(e.write))
  {
    hide IsResourceIdentifier;
  }

  lemma EndpointMatches(side: Side, e: Endpoint)
    ensures IsEndpoint(side, EndpointNode(side, e)) <==> WellFormedEndpoint(e)
  {
    hide IsUuid, IsResourceIdentifier, AddressNode, IsCombinedAddress, IsSplitAddress;
    AddressMatches(side, e);
    var n := EndpointNode(side, e);
    assert n.children[|n.children| - 1] == AddressNode(side, e);
    if WellFormedEndpoint(e) {
      assert IsEndpointWith(side, n, |e.pre|);
    }
  }

  lemma MapMembers<T(!new), U(!new)>(f: T -> U, s: seq<T>)
    ensures forall y :: y in Map(f, s) <==> exists x :: x in s && f(x) == y
    ensures forall x :: x in s ==> f(x) in Map(f, s)
  {
    forall x | x in s
      ensures f(x) in Map(f, s)
    {
      var i :| 0 <= i < |s| && s[i] == x;
      assert Map(f, s)[i] == f(x);
    }
  }

  lemma RuleMatches(e: Entity, n: Node)
    requires n.attributes == EntityAttributes(e) && n.content == ""
    ensures IsRule(n) <==> IsUuid(e.uuid)
  {
    hide IsUuid;
  }

  lemma FiltersMatch(filters: seq<string>)
    ensures IsFilterSet(Node("FilterSet", map[], "", Map(FilterNode, filters)))
  {
  }

  lemma EndpointSetMatches(side: Side, endpoints: seq<Endpoint>)
    ensures var name := if side.Input? then "InputSet" else "DestinationSet";
            var write := if side.Input? then InputNode else DestinationNode;
            IsEndpointSet(side, Node(name, map[], "", Map(write, endpoints)))
            <==> endpoints != [] && forall e :: e in endpoints ==> WellFormedEndpoint(e)
  {
    hide IsEndpoint, EndpointNode, WellFormedEndpoint;
    var write := if side.Input? then InputNode else DestinationNode;
    MapMembers(write, endpoints);
    forall e: Endpoint
      ensures IsEndpoint(side, write(e)) <==> WellFormedEndpoint(e)
    {
      EndpointMatches(side, e);
    }
  }

  lemma TunnelRuleMatches(r: TunnelRule)
    ensures IsTunnelRule(TunnelRuleNode(r)) <==> WellFormedTunnelRule(r)
  {
    hide IsRule, IsFilterSet, IsEndpointSet, IsUuid, WellFormedEndpoint, EntityAttributes;
    RuleMatches(r.entity, TunnelRuleNode(r));
    FiltersMatch(r.filters);
    EndpointSetMatches(Input, r.inputs);
    EndpointSetMatches(Destination, r.destinations);
  }

  lemma ServiceRuleMatches(r: ServiceRule)
    ensures IsServiceRule(ServiceRuleNode(r)) <==> WellFormedServiceRule(r)
  {
    hide IsRule, IsUuid;
    RuleMatches(r.entity, ServiceRuleNode(r));
    MapMembers(ServiceNode, r.services);
  }

  /** A rule set can be saved exactly when it is well formed. */
  lemma SavedMatches(rules: RuleSet)
    ensures Matches(Saved(rules)) <==> WellFormed(rules)
  {
    hide IsServiceRule, IsTunnelRule, WellFormedServiceRule, WellFormedTunnelRule;
    var root := Saved(rules);
    MapMembers(ServiceRuleNode, rules.services);
    MapMembers(TunnelRuleNode, rules.tunnels);
    forall r: ServiceRule
      ensures ServiceRuleNode(r).name == "ServiceRule"
      ensures IsServiceRule(ServiceRuleNode(r)) <==> WellFormedServiceRule(r)
    {
      ServiceRuleMatches(r);
    }
    forall r: TunnelRule
      ensures TunnelRuleNode(r).name == "TunnelRule"
      ensures IsTunnelRule(TunnelRuleNode(r)) <==> WellFormedTunnelRule(r)
    {
      TunnelRuleMatches(r);
    }
    if Matches(root) {
      forall n | n in root.children
        ensures if n.name == "ServiceRule" then IsServiceRule(n) else IsTunnelRule(n)
      {
        RulesOfDocument(root, n);
      }
    }
    if WellFormed(rules) {
      assert IsRuleSetWith(root, |rules.services|);
    }
  }

  /** Saving and loading: refused exactly for a rule set that is not well formed; otherwise everything comes back
      but what saving drops. */
  method SaveAndLoad(rules: RuleSet) returns (r: Result<RuleSet, XmlError>)
    ensures r == if WellFormed(rules) then Ok(Kept(rules)) else Err(DoesNotMatch)
  {
    hide Matches, WellFormed, Saved, Loaded, Kept;
    SavedMatches(rules);
    SaveThenLoad(rules);
    var saved := Save(rules);
    if saved.Err? {
      return Err(saved.error);
    }
    r := Load(saved.value);
  }

  // ---------------------------------------------------------------- a document that is refused

  const ZEROS := "00000000-0000-0000-0000-000000000000"

  /** A rule whose input has a combined address without IsAcceptor. */
  function SilentAddress(): Node {
    var e := Endpoint(ZEROS, "a://b", "", NoAcceptor, [], []);
    var input := EndpointNode(Destination, e);
    var rule := Node("TunnelRule", EntityAttributes(Entity(ZEROS, "", Error, true, false)), "",
                     [Node("FilterSet", map[], "", []), Node("InputSet", map[], "", [input]),
                      Node("DestinationSet", map[], "", [input])]);
    Node("RuleSet", map["Version" := "2.1"], "", [rule])
  }

  lemma AB()
    ensures IsResourceIdentifier("a://b") && IsUuid(ZEROS)
  {
    assert "a://b"[1..4] == "://";
    assert IsScheme("a://b", 1);
  }

  lemma SilentInput(e: Endpoint)
    requires WellFormedEndpoint(e) && e.IsCombined()
    ensures var n := EndpointNode(Destination, e);
            IsEndpoint(Input, n) && IsEndpoint(Destination, n) && !SaysAcceptor(n)
  {
    hide IsUuid, IsResourceIdentifier;
    EndpointMatches(Destination, e);
    var n := EndpointNode(Destination, e);
    var address := n.children[|n.children| - 1];
    assert address == AddressNode(Destination, e);
    assert IsEndpointWith(Input, n, |e.pre|);
  }

  /** The schema accepts it, the parser does not. */
  lemma SilentAddressIsRefused()
    ensures Matches(SilentAddress()) && Loaded(SilentAddress()).Err?
  {
    AB();
    hide IsUuid, IsResourceIdentifier, IsEndpoint, Loaded, SaysAcceptor;
    var e := Endpoint(ZEROS, "a://b", "", NoAcceptor, [], []);
    SilentInput(e);
    var root := SilentAddress();
    var rule := root.children[0];
    RuleMatches(Entity(ZEROS, "", Error, true, false), rule);
    assert IsTunnelRule(rule);
    assert IsRuleSetWith(root, 0);
    MatchingDocumentLoads(root);
    assert EndpointNode(Destination, e) in rule.children[1].children;
  }
}
