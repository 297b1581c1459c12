// Rule sets as XML: RuleEntitySetXmlSaver and the two parsers, and what survives a save and a load.
module RuleXml {
  import opened Wrappers
  import opened XmlTree
  import opened RuleSchema

  datatype Treatment = Info | Warn | Error
  datatype Acceptor = NoAcceptor | Reader | Writer

  datatype Listener = Listener(name: string, param: string)

  /** A combined endpoint has one resource identifier, kept in `read`, and an empty `write`. */
  datatype Endpoint = Endpoint(uuid: string, read: string, write: string, acceptor: Acceptor,
                               pre: seq<Listener>, post: seq<Listener>)
  {
    predicate IsCombined() {
      write == ""
    }
  }

  datatype Entity = Entity(uuid: string, name: string, treatment: Treatment, enabled: bool, silent: bool)

  datatype TunnelRule = TunnelRule(entity: Entity, filters: seq<string>, inputs: seq<Endpoint>,
                                   destinations: seq<Endpoint>, connectionsLimit: nat)

  datatype Service = Service(uuid: string, name: string, param: string)

  datatype ServiceRule = ServiceRule(entity: Entity, services: seq<Service>)

  datatype RuleSet = RuleSet(services: seq<ServiceRule>, tunnels: seq<TunnelRule>)

  // ---------------------------------------------------------------- what is written

  function TreatmentText(t: Treatment): string {
    match t
    case Info => "information"
    case Warn => "warning"
    case Error => "error"
  }

  function AcceptorText(a: Acceptor): string {
    match a
    case NoAcceptor => "none"
    case Reader => "reader"
    case Writer => "writer"
  }

  function BoolText(b: bool): string {
    if b then "true" else "false"
  }

  function EntityAttributes(e: Entity): map<string, string> {
    map["Name" := e.name, "IsEnabled" := BoolText(e.enabled),
        "ErrorsTreatment" := TreatmentText(e.treatment), "Uuid" := e.uuid]
  }

  function PreNode(l: Listener): Node {
    Node("PreListener", map["Name" := l.name], l.param, [])
  }

  function PostNode(l: Listener): Node {
    Node("PostListener", map["Name" := l.name], l.param, [])
  }

  function AddressNode(side: Side, e: Endpoint): Node {
    if e.IsCombined() then
      var node := Node("CombinedAddress", map["ResourceIdentifier" := e.read], "", []);
      if side.Input? then node.With("IsAcceptor", BoolText(!e.acceptor.NoAcceptor?)) else node
    else
      var ids := map["ReadResourceIdentifier" := e.read, "WriteResourceIdentifier" := e.write];
      var node := Node("SplitAddress", ids, "", []);
      if side.Input? then node.With("Acceptor", AcceptorText(e.acceptor)) else node
  }

  function EndpointNode(side: Side, e: Endpoint): Node {
    Node("Endpoint", map["Uuid" := e.uuid], "", Map(PreNode, e.pre) + Map(PostNode, e.post) + [AddressNode(side, e)])
  }

  function InputNode(e: Endpoint): Node {
    EndpointNode(Input, e)
  }

  function DestinationNode(e: Endpoint): Node {
    EndpointNode(Destination, e)
  }

  function FilterNode(name: string): Node {
    Node("Filter", map["Name" := name], "", [])
  }

  function TunnelRuleNode(r: TunnelRule): Node {
    Node("TunnelRule", EntityAttributes(r.entity), "",
         [Node("FilterSet", map[], "", Map(FilterNode, r.filters)),
          Node("InputSet", map[], "", Map(InputNode, r.inputs)),
          Node("DestinationSet", map[], "", Map(DestinationNode, r.destinations))])
  }

  function ServiceNode(s: Service): Node {
    Node("Service", map["Name" := s.name, "Uuid" := s.uuid], s.param, [])
  }

  function ServiceRuleNode(r: ServiceRule): Node {
    Node("ServiceRule", EntityAttributes(r.entity), "", Map(ServiceNode, r.services))
  }

  /** The whole document: the service rules, then the tunnel rules. */
  function Saved(rules: RuleSet): Node {
    Node("RuleSet", map["Version" := "2.1"], "",
         Map(ServiceRuleNode, rules.services) + Map(TunnelRuleNode, rules.tunnels))
  }

  // ---------------------------------------------------------------- what is read

  function TreatmentRead(text: string): Treatment {
    if text == "information" then Info else if text == "warning" then Warn else Error
  }

  function EntityRead(node: Node): Result<Entity, XmlError> {
    var uuid :- Attribute(node, "Uuid");
    var name :- Attribute(node, "Name");
    var treatment :- Attribute(node, "ErrorsTreatment");
    var enabled :- Attribute(node, "IsEnabled");
    Ok(Entity(uuid, name, TreatmentRead(treatment), enabled == "true", false))
  }

  function ListenerRead(node: Node): Result<Listener, XmlError> {
    var name :- Attribute(node, "Name");
    Ok(Listener(name, node.content))
  }

  function CombinedRead(side: Side, e: Endpoint, node: Node): Result<Endpoint, XmlError> {
    var id :- Attribute(node, "ResourceIdentifier");
    if side.Destination? then Ok(e.(read := id, write := "", acceptor := NoAcceptor))
    else
      var isAcceptor :- Attribute(node, "IsAcceptor");
      Ok(e.(read := id, write := "", acceptor := if isAcceptor == "true" then Reader else NoAcceptor))
  }

  function AcceptorRead(text: string): Acceptor {
    if text == "reader" then Reader else if text == "writer" then Writer else NoAcceptor
  }

  function SplitRead(side: Side, e: Endpoint, node: Node): Result<Endpoint, XmlError> {
    var acceptor :- if side.Input? then Attribute(node, "Acceptor") else Ok("none");
    var read :- Attribute(node, "ReadResourceIdentifier");
    var write :- Attribute(node, "WriteResourceIdentifier");
    Ok(e.(read := read, write := write, acceptor := AcceptorRead(acceptor)))
  }

  /** What one child of an endpoint's element adds to the endpoint. */
  function PartRead(side: Side, e: Endpoint, node: Node): Result<Endpoint, XmlError> {
    if node.name == "CombinedAddress" then CombinedRead(side, e, node)
    else if node.name == "SplitAddress" then SplitRead(side, e, node)
    else
      var l :- ListenerRead(node);
      Ok(if node.name == "PreListener" then e.(pre := e.pre + [l]) else e.(post := e.post + [l]))
  }

  function PartsRead(side: Side, e: Endpoint, nodes: seq<Node>): Result<Endpoint, XmlError> {
    if nodes == [] then Ok(e)
    else
      var last := |nodes| - 1;
      var before :- PartsRead(side, e, nodes[..last]);
      PartRead(side, before, nodes[last])
  }

  function EndpointRead(side: Side, node: Node): Result<Endpoint, XmlError> {
    var uuid :- Attribute(node, "Uuid");
    PartsRead(side, Endpoint(uuid, "", "", NoAcceptor, [], []), node.children)
  }

  function InputRead(node: Node): Result<Endpoint, XmlError> {
    EndpointRead(Input, node)
  }

  function DestinationRead(node: Node): Result<Endpoint, XmlError> {
    EndpointRead(Destination, node)
  }

  function FilterRead(node: Node): Result<string, XmlError> {
    Attribute(node, "Name")
  }

  function TunnelRuleRead(node: Node): Result<TunnelRule, XmlError> {
    var entity :- EntityRead(node);
    var filterSet :- Child(node, 0);
    var filters :- Traverse(FilterRead, filterSet.children);
    var inputSet :- Child(node, 1);
    var inputs :- Traverse(InputRead, inputSet.children);
    var destinationSet :- Child(node, 2);
    var destinations :- Traverse(DestinationRead, destinationSet.children);
    Ok(TunnelRule(entity, filters, inputs, destinations, 0))
  }

  function ServiceRead(node: Node): Result<Service, XmlError> {
    var uuid :- Attribute(node, "Uuid");
    var name :- Attribute(node, "Name");
    Ok(Service(uuid, name, node.content))
  }

  function ServiceRuleRead(node: Node): Result<ServiceRule, XmlError> {
    var entity :- EntityRead(node);
    var services :- Traverse(ServiceRead, node.children);
    Ok(ServiceRule(entity, services))
  }

  function RulesRead<R>(root: Node, name: string, read: Node -> Result<R, XmlError>): Result<seq<R>, XmlError> {
    Traverse(read, if root.name == "RuleSet" then Select(root.children, name) else [])
  }

  function Loaded(root: Node): Result<RuleSet, XmlError> {
    var services :- RulesRead(root, "ServiceRule", ServiceRuleRead);
    var tunnels :- RulesRead(root, "TunnelRule", TunnelRuleRead);
    Ok(RuleSet(services, tunnels))
  }

  // ---------------------------------------------------------------- what survives

  function EntityKept(e: Entity): Entity {
    e.(silent := false)
  }

  function InputKept(e: Endpoint): Endpoint {
    e.(acceptor := if e.IsCombined() && !e.acceptor.NoAcceptor? then Reader else e.acceptor)
  }

  function DestinationKept(e: Endpoint): Endpoint {
    e.(acceptor := NoAcceptor)
  }

  function TunnelRuleKept(r: TunnelRule): TunnelRule {
    TunnelRule(EntityKept(r.entity), r.filters, Map(InputKept, r.inputs), Map(DestinationKept, r.destinations), 0)
  }

  function ServiceRuleKept(r: ServiceRule): ServiceRule {
    r.(entity := EntityKept(r.entity))
  }

  /** A rule set without what saving drops. */
  function Kept(rules: RuleSet): RuleSet {
    RuleSet(Map(ServiceRuleKept, rules.services), Map(TunnelRuleKept, rules.tunnels))
  }

  predicate NothingToDropIn(r: TunnelRule) {
    && !r.entity.silent && r.connectionsLimit == 0
    && (forall e :: e in r.inputs ==> !(e.IsCombined() && e.acceptor.Writer?))
    && (forall e :: e in r.destinations ==> e.acceptor.NoAcceptor?)
  }

  /** Nothing in the rule set is of the kind that saving drops. */
  predicate NothingToDrop(rules: RuleSet) {
    && (forall r :: r in rules.services ==> !r.entity.silent)
    && (forall r :: r in rules.tunnels ==> NothingToDropIn(r))
  }

  lemma EntityIsReadBack(e: Entity, node: Node)
    requires node.attributes == EntityAttributes(e)
    ensures EntityRead(node) == Ok(EntityKept(e))
  {
  }

  lemma PartsAppend(side: Side, e: Endpoint, nodes: seq<Node>, more: Node)
    ensures PartsRead(side, e, nodes).Ok? ==>
              PartsRead(side, e, nodes + [more]) == PartRead(side, PartsRead(side, e, nodes).value, more)
  {
    assert (nodes + [more])[..|nodes|] == nodes;
  }

  lemma {:induction false} PreAreReadBack(side: Side, e: Endpoint, ls: seq<Listener>)
    requires e.pre == []
    ensures PartsRead(side, e, Map(PreNode, ls)) == Ok(e.(pre := ls))
  {
    if ls != [] {
      var last := |ls| - 1;
      PreAreReadBack(side, e, ls[..last]);
      assert Map(PreNode, ls) == Map(PreNode, ls[..last]) + [PreNode(ls[last])];
      PartsAppend(side, e, Map(PreNode, ls[..last]), PreNode(ls[last]));
      assert ls[..last] + [ls[last]] == ls;
    } else {
      assert Map(PreNode, ls) == [];
    }
  }

  lemma OnePostMore(side: Side, e: Endpoint, l: Listener)
    ensures PartRead(side, e, PostNode(l)) == Ok(e.(post := e.post + [l]))
  {
  }

  lemma {:induction false} PostAreReadBack(side: Side, e: Endpoint, before: seq<Node>, ls: seq<Listener>)
    requires PartsRead(side, e, before).Ok? && PartsRead(side, e, before).value.post == []
    ensures PartsRead(side, e, before + Map(PostNode, ls)) == Ok(PartsRead(side, e, before).value.(post := ls))
  {
    hide PartRead, PartsRead;
    if ls != [] {
      var last := |ls| - 1;
      var nodes := before + Map(PostNode, ls[..last]);
      PostAreReadBack(side, e, before, ls[..last]);
      PartsAppend(side, e, nodes, PostNode(ls[last]));
      OnePostMore(side, PartsRead(side, e, nodes).value, ls[last]);
      assert before + Map(PostNode, ls) == nodes + [PostNode(ls[last])];
      assert ls[..last] + [ls[last]] == ls;
    } else {
      assert before + Map(PostNode, ls) == before;
    }
  }

  function EndpointKept(side: Side, e: Endpoint): Endpoint {
    if side.Input? then InputKept(e) else DestinationKept(e)
  }

  lemma AddressIsReadBack(side: Side, e: Endpoint)
    ensures PartRead(side, Endpoint(e.uuid, "", "", NoAcceptor, e.pre, e.post), AddressNode(side, e))
         == Ok(EndpointKept(side, e))
  {
  }

  lemma EndpointIsReadBack(side: Side, e: Endpoint)
    ensures EndpointRead(side, EndpointNode(side, e)) == Ok(EndpointKept(side, e))
  {
    hide PartRead, PartsRead, AddressNode, EndpointKept, PreNode, PostNode;
    var start := Endpoint(e.uuid, "", "", NoAcceptor, [], []);
    PreAreReadBack(side, start, e.pre);
    PostAreReadBack(side, start, Map(PreNode, e.pre), e.post);
    PartsAppend(side, start, Map(PreNode, e.pre) + Map(PostNode, e.post), AddressNode(side, e));
    AddressIsReadBack(side, e);
  }

  lemma TunnelRuleIsReadBack(r: TunnelRule)
    ensures TunnelRuleRead(TunnelRuleNode(r)) == Ok(TunnelRuleKept(r))
  {
    EntityIsReadBack(r.entity, TunnelRuleNode(r));
    forall e: Endpoint
      ensures InputRead(InputNode(e)) == Ok(InputKept(e)) && DestinationRead(DestinationNode(e)) == Ok(DestinationKept(e))
    {
      EndpointIsReadBack(Input, e);
      EndpointIsReadBack(Destination, e);
    }
    TraverseMap(FilterNode, FilterRead, (f: string) => f, r.filters);
    assert Map((f: string) => f, r.filters) == r.filters;
    TraverseMap(InputNode, InputRead, InputKept, r.inputs);
    TraverseMap(DestinationNode, DestinationRead, DestinationKept, r.destinations);
  }

  lemma ServiceRuleIsReadBack(r: ServiceRule)
    ensures ServiceRuleRead(ServiceRuleNode(r)) == Ok(ServiceRuleKept(r))
  {
    EntityIsReadBack(r.entity, ServiceRuleNode(r));
    TraverseMap(ServiceNode, ServiceRead, (s: Service) => s, r.services);
    assert Map((s: Service) => s, r.services) == r.services;
  }

  lemma RulesAreFound(rules: RuleSet)
    ensures Select(Saved(rules).children, "ServiceRule") == Map(ServiceRuleNode, rules.services)
    ensures Select(Saved(rules).children, "TunnelRule") == Map(TunnelRuleNode, rules.tunnels)
  {
    hide Select;
    var services, tunnels := Map(ServiceRuleNode, rules.services), Map(TunnelRuleNode, rules.tunnels);
    assert forall n :: n in services ==> n.name == "ServiceRule";
    assert forall n :: n in tunnels ==> n.name == "TunnelRule";
    hide ServiceRuleNode, TunnelRuleNode;
    SelectConcat(services, tunnels, "ServiceRule");
    SelectConcat(services, tunnels, "TunnelRule");
    SelectAllOrNone(services, "ServiceRule");
    SelectAllOrNone(tunnels, "ServiceRule");
    SelectAllOrNone(services, "TunnelRule");
    SelectAllOrNone(tunnels, "TunnelRule");
  }

  /** Loading what was saved gives the rule set back, in order at every level, less what saving drops. */
  lemma SaveThenLoad(rules: RuleSet)
    ensures Loaded(Saved(rules)) == Ok(Kept(rules))
  {
    RulesAreFound(rules);
    forall r: ServiceRule
      ensures ServiceRuleRead(ServiceRuleNode(r)) == Ok(ServiceRuleKept(r))
    {
      ServiceRuleIsReadBack(r);
    }
    forall r: TunnelRule
      ensures TunnelRuleRead(TunnelRuleNode(r)) == Ok(TunnelRuleKept(r))
    {
      TunnelRuleIsReadBack(r);
    }
    TraverseMap(ServiceRuleNode, ServiceRuleRead, ServiceRuleKept, rules.services);
    TraverseMap(TunnelRuleNode, TunnelRuleRead, TunnelRuleKept, rules.tunnels);
  }

  lemma MapTwice<T(!new), U, V>(f: T -> U, g: U -> V, h: T -> V, s: seq<T>)
    requires forall x :: x in s ==> g(f(x)) == h(x)
    ensures Map(g, Map(f, s)) == Map(h, s)
  {
  }

  lemma EndpointsAreSavedAlike(side: Side, e: Endpoint)
    ensures EndpointNode(side, EndpointKept(side, e)) == EndpointNode(side, e)
  {
  }

  lemma TunnelRulesAreSavedAlike(r: TunnelRule)
    ensures TunnelRuleNode(TunnelRuleKept(r)) == TunnelRuleNode(r)
  {
    forall e: Endpoint
      ensures InputNode(InputKept(e)) == InputNode(e) && DestinationNode(DestinationKept(e)) == DestinationNode(e)
    {
      EndpointsAreSavedAlike(Input, e);
      EndpointsAreSavedAlike(Destination, e);
    }
    MapTwice(InputKept, InputNode, InputNode, r.inputs);
    MapTwice(DestinationKept, DestinationNode, DestinationNode, r.destinations);
  }

  /** A second save writes the same document: saving and loading loses nothing the second time. */
  lemma SavingIsStable(rules: RuleSet)
    ensures Loaded(Saved(rules)).Ok? && Saved(Loaded(Saved(rules)).value) == Saved(rules)
  {
    SaveThenLoad(rules);
    forall r: TunnelRule
      ensures TunnelRuleNode(TunnelRuleKept(r)) == TunnelRuleNode(r)
    {
      TunnelRulesAreSavedAlike(r);
    }
    MapTwice(ServiceRuleKept, ServiceRuleNode, ServiceRuleNode, rules.services);
    MapTwice(TunnelRuleKept, TunnelRuleNode, TunnelRuleNode, rules.tunnels);
  }

  lemma MapIsIdentity<T(!new)>(f: T -> T, s: seq<T>)
    ensures Map(f, s) == s <==> forall x :: x in s ==> f(x) == x
  {
    if Map(f, s) == s {
      forall x | x in s
        ensures f(x) == x
      {
        var i :| 0 <= i < |s| && s[i] == x;
        assert Map(f, s)[i] == f(x);
      }
    }
  }

  lemma RuleIsWhole(r: TunnelRule)
    ensures TunnelRuleKept(r) == r <==> NothingToDropIn(r)
  {
    MapIsIdentity(InputKept, r.inputs);
    MapIsIdentity(DestinationKept, r.destinations);
  }

  /** The rule set itself comes back exactly when nothing in it is dropped. */
  lemma ComesBackWhole(rules: RuleSet)
    ensures Loaded(Saved(rules)) == Ok(rules) <==> NothingToDrop(rules)
  {
    hide NothingToDropIn, TunnelRuleKept, Loaded, Saved;
    SaveThenLoad(rules);
    MapIsIdentity(ServiceRuleKept, rules.services);
    MapIsIdentity(TunnelRuleKept, rules.tunnels);
    forall r: TunnelRule
      ensures TunnelRuleKept(r) == r <==> NothingToDropIn(r)
    {
      RuleIsWhole(r);
    }
  }

  // ---------------------------------------------------------------- the saver

  method SaveListeners(listeners: seq<Listener>, endpointNode: Node, pre: bool) returns (node: Node)
    ensures node == endpointNode.(children := endpointNode.children + Map(if pre then PreNode else PostNode, listeners))
  {
    node := endpointNode;
    var write := if pre then PreNode else PostNode;
    MapAll(write, listeners);
    for i := 0 to |listeners|
      invariant node == endpointNode.(children := endpointNode.children + Map(write, listeners[..i]))
    {
      var listenerNode := New(if pre then "PreListener" else "PostListener");
      listenerNode := listenerNode.With("Name", listeners[i].name).(content := listeners[i].param);
      node := node.WithChild(listenerNode);
      MapMore(write, listeners, i);
    }
  }

  method SaveInputEndpoints(endpoints: seq<Endpoint>, ruleNode: Node) returns (node: Node)
    ensures node == ruleNode.WithChild(Node("InputSet", map[], "", Map(InputNode, endpoints)))
  {
    var endpointsNode := New("InputSet");
    MapAll(InputNode, endpoints);
    for i := 0 to |endpoints|
      invariant endpointsNode == Node("InputSet", map[], "", Map(InputNode, endpoints[..i]))
    {
      var e := endpoints[i];
      var endpointNode := New("Endpoint");
      endpointNode := SaveListeners(e.pre, endpointNode, true);
      endpointNode := SaveListeners(e.post, endpointNode, false);
      assert endpointNode.children == Map(PreNode, e.pre) + Map(PostNode, e.post);
      if e.IsCombined() {
        var addressNode := New("CombinedAddress").With("ResourceIdentifier", e.read);
        addressNode := addressNode.With("IsAcceptor", if e.acceptor != NoAcceptor then "true" else "false");
        assert addressNode == AddressNode(Input, e) by { assert addressNode.attributes == AddressNode(Input, e).attributes; }
        endpointNode := endpointNode.WithChild(addressNode);
      } else {
        var addressNode := New("SplitAddress").With("ReadResourceIdentifier", e.read);
        addressNode := addressNode.With("WriteResourceIdentifier", e.write);
        var acceptor;
        match e.acceptor {
          case NoAcceptor => acceptor := "none";
          case Reader => acceptor := "reader";
          case Writer => acceptor := "writer";
        }
        addressNode := addressNode.With("Acceptor", acceptor);
        assert addressNode == AddressNode(Input, e) by { assert addressNode.attributes == AddressNode(Input, e).attributes; }
        endpointNode := endpointNode.WithChild(addressNode);
      }
      endpointNode := endpointNode.With("Uuid", e.uuid);
      assert endpointNode.children == Map(PreNode, e.pre) + Map(PostNode, e.post) + [AddressNode(Input, e)];
      assert endpointNode == InputNode(e);
      endpointsNode := endpointsNode.WithChild(endpointNode);
      MapMore(InputNode, endpoints, i);
    }
    node := ruleNode.WithChild(endpointsNode);
  }

  method SaveDestinationEndpoints(endpoints: seq<Endpoint>, ruleNode: Node) returns (node: Node)
    ensures node == ruleNode.WithChild(Node("DestinationSet", map[], "", Map(DestinationNode, endpoints)))
  {
    var endpointsNode := New("DestinationSet");
    MapAll(DestinationNode, endpoints);
    for i := 0 to |endpoints|
      invariant endpointsNode == Node("DestinationSet", map[], "", Map(DestinationNode, endpoints[..i]))
    {
      var e := endpoints[i];
      var endpointNode := New("Endpoint");
      endpointNode := SaveListeners(e.pre, endpointNode, true);
      endpointNode := SaveListeners(e.post, endpointNode, false);
      if e.IsCombined() {
        endpointNode := endpointNode.WithChild(New("CombinedAddress").With("ResourceIdentifier", e.read));
      } else {
        var addressNode := New("SplitAddress").With("ReadResourceIdentifier", e.read);
        endpointNode := endpointNode.WithChild(addressNode.With("WriteResourceIdentifier", e.write));
      }
      endpointNode := endpointNode.With("Uuid", e.uuid);
      assert endpointNode.children == Map(PreNode, e.pre) + Map(PostNode, e.post) + [AddressNode(Destination, e)];
      assert endpointNode == DestinationNode(e);
      endpointsNode := endpointsNode.WithChild(endpointNode);
      MapMore(DestinationNode, endpoints, i);
    }
    node := ruleNode.WithChild(endpointsNode);
  }

  method CreateEntity(source: Entity, tagName: string) returns (node: Node)
    ensures node == Node(tagName, EntityAttributes(source), "", [])
  {
    node := New(tagName).With("Name", source.name);
    node := node.With("IsEnabled", if source.enabled then "true" else "false");
    node := node.With("ErrorsTreatment", TreatmentText(source.treatment));
    node := node.With("Uuid", source.uuid);
  }

  method SaveTunnelRuleSet(rules: seq<TunnelRule>, root: Node) returns (node: Node)
    ensures node == root.(children := root.children + Map(TunnelRuleNode, rules))
  {
    node := root;
    MapAll(TunnelRuleNode, rules);
    for i := 0 to |rules|
      invariant node == root.(children := root.children + Map(TunnelRuleNode, rules[..i]))
    {
      var rule := rules[i];
      var ruleNode := CreateEntity(rule.entity, "TunnelRule");
      var filtersNode := New("FilterSet");
      MapAll(FilterNode, rule.filters);
      for j := 0 to |rule.filters|
        invariant filtersNode == Node("FilterSet", map[], "", Map(FilterNode, rule.filters[..j]))
      {
        filtersNode := filtersNode.WithChild(New("Filter").With("Name", rule.filters[j]));
        MapMore(FilterNode, rule.filters, j);
      }
      ruleNode := ruleNode.WithChild(filtersNode);
      ruleNode := SaveInputEndpoints(rule.inputs, ruleNode);
      ruleNode := SaveDestinationEndpoints(rule.destinations, ruleNode);
      assert ruleNode.children == TunnelRuleNode(rule).children;
      node := node.WithChild(ruleNode);
      MapMore(TunnelRuleNode, rules, i);
    }
  }

  method SaveServiceRuleSet(rules: seq<ServiceRule>, root: Node) returns (node: Node)
    ensures node == root.(children := root.children + Map(ServiceRuleNode, rules))
  {
    node := root;
    MapAll(ServiceRuleNode, rules);
    for i := 0 to |rules|
      invariant node == root.(children := root.children + Map(ServiceRuleNode, rules[..i]))
    {
      var ruleNode := CreateEntity(rules[i].entity, "ServiceRule");
      var services := rules[i].services;
      MapAll(ServiceNode, services);
      for j := 0 to |services|
        invariant ruleNode == Node("ServiceRule", EntityAttributes(rules[i].entity), "", Map(ServiceNode, services[..j]))
      {
        var serviceNode := New("Service").With("Name", services[j].name).With("Uuid", services[j].uuid);
        ruleNode := ruleNode.WithChild(serviceNode.(content := services[j].param));
        MapMore(ServiceNode, services, j);
      }
      node := node.WithChild(ruleNode);
      MapMore(ServiceRuleNode, rules, i);
    }
  }

  /** The document, if the schema accepts it. */
  method Save(rules: RuleSet) returns (r: Result<Node, XmlError>)
    ensures r == if Matches(Saved(rules)) then Ok(Saved(rules)) else Err(DoesNotMatch)
  {
    var root := New("RuleSet").With("Version", "2.1");
    root := SaveServiceRuleSet(rules.services, root);
    root := SaveTunnelRuleSet(rules.tunnels, root);
    assert root.children == Saved(rules).children;
    hide Matches;
    if !Matches(root) {
      return Err(DoesNotMatch);
    }
    return Ok(root);
  }

  // ---------------------------------------------------------------- the parsers

  method ParseEntity(node: Node) returns (r: Result<Entity, XmlError>)
    ensures r == EntityRead(node)
  {
    var entity := Entity("", "", Error, true, false);
    var uuid :- Attribute(node, "Uuid");
    entity := entity.(uuid := uuid);
    var name :- Attribute(node, "Name");
    entity := entity.(name := name);
    var treatment :- Attribute(node, "ErrorsTreatment");
    if treatment == "information" {
      entity := entity.(treatment := Info);
    } else if treatment == "warning" {
      entity := entity.(treatment := Warn);
    } else {
      entity := entity.(treatment := Error);
    }
    var enabled :- Attribute(node, "IsEnabled");
    entity := entity.(enabled := enabled == "true");
    return Ok(entity);
  }

  /** One child of an endpoint's element. */
  method ParsePart(side: Side, before: Endpoint, node: Node) returns (r: Result<Endpoint, XmlError>)
    ensures r == PartRead(side, before, node)
  {
    var endpoint := before;
    if node.name == "CombinedAddress" {
      var id :- Attribute(node, "ResourceIdentifier");
      var isAcceptor := "false";
      if side.Input? {
        isAcceptor :- Attribute(node, "IsAcceptor");
      }
      endpoint := endpoint.(read := id, write := "", acceptor := if isAcceptor == "true" then Reader else NoAcceptor);
    } else if node.name == "SplitAddress" {
      var acceptor := NoAcceptor;
      if side.Input? {
        var text :- Attribute(node, "Acceptor");
        if text == "reader" {
          acceptor := Reader;
        } else if text == "writer" {
          acceptor := Writer;
        }
      }
      var read :- Attribute(node, "ReadResourceIdentifier");
      var write :- Attribute(node, "WriteResourceIdentifier");
      endpoint := endpoint.(read := read, write := write, acceptor := acceptor);
    } else {
      var listener :- ListenerRead(node);
      if node.name == "PreListener" {
        endpoint := endpoint.(pre := endpoint.pre + [listener]);
      } else {
        endpoint := endpoint.(post := endpoint.post + [listener]);
      }
    }
    return Ok(endpoint);
  }

  /** The endpoint of an element: the source has one such loop for inputs and one for destinations. */
  method ParseEndpoint(side: Side, endpointNode: Node) returns (r: Result<Endpoint, XmlError>)
    ensures r == EndpointRead(side, endpointNode)
  {
    var uuid :- Attribute(endpointNode, "Uuid");
    var endpoint := Endpoint(uuid, "", "", NoAcceptor, [], []);
    ghost var start := endpoint;
    var nodes := endpointNode.children;
    assert nodes[..0] == [] && nodes[..|nodes|] == nodes;
    for i := 0 to |nodes|
      invariant PartsRead(side, start, nodes[..i]) == Ok(endpoint)
    {
      assert nodes[..i + 1] == nodes[..i] + [nodes[i]];
      PartsAppend(side, start, nodes[..i], nodes[i]);
      var part := ParsePart(side, endpoint, nodes[i]);
      if part.Err? {
        PartsFail(side, start, nodes, i + 1);
        return part;
      }
      endpoint := part.value;
    }
    return Ok(endpoint);
  }

  lemma {:induction false} PartsFail(side: Side, e: Endpoint, nodes: seq<Node>, i: nat)
    requires i <= |nodes| && PartsRead(side, e, nodes[..i]).Err?
    ensures PartsRead(side, e, nodes) == PartsRead(side, e, nodes[..i])
  {
    if i == |nodes| {
      assert nodes[..i] == nodes;
    } else {
      assert nodes[..|nodes| - 1][..i] == nodes[..i];
      PartsFail(side, e, nodes[..|nodes| - 1], i);
    }
  }

  method ParseEndpoints(side: Side, setNode: Node) returns (r: Result<seq<Endpoint>, XmlError>)
    ensures r == Traverse(if side.Input? then InputRead else DestinationRead, setNode.children)
  {
    var nodes := setNode.children;
    ghost var read := if side.Input? then InputRead else DestinationRead;
    var endpoints := [];
    assert nodes[..0] == [] && nodes[..|nodes|] == nodes;
    for i := 0 to |nodes|
      invariant Traverse(read, nodes[..i]) == Ok(endpoints)
    {
      var endpoint := ParseEndpoint(side, nodes[i]);
      TraverseMore(read, nodes, i);
      if endpoint.Err? {
        TraverseFails(read, nodes, i + 1);
        return Err(endpoint.error);
      }
      endpoints := endpoints + [endpoint.value];
    }
    return Ok(endpoints);
  }

  method ParseFilters(setNode: Node) returns (r: Result<seq<string>, XmlError>)
    ensures r == Traverse(FilterRead, setNode.children)
  {
    var nodes := setNode.children;
    var filters := [];
    assert nodes[..0] == [] && nodes[..|nodes|] == nodes;
    for i := 0 to |nodes|
      invariant Traverse(FilterRead, nodes[..i]) == Ok(filters)
    {
      var name := Attribute(nodes[i], "Name");
      TraverseMore(FilterRead, nodes, i);
      if name.Err? {
        TraverseFails(FilterRead, nodes, i + 1);
        return Err(name.error);
      }
      filters := filters + [name.value];
    }
    return Ok(filters);
  }

  method ParseTunnelRule(node: Node) returns (r: Result<TunnelRule, XmlError>)
    ensures r == TunnelRuleRead(node)
  {
    var parsed := ParseEntity(node);
    var entity :- parsed;
    var filterSet :- Child(node, 0);
    var parsedFilters := ParseFilters(filterSet);
    var filters :- parsedFilters;
    var inputSet :- Child(node, 1);
    var parsedEndpoints := ParseEndpoints(Input, inputSet);
    var inputs :- parsedEndpoints;
    var destinationSet :- Child(node, 2);
    parsedEndpoints := ParseEndpoints(Destination, destinationSet);
    var destinations :- parsedEndpoints;
    return Ok(TunnelRule(entity, filters, inputs, destinations, 0));
  }

  method ParseServiceRule(node: Node) returns (r: Result<ServiceRule, XmlError>)
    ensures r == ServiceRuleRead(node)
  {
    var parsed := ParseEntity(node);
    var entity :- parsed;
    var nodes := node.children;
    var services := [];
    assert nodes[..0] == [] && nodes[..|nodes|] == nodes;
    for i := 0 to |nodes|
      invariant Traverse(ServiceRead, nodes[..i]) == Ok(services)
    {
      var service := ServiceRead(nodes[i]);
      TraverseMore(ServiceRead, nodes, i);
      if service.Err? {
        TraverseFails(ServiceRead, nodes, i + 1);
        return Err(service.error);
      }
      services := services + [service.value];
    }
    return Ok(ServiceRule(entity, services));
  }

  /** The rule set of a document that the schema accepts. */
  method Load(root: Node) returns (r: Result<RuleSet, XmlError>)
    ensures r == if Matches(root) then Loaded(root) else Err(DoesNotMatch)
  {
    if !Matches(root) {
      return Err(DoesNotMatch);
    }
    hide Matches;
    var services, tunnels := [], [];
    var nodes := if root.name == "RuleSet" then Select(root.children, "ServiceRule") else [];
    assert nodes[..0] == [] && nodes[..|nodes|] == nodes;
    for i := 0 to |nodes|
      invariant Traverse(ServiceRuleRead, nodes[..i]) == Ok(services)
    {
      var rule := ParseServiceRule(nodes[i]);
      TraverseMore(ServiceRuleRead, nodes, i);
      if rule.Err? {
        TraverseFails(ServiceRuleRead, nodes, i + 1);
        return Err(rule.error);
      }
      services := services + [rule.value];
    }
    nodes := if root.name == "RuleSet" then Select(root.children, "TunnelRule") else [];
    assert nodes[..0] == [] && nodes[..|nodes|] == nodes;
    for i := 0 to |nodes|
      invariant Traverse(TunnelRuleRead, nodes[..i]) == Ok(tunnels)
    {
      var rule := ParseTunnelRule(nodes[i]);
      TraverseMore(TunnelRuleRead, nodes, i);
      if rule.Err? {
        TraverseFails(TunnelRuleRead, nodes, i + 1);
        return Err(rule.error);
      }
      tunnels := tunnels + [rule.value];
    }
    return Ok(RuleSet(services, tunnels));
  }
}
