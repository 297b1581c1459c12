// What a document that the schema accepts says: the rules that are loaded from it, attribute by
// attribute and in the order of the document.
module RuleMeaning {
  import opened Wrappers
  import opened XmlTree
  import opened RuleSchema
  import opened RuleXml
  import opened RuleDocuments

  function TextOf(n: Node, name: string): string {
    if name in n.attributes then n.attributes[name] else ""
  }

  lemma {:induction false} TraverseGives<T(!new), U>(f: T -> Result<U, XmlError>, s: seq<T>)
    requires Traverse(f, s).Ok?
    ensures |Traverse(f, s).value| == |s|
    ensures forall i :: 0 <= i < |s| ==> f(s[i]) == Ok(Traverse(f, s).value[i])
  {
    if s != [] {
      var last := |s| - 1;
      TraverseGives(f, s[..last]);
      assert forall i :: 0 <= i < last ==> s[..last][i] == s[i];
    }
  }

  // ---------------------------------------------------------------- rules and services

  predicate EntitySays(e: Entity, n: Node) {
    && e.uuid == TextOf(n, "Uuid") && e.name == TextOf(n, "Name")
    && (e.enabled <==> TextOf(n, "IsEnabled") == "true")
    && (e.treatment.Info? <==> TextOf(n, "ErrorsTreatment") == "information")
    && (e.treatment.Warn? <==> TextOf(n, "ErrorsTreatment") == "warning")
    && !e.silent
  }

  lemma ReadEntitySays(n: Node)
    requires EntityRead(n).Ok?
    ensures EntitySays(EntityRead(n).value, n)
  {
  }

  /** A service rule: its attributes, and its services in order. */
  lemma ServiceRuleSays(n: Node)
    requires ServiceRuleRead(n).Ok?
    ensures var r := ServiceRuleRead(n).value;
            && EntitySays(r.entity, n)
            && |r.services| == |n.children|
            && forall i :: 0 <= i < |n.children| ==>
                 var s := n.children[i];
                 r.services[i] == Service(TextOf(s, "Uuid"), TextOf(s, "Name"), s.content)
  {
    ReadEntitySays(n);
    TraverseGives(ServiceRead, n.children);
    hide EntitySays;
    forall i | 0 <= i < |n.children|
      ensures ServiceRuleRead(n).value.services[i] ==
              Service(TextOf(n.children[i], "Uuid"), TextOf(n.children[i], "Name"), n.children[i].content)
    {
      assert ServiceRead(n.children[i]) == Ok(ServiceRuleRead(n).value.services[i]);
    }
  }

  // ---------------------------------------------------------------- endpoints

  function ListenerOf(n: Node): Listener {
    Listener(TextOf(n, "Name"), n.content)
  }

  /** What the address of an endpoint says of it. */
  predicate AddressSays(side: Side, e: Endpoint, a: Node) {
    if a.name == "CombinedAddress" then
      && e.read == TextOf(a, "ResourceIdentifier") && e.write == ""
      && e.acceptor == if side.Input? && TextOf(a, "IsAcceptor") == "true" then Reader else NoAcceptor
    else
      && e.read == TextOf(a, "ReadResourceIdentifier") && e.write == TextOf(a, "WriteResourceIdentifier")
      && (e.acceptor.Reader? <==> side.Input? && TextOf(a, "Acceptor") == "reader")
      && (e.acceptor.Writer? <==> side.Input? && TextOf(a, "Acceptor") == "writer")
  }

  lemma ReadAddressSays(side: Side, e: Endpoint, a: Node)
    requires (a.name == "CombinedAddress" || a.name == "SplitAddress") && PartRead(side, e, a).Ok?
    ensures var after := PartRead(side, e, a).value;
            && AddressSays(side, after, a) && after.uuid == e.uuid && after.pre == e.pre && after.post == e.post
  {
  }

  lemma ModuleRead(side: Side, e: Endpoint, n: Node, name: string)
    requires IsModule(n, name) && (name == "PreListener" || name == "PostListener")
    ensures PartRead(side, e, n) ==
            Ok(if name == "PreListener" then e.(pre := e.pre + [ListenerOf(n)]) else e.(post := e.post + [ListenerOf(n)]))
  {
    assert "Name" in n.attributes.Keys;
  }

  predicate Modules(nodes: seq<Node>, pre: nat) {
    && pre <= |nodes|
    && (forall i :: 0 <= i < pre ==> IsModule(nodes[i], "PreListener"))
    && (forall i :: pre <= i < |nodes| ==> IsModule(nodes[i], "PostListener"))
  }

  lemma {:induction false} ModulesRead(side: Side, e: Endpoint, nodes: seq<Node>, pre: nat)
    requires Modules(nodes, pre) && e.pre == [] && e.post == []
    ensures PartsRead(side, e, nodes) ==
            Ok(e.(pre := Map(ListenerOf, nodes[..pre]), post := Map(ListenerOf, nodes[pre..])))
    decreases |nodes|
  {
    hide PartRead, IsModule;
    if nodes != [] {
      var last := |nodes| - 1;
      if pre == |nodes| {
        ModulesRead(side, e, nodes[..last], last);
        ModuleRead(side, PartsRead(side, e, nodes[..last]).value, nodes[last], "PreListener");
        assert nodes[..last][..last] == nodes[..last] && nodes[..last][last..] == [];
        assert nodes[..pre] == nodes[..last] + [nodes[last]] && nodes[pre..] == [];
        assert Map(ListenerOf, nodes[..pre]) == Map(ListenerOf, nodes[..last]) + [ListenerOf(nodes[last])];
        assert Map(ListenerOf, []) == [];
      } else {
        ModulesRead(side, e, nodes[..last], pre);
        ModuleRead(side, PartsRead(side, e, nodes[..last]).value, nodes[last], "PostListener");
        assert nodes[..last][..pre] == nodes[..pre];
        assert nodes[pre..] == nodes[..last][pre..] + [nodes[last]];
        assert Map(ListenerOf, nodes[pre..]) == Map(ListenerOf, nodes[..last][pre..]) + [ListenerOf(nodes[last])];
      }
    }
  }

  lemma EndpointParts(side: Side, n: Node, pre: nat)
    requires IsEndpoint(side, n) && 0 <= pre < |n.children| && IsEndpointWith(side, n, pre) && EndpointRead(side, n).Ok?
    ensures var e, last := EndpointRead(side, n).value, |n.children| - 1;
            && e.uuid == TextOf(n, "Uuid")
            && e.pre == Map(ListenerOf, n.children[..last][..pre]) && e.post == Map(ListenerOf, n.children[..last][pre..])
            && AddressSays(side, e, n.children[last])
  {
    var last := |n.children| - 1;
    var start := Endpoint(n.attributes["Uuid"], "", "", NoAcceptor, [], []);
    assert n.children[last].name == "CombinedAddress" || n.children[last].name == "SplitAddress";
    hide IsUuid, IsResourceIdentifier, PartRead, AddressSays, ListenerOf, IsModule, IsCombinedAddress, IsSplitAddress;
    ModulesRead(side, start, n.children[..last], pre);
    var listened := PartsRead(side, start, n.children[..last]).value;
    assert n.children[..last] + [n.children[last]] == n.children;
    ReadAddressSays(side, listened, n.children[last]);
  }

  /** An endpoint: its uuid, its listeners in order, and its address. */
  lemma EndpointSays(side: Side, n: Node)
    requires IsEndpoint(side, n) && EndpointRead(side, n).Ok?
    ensures var e := EndpointRead(side, n).value;
            && e.uuid == TextOf(n, "Uuid")
            && |n.children| == |e.pre| + |e.post| + 1
            && (forall i :: 0 <= i < |e.pre| ==>
                  n.children[i].name == "PreListener" && e.pre[i] == ListenerOf(n.children[i]))
            && (forall i :: 0 <= i < |e.post| ==>
                  && n.children[|e.pre| + i].name == "PostListener"
                  && e.post[i] == ListenerOf(n.children[|e.pre| + i]))
            && AddressSays(side, e, n.children[|n.children| - 1])
  {
    hide IsUuid, IsResourceIdentifier, EndpointRead, AddressSays, ListenerOf;
    var pre :| 0 <= pre < |n.children| && IsEndpointWith(side, n, pre);
    EndpointParts(side, n, pre);
    ListenersNamed(side, n, pre);
    hide IsEndpoint, IsEndpointWith;
  }

  lemma ListenersNamed(side: Side, n: Node, pre: nat)
    requires pre < |n.children| && IsEndpointWith(side, n, pre)
    ensures var nodes := n.children[..|n.children| - 1];
            && (forall i :: 0 <= i < pre ==> nodes[..pre][i] == n.children[i] && n.children[i].name == "PreListener")
            && (forall i :: 0 <= i < |nodes| - pre ==>
                  nodes[pre..][i] == n.children[pre + i] && n.children[pre + i].name == "PostListener")
  {
    hide IsCombinedAddress, IsSplitAddress;
    forall i | pre <= i < |n.children| - 1
      ensures n.children[i].name == "PostListener"
    {
      assert IsModule(n.children[i], "PostListener");
    }
  }

  // ---------------------------------------------------------------- tunnel rules

  /** A tunnel rule: its attributes, its filters, and the endpoints of its two sets in order. */
  lemma TunnelRuleSays(n: Node)
    requires IsTunnelRule(n) && TunnelRuleRead(n).Ok?
    ensures var r := TunnelRuleRead(n).value;
            && EntitySays(r.entity, n) && r.connectionsLimit == 0
            && |r.filters| == |n.children[0].children|
            && (forall i :: 0 <= i < |r.filters| ==> r.filters[i] == TextOf(n.children[0].children[i], "Name"))
            && |r.inputs| == |n.children[1].children|
            && (forall i :: 0 <= i < |r.inputs| ==> Ok(r.inputs[i]) == EndpointRead(Input, n.children[1].children[i]))
            && |r.destinations| == |n.children[2].children|
            && (forall i :: 0 <= i < |r.destinations| ==>
                  Ok(r.destinations[i]) == EndpointRead(Destination, n.children[2].children[i]))
  {
    hide IsRule, IsFilterSet, IsEndpointSet, EndpointRead, EntitySays, EntityRead;
    ReadEntitySays(n);
    TraverseGives(FilterRead, n.children[0].children);
    TraverseGives(InputRead, n.children[1].children);
    TraverseGives(DestinationRead, n.children[2].children);
    var r := TunnelRuleRead(n).value;
    forall i | 0 <= i < |r.filters|
      ensures r.filters[i] == TextOf(n.children[0].children[i], "Name")
    {
      assert FilterRead(n.children[0].children[i]) == Ok(r.filters[i]);
    }
    forall i | 0 <= i < |r.inputs|
      ensures Ok(r.inputs[i]) == EndpointRead(Input, n.children[1].children[i])
    {
      assert InputRead(n.children[1].children[i]) == Ok(r.inputs[i]);
    }
    forall i | 0 <= i < |r.destinations|
      ensures Ok(r.destinations[i]) == EndpointRead(Destination, n.children[2].children[i])
    {
      assert DestinationRead(n.children[2].children[i]) == Ok(r.destinations[i]);
    }
  }

  // ---------------------------------------------------------------- the document

  lemma SelectedRules(root: Node, services: nat)
    requires IsRuleSetWith(root, services)
    ensures Select(root.children, "ServiceRule") == root.children[..services]
    ensures Select(root.children, "TunnelRule") == root.children[services..]
  {
    hide IsServiceRule, IsTunnelRule;
    var a, b := root.children[..services], root.children[services..];
    assert a + b == root.children;
    forall n | n in a
      ensures n.name == "ServiceRule"
    {
      NamedRules(n);
    }
    forall n | n in b
      ensures n.name == "TunnelRule"
    {
      NamedRules(n);
    }
    SelectConcat(a, b, "ServiceRule");
    SelectConcat(a, b, "TunnelRule");
    SelectAllOrNone(a, "ServiceRule");
    SelectAllOrNone(a, "TunnelRule");
    SelectAllOrNone(b, "ServiceRule");
    SelectAllOrNone(b, "TunnelRule");
  }

  lemma NamedRules(n: Node)
    ensures IsServiceRule(n) ==> n.name == "ServiceRule"
    ensures IsTunnelRule(n) ==> n.name == "TunnelRule"
  {
  }

  /** A document: one rule for every child of the root, in order, the service rules first. */
  lemma DocumentSays(root: Node)
    requires Matches(root) && Loaded(root).Ok?
    ensures var rules := Loaded(root).value;
            && |rules.services| + |rules.tunnels| == |root.children|
            && (forall i :: 0 <= i < |rules.services| ==>
                  IsServiceRule(root.children[i]) && Ok(rules.services[i]) == ServiceRuleRead(root.children[i]))
            && (forall i :: 0 <= i < |rules.tunnels| ==>
                  && IsTunnelRule(root.children[|rules.services| + i])
                  && Ok(rules.tunnels[i]) == TunnelRuleRead(root.children[|rules.services| + i]))
  {
    hide IsServiceRule, IsTunnelRule, Loaded;
    var services :| 0 <= services <= |root.children| && IsRuleSetWith(root, services);
    LoadedParts(root, services);
    var rules := Loaded(root).value;
    forall i | 0 <= i < |rules.services|
      ensures Ok(rules.services[i]) == ServiceRuleRead(root.children[i])
    {
      assert root.children[..services][i] == root.children[i];
    }
    forall i | 0 <= i < |rules.tunnels|
      ensures Ok(rules.tunnels[i]) == TunnelRuleRead(root.children[services + i])
    {
      assert root.children[services..][i] == root.children[services + i];
    }
  }

  lemma LoadedParts(root: Node, services: nat)
    requires root.name == "RuleSet" && IsRuleSetWith(root, services) && Loaded(root).Ok?
    ensures var rules, a, b := Loaded(root).value, root.children[..services], root.children[services..];
            && |rules.services| == |a| && |rules.tunnels| == |b|
            && (forall i :: 0 <= i < |a| ==> Ok(rules.services[i]) == ServiceRuleRead(a[i]))
            && (forall i :: 0 <= i < |b| ==> Ok(rules.tunnels[i]) == TunnelRuleRead(b[i]))
  {
    hide IsServiceRule, IsTunnelRule, ServiceRuleRead, TunnelRuleRead;
    SelectedRules(root, services);
    hide IsRuleSetWith, Select;
    TraverseGives(ServiceRuleRead, root.children[..services]);
    TraverseGives(TunnelRuleRead, root.children[services..]);
  }
}
