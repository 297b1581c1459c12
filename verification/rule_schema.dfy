// The schema of a rule set document, RuleSet.xsd: elements with their attributes and their order.
module RuleSchema {
  import opened XmlTree

  datatype Side = Input | Destination

  predicate IsLetterOrDigit(c: char) {
    'a' <= c <= 'z' || 'A' <= c <= 'Z' || '0' <= c <= '9'
  }

  /** 8-4-4-4-12 letters and digits. */
  predicate IsUuid(s: string) {
    |s| == 36 && forall i :: 0 <= i < 36 ==>
      if i == 8 || i == 13 || i == 18 || i == 23 then s[i] == '-' else IsLetterOrDigit(s[i])
  }

  /** A scheme without ':' and '/', "://", one character other than '/', and the rest of a line. */
  predicate IsResourceIdentifier(s: string) {
    exists p :: 0 <= p < |s| && IsScheme(s, p)
  }

  predicate IsScheme(s: string, p: int) {
    && 0 < p && p + 3 < |s| && s[p..p + 3] == "://" && s[p + 3] != '/'
    && (forall i :: 0 <= i < p ==> s[i] != ':' && s[i] != '/')
    && (forall i :: p + 4 <= i < |s| ==> s[i] != '\n' && s[i] != '\r')
  }

  predicate IsBoolean(s: string) {
    s == "true" || s == "false"
  }

  predicate IsBlank(content: string) {
    forall c :: c in content ==> c == ' ' || c == '\t' || c == '\n' || c == '\r'
  }

  predicate IsModule(n: Node, name: string) {
    n.name == name && n.attributes.Keys == {"Name"} && n.children == []
  }

  predicate IsService(n: Node) {
    n.name == "Service" && n.attributes.Keys == {"Name", "Uuid"} && IsUuid(n.attributes["Uuid"]) && n.children == []
  }

  /** Addresses have no content at all; other elements with attributes and children may have blanks between them. */
  predicate IsCombinedAddress(side: Side, n: Node) {
    && n.name == "CombinedAddress" && n.children == [] && n.content == ""
    && "ResourceIdentifier" in n.attributes && IsResourceIdentifier(n.attributes["ResourceIdentifier"])
    && n.attributes.Keys <= {"ResourceIdentifier"} + (if side.Input? then {"IsAcceptor"} else {})
    && ("IsAcceptor" in n.attributes ==> IsBoolean(n.attributes["IsAcceptor"]))
  }

  predicate IsSplitAddress(side: Side, n: Node) {
    && n.name == "SplitAddress" && n.children == [] && n.content == ""
    && n.attributes.Keys == {"ReadResourceIdentifier", "WriteResourceIdentifier"}
                            + (if side.Input? then {"Acceptor"} else {})
    && IsResourceIdentifier(n.attributes["ReadResourceIdentifier"])
    && IsResourceIdentifier(n.attributes["WriteResourceIdentifier"])
    && ("Acceptor" in n.attributes ==> n.attributes["Acceptor"] in ["reader", "writer", "none"])
  }

  /** `pre` listeners come first, then the others, then one address. */
  predicate IsEndpointWith(side: Side, n: Node, pre: int) {
    var last := |n.children| - 1;
    && 0 <= pre <= last
    && (forall i :: 0 <= i < pre ==> IsModule(n.children[i], "PreListener"))
    && (forall i :: pre <= i < last ==> IsModule(n.children[i], "PostListener"))
    && (IsCombinedAddress(side, n.children[last]) || IsSplitAddress(side, n.children[last]))
  }

  predicate IsEndpoint(side: Side, n: Node) {
    && n.name == "Endpoint" && n.attributes.Keys == {"Uuid"} && IsUuid(n.attributes["Uuid"]) && IsBlank(n.content)
    && exists pre :: 0 <= pre < |n.children| && IsEndpointWith(side, n, pre)
  }

  predicate IsEndpointSet(side: Side, n: Node) {
    && n.name == (if side.Input? then "InputSet" else "DestinationSet")
    && n.attributes == map[] && IsBlank(n.content)
    && n.children != [] && forall e :: e in n.children ==> IsEndpoint(side, e)
  }

  predicate IsFilterSet(n: Node) {
    && n.name == "FilterSet" && n.attributes == map[] && IsBlank(n.content)
    && forall f :: f in n.children ==> IsModule(f, "Filter")
  }

  predicate IsRule(n: Node) {
    && n.attributes.Keys == {"Name", "ErrorsTreatment", "Uuid", "IsEnabled"} && IsBlank(n.content)
    && n.attributes["ErrorsTreatment"] in ["information", "warning", "error"]
    && IsUuid(n.attributes["Uuid"]) && IsBoolean(n.attributes["IsEnabled"])
  }

  predicate IsServiceRule(n: Node) {
    n.name == "ServiceRule" && IsRule(n) && n.children != [] && forall s :: s in n.children ==> IsService(s)
  }

  predicate IsTunnelRule(n: Node) {
    && n.name == "TunnelRule" && IsRule(n) && |n.children| == 3
    && IsFilterSet(n.children[0]) && IsEndpointSet(Input, n.children[1]) && IsEndpointSet(Destination, n.children[2])
  }

  /** `services` service rules come first, then the tunnel rules. */
  predicate IsRuleSetWith(root: Node, services: int) {
    && 0 <= services <= |root.children|
    && (forall i :: 0 <= i < services ==> IsServiceRule(root.children[i]))
    && (forall i :: services <= i < |root.children| ==> IsTunnelRule(root.children[i]))
  }

  predicate Matches(root: Node) {
    && root.name == "RuleSet" && root.attributes == map["Version" := "2.1"] && IsBlank(root.content)
    && exists services :: 0 <= services <= |root.children| && IsRuleSetWith(root, services)
  }
}
