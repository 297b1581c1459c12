// The part of an XML tree that the rule sets use, and lists of results.
module XmlTree {
  import opened Wrappers

  datatype Node = Node(name: string, attributes: map<string, string>, content: string, children: seq<Node>) {

    function With(attribute: string, value: string): Node {
      this.(attributes := attributes[attribute := value])
    }

    function WithChild(child: Node): Node {
      this.(children := children + [child])
    }
  }

  /** An attribute is missing, or an element where one is taken for granted, or the schema is not met. */
  datatype XmlError = NoAttribute(name: string) | NoElement | DoesNotMatch

  function New(name: string): Node {
    Node(name, map[], "", [])
  }

  function Attribute(node: Node, name: string): Result<string, XmlError> {
    if name in node.attributes then Ok(node.attributes[name]) else Err(NoAttribute(name))
  }

  function Child(node: Node, at: nat): Result<Node, XmlError> {
    if at < |node.children| then Ok(node.children[at]) else Err(NoElement)
  }

  /** The nodes with a name, in the order of the document. */
  function Select(nodes: seq<Node>, name: string): seq<Node> {
    if nodes == [] then []
    else if nodes[0].name == name then [nodes[0]] + Select(nodes[1..], name)
    else Select(nodes[1..], name)
  }

  // ---------------------------------------------------------------- lists

  function Map<T, U>(f: T -> U, s: seq<T>): (r: seq<U>)
    ensures |r| == |s| && forall i :: 0 <= i < |s| ==> r[i] == f(s[i])
  {
    seq(|s|, i requires 0 <= i < |s| => f(s[i]))
  }

  /** All results, or the error of the first that failed. */
  function Traverse<T, U>(f: T -> Result<U, XmlError>, s: seq<T>): Result<seq<U>, XmlError> {
    if s == [] then Ok([])
    else
      var last := |s| - 1;
      var before :- Traverse(f, s[..last]);
      var r :- f(s[last]);
      Ok(before + [r])
  }

  lemma MapMore<T, U>(f: T -> U, s: seq<T>, i: nat)
    requires i < |s|
    ensures Map(f, s[..i + 1]) == Map(f, s[..i]) + [f(s[i])]
  {
  }

  lemma MapAll<T, U>(f: T -> U, s: seq<T>)
    ensures Map(f, s[..|s|]) == Map(f, s) && s[..0] == []
  {
    assert s[..|s|] == s;
  }

  lemma TraverseMore<T, U>(f: T -> Result<U, XmlError>, s: seq<T>, i: nat)
    requires i < |s|
    ensures Traverse(f, s[..i]).Ok? && f(s[i]).Ok? ==>
              Traverse(f, s[..i + 1]) == Ok(Traverse(f, s[..i]).value + [f(s[i]).value])
    ensures Traverse(f, s[..i]).Ok? && f(s[i]).Err? ==> Traverse(f, s[..i + 1]) == Err(f(s[i]).error)
  {
    assert s[..i + 1][..i] == s[..i];
  }

  lemma {:induction false} TraverseFails<T, U>(f: T -> Result<U, XmlError>, s: seq<T>, i: nat)
    requires i <= |s| && Traverse(f, s[..i]).Err?
    ensures Traverse(f, s) == Err(Traverse(f, s[..i]).error)
  {
    if i == |s| {
      assert s[..i] == s;
    } else {
      assert s[..|s| - 1][..i] == s[..i];
      TraverseFails(f, s[..|s| - 1], i);
    }
  }

  /** Reading back everything that was written gives everything back. */
  lemma {:induction false} TraverseMap<S, T, U>(write: S -> T, read: T -> Result<U, XmlError>, keep: S -> U, s: seq<S>)
    requires forall x :: x in s ==> read(write(x)) == Ok(keep(x))
    ensures Traverse(read, Map(write, s)) == Ok(Map(keep, s))
  {
    if s != [] {
      var last := |s| - 1;
      TraverseMap(write, read, keep, s[..last]);
      assert Map(write, s)[..last] == Map(write, s[..last]);
      assert Map(keep, s) == Map(keep, s[..last]) + [keep(s[last])];
    }
  }

  lemma {:induction false} SelectConcat(a: seq<Node>, b: seq<Node>, name: string)
    ensures Select(a + b, name) == Select(a, name) + Select(b, name)
  {
    if a == [] {
      assert a + b == b;
    } else {
      assert (a + b)[1..] == a[1..] + b;
      SelectConcat(a[1..], b, name);
    }
  }

  lemma {:induction false} SelectAllOrNone(nodes: seq<Node>, name: string)
    ensures (forall n :: n in nodes ==> n.name == name) ==> Select(nodes, name) == nodes
    ensures (forall n :: n in nodes ==> n.name != name) ==> Select(nodes, name) == []
  {
    if nodes != [] {
      SelectAllOrNone(nodes[1..], name);
      assert nodes == [nodes[0]] + nodes[1..];
    }
  }
}
