/** What the parser collects from a document, in terms of its elements instead of its tokens. */
module ProtectedDocuments {
  import opened Common
  import opened ProtectedXml

  /** Siblings, in document order. */
  datatype Forest =
    | Empty
    | Text(rest: Forest)
    | Element(name: string, path: Option<string>, children: Forest, rest: Forest)

  function Tokens(f: Forest): seq<Token> {
    match f
    case Empty => []
    case Text(rest) => [Other] + Tokens(rest)
    case Element(name, path, children, rest) => [StartElement(name, path)] + Tokens(children) + [EndElement] + Tokens(rest)
  }

  predicate Leaf(f: Forest) {
    f.Empty? || (f.Text? && Leaf(f.rest))
  }

  /** The collected paths, and whether reading went on to the end of the forest. */
  datatype Found = Found(paths: seq<string>, ok: bool)

  function Then(a: Found, b: Found): Found {
    if a.ok then Found(a.paths + b.paths, b.ok) else a
  }

  /** Elements below ppro_root: every ppro_node counts, unless it is reached while reading another one. */
  function Scan(f: Forest): Found {
    match f
    case Empty => Found([], true)
    case Text(rest) => Scan(rest)
    case Element(name, path, children, rest) =>
      if name == "ppro_node" then Then(Found(Attribute(path), true), Then(InNode(children), Scan(rest)))
      else Then(Scan(children), Scan(rest))
  }

  /** The content of a ppro_node: text and type elements are skipped, the first other element is entered
      in the same way, and everything after its first end tag is scanned as usual. An element inside a
      type element ends the reading. */
  function InNode(f: Forest): Found {
    match f
    case Empty => Found([], true)
    case Text(rest) => InNode(rest)
    case Element(name, _, children, rest) =>
      if name != "type" then Then(InNode(children), Scan(rest))
      else if Leaf(children) then InNode(rest)
      else Found([], false)
  }

  predicate HasRoot(f: Forest) {
    match f
    case Empty => false
    case Text(rest) => HasRoot(rest)
    case Element(name, _, children, rest) => name == "ppro_root" || HasRoot(children) || HasRoot(rest)
  }

  /** From the first ppro_root on, everything is scanned, inside and after it. */
  function FromRoot(f: Forest): Found
    requires HasRoot(f)
  {
    match f
    case Text(rest) => FromRoot(rest)
    case Element(name, _, children, rest) =>
      if name == "ppro_root" then Then(Scan(children), Scan(rest))
      else if HasRoot(children) then Then(FromRoot(children), Scan(rest))
      else FromRoot(rest)
  }

  // ---------------------------------------------------------------- the loops on the tokens of a forest

  lemma {:induction false} LeafText(f: Forest, more: seq<Token>)
    ensures AtEndTag(Tokens(f) + [EndElement] + more) == if Leaf(f) then [EndElement] + more else []
  {
    match f
    case Empty => assert Tokens(f) + [EndElement] + more == [EndElement] + more;
    case Text(rest) =>
      LeafText(rest, more);
      assert (Tokens(f) + [EndElement] + more)[1..] == Tokens(rest) + [EndElement] + more;
    case Element(_, _, _, _) =>
  }

  lemma Assoc(a: seq<string>, b: seq<string>, c: seq<string>)
    ensures a + (b + c) == a + b + c
  {
  }

  lemma ElementTokens(f: Forest, more: seq<Token>)
    requires f.Element?
    ensures Tokens(f) + more == [StartElement(f.name, f.path)] + (Tokens(f.children) + ([EndElement] + (Tokens(f.rest) + more)))
  {
  }

  lemma {:induction false} MiddleScans(f: Forest, more: seq<Token>, list: seq<string>)
    ensures Middle(Tokens(f) + more, list) == if Scan(f).ok then Middle(more, list + Scan(f).paths) else list + Scan(f).paths
    decreases f, 1
  {
    match f
    case Empty =>
      assert Tokens(f) + more == more && list + [] == list;
    case Text(rest) =>
      MiddleScans(rest, more, list);
      assert (Tokens(f) + more)[1..] == Tokens(rest) + more;
    case Element(name, _, _, _) =>
      if name == "ppro_node" {
        MiddleScansNode(f, more, list);
      } else {
        MiddleScansOther(f, more, list);
      }
  }

  lemma MiddleScansNode(f: Forest, more: seq<Token>, list: seq<string>)
    requires f.Element? && f.name == "ppro_node"
    ensures Middle(Tokens(f) + more, list) == if Scan(f).ok then Middle(more, list + Scan(f).paths) else list + Scan(f).paths
    decreases f, 0
  {
    var here, found := list + Attribute(f.path), InNode(f.children).paths;
    ElementTokens(f, more);
    InnerScans(f.children, Tokens(f.rest) + more, here);
    MiddleScans(f.rest, more, here + found);
    Assoc(list, Attribute(f.path), found);
    Assoc(here, found, Scan(f.rest).paths);
    Assoc(list, Attribute(f.path), found + Scan(f.rest).paths);
  }

  lemma MiddleScansOther(f: Forest, more: seq<Token>, list: seq<string>)
    requires f.Element? && f.name != "ppro_node"
    ensures Middle(Tokens(f) + more, list) == if Scan(f).ok then Middle(more, list + Scan(f).paths) else list + Scan(f).paths
    decreases f, 0
  {
    var after := [EndElement] + (Tokens(f.rest) + more);
    ElementTokens(f, more);
    MiddleScans(f.children, after, list);
    assert after[1..] == Tokens(f.rest) + more;
    MiddleScans(f.rest, more, list + Scan(f.children).paths);
    Assoc(list, Scan(f.children).paths, Scan(f.rest).paths);
  }

  lemma {:induction false} InnerScans(f: Forest, more: seq<Token>, list: seq<string>)
    ensures Inner(Tokens(f) + ([EndElement] + more), list) ==
            if InNode(f).ok then Middle(more, list + InNode(f).paths) else list + InNode(f).paths
    decreases f, 1
  {
    var ts := Tokens(f) + ([EndElement] + more);
    match f
    case Empty =>
      assert ts == [EndElement] + more && ts[1..] == more && list + [] == list;
    case Text(rest) =>
      InnerScans(rest, more, list);
      assert ts[1..] == Tokens(rest) + ([EndElement] + more);
    case Element(name, _, _, _) =>
      if name == "type" {
        InnerScansType(f, more, list);
      } else {
        InnerScansOther(f, more, list);
      }
  }

  lemma InnerScansType(f: Forest, more: seq<Token>, list: seq<string>)
    requires f.Element? && f.name == "type"
    ensures Inner(Tokens(f) + ([EndElement] + more), list) ==
            if InNode(f).ok then Middle(more, list + InNode(f).paths) else list + InNode(f).paths
    decreases f, 0
  {
    var after := Tokens(f.rest) + ([EndElement] + more);
    ElementTokens(f, [EndElement] + more);
    LeafText(f.children, after);
    assert Tokens(f.children) + [EndElement] + after == Tokens(f.children) + ([EndElement] + after);
    assert ([EndElement] + after)[1..] == after && list + [] == list;
    InnerScans(f.rest, more, list);
  }

  lemma InnerScansOther(f: Forest, more: seq<Token>, list: seq<string>)
    requires f.Element? && f.name != "type"
    ensures Inner(Tokens(f) + ([EndElement] + more), list) ==
            if InNode(f).ok then Middle(more, list + InNode(f).paths) else list + InNode(f).paths
    decreases f, 0
  {
    var after := Tokens(f.rest) + ([EndElement] + more);
    var found := InNode(f.children).paths;
    ElementTokens(f, [EndElement] + more);
    InnerScans(f.children, after, list);
    MiddleScans(f.rest, [EndElement] + more, list + found);
    assert ([EndElement] + more)[1..] == more;
    Assoc(list, found, Scan(f.rest).paths);
  }

  lemma {:induction false} OuterScans(f: Forest, more: seq<Token>)
    ensures Outer(Tokens(f) + more, []) ==
            if !HasRoot(f) then Outer(more, []) else if FromRoot(f).ok then Middle(more, FromRoot(f).paths) else FromRoot(f).paths
    decreases f, 1
  {
    match f
    case Empty => assert Tokens(f) + more == more;
    case Text(rest) =>
      OuterScans(rest, more);
      assert (Tokens(f) + more)[1..] == Tokens(rest) + more;
    case Element(name, _, _, _) =>
      ElementTokens(f, more);
      if name == "ppro_root" {
        OuterScansRoot(f, more);
      } else {
        OuterScansOther(f, more);
      }
  }

  lemma OuterScansRoot(f: Forest, more: seq<Token>)
    requires f.Element? && f.name == "ppro_root"
    ensures Outer(Tokens(f) + more, []) == if FromRoot(f).ok then Middle(more, FromRoot(f).paths) else FromRoot(f).paths
  {
    var after := [EndElement] + (Tokens(f.rest) + more);
    ElementTokens(f, more);
    MiddleScans(f.children, after, []);
    assert [] + Scan(f.children).paths == Scan(f.children).paths;
    assert after[1..] == Tokens(f.rest) + more;
    MiddleScans(f.rest, more, Scan(f.children).paths);
  }

  lemma OuterScansOther(f: Forest, more: seq<Token>)
    requires f.Element? && f.name != "ppro_root"
    ensures Outer(Tokens(f) + more, []) ==
            if !HasRoot(f) then Outer(more, []) else if FromRoot(f).ok then Middle(more, FromRoot(f).paths) else FromRoot(f).paths
    decreases f, 0
  {
    var after := [EndElement] + (Tokens(f.rest) + more);
    ElementTokens(f, more);
    OuterScans(f.children, after);
    assert after[1..] == Tokens(f.rest) + more;
    if HasRoot(f.children) {
      MiddleScans(f.rest, more, FromRoot(f.children).paths);
    } else {
      OuterScans(f.rest, more);
    }
  }

  /** The list read from any document. */
  lemma DocumentIsScanned(f: Forest)
    ensures Outer(Tokens(f), []) == if HasRoot(f) then FromRoot(f).paths else []
  {
    OuterScans(f, []);
    assert Tokens(f) + [] == Tokens(f);
  }

  // ---------------------------------------------------------------- which paths are found

  /** The paths of all ppro_node elements, in document order. */
  function NodePaths(f: Forest): seq<string> {
    match f
    case Empty => []
    case Text(rest) => NodePaths(rest)
    case Element(name, path, children, rest) =>
      (if name == "ppro_node" then Attribute(path) else []) + NodePaths(children) + NodePaths(rest)
  }

  /** No type element has an element inside where its text is read, so reading goes on to the end. */
  predicate Readable(f: Forest) {
    match f
    case Empty => true
    case Text(rest) => Readable(rest)
    case Element(name, _, children, rest) =>
      (if name == "ppro_node" then ReadableNode(children) else Readable(children)) && Readable(rest)
  }

  /** The same of the content of a ppro_node, whose type elements are read up to its first end tag. */
  predicate ReadableNode(f: Forest) {
    match f
    case Empty => true
    case Text(rest) => ReadableNode(rest)
    case Element(name, _, children, rest) =>
      if name == "type" then Leaf(children) && ReadableNode(rest) else ReadableNode(children) && Readable(rest)
  }

  lemma {:induction false} ReadableIsRead(f: Forest)
    ensures Scan(f).ok <==> Readable(f)
    ensures InNode(f).ok <==> ReadableNode(f)
  {
    match f
    case Empty =>
    case Text(rest) => ReadableIsRead(rest);
    case Element(_, _, children, rest) =>
      ReadableIsRead(children);
      ReadableIsRead(rest);
  }

  /** How many of the paths are missed: none but those after an unreadable element, and those inside a
      ppro_node on the way down to its first end tag. */
  function Missed(f: Forest): nat {
    match f
    case Empty => 0
    case Text(rest) => Missed(rest)
    case Element(name, path, children, rest) =>
      if name == "ppro_node" then MissedInNode(children) + (if ReadableNode(children) then Missed(rest) else |NodePaths(rest)|)
      else Missed(children) + (if Readable(children) then Missed(rest) else |NodePaths(rest)|)
  }

  function MissedInNode(f: Forest): nat {
    match f
    case Empty => 0
    case Text(rest) => MissedInNode(rest)
    case Element(name, path, children, rest) =>
      if name != "type" then
        (if name == "ppro_node" then |Attribute(path)| else 0) + MissedInNode(children) +
        (if ReadableNode(children) then Missed(rest) else |NodePaths(rest)|)
      else if Leaf(children) then MissedInNode(rest)
      else |NodePaths(children)| + |NodePaths(rest)|
  }

  lemma {:induction false} LeafHasNoPaths(f: Forest)
    requires Leaf(f)
    ensures NodePaths(f) == []
  {
    if f.Text? {
      LeafHasNoPaths(f.rest);
    }
  }

  lemma {:induction false} ScanCounts(f: Forest)
    ensures |Scan(f).paths| + Missed(f) == |NodePaths(f)|
    ensures |InNode(f).paths| + MissedInNode(f) == |NodePaths(f)|
  {
    match f
    case Empty =>
    case Text(rest) => ScanCounts(rest);
    case Element(name, path, children, rest) =>
      ScanCounts(children);
      ScanCounts(rest);
      ReadableIsRead(children);
      if Leaf(children) {
        LeafHasNoPaths(children);
      }
  }

  lemma {:induction false} NothingMissed(f: Forest)
    requires Missed(f) == 0
    ensures Scan(f).paths == NodePaths(f)
  {
    match f
    case Empty =>
    case Text(rest) => NothingMissed(rest);
    case Element(name, path, children, rest) =>
      ReadableIsRead(children);
      if name == "ppro_node" {
        NothingMissedInNode(children);
        if InNode(children).ok {
          NothingMissed(rest);
          Assoc(Attribute(path), NodePaths(children), NodePaths(rest));
        }
      } else {
        NothingMissed(children);
        if Scan(children).ok {
          NothingMissed(rest);
        }
      }
  }

  lemma {:induction false} NothingMissedInNode(f: Forest)
    requires MissedInNode(f) == 0
    ensures InNode(f).paths == NodePaths(f)
  {
    match f
    case Empty =>
    case Text(rest) => NothingMissedInNode(rest);
    case Element(name, path, children, rest) =>
      ReadableIsRead(children);
      if name != "type" {
        NothingMissedInNode(children);
        if InNode(children).ok {
          NothingMissed(rest);
        }
      } else if Leaf(children) {
        LeafHasNoPaths(children);
        NothingMissedInNode(rest);
      }
  }

  // ---------------------------------------------------------------- from the root on

  /** The paths of all ppro_node elements inside the first ppro_root and after it. */
  function PathsFromRoot(f: Forest): seq<string>
    requires HasRoot(f)
  {
    match f
    case Text(rest) => PathsFromRoot(rest)
    case Element(name, _, children, rest) =>
      if name == "ppro_root" then NodePaths(children) + NodePaths(rest)
      else if HasRoot(children) then PathsFromRoot(children) + NodePaths(rest)
      else PathsFromRoot(rest)
  }

  predicate ReadableFromRoot(f: Forest)
    requires HasRoot(f)
  {
    match f
    case Text(rest) => ReadableFromRoot(rest)
    case Element(name, _, children, rest) =>
      if name == "ppro_root" then Readable(children) && Readable(rest)
      else if HasRoot(children) then ReadableFromRoot(children) && Readable(rest)
      else ReadableFromRoot(rest)
  }

  /** How many of them are missed. */
  function MissedFromRoot(f: Forest): nat
    requires HasRoot(f)
  {
    match f
    case Text(rest) => MissedFromRoot(rest)
    case Element(name, _, children, rest) =>
      if name == "ppro_root" then Missed(children) + (if Readable(children) then Missed(rest) else |NodePaths(rest)|)
      else if HasRoot(children) then
        MissedFromRoot(children) + (if ReadableFromRoot(children) then Missed(rest) else |NodePaths(rest)|)
      else MissedFromRoot(rest)
  }

  lemma {:induction false} ReadableFromRootIsRead(f: Forest)
    requires HasRoot(f)
    ensures FromRoot(f).ok <==> ReadableFromRoot(f)
  {
    match f
    case Text(rest) => ReadableFromRootIsRead(rest);
    case Element(name, _, children, rest) =>
      ReadableIsRead(children);
      ReadableIsRead(rest);
      if name != "ppro_root" {
        if HasRoot(children) {
          ReadableFromRootIsRead(children);
        } else {
          ReadableFromRootIsRead(rest);
        }
      }
  }

  lemma {:induction false} FromRootCounts(f: Forest)
    requires HasRoot(f)
    ensures |FromRoot(f).paths| + MissedFromRoot(f) == |PathsFromRoot(f)|
  {
    match f
    case Text(rest) => FromRootCounts(rest);
    case Element(name, _, children, rest) =>
      ReadableIsRead(children);
      ScanCounts(children);
      ScanCounts(rest);
      if name != "ppro_root" {
        if HasRoot(children) {
          ReadableFromRootIsRead(children);
          FromRootCounts(children);
        } else {
          FromRootCounts(rest);
        }
      }
  }

  lemma {:induction false} NothingMissedFromRoot(f: Forest)
    requires HasRoot(f) && MissedFromRoot(f) == 0
    ensures FromRoot(f).paths == PathsFromRoot(f)
  {
    match f
    case Text(rest) => NothingMissedFromRoot(rest);
    case Element(name, _, children, rest) =>
      if name == "ppro_root" {
        ReadableIsRead(children);
        NothingMissed(children);
        if Readable(children) {
          NothingMissed(rest);
        }
      } else if HasRoot(children) {
        ReadableFromRootIsRead(children);
        NothingMissedFromRoot(children);
        if ReadableFromRoot(children) {
          NothingMissed(rest);
        }
      } else {
        NothingMissedFromRoot(rest);
      }
  }

  /** For every document with a ppro_root, the list read is short of exactly the paths that are missed,
      and it is the paths of all ppro_node elements from the root on, in document order, if and only if
      none is missed. */
  lemma ListIsComplete(f: Forest)
    requires HasRoot(f)
    ensures |Outer(Tokens(f), [])| + MissedFromRoot(f) == |PathsFromRoot(f)|
    ensures Outer(Tokens(f), []) == PathsFromRoot(f) <==> MissedFromRoot(f) == 0
  {
    DocumentIsScanned(f);
    FromRootCounts(f);
    if MissedFromRoot(f) == 0 {
      NothingMissedFromRoot(f);
    }
  }

  /** Every ppro_node has leaf elements and text only, and no other ppro_node. */
  predicate FlatNodes(f: Forest) {
    match f
    case Empty => true
    case Text(rest) => FlatNodes(rest)
    case Element(name, _, children, rest) => (if name == "ppro_node" then OnlyLeaves(children) else FlatNodes(children)) && FlatNodes(rest)
  }

  predicate OnlyLeaves(f: Forest) {
    match f
    case Empty => true
    case Text(rest) => OnlyLeaves(rest)
    case Element(name, _, children, rest) => name != "ppro_node" && Leaf(children) && OnlyLeaves(rest)
  }

  lemma {:induction false} LeavesInNode(f: Forest)
    requires OnlyLeaves(f)
    ensures MissedInNode(f) == 0 && ReadableNode(f) && Missed(f) == 0 && Readable(f)
  {
    match f
    case Empty =>
    case Text(rest) => LeavesInNode(rest);
    case Element(name, path, children, rest) =>
      LeavesInNode(rest);
      LeafMissesNothing(children);
  }

  lemma {:induction false} LeafMissesNothing(f: Forest)
    requires Leaf(f)
    ensures Readable(f) && ReadableNode(f) && Missed(f) == 0 && MissedInNode(f) == 0
  {
    if f.Text? {
      LeafMissesNothing(f.rest);
    }
  }

  lemma {:induction false} FlatMissesNothing(f: Forest)
    requires FlatNodes(f)
    ensures Missed(f) == 0 && Readable(f)
  {
    match f
    case Empty =>
    case Text(rest) => FlatMissesNothing(rest);
    case Element(name, path, children, rest) =>
      FlatMissesNothing(rest);
      if name == "ppro_node" {
        LeavesInNode(children);
      } else {
        FlatMissesNothing(children);
      }
  }

  /** The same from the first ppro_root on. */
  predicate FlatFromRoot(f: Forest)
    requires HasRoot(f)
  {
    match f
    case Text(rest) => FlatFromRoot(rest)
    case Element(name, _, children, rest) =>
      if name == "ppro_root" then FlatNodes(children) && FlatNodes(rest)
      else if HasRoot(children) then FlatFromRoot(children) && FlatNodes(rest)
      else FlatFromRoot(rest)
  }

  lemma {:induction false} FlatFromRootMissesNothing(f: Forest)
    requires HasRoot(f) && FlatFromRoot(f)
    ensures MissedFromRoot(f) == 0 && ReadableFromRoot(f)
  {
    match f
    case Text(rest) => FlatFromRootMissesNothing(rest);
    case Element(name, _, children, rest) =>
      if name == "ppro_root" {
        FlatMissesNothing(children);
        FlatMissesNothing(rest);
      } else if HasRoot(children) {
        FlatFromRootMissesNothing(children);
        FlatMissesNothing(rest);
      } else {
        FlatFromRootMissesNothing(rest);
      }
  }

  /** For a document whose ppro_node elements from the first ppro_root on are flat, wherever that root is and
      whatever comes before it, the list is the paths of those elements in document order, although their
      other children are never looked for. */
  lemma FlatDocument(f: Forest)
    requires HasRoot(f) && FlatFromRoot(f)
    ensures Outer(Tokens(f), []) == PathsFromRoot(f)
  {
    FlatFromRootMissesNothing(f);
    ListIsComplete(f);
  }

  /** A ppro_node that is the first element inside another one is missed; as the second it is found. */
  lemma NestedNodes(a: string, b: string)
    ensures var inner := Element("ppro_node", Some(b), Empty, Empty);
            var first := Element("ppro_root", None, Element("ppro_node", Some(a), inner, Empty), Empty);
            var second := Element("ppro_root", None, Element("ppro_node", Some(a), Element("hash", None, Empty, inner), Empty), Empty);
            && PathsFromRoot(first) == PathsFromRoot(second) == [a, b]
            && Outer(Tokens(first), []) == [a] && Outer(Tokens(second), []) == [a, b]
  {
    var inner := Element("ppro_node", Some(b), Empty, Empty);
    var hash := Element("hash", None, Empty, inner);
    assert InNode(inner) == Found([], true) && Scan(inner).paths == [b] && InNode(hash).paths == [b];
    assert NodePaths(inner) == [b] && NodePaths(hash) == [b];
    DocumentIsScanned(Element("ppro_root", None, Element("ppro_node", Some(a), inner, Empty), Empty));
    DocumentIsScanned(Element("ppro_root", None, Element("ppro_node", Some(a), hash, Empty), Empty));
  }
}
