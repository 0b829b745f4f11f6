/** The list of protected processes, read from an XML document by three nested loops that share one
    cursor over its tokens. */
module ProtectedXml {
  import opened Common

  /** Characters and everything else that is neither start nor end of an element are one kind of token. */
  datatype Token = StartElement(name: string, path: Option<string>) | EndElement | Other

  // ---------------------------------------------------------------- the cursor

  class XmlReader {
    const tokens: seq<Token>
    var position: nat
    var failed: bool

    constructor (tokens: seq<Token>)
      ensures this.tokens == tokens && Valid() && Remaining() == tokens
    {
      this.tokens, position, failed := tokens, 0, false;
      new;
      assert tokens[0..] == tokens;
    }

    ghost predicate Valid()
      reads this
    {
      position <= |tokens|
    }

    /** The current token and those after it; nothing after an error. */
    ghost function Remaining(): seq<Token>
      requires Valid()
      reads this
    {
      if failed then [] else tokens[position..]
    }

    predicate AtEnd()
      requires Valid()
      reads this
      ensures AtEnd() <==> Remaining() == []
    {
      failed || position == |tokens|
    }

    function Current(): Token
      requires Valid() && !AtEnd()
      reads this
      ensures Current() == Remaining()[0]
    {
      tokens[position]
    }

    method ReadNext()
      requires Valid()
      modifies this
      ensures Valid() && Remaining() == if old(Remaining()) == [] then [] else old(Remaining())[1..]
    {
      if !AtEnd() {
        position := position + 1;
      }
    }

    /** Goes from a start tag to its end tag; an element in between, or the end of input, is an error. */
    method ReadElementText()
      requires Valid() && !AtEnd() && Current().StartElement?
      modifies this
      ensures Valid() && Remaining() == AtEndTag(old(Remaining())[1..])
    {
      ReadNext();
      while !AtEnd() && !Current().EndElement?
        invariant Valid() && AtEndTag(Remaining()) == AtEndTag(old(Remaining())[1..])
        decreases |Remaining()|
      {
        if Current().StartElement? {
          failed := true;
          return;
        }
        ReadNext();
      }
    }
  }

  /** The tokens from the end tag of an element on that has no elements inside. */
  function AtEndTag(ts: seq<Token>): (rest: seq<Token>)
    ensures |rest| <= |ts| && (rest != [] ==> rest[0].EndElement?)
  {
    if ts == [] || ts[0].StartElement? then []
    else if ts[0].EndElement? then ts
    else AtEndTag(ts[1..])
  }

  // ---------------------------------------------------------------- what each loop makes of the tokens from the current one on

  function Attribute(path: Option<string>): seq<string> {
    if path.Some? then [path.value] else []
  }

  function Outer(ts: seq<Token>, list: seq<string>): seq<string> {
    if ts == [] then list
    else if ts[0].StartElement? && ts[0].name == "ppro_root" then Middle(ts[1..], list)
    else Outer(ts[1..], list)
  }

  function Middle(ts: seq<Token>, list: seq<string>): seq<string>
    decreases |ts|
  {
    if ts == [] then list
    else if ts[0].StartElement? && ts[0].name == "ppro_node" then Inner(ts[1..], list + Attribute(ts[0].path))
    else Middle(ts[1..], list)
  }

  function Inner(ts: seq<Token>, list: seq<string>): seq<string>
    decreases |ts|
  {
    if ts == [] then list
    else if ts[0].EndElement? then Middle(ts[1..], list)
    else if ts[0].StartElement? && ts[0].name == "type" then
      var rest := AtEndTag(ts[1..]);
      if rest == [] then list else Inner(rest[1..], list)
    else Inner(ts[1..], list)
  }

  /** The innermost loop: what follows the start tag of a ppro_node, up to and with the first end tag. */
  method ReadNode(reader: XmlReader, ghost list: seq<string>)
    requires reader.Valid()
    modifies reader
    ensures reader.Valid() && Middle(reader.Remaining(), list) == Inner(old(reader.Remaining()), list)
    ensures |reader.Remaining()| <= |old(reader.Remaining())|
  {
    while !reader.AtEnd()
      invariant reader.Valid() && Inner(reader.Remaining(), list) == Inner(old(reader.Remaining()), list)
      invariant |reader.Remaining()| <= |old(reader.Remaining())|
      decreases |reader.Remaining()|
    {
      if reader.Current().EndElement? {
        reader.ReadNext();
        break;
      }
      if reader.Current().StartElement? {
        if reader.Current().name == "type" {
          reader.ReadElementText();
        }
      }
      reader.ReadNext();
    }
  }

  /** The loop in the middle: what follows the start tag of ppro_root, up to the end of input. */
  method ReadRoot(reader: XmlReader, before: seq<string>) returns (listPath: seq<string>)
    requires reader.Valid()
    modifies reader
    ensures reader.Valid() && reader.Remaining() == [] && listPath == Middle(old(reader.Remaining()), before)
  {
    listPath := before;
    while !reader.AtEnd()
      invariant reader.Valid() && Middle(reader.Remaining(), listPath) == Middle(old(reader.Remaining()), before)
      decreases |reader.Remaining()|
    {
      if reader.Current().EndElement? {
        reader.ReadNext();
        continue;
      }
      if reader.Current().StartElement? {
        if reader.Current().name == "ppro_node" {
          var path := reader.Current().path;
          assert listPath + [] == listPath;
          if path.Some? {
            listPath := listPath + [path.value];
          }
          reader.ReadNext();
          ReadNode(reader, listPath);
          continue;
        }
      }
      reader.ReadNext();
    }
  }

  method ParseProtectedXml(tokens: seq<Token>) returns (listPath: seq<string>)
    ensures listPath == Outer(tokens, [])
  {
    listPath := [];
    var reader := new XmlReader(tokens);
    while !reader.AtEnd()
      invariant reader.Valid() && Outer(reader.Remaining(), listPath) == Outer(tokens, [])
      decreases |reader.Remaining()|
    {
      if reader.Current().StartElement? {
        if reader.Current().name == "ppro_root" {
          reader.ReadNext();
          listPath := ReadRoot(reader, listPath);
          continue;
        }
      }
      reader.ReadNext();
    }
  }
}
