/** The parsed YAML document that the loader reads and the saver builds, with
    the parts of yaml-cpp's node interface that main.cpp uses: subscripting a
    non-const node by a string key, testing whether the result is defined,
    converting a scalar to a string or a double, and assigning a value at a
    path of keys. */
module Document {

  datatype Option<T> = None | Some(value: T)

  /** A YAML node. Scalars keep their text; how text reads as a number is a parameter. */
  datatype Node =
    | Null
    | Scalar(text: string)
    | Sequence(items: seq<Node>)
    | Mapping(entries: map<string, Node>)

  /** What `node[key]` yields: a defined node, an undefined one (the key is
      absent; it tests false), or the BadSubscript exception. */
  datatype Lookup = Undefined | Defined(node: Node) | BadSubscript

  /** `node[key]`. A scalar cannot be subscripted; a null or sequence node is
      turned into a mapping first, in which a string key is absent. */
  function Index(l: Lookup, key: string): Lookup {
    match l
    case Undefined => Undefined
    case BadSubscript => BadSubscript
    case Defined(n) =>
      match n
      case Scalar(_) => BadSubscript
      case Mapping(entries) => if key in entries then Defined(entries[key]) else Undefined
      case _ => Undefined
  }

  /** `node[path[0]][path[1]]...`: an exception or an undefined node propagates. */
  function Resolve(l: Lookup, path: seq<string>): Lookup
    decreases |path|
  {
    if path == [] then l else Resolve(Index(l, path[0]), path[1..])
  }

  /** `as<std::string>()`: a scalar yields its text, a null node the text "null";
      anything else is a conversion error. */
  function TextOf(n: Node): Option<string> {
    match n
    case Scalar(text) => Some(text)
    case Null => Some("null")
    case _ => None
  }

  /** `as<double>()` on a lookup: only a defined scalar whose text reads as a
      number converts; everything else throws. */
  function NumberOf(l: Lookup, readReal: string -> Option<real>): Option<real> {
    if l.Defined? && l.node.Scalar? then readReal(l.node.text) else None
  }

  /** `root[path[0]]...[path[|path| - 1]] = v` on a node tree built only by
      such assignments: every node on the way becomes (or stays) a mapping. */
  function Put(n: Node, path: seq<string>, v: Node): Node
    requires path != []
    decreases |path|
  {
    var entries := if n.Mapping? then n.entries else map[];
    var child := if path[0] in entries then entries[path[0]] else Null;
    Mapping(entries[path[0] := if |path| == 1 then v else Put(child, path[1..], v)])
  }

  /** Two paths that part ways: at some position they hold different keys. */
  predicate Diverge(p: seq<string>, q: seq<string>)
    decreases |p|
  {
    p != [] && q != [] && (p[0] != q[0] || Diverge(p[1..], q[1..]))
  }

  /** An undefined node or an exception stays so however deep the path. */
  lemma {:induction false} ResolveStuck(l: Lookup, path: seq<string>)
    requires !l.Defined?
    ensures Resolve(l, path) == l
    decreases |path|
  {
    if path != [] {
      ResolveStuck(Index(l, path[0]), path[1..]);
    }
  }

  /** After an assignment at a path, that path resolves to the assigned value. */
  lemma {:induction false} PutThenResolve(n: Node, path: seq<string>, v: Node)
    requires path != []
    ensures Resolve(Defined(Put(n, path, v)), path) == Defined(v)
    decreases |path|
  {
    var entries := if n.Mapping? then n.entries else map[];
    var child := if path[0] in entries then entries[path[0]] else Null;
    if |path| > 1 {
      PutThenResolve(child, path[1..], v);
    }
  }

  /** An assignment at one path leaves every defined value at a diverging path as it was. */
  lemma {:induction false} PutKeepsOthers(n: Node, path: seq<string>, v: Node, other: seq<string>)
    requires path != [] && Diverge(path, other)
    requires Resolve(Defined(n), other).Defined?
    ensures Resolve(Defined(Put(n, path, v)), other) == Resolve(Defined(n), other)
    decreases |path|
  {
    var here := Index(Defined(n), other[0]);
    if !here.Defined? {
      ResolveStuck(here, other[1..]);
      assert false;
    }
    if path[0] == other[0] {
      PutKeepsOthers(n.entries[path[0]], path[1..], v, other[1..]);
    }
  }
}
