/**
 * The two records of the schema tree, `YangNode` and `YangModule`, as values.
 * Each setter and each `add` method of the Java classes is a function that
 * returns the updated record.
 */
module YangModel {
  import opened Wrappers

  /** The four node kinds; the parser stores them as the strings of `KindName`. */
  datatype Kind = Container | Leaf | LeafList | List

  function KindName(k: Kind): (s: string)
    ensures KindFromName(s) == Some(k)
  {
    match k
    case Container => "container"
    case Leaf => "leaf"
    case LeafList => "leaf-list"
    case List => "list"
  }

  function KindFromName(s: string): Option<Kind>
  {
    if s == "container" then Some(Container)
    else if s == "leaf" then Some(Leaf)
    else if s == "leaf-list" then Some(LeafList)
    else if s == "list" then Some(List)
    else None
  }

  /** A schema node; `None` stands for a Java `null` field. */
  datatype YangNode = YangNode(
    name: string,
    kind: Kind,
    description: Option<string>,
    dataType: Option<string>,
    mandatory: bool,
    children: seq<YangNode>)
  {
    function SetDescription(d: string): (r: YangNode)
      ensures r.description == Some(d)
      ensures r.name == name && r.kind == kind && r.dataType == dataType
      ensures r.mandatory == mandatory && r.children == children
    {
      this.(description := Some(d))
    }

    function SetDataType(t: string): (r: YangNode)
      ensures r.dataType == Some(t)
      ensures r.name == name && r.kind == kind && r.description == description
      ensures r.mandatory == mandatory && r.children == children
    {
      this.(dataType := Some(t))
    }

    function SetMandatory(b: bool): (r: YangNode)
      ensures r.mandatory == b
      ensures r.name == name && r.kind == kind && r.description == description
      ensures r.dataType == dataType && r.children == children
    {
      this.(mandatory := b)
    }

    /** `addChild` appends at the end and keeps the earlier children in order. */
    function AddChild(c: YangNode): (r: YangNode)
      ensures |r.children| == |children| + 1
      ensures r.children[..|children|] == children && r.children[|children|] == c
      ensures r.name == name && r.kind == kind && r.description == description
      ensures r.dataType == dataType && r.mandatory == mandatory
    {
      this.(children := children + [c])
    }
  }

  /** The Java constructor: no children, not mandatory, no description or data type. */
  function NewNode(name: string, kind: Kind): (r: YangNode)
    ensures r.name == name && r.kind == kind
    ensures r.children == [] && !r.mandatory
    ensures r.description.None? && r.dataType.None?
  {
    YangNode(name, kind, None, None, false, [])
  }

  datatype YangModule = YangModule(
    name: string,
    namespace: Option<string>,
    prefix: Option<string>,
    nodes: seq<YangNode>,
    imports: seq<string>)
  {
    function SetNamespace(ns: string): (r: YangModule)
      ensures r.namespace == Some(ns)
      ensures r.name == name && r.prefix == prefix && r.nodes == nodes && r.imports == imports
    {
      this.(namespace := Some(ns))
    }

    function SetPrefix(p: string): (r: YangModule)
      ensures r.prefix == Some(p)
      ensures r.name == name && r.namespace == namespace && r.nodes == nodes && r.imports == imports
    {
      this.(prefix := Some(p))
    }

    /** `addNode` appends at the end of `nodes` and leaves `imports` alone. */
    function AddNode(n: YangNode): (r: YangModule)
      ensures |r.nodes| == |nodes| + 1
      ensures r.nodes[..|nodes|] == nodes && r.nodes[|nodes|] == n
      ensures r.name == name && r.namespace == namespace && r.prefix == prefix && r.imports == imports
    {
      this.(nodes := nodes + [n])
    }

    /** `addImport` appends at the end of `imports`, duplicates included, and leaves `nodes` alone. */
    function AddImport(i: string): (r: YangModule)
      ensures |r.imports| == |imports| + 1
      ensures r.imports[..|imports|] == imports && r.imports[|imports|] == i
      ensures r.name == name && r.namespace == namespace && r.prefix == prefix && r.nodes == nodes
    {
      this.(imports := imports + [i])
    }
  }

  /** The Java constructor: no namespace or prefix, no nodes, no imports. */
  function NewModule(name: string): (r: YangModule)
    ensures r.name == name && r.namespace.None? && r.prefix.None?
    ensures r.nodes == [] && r.imports == []
  {
    YangModule(name, None, None, [], [])
  }

  /**
   * No description or data type holds the empty string. The parser only ever
   * stores non-empty text, and the JSON dump identifies `""` with `null`.
   */
  predicate Canonical(n: YangNode)
  {
    && n.description != Some("")
    && n.dataType != Some("")
    && forall i :: 0 <= i < |n.children| ==> Canonical(n.children[i])
  }

  predicate AllCanonical(ns: seq<YangNode>)
  {
    forall i :: 0 <= i < |ns| ==> Canonical(ns[i])
  }
}
