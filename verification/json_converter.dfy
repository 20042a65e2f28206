/**
 * `JsonConverter.convertToJson` and `convertNodeToJson`: the parsed module as
 * a JSON object tree. A JSON object is a map from keys to values (the order
 * in which `org.json` prints keys is not part of the model); an array is a
 * sequence.
 *
 * The partner of the conversion is a reader, `ReadModule`, that rebuilds the
 * module from its JSON form: every module comes back except that an empty
 * description or data type comes back as absent, and a module produced by
 * the parser comes back exactly.
 */
module JsonConverter {
  import opened Wrappers
  import opened YangModel
  import opened YangParser

  datatype JValue =
    | JString(str: string)
    | JBool(flag: bool)
    | JArray(items: seq<JValue>)
    | JObject(fields: map<string, JValue>)

  /** A text field that `convertNodeToJson` writes: neither `null` nor empty. */
  predicate Written(t: Option<string>)
  {
    t.Some? && t.value != []
  }

  /** The keys of the object for a node. */
  function NodeKeys(n: YangNode): set<string>
  {
    {"name", "type", "mandatory"}
    + (if Written(n.description) then {"description"} else {})
    + (if Written(n.dataType) then {"data-type"} else {})
    + (if n.children != [] then {"children"} else {})
  }

  /**
   * `convertNodeToJson`: name, kind and the mandatory flag always; the
   * description and the data type only when non-empty; the children, in
   * order, only when there are any.
   */
  function NodeToJson(n: YangNode): (j: JValue)
    ensures j.JObject? && j.fields.Keys == NodeKeys(n)
    ensures j.fields["name"] == JString(n.name)
    ensures j.fields["type"] == JString(KindName(n.kind))
    ensures j.fields["mandatory"] == JBool(n.mandatory)
    ensures Written(n.description) ==> j.fields["description"] == JString(n.description.value)
    ensures Written(n.dataType) ==> j.fields["data-type"] == JString(n.dataType.value)
    ensures n.children != [] ==>
      && j.fields["children"].JArray? && |j.fields["children"].items| == |n.children|
      && forall i :: 0 <= i < |n.children| ==> j.fields["children"].items[i] == NodeToJson(n.children[i])
    decreases n
  {
    var base := map["name" := JString(n.name), "type" := JString(KindName(n.kind)), "mandatory" := JBool(n.mandatory)];
    var withDescription := if Written(n.description) then base["description" := JString(n.description.value)] else base;
    var withDataType := if Written(n.dataType) then withDescription["data-type" := JString(n.dataType.value)] else withDescription;
    if n.children == [] then JObject(withDataType)
    else
      var items := seq(|n.children|, i requires 0 <= i < |n.children| => NodeToJson(n.children[i]));
      JObject(withDataType["children" := JArray(items)])
  }

  /** The keys of the object for a module. */
  function ModuleKeys(m: YangModule): set<string>
  {
    {"module", "nodes"}
    + (if m.namespace.Some? then {"namespace"} else {})
    + (if m.prefix.Some? then {"prefix"} else {})
    + (if m.imports != [] then {"imports"} else {})
  }

  /**
   * `convertToJson`: the module name and its nodes always; namespace and
   * prefix when set (even to an empty string); the imports only when there
   * are any.
   */
  function ConvertToJson(m: YangModule): (j: JValue)
    ensures j.JObject? && j.fields.Keys == ModuleKeys(m)
    ensures j.fields["module"] == JString(m.name)
    ensures j.fields["nodes"].JArray? && |j.fields["nodes"].items| == |m.nodes|
    ensures forall i :: 0 <= i < |m.nodes| ==> j.fields["nodes"].items[i] == NodeToJson(m.nodes[i])
    ensures m.imports != [] ==> j.fields["imports"] == JArray(seq(|m.imports|, i requires 0 <= i < |m.imports| => JString(m.imports[i])))
    ensures m.namespace.Some? ==> j.fields["namespace"] == JString(m.namespace.value)
    ensures m.prefix.Some? ==> j.fields["prefix"] == JString(m.prefix.value)
  {
    var base := map["module" := JString(m.name)];
    var withNamespace := if m.namespace.Some? then base["namespace" := JString(m.namespace.value)] else base;
    var withPrefix := if m.prefix.Some? then withNamespace["prefix" := JString(m.prefix.value)] else withNamespace;
    var withImports :=
      if m.imports != [] then withPrefix["imports" := JArray(seq(|m.imports|, i requires 0 <= i < |m.imports| => JString(m.imports[i])))]
      else withPrefix;
    var nodes := seq(|m.nodes|, i requires 0 <= i < |m.nodes| => NodeToJson(m.nodes[i]));
    JObject(withImports["nodes" := JArray(nodes)])
  }

  // ---------------------------------------------------------------------
  // Reading the JSON form back.

  /** A string member of an object, if present and a string. */
  function StringField(f: map<string, JValue>, key: string): Option<string>
  {
    if key in f && f[key].JString? then Some(f[key].str) else None
  }

  /** The contents of a sequence of options that are all present. */
  function Values<T>(os: seq<Option<T>>): (vs: seq<T>)
    requires forall i :: 0 <= i < |os| ==> os[i].Some?
    ensures |vs| == |os|
    ensures forall i :: 0 <= i < |os| ==> vs[i] == os[i].value
  {
    seq(|os|, i requires 0 <= i < |os| => os[i].value)
  }

  /** The node an object describes, or `None` when it is not shaped like `convertNodeToJson` output. */
  function ReadNode(j: JValue): Option<YangNode>
    decreases j
  {
    if !j.JObject? then None
    else
      var f := j.fields;
      var name, kindName := StringField(f, "name"), StringField(f, "type");
      if name.None? || kindName.None? || KindFromName(kindName.value).None? then None
      else if "mandatory" !in f || !f["mandatory"].JBool? then None
      else
        var kids := if "children" in f && f["children"].JArray? then
          var items := f["children"].items;
          seq(|items|, i requires 0 <= i < |items| => ReadNode(items[i]))
        else [];
        if "children" in f && !f["children"].JArray? then None
        else if exists i :: 0 <= i < |kids| && kids[i].None? then None
        else
          Some(YangNode(name.value, KindFromName(kindName.value).value, StringField(f, "description"),
                        StringField(f, "data-type"), f["mandatory"].flag, Values(kids)))
  }

  /** The strings of an array of strings. */
  function ReadStrings(items: seq<JValue>): (r: Option<seq<string>>)
    ensures r.Some? <==> forall i :: 0 <= i < |items| ==> items[i].JString?
    ensures r.Some? ==> |r.value| == |items| && forall i :: 0 <= i < |items| ==> items[i] == JString(r.value[i])
  {
    if exists i :: 0 <= i < |items| && !items[i].JString? then None
    else Some(seq(|items|, i requires 0 <= i < |items| => items[i].str))
  }

  /** The module an object describes, or `None` when it is not shaped like `convertToJson` output. */
  function ReadModule(j: JValue): Option<YangModule>
  {
    if !j.JObject? then None
    else
      var f := j.fields;
      var name := StringField(f, "module");
      var imports := if "imports" in f && f["imports"].JArray? then ReadStrings(f["imports"].items) else Some([]);
      if name.None? || "nodes" !in f || !f["nodes"].JArray? then None
      else if imports.None? || ("imports" in f && !f["imports"].JArray?) then None
      else
        var items := f["nodes"].items;
        var nodes := seq(|items|, i requires 0 <= i < |items| => ReadNode(items[i]));
        if exists i :: 0 <= i < |nodes| && nodes[i].None? then None
        else
          Some(YangModule(name.value, StringField(f, "namespace"), StringField(f, "prefix"),
                          Values(nodes), imports.value))
  }

  // ---------------------------------------------------------------------
  // What the conversion keeps and what it forgets.

  /** `""` and `null` both become "absent", as the JSON form cannot tell them apart. */
  function NonEmpty(t: Option<string>): (r: Option<string>)
    ensures r != Some("")
    ensures Written(t) ==> r == t
  {
    if Written(t) then t else None
  }

  /** A node with every empty description and data type replaced by `null`, throughout. */
  function Normalize(n: YangNode): (r: YangNode)
    ensures Canonical(r)
    ensures r.name == n.name && r.kind == n.kind && r.mandatory == n.mandatory
    ensures |r.children| == |n.children|
    decreases n
  {
    var kids := seq(|n.children|, i requires 0 <= i < |n.children| => Normalize(n.children[i]));
    YangNode(n.name, n.kind, NonEmpty(n.description), NonEmpty(n.dataType), n.mandatory, kids)
  }

  /** A tree without empty texts is its own normal form. */
  lemma {:induction false} NormalizeCanonical(n: YangNode)
    requires Canonical(n)
    ensures Normalize(n) == n
    decreases n
  {
    forall i | 0 <= i < |n.children|
      ensures Normalize(n.children[i]) == n.children[i]
    {
      NormalizeCanonical(n.children[i]);
    }
    assert Normalize(n).children == n.children;
  }

  /** Reading a node's JSON form gives back the node, up to empty texts. */
  lemma {:induction false} NodeRoundTrip(n: YangNode)
    ensures ReadNode(NodeToJson(n)) == Some(Normalize(n))
    decreases n
  {
    var f := NodeToJson(n).fields;
    assert StringField(f, "name") == Some(n.name);
    assert StringField(f, "type") == Some(KindName(n.kind));
    assert StringField(f, "description") == NonEmpty(n.description);
    assert StringField(f, "data-type") == NonEmpty(n.dataType);
    assert f["mandatory"] == JBool(n.mandatory);
    if n.children == [] {
      assert "children" !in f;
      assert Normalize(n).children == [];
      assert Normalize(n) == YangNode(n.name, n.kind, NonEmpty(n.description), NonEmpty(n.dataType), n.mandatory, []);
    } else {
      var items := f["children"].items;
      var kids := seq(|items|, i requires 0 <= i < |items| => ReadNode(items[i]));
      forall i | 0 <= i < |n.children|
        ensures kids[i] == Some(Normalize(n.children[i]))
      {
        NodeRoundTrip(n.children[i]);
      }
      assert Values(kids) == Normalize(n).children;
    }
  }

  /** The JSON form does not see the difference between an empty text and `null`. */
  lemma {:induction false} NodeToJsonNormalize(n: YangNode)
    ensures NodeToJson(Normalize(n)) == NodeToJson(n)
    decreases n
  {
    var r := Normalize(n);
    var fn, fr := NodeToJson(n).fields, NodeToJson(r).fields;
    assert NodeKeys(r) == NodeKeys(n);
    if n.children != [] {
      forall i | 0 <= i < |n.children|
        ensures fr["children"].items[i] == fn["children"].items[i]
      {
        NodeToJsonNormalize(n.children[i]);
      }
      assert fr["children"] == fn["children"];
    }
    forall k | k in fn.Keys
      ensures fr[k] == fn[k]
    {
    }
    assert fr == fn;
  }

  /** Two nodes have the same JSON form exactly when they agree up to empty texts. */
  lemma NodeToJsonIdentifies(a: YangNode, b: YangNode)
    ensures NodeToJson(a) == NodeToJson(b) <==> Normalize(a) == Normalize(b)
  {
    NodeRoundTrip(a);
    NodeRoundTrip(b);
    NodeToJsonNormalize(a);
    NodeToJsonNormalize(b);
  }

  /** The sum of a sequence of counts. */
  function Sum(s: seq<nat>): nat
  {
    if s == [] then 0 else s[0] + Sum(s[1..])
  }

  /** The number of nodes in a tree: the node and all its descendants. */
  function NodeCount(n: YangNode): nat
    decreases n
  {
    1 + Sum(seq(|n.children|, i requires 0 <= i < |n.children| => NodeCount(n.children[i])))
  }

  /** The number of node objects in a JSON node: the object itself and, through `"children"`, its descendants. */
  function ObjectCount(j: JValue): nat
    decreases j
  {
    if j.JObject? && "children" in j.fields && j.fields["children"].JArray? then
      var items := j.fields["children"].items;
      1 + Sum(seq(|items|, i requires 0 <= i < |items| => ObjectCount(items[i])))
    else 1
  }

  /** `convertNodeToJson` emits exactly one object per node of the tree. */
  lemma {:induction false} OneObjectPerNode(n: YangNode)
    ensures ObjectCount(NodeToJson(n)) == NodeCount(n)
    decreases n
  {
    if n.children != [] {
      var items := NodeToJson(n).fields["children"].items;
      forall i | 0 <= i < |n.children|
        ensures ObjectCount(items[i]) == NodeCount(n.children[i])
      {
        OneObjectPerNode(n.children[i]);
      }
      assert seq(|items|, i requires 0 <= i < |items| => ObjectCount(items[i]))
          == seq(|n.children|, i requires 0 <= i < |n.children| => NodeCount(n.children[i]));
    }
  }

  /** A module with the nodes normalized. */
  function NormalizeModule(m: YangModule): (r: YangModule)
    ensures AllCanonical(r.nodes)
    ensures r.(nodes := m.nodes) == m
    ensures |r.nodes| == |m.nodes|
  {
    m.(nodes := seq(|m.nodes|, i requires 0 <= i < |m.nodes| => Normalize(m.nodes[i])))
  }

  /** Reading a module's JSON form gives back the module, up to empty texts in its nodes. */
  lemma ModuleRoundTrip(m: YangModule)
    ensures ReadModule(ConvertToJson(m)) == Some(NormalizeModule(m))
  {
    var f := ConvertToJson(m).fields;
    assert StringField(f, "module") == Some(m.name);
    assert StringField(f, "namespace") == m.namespace;
    assert StringField(f, "prefix") == m.prefix;
    if m.imports == [] {
      assert "imports" !in f;
    } else {
      var strs := ReadStrings(f["imports"].items);
      assert strs.Some?;
      assert strs.value == m.imports;
    }
    var items := f["nodes"].items;
    var nodes := seq(|items|, i requires 0 <= i < |items| => ReadNode(items[i]));
    forall i | 0 <= i < |m.nodes|
      ensures nodes[i] == Some(Normalize(m.nodes[i]))
    {
      NodeRoundTrip(m.nodes[i]);
    }
    assert Values(nodes) == NormalizeModule(m).nodes;
  }

  /** A module without empty texts survives the JSON conversion exactly. */
  lemma CanonicalModuleRoundTrip(m: YangModule)
    requires AllCanonical(m.nodes)
    ensures ReadModule(ConvertToJson(m)) == Some(m)
  {
    ModuleRoundTrip(m);
    forall i | 0 <= i < |m.nodes|
      ensures Normalize(m.nodes[i]) == m.nodes[i]
    {
      NormalizeCanonical(m.nodes[i]);
    }
    assert NormalizeModule(m).nodes == m.nodes;
  }

  /** A module the parser returns survives the JSON conversion exactly. */
  lemma ParsedModuleRoundTrip(lines: seq<string>)
    ensures Parse(lines).Some? ==> ReadModule(ConvertToJson(Parse(lines).value)) == Parse(lines)
  {
    if Parse(lines).Some? {
      CanonicalModuleRoundTrip(Parse(lines).value);
    }
  }
}
