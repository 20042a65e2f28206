/**
 * `YangParser.parseYangFile`: one pass over the lines, dispatching each
 * trimmed line to the first of the statement patterns that matches, with two
 * stacks kept in lock-step: the open-node stack and the brace stack.
 *
 * `Step` is the effect of one line and `Run` the effect of a sequence of
 * lines; `ParseYangFile` is the loop of the Java method, proved to compute
 * `Parse`.
 */
module YangParser {
  import opened Wrappers
  import opened JavaText
  import opened YangModel
  import opened YangPatterns
  import opened NodePaths

  /** An entry of the brace stack: `"module"`, `"import"` or a node kind. */
  datatype Tag = ModuleTag | ImportTag | NodeTag(kind: Kind)

  /** The parser's state: the module (`null` until its line is seen) and the two stacks, top last. */
  datatype ParseState = ParseState(yangModule: Option<YangModule>, nodeStack: seq<nat>, braceStack: seq<Tag>)

  const Initial := ParseState(None, [], [])

  /** Number of node-kind entries on the brace stack. */
  function NodeTags(tags: seq<Tag>): (n: nat)
    ensures n <= |tags|
    decreases |tags|
  {
    if tags == [] then 0
    else NodeTags(tags[..|tags| - 1]) + (if tags[|tags| - 1].NodeTag? then 1 else 0)
  }

  /**
   * What holds after every line: no stack before the module; as many node tags
   * on the brace stack as open nodes; the open nodes form a path from a
   * top-level node down along last children; no empty description or type.
   */
  predicate Inv(st: ParseState)
  {
    && (st.yangModule.None? ==> st.nodeStack == [] && st.braceStack == [])
    && NodeTags(st.braceStack) == |st.nodeStack|
    && (st.yangModule.Some? ==> IsSpine(st.yangModule.value.nodes, st.nodeStack) && AllCanonical(st.yangModule.value.nodes))
  }

  /** Trimmed lines that `parseYangFile` skips: blank ones and `//` comments. */
  predicate Skipped(line: string)
  {
    line == [] || StartsWith(line, "//")
  }

  /** A physical line on which `MODULE_PATTERN` is tried and found. */
  predicate IsModuleLine(raw: string)
  {
    var line := Trim(raw);
    !Skipped(line) && MatchModule(line).Some?
  }

  /** A container, leaf, leaf-list or list line: a new node, attached and pushed. */
  function OpenNode(st: ParseState, kind: Kind, name: string): (r: ParseState)
    requires Inv(st) && st.yangModule.Some?
    ensures Inv(r)
  {
    var m := st.yangModule.value;
    var node := NewNode(name, kind);
    if st.nodeStack == [] then
      assert AllCanonical(m.AddNode(node).nodes) by {
        assert forall i :: 0 <= i < |m.nodes| ==> m.AddNode(node).nodes[i] == m.nodes[i];
      }
      ParseState(Some(m.AddNode(node)), [|m.nodes|], st.braceStack + [NodeTag(kind)])
    else
      var top := NodeAt(m.nodes, st.nodeStack);
      var nodes' := UpdateAt(m.nodes, st.nodeStack, AddChild(node));
      SpineAfterUpdate(m.nodes, st.nodeStack, AddChild(node));
      SpineExtend(nodes', st.nodeStack, |top.children|);
      UpdateAtCanonical(m.nodes, st.nodeStack, AddChild(node));
      assert (st.braceStack + [NodeTag(kind)])[..|st.braceStack|] == st.braceStack;
      ParseState(Some(m.(nodes := nodes')), st.nodeStack + [|top.children|], st.braceStack + [NodeTag(kind)])
  }

  /** A type, mandatory or description line: an update of the innermost open node. */
  function EditTop(st: ParseState, e: Edit): (r: ParseState)
    requires Inv(st) && st.yangModule.Some? && st.nodeStack != []
    requires !e.AddChild? && CanonicalEdit(e)
    ensures Inv(r)
  {
    var m := st.yangModule.value;
    SpineAfterUpdate(m.nodes, st.nodeStack, e);
    UpdateAtCanonical(m.nodes, st.nodeStack, e);
    st.(yangModule := Some(m.(nodes := UpdateAt(m.nodes, st.nodeStack, e))))
  }

  /** A line that is exactly `}`. */
  function CloseBrace(st: ParseState): (r: ParseState)
    requires Inv(st) && st.yangModule.Some?
    ensures Inv(r)
  {
    if st.braceStack == [] then st
    else
      var bs := st.braceStack[..|st.braceStack| - 1];
      if st.nodeStack != [] && st.braceStack[|st.braceStack| - 1].NodeTag? then
        SpinePrefix(st.yangModule.value.nodes, st.nodeStack, |st.nodeStack| - 1);
        ParseState(st.yangModule, st.nodeStack[..|st.nodeStack| - 1], bs)
      else
        ParseState(st.yangModule, st.nodeStack, bs)
  }

  /**
   * The handler a statement selects once the module exists. Type, mandatory
   * and description statements are tried only while a node is open, and are
   * otherwise dropped like any unrecognized line. No handler replaces the
   * module or renames it.
   */
  function Transition(st: ParseState, s: Statement): (r: ParseState)
    requires Inv(st) && st.yangModule.Some?
    requires WellFormed(s)
    ensures Inv(r)
    ensures r.yangModule.Some? && r.yangModule.value.name == st.yangModule.value.name
  {
    var m := st.yangModule.value;
    match s
    case Namespace(v) => st.(yangModule := Some(m.SetNamespace(v)))
    case Prefix(v) => st.(yangModule := Some(m.SetPrefix(v)))
    case Import(v) => ParseState(Some(m.AddImport(v)), st.nodeStack, st.braceStack + [ImportTag])
    case Open(kind, name) => OpenNode(st, kind, name)
    case DataType(t) => if st.nodeStack != [] then EditTop(st, SetDataType(t)) else st
    case Mandatory(b) => if st.nodeStack != [] then EditTop(st, SetMandatory(b)) else st
    case Description(d) => if st.nodeStack != [] then EditTop(st, SetDescription(d)) else st
    case Close => CloseBrace(st)
    case Unrecognized => st
  }

  /** The statement payloads the handlers rely on: node names, types and descriptions are never empty. */
  predicate WellFormed(s: Statement)
  {
    && (s.Open? ==> s.name != [])
    && (s.DataType? ==> s.typeName != [])
    && (s.Description? ==> s.text != [])
  }

  /**
   * A physical line as the loops of `parseYangFile` and `validateSyntax` read
   * it: its trimmed text, whether it is skipped, what the module pattern finds
   * on it and which statement the other patterns select. A skipped line
   * carries no module name and no statement.
   */
  datatype Line = Line(text: string, skipped: bool, moduleName: Option<string>, statement: Statement)

  type ReadLine = l: Line | (l.skipped ==> l.moduleName.None? && l.statement == Unrecognized) && WellFormed(l.statement)
    witness Line([], true, None, Unrecognized)

  /** Trims a physical line and runs the patterns on it. */
  function Lex(raw: string): (l: ReadLine)
    ensures l.text == Trim(raw)
    ensures l.skipped <==> Skipped(Trim(raw))
    ensures l.moduleName.Some? <==> IsModuleLine(raw)
    ensures l.moduleName.Some? ==> l.moduleName == MatchModule(Trim(raw))
  {
    var line := Trim(raw);
    if Skipped(line) then Line(line, true, None, Unrecognized)
    else Line(line, false, MatchModule(line), Classify(line))
  }

  /** The lines of a file, each read by `Lex`. */
  function LexAll(lines: seq<string>): (ls: seq<ReadLine>)
    ensures |ls| == |lines|
    ensures forall i :: 0 <= i < |lines| ==> ls[i] == Lex(lines[i])
  {
    seq(|lines|, i requires 0 <= i < |lines| => Lex(lines[i]))
  }

  /**
   * The effect of one line. Before the module line only the module pattern
   * is tried (and both stacks are still empty); afterwards it never is.
   */
  function Step(st: ParseState, l: ReadLine): (r: ParseState)
    requires Inv(st)
    ensures Inv(r)
  {
    if l.skipped then st
    else if st.yangModule.None? then
      if l.moduleName.Some? then ParseState(Some(NewModule(l.moduleName.value)), [], [ModuleTag]) else st
    else
      Transition(st, l.statement)
  }

  /** The state after the given lines, starting from no module and empty stacks. */
  function Run(ls: seq<ReadLine>): (st: ParseState)
    ensures Inv(st)
    decreases |ls|
  {
    if ls == [] then Initial
    else Step(Run(ls[..|ls| - 1]), ls[|ls| - 1])
  }

  /** What `parseYangFile` returns for the lines of a file: the module, or `None` for the Java `null`. */
  function Parse(lines: seq<string>): Option<YangModule>
  {
    Run(LexAll(lines)).yangModule
  }

  /**
   * The handlers of `parseYangFile` once the module exists, on its three
   * variables: the module and the two stacks.
   */
  method Handle(m: YangModule, nodeStack: seq<nat>, braceStack: seq<Tag>, s: Statement)
    returns (m': Option<YangModule>, nodeStack': seq<nat>, braceStack': seq<Tag>)
    requires Inv(ParseState(Some(m), nodeStack, braceStack)) && WellFormed(s)
    ensures ParseState(m', nodeStack', braceStack') == Transition(ParseState(Some(m), nodeStack, braceStack), s)
  {
    m', nodeStack', braceStack' := Some(m), nodeStack, braceStack;
    match s
    case Namespace(v) =>
      m' := Some(m.SetNamespace(v));
    case Prefix(v) =>
      m' := Some(m.SetPrefix(v));
    case Import(v) =>
      m' := Some(m.AddImport(v));
      braceStack' := braceStack + [ImportTag];
    case Open(kind, name) =>
      var node := NewNode(name, kind);
      if nodeStack == [] {
        m' := Some(m.AddNode(node));
        nodeStack' := nodeStack + [|m.nodes|];
      } else {
        var top := NodeAt(m.nodes, nodeStack);
        m' := Some(m.(nodes := UpdateAt(m.nodes, nodeStack, AddChild(node))));
        nodeStack' := nodeStack + [|top.children|];
      }
      braceStack' := braceStack + [NodeTag(kind)];
    case DataType(t) =>
      if nodeStack != [] {
        m' := Some(m.(nodes := UpdateAt(m.nodes, nodeStack, SetDataType(t))));
      }
    case Mandatory(b) =>
      if nodeStack != [] {
        m' := Some(m.(nodes := UpdateAt(m.nodes, nodeStack, SetMandatory(b))));
      }
    case Description(d) =>
      if nodeStack != [] {
        m' := Some(m.(nodes := UpdateAt(m.nodes, nodeStack, SetDescription(d))));
      }
    case Close =>
      if braceStack != [] {
        var lastBrace := braceStack[|braceStack| - 1];
        braceStack' := braceStack[..|braceStack| - 1];
        if nodeStack != [] && lastBrace.NodeTag? {
          nodeStack' := nodeStack[..|nodeStack| - 1];
        }
      }
    case Unrecognized =>
  }

  /**
   * The body of the loop of `parseYangFile` for one physical line: trim it,
   * skip blank and comment lines, look only for the module line until the
   * module exists, and otherwise run the handler of the first matching pattern.
   */
  method ParseLine(yangModule: Option<YangModule>, nodeStack: seq<nat>, braceStack: seq<Tag>, raw: string)
    returns (yangModule': Option<YangModule>, nodeStack': seq<nat>, braceStack': seq<Tag>)
    requires Inv(ParseState(yangModule, nodeStack, braceStack))
    ensures ParseState(yangModule', nodeStack', braceStack') == Step(ParseState(yangModule, nodeStack, braceStack), Lex(raw))
  {
    LexStep(ParseState(yangModule, nodeStack, braceStack), raw);
    yangModule', nodeStack', braceStack' := yangModule, nodeStack, braceStack;
    var line := Trim(raw);
    if Skipped(line) {
      return;
    }
    if yangModule.None? {
      var name := MatchModule(line);
      if name.Some? {
        yangModule' := Some(NewModule(name.value));
        braceStack' := braceStack + [ModuleTag];
      }
      return;
    }
    yangModule', nodeStack', braceStack' := Handle(yangModule.value, nodeStack, braceStack, Classify(line));
  }

  /**
   * The loop of `parseYangFile` over lines already read from the file. Each
   * line is trimmed and dispatched; the handlers push, pop and peek the two
   * stacks and update the module and the innermost open node.
   */
  method ParseYangFile(lines: seq<string>) returns (result: Option<YangModule>)
    ensures result == Parse(lines)
  {
    ghost var ls := LexAll(lines);
    var yangModule: Option<YangModule> := None;
    var nodeStack: seq<nat> := [];
    var braceStack: seq<Tag> := [];
    var i := 0;
    while i < |lines|
      invariant 0 <= i <= |lines|
      invariant ParseState(yangModule, nodeStack, braceStack) == Run(ls[..i])
    {
      yangModule, nodeStack, braceStack := ParseLine(yangModule, nodeStack, braceStack, lines[i]);
      i := i + 1;
      assert ls[..i][..i - 1] == ls[..i - 1];
    }
    assert ls[..i] == ls;
    result := yangModule;
  }

  /** The effect of one physical line, case by case, in the order `parseYangFile` tries them. */
  lemma LexStep(st: ParseState, raw: string)
    requires Inv(st)
    ensures Skipped(Trim(raw)) ==> Step(st, Lex(raw)) == st
    ensures !Skipped(Trim(raw)) && st.yangModule.None? ==>
      Step(st, Lex(raw)) == (if MatchModule(Trim(raw)).Some? then ParseState(Some(NewModule(MatchModule(Trim(raw)).value)), [], [ModuleTag]) else st)
    ensures !Skipped(Trim(raw)) && st.yangModule.Some? ==> Step(st, Lex(raw)) == Transition(st, Classify(Trim(raw)))
  {
  }

  // ---------------------------------------------------------------------
  // The module line.

  /** Before the module exists, a line either creates it from the module pattern's match or changes nothing. */
  lemma StepBeforeModule(st: ParseState, l: ReadLine)
    requires Inv(st) && st.yangModule.None?
    ensures l.moduleName.Some? ==> Step(st, l) == ParseState(Some(NewModule(l.moduleName.value)), [], [ModuleTag])
    ensures l.moduleName.None? ==> Step(st, l) == st
  {
  }

  /** Once the module exists, no line removes it or changes its name. */
  lemma StepKeepsModuleName(st: ParseState, l: ReadLine)
    requires Inv(st) && st.yangModule.Some?
    ensures Step(st, l).yangModule.Some?
    ensures Step(st, l).yangModule.value.name == st.yangModule.value.name
  {
  }

  /** Lines on which the module pattern finds nothing, before the module exists, change nothing. */
  lemma {:induction false} PreambleIgnored(ls: seq<ReadLine>)
    requires forall i :: 0 <= i < |ls| ==> ls[i].moduleName.None?
    ensures Run(ls) == Initial
    decreases |ls|
  {
    if ls != [] {
      var init := ls[..|ls| - 1];
      assert forall i :: 0 <= i < |init| ==> init[i] == ls[i];
      PreambleIgnored(init);
      StepBeforeModule(Initial, ls[|ls| - 1]);
    }
  }

  /** The module, once created by the first `k` lines, survives the rest with its name. */
  lemma {:induction false} RunKeepsModuleName(ls: seq<ReadLine>, k: nat)
    requires k <= |ls| && Run(ls[..k]).yangModule.Some?
    ensures Run(ls).yangModule.Some?
    ensures Run(ls).yangModule.value.name == Run(ls[..k]).yangModule.value.name
    decreases |ls|
  {
    if k < |ls| {
      var init := ls[..|ls| - 1];
      assert init[..k] == ls[..k];
      RunKeepsModuleName(init, k);
      StepKeepsModuleName(Run(init), ls[|ls| - 1]);
    } else {
      assert ls[..k] == ls;
    }
  }

  /** No module exists after a run exactly when the module pattern found nothing on any line. */
  lemma {:induction false} RunIsNoneIff(ls: seq<ReadLine>)
    ensures Run(ls).yangModule.None? <==> forall i :: 0 <= i < |ls| ==> ls[i].moduleName.None?
    decreases |ls|
  {
    if ls != [] {
      var init := ls[..|ls| - 1];
      assert forall i :: 0 <= i < |init| ==> init[i] == ls[i];
      RunIsNoneIff(init);
      if Run(init).yangModule.None? {
        StepBeforeModule(Run(init), ls[|ls| - 1]);
      } else {
        StepKeepsModuleName(Run(init), ls[|ls| - 1]);
      }
    }
  }

  /**
   * `parseYangFile` returns `null` exactly when no checked line matches the
   * module pattern.
   */
  lemma ParseIsNoneIff(lines: seq<string>)
    ensures Parse(lines).None? <==> forall i :: 0 <= i < |lines| ==> !IsModuleLine(lines[i])
  {
    RunIsNoneIff(LexAll(lines));
  }

  /** The module's name is the module pattern's match on the first line where it finds one. */
  lemma RunNameFromFirstModuleLine(ls: seq<ReadLine>, k: nat)
    requires k < |ls| && ls[k].moduleName.Some?
    requires forall j :: 0 <= j < k ==> ls[j].moduleName.None?
    ensures Run(ls).yangModule.Some?
    ensures Run(ls).yangModule.value.name == ls[k].moduleName.value
  {
    var pre, pre1 := ls[..k], ls[..k + 1];
    assert forall j :: 0 <= j < |pre| ==> pre[j] == ls[j];
    PreambleIgnored(pre);
    assert pre1[..k] == pre && pre1[k] == ls[k];
    assert Run(pre1) == Step(Initial, ls[k]);
    StepBeforeModule(Initial, ls[k]);
    RunKeepsModuleName(ls, k + 1);
  }

  /** `parseYangFile` names the module after the FIRST line that matches the module pattern. */
  lemma ParseNameFromFirstModuleLine(lines: seq<string>, k: nat)
    requires k < |lines| && IsModuleLine(lines[k])
    requires forall j :: 0 <= j < k ==> !IsModuleLine(lines[j])
    ensures Parse(lines).Some?
    ensures Parse(lines).value.name == MatchModule(Trim(lines[k])).value
  {
    var ls := LexAll(lines);
    assert ls[k] == Lex(lines[k]);
    RunNameFromFirstModuleLine(ls, k);
  }

  // ---------------------------------------------------------------------
  // The effect of each statement once the module exists.

  /** `namespace` and `prefix` overwrite their own module field only; no stack moves. */
  lemma NamespaceAndPrefix(st: ParseState, v: string)
    requires Inv(st) && st.yangModule.Some?
    ensures var r := Transition(st, Namespace(v));
      && r.yangModule.value.namespace == Some(v)
      && r.yangModule.value.(namespace := st.yangModule.value.namespace) == st.yangModule.value
      && r.nodeStack == st.nodeStack && r.braceStack == st.braceStack
    ensures var r := Transition(st, Prefix(v));
      && r.yangModule.value.prefix == Some(v)
      && r.yangModule.value.(prefix := st.yangModule.value.prefix) == st.yangModule.value
      && r.nodeStack == st.nodeStack && r.braceStack == st.braceStack
  {
  }

  /** `import` appends its identifier and pushes `import` on the brace stack only. */
  lemma ImportStatement(st: ParseState, v: string)
    requires Inv(st) && st.yangModule.Some?
    ensures var r := Transition(st, Import(v));
      && r.yangModule.value.imports == st.yangModule.value.imports + [v]
      && r.yangModule.value.(imports := st.yangModule.value.imports) == st.yangModule.value
      && r.nodeStack == st.nodeStack
      && r.braceStack == st.braceStack + [ImportTag]
  {
  }

  /** A node statement with no open node: a new last top-level node, pushed on both stacks. */
  lemma OpenAtTopLevel(st: ParseState, kind: Kind, name: string)
    requires Inv(st) && st.yangModule.Some? && st.nodeStack == [] && name != []
    ensures var m := st.yangModule.value;
      var r := Transition(st, Open(kind, name));
      && r.yangModule == Some(m.(nodes := m.nodes + [NewNode(name, kind)]))
      && r.nodeStack == [|m.nodes|]
      && NodeAt(r.yangModule.value.nodes, r.nodeStack) == NewNode(name, kind)
      && r.braceStack == st.braceStack + [NodeTag(kind)]
  {
  }

  /**
   * A node statement inside an open node: the new node becomes the last child
   * of the innermost open node and is pushed on both stacks. Nothing else
   * changes: not the module's own fields, not the other fields of the open
   * node, not its ancestors' fields, and no node off the open path.
   */
  lemma OpenNested(st: ParseState, kind: Kind, name: string)
    requires Inv(st) && st.yangModule.Some? && st.nodeStack != [] && name != []
    ensures var m := st.yangModule.value;
      var top := NodeAt(m.nodes, st.nodeStack);
      var r := Transition(st, Open(kind, name));
      var nodes' := r.yangModule.value.nodes;
      && r.yangModule.value.(nodes := m.nodes) == m
      && r.nodeStack == st.nodeStack + [|top.children|]
      && r.braceStack == st.braceStack + [NodeTag(kind)]
      && ValidPath(nodes', st.nodeStack)
      && NodeAt(nodes', st.nodeStack) == top.(children := top.children + [NewNode(name, kind)])
      && NodeAt(nodes', r.nodeStack) == NewNode(name, kind)
      && ChangedOnlyAlong(m.nodes, nodes', st.nodeStack)
  {
    var nodes := st.yangModule.value.nodes;
    var top := NodeAt(nodes, st.nodeStack);
    var e := AddChild(NewNode(name, kind));
    var nodes' := UpdateAt(nodes, st.nodeStack, e);
    SpineAfterUpdate(nodes, st.nodeStack, e);
    SpineExtend(nodes', st.nodeStack, |top.children|);
    UpdateAtChangesOnlyAlong(nodes, st.nodeStack, e);
  }

  /**
   * `type`, `mandatory` and `description` overwrite one field of the innermost
   * open node and move neither stack; nothing else changes: not the module's
   * own fields, not its ancestors' fields, and no node off the open path. With
   * no open node they are ignored.
   */
  lemma AttributeStatements(st: ParseState, s: Statement)
    requires Inv(st) && st.yangModule.Some? && WellFormed(s)
    requires s.DataType? || s.Mandatory? || s.Description?
    ensures st.nodeStack == [] ==> Transition(st, s) == st
    ensures st.nodeStack != [] ==>
      var m := st.yangModule.value;
      var top := NodeAt(m.nodes, st.nodeStack);
      var r := Transition(st, s);
      var nodes' := r.yangModule.value.nodes;
      && r.nodeStack == st.nodeStack && r.braceStack == st.braceStack
      && r.yangModule.value.(nodes := m.nodes) == m
      && ValidPath(nodes', st.nodeStack)
      && NodeAt(nodes', st.nodeStack) ==
           (if s.DataType? then top.(dataType := Some(s.typeName))
            else if s.Mandatory? then top.(mandatory := s.value)
            else top.(description := Some(s.text)))
      && ChangedOnlyAlong(m.nodes, nodes', st.nodeStack)
  {
    if st.nodeStack != [] {
      var e := if s.DataType? then SetDataType(s.typeName) else if s.Mandatory? then SetMandatory(s.value) else SetDescription(s.text);
      UpdateAtChangesOnlyAlong(st.yangModule.value.nodes, st.nodeStack, e);
    }
  }

  /**
   * A bare `}` pops the brace stack when there is something to pop, and pops
   * the node stack exactly when the popped tag is a node kind, so closing a
   * module or an import leaves the node stack alone; extra braces are ignored.
   */
  lemma CloseStatement(st: ParseState)
    requires Inv(st) && st.yangModule.Some?
    ensures var r := Transition(st, Close);
      && r.yangModule == st.yangModule
      && (st.braceStack == [] ==> r == st)
      && (st.braceStack != [] ==>
            && r.braceStack == st.braceStack[..|st.braceStack| - 1]
            && (st.braceStack[|st.braceStack| - 1].NodeTag? ==> r.nodeStack == st.nodeStack[..|st.nodeStack| - 1])
            && (!st.braceStack[|st.braceStack| - 1].NodeTag? ==> r.nodeStack == st.nodeStack))
  {
    if st.braceStack != [] && st.braceStack[|st.braceStack| - 1].NodeTag? {
      assert NodeTags(st.braceStack) > 0;
    }
  }

  /** A line that no pattern matches changes neither the tree nor the stacks. */
  lemma UnrecognizedLine(st: ParseState, raw: string)
    requires Inv(st) && Classify(Trim(raw)) == Unrecognized
    requires st.yangModule.None? ==> MatchModule(Trim(raw)).None?
    ensures Step(st, Lex(raw)) == st
  {
    var l := Lex(raw);
    assert l.statement == Unrecognized;
    StepUnrecognized(st, l);
  }

  lemma StepUnrecognized(st: ParseState, l: ReadLine)
    requires Inv(st) && l.statement == Unrecognized
    requires st.yangModule.None? ==> l.moduleName.None?
    ensures Step(st, l) == st
  {
  }
}
