/**
 * Whole files run through the parser: the nesting and sibling-order
 * behaviour of `parseYangFile` on files written in the usual layout, with
 * any indentation, for any names.
 */
module ParseScenarios {
  import opened Wrappers
  import opened JavaText
  import opened YangModel
  import opened YangPatterns
  import opened YangParser
  import opened StatementLines
  import opened NodePaths

  /** A line with only blanks around a visible text, as indentation leaves it. */
  predicate Blank(s: string)
  {
    forall k :: 0 <= k < |s| ==> IsTrimmed(s[k])
  }

  /** A statement line, indented: it is read as the statement itself. */
  lemma {:induction false} LexIndented(indent: string, line: string)
    requires Blank(indent) && line != [] && !IsTrimmed(line[0]) && !IsTrimmed(line[|line| - 1]) && line[0] != '/'
    ensures Lex(indent + line) == Line(line, false, MatchModule(line), Classify(line))
  {
    TrimMargins(indent, line, []);
    assert indent + line + [] == indent + line;
    NotComment(line);
  }

  lemma NotComment(line: string)
    requires line != [] && line[0] != '/'
    ensures !Skipped(line)
  {
    assert "//"[0] == '/';
  }

  /** One more line after a prefix of lines. */
  lemma RunSnoc(ls: seq<ReadLine>, k: nat)
    requires k < |ls|
    ensures Run(ls[..k + 1]) == Step(Run(ls[..k]), ls[k])
  {
    assert ls[..k + 1][..k] == ls[..k];
  }

  /** Two spaces per level of nesting. */
  function Indent(depth: nat): (s: string)
    ensures Blank(s)
  {
    seq(2 * depth, _ => ' ')
  }

  /** `KEYWORD ARG {` at some depth. */
  lemma LexBraceLine(depth: nat, keyword: string, arg: string)
    requires Token(keyword) && Token(arg) && keyword[0] != '/'
    ensures var line := BraceText(keyword, arg);
      Lex(Indent(depth) + line) == Line(line, false, MatchModule(line), Classify(line))
  {
    var line := BraceText(keyword, arg);
    assert line[0] == keyword[0] && line[|line| - 1] == '{';
    LexIndented(Indent(depth), line);
  }

  /** `KEYWORD ARG;` at some depth. */
  lemma LexSemicolonLine(depth: nat, keyword: string, arg: string)
    requires Token(keyword) && Token(arg) && keyword[0] != '/'
    ensures var line := SemicolonText(keyword, arg);
      Lex(Indent(depth) + line) == Line(line, false, MatchModule(line), Classify(line))
  {
    var line := SemicolonText(keyword, arg);
    assert line[0] == keyword[0] && line[|line| - 1] == ';';
    LexIndented(Indent(depth), line);
  }

  /** A closing brace at some depth. */
  lemma LexCloseLine(depth: nat)
    ensures Lex(Indent(depth) + "}").statement == Close && !Lex(Indent(depth) + "}").skipped
  {
    LexIndented(Indent(depth), "}");
  }

  /** The nesting example: a module holding a container holding a leaf with a type. */
  function NestingFile(m: string, a: string, b: string, t: string): seq<string>
  {
    [ BraceText("module", m),
      Indent(1) + BraceText("container", a),
      Indent(2) + BraceText("leaf", b),
      Indent(3) + SemicolonText("type", t),
      Indent(2) + "}",
      Indent(1) + "}",
      "}" ]
  }

  /**
   * An indented node line is read as that node statement, also when the
   * block is closed on the same line: the text after the brace is not looked at.
   */
  lemma LexOpenLine(depth: nat, kind: Kind, name: string, tail: string)
    requires Token(name) && (tail == [] || tail == ['}'])
    ensures var l := Lex(Indent(depth) + BraceText(KindName(kind), name) + tail);
      !l.skipped && l.statement == Open(kind, name)
  {
    assert Token(KindName(kind)) && KindName(kind)[0] != '/';
    var line := BraceText(KindName(kind), name) + tail;
    assert line[0] == KindName(kind)[0];
    assert line[|line| - 1] == if tail == [] then '{' else '}';
    assert Indent(depth) + BraceText(KindName(kind), name) + tail == Indent(depth) + line;
    LexIndented(Indent(depth), line);
    ClassifyOpenLine(kind, name, tail);
  }

  /** An indented type line is read as that type statement. */
  lemma LexTypeLine(depth: nat, t: string)
    requires Token(t)
    ensures var l := Lex(Indent(depth) + SemicolonText("type", t));
      !l.skipped && l.statement == DataType(t)
  {
    assert Token("type");
    LexSemicolonLine(depth, "type", t);
    ClassifyTypeLine(t);
  }

  /** An unindented module line is read as the module declaration. */
  lemma LexModuleLine(m: string)
    requires Token(m)
    ensures var l := Lex(BraceText("module", m));
      !l.skipped && l.moduleName == Some(m)
  {
    LexModuleLineWith(m, []);
    assert BraceText("module", m) + [] == BraceText("module", m);
  }

  lemma NestingLine0(m: string, a: string, b: string, t: string)
    requires Token(m)
    ensures var ls := LexAll(NestingFile(m, a, b, t));
      |ls| == 7 && !ls[0].skipped && ls[0].moduleName == Some(m)
  {
    assert NestingFile(m, a, b, t)[0] == BraceText("module", m);
    LexModuleLine(m);
  }

  lemma NestingLine1(m: string, a: string, b: string, t: string)
    requires Token(a)
    ensures var ls := LexAll(NestingFile(m, a, b, t));
      |ls| == 7 && !ls[1].skipped && ls[1].statement == Open(Container, a)
  {
    assert NestingFile(m, a, b, t)[1] == Indent(1) + BraceText(KindName(Container), a) + [];
    LexOpenLine(1, Container, a, []);
  }

  lemma NestingLine2(m: string, a: string, b: string, t: string)
    requires Token(b)
    ensures var ls := LexAll(NestingFile(m, a, b, t));
      |ls| == 7 && !ls[2].skipped && ls[2].statement == Open(Leaf, b)
  {
    assert NestingFile(m, a, b, t)[2] == Indent(2) + BraceText(KindName(Leaf), b) + [];
    LexOpenLine(2, Leaf, b, []);
  }

  lemma NestingLine3(m: string, a: string, b: string, t: string)
    requires Token(t)
    ensures var ls := LexAll(NestingFile(m, a, b, t));
      |ls| == 7 && !ls[3].skipped && ls[3].statement == DataType(t)
  {
    assert NestingFile(m, a, b, t)[3] == Indent(3) + SemicolonText("type", t);
    LexTypeLine(3, t);
  }

  lemma NestingClose(m: string, a: string, b: string, t: string, i: nat)
    requires 4 <= i < 7
    ensures var ls := LexAll(NestingFile(m, a, b, t));
      |ls| == 7 && !ls[i].skipped && ls[i].statement == Close
  {
    var depth := 6 - i;
    var line := NestingFile(m, a, b, t)[i];
    assert line == Indent(depth) + "}" by {
      if i == 6 {
        assert Indent(0) + "}" == "}";
      }
    }
    LexCloseLine(depth);
  }

  /** The module line: an empty module, with only the module tag on the brace stack. */
  lemma RunModuleLine(ls: seq<ReadLine>, m: string)
    requires |ls| > 0 && !ls[0].skipped && ls[0].moduleName == Some(m)
    ensures Run(ls[..1]) == ParseState(Some(NewModule(m)), [], [ModuleTag])
  {
    RunSnoc(ls, 0);
    assert ls[..0] == [];
    StepBeforeModule(Initial, ls[0]);
  }

  /** A node line with only the module open: the node is appended at the top level and pushed. */
  lemma RunOpenTop(ls: seq<ReadLine>, k: nat, mod: YangModule, kind: Kind, name: string)
    requires k < |ls| && !ls[k].skipped && ls[k].statement == Open(kind, name) && name != []
    requires Run(ls[..k]) == ParseState(Some(mod), [], [ModuleTag])
    ensures Run(ls[..k + 1]) == ParseState(Some(mod.AddNode(NewNode(name, kind))), [|mod.nodes|], [ModuleTag, NodeTag(kind)])
  {
    RunSnoc(ls, k);
    OpenAtTopLevel(Run(ls[..k]), kind, name);
  }

  /** A node line inside the only top-level node, still childless: the new node is its first child. */
  lemma RunOpenUnderFirst(ls: seq<ReadLine>, k: nat, m: string, pk: Kind, p: string, kind: Kind, name: string)
    requires k < |ls| && !ls[k].skipped && ls[k].statement == Open(kind, name) && name != []
    requires Run(ls[..k]) == ParseState(Some(NewModule(m).AddNode(NewNode(p, pk))), [0], [ModuleTag, NodeTag(pk)])
    ensures Run(ls[..k + 1]) ==
      ParseState(Some(NewModule(m).AddNode(NewNode(p, pk).AddChild(NewNode(name, kind)))), [0, 0], [ModuleTag, NodeTag(pk), NodeTag(kind)])
  {
    RunSnoc(ls, k);
    var m1 := NewModule(m).AddNode(NewNode(p, pk));
    assert m1.nodes == [NewNode(p, pk)];
    assert NodeAt(m1.nodes, [0]) == NewNode(p, pk);
    assert UpdateAt(m1.nodes, [0], AddChild(NewNode(name, kind))) == [NewNode(p, pk).AddChild(NewNode(name, kind))];
    assert [0] + [0] == [0, 0];
  }

  /** A type line inside the first child of the only top-level node: the type lands on that child. */
  lemma RunTypeOfChild(ls: seq<ReadLine>, k: nat, m: string, pk: Kind, p: string, kind: Kind, name: string, t: string)
    requires k < |ls| && !ls[k].skipped && ls[k].statement == DataType(t) && t != []
    requires Run(ls[..k]) ==
      ParseState(Some(NewModule(m).AddNode(NewNode(p, pk).AddChild(NewNode(name, kind)))), [0, 0], [ModuleTag, NodeTag(pk), NodeTag(kind)])
    ensures Run(ls[..k + 1]) ==
      ParseState(Some(NewModule(m).AddNode(NewNode(p, pk).AddChild(NewNode(name, kind).SetDataType(t)))), [0, 0], [ModuleTag, NodeTag(pk), NodeTag(kind)])
  {
    RunSnoc(ls, k);
    var child := NewNode(name, kind);
    var m2 := NewModule(m).AddNode(NewNode(p, pk).AddChild(child));
    assert m2.nodes == [NewNode(p, pk).AddChild(child)];
    assert m2.nodes[0].children == [child];
    assert UpdateAt(m2.nodes, [0, 0], SetDataType(t)) == [NewNode(p, pk).AddChild(child.SetDataType(t))] by {
      assert UpdateAt([child], [0], SetDataType(t)) == [child.SetDataType(t)];
    }
  }

  /** A bare brace inside a child of a top-level node: back to that top-level node. */
  lemma RunCloseChild(ls: seq<ReadLine>, k: nat, mod: YangModule, pk: Kind, kind: Kind)
    requires k < |ls| && !ls[k].skipped && ls[k].statement == Close
    requires Run(ls[..k]) == ParseState(Some(mod), [0, 0], [ModuleTag, NodeTag(pk), NodeTag(kind)])
    ensures Run(ls[..k + 1]) == ParseState(Some(mod), [0], [ModuleTag, NodeTag(pk)])
  {
    RunSnoc(ls, k);
    CloseStatement(Run(ls[..k]));
    assert [0, 0][..1] == [0];
    assert [ModuleTag, NodeTag(pk), NodeTag(kind)][..2] == [ModuleTag, NodeTag(pk)];
  }

  /** A bare brace inside a top-level node: back to the module level. */
  lemma RunCloseTop(ls: seq<ReadLine>, k: nat, mod: YangModule, i: nat, kind: Kind)
    requires k < |ls| && !ls[k].skipped && ls[k].statement == Close
    requires Run(ls[..k]) == ParseState(Some(mod), [i], [ModuleTag, NodeTag(kind)])
    ensures Run(ls[..k + 1]) == ParseState(Some(mod), [], [ModuleTag])
  {
    RunSnoc(ls, k);
    CloseStatement(Run(ls[..k]));
    assert [i][..0] == [];
    assert [ModuleTag, NodeTag(kind)][..1] == [ModuleTag];
  }

  /** The module's own closing brace: the brace stack empties, the module stays. */
  lemma RunCloseModule(ls: seq<ReadLine>, k: nat, mod: YangModule)
    requires k < |ls| && !ls[k].skipped && ls[k].statement == Close
    requires Run(ls[..k]) == ParseState(Some(mod), [], [ModuleTag])
    ensures Run(ls[..k + 1]) == ParseState(Some(mod), [], [])
  {
    RunSnoc(ls, k);
    CloseStatement(Run(ls[..k]));
  }

  /** The run over what the parser reads on the lines of `NestingFile`. */
  lemma NestingRun(m: string, a: string, b: string, t: string, ls: seq<ReadLine>)
    requires a != [] && b != [] && t != [] && |ls| == 7
    requires !ls[0].skipped && ls[0].moduleName == Some(m)
    requires !ls[1].skipped && ls[1].statement == Open(Container, a)
    requires !ls[2].skipped && ls[2].statement == Open(Leaf, b)
    requires !ls[3].skipped && ls[3].statement == DataType(t)
    requires !ls[4].skipped && ls[4].statement == Close
    requires !ls[5].skipped && ls[5].statement == Close
    requires !ls[6].skipped && ls[6].statement == Close
    ensures Run(ls).yangModule == Some(NewModule(m).AddNode(NewNode(a, Container).AddChild(NewNode(b, Leaf).SetDataType(t))))
  {
    var mod := NewModule(m).AddNode(NewNode(a, Container).AddChild(NewNode(b, Leaf).SetDataType(t)));
    RunModuleLine(ls, m);
    RunOpenTop(ls, 1, NewModule(m), Container, a);
    RunOpenUnderFirst(ls, 2, m, Container, a, Leaf, b);
    RunTypeOfChild(ls, 3, m, Container, a, Leaf, b, t);
    RunCloseChild(ls, 4, mod, Container, Leaf);
    RunCloseTop(ls, 5, mod, 0, Container);
    RunCloseModule(ls, 6, mod);
    assert ls[..7] == ls;
  }

  /**
   * The nesting example: the file yields one top-level container `a` whose
   * only child is the leaf `b`, and the type lands on `b`.
   */
  lemma NestedContainerAndLeaf(m: string, a: string, b: string, t: string)
    requires Token(m) && Token(a) && Token(b) && Token(t)
    ensures Parse(NestingFile(m, a, b, t)) ==
      Some(YangModule(m, None, None, [YangNode(a, Container, None, None, false, [YangNode(b, Leaf, None, Some(t), false, [])])], []))
  {
    NestingLine0(m, a, b, t);
    NestingLine1(m, a, b, t);
    NestingLine2(m, a, b, t);
    NestingLine3(m, a, b, t);
    NestingClose(m, a, b, t, 4);
    NestingClose(m, a, b, t, 5);
    NestingClose(m, a, b, t, 6);
    NestingRun(m, a, b, t, LexAll(NestingFile(m, a, b, t)));
  }

  /** Two nodes at the same level, each block closed on a line of its own. */
  function SiblingFile(m: string, x: string, y: string): seq<string>
  {
    [ BraceText("module", m),
      Indent(1) + BraceText("list", x),
      Indent(1) + "}",
      Indent(1) + BraceText("list", y),
      Indent(1) + "}",
      "}" ]
  }

  lemma SiblingOpen(m: string, x: string, y: string, i: nat)
    requires Token(x) && Token(y) && (i == 1 || i == 3)
    ensures var ls := LexAll(SiblingFile(m, x, y));
      |ls| == 6 && !ls[i].skipped && ls[i].statement == Open(List, if i == 1 then x else y)
  {
    var name := if i == 1 then x else y;
    assert SiblingFile(m, x, y)[i] == Indent(1) + BraceText(KindName(List), name) + [];
    LexOpenLine(1, List, name, []);
  }

  lemma SiblingLine0(m: string, x: string, y: string)
    requires Token(m)
    ensures var ls := LexAll(SiblingFile(m, x, y));
      |ls| == 6 && !ls[0].skipped && ls[0].moduleName == Some(m)
  {
    assert SiblingFile(m, x, y)[0] == BraceText("module", m);
    LexModuleLine(m);
  }

  lemma SiblingClose(m: string, x: string, y: string, i: nat)
    requires i == 2 || i == 4 || i == 5
    ensures var ls := LexAll(SiblingFile(m, x, y));
      |ls| == 6 && !ls[i].skipped && ls[i].statement == Close
  {
    var depth := if i == 5 then 0 else 1;
    assert SiblingFile(m, x, y)[i] == Indent(depth) + "}";
    LexCloseLine(depth);
  }

  /** The run over what the parser reads on the lines of `SiblingFile`. */
  lemma SiblingRun(m: string, x: string, y: string, ls: seq<ReadLine>)
    requires x != [] && y != [] && |ls| == 6
    requires !ls[0].skipped && ls[0].moduleName == Some(m)
    requires !ls[1].skipped && ls[1].statement == Open(List, x)
    requires !ls[2].skipped && ls[2].statement == Close
    requires !ls[3].skipped && ls[3].statement == Open(List, y)
    requires !ls[4].skipped && ls[4].statement == Close
    requires !ls[5].skipped && ls[5].statement == Close
    ensures Run(ls).yangModule == Some(YangModule(m, None, None, [NewNode(x, List), NewNode(y, List)], []))
  {
    var m1 := NewModule(m).AddNode(NewNode(x, List));
    var m2 := m1.AddNode(NewNode(y, List));
    RunModuleLine(ls, m);
    RunOpenTop(ls, 1, NewModule(m), List, x);
    RunCloseTop(ls, 2, m1, 0, List);
    RunOpenTop(ls, 3, m1, List, y);
    RunCloseTop(ls, 4, m2, 1, List);
    RunCloseModule(ls, 5, m2);
    assert ls[..6] == ls;
    assert m2.nodes == [NewNode(x, List), NewNode(y, List)] by {
      assert m1.nodes == [NewNode(x, List)];
    }
  }

  /**
   * Sibling order: two blocks at the same level, each closed on its own line,
   * become two top-level nodes in file order, with nothing nested.
   */
  lemma SiblingsInFileOrder(m: string, x: string, y: string)
    requires Token(m) && Token(x) && Token(y)
    ensures Parse(SiblingFile(m, x, y)) ==
      Some(YangModule(m, None, None, [YangNode(x, List, None, None, false, []), YangNode(y, List, None, None, false, [])], []))
  {
    SiblingLine0(m, x, y);
    SiblingOpen(m, x, y, 1);
    SiblingOpen(m, x, y, 3);
    SiblingClose(m, x, y, 2);
    SiblingClose(m, x, y, 4);
    SiblingClose(m, x, y, 5);
    SiblingRun(m, x, y, LexAll(SiblingFile(m, x, y)));
  }

  /** The same two blocks, each opened and closed on one line. */
  function OneLineFile(m: string, x: string, y: string): seq<string>
  {
    [ BraceText("module", m),
      Indent(1) + BraceText("list", x) + "}",
      Indent(1) + BraceText("list", y) + "}",
      "}" ]
  }

  lemma OneLineLine0(m: string, x: string, y: string)
    requires Token(m)
    ensures var ls := LexAll(OneLineFile(m, x, y));
      |ls| == 4 && !ls[0].skipped && ls[0].moduleName == Some(m)
  {
    assert OneLineFile(m, x, y)[0] == BraceText("module", m);
    LexModuleLine(m);
  }

  lemma OneLineOpen(m: string, x: string, y: string, i: nat)
    requires Token(x) && Token(y) && (i == 1 || i == 2)
    ensures var ls := LexAll(OneLineFile(m, x, y));
      |ls| == 4 && !ls[i].skipped && ls[i].statement == Open(List, if i == 1 then x else y)
  {
    var name := if i == 1 then x else y;
    assert OneLineFile(m, x, y)[i] == Indent(1) + BraceText(KindName(List), name) + ['}'];
    LexOpenLine(1, List, name, ['}']);
  }

  lemma OneLineClose(m: string, x: string, y: string)
    ensures var ls := LexAll(OneLineFile(m, x, y));
      |ls| == 4 && !ls[3].skipped && ls[3].statement == Close
  {
    assert OneLineFile(m, x, y)[3] == Indent(0) + "}";
    LexCloseLine(0);
  }

  /** The run over what the parser reads on the lines of `OneLineFile`. */
  lemma OneLineRun(m: string, x: string, y: string, ls: seq<ReadLine>)
    requires x != [] && y != [] && |ls| == 4
    requires !ls[0].skipped && ls[0].moduleName == Some(m)
    requires !ls[1].skipped && ls[1].statement == Open(List, x)
    requires !ls[2].skipped && ls[2].statement == Open(List, y)
    requires !ls[3].skipped && ls[3].statement == Close
    ensures Run(ls).yangModule == Some(NewModule(m).AddNode(NewNode(x, List).AddChild(NewNode(y, List))))
  {
    var mod := NewModule(m).AddNode(NewNode(x, List).AddChild(NewNode(y, List)));
    RunModuleLine(ls, m);
    RunOpenTop(ls, 1, NewModule(m), List, x);
    RunOpenUnderFirst(ls, 2, m, List, x, List, y);
    RunCloseChild(ls, 3, mod, List, List);
    assert ls[..4] == ls;
  }

  /**
   * A block opened and closed on one line is not closed: the closing brace
   * is not alone on its line, so the next block becomes its child.
   */
  lemma OneLineBlocksNest(m: string, x: string, y: string)
    requires Token(m) && Token(x) && Token(y)
    ensures Parse(OneLineFile(m, x, y)) ==
      Some(YangModule(m, None, None, [YangNode(x, List, None, None, false, [YangNode(y, List, None, None, false, [])])], []))
  {
    OneLineLine0(m, x, y);
    OneLineOpen(m, x, y, 1);
    OneLineOpen(m, x, y, 2);
    OneLineClose(m, x, y);
    OneLineRun(m, x, y, LexAll(OneLineFile(m, x, y)));
  }

  /**
   * A whole module written on one line: the line creates the module and
   * nothing else, since the statements after its brace are never looked at.
   */
  lemma ModuleOnOneLine(m: string, rest: string)
    requires Token(m) && (rest == [] || !IsTrimmed(rest[|rest| - 1]))
    ensures Parse([BraceText("module", m) + rest]) == Some(YangModule(m, None, None, [], []))
  {
    LexModuleLineWith(m, rest);
    ModuleLineRun(LexAll([BraceText("module", m) + rest]), m);
  }

  /** The run over a single module line. */
  lemma ModuleLineRun(ls: seq<ReadLine>, m: string)
    requires |ls| == 1 && !ls[0].skipped && ls[0].moduleName == Some(m)
    ensures Run(ls).yangModule == Some(NewModule(m))
  {
    assert ls[..|ls| - 1] == [];
    StepBeforeModule(Initial, ls[0]);
  }

  /** A module line with any text after its brace is read as the module declaration. */
  lemma LexModuleLineWith(m: string, rest: string)
    requires Token(m) && (rest == [] || !IsTrimmed(rest[|rest| - 1]))
    ensures var l := Lex(BraceText("module", m) + rest);
      !l.skipped && l.moduleName == Some(m)
  {
    var line := BraceText("module", m) + rest;
    assert Token("module");
    assert line[0] == "module"[0];
    assert !IsTrimmed(line[|line| - 1]) by {
      if rest == [] {
        assert line[|line| - 1] == '{';
      }
    }
    LexIndented([], line);
    assert [] + line == line;
    BraceLine("module", m, rest);
  }
}
