# YangValidator core, modelled in Dafny

YangValidator is a small Java tool for a subset of YANG (RFC 7950). This project models four things from it:

- **The parser, `YangParser.parseYangFile`.** It reads a schema file one trimmed line at a time and builds a `YangModule` tree of `YangNode`s. Each line is dispatched to the first of eleven anchored regular expressions that matches it. The patterns cover `module`, `namespace`, `prefix`, `import`, `container`, `leaf`, `leaf-list`, `list`, `type`, `mandatory` and `description`. Nesting is tracked with two stacks: a stack of open nodes and a stack of brace tags.
- **The structural check, `YangParser.validateSyntax`.** It makes one scan of the file with a running brace count and a "module seen" flag, and warns about possibly misplaced semicolons.
- **The JSON dump, `JsonConverter.convertToJson` and `convertNodeToJson`.**
- **The two records, `model.YangNode` and `model.YangModule`.**

## Modules

| file | module | models |
|---|---|---|
| `wrappers.dfy` | `Wrappers` | `Option`; Java's `null` is `None` |
| `java_text.dfy` | `JavaText` | `String.trim` (strips every character `<= ' '`), `startsWith`/`endsWith`, the regular-expression classes `\s` and `\S` |
| `yang_model.dfy` | `YangModel` | the two records: constructors, setters, `addChild`, `addNode`, `addImport` |
| `yang_patterns.dfy` | `YangPatterns` | the eleven `Pattern` constants as recognizers, and the first-match-wins dispatch as `Classify` |
| `node_paths.dfy` | `NodePaths` | the open-node stack as a path of child positions, and the in-place edit through `nodeStack.peek()` |
| `yang_parser.dfy` | `YangParser` | `parseYangFile`: the line transition `Step`, the fold `Run`/`Parse`, and the loop `ParseYangFile` proved equal to them |
| `syntax_check.dfy` | `SyntaxCheck` | `validateSyntax`: `Validate`/`FileWarnings`, and the loop `ValidateSyntax` proved equal to them |
| `json_converter.dfy` | `JsonConverter` | the JSON mapping, a reader for it, and the round trip |
| `statement_lines.dfy` | `StatementLines` | each statement, written in the usual form, is recognized by its own pattern |
| `parse_scenarios.dfy` | `ParseScenarios` | whole files: nesting, sibling order, and one-line blocks |

**Recognizers.** Each `Pattern` is used with `find()` and is anchored only at the start of the line. The recognizers follow the regular expressions exactly:

- `\s*KEYWORD\s+` is `AfterKeyword`. It applies exactly when `Leads` holds: after the leading spaces come the keyword and a space.
- `(\S+)\s*\{` and `(\S+)\s*;` are `Argument`. This is the greedy capture: the longest run of non-space characters such that the terminator follows after optional spaces. So `container a{` captures `a`, and `container a{b{` captures `a{b`.
- `"([^"]+)"\s*;` is `Quoted`.
- `(true|false)\s*;` is `BoolArgument`.
- Text after the terminator is ignored.
- A pattern that matches has the line's first word as its keyword (`LeadingWord`). So no two of the eleven patterns match the same line (`PatternsExclusive`), and the order in which `parseYangFile` tries them never decides the outcome (`ClassifyMeaning`).

**The open-node stack.** In Java, the stack holds references to nodes that are also reachable from the module, so `nodeStack.peek().addChild(...)` updates the tree in place. In the model, the tree is a value. The stack is a path of child positions from `module.nodes` down to the innermost open node. `UpdateAt` rebuilds the nodes along that path. `Inv` holds after every line, and it states four things:

- before the module line, both stacks are empty;
- the number of node tags on the brace stack equals the path's length;
- the path is the spine of the tree: each position is the last child at its level;
- no node in the tree has an empty description or data type (`AllCanonical`).

**Behaviour of the code that is easy to miss:**

- **Syntax check order.** After the scan, the missing-module error is thrown first (`YangParser.java:202-204`) and the unbalanced-braces error only after it (`YangParser.java:206-208`). So a file with neither a module line nor balanced braces gets the module error (`SyntaxCheck.Verdict`, `SyntaxCheck.ValidateMeaning`).
- **A module on one line.** Once the module pattern has matched a line, that line is done (`YangParser.java:41-47`), so nothing else on it is read. The line `module m { container a { leaf b { type string; } } }` gives a module with no nodes (`ParseScenarios.ModuleOnOneLine`). With one statement per line, the same text gives a container holding a typed leaf (`ParseScenarios.NestedContainerAndLeaf`).
- **One-line blocks.** A `}` closes a block only when it is the whole trimmed line (`YangParser.java:153-163`). So `list x {}` followed by `list y {}` puts `y` inside `x` (`ParseScenarios.OneLineBlocksNest`). With the closing braces on lines of their own, the two nodes are siblings in file order (`ParseScenarios.SiblingsInFileOrder`).
- **Closing an unrecognized block.** An opening line no pattern recognizes pushes nothing (`YangParser.java:52-151`). For example, `revision x {` inside a container pushes nothing, so its `}` pops the enclosing container (`YangParser.CloseStatement`, `YangParser.UnrecognizedLine`).

## Model

| member | source | states |
|---|---|---|
| YangModel.KindName | wipro/YangValidator/src/YangParser.java:77-126 | the string a node statement stores as the node's type (the kind itself is pushed as the brace tag `NodeTag(kind)`) reads back to its kind, so the four kinds have four distinct strings |
| YangModel.NewNode | wipro/YangValidator/src/model/YangNode.java:14-18 | a new node has the given name and kind, no children, `mandatory` false, and no description or data type |
| YangModel.YangNode.SetDescription | wipro/YangValidator/src/model/YangNode.java:28 | sets the description; every other field and the children are unchanged |
| YangModel.YangNode.AddChild | wipro/YangValidator/src/model/YangNode.java:31 | appends exactly one child at the end; earlier children, their order and every other field are unchanged |
| YangModel.YangNode.SetMandatory | wipro/YangValidator/src/model/YangNode.java:34 | sets the mandatory flag; every other field and the children are unchanged |
| YangModel.YangNode.SetDataType | wipro/YangValidator/src/model/YangNode.java:37 | sets the data type; every other field and the children are unchanged |
| YangModel.NewModule | wipro/YangValidator/src/model/YangModule.java:13-17 | a new module has the given name, no namespace or prefix, and no nodes or imports |
| YangModel.YangModule.SetNamespace | wipro/YangValidator/src/model/YangModule.java:24 | sets the namespace only |
| YangModel.YangModule.SetPrefix | wipro/YangValidator/src/model/YangModule.java:27 | sets the prefix only |
| YangModel.YangModule.AddNode | wipro/YangValidator/src/model/YangModule.java:30 | appends exactly one node at the end; earlier nodes, the imports and the other fields are unchanged |
| YangModel.YangModule.AddImport | wipro/YangValidator/src/model/YangModule.java:33 | appends exactly one import at the end (duplicates allowed); the nodes and the other fields are unchanged |
| JavaText.Trim | wipro/YangValidator/src/YangParser.java:34 | the result starts and ends with a character above U+0020; it is empty exactly when every character is at most U+0020; otherwise it is the slice between the trimmed margins |
| JavaText.TrimIdempotent | wipro/YangValidator/src/YangParser.java:34 | trimming twice is trimming once |
| JavaText.TrimMargins | wipro/YangValidator/src/YangParser.java:34 | indentation and trailing blanks around a line are removed, and nothing else is |
| YangPatterns.AfterKeyword | wipro/YangValidator/src/YangParser.java:11-21 | the keyword prefix `^\s*KEYWORD\s+` of every pattern matches exactly when, after the leading spaces, the keyword is followed by a space |
| YangPatterns.LeadsWord | wipro/YangValidator/src/YangParser.java:11-21 | a keyword without spaces that leads a line is that line's first word |
| YangPatterns.KeywordBrace | wipro/YangValidator/src/YangParser.java:11 | `^\s*KEYWORD\s+(\S+)\s*\{` captures a non-empty word without spaces at the start of the text after the keyword, followed after optional spaces by `{` |
| YangPatterns.KeywordSemicolon | wipro/YangValidator/src/YangParser.java:13 | `^\s*KEYWORD\s+(\S+)\s*;` captures a non-empty word without spaces at the start of the text after the keyword, followed after optional spaces by `;` |
| YangPatterns.KeywordArgumentMeaning | wipro/YangValidator/src/YangParser.java:11-19 | the word patterns match exactly when the keyword leads the line and some capture length lets `(\S+)\s*{` (or `;`) match the rest, and then capture the longest such word |
| YangPatterns.KeywordQuoted | wipro/YangValidator/src/YangParser.java:12 | `^\s*KEYWORD\s+"([^"]+)"\s*;` captures a non-empty text without `"`, enclosed in quotes right after the keyword and followed after optional spaces by `;` |
| YangPatterns.MatchModule | wipro/YangValidator/src/YangParser.java:11 | the module pattern matches only a line whose first word is `module`, and its capture is non-empty |
| YangPatterns.MatchNamespace | wipro/YangValidator/src/YangParser.java:12 | the namespace pattern matches only a line whose first word is `namespace`; the URI is non-empty and has no `"` |
| YangPatterns.MatchPrefix | wipro/YangValidator/src/YangParser.java:13 | the prefix pattern matches only a line whose first word is `prefix`, and its capture is non-empty |
| YangPatterns.MatchImport | wipro/YangValidator/src/YangParser.java:14 | the import pattern matches only a line whose first word is `import`, and its capture is non-empty |
| YangPatterns.MatchKind | wipro/YangValidator/src/YangParser.java:15-18 | the container, leaf, leaf-list and list patterns each match only a line whose first word is that kind's keyword, and the captured name is non-empty |
| YangPatterns.MatchType | wipro/YangValidator/src/YangParser.java:19 | the type pattern matches only a line whose first word is `type`, and its capture is non-empty |
| YangPatterns.MatchMandatory | wipro/YangValidator/src/YangParser.java:20 | the mandatory pattern matches only a line whose first word is `mandatory`; the flag is true exactly for `true` and false exactly for `false`, each followed after optional spaces by `;` |
| YangPatterns.MatchDescription | wipro/YangValidator/src/YangParser.java:21 | the description pattern matches only a line whose first word is `description`; the text is non-empty and has no `"` |
| YangPatterns.PatternsExclusive | wipro/YangValidator/src/YangParser.java:11-21 | each pattern that matches a line rules out every pattern tried after it, so at most one of the eleven matches |
| YangPatterns.Argument | wipro/YangValidator/src/YangParser.java:11-19 | the capture of `(\S+)\s*TERM` is the longest non-space prefix followed, after spaces, by the terminator; there is none exactly when no length works |
| YangPatterns.ArgumentExact | wipro/YangValidator/src/YangParser.java:15 | a word, at least one space and the terminator capture exactly the word |
| YangPatterns.ArgumentGlued | wipro/YangValidator/src/YangParser.java:15 | a word glued to its terminator is captured, and the capture begins with the whole word |
| YangPatterns.Quoted | wipro/YangValidator/src/YangParser.java:12 | a quoted capture is non-empty, has no `"`, is enclosed in quotes in the line and is followed by `;` |
| YangPatterns.QuotedComplete | wipro/YangValidator/src/YangParser.java:21 | any non-empty text without `"`, in quotes and followed by spaces and `;`, is captured whole |
| YangPatterns.BoolArgument | wipro/YangValidator/src/YangParser.java:20 | `true` or `false`, followed by spaces and `;`, gives that value, and nothing else gives a value |
| YangPatterns.LeafListIsNotLeaf | wipro/YangValidator/src/YangParser.java:16-17 | a line that the `leaf-list` pattern matches is never matched by the `leaf` pattern |
| YangPatterns.AfterKeywordShape | wipro/YangValidator/src/YangParser.java:11-21 | after a keyword match, the keyword sits right after the leading spaces, at least one space and nothing but spaces follow it, and the remaining text is the rest of the line from its next non-space character |
| YangPatterns.ClosingBraceMatchesNoPattern | wipro/YangValidator/src/YangParser.java:153-154 | a bare `}` matches none of the eleven patterns, so it reaches the closing-brace branch |
| YangPatterns.Classify | wipro/YangValidator/src/YangParser.java:52-163 | the dispatch says "close" exactly for the line `}`; a node statement's name, a type and a description are the captures of their own patterns (a description is non-empty, without `"`) |
| YangPatterns.ClassifyNode | wipro/YangValidator/src/YangParser.java:74-163 | the same guarantees for the node-pattern stage of the dispatch |
| YangPatterns.ClassifyAttribute | wipro/YangValidator/src/YangParser.java:130-163 | the same guarantees for the attribute and closing-brace stage |
| YangPatterns.ClassifyMeaning | wipro/YangValidator/src/YangParser.java:52-163 | whichever of the ten statement patterns matches decides the statement, with the value it captured; a line none of them matches is a closing brace exactly when it is `}`, and is ignored otherwise |
| YangPatterns.ClassifyNodeMeaning | wipro/YangValidator/src/YangParser.java:74-163 | the same for the stage after namespace, prefix and import: whichever node or attribute pattern matches decides the statement |
| YangPatterns.ClassifyAttributeMeaning | wipro/YangValidator/src/YangParser.java:130-163 | the same for the last stage: whichever of type, mandatory and description matches decides the statement; otherwise `}` closes and any other line is ignored |
| YangPatterns.ClassifyLeafList | wipro/YangValidator/src/YangParser.java:102-114 | a `leaf-list` line that no earlier pattern takes opens a leaf-list node with its captured name |
| NodePaths.Apply | wipro/YangValidator/src/YangParser.java:131-151 | an edit of one node keeps its name and kind, and keeps its existing children as a prefix of the new ones |
| NodePaths.UpdateAt | wipro/YangValidator/src/YangParser.java:131-151 | editing the node at a path replaces exactly that node by its edited version; the other top-level nodes are unchanged |
| NodePaths.UpdateAtFrame | wipro/YangValidator/src/YangParser.java:78-83 | an edit through the open path leaves every node off that path unchanged |
| NodePaths.UpdateAtAncestors | wipro/YangValidator/src/YangParser.java:78-83 | an edit through the open path leaves each strict ancestor of the edited node with its own fields and its number of children; only the child on the path changes |
| NodePaths.UpdateAtChangesOnlyAlong | wipro/YangValidator/src/YangParser.java:131-151 | an edit through the open path leaves every node off the path unchanged, and each ancestor of the edited node unchanged except in its child on the path |
| NodePaths.IsSpine | wipro/YangValidator/src/YangParser.java:78-83 | a spine, a path of last children, is a valid path in the tree |
| NodePaths.SpinePrefix | wipro/YangValidator/src/YangParser.java:154-161 | popping the open-node path keeps it a spine |
| NodePaths.SpineAfterUpdate | wipro/YangValidator/src/YangParser.java:131-151 | editing the innermost open node keeps the path a spine |
| NodePaths.SpineExtend | wipro/YangValidator/src/YangParser.java:78-83 | pushing the last child of the innermost open node extends the spine, and the path then reaches that child |
| NodePaths.UpdateAtCanonical | wipro/YangValidator/src/YangParser.java:131-151 | edits the parser makes never introduce an empty description or data type |
| YangParser.OpenNode | wipro/YangValidator/src/YangParser.java:74-128 | opening a node keeps the two-stack invariant |
| YangParser.EditTop | wipro/YangValidator/src/YangParser.java:131-151 | setting a field of the innermost open node keeps the invariant |
| YangParser.CloseBrace | wipro/YangValidator/src/YangParser.java:153-163 | the closing-brace step keeps the invariant |
| YangParser.Transition | wipro/YangValidator/src/YangParser.java:52-163 | every statement keeps the invariant and the module name |
| YangParser.Lex | wipro/YangValidator/src/YangParser.java:34-50 | a line is skipped exactly when it trims to empty or a `//` comment; it declares a module exactly when the module pattern matches the trimmed line |
| YangParser.LexAll | wipro/YangValidator/src/YangParser.java:32-34 | every physical line is read, in order |
| YangParser.Step | wipro/YangValidator/src/YangParser.java:34-163 | one line keeps the invariant (tag count equals path length; the path is the spine) |
| YangParser.Run | wipro/YangValidator/src/YangParser.java:32-164 | the invariant holds after every prefix of the file |
| YangParser.Handle | wipro/YangValidator/src/YangParser.java:52-163 | the imperative dispatch on the module and the two stacks computes exactly the transition |
| YangParser.ParseLine | wipro/YangValidator/src/YangParser.java:34-163 | the loop body on one raw line computes exactly the step |
| YangParser.ParseYangFile | wipro/YangValidator/src/YangParser.java:23-168 | the loop over the lines returns exactly the parse of the file |
| YangParser.LexStep | wipro/YangValidator/src/YangParser.java:36-50 | skipped lines change nothing; before the module, only a module line acts; after it, the line goes through the dispatch |
| YangParser.StepBeforeModule | wipro/YangValidator/src/YangParser.java:41-50 | before the module, a module line creates the module and pushes `module`, and any other line changes nothing |
| YangParser.StepKeepsModuleName | wipro/YangValidator/src/YangParser.java:41-50 | once there is a module, no line removes it or changes its name |
| YangParser.PreambleIgnored | wipro/YangValidator/src/YangParser.java:41-50 | lines before the first module line leave the parser in its initial state |
| YangParser.RunKeepsModuleName | wipro/YangValidator/src/YangParser.java:41-50 | the module pattern is never retried, so later lines keep the module's name |
| YangParser.RunIsNoneIff | wipro/YangValidator/src/YangParser.java:24-50 | there is no module exactly when no read line declares one |
| YangParser.ParseIsNoneIff | wipro/YangValidator/src/YangParser.java:36-50 | the parse returns null exactly when no line matches the module pattern once trimmed, after skipped lines are left out |
| YangParser.RunNameFromFirstModuleLine | wipro/YangValidator/src/YangParser.java:41-48 | the module's name is the one captured on the first module line |
| YangParser.ParseNameFromFirstModuleLine | wipro/YangValidator/src/YangParser.java:41-48 | the same, for the file's raw lines |
| YangParser.NamespaceAndPrefix | wipro/YangValidator/src/YangParser.java:52-64 | `namespace` and `prefix` overwrite their own module field only (last write wins) and move neither stack |
| YangParser.ImportStatement | wipro/YangValidator/src/YangParser.java:66-72 | `import` appends its identifier, pushes `import` on the brace stack and leaves the node stack alone |
| YangParser.OpenAtTopLevel | wipro/YangValidator/src/YangParser.java:74-128 | with no open node, a node statement appends a new node to the module and pushes it on both stacks |
| YangParser.OpenNested | wipro/YangValidator/src/YangParser.java:74-128 | inside an open node, a node statement appends the new node as the last child of the innermost open node and pushes it on both stacks; the module's own fields, the open node's other fields, its ancestors' fields and every node off the open path are unchanged |
| YangParser.AttributeStatements | wipro/YangValidator/src/YangParser.java:130-151 | `type`, `mandatory` and `description` overwrite one field of the innermost open node and move neither stack; the module's own fields, the ancestors' fields and every node off the open path are unchanged; with no open node they are ignored |
| YangParser.CloseStatement | wipro/YangValidator/src/YangParser.java:153-163 | `}` pops the brace stack if it is non-empty, and otherwise does nothing; it pops the node stack exactly when the popped tag is a node kind |
| YangParser.UnrecognizedLine | wipro/YangValidator/src/YangParser.java:52-163 | a line that no pattern matches changes neither the tree nor the stacks |
| SyntaxCheck.Message | wipro/YangValidator/src/YangParser.java:202-208 | each error has its own message, starting "No module" or "Unbalanced braces" |
| SyntaxCheck.BraceDeltaIsCountDifference | wipro/YangValidator/src/YangParser.java:186-189 | a line's brace change is its number of `{` minus its number of `}` |
| SyntaxCheck.Scan | wipro/YangValidator/src/YangParser.java:179-194 | a line is skipped exactly when it trims to empty or `//`; it declares a module exactly when the module pattern matches |
| SyntaxCheck.BalanceAppend | wipro/YangValidator/src/YangParser.java:186-189 | the brace count of a file is the sum over its parts |
| SyntaxCheck.MisplacedIff | wipro/YangValidator/src/YangParser.java:197 | the semicolon test holds exactly when the line has a `;` and does not end with one (the `;;` clause never changes the outcome) |
| SyntaxCheck.WarningsIncreasing | wipro/YangValidator/src/YangParser.java:197-199 | warnings are physical line numbers between 1 and the line count, strictly increasing |
| SyntaxCheck.WarningsExactly | wipro/YangValidator/src/YangParser.java:197-199 | line n is warned about exactly when the line is not skipped and its semicolon test holds |
| SyntaxCheck.HasModuleLineIff | wipro/YangValidator/src/YangParser.java:192-194 | the "module seen" flag is set exactly when some line declares a module |
| SyntaxCheck.FileWarningsExactly | wipro/YangValidator/src/YangParser.java:177-199 | the same, for the file's raw lines, numbered with skipped lines included |
| SyntaxCheck.Verdict | wipro/YangValidator/src/YangParser.java:202-208 | no module gives the module error; otherwise a non-zero brace count gives the brace error; otherwise success, and each outcome has both directions |
| SyntaxCheck.ValidateMeaning | wipro/YangValidator/src/YangParser.java:177-208 | the three outcomes for a file, in terms of its raw lines |
| SyntaxCheck.NoModuleIffParseFails | wipro/YangValidator/src/YangParser.java:202-204 | the check reports no module exactly when the parser returns null |
| SyntaxCheck.CountBraces | wipro/YangValidator/src/YangParser.java:186-189 | the character loop adds the line's brace change to the running count |
| SyntaxCheck.CheckLine | wipro/YangValidator/src/YangParser.java:178-199 | one pass of the loop body updates the count, the flag and the warnings as the scan says |
| SyntaxCheck.ValidateSyntax | wipro/YangValidator/src/YangParser.java:170-212 | the loop reports exactly the verdict and exactly the warnings |
| JsonConverter.NodeToJson | wipro/YangValidator/src/JsonConverter.java:47-72 | the node object has the keys name, type and mandatory; description and data-type exactly when non-null and non-empty; children exactly when there are any, converted in order |
| JsonConverter.ConvertToJson | wipro/YangValidator/src/JsonConverter.java:11-45 | the module object has the keys module and nodes; namespace and prefix exactly when set; imports exactly when non-empty, in order; node i is the conversion of node i |
| JsonConverter.OneObjectPerNode | wipro/YangValidator/src/JsonConverter.java:63-69 | the conversion emits exactly one object per node of the tree |
| JsonConverter.NonEmpty | wipro/YangValidator/src/JsonConverter.java:52-58 | a written text is kept, and an empty one is never produced |
| JsonConverter.Normalize | wipro/YangValidator/src/JsonConverter.java:52-58 | identifying empty texts with null keeps the name, kind, flag and number of children, and leaves no empty text |
| JsonConverter.NormalizeCanonical | wipro/YangValidator/src/JsonConverter.java:52-58 | a tree without empty texts is unchanged by that identification |
| JsonConverter.NodeRoundTrip | wipro/YangValidator/src/JsonConverter.java:47-72 | reading a node's JSON back gives the node, with an empty description or data type read as null |
| JsonConverter.NodeToJsonNormalize | wipro/YangValidator/src/JsonConverter.java:52-58 | the JSON form does not distinguish an empty text from null |
| JsonConverter.NodeToJsonIdentifies | wipro/YangValidator/src/JsonConverter.java:47-72 | two nodes have the same JSON form exactly when they agree up to empty texts |
| JsonConverter.ModuleRoundTrip | wipro/YangValidator/src/JsonConverter.java:11-45 | reading a module's JSON back gives the module, up to empty texts in its nodes |
| JsonConverter.CanonicalModuleRoundTrip | wipro/YangValidator/src/JsonConverter.java:11-72 | a module without empty texts is recovered exactly from its JSON form |
| JsonConverter.ParsedModuleRoundTrip | wipro/YangValidator/src/JsonConverter.java:11-72 | a module the parser returns is recovered exactly from its JSON form |
| StatementLines.AfterKeywordCanonical | wipro/YangValidator/src/YangParser.java:11-21 | a keyword, one space and a remainder match the keyword prefix and leave exactly the remainder |
| StatementLines.BraceLine | wipro/YangValidator/src/YangParser.java:11-18 | `KEYWORD ARG {`, whatever follows, captures exactly ARG |
| StatementLines.SemicolonLine | wipro/YangValidator/src/YangParser.java:13-19 | `KEYWORD ARG;` captures exactly ARG |
| StatementLines.QuotedLine | wipro/YangValidator/src/YangParser.java:12-21 | `KEYWORD "TEXT";` captures exactly TEXT |
| StatementLines.ClassifyNamespaceLine | wipro/YangValidator/src/YangParser.java:52-57 | a namespace line is dispatched as a namespace with its URI |
| StatementLines.ClassifyPrefixLine | wipro/YangValidator/src/YangParser.java:59-64 | a prefix line is dispatched as a prefix |
| StatementLines.ClassifyImportLine | wipro/YangValidator/src/YangParser.java:66-72 | an import line is dispatched as an import |
| StatementLines.ClassifyOpenLine | wipro/YangValidator/src/YangParser.java:74-128 | a node line of each kind is dispatched as opening a node of that kind and name, whatever follows the brace |
| StatementLines.ClassifyTypeLine | wipro/YangValidator/src/YangParser.java:130-136 | a type line is dispatched as a data type |
| StatementLines.ClassifyMandatoryLine | wipro/YangValidator/src/YangParser.java:138-143 | `mandatory true;` and `mandatory false;` are dispatched with their value |
| StatementLines.ClassifyDescriptionLine | wipro/YangValidator/src/YangParser.java:145-150 | a description line is dispatched with its text |
| ParseScenarios.LexIndented | wipro/YangValidator/src/YangParser.java:34-38 | indentation does not change how a line is read |
| ParseScenarios.LexOpenLine | wipro/YangValidator/src/YangParser.java:74-128 | an indented node line, with or without a `}` glued after its brace, opens that node |
| ParseScenarios.LexModuleLineWith | wipro/YangValidator/src/YangParser.java:41-48 | a module line declares the module whatever follows its brace |
| ParseScenarios.RunModuleLine | wipro/YangValidator/src/YangParser.java:41-48 | a first module line gives an empty module and the brace stack `module` |
| ParseScenarios.RunOpenTop | wipro/YangValidator/src/YangParser.java:74-128 | a node line at module level appends a top-level node and opens it |
| ParseScenarios.RunOpenUnderFirst | wipro/YangValidator/src/YangParser.java:74-128 | a node line inside the first top-level node adds it as that node's child and opens it |
| ParseScenarios.RunTypeOfChild | wipro/YangValidator/src/YangParser.java:130-136 | a type line sets the data type of the open child |
| ParseScenarios.RunCloseChild | wipro/YangValidator/src/YangParser.java:153-163 | `}` closes the inner node and leaves its parent open |
| ParseScenarios.RunCloseTop | wipro/YangValidator/src/YangParser.java:153-163 | `}` closes a top-level node |
| ParseScenarios.RunCloseModule | wipro/YangValidator/src/YangParser.java:153-163 | `}` closes the module and leaves the tree unchanged |
| ParseScenarios.NestingRun | wipro/YangValidator/src/YangParser.java:23-168 | the seven lines of a container holding a typed leaf build that tree |
| ParseScenarios.NestedContainerAndLeaf | wipro/YangValidator/src/YangParser.java:23-168 | the nesting example, one statement per line, parses to one container with one leaf child that has the data type |
| ParseScenarios.SiblingRun | wipro/YangValidator/src/YangParser.java:23-168 | two list blocks, each closed on its own line, become two top-level nodes |
| ParseScenarios.SiblingsInFileOrder | wipro/YangValidator/src/YangParser.java:23-168 | sibling lists are kept in file order |
| ParseScenarios.OneLineRun | wipro/YangValidator/src/YangParser.java:23-168 | two `list X {}` lines and a `}` build the second list inside the first |
| ParseScenarios.OneLineBlocksNest | wipro/YangValidator/src/YangParser.java:153-163 | a block opened and closed on one line stays open, so the next block nests inside it |
| ParseScenarios.ModuleLineRun | wipro/YangValidator/src/YangParser.java:41-48 | a file with a single module line gives the empty module |
| ParseScenarios.ModuleOnOneLine | wipro/YangValidator/src/YangParser.java:41-50 | a whole module written on one line parses to a module with no nodes |

## Left out

- **In-place update and aliasing.** `YangNode` and `YangModule` are mutable Java classes. In the model they are immutable values, and each setter and `add` method returns the updated record. The parser's node stack aliases nodes inside the tree. Here it is a path of positions, and `NodePaths.UpdateAt` rebuilds the path's nodes. `NodePaths.UpdateAtChangesOnlyAlong`, `YangParser.OpenNested` and `YangParser.AttributeStatements` state what such an update changes: the innermost open node gets the edit; each of its ancestors keeps its own fields and number of children, and changes only in the child on the path; every node off the path and the module's own fields stay as they were. The model does not capture object identity. For example, it says nothing about a caller keeping a reference to a node and seeing it change later.
- **File input.** `parseYangFile` and `validateSyntax` take a path and read it with a `BufferedReader`. The model takes the file's lines. `IOException` from reading is not modelled. The two errors `validateSyntax` throws are the `SyntaxError` result.
- **Printing.** The console output of `validateSyntax` is not modelled. The warnings are returned as line numbers instead, and the success line is not modelled.
- **Not modelled from `JsonConverter`.** This covers `saveJsonToFile` (directory creation and file writing), `convertToJsonString` and the `org.json` text rendering, including its key order. Objects are maps, so key order is not part of the model.
- **JsonConverter.ConvertToJson: the `RuntimeException` wrapper is left out.** No modelled input makes the conversion fail, so the model has no error path.
- **The Java regular-expression engine.** It is replaced by recognizers that follow each pattern.
- YangPatterns.Classify: its own contract gives only the closing-brace case and the captures behind a node, type or description statement. The full dispatch is stated by `YangPatterns.ClassifyMeaning` (and `ClassifyNodeMeaning`, `ClassifyAttributeMeaning` for the two later stages). It is kept out of the function's contract so that every proof that mentions `Classify` stays small.
- **`setName`, `setType`, the getters and the two `toString` methods.** The parser never calls them. The unused `lineNumber` counter of `parseYangFile` is also left out.
- **SyntaxCheck.CountBraces: the count is an unbounded integer.** The Java `int` would wrap only after more than 2^31 braces.
- **The ParseScenarios lemmas are stated for one layout.** That layout is two-space indentation, one statement per line, and identifier-like names (`StatementLines.Token`). The general behaviour of each line is stated by the `YangParser` lemmas.
- `YangValidator.java` (the interactive menu, the tree printer and path handling) and `Main.java` (directory setup) are not part of this model.
