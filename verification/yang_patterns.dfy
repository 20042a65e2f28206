/**
 * The eleven statement patterns of the parser, each written as a recognizer on
 * one line instead of a `java.util.regex.Pattern`. Every pattern is used with
 * `find()` and is anchored only at the start of the line, so whatever follows
 * the closing `{` or `;` is ignored.
 *
 * The keyword patterns have the shape `^\s*KEYWORD\s+(\S+)\s*T` for a
 * terminator `T` (`{` or `;`). The capture `\S+` is greedy and backtracks: it
 * is the LONGEST prefix of the word after the keyword that is followed, after
 * optional spaces, by `T` (`container a{` captures `a`).
 */
module YangPatterns {
  import opened Wrappers
  import opened JavaText
  import opened YangModel

  /** `^\s*KEYWORD\s`: after the leading spaces come the keyword and at least one space. */
  predicate Leads(line: string, keyword: string)
  {
    var p := Spaces(line);
    p + |keyword| < |line| && line[p..p + |keyword|] == keyword && IsSpace(line[p + |keyword|])
  }

  /**
   * `^\s*KEYWORD\s+`: the text after the keyword and the spaces that must
   * follow it. There is such a text exactly when the keyword leads the line.
   */
  function AfterKeyword(line: string, keyword: string): (r: Option<string>)
    requires keyword != []
    ensures r.Some? <==> Leads(line, keyword)
  {
    if Leads(line, keyword) then
      var t := line[Spaces(line) + |keyword|..];
      Some(t[Spaces(t)..])
    else
      None
  }

  /** The first word of a line: the run of non-spaces after the leading spaces. */
  function LeadingWord(line: string): string
  {
    var s := line[Spaces(line)..];
    s[..Word(s)]
  }

  /** A keyword without spaces that leads a line is the line's first word. */
  lemma LeadsWord(line: string, keyword: string)
    requires forall i :: 0 <= i < |keyword| ==> !IsSpace(keyword[i])
    ensures Leads(line, keyword) ==> LeadingWord(line) == keyword
  {
    if Leads(line, keyword) {
      var s := line[Spaces(line)..];
      assert s == keyword + s[|keyword|..];
      WordOfConcat(keyword, s[|keyword|..]);
    }
  }

  /** After position `k` of `s`, optional spaces and then the character `term`: `\s*T`. */
  predicate TermAfter(s: string, k: nat, term: char)
    requires k <= |s|
  {
    var p := k + Spaces(s[k..]);
    p < |s| && s[p] == term
  }

  /** `(\S+)\s*T` can match the start of `rest` with a capture of length `k`. */
  predicate CapturesWith(rest: string, k: nat, term: char)
  {
    1 <= k <= Word(rest) && TermAfter(rest, k, term)
  }

  /** The backtracking search of the greedy `\S+`, from length `k` down to 1. */
  function LongestCapture(rest: string, term: char, k: nat): (r: Option<string>)
    requires k <= Word(rest)
    ensures r.Some? ==> 1 <= |r.value| <= k && r.value == rest[..|r.value|]
    ensures r.Some? ==> CapturesWith(rest, |r.value|, term)
    ensures forall j :: (if r.Some? then |r.value| else 0) < j <= k ==> !CapturesWith(rest, j, term)
    decreases k
  {
    if k == 0 then None
    else if CapturesWith(rest, k, term) then Some(rest[..k])
    else LongestCapture(rest, term, k - 1)
  }

  /**
   * `(\S+)\s*T` at the start of `rest`: the capture is the longest one that
   * lets the pattern match, and there is none exactly when no length does.
   */
  function Argument(rest: string, term: char): (r: Option<string>)
    ensures r.Some? ==> 1 <= |r.value| <= |rest| && r.value == rest[..|r.value|]
    ensures r.Some? ==> forall i :: 0 <= i < |r.value| ==> !IsSpace(r.value[i])
    ensures r.Some? ==> CapturesWith(rest, |r.value|, term)
    ensures r.Some? ==> forall k :: |r.value| < k <= |rest| ==> !CapturesWith(rest, k, term)
    ensures r.None? <==> forall k :: 0 <= k <= |rest| ==> !CapturesWith(rest, k, term)
  {
    var r := LongestCapture(rest, term, Word(rest));
    assert r.Some? ==> |r.value| <= Word(rest) && forall i :: 0 <= i < |r.value| ==> r.value[i] == rest[i];
    r
  }

  /** An argument followed by spaces is captured exactly. */
  lemma {:induction false} ArgumentExact(name: string, gap: string, term: char, tail: string)
    requires name != [] && forall i :: 0 <= i < |name| ==> !IsSpace(name[i])
    requires gap != [] && forall i :: 0 <= i < |gap| ==> IsSpace(gap[i])
    requires !IsSpace(term)
    ensures Argument(name + gap + [term] + tail, term) == Some(name)
  {
    var s := name + gap + [term] + tail;
    WordOfConcat(name, gap + [term] + tail);
    assert s == name + (gap + [term] + tail);
    SpacesOfConcat(gap, [term] + tail);
    assert s[|name|..] == gap + ([term] + tail);
    assert CapturesWith(s, |name|, term);
  }

  /** A word glued to its terminator (`container a{`) is captured at least up to it. */
  lemma {:induction false} ArgumentGlued(name: string, term: char, tail: string)
    requires name != [] && forall i :: 0 <= i < |name| ==> !IsSpace(name[i])
    requires !IsSpace(term)
    ensures var r := Argument(name + [term] + tail, term);
            r.Some? && |r.value| >= |name| && r.value[..|name|] == name
  {
    var s := name + [term] + tail;
    WordAtLeast(s, |name| + 1);
    assert s[|name|..][0] == term;
    assert CapturesWith(s, |name|, term);
  }

  lemma {:induction false} WordOfConcat(w: string, t: string)
    requires forall i :: 0 <= i < |w| ==> !IsSpace(w[i])
    requires t != [] && IsSpace(t[0])
    ensures Word(w + t) == |w|
  {
    if w != [] {
      assert (w + t)[1..] == w[1..] + t;
      WordOfConcat(w[1..], t);
    } else {
      assert w + t == t;
    }
  }

  lemma {:induction false} WordAtLeast(s: string, n: nat)
    requires n <= |s| && forall i :: 0 <= i < n ==> !IsSpace(s[i])
    ensures Word(s) >= n
  {
    if n > 0 {
      WordAtLeast(s[1..], n - 1);
    }
  }

  lemma {:induction false} SpacesOfConcat(g: string, t: string)
    requires forall i :: 0 <= i < |g| ==> IsSpace(g[i])
    requires t != [] && !IsSpace(t[0])
    ensures Spaces(g + t) == |g|
  {
    if g != [] {
      assert (g + t)[1..] == g[1..] + t;
      SpacesOfConcat(g[1..], t);
    } else {
      assert g + t == t;
    }
  }

  /**
   * `"([^"]+)"\s*;` at the start of `rest`: a non-empty value with no quote
   * inside, between two quotes, then optional spaces and a semicolon.
   */
  function Quoted(rest: string): (r: Option<string>)
    ensures r.Some? ==> |r.value| > 0 && '"' !in r.value
    ensures r.Some? ==> |r.value| + 2 <= |rest| && rest[..|r.value| + 2] == ['"'] + r.value + ['"']
    ensures r.Some? ==> TermAfter(rest, |r.value| + 2, ';')
  {
    if rest != [] && rest[0] == '"' then
      var close := 1 + IndexOf(rest[1..], '"');
      if 1 < close < |rest| && TermAfter(rest, close + 1, ';') then
        var v := rest[1..close];
        assert forall k :: 0 <= k < |v| ==> v[k] == rest[1..][k];
        assert rest[..|v| + 2] == ['"'] + v + ['"'];
        Some(v)
      else None
    else None
  }

  /** Every well-formed quoted value is recognized, and recognized exactly. */
  lemma {:induction false} QuotedComplete(v: string, gap: string, tail: string)
    requires v != [] && '"' !in v
    requires forall i :: 0 <= i < |gap| ==> IsSpace(gap[i])
    ensures Quoted(['"'] + v + ['"'] + gap + [';'] + tail) == Some(v)
  {
    var s := ['"'] + v + ['"'] + gap + [';'] + tail;
    QuotedValue(v, gap + [';'] + tail);
    assert s == ['"'] + v + ['"'] + (gap + [';'] + tail);
    QuotedTerminator(v, gap, tail);
    QuotedAt(s, v);
  }

  /** The value between the quotes, up to the first closing quote. */
  lemma {:induction false} QuotedValue(v: string, after: string)
    requires '"' !in v
    ensures var s := ['"'] + v + ['"'] + after;
      s[0] == '"' && |v| + 1 < |s| && s[1..|v| + 1] == v && IndexOf(s[1..], '"') == |v|
  {
    var s := ['"'] + v + ['"'] + after;
    assert s[1..] == v + (['"'] + after);
    IndexOfConcat(v, ['"'] + after, '"');
  }

  /** Blanks after the closing quote, then the semicolon. */
  lemma {:induction false} QuotedTerminator(v: string, gap: string, tail: string)
    requires forall i :: 0 <= i < |gap| ==> IsSpace(gap[i])
    ensures TermAfter(['"'] + v + ['"'] + gap + [';'] + tail, |v| + 2, ';')
  {
    var s := ['"'] + v + ['"'] + gap + [';'] + tail;
    assert s[|v| + 2..] == gap + ([';'] + tail);
    SpacesOfConcat(gap, [';'] + tail);
  }

  /** The closing quote found, the semicolon after it: the text between the quotes is the value. */
  lemma QuotedAt(s: string, v: string)
    requires v != [] && |v| + 1 < |s| && s[0] == '"' && s[1..|v| + 1] == v
    requires IndexOf(s[1..], '"') == |v| && TermAfter(s, |v| + 2, ';')
    ensures Quoted(s) == Some(v)
  {
  }

  lemma {:induction false} IndexOfConcat(w: string, t: string, c: char)
    requires c !in w && t != [] && t[0] == c
    ensures IndexOf(w + t, c) == |w|
  {
    if w != [] {
      assert (w + t)[1..] == w[1..] + t;
      IndexOfConcat(w[1..], t, c);
    } else {
      assert w + t == t;
    }
  }

  /** `(true|false)\s*;` at the start of `rest`. */
  function BoolArgument(rest: string): (r: Option<bool>)
    ensures r == Some(true) <==> StartsWith(rest, "true") && TermAfter(rest, 4, ';')
    ensures r == Some(false) <==> StartsWith(rest, "false") && TermAfter(rest, 5, ';')
  {
    if StartsWith(rest, "true") && TermAfter(rest, 4, ';') then Some(true)
    else if StartsWith(rest, "false") && TermAfter(rest, 5, ';') then Some(false)
    else None
  }

  // The eleven patterns.

  /** `^\s*KEYWORD\s+(\S+)\s*\{`: a non-empty word after the keyword, then a brace. */
  function KeywordBrace(line: string, keyword: string): (r: Option<string>)
    requires keyword != []
    ensures r.Some? ==> Leads(line, keyword) && r.value != []
    ensures r.Some? ==> forall i :: 0 <= i < |r.value| ==> !IsSpace(r.value[i])
    ensures r.Some? ==> var rest := AfterKeyword(line, keyword).value;
      StartsWith(rest, r.value) && CapturesWith(rest, |r.value|, '{')
  {
    match AfterKeyword(line, keyword)
    case Some(rest) => Argument(rest, '{')
    case None => None
  }

  /** `^\s*KEYWORD\s+(\S+)\s*;`: a non-empty word after the keyword, then a semicolon. */
  function KeywordSemicolon(line: string, keyword: string): (r: Option<string>)
    requires keyword != []
    ensures r.Some? ==> Leads(line, keyword) && r.value != []
    ensures r.Some? ==> forall i :: 0 <= i < |r.value| ==> !IsSpace(r.value[i])
    ensures r.Some? ==> var rest := AfterKeyword(line, keyword).value;
      StartsWith(rest, r.value) && CapturesWith(rest, |r.value|, ';')
  {
    match AfterKeyword(line, keyword)
    case Some(rest) => Argument(rest, ';')
    case None => None
  }

  /**
   * The whole meaning of the two word patterns: each matches exactly when the
   * keyword leads the line and some capture length lets `(\S+)\s*T` match the
   * rest, and then it captures the longest such word.
   */
  lemma KeywordArgumentMeaning(line: string, keyword: string, term: char)
    requires keyword != [] && (term == '{' || term == ';')
    ensures var r := if term == '{' then KeywordBrace(line, keyword) else KeywordSemicolon(line, keyword);
      && (r.Some? <==> Leads(line, keyword) && exists k :: CapturesWith(AfterKeyword(line, keyword).value, k, term))
      && (r.Some? ==> var rest := AfterKeyword(line, keyword).value;
            forall k :: |r.value| < k <= |rest| ==> !CapturesWith(rest, k, term))
  {
  }

  /** `^\s*KEYWORD\s+"([^"]+)"\s*;`: a non-empty quoted value without quotes after the keyword. */
  function KeywordQuoted(line: string, keyword: string): (r: Option<string>)
    requires keyword != []
    ensures r.Some? ==> Leads(line, keyword) && r.value != [] && '"' !in r.value
    ensures r.Some? ==> var rest := AfterKeyword(line, keyword).value;
      StartsWith(rest, ['"'] + r.value + ['"']) && TermAfter(rest, |r.value| + 2, ';')
  {
    match AfterKeyword(line, keyword)
    case Some(rest) => Quoted(rest)
    case None => None
  }

  function MatchModule(line: string): (r: Option<string>)
    ensures r.Some? ==> Leads(line, "module") && LeadingWord(line) == "module" && r.value != []
  {
    LeadsWord(line, "module");
    KeywordBrace(line, "module")
  }

  function MatchNamespace(line: string): (r: Option<string>)
    ensures r.Some? ==> Leads(line, "namespace") && LeadingWord(line) == "namespace" && r.value != [] && '"' !in r.value
  {
    LeadsWord(line, "namespace");
    KeywordQuoted(line, "namespace")
  }

  function MatchPrefix(line: string): (r: Option<string>)
    ensures r.Some? ==> Leads(line, "prefix") && LeadingWord(line) == "prefix" && r.value != []
  {
    LeadsWord(line, "prefix");
    KeywordSemicolon(line, "prefix")
  }

  function MatchImport(line: string): (r: Option<string>)
    ensures r.Some? ==> Leads(line, "import") && LeadingWord(line) == "import" && r.value != []
  {
    LeadsWord(line, "import");
    KeywordBrace(line, "import")
  }

  function MatchType(line: string): (r: Option<string>)
    ensures r.Some? ==> Leads(line, "type") && LeadingWord(line) == "type" && r.value != []
  {
    LeadsWord(line, "type");
    KeywordSemicolon(line, "type")
  }

  function MatchDescription(line: string): (r: Option<string>)
    ensures r.Some? ==> Leads(line, "description") && LeadingWord(line) == "description" && r.value != [] && '"' !in r.value
  {
    LeadsWord(line, "description");
    KeywordQuoted(line, "description")
  }

  /** `^\s*mandatory\s+(true|false)\s*;`: the flag is the literal that follows the keyword. */
  function MatchMandatory(line: string): (r: Option<bool>)
    ensures r.Some? ==> Leads(line, "mandatory") && LeadingWord(line) == "mandatory"
    ensures Leads(line, "mandatory") ==> var rest := AfterKeyword(line, "mandatory").value;
      && (r == Some(true) <==> StartsWith(rest, "true") && TermAfter(rest, 4, ';'))
      && (r == Some(false) <==> StartsWith(rest, "false") && TermAfter(rest, 5, ';'))
  {
    LeadsWord(line, "mandatory");
    match AfterKeyword(line, "mandatory")
    case Some(rest) => BoolArgument(rest)
    case None => None
  }

  /** The container, leaf, leaf-list and list patterns: the keyword is the kind's own tag. */
  function MatchKind(line: string, kind: Kind): (r: Option<string>)
    ensures r.Some? ==> Leads(line, KindName(kind)) && LeadingWord(line) == KindName(kind) && r.value != []
  {
    LeadsWord(line, KindName(kind));
    KeywordBrace(line, KindName(kind))
  }

  /** The `leaf` keyword must be followed by a space, so a `leaf-list` line never matches the `leaf` pattern. */
  lemma LeafListIsNotLeaf(line: string)
    ensures MatchKind(line, LeafList).Some? ==> MatchKind(line, Leaf).None?
  {
    if AfterKeyword(line, "leaf-list").Some? {
      var s := line[Spaces(line)..];
      assert s[..9] == "leaf-list";
      assert s[4] == '-';
      assert AfterKeyword(line, "leaf").None?;
    }
  }

  /**
   * `^\s*KEYWORD\s+` leaves the text after the keyword and the spaces that
   * follow it: the keyword sits right after the leading spaces, at least one
   * space separates it from the text, and the text is the rest of the line,
   * starting at its first non-space.
   */
  lemma AfterKeywordShape(line: string, keyword: string)
    requires keyword != [] && AfterKeyword(line, keyword).Some?
    ensures var p, rest := Spaces(line), AfterKeyword(line, keyword).value;
      && p + |keyword| < |line| - |rest|
      && line[p..p + |keyword|] == keyword
      && (forall i :: p + |keyword| <= i < |line| - |rest| ==> IsSpace(line[i]))
      && EndsWith(line, rest)
      && (rest == [] || !IsSpace(rest[0]))
  {
    var p, k := Spaces(line), |keyword|;
    var t := line[p + k..];
    forall i | p + k <= i < p + k + Spaces(t)
      ensures IsSpace(line[i])
    {
      assert line[i] == t[i - p - k];
    }
  }

  /** A bare closing brace is matched by none of the eleven patterns. */
  lemma ClosingBraceMatchesNoPattern()
    ensures MatchModule("}").None? && MatchNamespace("}").None? && MatchPrefix("}").None?
    ensures MatchImport("}").None?
    ensures forall k :: MatchKind("}", k).None?
    ensures MatchType("}").None? && MatchMandatory("}").None? && MatchDescription("}").None?
  {
    assert Spaces("}") == 0;
  }

  /** What a line means once the module exists: the handler that the first matching pattern selects. */
  datatype Statement =
    | Namespace(uri: string)
    | Prefix(prefix: string)
    | Import(target: string)
    | Open(kind: Kind, name: string)
    | DataType(typeName: string)
    | Mandatory(value: bool)
    | Description(text: string)
    | Close
    | Unrecognized

  /** None of the type, mandatory and description patterns matches. */
  predicate NoAttributeMatches(line: string)
  {
    MatchType(line).None? && MatchMandatory(line).None? && MatchDescription(line).None?
  }

  /** None of the container, leaf, leaf-list and list patterns matches. */
  predicate NoNodeMatches(line: string)
  {
    && MatchKind(line, Container).None? && MatchKind(line, Leaf).None?
    && MatchKind(line, LeafList).None? && MatchKind(line, List).None?
  }

  /** None of the ten statement patterns (all but `module`) matches. */
  predicate NoStatementMatches(line: string)
  {
    MatchNamespace(line).None? && MatchPrefix(line).None? && MatchImport(line).None? && NoNodeMatches(line) && NoAttributeMatches(line)
  }

  /**
   * The eleven patterns exclude each other: a pattern that matches has the
   * line's first word as its keyword, so each one that matches rules out all
   * the others, and the order in which `parseYangFile` tries them never
   * changes which one is taken.
   */
  lemma PatternsExclusive(line: string)
    ensures MatchModule(line).Some? ==> NoStatementMatches(line)
    ensures MatchNamespace(line).Some? ==> MatchPrefix(line).None? && MatchImport(line).None? && NoNodeMatches(line) && NoAttributeMatches(line)
    ensures MatchPrefix(line).Some? ==> MatchImport(line).None? && NoNodeMatches(line) && NoAttributeMatches(line)
    ensures MatchImport(line).Some? ==> NoNodeMatches(line) && NoAttributeMatches(line)
    ensures MatchKind(line, Container).Some? ==> MatchKind(line, Leaf).None? && MatchKind(line, LeafList).None? && MatchKind(line, List).None? && NoAttributeMatches(line)
    ensures MatchKind(line, Leaf).Some? ==> MatchKind(line, LeafList).None? && MatchKind(line, List).None? && NoAttributeMatches(line)
    ensures MatchKind(line, LeafList).Some? ==> MatchKind(line, List).None? && NoAttributeMatches(line)
    ensures MatchKind(line, List).Some? ==> NoAttributeMatches(line)
    ensures MatchType(line).Some? ==> MatchMandatory(line).None? && MatchDescription(line).None?
    ensures MatchMandatory(line).Some? ==> MatchDescription(line).None?
  {
    var w := LeadingWord(line);
    if MatchModule(line).Some? { assert w == "module"; }
    if MatchNamespace(line).Some? { assert w == "namespace"; }
    if MatchPrefix(line).Some? { assert w == "prefix"; }
    if MatchImport(line).Some? { assert w == "import"; }
    if MatchKind(line, Container).Some? { assert w == "container"; }
    if MatchKind(line, Leaf).Some? { assert w == "leaf"; }
    if MatchKind(line, LeafList).Some? { assert w == "leaf-list"; }
    if MatchKind(line, List).Some? { assert w == "list"; }
    if MatchType(line).Some? { assert w == "type"; }
    if MatchMandatory(line).Some? { assert w == "mandatory"; }
    if MatchDescription(line).Some? { assert w == "description"; }
  }

  /**
   * The dispatch of `parseYangFile` after the module line: namespace, prefix,
   * import, container, leaf, leaf-list, list, type, mandatory, description, and
   * last the bare closing brace. The first pattern that matches wins.
   */
  function Classify(line: string): (r: Statement)
    ensures r == Close <==> line == "}"
    ensures r.Open? ==> r.name != [] && MatchKind(line, r.kind) == Some(r.name)
    ensures r.DataType? ==> r.typeName != [] && MatchType(line) == Some(r.typeName)
    ensures r.Description? ==> r.text != [] && '"' !in r.text && MatchDescription(line) == Some(r.text)
  {
    ClosingBraceMatchesNoPattern();
    match MatchNamespace(line)
    case Some(v) => Namespace(v)
    case None =>
    match MatchPrefix(line)
    case Some(v) => Prefix(v)
    case None =>
    match MatchImport(line)
    case Some(v) => Import(v)
    case None => ClassifyNode(line)
  }

  /** The container, leaf, leaf-list and list patterns, tried in that order, then the attributes. */
  function ClassifyNode(line: string): (r: Statement)
    ensures r == Close <==> line == "}"
    ensures r.Open? ==> r.name != [] && MatchKind(line, r.kind) == Some(r.name)
    ensures r.DataType? ==> r.typeName != [] && MatchType(line) == Some(r.typeName)
    ensures r.Description? ==> r.text != [] && '"' !in r.text && MatchDescription(line) == Some(r.text)
  {
    ClosingBraceMatchesNoPattern();
    match MatchKind(line, Container)
    case Some(n) => Open(Container, n)
    case None =>
    match MatchKind(line, Leaf)
    case Some(n) => Open(Leaf, n)
    case None =>
    match MatchKind(line, LeafList)
    case Some(n) => Open(LeafList, n)
    case None =>
    match MatchKind(line, List)
    case Some(n) => Open(List, n)
    case None => ClassifyAttribute(line)
  }

  /** The type, mandatory and description patterns, and last the bare closing brace. */
  function ClassifyAttribute(line: string): (r: Statement)
    ensures r == Close <==> line == "}"
    ensures r.DataType? ==> r.typeName != [] && MatchType(line) == Some(r.typeName)
    ensures r.Description? ==> r.text != [] && '"' !in r.text && MatchDescription(line) == Some(r.text)
  {
    ClosingBraceMatchesNoPattern();
    match MatchType(line)
    case Some(v) => DataType(v)
    case None =>
    match MatchMandatory(line)
    case Some(b) => Mandatory(b)
    case None =>
    match MatchDescription(line)
    case Some(v) => Description(v)
    case None =>
    if line == "}" then Close else Unrecognized
  }

  /**
   * What the attribute stage selects: the statement of whichever of the type,
   * mandatory and description patterns matches, with the value it captured;
   * otherwise a closing brace exactly for `}`, and nothing for any other line.
   */
  lemma ClassifyAttributeMeaning(line: string)
    ensures MatchType(line).Some? ==> ClassifyAttribute(line) == DataType(MatchType(line).value)
    ensures MatchMandatory(line).Some? ==> ClassifyAttribute(line) == Mandatory(MatchMandatory(line).value)
    ensures MatchDescription(line).Some? ==> ClassifyAttribute(line) == Description(MatchDescription(line).value)
    ensures ClassifyAttribute(line) == Unrecognized <==> NoAttributeMatches(line) && line != "}"
  {
    PatternsExclusive(line);
  }

  /** What the node stage selects, whichever node or attribute pattern matches. */
  lemma ClassifyNodeMeaning(line: string)
    ensures MatchKind(line, Container).Some? ==> ClassifyNode(line) == Open(Container, MatchKind(line, Container).value)
    ensures MatchKind(line, Leaf).Some? ==> ClassifyNode(line) == Open(Leaf, MatchKind(line, Leaf).value)
    ensures MatchKind(line, LeafList).Some? ==> ClassifyNode(line) == Open(LeafList, MatchKind(line, LeafList).value)
    ensures MatchKind(line, List).Some? ==> ClassifyNode(line) == Open(List, MatchKind(line, List).value)
    ensures MatchType(line).Some? ==> ClassifyNode(line) == DataType(MatchType(line).value)
    ensures MatchMandatory(line).Some? ==> ClassifyNode(line) == Mandatory(MatchMandatory(line).value)
    ensures MatchDescription(line).Some? ==> ClassifyNode(line) == Description(MatchDescription(line).value)
    ensures ClassifyNode(line) == Unrecognized <==> NoNodeMatches(line) && NoAttributeMatches(line) && line != "}"
  {
    PatternsExclusive(line);
    ClassifyAttributeMeaning(line);
  }

  /**
   * What a line means: the statement of whichever of the ten statement
   * patterns matches, with the value it captured (by `PatternsExclusive` at
   * most one does, so the order of the tries does not matter); otherwise a
   * closing brace exactly for `}`, and nothing for any other line.
   */
  lemma ClassifyMeaning(line: string)
    ensures MatchNamespace(line).Some? ==> Classify(line) == Namespace(MatchNamespace(line).value)
    ensures MatchPrefix(line).Some? ==> Classify(line) == Prefix(MatchPrefix(line).value)
    ensures MatchImport(line).Some? ==> Classify(line) == Import(MatchImport(line).value)
    ensures MatchKind(line, Container).Some? ==> Classify(line) == Open(Container, MatchKind(line, Container).value)
    ensures MatchKind(line, Leaf).Some? ==> Classify(line) == Open(Leaf, MatchKind(line, Leaf).value)
    ensures MatchKind(line, LeafList).Some? ==> Classify(line) == Open(LeafList, MatchKind(line, LeafList).value)
    ensures MatchKind(line, List).Some? ==> Classify(line) == Open(List, MatchKind(line, List).value)
    ensures MatchType(line).Some? ==> Classify(line) == DataType(MatchType(line).value)
    ensures MatchMandatory(line).Some? ==> Classify(line) == Mandatory(MatchMandatory(line).value)
    ensures MatchDescription(line).Some? ==> Classify(line) == Description(MatchDescription(line).value)
    ensures Classify(line) == Unrecognized <==> NoStatementMatches(line) && line != "}"
  {
    PatternsExclusive(line);
    ClassifyNodeMeaning(line);
  }

  /** A leaf-list line is classified as a leaf-list, never as a leaf. */
  lemma ClassifyLeafList(line: string)
    requires MatchKind(line, LeafList).Some?
    ensures Classify(line) == Open(LeafList, MatchKind(line, LeafList).value)
  {
    ClassifyMeaning(line);
  }
}
