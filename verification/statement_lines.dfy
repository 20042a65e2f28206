/**
 * Completeness of the dispatch: a statement written in the usual form, one
 * keyword, one space, the argument and its terminator, is recognized by its
 * own pattern, and so read as that statement, whatever its argument.
 */
module StatementLines {
  import opened Wrappers
  import opened JavaText
  import opened YangModel
  import opened YangPatterns

  /** An identifier-like argument: non-empty, and every character printable (above U+0020). */
  predicate Token(w: string)
  {
    w != [] && forall i :: 0 <= i < |w| ==> ' ' < w[i]
  }

  /** The line `KEYWORD ARG {`. */
  function BraceText(keyword: string, arg: string): string
  {
    keyword + " " + arg + " {"
  }

  /** The line `KEYWORD ARG;`. */
  function SemicolonText(keyword: string, arg: string): string
  {
    keyword + " " + (arg + ";")
  }

  /** The line `KEYWORD "TEXT";`. */
  function QuotedText(keyword: string, text: string): string
  {
    keyword + " " + ['"'] + text + ['"'] + ";"
  }

  /** `^\s*KEYWORD\s+` on the keyword, one space and the rest leaves exactly the rest. */
  lemma {:induction false} AfterKeywordCanonical(keyword: string, rest: string)
    requires Token(keyword) && rest != [] && !IsSpace(rest[0])
    ensures AfterKeyword(keyword + " " + rest, keyword) == Some(rest)
  {
    var line := keyword + " " + rest;
    assert Spaces(line) == 0;
    assert line[..|keyword|] == keyword;
    assert line[|keyword|..] == " " + rest;
    SpacesOfConcat(" ", rest);
    assert (" " + rest)[1..] == rest;
  }

  lemma {:induction false} BraceLine(keyword: string, arg: string, tail: string)
    requires Token(keyword) && Token(arg)
    ensures KeywordBrace(BraceText(keyword, arg) + tail, keyword) == Some(arg)
  {
    assert BraceText(keyword, arg) + tail == keyword + " " + (arg + " " + ['{'] + tail);
    AfterKeywordCanonical(keyword, arg + " " + ['{'] + tail);
    ArgumentExact(arg, " ", '{', tail);
  }

  lemma {:induction false} SemicolonLine(keyword: string, arg: string)
    requires Token(keyword) && Token(arg)
    ensures KeywordSemicolon(SemicolonText(keyword, arg), keyword) == Some(arg)
  {
    AfterKeywordCanonical(keyword, arg + ";");
    ArgumentAtEnd(arg, ';');
  }

  /** A word followed only by its terminator is captured whole. */
  lemma {:induction false} ArgumentAtEnd(name: string, term: char)
    requires name != [] && forall i :: 0 <= i < |name| ==> !IsSpace(name[i])
    requires !IsSpace(term)
    ensures Argument(name + [term], term) == Some(name)
  {
    var rest := name + [term];
    ArgumentGlued(name, term, []);
    assert rest == name + [term] + [];
    assert !CapturesWith(rest, |rest|, term);
  }

  lemma {:induction false} QuotedLine(keyword: string, text: string)
    requires Token(keyword) && text != [] && '"' !in text
    ensures KeywordQuoted(QuotedText(keyword, text), keyword) == Some(text)
  {
    var rest := ['"'] + text + ['"'] + ";";
    assert QuotedText(keyword, text) == keyword + " " + rest;
    AfterKeywordCanonical(keyword, rest);
    QuotedComplete(text, [], []);
    assert rest == ['"'] + text + ['"'] + [] + [';'] + [];
  }

  /** `namespace "URI";` */
  lemma ClassifyNamespaceLine(uri: string)
    requires uri != [] && '"' !in uri
    ensures Classify(QuotedText("namespace", uri)) == Namespace(uri)
  {
    QuotedLine("namespace", uri);
    ClassifyMeaning(QuotedText("namespace", uri));
  }

  /** `prefix P;` */
  lemma ClassifyPrefixLine(p: string)
    requires Token(p)
    ensures Classify(SemicolonText("prefix", p)) == Prefix(p)
  {
    SemicolonLine("prefix", p);
    ClassifyMeaning(SemicolonText("prefix", p));
  }

  /** `import M {` */
  lemma ClassifyImportLine(m: string)
    requires Token(m)
    ensures Classify(BraceText("import", m)) == Import(m)
  {
    var line := BraceText("import", m);
    BraceLine("import", m, []);
    assert line + [] == line;
    ClassifyMeaning(line);
  }

  /** `container N {`, `leaf N {`, `leaf-list N {`, `list N {`, and whatever follows the brace. */
  lemma ClassifyOpenLine(kind: Kind, name: string, tail: string)
    requires Token(name)
    ensures Classify(BraceText(KindName(kind), name) + tail) == Open(kind, name)
  {
    var line := BraceText(KindName(kind), name) + tail;
    BraceLine(KindName(kind), name, tail);
    assert MatchKind(line, kind) == Some(name);
    ClassifyMeaning(line);
  }

  /** `type T;` */
  lemma ClassifyTypeLine(t: string)
    requires Token(t)
    ensures Classify(SemicolonText("type", t)) == DataType(t)
  {
    SemicolonLine("type", t);
    ClassifyMeaning(SemicolonText("type", t));
  }

  /** `mandatory true;` and `mandatory false;` */
  lemma ClassifyMandatoryLine(b: bool)
    ensures Classify(SemicolonText("mandatory", if b then "true" else "false")) == Mandatory(b)
  {
    if b {
      MandatoryLine("true");
    } else {
      MandatoryLine("false");
    }
  }

  lemma MandatoryLine(v: string)
    requires v == "true" || v == "false"
    ensures Classify(SemicolonText("mandatory", v)) == Mandatory(v == "true")
  {
    var line := SemicolonText("mandatory", v);
    assert line == "mandatory" + " " + (v + ";");
    AfterKeywordCanonical("mandatory", v + ";");
    BoolLiteral(v);
    ClassifyMeaning(line);
  }

  lemma BoolLiteral(v: string)
    requires v == "true" || v == "false"
    ensures BoolArgument(v + ";") == Some(v == "true")
  {
    var rest := v + ";";
    assert rest[..|v|] == v;
    assert rest[|v|..] == ";";
    assert Spaces(";") == 0;
    if v == "false" {
      assert rest[0] == 'f';
      assert !StartsWith(rest, "true");
    }
  }

  /** `description "TEXT";` */
  lemma ClassifyDescriptionLine(d: string)
    requires d != [] && '"' !in d
    ensures Classify(QuotedText("description", d)) == Description(d)
  {
    QuotedLine("description", d);
    ClassifyMeaning(QuotedText("description", d));
  }
}
